/**
 * The console front-end: its playlist-id search, the yt-dlp command it builds,
 * and its conversion loop, which skips present files, carries on past failed
 * downloads, and gives up on the rest of the playlist at the first entry it
 * cannot read.
 */
module Termux {
  import opened Wrappers
  import opened Text
  import opened Patterns
  import opened SearchFacts
  import opened Filenames
  import opened Catalog

  /** The alternatives of `(?:playlist/|playlist:)([a-zA-Z0-9]+)`. */
  const PlaylistPrefixes := ["playlist/", "playlist:"]

  function ExtractPlaylistId(url: string): Option<string> {
    SearchGroup(url, PlaylistPrefixes)
  }

  /**
   * The id, when there is one, is the greedy run after the leftmost place where
   * either prefix is followed by a letter or digit; there is none exactly when
   * no such place exists.
   */
  lemma ExtractPlaylistIdSpec(url: string)
    ensures ExtractPlaylistId(url).None? <==> forall q: nat :: !MatchesAnyAt(url, PlaylistPrefixes, q)
    ensures ExtractPlaylistId(url).Some? ==> exists p: nat, k: nat ::
      LeftmostMatch(url, PlaylistPrefixes, p, k) && CaptureAt(url, p + |PlaylistPrefixes[k]|, ExtractPlaylistId(url).value)
  {
    SearchGroupSpec(url, PlaylistPrefixes);
  }

  /** Any host is accepted: whatever precedes the first `playlist/`, the run after it is the id. */
  lemma ExtractAfterAnyHost(lead: string, id: string, tail: string)
    requires |id| > 0 && (forall i :: 0 <= i < |id| ==> IsAlnum(id[i]))
    requires tail == [] || !IsAlnum(tail[0])
    requires forall q: nat :: q < |lead| ==> !MatchesAnyAt(lead + "playlist/" + id + tail, PlaylistPrefixes, q)
    ensures ExtractPlaylistId(lead + "playlist/" + id + tail) == Some(id)
  {
    assert PlaylistPrefixes[0] == "playlist/";
    GroupAfter(lead, PlaylistPrefixes, 0, id, tail);
  }

  /** The options every command starts with. */
  function CommandPrefix(outputPath: string): seq<string> {
    ["yt-dlp", "--newline", "--progress-template", "json", "--no-playlist",
     "-o", OutputTemplate(outputPath)]
  }

  const VideoOptions := ["-f", "bestvideo[ext=mp4]+bestaudio[ext=m4a]/best", "--merge-output-format", "mp4"]

  const AudioOptions := ["-x", "--audio-format", "mp3", "--audio-quality", "192K",
                         "--embed-thumbnail", "--add-metadata", "--embed-metadata", "--prefer-ffmpeg"]

  /**
   * `download_youtube`: the command it runs and whether it reports success,
   * given the exit status `exitCode` of that command.
   */
  method DownloadYoutube(query: string, outputPath: string, isVideo: bool, exitCode: int)
    returns (command: seq<string>, ok: bool)
    ensures |command| > 7 && command[..7] == CommandPrefix(outputPath)
    ensures "--no-playlist" in command && "-o" in command
    ensures isVideo ==> command[7..] == VideoOptions + [query]
    ensures !isVideo ==> command[7..] == AudioOptions + ["ytsearch1:" + query + " official audio"]
    ensures command[|command| - 1] == if isVideo then query else "ytsearch1:" + query + " official audio"
    ensures ok <==> exitCode == 0
  {
    command := CommandPrefix(outputPath);
    if isVideo {
      command := command + VideoOptions;
      command := command + [query];
    } else {
      command := command + AudioOptions;
      command := command + ["ytsearch1:" + query + " official audio"];
    }
    assert command[4] == "--no-playlist" && command[5] == "-o";
    ok := exitCode == 0;
  }

  /** The loop reads `track`, its `name` and its `artists` without defaults. */
  predicate Readable(item: Item) {
    item.TrackItem? && item.name.Some? && item.artists.Some?
  }

  /** `"{artist} - {title}"`, both the log text and the search query. */
  function Query(item: Item): string
    requires Readable(item)
  {
    Join(", ", item.artists.value) + " - " + item.name.value
  }

  function FileName(item: Item): string
    requires Readable(item)
  {
    Sanitize(Query(item) + ".mp3")
  }

  datatype Outcome = Skipped | Downloaded | Failed

  /**
   * What a run of the loop did: the outcome of each entry handled, in order;
   * the queries handed to the downloader, in order; whether the loop gave up
   * on an unreadable entry.
   */
  datatype Report = Report(outcomes: seq<Outcome>, queries: seq<string>, aborted: bool)

  function OutcomeOf(item: Item, existing: set<string>, downloadOk: bool): Outcome
    requires Readable(item)
  {
    if FileName(item) in existing then Skipped
    else if downloadOk then Downloaded
    else Failed
  }

  /** The queries of the entries of `items` (all readable) whose file is missing, in order. */
  function QueriesOf(items: seq<Item>, existing: set<string>): seq<string>
    requires forall j :: 0 <= j < |items| ==> Readable(items[j])
  {
    if items == [] then []
    else
      var last := items[|items| - 1];
      QueriesOf(items[..|items| - 1], existing) + (if FileName(last) !in existing then [Query(last)] else [])
  }

  /**
   * `r` is what the loop of `convert_spotify_playlist` does with `tracks`, when
   * `existing` holds the names present in the playlist folder and `download(j)`
   * is what the downloader answers for entry `j`.
   */
  ghost predicate IsRun(tracks: seq<Item>, existing: set<string>, download: nat -> bool, r: Report) {
    var n := |r.outcomes|;
    && n <= |tracks|
    && (forall j :: 0 <= j < n ==> Readable(tracks[j]) && r.outcomes[j] == OutcomeOf(tracks[j], existing, download(j)))
    && (r.aborted <==> n < |tracks|)
    && (r.aborted ==> !Readable(tracks[n]))
    && r.queries == QueriesOf(tracks[..n], existing)
  }

  /** The loop of `convert_spotify_playlist` over the collected tracks. */
  method DownloadAll(tracks: seq<Item>, existing: set<string>, download: nat -> bool) returns (r: Report)
    ensures IsRun(tracks, existing, download, r)
  {
    var outcomes: seq<Outcome> := [];
    var queries: seq<string> := [];
    var aborted := false;
    var i := 0;
    while i < |tracks|
      invariant 0 <= i <= |tracks| && |outcomes| == i
      invariant forall j :: 0 <= j < i ==> Readable(tracks[j]) && outcomes[j] == OutcomeOf(tracks[j], existing, download(j))
      invariant queries == QueriesOf(tracks[..i], existing)
    {
      var item := tracks[i];
      if !Readable(item) {
        aborted := true;
        break;
      }
      var outcome: Outcome;
      if FileName(item) in existing {
        outcome := Skipped;
      } else {
        queries := queries + [Query(item)];
        outcome := if download(i) then Downloaded else Failed;
      }
      QueriesStep(tracks, existing, i);
      outcomes := outcomes + [outcome];
      i := i + 1;
    }
    r := Report(outcomes, queries, aborted);
  }

  lemma QueriesStep(tracks: seq<Item>, existing: set<string>, i: nat)
    requires i < |tracks| && forall j :: 0 <= j <= i ==> Readable(tracks[j])
    ensures QueriesOf(tracks[..i + 1], existing) == QueriesOf(tracks[..i], existing)
      + (if FileName(tracks[i]) !in existing then [Query(tracks[i])] else [])
  {
    assert tracks[..i + 1][..i] == tracks[..i];
  }

  /**
   * A failed download does not end the loop: when every entry is readable, every
   * entry is handled, in list order, whatever the downloader answers.
   */
  lemma FailuresDoNotStop(tracks: seq<Item>, existing: set<string>, download: nat -> bool, r: Report)
    requires IsRun(tracks, existing, download, r)
    requires forall j :: 0 <= j < |tracks| ==> Readable(tracks[j])
    ensures !r.aborted && |r.outcomes| == |tracks|
    ensures forall j :: 0 <= j < |tracks| ==> r.outcomes[j] == OutcomeOf(tracks[j], existing, download(j))
  {
  }

  /** The loop stops exactly at the first unreadable entry. */
  lemma AbortsAtFirstUnreadable(tracks: seq<Item>, existing: set<string>, download: nat -> bool, r: Report, j: nat)
    requires IsRun(tracks, existing, download, r)
    requires j < |tracks| && !Readable(tracks[j]) && forall i :: 0 <= i < j ==> Readable(tracks[i])
    ensures r.aborted && |r.outcomes| == j
  {
  }

  /** An entry whose file is present is skipped, and no query is issued for it. */
  lemma {:induction false} QueriesOnlyForMissing(items: seq<Item>, existing: set<string>, q: nat)
    requires forall j :: 0 <= j < |items| ==> Readable(items[j])
    requires q < |QueriesOf(items, existing)|
    ensures exists j :: 0 <= j < |items| && FileName(items[j]) !in existing && QueriesOf(items, existing)[q] == Query(items[j])
    decreases |items|
  {
    var init := items[..|items| - 1];
    var last := items[|items| - 1];
    if q < |QueriesOf(init, existing)| {
      QueriesOnlyForMissing(init, existing, q);
      var j :| 0 <= j < |init| && FileName(init[j]) !in existing && QueriesOf(init, existing)[q] == Query(init[j]);
      assert items[j] == init[j];
    } else {
      assert FileName(last) !in existing && QueriesOf(items, existing)[q] == Query(last);
    }
  }

  /** When every file is already present, the downloader is never called. */
  lemma {:induction false} AllPresentNoQueries(items: seq<Item>, existing: set<string>)
    requires forall j :: 0 <= j < |items| ==> Readable(items[j]) && FileName(items[j]) in existing
    ensures QueriesOf(items, existing) == []
    decreases |items|
  {
    if items != [] {
      AllPresentNoQueries(items[..|items| - 1], existing);
    }
  }

  /** How the conversion of a playlist ended. */
  datatype Conversion =
    | InvalidUrl         // no playlist id in the link: nothing fetched, nothing downloaded
    | ConversionError    // the lookup, the playlist's name or a page could not be had
    | Converted(folder: string, tracks: seq<Item>, report: Report)

  /**
   * `convert_spotify_playlist`: `lookup` is what the catalog answers for the id;
   * `pages` are the playlist's track pages, the first one being the one embedded
   * in the lookup's answer; `existing` the names in the playlist's folder.
   */
  method ConvertPlaylist(url: string, outputDir: string, lookup: Lookup, pages: seq<Page>,
                         existing: set<string>, download: nat -> bool) returns (c: Conversion)
    ensures c == InvalidUrl <==> ExtractPlaylistId(url).None?
    ensures c == ConversionError <==>
      ExtractPlaylistId(url).Some? &&
      (!lookup.Found? || lookup.name.None? || forall j :: 0 <= j < |pages| ==> pages[j].hasNext)
    ensures c.Converted? ==> lookup.Found? && c.folder == PathJoin(outputDir, Sanitize(lookup.name.value))
    ensures c.Converted? ==> |c.folder| >= |outputDir| && c.folder[..|outputDir|] == outputDir
    ensures c.Converted? ==> exists k: nat :: Collects(pages, k) && c.tracks == ItemsOf(pages[..k])
    ensures c.Converted? ==> IsRun(c.tracks, existing, download, c.report)
  {
    var id := ExtractPlaylistId(url);
    if id.None? {
      return InvalidUrl;
    }
    if !lookup.Found? || lookup.name.None? {
      return ConversionError;
    }
    var folder := PathJoin(outputDir, Sanitize(lookup.name.value));
    JoinSanitized(outputDir, lookup.name.value);
    var tracks, fetched := CollectTracks(pages);
    if tracks.None? {
      return ConversionError;
    }
    assert Collects(pages, fetched);
    var report := DownloadAll(tracks.value, existing, download);
    c := Converted(folder, tracks.value, report);
  }
}
