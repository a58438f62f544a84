/**
 * The conversion pipeline of the graphical front-end (`SpotifyToYouTubeConverter`):
 * playlist-id extraction, the search command, and the loop that skips, downloads
 * and counts the playlist's tracks, honouring the stop flag.
 */
module Gui {
  import opened Wrappers
  import opened Text
  import opened Patterns
  import opened SearchFacts
  import opened Filenames
  import opened Catalog

  const WebPrefix := "open.spotify.com/playlist/"
  const UriPrefix := "spotify:playlist:"

  /**
   * `extract_spotify_playlist_id`: the group after the web form of the link;
   * failing that, the group after the URI form; failing both, `None`.
   */
  function ExtractPlaylistId(url: string): Option<string> {
    match SearchGroup(url, [WebPrefix])
    case Some(id) => Some(id)
    case None => SearchGroup(url, [UriPrefix])
  }

  /** There is no id exactly when neither form occurs followed by a letter or digit. */
  lemma ExtractFails(url: string)
    ensures ExtractPlaylistId(url).None? <==>
      (forall q: nat :: !MatchesAnyAt(url, [WebPrefix], q)) && (forall q: nat :: !MatchesAnyAt(url, [UriPrefix], q))
  {
    SearchGroupFails(url, [WebPrefix]);
    SearchGroupFails(url, [UriPrefix]);
  }

  /**
   * The web form, wherever it occurs, takes precedence: the id is then the
   * greedy run of letters and digits after its leftmost occurrence.
   */
  lemma ExtractPrefersWeb(url: string, q: nat)
    requires MatchesAnyAt(url, [WebPrefix], q)
    ensures ExtractPlaylistId(url).Some?
    ensures exists p: nat :: LeftmostMatch(url, [WebPrefix], p, 0) && CaptureAt(url, p + |WebPrefix|, ExtractPlaylistId(url).value)
  {
    SearchGroupSpec(url, [WebPrefix]);
  }

  /** Without the web form, the id is the greedy run after the leftmost URI form. */
  lemma ExtractFallsBackToUri(url: string)
    requires forall q: nat :: !MatchesAnyAt(url, [WebPrefix], q)
    requires ExtractPlaylistId(url).Some?
    ensures exists p: nat :: LeftmostMatch(url, [UriPrefix], p, 0) && CaptureAt(url, p + |UriPrefix|, ExtractPlaylistId(url).value)
  {
    SearchGroupFails(url, [WebPrefix]);
    SearchGroupSpec(url, [UriPrefix]);
  }

  /** The id is read back from a link that holds it after the web form, whatever comes before. */
  lemma ExtractFromLink(lead: string, id: string, tail: string)
    requires |id| > 0 && (forall i :: 0 <= i < |id| ==> IsAlnum(id[i]))
    requires tail == [] || !IsAlnum(tail[0])
    requires forall q: nat :: q < |lead| ==> !MatchesAt(lead + WebPrefix + id + tail, WebPrefix, q)
    ensures ExtractPlaylistId(lead + WebPrefix + id + tail) == Some(id)
  {
    var url := lead + WebPrefix + id + tail;
    forall q: nat | q < |lead| ensures !MatchesAnyAt(url, [WebPrefix], q) {
      assert !MatchesAt(url, [WebPrefix][0], q);
    }
    GroupAfter(lead, [WebPrefix], 0, id, tail);
  }

  /** In particular the share link `https://open.spotify.com/playlist/<id>` gives `<id>`. */
  lemma ExtractFromShareLink(id: string, tail: string)
    requires |id| > 0 && (forall i :: 0 <= i < |id| ==> IsAlnum(id[i]))
    requires tail == [] || !IsAlnum(tail[0])
    ensures ExtractPlaylistId("https://" + WebPrefix + id + tail) == Some(id)
  {
    var url := "https://" + WebPrefix + id + tail;
    forall q: nat | q < 8 ensures !MatchesAt(url, WebPrefix, q) {
      assert url[q + 0] == "https://"[q] != WebPrefix[0];
    }
    ExtractFromLink("https://", id, tail);
  }

  /** The URI form `spotify:playlist:<id>` gives `<id>` when the web form does not occur. */
  lemma ExtractFromUri(id: string, tail: string)
    requires |id| > 0 && (forall i :: 0 <= i < |id| ==> IsAlnum(id[i]))
    requires tail == [] || !IsAlnum(tail[0])
    requires forall q: nat :: !MatchesAnyAt(UriPrefix + id + tail, [WebPrefix], q)
    ensures ExtractPlaylistId(UriPrefix + id + tail) == Some(id)
  {
    var url := UriPrefix + id + tail;
    SearchGroupFails(url, [WebPrefix]);
    assert url == [] + UriPrefix + id + tail;
    GroupAfter([], [UriPrefix], 0, id, tail);
  }

  /** The arguments `download_from_search` starts yt-dlp with. */
  function SearchCommand(searchQuery: string, outputPath: string): (command: seq<string>)
    ensures |command| == 19 && command[0] == "yt-dlp" && command[4] == "--no-playlist"
    ensures command[16] == "-o" && command[17] == OutputTemplate(outputPath)
    ensures command[18] == "ytsearch1:" + searchQuery + " official audio"
    ensures "--no-playlist" in command && "-x" in command
  {
    [ "yt-dlp", "--newline", "--progress-template", "json", "--no-playlist",
      "-x", "--audio-format", "mp3", "--audio-quality", "192K",
      "--embed-thumbnail", "--add-metadata", "--embed-metadata",
      "--parse-metadata", "title:%(artist)s - %(title)s", "--prefer-ffmpeg",
      "-o", OutputTemplate(outputPath), "ytsearch1:" + searchQuery + " official audio" ]
  }

  /** `track.get("name", "Unknown Track")`. */
  function Title(item: Item): string
    requires item.TrackItem?
  {
    item.name.GetOr("Unknown Track")
  }

  /** `", ".join` of the artist names, none when the key is absent. */
  function Artists(item: Item): string
    requires item.TrackItem?
  {
    Join(", ", item.artists.GetOr([]))
  }

  /** The file a finished download of `item` is expected under. */
  function ExpectedFileName(item: Item): string
    requires item.TrackItem?
  {
    Sanitize(Artists(item) + " - " + Title(item) + ".mp3")
  }

  /** The text handed to `download_from_search`. */
  function SearchQuery(item: Item): string
    requires item.TrackItem?
  {
    Artists(item) + " " + Title(item)
  }

  datatype Outcome =
    | NoTrack          // no track data: skipped, not counted
    | AlreadyPresent   // the expected file exists: counted, nothing downloaded
    | Downloaded       // the downloader succeeded: counted
    | Failed           // the downloader failed: not counted
  {
    predicate Counted() { AlreadyPresent? || Downloaded? }
    predicate Attempted() { Downloaded? || Failed? }
  }

  datatype Verdict = Complete | Partial

  /**
   * What a run of the loop did: the outcome of each entry examined, in order;
   * the queries handed to the downloader, in order; `success_count`; whether
   * the stop flag ended the loop; and which final message was logged.
   */
  datatype Report = Report(outcomes: seq<Outcome>, searches: seq<string>, successCount: nat, stopped: bool, verdict: Verdict)

  /** The outcome of one entry, given what the downloader would answer for it. */
  function OutcomeOf(item: Item, existing: set<string>, downloadOk: bool): Outcome {
    if item.EmptyItem? then NoTrack
    else if ExpectedFileName(item) in existing then AlreadyPresent
    else if downloadOk then Downloaded
    else Failed
  }

  function CountCounted(outcomes: seq<Outcome>): nat {
    if outcomes == [] then 0
    else CountCounted(outcomes[..|outcomes| - 1]) + (if outcomes[|outcomes| - 1].Counted() then 1 else 0)
  }

  function CountAttempted(outcomes: seq<Outcome>): nat {
    if outcomes == [] then 0
    else CountAttempted(outcomes[..|outcomes| - 1]) + (if outcomes[|outcomes| - 1].Attempted() then 1 else 0)
  }

  /** The search queries of the entries of `items` that have track data and no file yet, in order. */
  function SearchesOf(items: seq<Item>, existing: set<string>): seq<string> {
    if items == [] then []
    else
      var last := items[|items| - 1];
      SearchesOf(items[..|items| - 1], existing)
        + (if last.TrackItem? && ExpectedFileName(last) !in existing then [SearchQuery(last)] else [])
  }

  /**
   * `r` is what the loop of `convert_spotify_playlist` does with `tracks`, when
   * `existing` holds the names present in the playlist folder, `stop(j)` is the
   * stop flag as seen before entry `j` and `download(j)` is what the downloader
   * answers for entry `j`.
   */
  ghost predicate IsRun(tracks: seq<Item>, existing: set<string>, stop: nat -> bool, download: nat -> bool, r: Report) {
    var n := |r.outcomes|;
    && n <= |tracks|
    && (forall j :: 0 <= j < n ==> !stop(j) && r.outcomes[j] == OutcomeOf(tracks[j], existing, download(j)))
    && (r.stopped <==> n < |tracks|)
    && (r.stopped ==> stop(n))
    && r.successCount == CountCounted(r.outcomes)
    && r.searches == SearchesOf(tracks[..n], existing)
    && (r.verdict == Complete <==> r.successCount == |tracks|)
  }

  /** The loop of `convert_spotify_playlist` over the collected tracks. */
  method DownloadTracks(tracks: seq<Item>, existing: set<string>, stop: nat -> bool, download: nat -> bool)
    returns (r: Report)
    ensures IsRun(tracks, existing, stop, download, r)
  {
    var outcomes: seq<Outcome> := [];
    var searches: seq<string> := [];
    var successCount: nat := 0;
    var stopped := false;
    var i := 0;
    while i < |tracks|
      invariant 0 <= i <= |tracks| && |outcomes| == i
      invariant forall j :: 0 <= j < i ==> !stop(j) && outcomes[j] == OutcomeOf(tracks[j], existing, download(j))
      invariant successCount == CountCounted(outcomes)
      invariant searches == SearchesOf(tracks[..i], existing)
    {
      if stop(i) {
        stopped := true;
        break;
      }
      var outcome, searched := HandleEntry(tracks[i], existing, download(i));
      if outcome.Counted() {
        successCount := successCount + 1;
      }
      searches := searches + searched;
      SearchesStep(tracks, existing, i);
      CountCountedStep(outcomes, outcome);
      outcomes := outcomes + [outcome];
      i := i + 1;
    }
    var verdict := if successCount == |tracks| then Complete else Partial;
    r := Report(outcomes, searches, successCount, stopped, verdict);
  }

  /**
   * The body of the loop for an entry the stop flag lets through: skip an entry
   * without track data, count one whose file exists, and otherwise search and
   * download it; `downloadOk` is what the downloader answers.
   */
  method HandleEntry(item: Item, existing: set<string>, downloadOk: bool) returns (outcome: Outcome, searched: seq<string>)
    ensures outcome == OutcomeOf(item, existing, downloadOk)
    ensures searched == SearchesOf([item], existing)
    ensures |searched| == if outcome.Attempted() then 1 else 0
  {
    assert [item][..0] == [];
    searched := [];
    if item.EmptyItem? {
      outcome := NoTrack;
    } else if ExpectedFileName(item) in existing {
      outcome := AlreadyPresent;
    } else {
      searched := [SearchQuery(item)];
      if downloadOk {
        outcome := Downloaded;
      } else {
        outcome := Failed;
      }
    }
  }

  lemma SearchesStep(tracks: seq<Item>, existing: set<string>, i: nat)
    requires i < |tracks|
    ensures SearchesOf(tracks[..i + 1], existing) == SearchesOf(tracks[..i], existing) + SearchesOf([tracks[i]], existing)
  {
    assert tracks[..i + 1][..i] == tracks[..i];
    assert [tracks[i]][..0] == [];
  }

  lemma CountCountedStep(outcomes: seq<Outcome>, o: Outcome)
    ensures CountCounted(outcomes + [o]) == CountCounted(outcomes) + (if o.Counted() then 1 else 0)
  {
    assert (outcomes + [o])[..|outcomes|] == outcomes;
  }

  lemma {:induction false} CountCountedBounds(outcomes: seq<Outcome>)
    ensures CountCounted(outcomes) <= |outcomes|
    ensures CountCounted(outcomes) == |outcomes| <==> forall j :: 0 <= j < |outcomes| ==> outcomes[j].Counted()
    decreases |outcomes|
  {
    if outcomes != [] {
      var init := outcomes[..|outcomes| - 1];
      CountCountedBounds(init);
      if CountCounted(outcomes) == |outcomes| {
        assert forall j :: 0 <= j < |init| ==> init[j] == outcomes[j];
      }
    }
  }

  /** `success_count` never exceeds the number of entries examined, nor the number of tracks. */
  lemma SuccessCountBounded(tracks: seq<Item>, existing: set<string>, stop: nat -> bool, download: nat -> bool, r: Report)
    requires IsRun(tracks, existing, stop, download, r)
    ensures r.successCount <= |r.outcomes| <= |tracks|
  {
    CountCountedBounds(r.outcomes);
  }

  /**
   * The stop flag seen before entry `j` means that no entry from `j` on is
   * examined or downloaded, and that the final message is the partial one.
   */
  lemma StopForcesPartial(tracks: seq<Item>, existing: set<string>, stop: nat -> bool, download: nat -> bool, r: Report, j: nat)
    requires IsRun(tracks, existing, stop, download, r)
    requires j < |tracks| && stop(j)
    ensures |r.outcomes| <= j && r.stopped
    ensures |r.searches| <= |SearchesOf(tracks[..j], existing)|
    ensures r.verdict == Partial
  {
    CountCountedBounds(r.outcomes);
    var n := |r.outcomes|;
    SearchesOfPrefix(tracks[..j], existing, n);
    assert tracks[..j][..n] == tracks[..n];
  }

  /** Searches of a prefix are a prefix of the searches. */
  lemma {:induction false} SearchesOfPrefix(items: seq<Item>, existing: set<string>, n: nat)
    requires n <= |items|
    ensures |SearchesOf(items[..n], existing)| <= |SearchesOf(items, existing)|
    decreases |items|
  {
    if n < |items| {
      var init := items[..|items| - 1];
      assert init[..n] == items[..n];
      SearchesOfPrefix(init, existing, n);
    } else {
      assert items[..n] == items;
    }
  }

  /**
   * "complete" is logged exactly when the loop ran to the end and every entry
   * was counted: it had track data and its file either existed or was downloaded.
   */
  lemma CompleteIffAllCounted(tracks: seq<Item>, existing: set<string>, stop: nat -> bool, download: nat -> bool, r: Report)
    requires IsRun(tracks, existing, stop, download, r)
    ensures r.verdict == Complete <==>
      !r.stopped && forall j :: 0 <= j < |tracks| ==> OutcomeOf(tracks[j], existing, download(j)).Counted()
  {
    CountCountedBounds(r.outcomes);
  }

  /** An entry without track data keeps the verdict partial, whatever else happens. */
  lemma EmptyEntryForcesPartial(tracks: seq<Item>, existing: set<string>, stop: nat -> bool, download: nat -> bool, r: Report, j: nat)
    requires IsRun(tracks, existing, stop, download, r)
    requires j < |tracks| && tracks[j].EmptyItem?
    ensures r.verdict == Partial
  {
    CompleteIffAllCounted(tracks, existing, stop, download, r);
    assert !OutcomeOf(tracks[j], existing, download(j)).Counted();
  }

  /** The downloader is invoked exactly once per entry whose outcome is a download attempt. */
  lemma {:induction false} SearchesMatchAttempts(tracks: seq<Item>, existing: set<string>, download: nat -> bool, outcomes: seq<Outcome>)
    requires |outcomes| <= |tracks|
    requires forall j :: 0 <= j < |outcomes| ==> outcomes[j] == OutcomeOf(tracks[j], existing, download(j))
    ensures |SearchesOf(tracks[..|outcomes|], existing)| == CountAttempted(outcomes)
    decreases |outcomes|
  {
    var n := |outcomes|;
    if n > 0 {
      SearchesMatchAttempts(tracks, existing, download, outcomes[..n - 1]);
      assert tracks[..n][..n - 1] == tracks[..n - 1];
    }
  }

  /** How the conversion of a playlist ended. */
  datatype Conversion =
    | InvalidUrl                 // no playlist id in the link: nothing fetched
    | PlaylistNotFound           // the lookup answered 404
    | AccessDenied               // the lookup answered 403
    | ApiError(status: int)      // the lookup failed with another status
    | LookupFailed               // the lookup raised another exception
    | TracksFailed               // fetching a page raised: nothing downloaded
    | Converted(folder: string, tracks: seq<Item>, report: Report)

  /**
   * `convert_spotify_playlist`: extract the id, look the playlist up, collect its
   * pages, then run the loop on the tracks in the playlist's folder under
   * `outputPath`. `lookup` is what the catalog answers for the id, `pages` what
   * it answers for the track pages and `existing` the names in that folder.
   */
  method ConvertPlaylist(url: string, outputPath: string, lookup: Lookup, pages: seq<Page>, existing: set<string>,
                         stop: nat -> bool, download: nat -> bool) returns (c: Conversion)
    ensures c == InvalidUrl <==> ExtractPlaylistId(url).None?
    ensures ExtractPlaylistId(url).Some? && lookup.HttpError? ==>
      c == (if lookup.status == 404 then PlaylistNotFound
            else if lookup.status == 403 then AccessDenied
            else ApiError(lookup.status))
    ensures ExtractPlaylistId(url).Some? && lookup.Unreachable? ==> c == LookupFailed
    ensures c == TracksFailed <==>
      ExtractPlaylistId(url).Some? && lookup.Found? && forall j :: 0 <= j < |pages| ==> pages[j].hasNext
    ensures c.Converted? <==>
      ExtractPlaylistId(url).Some? && lookup.Found? && !(forall j :: 0 <= j < |pages| ==> pages[j].hasNext)
    ensures c.Converted? ==> lookup.Found? && c.folder == PathJoin(outputPath, Sanitize(lookup.name.GetOr("Unknown Playlist")))
    ensures c.Converted? ==> |c.folder| >= |outputPath| && c.folder[..|outputPath|] == outputPath
    ensures c.Converted? ==> exists k: nat :: Collects(pages, k) && c.tracks == ItemsOf(pages[..k])
    ensures c.Converted? ==> IsRun(c.tracks, existing, stop, download, c.report)
  {
    var id := ExtractPlaylistId(url);
    if id.None? {
      return InvalidUrl;
    }
    match lookup {
      case HttpError(status) =>
        c := if status == 404 then PlaylistNotFound else if status == 403 then AccessDenied else ApiError(status);
        return;
      case Unreachable =>
        return LookupFailed;
      case Found(name) =>
        var tracks, fetched := CollectTracks(pages);
        if tracks.None? {
          return TracksFailed;
        }
        assert Collects(pages, fetched);
        var report := DownloadTracks(tracks.value, existing, stop, download);
        JoinSanitized(outputPath, name.GetOr("Unknown Playlist"));
        c := Converted(PathJoin(outputPath, Sanitize(name.GetOr("Unknown Playlist"))), tracks.value, report);
    }
  }
}
