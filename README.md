# YT-and-SPOTIFY-Downloader: the playlist-conversion core in Dafny

The downloader turns a Spotify playlist into MP3 files. It ships two front-ends:

- `GuiForPc.py`, a desktop application;
- `TermuxVersion.py`, a console script.

Both do the same job in five steps:

1. Find the playlist id in the link the user pastes.
2. Look up the playlist and follow its track pages until no `next` link is left.
3. For each track, build the expected file name (`"{artists} - {title}.mp3"`, sanitized) and skip the track when that file is already present.
4. Otherwise search YouTube through `yt-dlp` for the track and download its audio.
5. Report how the run went.

This project models that pipeline and the helpers around it, and proves what they promise:

- the file-name sanitizer;
- the two playlist-id searches, whose patterns differ between the front-ends;
- the pagination loop;
- the per-track loop, with its counting, skipping, stop flag and final verdict;
- the yt-dlp argument lists;
- the desktop front-end's progress-line classifier, status dispatch and ETA formatter;
- the default-merge loop of `load_config`.

Modules:

- `Wrappers`: `Option`.
- `Text`: letters and digits, substrings, decimal rendering and reading, `", ".join`.
- `Patterns`: how Python's `re.search` behaves on the id patterns `(?:P1|P2|…)([a-zA-Z0-9]+)`. It settles at the leftmost position where some prefix is followed by at least one letter or digit, takes the first alternative that succeeds there, and its group is the longest run of letters and digits.
- `SearchFacts`: what that search returns, characterised independently of the scan.
- `Filenames`: `sanitize_filename` and POSIX `os.path.join`.
- `Catalog`: playlist items, track pages, and the loop that follows `next`.
- `Config`: the merge of the default configuration into a loaded one.
- `Progress`: `parse_progress`, `handle_progress_data` and `format_eta`.
- `Gui`: `extract_spotify_playlist_id`, `download_from_search`'s command, and `convert_spotify_playlist` of the desktop front-end.
- `Termux`: the id search, `download_youtube` and `convert_spotify_playlist` of the console front-end.

Everything outside the program is an input to the model:

- The catalog's answers are a `Lookup` for the playlist and a sequence of `Page`s. `pages[0]` answers the first request, and each later page answers following the previous page's `next`. A request past the end of the sequence raises.
- The files already in the playlist folder are a set of names.
- The downloader's answer for entry `j` is `download(j)`.
- The desktop front-end's stop flag, as read at the top of iteration `j`, is `stop(j)`. The flag is set from another thread.
- The exit code of the console front-end's subprocess is a parameter.
- `json.loads` is an abstract decode result: either a decoded payload or a decode error.

Three behaviours of the code are worth stating outright:

- **Final verdict of the desktop loop.** The verdict compares `success_count` with `len(tracks)`, the number of tracks listed, not the number attempted (`GuiForPc.py:725`). So an entry without track data, or a stop, always gives the partial verdict. `Gui.CompleteIffAllCounted` and `Gui.EmptyEntryForcesPartial` state this.
- **An unreadable entry in the console loop.** The console loop reads `track`, its `name` and its `artists` without defaults. An entry lacking any of them raises. The handler logs the exception, and the rest of the playlist is abandoned (`TermuxVersion.py:116-118`, `130-131`).
- **The console front-end's merge.** It runs the merge only when a configuration file exists. When there is none, it writes the defaults as they are, which is the merge applied to an empty configuration (`Config.FreshTermuxConfig`).

## Model

| member | source | states |
|---|---|---|
| Filenames.SanitizeSpec | GuiForPc.py:803-805 | the length is preserved, no forbidden character (backslash, slash, `*`, `?`, `:`, `"`, `<`, `>` or the vertical bar) is left, each of them becomes `_`, and every other character is kept in place |
| Filenames.SanitizeFixesClean | TermuxVersion.py:54-55 | a name without forbidden characters comes back unchanged |
| Filenames.SanitizeIdempotent | TermuxVersion.py:54-55 | sanitizing twice gives the same as sanitizing once |
| Filenames.PathJoin | GuiForPc.py:673-675 | an absolute name replaces the directory; otherwise the result is the directory, then one `/` exactly when the directory is non-empty and does not already end with one, then the name |
| Filenames.JoinSanitized | TermuxVersion.py:105-106 | joining a sanitized name never replaces the directory: the result starts with the directory and ends with the sanitized name |
| Patterns.FirstAlternative | TermuxVersion.py:98 | the alternation picks the first alternative that can match at a position, and none means none of them can |
| Patterns.FindSpec | GuiForPc.py:614-617 | the scan returns the first position where some alternative matches, with the first such alternative; it fails only when the pattern matches nowhere |
| Patterns.RunLength | GuiForPc.py:610 | `[a-zA-Z0-9]+` is greedy: the run is all letters and digits and is followed by the end of the text or by another character |
| SearchFacts.SearchGroupSpec | GuiForPc.py:615-617 | `re.search(...).group(1)` is absent exactly when the pattern matches nowhere; otherwise it is the greedy group after the prefix at the leftmost match |
| SearchFacts.LeftmostMatchUnique | GuiForPc.py:615 | the position and alternative where the search settles are unique |
| SearchFacts.CaptureIsRun | GuiForPc.py:610 | the greedy group at an index is exactly the longest run of letters and digits there |
| SearchFacts.FindIsLeftmost | TermuxVersion.py:98 | the scan stops exactly where the search settles |
| SearchFacts.SearchGroupFinds | TermuxVersion.py:98 | where the search settles and the group there determine the result |
| SearchFacts.GroupAfter | TermuxVersion.py:98 | in `lead + prefix + id + tail`, with no earlier match, the group is `id` whenever `id` is a maximal run |
| Gui.ExtractFails | GuiForPc.py:607-619 | there is no id exactly when neither `open.spotify.com/playlist/` nor `spotify:playlist:` is followed by a letter or digit anywhere |
| Gui.ExtractPrefersWeb | GuiForPc.py:609-617 | when the web form matches anywhere, it wins, and the id is the greedy run after its leftmost match |
| Gui.ExtractFallsBackToUri | GuiForPc.py:611-617 | without the web form, the id is the greedy run after the leftmost `spotify:playlist:` |
| Gui.ExtractFromLink | GuiForPc.py:610-617 | the id held after the web form is read back, whatever precedes it |
| Gui.ExtractFromShareLink | GuiForPc.py:610 | `https://open.spotify.com/playlist/<id>` followed by a non-alphanumeric character or nothing gives `<id>` |
| Gui.ExtractFromUri | GuiForPc.py:611 | `spotify:playlist:<id>` gives `<id>` when the web form is absent |
| Gui.SearchCommand | GuiForPc.py:744-769 | the 19 arguments: `yt-dlp` first, `--no-playlist` and `-x` present, `-o` and the output template, and last the target `ytsearch1:<query> official audio` |
| Gui.HandleEntry | GuiForPc.py:697-723 | an entry without track data is skipped and not counted; one whose sanitized `"{artists} - {title}.mp3"` exists is counted with no search; any other is searched once with `"{artists} {title}"` and counted iff the downloader succeeds |
| Gui.DownloadTracks | GuiForPc.py:687-734 | the loop examines the entries in order until the stop flag is seen; the outcomes, the searches, `success_count` and the verdict are those of the entries examined, and the verdict is complete iff `success_count == len(tracks)` |
| Gui.CountCountedBounds | GuiForPc.py:719-723 | the success count is at most the number of outcomes, with equality iff every outcome counts |
| Gui.SuccessCountBounded | GuiForPc.py:687-725 | `success_count` never exceeds the number of entries examined, nor `len(tracks)` |
| Gui.StopForcesPartial | GuiForPc.py:689-695 | the stop flag seen before entry `j` means no entry from `j` on is examined or searched, and the verdict is partial |
| Gui.CompleteIffAllCounted | GuiForPc.py:725-734 | "complete" is logged iff the loop was not stopped and every entry has track data whose file existed or was downloaded |
| Gui.EmptyEntryForcesPartial | GuiForPc.py:697-699 | one entry without track data makes the verdict partial |
| Gui.SearchesMatchAttempts | GuiForPc.py:715-723 | the downloader is invoked once per entry that is neither empty nor present, and for no other |
| Gui.ConvertPlaylist | GuiForPc.py:621-734 | an invalid link fetches nothing; a 404, a 403, another API status and any other lookup failure each end the run with their own error; a failed page fetch downloads nothing; the run converts exactly when the link holds an id, the playlist is found and some page has no `next`, and then the folder is the sanitized playlist name (default "Unknown Playlist") joined to the output path, and so starts with the output path; the tracks are the collected pages' items, and the loop runs on them |
| Catalog.CollectTracks | GuiForPc.py:680-685 | the pages fetched are exactly those up to the first without `next`; the tracks are their items in page order; a request past the last page fails the collection |
| Catalog.ItemsOfConcat | GuiForPc.py:683-685 | collecting the pages of two runs in turn gives the items of the first followed by those of the second |
| Catalog.ItemsOfLength | TermuxVersion.py:110-113 | the number of tracks collected is the sum of the page sizes |
| Config.MergeDefaults | GuiForPc.py:77-82 | the nested loops produce the merged configuration |
| Config.AddMissingKeys | TermuxVersion.py:43-45 | the inner loop adds each default key the section lacks and keeps every key it has |
| Config.FoldedIsMerged | TermuxVersion.py:40-45 | merging one default section at a time gives the merged configuration |
| Config.MergeStep | GuiForPc.py:77-82 | one outer iteration adds one section's defaults beneath its stored keys and leaves every other section as it was |
| Config.MergedKeepsStored | TermuxVersion.py:40-45 | every value the loaded configuration holds is unchanged by the merge |
| Config.MergedComplete | TermuxVersion.py:40-45 | after the merge, every default section and every default key is present |
| Config.MergedDefaultValue | GuiForPc.py:80-82 | a default key the loaded section lacks gets exactly its default value |
| Config.MergedAddsOnlyDefaults | GuiForPc.py:77-82 | the merge adds only default sections and default keys |
| Config.MergedIdempotent | GuiForPc.py:77-82 | merging the defaults into a merged configuration changes nothing |
| Config.TermuxLoadedHasKeys | TermuxVersion.py:16-19 | after loading, the console front-end finds `client_id`, `client_secret` and `output_path` |
| Config.FreshTermuxConfig | TermuxVersion.py:34-37 | writing the defaults when no file exists gives the same configuration as merging them into an empty one |
| Config.DefaultsDistinct | GuiForPc.py:21-29 | both default configurations have distinct section names and distinct keys |
| Progress.FormatEtaReadsBack | GuiForPc.py:892-906 | the rendered eta is in the one form a strict reader accepts for its range (no leading zeros, seconds below 60 alone, minutes from 1 to 59 with seconds below 60, hours from 1 with minutes below 60) and denotes the same time: exactly below an hour, truncated to the minute from an hour on |
| Progress.ReadBackNegative | GuiForPc.py:898-900 | a negative eta is rendered in the form `"-Ns"` and denotes itself |
| Progress.ReadBackSeconds | GuiForPc.py:899-900 | below 60 seconds, the form `"Ns"`, denoting the eta itself |
| Progress.ReadBackMinutes | GuiForPc.py:901-902 | below an hour, the form `"Mm Ss"` with M from 1 to 59 and S below 60, denoting the eta itself |
| Progress.ReadBackHours | GuiForPc.py:903-904 | from an hour on, the form `"Hh Mm"` with H at least 1 and M below 60, denoting the eta truncated to the minute |
| Progress.FormatEtaOfRead | GuiForPc.py:898-904 | every text the strict reader accepts is the rendering of the time it denotes |
| Progress.FormatEtaIsOnlyForm | GuiForPc.py:898-904 | a text read as the same time as the rendering of an eta is that rendering, character for character |
| Text.CanonicalRoundTrip | GuiForPc.py:900 | a numeral without a leading zero is `str` of its value |
| Progress.ClassifyPriority | GuiForPc.py:840-847 | the level is error iff "ERROR" occurs; else warning iff "WARNING" occurs; else info iff "Downloading" or "Merging" occurs; else debug |
| Progress.DispatchByStatus | GuiForPc.py:852-874 | "downloading" with a readable progress logs `"Downloading: …"` at info with the formatted eta, and raises exactly when the progress cannot be read or rendered; "finished" logs success; "error" logs `"Error: " + message` (default "Unknown error") at error level; a missing or other status logs nothing |
| Progress.ParseProgress | GuiForPc.py:826-850 | an empty line logs nothing; a `{...}` line that decodes is dispatched and never logged verbatim, and an exception from the dispatch is logged as `"Error parsing progress: …"` at error level; any other line, including a `{...}` line that fails to decode, is logged verbatim at its class's level |
| Text.ContainsIff | GuiForPc.py:840 | Python's `in` on strings: the substring occurs at some index |
| Text.NatToStringRoundTrip | GuiForPc.py:900 | the decimal rendering of a number is all digits and reads back as that number |
| Termux.ExtractPlaylistIdSpec | TermuxVersion.py:98-101 | there is no id exactly when neither `playlist/` nor `playlist:` is followed by a letter or digit; otherwise the id is the greedy run after the leftmost such place |
| Termux.ExtractAfterAnyHost | TermuxVersion.py:98 | any host is accepted: the run after the first matching `playlist/` is the id |
| Termux.DownloadYoutube | TermuxVersion.py:72-94 | the command starts with the fixed prefix holding `--no-playlist` and `-o <template>`; video mode adds the mp4 options and ends with the query; audio mode adds the mp3 options and ends with `ytsearch1:<query> official audio`; success iff the exit code is 0 |
| Termux.DownloadAll | TermuxVersion.py:115-129 | entries are handled in order until the first unreadable one; a present file is skipped with no download; every other entry is downloaded with `", ".join(artists) + " - " + title` |
| Termux.FailuresDoNotStop | TermuxVersion.py:126-129 | a failed download does not end the loop: with every entry readable, all are handled in order |
| Termux.AbortsAtFirstUnreadable | TermuxVersion.py:115-118 | the loop gives up exactly at the first unreadable entry |
| Termux.QueriesOnlyForMissing | TermuxVersion.py:121-127 | every query issued belongs to an entry whose file is missing |
| Termux.AllPresentNoQueries | TermuxVersion.py:121-124 | when every file is present, the downloader is never called |
| Termux.ConvertPlaylist | TermuxVersion.py:97-131 | an invalid link fetches and downloads nothing; a failed lookup, a missing name or a failed page fetch ends in the logged error; otherwise the folder is the sanitized name joined to the output directory, and so starts with it; the loop runs on the collected tracks |

## Left out

- The customtkinter interface (widgets, log box, status bar, settings window, button states): presentation only.
- Threading, and `stop_download`'s terminate, sleep and kill sequence. The stop flag is an input read once per iteration.
- The yt-dlp subprocess and the reading of its output. The downloader is a boolean oracle. The console front-end's exit code is a parameter.
- `format_speed` and the `{percent:.1f}` rendering: floating-point formatting. A readable progress carries the rendered percent and speed as given text. Which values make `progress.get` or the rendering raise is not modelled: such a progress is a `Broken` value carrying the exception's text.
- Progress.FormatEta: `int(eta)` is taken as given (the `Whole` case). A value it rejects is rendered with `str`, which is taken as given text (the `Unparsable` case).
- Filesystem calls (`os.path.exists`, `makedirs`, reading and writing the configuration file, the glob in `post_process_mp3s`). The files present are a fixed set of names for the whole run.
- configparser's own behaviour, such as case-insensitive keys and the DEFAULT section. A configuration is a map from section to key to value.
- The spotipy client and its authentication. The redundant second `playlist()` call of the desktop front-end is not reproduced.
- Exceptions the model does not name: an artist without `name`, a non-string name, a failure inside the downloader wrapper. The console front-end's unreadable entries are modelled.
- The console menu, `input()` loops and single-video download (`TermuxVersion.py:134-195`), and the desktop front-end's single-URL download (`GuiForPc.py:526-605`).
- Rerun idempotence is not claimed. Downloads are written under yt-dlp's `%(title)s` template, not under the expected name, so a later run's skip is not guaranteed.
- The log messages themselves, beyond the classification level, the dispatch and the final verdict.
