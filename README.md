# lx-music-song-scraper: the playlist mirror's selection and task logic in Dafny

The program mirrors a QQ Music playlist into a local directory of `.mp3`
files. Each run fetches the playlist's track list as JSON (`TXPlayList::new`),
reads an optional `.ignore` file, picks the songs that have no file yet and
are not ignored, and starts one task per picked song. A task resolves a
download URL from the lx API, downloads the audio, replaces its ID3 lyrics
frame and writes the file to `dir/sanitise(name).mp3`.

This project models the sequential logic inside that run:

- `wrappers.dfy` (`Wrappers`): `Option` and `Result`. Every `?` and every `unwrap` of the source becomes an explicit error value.
- `json.dfy` (`Json`): a JSON value with serde_json's lookup rules. A missing key, an out-of-range index or a lookup on the wrong kind of value gives `Null`. `as_array` and `as_str` are partial.
- `http.dfy` (`Http`): a GET request as a value (URL and headers), and bytes.
- `text.dfy` (`Text`): Rust's `str::trim` (Unicode White_Space), `str::lines` (split after each `\n`, then drop that `\n` and one `\r` before it), and the decimal formatting of an `i64`. Each has a partner: trimming pinned down exactly, a join that rebuilds the text from its lines, and a parser that reads the decimal back.
- `tx.rs` → `tx.dfy` (`Tx`): the `Song` record, the playlist request (URL, Referer, Origin) and the extraction of `cdlist[0].songlist[*].{name, mid}`. Extraction is a method with a loop, proved equal to a reference function. Lemmas give its length, order, field mapping, shape failures and all-or-nothing failure.
- `tag.dfy` (`Tag`): the lyrics edit of a task (`remove_all_lyrics` then `add_frame`) over an abstract list of frames.
- `main.rs` `run` → `runner.dfy` (`Runner`): the ignore-list parsing, the selection loop (a method proved against a filter function), the resolve request and response, one task as a function of what the outside world answers, and the re-run properties.

Abstractions: the filesystem is the set of paths that exist. The `.ignore` file is `Option<string>`, with `None` when it does not exist. `sanitise_file_name::sanitise` is an uninterpreted parameter `string -> string`, and nothing is assumed about it, not even idempotence. Network replies, the audio bytes, the id3 reader and writer, `get_lyric` and `std::fs::write` are functions handed to a task in a `World` value.

Where one might expect otherwise, the model follows the code:
- A failed lyrics fetch fails the whole task, because the code uses `?` at `src/main.rs:157`. It is not best-effort.
- A resolve reply without a string `url` is an `unwrap` panic in the code (`src/main.rs:149`). The model records it as the task outcome `Failed(UrlMissing)`. In the code the panic does not stay inside that task: `join_all` (`src/main.rs:177`) re-raises it, the `JoinSet` is dropped, every task still running is cancelled before it writes, and `run` does not return.
- The file is written directly to its final path, not to a temporary file that is then renamed.
- The resolve reply's HTTP status is never checked. Any body that parses as JSON counts as a reply.
- The Referer, Origin and API URL use the playlist id exactly as `format!` prints an `i64`.

## Model

| member | source | states |
|---|---|---|
| `Tx.NewSong` | src/tx.rs:53-59 | `Song::new(name, id)` stores both fields unchanged |
| `Tx.RefererRoundTrip` | src/tx.rs:40-42 | the Referer is `https://y.qq.com/n/yqq/playsquare/` + decimal id + `.html`, and reading the id back from it gives exactly the requested id |
| `Tx.ApiUrlRoundTrip` | src/tx.rs:48-50 | the API URL is the fixed prefix, the decimal id and the fixed suffix, and the id read back from it is the requested one |
| `Tx.ApiUrlInjective` | src/tx.rs:48-50 | distinct playlist ids give distinct API URLs |
| `Tx.PlayListRequest` | src/tx.rs:18-20 | the playlist request goes to the API URL of the id and carries the Referer and Origin headers, in that order; both name that id |
| `Tx.EntrySong` | src/tx.rs:30-32 | an entry gives a song iff both its `name` and its `mid` are strings; the song's name is `name` and its id is `mid` (not `id`); `name` is checked first |
| `Tx.NewPlayList` | src/tx.rs:25-37 | the push loop returns exactly the reference extraction: a transport or parse failure, a non-array song list, or the first bad entry fails, else the playlist |
| `Tx.ExtractSongsOk` | src/tx.rs:28-33 | the entries convert iff every one is well formed; then there is one song per entry, in entry order, with `name` and `mid` mapped |
| `Tx.ExtractSongsErr` | src/tx.rs:29-31 | a failure names the first entry that is not well formed and says whether its `name` or its `mid` was wrong; all earlier entries were well formed |
| `Tx.ExtractOk` | src/tx.rs:26-37 | extraction succeeds iff `cdlist[0].songlist` is an array of well-formed entries; the result carries the requested id and one song per entry in order; an empty array gives an empty list |
| `Tx.ExtractShapeFailure` | src/tx.rs:26 | a missing, non-array or empty `cdlist`, or a non-array `songlist`, fails with `SongListNotArray`, and exactly those shapes do |
| `Tx.ExtractAllOrNothing` | src/tx.rs:29-33 | one bad entry anywhere fails the whole extraction with an entry error at or before it; no partial list is returned |
| `Text.Trim` | src/main.rs:96 | `trim` keeps a contiguous piece of the line that neither starts nor ends with white space; everything cut away is white space |
| `Text.TrimIdempotent` | src/main.rs:96 | trimming a trimmed line changes nothing |
| `Text.Lines` | src/main.rs:96 | no line contains a line feed, and an empty text has no lines |
| `Text.LinesToCrlf` | src/main.rs:96 | a text split into lines gives the same lines whether it ends its lines with `\n` or with `\r\n` |
| `Text.LinesJoin` | src/main.rs:96 | without carriage returns, joining the lines with line feeds (plus the final one, if any) gives back the file's text |
| `Text.DecimalRoundTrip` | src/tx.rs:41 | the decimal text of an integer reads back as that integer |
| `Text.DecimalCanonical` | src/tx.rs:41 | the decimal text of an integer is canonical: digits with no leading zero except the numeral 0 itself, after a minus sign only for a negative value (never "-0") |
| `Text.CanonicalRoundTrip` | src/tx.rs:41 | conversely, every canonical numeral is read and written back unchanged, so the canonical numerals are exactly the texts `format!` produces |
| `Text.DecimalInjective` | src/tx.rs:49 | distinct integers have distinct decimal texts |
| `Runner.ParseIgnore` | src/main.rs:93-99 | no file gives an empty list; otherwise one entry per line of the file, in order, each the trimmed line, so none has surrounding white space or a line feed |
| `Runner.IgnoredExactly` | src/main.rs:93-99 | a name is on the ignore list iff some line of the file trims to it |
| `Runner.ParseIgnoreCrlf` | src/main.rs:93-99 | an ignore file saved with Windows (`\r\n`) line ends gives the same ignore list as the same file saved with Unix line ends |
| `Runner.SelectSongs` | src/main.rs:101-114 | the loop returns exactly the songs given `Download`, and reports exactly the names of the songs given `Ignored`, both in playlist order |
| `Runner.KeepCount` | src/main.rs:101-114 | a song occurs in the selection exactly as often as in the playlist if it is selected, else never: duplicates are kept and nothing is added |
| `Runner.KeepExactly` | src/main.rs:101-114 | a song is in the list for a verdict iff it is in the playlist and gets that verdict |
| `Runner.SelectedExactly` | src/main.rs:103-113 | a song is selected iff it is in the playlist, `dir/sanitise(name).mp3` is absent, and its raw name is not on the ignore list |
| `Runner.KeepIsSubsequence` | src/main.rs:101-114 | the selection is the playlist at strictly increasing positions: exactly the positions whose song is selected |
| `Runner.Partition` | src/main.rs:101-114 | present, ignored and selected songs together make up the playlist as a multiset: each song gets exactly one verdict |
| `Runner.IgnoredReports` | src/main.rs:103-110 | existence is checked first: a reported name never has an existing file and is on the ignore list; every absent and ignored song is reported |
| `Runner.RerunSelectsUnwritten` | src/main.rs:103-105 | after more files appear, a new selection equals selecting again from the previous selection |
| `Runner.RerunSelectsNothing` | src/main.rs:103-168 | the path checked is the path written, so once every selected song's file exists a re-run selects nothing |
| `Runner.ResolveRequest` | src/main.rs:141-144 | the resolve request goes to `apiUrl + "/url/tx/" + id + "/320k"` (the id is read back from it) with the `X-Request-Key` header |
| `Runner.ResolveUrlInjective` | src/main.rs:142 | distinct track ids are resolved at distinct URLs |
| `Runner.DownloadUrl` | src/main.rs:149 | the download URL exists iff the reply is an object whose `url` is a string, and it is that string |
| `Runner.TaskWithoutUrl` | src/main.rs:147-151 | a reply without a string `url` ends the task as `UrlMissing` after the resolve request alone: nothing is downloaded or written |
| `Runner.TaskWritten` | src/main.rs:137-172 | a task writes iff every step succeeds; it writes to the path selection checked, after downloading the resolved URL, with one `USLT` frame holding the fetched lyrics and the old non-`USLT` frames in order |
| `Runner.RerunAfterTasks` | src/main.rs:101-168 | the next run selects exactly the songs whose task failed, minus any whose path another written song shares; when all tasks write, it selects nothing |
| `Runner.SelectWork` | src/main.rs:84-114 | a playlist failure ends the run with that error before any selection; otherwise the result is the selection and the ignored reports for the parsed ignore list |
| `Tag.RemoveAllLyrics` | src/main.rs:159 | no frame with the lyrics id `USLT` is left, whether it was decoded as a lyrics frame or not |
| `Tag.RemoveAllLyricsKeeps` | src/main.rs:159 | every frame whose id is not `USLT` is kept as often as it occurs, and no `USLT` frame is kept |
| `Tag.RemoveAllLyricsAppend` | src/main.rs:159 | removal works piece by piece, so the kept frames keep their order |
| `Tag.RemoveAllLyricsTwice` | src/main.rs:159 | removing lyrics from a tag without lyrics changes nothing |
| `Tag.EmbedLyrics` | src/main.rs:159-164 | the edit never replaces anything: the result is the old non-lyrics frames followed by the new lyrics frame |
| `Tag.EmbedLyricsSpec` | src/main.rs:159-164 | afterwards there is exactly one `USLT` frame, the new lyrics frame: lang "unknown", description "lyrics" and the fetched text, and the non-lyrics frames are the old ones in order |
| `Tag.EmbedLyricsIdempotent` | src/main.rs:159-164 | doing the edit twice with the same lyrics does the same as doing it once |

## Left out

- The scheduler, the `is_running` try-lock guard, the Ctrl-C handler and the sleep loop (`src/main.rs:17-82`): timing and concurrency.
- The `JoinSet` spawning, the 2-second pause between launches and `join_all` (`src/main.rs:128-177`): concurrency and wall-clock behaviour. Each task is modelled on its own. The order in which tasks finish is not modelled, and neither is the cancellation of the tasks still running when `join_all` re-raises a task's panic.
- All network I/O: the reqwest clients (including `danger_accept_invalid_certs`), sending and body reads. A failed send, a failed body read or non-JSON text all become `None` from the `World` functions, or `Transport` for the playlist.
- The progress bar (`src/main.rs:118-126, 153, 170`) and the `println!` of the selection: user interface. The "Skipping ignored song" lines are kept as the `skipped` output of `SelectSongs`.
- Errors of `exists` in the selection loop (`src/main.rs:103`) and of `read_to_string` on `.ignore` (`src/main.rs:95`, including a file that is not UTF-8). Each `?` there aborts the run. The model reads the filesystem as a set of paths and `.ignore` as an optional text, so these errors do not arise. The `.ignore` existence test (`Path::exists`, `src/main.rs:94`) returns a plain boolean, so an error there reads as "no file", and the model's `None` covers that case.
- `sanitise_file_name::sanitise`: an external crate, kept uninterpreted.
- The bytes of the tag and the file: id3 tag parsing (`async_read_from`) and serialisation (`write_to` into a cursor over the downloaded buffer) are library internals. They are the `readTag` and `writeTag` functions of `World`. How the written tag lays over the existing bytes is not modelled.
- Runner.RerunAfterTasks: holds only when every task runs to its own end. If one task panics at the `url` unwrap, `join_all` cancels the tasks still running. Those files are never written, and the next run selects those songs too.
- Tag.AddFrame: the rule that `add_frame` replaces a frame in the same slot is taken as: same language and description for lyrics frames, same frame id for other frames. It never fires here, because the edit removes every lyrics frame first.
- `get_lyric` and `TXLyric` are used at `src/main.rs:10,157` but their source is not part of this model. The lyrics arrive as `World.lyric`, and their request is not among the recorded requests.
- JSON numbers are integers only. Floating point is not modelled. Duplicate keys are resolved by the parser before the model sees the value.
- `src/config.rs` (argument and environment reading, `exit`): process configuration, represented only by the `Config` value.
- `src/song.rs` is the same record as the `Song` of `src/tx.rs` and is defined once, as `Tx.Song`.
