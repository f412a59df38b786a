# RWZipDownloadingTask, modelled in Dafny

Roundware's Android service downloads its content as a zip archive. It uses
`RWZipDownloadingTask`, an `AsyncTask`, to do this. The model covers the
task's decision logic:

- the constructor normalises the target directory name and creates the directory;
- `doInBackground` makes the HTTP request, follows at most one 301/302 redirect, and rejects any final code other than 200;
- `doInBackground` then unpacks the archive entry by entry: hidden entries are skipped, directory entries are created, and file entries are copied in reads of at most 2048 bytes into a run-wide `bytesProcessed` counter;
- after every entry that is not hidden, a `downloading` progress event is sent, but only when more than 2000 ms have passed since the previous one (`mLastDownloadingEventMsec`);
- `onPostExecute` turns the result string into exactly one `downloadingFinished` or `downloadingFailed` call.

Files:

- `outcomes.dfy` (module `Outcomes`): `Option` stands for Java `null`, `Result` for a caught exception.
- `decimal.dfy` (module `Decimal`): the decimal text Java gives an `int` in `"HTTP code " + responseCode`, and a parser that reads it back.
- `zip_downloading_task.dfy` (module `ZipDownloadingTask`): the data model and the specification functions. It also holds the class `DownloadTask`, with the Java object's fields:
  - `targetDirName`, `hasListener` (whether `mListener` is not null) and `lastEventMsec`;
  - `fs`, a simulated filesystem: a map from path to file contents or a directory marker;
  - `events`, the calls the listener has received, in order.
- `zip_downloading_proofs.dfy` (module `ZipDownloadingProofs`): lemmas about the specification functions.

## How the environment is represented

- **Server**: a function from URL to `Response`. A response is either `Answered(Reply(code, location, contentLength, body))` or `Unreachable(reason)`, the IOException thrown while connecting. A redirect is therefore visibly a second request, to the first reply's `location`.
- **Archive**: the response body, as the zip reader delivers it. It is the readable entries (name, decompressed bytes) in stream order, plus a flag `damaged`: the stream throws an IOException after the last readable entry.
- **Platform**: three predicates stand for the answers `java.io.File` gives:
  - `isHidden` (`File.isHidden`);
  - `mkdirsSucceeds` (`File.mkdirs`);
  - `canCreateFile` (whether `new FileOutputStream` succeeds).

  Opening a file over an existing directory always fails. Paths are compared after `Key`, which drops trailing separators, as `java.io.File` does.
- **Clock**: `startMsec` is the time read before `downloadingStarted`. `clock(i)` is the time read after entry `i`. `now` is the time read in `onPostExecute`.
- **Chunk sizes**: each `read` in `WriteFile` returns some count from 1 to 2048, chosen nondeterministically. So the written content is proved not to depend on how the stream splits its data.

## Details of the code worth noting

- The progress check runs once per non-hidden entry, after the entry has been written. It does not run after every buffer read.
- The throttle test is strict: `now - last > 2000`.
- A `null` target directory becomes the text `"null/"`, because Java concatenates `null` as "null".
- An entry whose name is empty makes `target + name` end with the separator, so that entry is treated as a directory.

## Model

| member | source | states |
|---|---|---|
| `ZipDownloadingTask.NormalizeTargetDir` | rwservice/src/main/java/org/roundware/service/RWZipDownloadingTask.java:69-73 | the stored name always ends with the separator; it is the given name extended by at most one character; `null` gives "null/" |
| `ZipDownloadingProofs.NormalizeAppendsAtMostOneSeparator` | rwservice/src/main/java/org/roundware/service/RWZipDownloadingTask.java:69-73 | a name already ending with the separator is kept; any other name gets exactly one separator appended |
| `ZipDownloadingProofs.NormalizeIdempotent` | rwservice/src/main/java/org/roundware/service/RWZipDownloadingTask.java:69-73 | normalising a normalised name changes nothing |
| `ZipDownloadingTask.Key` | rwservice/src/main/java/org/roundware/service/RWZipDownloadingTask.java:125-126 | the path a `File` stands for is the string with its trailing separators, and only those, removed (a lone root is kept) |
| `ZipDownloadingProofs.KeyIgnoresTrailingSeparator` | rwservice/src/main/java/org/roundware/service/RWZipDownloadingTask.java:125-126 | a path with one more trailing separator names the same file, so a directory entry "a/" and a file entry "a" meet at one key |
| `ZipDownloadingProofs.KeyIdempotent` | rwservice/src/main/java/org/roundware/service/RWZipDownloadingTask.java:125-126 | a key is its own key |
| `ZipDownloadingProofs.KeyOfPlainPath` | rwservice/src/main/java/org/roundware/service/RWZipDownloadingTask.java:125-126 | a path not ending in the separator, such as every file entry's, is its own key |
| `ZipDownloadingTask.CanOpenForWrite` | rwservice/src/main/java/org/roundware/service/RWZipDownloadingTask.java:141 | an output file opens only where the platform allows it and never over an existing directory |
| `ZipDownloadingTask.EnsureDir` | rwservice/src/main/java/org/roundware/service/RWZipDownloadingTask.java:133-138 | exists-then-mkdirs: every existing path keeps its node; the only path added is the directory, as a `Dir`; if it did not exist and mkdirs fails, nothing changes |
| `ZipDownloadingTask.Classify` | rwservice/src/main/java/org/roundware/service/RWZipDownloadingTask.java:102-109 | the final response is accepted exactly when it was answered with 200, and then the reply itself is kept; any other code gives exactly "Download failed: HTTP code <code>"; a connect error gives "Download failed: " followed by its message |
| `ZipDownloadingTask.Connect` | rwservice/src/main/java/org/roundware/service/RWZipDownloadingTask.java:90-109 | with `final` the first answer, or after a 301/302 the answer at `Location`: success exactly when `final` is a 200, carrying that reply; any other code of `final`, a redirect included, gives exactly "Download failed: HTTP code <code>"; a connect error gives "Download failed: <reason>" |
| `ZipDownloadingTask.StatusFailure` | rwservice/src/main/java/org/roundware/service/RWZipDownloadingTask.java:103-106 | the status failure message starts with "Download failed: " and reads back as exactly its code |
| `ZipDownloadingProofs.FinalStatusDecides` | rwservice/src/main/java/org/roundware/service/RWZipDownloadingTask.java:95-104 | a final answer other than 200 is a failure whose message gives back exactly that code |
| `ZipDownloadingProofs.SecondRedirectNotFollowed` | rwservice/src/main/java/org/roundware/service/RWZipDownloadingTask.java:95-104 | a redirect to a redirect fails, carrying the second response's code: no third request |
| `ZipDownloadingProofs.ConnectAsksAtMostTwice` | rwservice/src/main/java/org/roundware/service/RWZipDownloadingTask.java:90-100 | two servers that agree at the URL, and (after a redirect) at its `Location`, give the same outcome |
| `ZipDownloadingProofs.RedirectIsTransparent` | rwservice/src/main/java/org/roundware/service/RWZipDownloadingTask.java:95-100 | one redirect to a 200 reply gives the same reply as answering 200 directly |
| `Decimal.NatToString` | rwservice/src/main/java/org/roundware/service/RWZipDownloadingTask.java:103 | the text of a code is a non-empty run of digits with no leading zero |
| `Decimal.IntToString` | rwservice/src/main/java/org/roundware/service/RWZipDownloadingTask.java:103 | the text is non-empty and starts with '-' exactly for negative values, with no leading zero after the sign |
| `Decimal.ParseNatToString` | rwservice/src/main/java/org/roundware/service/RWZipDownloadingTask.java:103 | parsing the digits of n gives n |
| `Decimal.ParseIntToString` | rwservice/src/main/java/org/roundware/service/RWZipDownloadingTask.java:103 | parsing the text of any int gives that int |
| `ZipDownloadingProofs.HiddenEntrySkipped` | rwservice/src/main/java/org/roundware/service/RWZipDownloadingTask.java:125-130 | a hidden entry changes nothing: no write, no bytes counted, no clock check, throttle field untouched |
| `ZipDownloadingProofs.DirectoryEntryNeverAborts` | rwservice/src/main/java/org/roundware/service/RWZipDownloadingTask.java:132-138 | a directory entry never stops the loop, counts no bytes and only creates the directory if it is missing, whether or not `mkdirs` succeeds |
| `ZipDownloadingProofs.FileEntryWritten` | rwservice/src/main/java/org/roundware/service/RWZipDownloadingTask.java:139-153 | a file entry aborts with nothing changed exactly when its file cannot be opened; otherwise the file holds the entry's bytes and the counter grows by their number |
| `ZipDownloadingProofs.UnpackCountsFileBytes` | rwservice/src/main/java/org/roundware/service/RWZipDownloadingTask.java:118-149 | the counter never ends below where it started (0, so never negative); a completed run has counted exactly the total size of the non-hidden file entries |
| `ZipDownloadingProofs.BytesNeverDecrease` | rwservice/src/main/java/org/roundware/service/RWZipDownloadingTask.java:146-149 | the counter after any prefix of the entries is at most the counter after all of them |
| `ZipDownloadingTask.Throttle` | rwservice/src/main/java/org/roundware/service/RWZipDownloadingTask.java:157-163 | the progress check changes only the throttle field and the events: the field stays or becomes `now`, at most one `Progress(now, counter, content length)` is appended, and nothing changes without a listener |
| `ZipDownloadingTask.Step` | rwservice/src/main/java/org/roundware/service/RWZipDownloadingTask.java:125-163 | one entry never lowers the counter, adds at most one event at the end of the list, and an abort leaves the state as it was; without a listener the events and the throttle field stay as they were |
| `ZipDownloadingTask.Unpack` | rwservice/src/main/java/org/roundware/service/RWZipDownloadingTask.java:122-166 | the loop never lowers the counter and only appends events, at most one per entry; without a listener it sends nothing and never moves the throttle field |
| `ZipDownloadingTask.Background` | rwservice/src/main/java/org/roundware/service/RWZipDownloadingTask.java:84-176 | the result is never the empty string; a connection failure returns its message with the state untouched; after a successful connection with a listener, `downloadingStarted` is the first new event; without a listener no event at all is recorded (no `downloadingStarted`, no progress) and the throttle field keeps its value |
| `ZipDownloadingProofs.ProgressSentWhenDue` | rwservice/src/main/java/org/roundware/service/RWZipDownloadingTask.java:157-161 | after a non-hidden entry that did not abort, with a listener, exactly `Progress(now, counter, content length)` is appended and the field becomes `now` exactly when `now - last > 2000`; otherwise events and field are unchanged; the counter has already grown by the entry's bytes |
| `ZipDownloadingProofs.ThrottledLogExtends` | rwservice/src/main/java/org/roundware/service/RWZipDownloadingTask.java:157-163 | an event that passes the strict 2000 ms test extends a correctly spaced log, and `last` becomes its time |
| `ZipDownloadingProofs.UpdateKeepsLog` | rwservice/src/main/java/org/roundware/service/RWZipDownloadingTask.java:157-163 | the progress check keeps the log invariant and adds exactly one event when there is a listener and `now - last > 2000`, otherwise none |
| `ZipDownloadingProofs.StepKeepsLog` | rwservice/src/main/java/org/roundware/service/RWZipDownloadingTask.java:122-166 | one loop iteration keeps the log invariant; a hidden entry adds no event; a non-hidden entry that does not abort adds exactly one event when there is a listener and `now - last > 2000`, otherwise none |
| `ZipDownloadingProofs.ThrottleSpacing` | rwservice/src/main/java/org/roundware/service/RWZipDownloadingTask.java:157-163 | the loop only appends progress events, all carrying the content length, at most one per non-hidden entry; consecutive ones are more than 2000 ms apart, with byte counts that never go back; the first is more than 2000 ms after the initial field value; `last` is the latest event's time; with no listener nothing is sent and `last` never moves |
| `ZipDownloadingProofs.AbortKeepsPartialOutput` | rwservice/src/main/java/org/roundware/service/RWZipDownloadingTask.java:122-173 | an aborted loop stopped at a non-hidden file entry whose file could not be opened, and everything the earlier entries wrote stays on disk |
| `ZipDownloadingTask.AbortedStaysAborted` | rwservice/src/main/java/org/roundware/service/RWZipDownloadingTask.java:169-173 | once an IOException has been caught, no later entry is processed |
| `ZipDownloadingProofs.HiddenPathsUntouched` | rwservice/src/main/java/org/roundware/service/RWZipDownloadingTask.java:127-130 | a key that only hidden entries (or none) name keeps exactly what the simulated filesystem had there; since `EnsureDir` records no parent directories, this does not cover a hidden directory that a later visible sub-directory's `mkdirs` creates |
| `ZipDownloadingProofs.LastWriterWins` | rwservice/src/main/java/org/roundware/service/RWZipDownloadingTask.java:139-153 | after a completed run, a file holds the bytes of the last non-hidden entry written to its path |
| `ZipDownloadingProofs.BackgroundSucceedsWhen` | rwservice/src/main/java/org/roundware/service/RWZipDownloadingTask.java:116-175 | the result is `null` exactly when the code was 200, every file could be opened and the stream ended cleanly; after a successful connection, every failure is the fixed unpacking message |
| `ZipDownloadingProofs.StartedThenProgress` | rwservice/src/main/java/org/roundware/service/RWZipDownloadingTask.java:111-163 | after `downloadingStarted`, the loop adds only progress events |
| `ZipDownloadingProofs.TaskEventSequence` | rwservice/src/main/java/org/roundware/service/RWZipDownloadingTask.java:102-191 | the listener of a fresh task hears either a single `downloadingFailed`, or `downloadingStarted`, then progress only, then exactly one terminal event; it is `downloadingFinished` with the target directory exactly when the result was `null`, and otherwise `downloadingFailed` with the result |
| `ZipDownloadingTask.TerminalEvent` | rwservice/src/main/java/org/roundware/service/RWZipDownloadingTask.java:183-191 | a terminal event stamped `now`: finished with the target exactly when the result is null or empty, else failed carrying the result |
| `ZipDownloadingTask.DownloadTask.constructor` | rwservice/src/main/java/org/roundware/service/RWZipDownloadingTask.java:65-80 | stores the URL and listener, stores the normalised directory name, creates that directory if missing, and starts with `mLastDownloadingEventMsec == 0` |
| `ZipDownloadingTask.DownloadTask.DoInBackground` | rwservice/src/main/java/org/roundware/service/RWZipDownloadingTask.java:84-176 | the result, the filesystem, the throttle field and the listener's events are exactly those of `Background`, the specification function the lemmas above are about |
| `ZipDownloadingTask.DownloadTask.UnpackEntries` | rwservice/src/main/java/org/roundware/service/RWZipDownloadingTask.java:116-173 | the loop's filesystem, throttle field, events, byte counter and abort flag equal those of the specification function `Unpack`; the loop invariant is the prefix of entries processed so far |
| `ZipDownloadingTask.DownloadTask.WriteFile` | rwservice/src/main/java/org/roundware/service/RWZipDownloadingTask.java:141-152 | the file ends up holding exactly the entry's bytes; they are the concatenation of the chunks read, each 1 to 2048 bytes; the counter grows by the entry's length |
| `ZipDownloadingTask.DownloadTask.OnPostExecute` | rwservice/src/main/java/org/roundware/service/RWZipDownloadingTask.java:183-191 | with a listener, it appends exactly the one terminal event for the result; without one, nothing |

## Left out

- The HTTP connection, URL parsing, `getResponseCode` and `getContentLength` are network I/O. They are replaced by the server function; the content length is passed through untouched to the progress events.
- Write errors are not modelled. An IOException from `write`, `flush` or `close` would abort the run with the fixed unpacking message and leave a partly written file. So `FileEntryWritten` and `AbortKeepsPartialOutput` describe only the failures the model has: a file that cannot be opened and a damaged stream.
- HiddenPathsUntouched: weaker than the program. In the code, `mkdirs` for a visible sub-directory entry also creates its missing parents, so a hidden `.cache/` followed by a visible `.cache/img/` does create `.cache` on disk. The model's `EnsureDir` records only the requested directory, so the lemma shows only that no entry naming a hidden key writes there.
- Path aliasing is not modelled. Keys are strings, so `.` and `..` segments and symbolic links that make two keys name one file are not seen. `LastWriterWins` and `HiddenPathsUntouched` are therefore about keys, not files. An entry name containing `..` makes the code write outside the target directory; the model cannot show that.
- `ZipInputStream` decompression is a library. The archive is given already split into entries. A read error in the middle of an entry is not modelled; only an error after the last readable entry (`damaged`) and a file that cannot be opened are.
- `File.isHidden`, the success of `mkdirs`, and why `FileOutputStream` may fail are platform decisions. They are the `Platform` predicates. `EnsureDir` records only the requested directory, not the parent directories `mkdirs` also creates. `Key` drops trailing separators but does not collapse repeated ones inside a path.
- `WriteFile` writes each chunk straight into the file. The buffering of `BufferedOutputStream` is not modelled; the content after `flush`/`close` is the same.
- `AsyncTask` threading and the thread that delivers callbacks are concurrency; the model runs `doInBackground` and `onPostExecute` as two sequential methods. `System.currentTimeMillis` is replaced by the supplied timestamps.
- Logging (`Log.d`, `Log.e`, `printStackTrace`) has no effect on the outcome.
- Java `long` and `int` widths: timestamps, the byte counter and the throttle subtraction use unbounded integers. The code does not overflow them within any realistic time or archive size.
- The stored URL is never parsed: a malformed URL, like any other `IOException` while connecting, falls under `Unreachable`.
- Connect: a stored URL or a redirect `Location` whose scheme is not HTTP(S) (`file:`, `jar:`, ...) makes the cast to `HttpURLConnection` throw a `ClassCastException`. `catch (IOException e)` does not catch it, so the task ends without a result and `onPostExecute` never sends a terminal event. `Response` has no outcome for this, so `Background` and `TaskEventSequence` do not cover it.
- The constructor's `mkdirs` result is ignored, as in the code.
- `rwapp/src/main/java/org/roundware/rwapp/Settings.java` is not part of this model. It is a wrapper over Android `SharedPreferences` with no decision logic.
- Re-running the task on the same directory is not proved to leave the same files. Per file, `LastWriterWins` gives the content a completed run leaves.
- Cancellation, timeouts, rollback of partial output and integrity checks do not exist in the code, so they are not modelled.
