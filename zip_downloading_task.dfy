/**
 * Model of RWZipDownloadingTask: downloads a zip archive over HTTP, follows
 * one redirect, unpacks the entries into a target directory, reports
 * throttled progress and delivers exactly one terminal outcome.
 *
 * The network, the zip decoder, the filesystem's own decisions and the clock
 * are inputs: a server is a function from URL to response, an archive is a
 * sequence of named entries, a `Platform` answers the questions the Java code
 * puts to `java.io.File`, and timestamps are supplied by the caller.
 */
module ZipDownloadingTask {
  import opened Outcomes
  import Decimal

  newtype byte = x: int | 0 <= x < 256

  /** `File.separator` on Android. */
  const Separator: char := '/'
  /** Size of the read buffer used while unpacking a file entry. */
  const BufferSize: nat := 2048
  /** DOWNLOADING_EVENT_INTERVAL_MSEC: minimum spacing of progress events. */
  const EventIntervalMsec: int := 2000

  const HttpOk: int := 200
  const HttpMovedPerm: int := 301
  const HttpMovedTemp: int := 302

  const DownloadFailedPrefix: string := "Download failed: "
  const HttpCodePrefix: string := "HTTP code "
  const UnpackFailedMessage: string := "Download of app content files failed! Please try again later."

  predicate EndsWithSeparator(s: string) {
    |s| > 0 && s[|s| - 1] == Separator
  }

  predicate IsPrefix(p: string, s: string) {
    |p| <= |s| && s[..|p|] == p
  }

  // ---------------------------------------------------------------------
  // Target directory

  /**
   * The constructor's normalisation of the target directory name. A `null`
   * name becomes "null/", since Java concatenates `null` as that text.
   */
  function NormalizeTargetDir(dir: Option<string>): (r: string)
    ensures EndsWithSeparator(r)
    ensures dir.None? ==> r == "null/"
    ensures dir.Some? ==> IsPrefix(dir.value, r) && |r| <= |dir.value| + 1
  {
    match dir
    case None => "null" + [Separator]
    case Some(d) => if EndsWithSeparator(d) then d else d + [Separator]
  }

  /**
   * The path a `java.io.File` built from `path` stands for: trailing
   * separators are dropped, except for the root itself.
   */
  function Key(path: string): (k: string)
    ensures IsPrefix(k, path)
    ensures |k| > 1 ==> !EndsWithSeparator(k)
    ensures |path| > 0 ==> |k| > 0
    ensures forall i :: |k| <= i < |path| ==> path[i] == Separator
    decreases |path|
  {
    if |path| > 1 && path[|path| - 1] == Separator then Key(path[..|path| - 1]) else path
  }

  // ---------------------------------------------------------------------
  // The simulated filesystem and the platform's answers

  datatype Node = File(content: seq<byte>) | Dir

  /** What `java.io.File` decides that the model does not compute itself. */
  datatype Platform = Platform(
    isHidden: string -> bool,        // File.isHidden
    mkdirsSucceeds: string -> bool,  // File.mkdirs, for a path that does not exist yet
    canCreateFile: string -> bool)   // new FileOutputStream does not throw (parent, permissions)

  /** `if (!f.exists()) f.mkdirs();` with the outcome of `mkdirs` ignored. */
  function EnsureDir(fs: map<string, Node>, key: string, p: Platform): (r: map<string, Node>)
    ensures key in fs || p.mkdirsSucceeds(key) ==> key in r
    ensures forall k :: k in fs ==> k in r && r[k] == fs[k]
    ensures forall k :: k in r && k !in fs ==> k == key && r[k] == Dir
    ensures key !in fs && !p.mkdirsSucceeds(key) ==> r == fs
  {
    if key in fs || !p.mkdirsSucceeds(key) then fs else fs[key := Dir]
  }

  /** Whether `new FileOutputStream(key)` succeeds: not onto a directory, and the platform allows it. */
  predicate CanOpenForWrite(fs: map<string, Node>, key: string, p: Platform)
    ensures CanOpenForWrite(fs, key, p) ==> p.canCreateFile(key) && (key in fs ==> fs[key].File?)
  {
    p.canCreateFile(key) && !(key in fs && fs[key].Dir?)
  }

  // ---------------------------------------------------------------------
  // HTTP

  datatype Entry = Entry(name: string, data: seq<byte>)

  /**
   * The body of a response as the zip reader delivers it: the readable
   * entries in stream order, and whether the stream then fails with an
   * IOException instead of reporting its end.
   */
  datatype Archive = Archive(entries: seq<Entry>, damaged: bool)

  datatype Reply = Reply(code: int, location: string, contentLength: int, body: Archive)

  /** A response, or the IOException raised while connecting. */
  datatype Response = Answered(reply: Reply) | Unreachable(reason: string)

  predicate IsRedirect(code: int) {
    code == HttpMovedPerm || code == HttpMovedTemp
  }

  /** The failure message for a final status other than 200. */
  function StatusFailure(code: int): (m: string)
    ensures IsPrefix(DownloadFailedPrefix, m)
    ensures StatusCodeOf(m) == Some(code)
  {
    var prefix := DownloadFailedPrefix + HttpCodePrefix;
    var m := prefix + Decimal.IntToString(code);
    assert m[|prefix|..] == Decimal.IntToString(code);
    Decimal.ParseIntToString(code);
    m
  }

  /** The status code a failure message reports, if it reports one. */
  function StatusCodeOf(message: string): Option<int> {
    var prefix := DownloadFailedPrefix + HttpCodePrefix;
    if IsPrefix(prefix, message) then Decimal.ParseInt(message[|prefix|..]) else None
  }

  /** The check made of the final response: the connect error, a status error, or the reply to unpack. */
  function Classify(response: Response): (r: Result<Reply>)
    ensures r.Ok? <==> response.Answered? && response.reply.code == HttpOk
    ensures r.Ok? ==> r.value == response.reply
    ensures response.Answered? && response.reply.code != HttpOk ==>
      r == Err(DownloadFailedPrefix + HttpCodePrefix + Decimal.IntToString(response.reply.code))
    ensures response.Unreachable? ==> r == Err(DownloadFailedPrefix + response.reason)
    ensures r.Err? ==> IsPrefix(DownloadFailedPrefix, r.message)
  {
    match response
    case Unreachable(reason) => Err(DownloadFailedPrefix + reason)
    case Answered(reply) =>
      if reply.code != HttpOk then Err(StatusFailure(reply.code)) else Ok(reply)
  }

  /**
   * The connection phase of `doInBackground`: one request, plus one more to
   * the `Location` value when the first answer is a 301 or 302.
   */
  function Connect(server: string -> Response, url: string): (r: Result<Reply>)
    ensures var first := server(url);
      var final := if first.Answered? && IsRedirect(first.reply.code) then server(first.reply.location) else first;
      (r.Ok? <==> final.Answered? && final.reply.code == HttpOk) &&
      (r.Ok? ==> r.value == final.reply) &&
      (final.Answered? && final.reply.code != HttpOk ==>
         r == Err(DownloadFailedPrefix + HttpCodePrefix + Decimal.IntToString(final.reply.code))) &&
      (final.Unreachable? ==> r == Err(DownloadFailedPrefix + final.reason))
  {
    var first := server(url);
    if first.Answered? && IsRedirect(first.reply.code) then Classify(server(first.reply.location))
    else Classify(first)
  }

  // ---------------------------------------------------------------------
  // Listener events and the state the unpacking loop changes

  /** A call on `StateListener`. */
  datatype Event =
    | Started(at: int)
    | Progress(at: int, bytesProcessed: int, totalBytes: int)
    | Finished(at: int, dir: string)
    | Failed(at: int, message: string)
  {
    predicate IsTerminal() { Finished? || Failed? }
  }

  /**
   * The simulated filesystem, `mLastDownloadingEventMsec`, the events the
   * listener has received, and the run's `bytesProcessed` counter.
   */
  datatype State = State(fs: map<string, Node>, last: int, events: seq<Event>, bytes: int)

  /** What stays fixed during one unpacking run. */
  datatype Context = Context(
    target: string,        // mTargetDirName
    platform: Platform,
    clock: nat -> int,     // the time read after entry i
    totalBytes: int,       // connection.getContentLength()
    listener: bool)        // mListener != null

  /** The unpacking loop either is still running or has caught an IOException. */
  datatype Extraction = Running(state: State) | Aborted(state: State)

  /** The progress check made after every entry that is not hidden. */
  function Throttle(ctx: Context, now: int, s: State): (r: State)
    ensures r.fs == s.fs && r.bytes == s.bytes
    ensures r.last == s.last || r.last == now
    ensures r.events == s.events || r.events == s.events + [Progress(now, s.bytes, ctx.totalBytes)]
    ensures !ctx.listener ==> r == s
  {
    if ctx.listener && now - s.last > EventIntervalMsec then
      s.(last := now, events := s.events + [Progress(now, s.bytes, ctx.totalBytes)])
    else s
  }

  function EntryKey(ctx: Context, e: Entry): string {
    Key(ctx.target + e.name)
  }

  predicate IsHiddenEntry(ctx: Context, e: Entry) {
    ctx.platform.isHidden(EntryKey(ctx, e))
  }

  predicate IsDirEntry(ctx: Context, e: Entry) {
    EndsWithSeparator(ctx.target + e.name)
  }

  /** One iteration of the entry loop, with `now` the clock reading after the entry. */
  function Step(ctx: Context, e: Entry, now: int, s: State): (r: Extraction)
    ensures r.Aborted? ==> r.state == s
    ensures s.bytes <= r.state.bytes
    ensures |s.events| <= |r.state.events| <= |s.events| + 1 && r.state.events[..|s.events|] == s.events
    ensures !ctx.listener ==> r.state.events == s.events && r.state.last == s.last
  {
    var key := EntryKey(ctx, e);
    if IsHiddenEntry(ctx, e) then Running(s)
    else if IsDirEntry(ctx, e) then
      Running(Throttle(ctx, now, s.(fs := EnsureDir(s.fs, key, ctx.platform))))
    else if !CanOpenForWrite(s.fs, key, ctx.platform) then Aborted(s)
    else Running(Throttle(ctx, now, s.(fs := s.fs[key := File(e.data)], bytes := s.bytes + |e.data|)))
  }

  /** The entry loop over `entries`, entry `i` read at `ctx.clock(i)`, stopping at the first IOException. */
  function Unpack(ctx: Context, entries: seq<Entry>, s0: State): (r: Extraction)
    ensures s0.bytes <= r.state.bytes
    ensures |s0.events| <= |r.state.events| <= |s0.events| + |entries|
    ensures r.state.events[..|s0.events|] == s0.events
    ensures !ctx.listener ==> r.state.events == s0.events && r.state.last == s0.last
    decreases |entries|
  {
    if entries == [] then Running(s0)
    else
      match Unpack(ctx, entries[..|entries| - 1], s0)
      case Aborted(s) => Aborted(s)
      case Running(s) => Step(ctx, entries[|entries| - 1], ctx.clock(|entries| - 1), s)
  }

  /** The `String` that `doInBackground` returns (`None` for `null`) and the state it leaves. */
  datatype BackgroundRun = BackgroundRun(result: Option<string>, state: State)

  /** `doInBackground` as a function of the task's fields and of its inputs. */
  function Background(target: string, listener: bool, server: string -> Response, url: string,
                      p: Platform, startMsec: int, clock: nat -> int, s0: State): (r: BackgroundRun)
    ensures r.result.Some? ==> |r.result.value| > 0
    ensures Connect(server, url).Err? ==> r == BackgroundRun(Some(Connect(server, url).message), s0)
    ensures Connect(server, url).Ok? && listener ==>
      |r.state.events| > |s0.events| && r.state.events[|s0.events|] == Started(startMsec)
    ensures !listener ==> r.state.events == s0.events && r.state.last == s0.last
  {
    match Connect(server, url)
    case Err(message) => BackgroundRun(Some(message), s0)
    case Ok(reply) =>
      var started := if listener then s0.events + [Started(startMsec)] else s0.events;
      var ctx := Context(target, p, clock, reply.contentLength, listener);
      var run := Unpack(ctx, reply.body.entries, s0.(events := started, bytes := 0));
      BackgroundRun(if run.Aborted? || reply.body.damaged then Some(UnpackFailedMessage) else None,
                    run.state)
  }

  /** The listener call that `onPostExecute` makes for `result`. */
  function TerminalEvent(target: string, result: Option<string>, now: int): (ev: Event)
    ensures ev.IsTerminal() && ev.at == now
    ensures ev.Finished? <==> result.None? || result.value == ""
    ensures ev.Finished? ==> ev.dir == target
    ensures ev.Failed? ==> ev.message == result.value
  {
    if result.None? || |result.value| == 0 then Finished(now, target) else Failed(now, result.value)
  }

  /** Finite concatenation of the chunks written to a file. */
  function Flatten(chunks: seq<seq<byte>>): seq<byte>
    decreases |chunks|
  {
    if chunks == [] then [] else Flatten(chunks[..|chunks| - 1]) + chunks[|chunks| - 1]
  }

  // ---------------------------------------------------------------------
  // The task object

  class DownloadTask {
    const fileUrl: string
    const targetDirName: string
    const hasListener: bool
    var lastEventMsec: int
    var fs: map<string, Node>
    var events: seq<Event>

    /** The constructor: normalise the directory name and make sure the directory exists. */
    constructor (fileUrl: string, targetDir: Option<string>, hasListener: bool,
                 disk: map<string, Node>, p: Platform)
      ensures this.fileUrl == fileUrl && this.hasListener == hasListener
      ensures targetDirName == NormalizeTargetDir(targetDir)
      ensures fs == EnsureDir(disk, Key(targetDirName), p)
      ensures lastEventMsec == 0 && events == []
    {
      this.fileUrl := fileUrl;
      this.hasListener := hasListener;
      var name := NormalizeTargetDir(targetDir);
      targetDirName := name;
      var key := Key(name);
      fs := disk;
      if key !in disk {
        if p.mkdirsSucceeds(key) {
          fs := disk[key := Dir];
        }
      }
      lastEventMsec := 0;
      events := [];
    }

    /**
     * `doInBackground`: connect, report the start, unpack every entry, and
     * return `None` (Java `null`) on success or the failure message.
     */
    method DoInBackground(server: string -> Response, p: Platform, startMsec: int, clock: nat -> int)
      returns (result: Option<string>)
      modifies this
      ensures var run := Background(targetDirName, hasListener, server, fileUrl, p, startMsec, clock,
                                    State(old(fs), old(lastEventMsec), old(events), 0));
        result == run.result && fs == run.state.fs &&
        lastEventMsec == run.state.last && events == run.state.events
    {
      var first := server(fileUrl);
      var response := first;
      if first.Answered? && IsRedirect(first.reply.code) {
        response := server(first.reply.location);
      }
      if response.Unreachable? {
        return Some(DownloadFailedPrefix + response.reason);
      }
      if response.reply.code != HttpOk {
        return Some(StatusFailure(response.reply.code));
      }
      var reply := response.reply;
      if hasListener {
        events := events + [Started(startMsec)];
      }
      var aborted, bytes := UnpackEntries(p, clock, reply.contentLength, reply.body.entries);
      if aborted || reply.body.damaged {
        result := Some(UnpackFailedMessage);
      } else {
        result := None;
      }
    }

    /** The loop over the archive's entries; `aborted` when an output file could not be opened. */
    method UnpackEntries(p: Platform, clock: nat -> int, totalBytes: int, entries: seq<Entry>)
      returns (aborted: bool, bytesProcessed: int)
      modifies this
      ensures var ctx := Context(targetDirName, p, clock, totalBytes, hasListener);
        var run := Unpack(ctx, entries, State(old(fs), old(lastEventMsec), old(events), 0));
        aborted == run.Aborted? && run.state == State(fs, lastEventMsec, events, bytesProcessed)
    {
      ghost var ctx := Context(targetDirName, p, clock, totalBytes, hasListener);
      ghost var s0 := State(fs, lastEventMsec, events, 0);
      bytesProcessed := 0;
      for i := 0 to |entries|
        invariant Unpack(ctx, entries[..i], s0) == Running(State(fs, lastEventMsec, events, bytesProcessed))
      {
        assert entries[..i + 1][..i] == entries[..i];
        var entry := entries[i];
        var innerFileName := targetDirName + entry.name;
        var key := Key(innerFileName);
        if p.isHidden(key) {
          continue;
        }
        if EndsWithSeparator(innerFileName) {
          if key !in fs {
            if p.mkdirsSucceeds(key) {
              fs := fs[key := Dir];
            }
          }
        } else {
          if !CanOpenForWrite(fs, key, p) {
            assert entries[..|entries|] == entries;
            AbortedStaysAborted(ctx, entries, i + 1, State(fs, lastEventMsec, events, bytesProcessed), s0);
            return true, bytesProcessed;
          }
          var written, chunks := WriteFile(key, entry.data, bytesProcessed);
          bytesProcessed := written;
        }
        if hasListener {
          var currentMillis := clock(i);
          if currentMillis - lastEventMsec > EventIntervalMsec {
            lastEventMsec := currentMillis;
            events := events + [Progress(currentMillis, bytesProcessed, totalBytes)];
          }
        }
      }
      assert entries[..|entries|] == entries;
      aborted := false;
    }

    /**
     * Creates (or truncates) the file `key` and copies `data` into it through
     * reads of at most `BufferSize` bytes, counting every byte copied.
     */
    method WriteFile(key: string, data: seq<byte>, bytesIn: int) returns (bytesOut: int, ghost chunks: seq<seq<byte>>)
      modifies this`fs
      ensures fs == old(fs)[key := File(data)]
      ensures bytesOut == bytesIn + |data|
      ensures Flatten(chunks) == data
      ensures forall c :: c in chunks ==> 0 < |c| <= BufferSize
    {
      fs := fs[key := File([])];
      bytesOut := bytesIn;
      var pos := 0;
      chunks := [];
      while pos < |data|
        invariant 0 <= pos <= |data|
        invariant fs == old(fs)[key := File(data[..pos])]
        invariant bytesOut == bytesIn + pos
        invariant Flatten(chunks) == data[..pos]
        invariant forall c :: c in chunks ==> 0 < |c| <= BufferSize
        decreases |data| - pos
      {
        var count :| 0 < count <= BufferSize && pos + count <= |data|;
        var buffer := data[pos..pos + count];
        fs := fs[key := File(fs[key].content + buffer)];
        bytesOut := bytesOut + count;
        assert (chunks + [buffer])[..|chunks|] == chunks;
        chunks := chunks + [buffer];
        assert data[..pos] + buffer == data[..pos + count];
        pos := pos + count;
      }
      assert data[..pos] == data;
    }

    /** `onPostExecute`: exactly one terminal call on the listener, if there is one. */
    method OnPostExecute(result: Option<string>, now: int)
      modifies this`events
      ensures events == old(events) + (if hasListener then [TerminalEvent(targetDirName, result, now)] else [])
    {
      if hasListener {
        if result.None? || |result.value| == 0 {
          events := events + [Finished(now, targetDirName)];
        } else {
          events := events + [Failed(now, result.value)];
        }
      }
    }
  }

  /** Once the entry loop has aborted, the remaining entries change nothing. */
  lemma {:induction false} AbortedStaysAborted(ctx: Context, entries: seq<Entry>, n: nat, s: State, s0: State)
    requires n <= |entries|
    requires Unpack(ctx, entries[..n], s0) == Aborted(s)
    ensures Unpack(ctx, entries, s0) == Aborted(s)
    decreases |entries| - n
  {
    if n < |entries| {
      assert entries[..n + 1][..n] == entries[..n];
      AbortedStaysAborted(ctx, entries, n + 1, s, s0);
    } else {
      assert entries[..n] == entries;
    }
  }
}
