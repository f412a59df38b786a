/**
 * Properties of the RWZipDownloadingTask model: the directory name, the
 * redirect and status decision, the entry loop's byte counter, writes and
 * progress throttle, and the terminal outcome.
 */
module ZipDownloadingProofs {
  import opened Outcomes
  import Decimal
  import opened ZipDownloadingTask

  // ---------------------------------------------------------------------
  // Reference definitions

  /** Total size of the entries that are written as files: neither hidden nor directories. */
  ghost function FileBytes(ctx: Context, entries: seq<Entry>): nat
    decreases |entries|
  {
    if entries == [] then 0
    else
      var e := entries[|entries| - 1];
      FileBytes(ctx, entries[..|entries| - 1]) +
      (if IsHiddenEntry(ctx, e) || IsDirEntry(ctx, e) then 0 else |e.data|)
  }

  /** Number of entries that are not hidden, each of which gets one progress check. */
  ghost function VisibleCount(ctx: Context, entries: seq<Entry>): nat
    decreases |entries|
  {
    if entries == [] then 0
    else VisibleCount(ctx, entries[..|entries| - 1]) + (if IsHiddenEntry(ctx, entries[|entries| - 1]) then 0 else 1)
  }

  /**
   * A log of progress events as the throttle allows it: every event is a
   * progress report carrying `total`, consecutive events are more than
   * `EventIntervalMsec` apart, the reported byte counts never go back, the
   * first event is more than the interval after `last0`, and `last` is the
   * time of the latest event.
   */
  ghost predicate ThrottledLog(log: seq<Event>, last0: int, last: int, total: int) {
    (forall k :: 0 <= k < |log| ==> log[k].Progress? && log[k].totalBytes == total) &&
    (forall k :: 0 < k < |log| ==>
       log[k].at - log[k - 1].at > EventIntervalMsec &&
       log[k - 1].bytesProcessed <= log[k].bytesProcessed) &&
    (if |log| == 0 then last == last0
     else log[0].at - last0 > EventIntervalMsec && last == log[|log| - 1].at)
  }

  // ---------------------------------------------------------------------
  // Target directory

  /** Normalising an already normalised name changes nothing. */
  lemma NormalizeIdempotent(dir: Option<string>)
    ensures NormalizeTargetDir(Some(NormalizeTargetDir(dir))) == NormalizeTargetDir(dir)
  {
  }

  /** The stored name is the given one when that already ends with the separator, else one separator longer. */
  lemma NormalizeAppendsAtMostOneSeparator(d: string)
    ensures EndsWithSeparator(d) ==> NormalizeTargetDir(Some(d)) == d
    ensures !EndsWithSeparator(d) ==> NormalizeTargetDir(Some(d)) == d + [Separator]
  {
  }

  /** A directory path and the same path without its trailing separator name the same `File`. */
  lemma KeyIgnoresTrailingSeparator(path: string)
    requires |path| > 0
    ensures Key(path + [Separator]) == Key(path)
  {
    assert (path + [Separator])[..|path|] == path;
  }

  /** A path that is already a key is its own key. */
  lemma KeyIdempotent(path: string)
    ensures Key(Key(path)) == Key(path)
  {
  }

  /** Paths without a trailing separator are their own keys; in particular every file entry's path. */
  lemma KeyOfPlainPath(path: string)
    requires !EndsWithSeparator(path)
    ensures Key(path) == path
  {
  }

  // ---------------------------------------------------------------------
  // Redirect and status

  /**
   * A non-200 answer that is not a redirect fails with its own code; so
   * does the answer to the one redirect, even when it redirects again.
   */
  lemma FinalStatusDecides(server: string -> Response, url: string)
    requires server(url).Answered?
    ensures var first := server(url).reply;
      var final := if IsRedirect(first.code) then server(first.location) else server(url);
      final.Answered? && final.reply.code != HttpOk ==>
        Connect(server, url).Err? && StatusCodeOf(Connect(server, url).message) == Some(final.reply.code)
  {
    var first := server(url).reply;
    var final := if IsRedirect(first.code) then server(first.location) else server(url);
    if final.Answered? && final.reply.code != HttpOk {
      assert Connect(server, url).message == StatusFailure(final.reply.code);
    }
  }

  /** A redirect to a redirect is reported as a failure carrying the second code: no third request. */
  lemma SecondRedirectNotFollowed(server: string -> Response, url: string)
    requires server(url).Answered? && IsRedirect(server(url).reply.code)
    requires server(server(url).reply.location).Answered?
    requires IsRedirect(server(server(url).reply.location).reply.code)
    ensures Connect(server, url).Err?
    ensures StatusCodeOf(Connect(server, url).message) == Some(server(server(url).reply.location).reply.code)
  {
    FinalStatusDecides(server, url);
  }

  /** The connection phase consults the server at `url` and, after a redirect, at `Location` only. */
  lemma ConnectAsksAtMostTwice(server1: string -> Response, server2: string -> Response, url: string)
    requires server1(url) == server2(url)
    requires server1(url).Answered? && IsRedirect(server1(url).reply.code) ==>
      server1(server1(url).reply.location) == server2(server1(url).reply.location)
    ensures Connect(server1, url) == Connect(server2, url)
  {
  }

  /** One redirect to a 200 reply behaves exactly as that reply given directly. */
  lemma RedirectIsTransparent(direct: string -> Response, redirected: string -> Response, url: string, loc: string)
    requires direct(url).Answered? && direct(url).reply.code == HttpOk
    requires redirected(url).Answered? && IsRedirect(redirected(url).reply.code)
    requires redirected(url).reply.location == loc && redirected(loc) == direct(url)
    ensures Connect(redirected, url) == Connect(direct, url) == Ok(direct(url).reply)
  {
  }

  // ---------------------------------------------------------------------
  // One entry

  /** A hidden entry writes nothing, counts nothing and neither reads nor moves the throttle. */
  lemma HiddenEntrySkipped(ctx: Context, e: Entry, now: int, s: State)
    requires IsHiddenEntry(ctx, e)
    ensures Step(ctx, e, now, s) == Running(s)
  {
  }

  /** A directory entry never aborts the loop and counts no bytes, whether or not mkdirs succeeds. */
  lemma DirectoryEntryNeverAborts(ctx: Context, e: Entry, now: int, s: State)
    requires !IsHiddenEntry(ctx, e) && IsDirEntry(ctx, e)
    ensures Step(ctx, e, now, s).Running?
    ensures Step(ctx, e, now, s).state.bytes == s.bytes
    ensures Step(ctx, e, now, s).state.fs == EnsureDir(s.fs, EntryKey(ctx, e), ctx.platform)
  {
  }

  /** A file entry either aborts with nothing changed, or is written whole and counted exactly. */
  lemma FileEntryWritten(ctx: Context, e: Entry, now: int, s: State)
    requires !IsHiddenEntry(ctx, e) && !IsDirEntry(ctx, e)
    ensures Step(ctx, e, now, s).Aborted? <==> !CanOpenForWrite(s.fs, EntryKey(ctx, e), ctx.platform)
    ensures Step(ctx, e, now, s).Aborted? ==> Step(ctx, e, now, s).state == s
    ensures Step(ctx, e, now, s).Running? ==>
      Step(ctx, e, now, s).state.fs == s.fs[EntryKey(ctx, e) := File(e.data)] &&
      Step(ctx, e, now, s).state.bytes == s.bytes + |e.data|
  {
  }

  // ---------------------------------------------------------------------
  // The whole entry loop

  /**
   * The byte counter never decreases, and a run that reaches the end of the
   * archive has counted exactly the bytes of the file entries.
   */
  lemma {:induction false} UnpackCountsFileBytes(ctx: Context, entries: seq<Entry>, s0: State)
    ensures s0.bytes <= Unpack(ctx, entries, s0).state.bytes
    ensures Unpack(ctx, entries, s0).Running? ==>
      Unpack(ctx, entries, s0).state.bytes == s0.bytes + FileBytes(ctx, entries)
    decreases |entries|
  {
    if entries != [] {
      UnpackCountsFileBytes(ctx, entries[..|entries| - 1], s0);
    }
  }

  /** The counter after a prefix of the entries is never more than after all of them. */
  lemma {:induction false} BytesNeverDecrease(ctx: Context, entries: seq<Entry>, n: nat, s0: State)
    requires n <= |entries|
    ensures Unpack(ctx, entries[..n], s0).state.bytes <= Unpack(ctx, entries, s0).state.bytes
    decreases |entries| - n
  {
    if n == |entries| {
      assert entries[..n] == entries;
    } else {
      var init := entries[..|entries| - 1];
      assert init[..n] == entries[..n];
      BytesNeverDecrease(ctx, init, n, s0);
      UnpackCountsFileBytes(ctx, [entries[|entries| - 1]], Unpack(ctx, init, s0).state);
    }
  }

  /**
   * The loop's progress log relative to the state `s0` it started from: only
   * appended to, throttled as `ThrottledLog` says, the latest report never
   * ahead of the byte counter, and nothing at all without a listener.
   */
  ghost predicate LogInvariant(ctx: Context, s0: State, s: State) {
    |s0.events| <= |s.events| && s.events[..|s0.events|] == s0.events &&
    s0.bytes <= s.bytes &&
    ThrottledLog(s.events[|s0.events|..], s0.last, s.last, ctx.totalBytes) &&
    (|s.events| > |s0.events| ==> s.events[|s.events| - 1].bytesProcessed <= s.bytes) &&
    (!ctx.listener ==> s.events == s0.events && s.last == s0.last)
  }

  /**
   * The throttle sends when it is due: after a non-hidden entry that did not
   * abort, with a listener, exactly one progress event stamped `now` and
   * carrying the updated counter is appended, and `last` becomes `now`,
   * exactly when `now - last > EventIntervalMsec`; otherwise neither the
   * events nor `last` change.
   */
  lemma ProgressSentWhenDue(ctx: Context, e: Entry, now: int, s: State)
    requires !IsHiddenEntry(ctx, e) && Step(ctx, e, now, s).Running?
    ensures var t := Step(ctx, e, now, s).state;
      t.bytes == s.bytes + (if IsDirEntry(ctx, e) then 0 else |e.data|) &&
      (ctx.listener && now - s.last > EventIntervalMsec ==>
         t.events == s.events + [Progress(now, t.bytes, ctx.totalBytes)] && t.last == now) &&
      (!(ctx.listener && now - s.last > EventIntervalMsec) ==>
         t.events == s.events && t.last == s.last)
  {
  }

  /** An event that passes the throttle check extends a throttled log. */
  lemma ThrottledLogExtends(log: seq<Event>, last0: int, last: int, total: int, now: int, bytes: int)
    requires ThrottledLog(log, last0, last, total)
    requires now - last > EventIntervalMsec
    requires |log| > 0 ==> log[|log| - 1].bytesProcessed <= bytes
    ensures ThrottledLog(log + [Progress(now, bytes, total)], last0, now, total)
  {
    var log' := log + [Progress(now, bytes, total)];
    assert forall k :: 0 <= k < |log| ==> log'[k] == log[k];
  }

  /** One entry keeps the log invariant and adds at most one event, none for a hidden entry. */
  lemma StepKeepsLog(ctx: Context, e: Entry, now: int, s0: State, s: State)
    requires LogInvariant(ctx, s0, s)
    ensures LogInvariant(ctx, s0, Step(ctx, e, now, s).state)
    ensures |Step(ctx, e, now, s).state.events| <= |s.events| + (if IsHiddenEntry(ctx, e) then 0 else 1)
    ensures !IsHiddenEntry(ctx, e) && Step(ctx, e, now, s).Running? ==>
      |Step(ctx, e, now, s).state.events| ==
        |s.events| + (if ctx.listener && now - s.last > EventIntervalMsec then 1 else 0)
  {
    if !IsHiddenEntry(ctx, e) && CanOpenForWriteOrDir(ctx, e, s) {
      var u := if IsDirEntry(ctx, e) then s.(fs := EnsureDir(s.fs, EntryKey(ctx, e), ctx.platform))
               else s.(fs := s.fs[EntryKey(ctx, e) := File(e.data)], bytes := s.bytes + |e.data|);
      assert Step(ctx, e, now, s).state == Throttle(ctx, now, u);
      UpdateKeepsLog(ctx, now, s0, s, u);
    }
  }

  /** The progress check after an entry that moved the counter from `s` to `u` keeps the invariant. */
  lemma UpdateKeepsLog(ctx: Context, now: int, s0: State, s: State, u: State)
    requires LogInvariant(ctx, s0, s)
    requires u.bytes >= s.bytes && u.events == s.events && u.last == s.last
    ensures LogInvariant(ctx, s0, Throttle(ctx, now, u))
    ensures |Throttle(ctx, now, u).events| ==
      |s.events| + (if ctx.listener && now - s.last > EventIntervalMsec then 1 else 0)
  {
    if ctx.listener && now - s.last > EventIntervalMsec {
      var t := Throttle(ctx, now, u);
      var n := |s0.events|;
      var ev := Progress(now, u.bytes, ctx.totalBytes);
      assert t.events == s.events + [ev];
      assert t.events[n..] == s.events[n..] + [ev];
      assert t.events[..n] == s.events[..n];
      ThrottledLogExtends(s.events[n..], s0.last, s.last, ctx.totalBytes, now, u.bytes);
    }
  }

  /**
   * The throttle over the whole loop: progress events are only appended, at
   * most one per visible entry, spaced as `ThrottledLog` says; without a
   * listener nothing is appended and `last` never moves.
   */
  lemma {:induction false} ThrottleSpacing(ctx: Context, entries: seq<Entry>, s0: State)
    ensures LogInvariant(ctx, s0, Unpack(ctx, entries, s0).state)
    ensures |Unpack(ctx, entries, s0).state.events| - |s0.events| <= VisibleCount(ctx, entries)
    decreases |entries|
  {
    if entries == [] {
      assert s0.events[|s0.events|..] == [];
    } else {
      var init := entries[..|entries| - 1];
      ThrottleSpacing(ctx, init, s0);
      var r := Unpack(ctx, init, s0);
      if r.Running? {
        StepKeepsLog(ctx, entries[|entries| - 1], ctx.clock(|entries| - 1), s0, r.state);
      }
    }
  }

  /** Whether a visible entry gets as far as the progress check. */
  ghost predicate CanOpenForWriteOrDir(ctx: Context, e: Entry, s: State) {
    IsDirEntry(ctx, e) || CanOpenForWrite(s.fs, EntryKey(ctx, e), ctx.platform)
  }

  /**
   * A run that aborts leaves the output of the entries before the failing one
   * in place (nothing is rolled back); the failing entry is a visible file entry
   * whose output file could not be opened.
   */
  lemma {:induction false} AbortKeepsPartialOutput(ctx: Context, entries: seq<Entry>, s0: State)
    requires Unpack(ctx, entries, s0).Aborted?
    ensures exists j :: (0 <= j < |entries| &&
      Unpack(ctx, entries[..j], s0) == Running(Unpack(ctx, entries, s0).state) &&
      !IsHiddenEntry(ctx, entries[j]) && !IsDirEntry(ctx, entries[j]) &&
      !CanOpenForWrite(Unpack(ctx, entries, s0).state.fs, EntryKey(ctx, entries[j]), ctx.platform))
    decreases |entries|
  {
    var init := entries[..|entries| - 1];
    var r := Unpack(ctx, init, s0);
    if r.Aborted? {
      AbortKeepsPartialOutput(ctx, init, s0);
      var j :| 0 <= j < |init| &&
        Unpack(ctx, init[..j], s0) == Running(r.state) &&
        !IsHiddenEntry(ctx, init[j]) && !IsDirEntry(ctx, init[j]) &&
        !CanOpenForWrite(r.state.fs, EntryKey(ctx, init[j]), ctx.platform);
      assert init[..j] == entries[..j];
    } else {
      assert init == entries[..|entries| - 1];
    }
  }

  /** A key that only hidden entries (or none) name keeps whatever the simulated filesystem had there. */
  lemma {:induction false} HiddenPathsUntouched(ctx: Context, entries: seq<Entry>, s0: State, key: string)
    requires forall i :: 0 <= i < |entries| && EntryKey(ctx, entries[i]) == key ==> IsHiddenEntry(ctx, entries[i])
    ensures key in Unpack(ctx, entries, s0).state.fs <==> key in s0.fs
    ensures key in s0.fs ==> Unpack(ctx, entries, s0).state.fs[key] == s0.fs[key]
    decreases |entries|
  {
    if entries != [] {
      HiddenPathsUntouched(ctx, entries[..|entries| - 1], s0, key);
    }
  }

  /**
   * After a complete run, a file holds the bytes of the last visible entry
   * that wrote it: later entries for other paths, and hidden ones, leave it.
   */
  lemma {:induction false} LastWriterWins(ctx: Context, entries: seq<Entry>, s0: State, j: nat)
    requires j < |entries|
    requires !IsHiddenEntry(ctx, entries[j]) && !IsDirEntry(ctx, entries[j])
    requires forall i :: j < i < |entries| && !IsHiddenEntry(ctx, entries[i]) ==>
      EntryKey(ctx, entries[i]) != EntryKey(ctx, entries[j])
    requires Unpack(ctx, entries, s0).Running?
    ensures EntryKey(ctx, entries[j]) in Unpack(ctx, entries, s0).state.fs
    ensures Unpack(ctx, entries, s0).state.fs[EntryKey(ctx, entries[j])] == File(entries[j].data)
    decreases |entries|
  {
    var init := entries[..|entries| - 1];
    if j < |entries| - 1 {
      assert init[j] == entries[j];
      LastWriterWins(ctx, init, s0, j);
    }
  }

  // ---------------------------------------------------------------------
  // doInBackground and onPostExecute together

  /** Starting from `Started` alone, the entry loop leaves `Started` followed by progress events only. */
  lemma StartedThenProgress(ctx: Context, entries: seq<Entry>, s1: State, startMsec: int)
    requires s1.events == [Started(startMsec)]
    ensures var evs := Unpack(ctx, entries, s1).state.events;
      |evs| >= 1 && evs[0] == Started(startMsec) && forall k :: 0 < k < |evs| ==> evs[k].Progress?
  {
    ThrottleSpacing(ctx, entries, s1);
    var evs := Unpack(ctx, entries, s1).state.events;
    var log := evs[1..];
    forall k | 0 < k < |evs|
      ensures evs[k].Progress?
    {
      assert evs[k] == log[k - 1];
    }
  }

  /**
   * With a listener attached to a fresh task, the listener hears either one
   * `Failed` (connection or status failure), or `Started`, then progress
   * events only, then exactly one terminal event, which is `Finished` with the
   * target directory exactly when `doInBackground` returned `null`.
   */
  lemma TaskEventSequence(target: string, server: string -> Response, url: string, p: Platform,
                          startMsec: int, clock: nat -> int, now: int, s0: State)
    requires s0.events == []
    ensures var run := Background(target, true, server, url, p, startMsec, clock, s0);
      var evs := run.state.events + [TerminalEvent(target, run.result, now)];
      (Connect(server, url).Err? ==> evs == [Failed(now, Connect(server, url).message)]) &&
      (Connect(server, url).Ok? ==>
         evs[0] == Started(startMsec) && forall k :: 0 < k < |evs| - 1 ==> evs[k].Progress?) &&
      (forall k :: 0 <= k < |evs| - 1 ==> !evs[k].IsTerminal()) &&
      (evs[|evs| - 1] == Finished(now, target) <==> run.result.None?) &&
      (run.result.Some? ==> evs[|evs| - 1] == Failed(now, run.result.value))
  {
    var run := Background(target, true, server, url, p, startMsec, clock, s0);
    var r := Connect(server, url);
    if r.Ok? {
      var ctx := Context(target, p, clock, r.value.contentLength, true);
      var s1 := s0.(events := s0.events + [Started(startMsec)], bytes := 0);
      assert s1.events == [Started(startMsec)];
      assert run.state == Unpack(ctx, r.value.body.entries, s1).state;
      StartedThenProgress(ctx, r.value.body.entries, s1, startMsec);
    }
  }

  /** `doInBackground`'s result: `null` exactly when the status was 200, no file failed to open and the stream ended cleanly. */
  lemma BackgroundSucceedsWhen(target: string, listener: bool, server: string -> Response, url: string,
                               p: Platform, startMsec: int, clock: nat -> int, s0: State)
    ensures var run := Background(target, listener, server, url, p, startMsec, clock, s0);
      run.result.None? <==>
        Connect(server, url).Ok? && !Connect(server, url).value.body.damaged &&
        Unpack(Context(target, p, clock, Connect(server, url).value.contentLength, listener),
               Connect(server, url).value.body.entries,
               s0.(events := if listener then s0.events + [Started(startMsec)] else s0.events, bytes := 0)).Running?
    ensures var run := Background(target, listener, server, url, p, startMsec, clock, s0);
      run.result.Some? && Connect(server, url).Ok? ==> run.result.value == UnpackFailedMessage
  {
  }
}
