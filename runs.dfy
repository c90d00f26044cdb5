/**
 * Runs of several pulls, as FrameIterator.seek, FrameIterator.close and
 * FrameExtractor.update perform them (pixeltable/utils/video.py:198-241). The
 * class Video.FrameIterator is proved to compute these functions.
 */
module Runs {
  import opened Wrappers
  import opened FrameNames
  import opened Sequencer

  /** How a multi-pull operation ended: normally, or by an exception escaping from
      a pull (the outcome of that pull: end of stream, an error, or a stall). */
  datatype Outcome = Returned | Escaped(pulled: Pulled)

  /** An operation's outcome, the state after it and the events it left unconsumed. */
  datatype Run = Run(outcome: Outcome, state: State, rest: seq<Event>)

  lemma SuffixOfSuffix(a: seq<Event>, b: seq<Event>, c: seq<Event>)
    requires IsSuffix(a, b) && IsSuffix(b, c)
    ensures IsSuffix(a, c)
  {
    assert c[|c| - |b|..][|b| - |a|..] == c[|c| - |a|..];
  }

  /**
   * Pull until a pull returns something other than a frame: the loop of `close`
   * (video.py:218-222), and the loop of `seek` once its guard holds, since the
   * guard then holds for ever (video.py:205-206). Ends at end of stream only in a
   * stopped state.
   */
  ghost function Drain(runId: string, s: State, events: seq<Event>): (st: Step)
    requires Inv(s)
    ensures Inv(st.state) && !st.result.Frame? && IsSuffix(st.rest, events)
    ensures SlotsNamed(runId, s.slots) ==> SlotsNamed(runId, st.state.slots)
    ensures st.result.EndOfStream? ==> Stopped(st.state)
    decreases |events|, |s.slots| - Start(s).cursor
  {
    var st := Pull(runId, s, events);
    PullFacts(runId, s, events);
    if st.result.Frame? then
      var st' := Drain(runId, st.state, st.rest);
      SuffixOfSuffix(st'.rest, st.rest, events);
      st'
    else
      EndOfStreamIsFinal(runId, s, events, []);
      st
  }

  /** `close` (video.py:214-222): nothing before extraction has started; otherwise
      pull until end of stream, which it absorbs; any other exception escapes. So
      `close` returns normally only before extraction started (changing nothing) or
      at end of stream, with the watcher stopped. */
  ghost function CloseRun(runId: string, s: State, events: seq<Event>): (r: Run)
    requires Inv(s)
    ensures Inv(r.state) && IsSuffix(r.rest, events)
    ensures r.outcome == Returned ==>
      (s.cursor == NotStarted && r.state == s && r.rest == events) || Stopped(r.state)
    ensures s.cursor == NotStarted ==> r == Run(Returned, s, events)
    ensures s.cursor != NotStarted ==> (r.outcome == Returned <==> Drain(runId, s, events).result.EndOfStream?)
  {
    if s.cursor == NotStarted then Run(Returned, s, events)
    else
      var st := Drain(runId, s, events);
      Run(if st.result.EndOfStream? then Returned else Escaped(st.result), st.state, st.rest)
  }

  /**
   * `seek` as written (video.py:198-206): start extraction if needed, then pull
   * while `frame_idx < next_frame_idx`. Since the caller must pass
   * `frame_idx >= next_frame_idx`, the loop runs only for `seek(-1)` on a fresh
   * iterator, and then never stops by its guard.
   */
  ghost function SeekRun(runId: string, s: State, events: seq<Event>, frameIdx: int): (r: Run)
    requires Inv(s) && frameIdx >= s.cursor
    ensures Inv(r.state)
    ensures SlotsNamed(runId, s.slots) ==> SlotsNamed(runId, r.state.slots)
  {
    var s1 := Start(s);
    if frameIdx < s1.cursor then
      var st := Drain(runId, s1, events);
      Run(Escaped(st.result), st.state, st.rest)
    else Run(Returned, s1, events)
  }

  /**
   * The loop `seek` evidently intends: pull while `next_frame_idx < frame_idx`, so
   * that the next pull returns frame `frame_idx`. Stops early when a pull returns
   * something other than a frame.
   */
  ghost function SkipTo(runId: string, s: State, events: seq<Event>, target: int): (r: Run)
    requires Inv(s) && s.cursor >= 0
    ensures Inv(r.state) && IsSuffix(r.rest, events)
    ensures SlotsNamed(runId, s.slots) ==> SlotsNamed(runId, r.state.slots)
    ensures r.outcome == Returned ==> r.state.cursor == (if target > s.cursor then target else s.cursor)
    ensures r.outcome.Escaped? ==> !r.outcome.pulled.Frame?
    decreases target - s.cursor
  {
    if target <= s.cursor then Run(Returned, s, events)
    else
      var st := Pull(runId, s, events);
      PullFacts(runId, s, events);
      if st.result.Frame? then
        var r := SkipTo(runId, st.state, st.rest, target);
        SuffixOfSuffix(r.rest, st.rest, events);
        r
      else Run(Escaped(st.result), st.state, st.rest)
  }

  /** The corrected `seek`: start extraction if needed, then skip to the frame. */
  ghost function FastForwardRun(runId: string, s: State, events: seq<Event>, target: int): (r: Run)
    requires Inv(s) && target >= s.cursor
    ensures Inv(r.state)
  {
    SkipTo(runId, Start(s), events, target)
  }

  /** What `FrameExtractor.update` leaves: how it ended, the current frame's path, the
      iterator's state and the events left. */
  datatype Extracted = Extracted(outcome: Outcome, current: Option<FilePath>, state: State, rest: seq<Event>)

  /** The rest of `update` (video.py:241) after positioning: one pull, whose path
      becomes the current frame; an exception leaves the current frame as it was. */
  ghost function ExtractAfter(runId: string, run: Run, current: Option<FilePath>): (e: Extracted)
    requires Inv(run.state)
    ensures Inv(e.state)
    ensures e.outcome == Returned ==> run.outcome == Returned && e.current.Some?
    ensures e.outcome != Returned ==> e.current == current
  {
    if run.outcome.Escaped? then Extracted(run.outcome, current, run.state, run.rest)
    else
      var st := Pull(runId, run.state, run.rest);
      PullKeepsInvariant(runId, run.state, run.rest);
      if st.result.Frame? then Extracted(Returned, Some(st.result.path), st.state, st.rest)
      else Extracted(Escaped(st.result), current, st.state, st.rest)
  }

  // ---------------------------------------------------------------------------
  // close

  /** Closing a closed iterator ends at once: it consumes no event and changes
      nothing but deleting the last returned file again. */
  lemma {:induction false} CloseTwice(runId: string, s: State, events: seq<Event>, later: seq<Event>)
    requires Inv(s) && s.cursor != NotStarted
    ensures var r := CloseRun(runId, s, events);
      r.outcome == Returned ==>
        CloseRun(runId, r.state, later) ==
          Run(Returned, r.state.(deleted := r.state.deleted + Reclaimed(r.state)), later)
  {
    var r := CloseRun(runId, s, events);
    if r.outcome == Returned {
      StoppedPull(runId, r.state, later);
      var st := Pull(runId, r.state, later);
      assert Drain(runId, r.state, later) == st;
    }
  }

  /** Closing a stopped iterator returns normally, so a normal close can always be
      followed by another. */
  lemma StoppedCloses(runId: string, s: State, events: seq<Event>)
    requires Stopped(s)
    ensures CloseRun(runId, s, events).outcome == Returned
  {
    StoppedPull(runId, s, events);
    assert Drain(runId, s, events) == Pull(runId, s, events);
  }

  // ---------------------------------------------------------------------------
  // seek, as written and corrected

  /** As written, `seek(k)` with `k >= 0` only starts the extraction: the cursor
      stays where it was, however far ahead `k` lies. `seek(-1)` on a fresh iterator
      pulls until an exception (end of stream included) escapes. */
  lemma SeekAsWritten(runId: string, s: State, events: seq<Event>, frameIdx: int)
    requires Inv(s) && frameIdx >= s.cursor
    ensures frameIdx >= 0 ==> SeekRun(runId, s, events, frameIdx) == Run(Returned, Start(s), events)
    ensures frameIdx >= 0 ==> SeekRun(runId, s, events, frameIdx).state.cursor == Start(s).cursor
    ensures frameIdx < 0 ==> SeekRun(runId, s, events, frameIdx).outcome.Escaped?
  {
  }

  /** As written, `update(k)` returns the frame at the cursor whatever `k` is: the
      pulled file is the one named for frame `Start(s).cursor`. */
  lemma UpdateAsWrittenIgnoresIndex(runId: string, s: State, events: seq<Event>, frameIdx: int, current: Option<FilePath>)
    requires Inv(s) && SlotsNamed(runId, s.slots) && frameIdx >= s.cursor && frameIdx >= 0
    ensures var e := ExtractAfter(runId, SeekRun(runId, s, events, frameIdx), current);
      e.outcome == Returned ==>
        e.current.Some? && Names(runId, Start(s).cursor, e.current.value) && e.state.cursor == Start(s).cursor + 1
  {
    SeekAsWritten(runId, s, events, frameIdx);
    PullInOrder(runId, Start(s), events);
    PullFacts(runId, Start(s), events);
  }

  /** A concrete case: `update(5)` on a fresh extractor whose first notification is
      the file of frame 1 returns that file, the frame at index 0, not frame 5. */
  lemma UpdateAsWrittenExample(runId: string, f1: FilePath)
    requires FrameNumber(runId, f1.name) == Some(1)
    ensures ExtractAfter(runId, SeekRun(runId, Initial, [Deliver(f1)], 5), None).current == Some(f1)
    ensures FrameNumber(runId, f1.name) != Some(5 + 1)
  {
    SeekAsWritten(runId, Initial, [Deliver(f1)], 5);
    assert Start(Initial) == Initial.(cursor := 0, watching := true);
    FirstFrameFromFreshIterator(runId, f1, [Deliver(f1)]);
  }

  lemma FirstFrameFromFreshIterator(runId: string, f1: FilePath, events: seq<Event>)
    requires FrameNumber(runId, f1.name) == Some(1)
    requires |events| >= 1 && events[0] == Deliver(f1)
    ensures Pull(runId, Start(Initial), events).result == Frame(0, f1)
  {
    var s0 := Pad(Begin(Start(Initial)));
    assert s0.cursor == 0 && s0.slots == [None] && !s0.exited;
    assert Pull(runId, Start(Initial), events) == Wait(runId, s0, events);
    AddPathStoresAtSlot(runId, [None], f1, 1);
    var u := AddPath(runId, [None], f1).value;
    assert u == [Some(f1)];
    assert Wait(runId, s0, events) == Receive(runId, s0, events);
    assert Receive(runId, s0, events) == Wait(runId, s0.(slots := u), events[1..]);
  }

  /** Corrected, `update(k)` returns frame `k`: the file named for frame `k`, for
      any `k` at or after the cursor. */
  lemma UpdateAtDeliversTarget(runId: string, s: State, events: seq<Event>, target: int, current: Option<FilePath>)
    requires Inv(s) && SlotsNamed(runId, s.slots) && target >= s.cursor && target >= 0
    ensures var e := ExtractAfter(runId, FastForwardRun(runId, s, events, target), current);
      e.outcome == Returned ==> e.current.Some? && Names(runId, target, e.current.value)
  {
    var r := FastForwardRun(runId, s, events, target);
    if r.outcome == Returned {
      PullInOrder(runId, r.state, r.rest);
    }
  }
}
