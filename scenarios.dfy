/**
 * Worked runs of the frame sequencer on concrete event lists: the notifications
 * arrive out of order, or the process exits before its last notification is in.
 * Each pull is its own lemma; the runs chain them.
 */
module Scenarios {
  import opened Wrappers
  import opened FrameNames
  import opened Sequencer

  /** The log the extraction process leaves when it reports `n` frames: the count
      sits in the second-to-last line, as video.py:159-162 expects. */
  function ExitLog(n: nat): seq<string>
  {
    ["Stream mapping: ...", "frame=    " + Decimal(n) + " fps=0.0 q=-0.0 Lsize=N/A", "video:12kB"]
  }

  lemma ExitLogReports(n: nat)
    ensures FrameCountFromLog(ExitLog(n)) == Ok(n)
  {
    var line := "frame=" + "    " + Decimal(n) + " fps=0.0 q=-0.0 Lsize=N/A";
    assert ExitLog(n)[1] == line;
    ParseFrameCountOf("    ", n, " fps=0.0 q=-0.0 Lsize=N/A");
  }

  /** The file the extraction process writes for frame `n`, with its name read back. */
  lemma FrameFileNamed(runId: string, dir: string, n: nat)
    ensures FrameNumber(runId, FilePath(dir, FrameFileName(runId, n)).name) == Some(n)
  {
    FrameNumberOfFileName(runId, n, "");
    assert FrameFileName(runId, n) + "" == FrameFileName(runId, n);
  }

  /** The first pull of a fresh iterator starts the run and waits on an empty first slot. */
  lemma FirstPull(runId: string, events: seq<Event>) returns (s0: State)
    ensures s0.cursor == 0 && s0.slots == [None] && s0.numFrames == None && !s0.exited
    ensures Pull(runId, Initial, events) == Wait(runId, s0, events)
  {
    s0 := Pad(Begin(Initial));
  }

  // ---------------------------------------------------------------------------
  // Notifications for 3, 1, 2, then the exit reporting 3 frames

  lemma OutOfOrderPull0(runId: string, f1: FilePath, f3: FilePath, events: seq<Event>)
    requires FrameNumber(runId, f1.name) == Some(1)
    requires FrameNumber(runId, f3.name) == Some(3)
    requires |events| >= 2 && events[0] == Deliver(f3) && events[1] == Deliver(f1)
    ensures var st := Pull(runId, Initial, events);
      && st.result == Frame(0, f1) && st.rest == events[2..]
      && st.state.cursor == 1 && st.state.slots == [Some(f1), None, Some(f3)]
      && st.state.numFrames == None && !st.state.exited
  {
    var s0 := FirstPull(runId, events);
    var t3 := [None, None, Some(f3)];
    AddPathStoresAtSlot(runId, [None], f3, 3);
    var u := AddPath(runId, [None], f3).value;
    assert u[0] == None && u[1] == None;
    assert u == t3;
    AddPathStoresAtSlot(runId, t3, f1, 1);
    var v := AddPath(runId, t3, f1).value;
    assert v[1] == None && v[2] == Some(f3);
    assert v == [Some(f1), None, Some(f3)];
    assert Wait(runId, s0, events) == Receive(runId, s0, events);
    assert Receive(runId, s0, events) == Wait(runId, s0.(slots := t3), events[1..]);
    assert Wait(runId, s0.(slots := t3), events[1..]) == Receive(runId, s0.(slots := t3), events[1..]);
    assert events[1..][1..] == events[2..];
    var s0b := s0.(slots := v);
    assert Receive(runId, s0.(slots := t3), events[1..]) == Wait(runId, s0b, events[2..]);
    assert Wait(runId, s0b, events[2..]) == Step(Frame(0, f1), s0b.(cursor := 1), events[2..]);
  }

  lemma OutOfOrderPull1(runId: string, f1: FilePath, f2: FilePath, f3: FilePath, s1: State, log: seq<string>)
    requires FrameNumber(runId, f2.name) == Some(2)
    requires Inv(s1) && s1.cursor == 1 && s1.slots == [Some(f1), None, Some(f3)]
    requires s1.numFrames == None && !s1.exited
    ensures var st := Pull(runId, s1, [Deliver(f2), Exit(log)]);
      && st.result == Frame(1, f2) && st.rest == [Exit(log)]
      && st.state.cursor == 2 && st.state.slots == [Some(f1), Some(f2), Some(f3)]
      && st.state.numFrames == None && !st.state.exited
  {
    var events := [Deliver(f2), Exit(log)];
    var b1 := Pad(Begin(s1));
    assert b1.slots == s1.slots && b1.cursor == 1;
    AddPathStoresAtSlot(runId, s1.slots, f2, 2);
    var t := AddPath(runId, s1.slots, f2).value;
    assert t[0] == Some(f1) && t[2] == Some(f3);
    assert t == [Some(f1), Some(f2), Some(f3)];
    assert Pull(runId, s1, events) == Wait(runId, b1, events);
    assert Wait(runId, b1, events) == Receive(runId, b1, events);
    assert events[1..] == [Exit(log)];
    assert Receive(runId, b1, events) == Wait(runId, b1.(slots := t), [Exit(log)]);
  }

  lemma OutOfOrderPull2(runId: string, f1: FilePath, f2: FilePath, f3: FilePath, s2: State, rest: seq<Event>)
    requires Inv(s2) && s2.cursor == 2 && s2.slots == [Some(f1), Some(f2), Some(f3)]
    requires s2.numFrames == None && !s2.exited
    ensures var st := Pull(runId, s2, rest);
      && st.result == Frame(2, f3) && st.rest == rest
      && st.state.cursor == 3 && |st.state.slots| == 3 && st.state.numFrames == None && !st.state.exited
  {
    var b2 := Pad(Begin(s2));
    assert b2.slots == s2.slots && b2.cursor == 2;
    assert Pull(runId, s2, rest) == Wait(runId, b2, rest);
  }

  lemma OutOfOrderPull3(runId: string, s3: State, log: seq<string>)
    requires FrameCountFromLog(log) == Ok(3)
    requires Inv(s3) && s3.cursor == 3 && |s3.slots| == 3 && s3.numFrames == None && !s3.exited
    ensures Pull(runId, s3, [Exit(log)]).result == EndOfStream
  {
    var padded := Pad(Begin(s3));
    assert padded.slots == s3.slots + [None];
    assert Pull(runId, s3, [Exit(log)]) == Wait(runId, padded, [Exit(log)]);
  }

  lemma OutOfOrderTail2(runId: string, f1: FilePath, f2: FilePath, f3: FilePath, s2: State, log: seq<string>)
    requires FrameCountFromLog(log) == Ok(3)
    requires Inv(s2) && s2.cursor == 2 && s2.slots == [Some(f1), Some(f2), Some(f3)]
    requires s2.numFrames == None && !s2.exited
    ensures PullMany(runId, s2, [Exit(log)], 2) == [Frame(2, f3), EndOfStream]
  {
    OutOfOrderPull2(runId, f1, f2, f3, s2, [Exit(log)]);
    PullManyStep(runId, s2, [Exit(log)], 1);
    var st := Pull(runId, s2, [Exit(log)]);
    OutOfOrderPull3(runId, st.state, log);
    PullManyStep(runId, st.state, st.rest, 0);
  }

  lemma OutOfOrderTail1(runId: string, f1: FilePath, f2: FilePath, f3: FilePath, s1: State, log: seq<string>)
    requires FrameNumber(runId, f2.name) == Some(2)
    requires FrameCountFromLog(log) == Ok(3)
    requires Inv(s1) && s1.cursor == 1 && s1.slots == [Some(f1), None, Some(f3)]
    requires s1.numFrames == None && !s1.exited
    ensures PullMany(runId, s1, [Deliver(f2), Exit(log)], 3) == [Frame(1, f2), Frame(2, f3), EndOfStream]
  {
    OutOfOrderPull1(runId, f1, f2, f3, s1, log);
    PullManyStep(runId, s1, [Deliver(f2), Exit(log)], 2);
    var st := Pull(runId, s1, [Deliver(f2), Exit(log)]);
    OutOfOrderTail2(runId, f1, f2, f3, st.state, log);
  }

  /** Three frames whose notifications arrive as 3, 1, 2, then the exit reporting 3
      frames: the pulls return frames 0, 1, 2 with the files for 1, 2, 3, then end
      the stream. */
  lemma OutOfOrderArrivals(runId: string, f1: FilePath, f2: FilePath, f3: FilePath, log: seq<string>)
    requires FrameNumber(runId, f1.name) == Some(1)
    requires FrameNumber(runId, f2.name) == Some(2)
    requires FrameNumber(runId, f3.name) == Some(3)
    requires FrameCountFromLog(log) == Ok(3)
    ensures PullMany(runId, Initial, [Deliver(f3), Deliver(f1), Deliver(f2), Exit(log)], 4) ==
            [Frame(0, f1), Frame(1, f2), Frame(2, f3), EndOfStream]
  {
    var events := [Deliver(f3), Deliver(f1), Deliver(f2), Exit(log)];
    OutOfOrderPull0(runId, f1, f3, events);
    PullManyStep(runId, Initial, events, 3);
    var st := Pull(runId, Initial, events);
    assert events[2..] == [Deliver(f2), Exit(log)];
    OutOfOrderTail1(runId, f1, f2, f3, st.state, log);
  }

  // ---------------------------------------------------------------------------
  // The exit reporting 2 frames arrives before the second notification

  lemma EarlyExitPull0(runId: string, f1: FilePath, events: seq<Event>)
    requires FrameNumber(runId, f1.name) == Some(1)
    requires |events| >= 1 && events[0] == Deliver(f1)
    ensures var st := Pull(runId, Initial, events);
      && st.result == Frame(0, f1) && st.rest == events[1..]
      && st.state.cursor == 1 && st.state.slots == [Some(f1)] && st.state.numFrames == None && !st.state.exited
  {
    var s0 := FirstPull(runId, events);
    AddPathStoresAtSlot(runId, [None], f1, 1);
    var u := AddPath(runId, [None], f1).value;
    assert u == [Some(f1)];
    assert Wait(runId, s0, events) == Receive(runId, s0, events);
    assert Receive(runId, s0, events) == Wait(runId, s0.(slots := u), events[1..]);
  }

  /** The wait of the second pull: the exit is seen first, then a timeout, then the
      second notification. */
  lemma EarlyExitWait(runId: string, f1: FilePath, f2: FilePath, s: State, log: seq<string>)
    requires FrameNumber(runId, f2.name) == Some(2)
    requires FrameCountFromLog(log) == Ok(2)
    requires s.cursor == 1 && s.slots == [Some(f1), None] && !s.exited
    ensures var st := Wait(runId, s, [Exit(log), Timeout, Deliver(f2)]);
      && st.result == Frame(1, f2) && st.rest == []
      && st.state.cursor == 2 && st.state.numFrames == Some(2)
      && st.state.slots == [Some(f1), Some(f2)]
  {
    var events := [Exit(log), Timeout, Deliver(f2)];
    var known := s.(exited := true, numFrames := Some(2));
    WaitOnExit(runId, s, events, 2);
    assert events[1..] == [Timeout, Deliver(f2)];
    EarlyExitReceive(runId, f1, f2, known);
  }

  /** The exit is seen while the cursor's slot is empty and the count is not yet reached:
      the count is recorded and the wait goes on with the next event. */
  lemma WaitOnExit(runId: string, s: State, events: seq<Event>, n: nat)
    requires 0 <= s.cursor < |s.slots| && s.slots[s.cursor].None? && !s.exited
    requires events != [] && events[0].Exit? && FrameCountFromLog(events[0].log) == Ok(n) && n != s.cursor
    ensures Wait(runId, s, events) == Receive(runId, s.(exited := true, numFrames := Some(n)), events[1..])
  {
  }

  lemma EarlyExitReceive(runId: string, f1: FilePath, f2: FilePath, s: State)
    requires FrameNumber(runId, f2.name) == Some(2)
    requires s.cursor == 1 && s.slots == [Some(f1), None] && s.numFrames == Some(2)
    ensures var st := Receive(runId, s, [Timeout, Deliver(f2)]);
      && st.result == Frame(1, f2) && st.rest == []
      && st.state.cursor == 2 && st.state.numFrames == Some(2)
      && st.state.slots == [Some(f1), Some(f2)]
  {
    assert [Timeout, Deliver(f2)][1..] == [Deliver(f2)];
    assert Receive(runId, s, [Timeout, Deliver(f2)]) == Wait(runId, s, [Deliver(f2)]);
    AddPathStoresAtSlot(runId, s.slots, f2, 2);
    var t := AddPath(runId, s.slots, f2).value;
    assert t[0] == Some(f1);
    assert t == [Some(f1), Some(f2)];
    assert Wait(runId, s, [Deliver(f2)]) == Receive(runId, s, [Deliver(f2)]);
    assert Receive(runId, s, [Deliver(f2)]) == Wait(runId, s.(slots := t), []);
  }

  lemma EarlyExitPull1(runId: string, f1: FilePath, f2: FilePath, s1: State, log: seq<string>)
    requires FrameNumber(runId, f2.name) == Some(2)
    requires FrameCountFromLog(log) == Ok(2)
    requires Inv(s1) && s1.cursor == 1 && s1.slots == [Some(f1)] && s1.numFrames == None && !s1.exited
    ensures var st := Pull(runId, s1, [Exit(log), Timeout, Deliver(f2)]);
      && st.result == Frame(1, f2) && st.rest == []
      && st.state.cursor == 2 && st.state.numFrames == Some(2)
      && st.state.slots == [Some(f1), Some(f2)]
  {
    var padded := Pad(Begin(s1));
    assert padded.slots == [Some(f1), None] && padded.cursor == 1;
    assert Pull(runId, s1, [Exit(log), Timeout, Deliver(f2)]) == Wait(runId, padded, [Exit(log), Timeout, Deliver(f2)]);
    EarlyExitWait(runId, f1, f2, padded, log);
  }

  /** The process exits reporting 2 frames before the notification for the second
      has arrived: the pull does not end the stream but waits through a timeout for
      that notification, and the stream ends at index 2. */
  lemma ExitBeforeLastNotification(runId: string, f1: FilePath, f2: FilePath, log: seq<string>)
    requires FrameNumber(runId, f1.name) == Some(1)
    requires FrameNumber(runId, f2.name) == Some(2)
    requires FrameCountFromLog(log) == Ok(2)
    ensures PullMany(runId, Initial, [Deliver(f1), Exit(log), Timeout, Deliver(f2)], 3) ==
            [Frame(0, f1), Frame(1, f2), EndOfStream]
  {
    var events := [Deliver(f1), Exit(log), Timeout, Deliver(f2)];
    EarlyExitPull0(runId, f1, events);
    PullManyStep(runId, Initial, events, 2);
    var st1 := Pull(runId, Initial, events);
    assert events[1..] == [Exit(log), Timeout, Deliver(f2)];
    EarlyExitPull1(runId, f1, f2, st1.state, log);
    PullManyStep(runId, st1.state, st1.rest, 1);
    var st2 := Pull(runId, st1.state, st1.rest);
    PullManyStep(runId, st2.state, st2.rest, 0);
    assert Begin(st2.state).cursor == 2;
  }

  // ---------------------------------------------------------------------------
  // An exit log that reports fewer frames than were delivered

  /** At cursor 3 with the first three slots filled (frames 0 to 2 were returned),
      the process exits reporting 2 frames: the count is recorded but, below the
      cursor, does not end the wait, and the file numbered 4 is returned as frame 3
      with the cursor at the table's end. */
  lemma CountBelowCursorPull(runId: string, p: seq<FilePath>, f4: FilePath, log: seq<string>)
    requires |p| == 3 && FrameNumber(runId, f4.name) == Some(4) && FrameCountFromLog(log) == Ok(2)
    ensures var s := State(3, None, [Some(p[0]), Some(p[1]), Some(p[2])], false, true, {});
      var st := Pull(runId, s, [Exit(log), Deliver(f4)]);
      && st.result == Frame(3, f4) && st.rest == []
      && st.state.cursor == 4 && |st.state.slots| == 4 && st.state.numFrames == Some(2)
  {
    var slots := [Some(p[0]), Some(p[1]), Some(p[2])];
    var s := State(3, None, slots, false, true, {});
    var events := [Exit(log), Deliver(f4)];
    var s3 := Pad(Begin(s));
    assert s3.slots == slots + [None];
    PollStopsExactly(s3, events);
    var s4 := s3.(exited := true, numFrames := Some(2));
    assert events[1..] == [Deliver(f4)];
    AddPathStoresAtSlot(runId, s3.slots, f4, 4);
    var t := AddPath(runId, s3.slots, f4).value;
    assert Receive(runId, s4, [Deliver(f4)]) == Wait(runId, s4.(slots := t), []);
  }

  /** The run behind the finding on video.py:141 and 146-153: the pull after that
      raises an IndexError instead of ending the stream. */
  lemma CountBelowCursorRaises(runId: string, p: seq<FilePath>, f4: FilePath, log: seq<string>)
    requires |p| == 3 && FrameNumber(runId, f4.name) == Some(4) && FrameCountFromLog(log) == Ok(2)
    ensures var s := State(3, None, [Some(p[0]), Some(p[1]), Some(p[2])], false, true, {});
      PullMany(runId, s, [Exit(log), Deliver(f4)], 2) == [Frame(3, f4), Raised(IndexOutOfRange)]
  {
    var s := State(3, None, [Some(p[0]), Some(p[1]), Some(p[2])], false, true, {});
    var events := [Exit(log), Deliver(f4)];
    CountBelowCursorPull(runId, p, f4, log);
    PullManyStep(runId, s, events, 1);
    var st := Pull(runId, s, events);
    IndexErrorPastCount(runId, st.state, st.rest);
    PullManyStep(runId, st.state, st.rest, 0);
  }
}
