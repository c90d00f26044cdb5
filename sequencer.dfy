/**
 * The frame sequencer of pixeltable/utils/video.py (FrameIterator.__next__ and
 * _add_path) as functions over its state. An extraction process writes one file
 * per frame, numbered from 1; "file closed" notifications reach the sequencer in
 * any order, and `Pull` turns them into frames delivered strictly by index.
 *
 * The process and the notification queue are an explicit list of events: what
 * the next poll of the process status or the next bounded wait on the queue
 * reports. The class Video.FrameIterator is proved to compute exactly `Pull`.
 */
module Sequencer {
  import opened Wrappers
  import opened FrameNames

  /** A frame file: the directory it was written into and its name. */
  datatype FilePath = FilePath(dir: string, name: string)

  /** What the environment reports next: the process is seen to have exited (with
      its log, split into lines), a "file closed" notification, or a wait that timed out. */
  datatype Event = Exit(log: seq<string>) | Deliver(path: FilePath) | Timeout

  /** The errors `__next__` raises. */
  datatype Failure =
    | UnexpectedFramePath(path: FilePath)  // a notified name does not match the run's pattern
    | BadExitLog(fault: LogFault)          // the exit log has no frame count
    | IndexOutOfRange                      // a Python IndexError on the path table

  /** The outcome of one pull. `Stalled` means the event list ran out while the
      sequencer was still waiting (the source would go on waiting). */
  datatype Pulled = Frame(idx: nat, path: FilePath) | EndOfStream | Raised(failure: Failure) | Stalled

  /**
   * The sequencer's fields: the cursor `next_frame_idx` (-1 before extraction
   * starts), the frame count once known, the path table, whether the process has
   * been seen to exit, whether the directory watcher runs, and the files deleted.
   */
  datatype State = State(
    cursor: int,
    numFrames: Option<nat>,
    slots: seq<Option<FilePath>>,
    exited: bool,
    watching: bool,
    deleted: set<FilePath>)

  /** A pull's outcome, the state after it and the events it left unconsumed. */
  datatype Step = Step(result: Pulled, state: State, rest: seq<Event>)

  const NotStarted: int := -1

  const Initial: State := State(NotStarted, None, [], false, false, {})

  /** The states the sequencer can be in. */
  ghost predicate Inv(s: State)
  {
    && s.cursor >= NotStarted
    && (s.cursor == NotStarted ==> s.slots == [] && s.numFrames.None? && !s.exited)
    && (s.cursor >= 0 ==> s.cursor <= |s.slots| && forall i :: 0 <= i < s.cursor ==> s.slots[i].Some?)
    && (s.numFrames.Some? ==> s.exited)
  }

  /** The file in slot `i` is the one the process wrote for frame `i` (file number
      i + 1), or a file numbered 0, which Python's index -1 puts in the last slot. */
  ghost predicate Names(runId: string, i: nat, p: FilePath)
  {
    FrameNumber(runId, p.name) == Some(i + 1) || FrameNumber(runId, p.name) == Some(0)
  }

  ghost predicate SlotsNamed(runId: string, slots: seq<Option<FilePath>>)
  {
    forall i :: 0 <= i < |slots| && slots[i].Some? ==> Names(runId, i, slots[i].value)
  }

  ghost predicate IsSuffix(rest: seq<Event>, events: seq<Event>)
  {
    |rest| <= |events| && rest == events[|events| - |rest|..]
  }

  /**
   * `frame_paths[n - 1] = path` after padding with None (video.py:192-196). For
   * n = 0 the index is -1, which Python reads as the last slot, and which fails
   * with an IndexError on an empty table; None stands for that error.
   */
  function Place(slots: seq<Option<FilePath>>, n: nat, p: FilePath): (r: Option<seq<Option<FilePath>>>)
    ensures r.None? <==> n == 0 && slots == []
    ensures r.Some? ==> |r.value| >= |slots|
  {
    if n >= 1 && n - 1 >= |slots| then Some(slots + seq(n - 1 - |slots|, _ => None) + [Some(p)])
    else if n >= 1 then Some(slots[n - 1 := Some(p)])
    else if slots == [] then None
    else Some(slots[|slots| - 1 := Some(p)])
  }

  /** `_add_path`: parse the notified file's name and store the path in its slot. */
  function AddPath(runId: string, slots: seq<Option<FilePath>>, p: FilePath): (r: Result<seq<Option<FilePath>>, Failure>)
    ensures r == Err(UnexpectedFramePath(p)) <==> FrameNumber(runId, p.name).None?
    ensures r == Err(IndexOutOfRange) <==> FrameNumber(runId, p.name) == Some(0) && slots == []
    ensures r.Ok? ==> |r.value| >= |slots|
  {
    match FrameNumber(runId, p.name)
    case None => Err(UnexpectedFramePath(p))
    case Some(n) =>
      match Place(slots, n, p)
      case None => Err(IndexOutOfRange)
      case Some(t) => Ok(t)
  }

  /** `_start_extraction` as far as the state goes: cursor 0, watcher running. */
  function Start(s: State): State
  {
    if s.cursor == NotStarted then s.(cursor := 0, watching := true) else s
  }

  /** Starting affects only a fresh iterator, moving its cursor to 0 and starting the
      watcher; it changes nothing else and keeps the state reachable. */
  lemma StartFacts(s: State)
    ensures s.cursor != NotStarted ==> Start(s) == s
    ensures s.cursor == NotStarted ==> Start(s).cursor == 0 && Start(s).watching
    ensures Start(s) == s.(cursor := Start(s).cursor, watching := Start(s).watching)
    ensures Inv(s) ==> Inv(Start(s)) && Start(s).cursor >= 0
  {
  }

  /** The file `__next__` deletes before anything else: the previously returned frame's. */
  function Reclaimed(s: State): set<FilePath>
    requires Inv(s)
  {
    var c := Start(s).cursor;
    if c >= 1 then {s.slots[c - 1].value} else {}
  }

  /** Lines 130-139: start if not started, then delete the previous frame's file
      (an already missing file is tolerated, so deleting is adding to a set). */
  function Begin(s: State): (r: State)
    requires Inv(s)
    ensures r.cursor == (if s.cursor == NotStarted then 0 else s.cursor) && r.cursor <= |r.slots|
    ensures r.watching == (s.watching || s.cursor == NotStarted)
    ensures r.slots == s.slots && r.numFrames == s.numFrames
    ensures r.exited == s.exited && r.deleted == s.deleted + Reclaimed(s)
  {
    var s1 := Start(s);
    s1.(deleted := s1.deleted + Reclaimed(s))
  }

  /** Lines 146-150: give the cursor a slot, unless the table already has one for it
      or already covers the known frame count. */
  function Pad(s: State): (r: State)
    requires 0 <= s.cursor <= |s.slots|
    ensures r == s || r == s.(slots := s.slots + [None])
    ensures r.slots != s.slots <==> |s.slots| == s.cursor && (s.numFrames.None? || |s.slots| < s.numFrames.value)
    ensures s.numFrames.None? || s.cursor < s.numFrames.value ==> s.cursor < |r.slots|
  {
    if |s.slots| < s.cursor + 1 && (s.numFrames.None? || |s.slots| < s.numFrames.value)
    then s.(slots := s.slots + [None]) else s
  }

  /**
   * `__next__` (video.py:126-183): start if needed, delete the previous frame's
   * file, end the stream if the cursor has reached the known frame count, pad the
   * table by one slot, then wait for the cursor's slot to be filled.
   */
  function Pull(runId: string, s: State, events: seq<Event>): Step
    requires Inv(s)
  {
    var s2 := Begin(s);
    if s2.numFrames.Some? && s2.numFrames.value == s2.cursor then Step(EndOfStream, s2.(watching := false), events)
    else
      var s3 := Pad(s2);
      if s3.cursor >= |s3.slots| then Step(Raised(IndexOutOfRange), s3, events)
      else Wait(runId, s3, events)
  }

  /** What one poll of the process does: end the pull, or let the wait go on. */
  datatype Polled = Stop(step: Step) | Continue(state: State, rest: seq<Event>)

  /**
   * One poll of the process (video.py:155-169), made only until it has been seen to
   * exit: an `Exit` at the head of the events is consumed, the frame count is read
   * from its log, and the pull ends if the cursor has reached that count or the
   * log has none. Anything else at the head is left for the queue.
   */
  function Poll(s: State, events: seq<Event>): (p: Polled)
    requires events != []
    ensures p.Continue? ==> p.state.cursor == s.cursor && p.state.slots == s.slots
    ensures p.Continue? ==> p.rest == events || (!s.exited && events[0].Exit? && p.rest == events[1..])
    ensures p.Stop? ==> !s.exited && events[0].Exit? && p.step.rest == events[1..]
    ensures p.Stop? ==> (p.step.result == EndOfStream <==>
      FrameCountFromLog(events[0].log).Ok? && FrameCountFromLog(events[0].log).value == s.cursor)
    ensures p.Stop? ==> (p.step.result.Raised? <==> FrameCountFromLog(events[0].log).Err?)
  {
    if !s.exited && events[0].Exit? then
      var s' := s.(exited := true);
      match FrameCountFromLog(events[0].log)
      case Err(fault) => Stop(Step(Raised(BadExitLog(fault)), s', events[1..]))
      case Ok(n) =>
        if n == s.cursor then Stop(Step(EndOfStream, s'.(numFrames := Some(n), watching := false), events[1..]))
        else Continue(s'.(numFrames := Some(n)), events[1..])
    else Continue(s, events)
  }

  /**
   * The wait loop (video.py:153-178), one iteration per call: return the slot if
   * it is filled; otherwise poll the process, then take one event from the queue.
   */
  function Wait(runId: string, s: State, events: seq<Event>): Step
    requires 0 <= s.cursor < |s.slots|
    decreases |events|, 1
  {
    var c := s.cursor;
    if s.slots[c].Some? then Step(Frame(c, s.slots[c].value), s.(cursor := c + 1), events)
    else if events == [] then Step(Stalled, s, events)
    else match Poll(s, events)
      case Stop(step) => step
      case Continue(s', rest) => Receive(runId, s', rest)
  }

  /** The bounded wait on the queue (video.py:174-178): a notification is added to
      the table; anything else is a wait that timed out. */
  function Receive(runId: string, s: State, events: seq<Event>): Step
    requires 0 <= s.cursor < |s.slots|
    decreases |events|, 0
  {
    if events == [] then Step(Stalled, s, events)
    else match events[0]
      case Deliver(p) =>
        (match AddPath(runId, s.slots, p)
         case Err(f) => Step(Raised(f), s, events[1..])
         case Ok(t) => Wait(runId, s.(slots := t), events[1..]))
      case _ => Wait(runId, s, events[1..])
  }

  // ---------------------------------------------------------------------------
  // _add_path

  /** A frame file numbered n >= 1 lands in slot n - 1; the table grows with empty
      slots to reach it, and every other slot keeps its content. */
  lemma AddPathStoresAtSlot(runId: string, slots: seq<Option<FilePath>>, p: FilePath, n: nat)
    requires FrameNumber(runId, p.name) == Some(n) && n >= 1
    ensures AddPath(runId, slots, p).Ok?
    ensures var t := AddPath(runId, slots, p).value;
      && |t| == (if n > |slots| then n else |slots|)
      && t[n - 1] == Some(p)
      && (forall i :: 0 <= i < |slots| && i != n - 1 ==> t[i] == slots[i])
      && (forall i :: |slots| <= i < |t| && i != n - 1 ==> t[i].None?)
  {
  }

  /** A file numbered 0 (index -1) overwrites the last slot, as Python's negative
      index does. */
  lemma AddPathFrameZero(runId: string, slots: seq<Option<FilePath>>, p: FilePath)
    requires FrameNumber(runId, p.name) == Some(0) && slots != []
    ensures AddPath(runId, slots, p) == Ok(slots[|slots| - 1 := Some(p)])
  {
  }

  /** Arrival order does not matter: two notifications for different frames give
      the same table in either order. */
  lemma {:induction false} AddPathCommutes(runId: string, slots: seq<Option<FilePath>>, p: FilePath, q: FilePath)
    requires FrameNumber(runId, p.name).Some? && FrameNumber(runId, p.name).value >= 1
    requires FrameNumber(runId, q.name).Some? && FrameNumber(runId, q.name).value >= 1
    requires FrameNumber(runId, p.name) != FrameNumber(runId, q.name)
    ensures AddPath(runId, slots, p).Ok? && AddPath(runId, slots, q).Ok?
    ensures AddPath(runId, AddPath(runId, slots, p).value, q) == AddPath(runId, AddPath(runId, slots, q).value, p)
  {
    var m, n := FrameNumber(runId, p.name).value, FrameNumber(runId, q.name).value;
    AddPathStoresAtSlot(runId, slots, p, m);
    AddPathStoresAtSlot(runId, slots, q, n);
    var tp, tq := AddPath(runId, slots, p).value, AddPath(runId, slots, q).value;
    AddPathStoresAtSlot(runId, tp, q, n);
    AddPathStoresAtSlot(runId, tq, p, m);
    var a, b := AddPath(runId, tp, q).value, AddPath(runId, tq, p).value;
    assert |a| == |b|;
    forall i | 0 <= i < |a|
      ensures a[i] == b[i]
    {
      if i != m - 1 && i != n - 1 {
        assert a[i] == (if i < |slots| then slots[i] else None);
      }
    }
    assert a == b;
  }

  /** Slots only ever receive files named for them, and a filled slot stays filled. */
  lemma AddPathKeepsNames(runId: string, slots: seq<Option<FilePath>>, p: FilePath)
    requires AddPath(runId, slots, p).Ok?
    ensures var t := AddPath(runId, slots, p).value;
      && (SlotsNamed(runId, slots) ==> SlotsNamed(runId, t))
      && (forall i :: 0 <= i < |slots| && slots[i].Some? ==> t[i].Some?)
  {
    var n := FrameNumber(runId, p.name).value;
    if n >= 1 {
      AddPathStoresAtSlot(runId, slots, p, n);
    }
  }

  // ---------------------------------------------------------------------------
  // The wait loop

  /** What every run of the wait loop guarantees, from state `s` with events `events`. */
  ghost predicate WaitOutcome(runId: string, s: State, events: seq<Event>, st: Step)
    requires 0 <= s.cursor < |s.slots|
  {
    && IsSuffix(st.rest, events)
    && st.state.deleted == s.deleted
    && st.state.cursor == (if st.result.Frame? then s.cursor + 1 else s.cursor)
    && |st.state.slots| >= |s.slots|
    && (st.result.Frame? ==> st.result.idx == s.cursor && st.state.slots[s.cursor] == Some(st.result.path))
    && (st.result.Frame? && |st.rest| == |events| ==> st.state.slots == s.slots)
    && (st.result.EndOfStream? ==> st.state.numFrames == Some(s.cursor) && !st.state.watching)
    && (!st.result.EndOfStream? ==> st.state.watching == s.watching)
    && st.result != Raised(IndexOutOfRange)
    && (st.result.Raised? && st.result.failure.BadExitLog? ==> !s.exited && st.state.numFrames == s.numFrames && st.state.exited)
    && (s.exited ==> st.state.numFrames == s.numFrames && st.state.exited)
    && (st.state.numFrames.Some? ==> st.state.exited)
    && (forall i :: 0 <= i < |s.slots| && s.slots[i].Some? ==> st.state.slots[i].Some?)
    && (SlotsNamed(runId, s.slots) ==> SlotsNamed(runId, st.state.slots))
  }

  lemma {:induction false} WaitFacts(runId: string, s: State, events: seq<Event>)
    requires 0 <= s.cursor < |s.slots|
    requires s.numFrames.Some? ==> s.exited
    ensures WaitOutcome(runId, s, events, Wait(runId, s, events))
    decreases |events|, 1
  {
    var c := s.cursor;
    if s.slots[c].Some? || events == [] {
    } else {
      var p := Poll(s, events);
      if p.Stop? {
        WaitStops(runId, s, events);
      } else {
        ReceiveFacts(runId, p.state, p.rest);
        WaitContinues(runId, s, events, Receive(runId, p.state, p.rest));
      }
    }
  }

  /** A wait that the poll ends: with the count's error, or at the end of the stream. */
  lemma WaitStops(runId: string, s: State, events: seq<Event>)
    requires 0 <= s.cursor < |s.slots| && s.slots[s.cursor].None?
    requires s.numFrames.Some? ==> s.exited
    requires events != [] && Poll(s, events).Stop?
    ensures WaitOutcome(runId, s, events, Poll(s, events).step)
  {
  }

  /** A wait that goes on after the poll keeps what the rest of the wait guarantees. */
  lemma WaitContinues(runId: string, s: State, events: seq<Event>, st: Step)
    requires 0 <= s.cursor < |s.slots| && s.slots[s.cursor].None?
    requires s.numFrames.Some? ==> s.exited
    requires events != [] && Poll(s, events).Continue?
    requires WaitOutcome(runId, Poll(s, events).state, Poll(s, events).rest, st)
    ensures WaitOutcome(runId, s, events, st)
  {
    var p := Poll(s, events);
    if p.rest != events {
      SuffixTrans(st.rest, p.rest, events);
    }
  }

  lemma {:induction false} ReceiveFacts(runId: string, s: State, events: seq<Event>)
    requires 0 <= s.cursor < |s.slots|
    requires s.numFrames.Some? ==> s.exited
    ensures WaitOutcome(runId, s, events, Receive(runId, s, events))
    decreases |events|, 0
  {
    if events != [] {
      match events[0]
      case Deliver(p) =>
        var r := AddPath(runId, s.slots, p);
        if r.Ok? {
          AddPathKeepsNames(runId, s.slots, p);
          var s' := s.(slots := r.value);
          WaitFacts(runId, s', events[1..]);
          SuffixTrans(Wait(runId, s', events[1..]).rest, events[1..], events);
        }
      case Exit(_) =>
        WaitFacts(runId, s, events[1..]);
        SuffixTrans(Wait(runId, s, events[1..]).rest, events[1..], events);
      case Timeout =>
        WaitFacts(runId, s, events[1..]);
        SuffixTrans(Wait(runId, s, events[1..]).rest, events[1..], events);
    }
  }

  lemma SuffixTrans(a: seq<Event>, b: seq<Event>, c: seq<Event>)
    requires IsSuffix(a, b) && c != [] && b == c[1..]
    ensures IsSuffix(a, c) && |a| < |c|
  {
  }

  // ---------------------------------------------------------------------------
  // One pull

  /** What every pull guarantees (the lemmas below state it piece by piece). */
  ghost predicate PullOutcome(runId: string, s: State, events: seq<Event>, st: Step)
    requires Inv(s)
  {
    var c := Start(s).cursor;
    && Inv(st.state)
    && (SlotsNamed(runId, s.slots) ==> SlotsNamed(runId, st.state.slots))
    && IsSuffix(st.rest, events)
    && st.state.deleted == s.deleted + Reclaimed(s)
    && st.state.cursor == (if st.result.Frame? then c + 1 else c)
    && (st.result.Frame? ==> st.result.idx == c && st.state.slots[c] == Some(st.result.path))
    && (st.result.Frame? && |st.rest| == |events| ==> s.cursor >= 0 && st.state.slots == s.slots)
    && (st.result.EndOfStream? ==> st.state.numFrames == Some(c) && !st.state.watching)
    && (st.result == Raised(IndexOutOfRange) ==>
          s.numFrames.Some? && c > s.numFrames.value && st.rest == events)
    && (s.numFrames.Some? ==> st.state.numFrames == s.numFrames)
    && (st.result.Raised? && st.result.failure.BadExitLog? ==> !s.exited && st.state.numFrames.None? && st.state.exited)
  }

  lemma {:induction false} PullFacts(runId: string, s: State, events: seq<Event>)
    requires Inv(s)
    ensures PullOutcome(runId, s, events, Pull(runId, s, events))
  {
    var s2 := Begin(s);
    if !(s2.numFrames.Some? && s2.numFrames.value == s2.cursor) {
      var s3 := Pad(s2);
      if s3.cursor < |s3.slots| {
        WaitCase(runId, s, s3, events);
      }
    }
  }

  lemma {:induction false} WaitCase(runId: string, s: State, s3: State, events: seq<Event>)
    requires Inv(s) && s3 == Pad(Begin(s)) && s3.cursor < |s3.slots|
    requires !(s3.numFrames.Some? && s3.numFrames.value == s3.cursor)
    ensures PullOutcome(runId, s, events, Wait(runId, s3, events))
  {
    WaitFacts(runId, s3, events);
    var st := Wait(runId, s3, events);
    PaddedState(runId, s, s3);
    WaitKeepsInvariant(runId, s3, events, st);
  }

  /** The started, reclaimed and padded state, compared with the state a pull starts from. */
  lemma PaddedState(runId: string, s: State, s3: State)
    requires Inv(s) && s3 == Pad(Begin(s))
    ensures s3.cursor == Start(s).cursor && s3.deleted == s.deleted + Reclaimed(s)
    ensures s3.numFrames == s.numFrames && s3.exited == s.exited
    ensures |s3.slots| >= |s.slots| && s3.cursor <= |s3.slots|
    ensures forall i :: 0 <= i < s3.cursor ==> s3.slots[i].Some?
    ensures s3.slots == s.slots || (s3.slots == s.slots + [None] && s.cursor >= NotStarted)
    ensures s3.cursor == |s3.slots| ==> s3.slots == s.slots
    ensures SlotsNamed(runId, s.slots) ==> SlotsNamed(runId, s3.slots)
  {
  }

  /** The wait loop, started in a reachable position, ends in a reachable state. */
  lemma WaitKeepsInvariant(runId: string, s3: State, events: seq<Event>, st: Step)
    requires 0 <= s3.cursor < |s3.slots| && (s3.numFrames.Some? ==> s3.exited)
    requires forall i :: 0 <= i < s3.cursor ==> s3.slots[i].Some?
    requires WaitOutcome(runId, s3, events, st)
    ensures Inv(st.state)
  {
    forall i | 0 <= i < st.state.cursor
      ensures st.state.slots[i].Some?
    {
      if i < s3.cursor {
        assert s3.slots[i].Some?;
      }
    }
  }

  /** When the count is not reached and the cursor's slot exists, a pull is the
      wait loop from the started, reclaimed and padded state. */
  lemma PullWaits(runId: string, s: State, events: seq<Event>)
    requires Inv(s)
    requires var s3 := Pad(Begin(s)); !(s3.numFrames.Some? && s3.numFrames.value == s3.cursor) && s3.cursor < |s3.slots|
    ensures Pull(runId, s, events) == Wait(runId, Pad(Begin(s)), events)
  {
  }

  /** A pull keeps the sequencer in a reachable state, keeps every slot holding the
      file named for it, and consumes a prefix of the events. */
  lemma PullKeepsInvariant(runId: string, s: State, events: seq<Event>)
    requires Inv(s)
    ensures var st := Pull(runId, s, events);
      && Inv(st.state)
      && IsSuffix(st.rest, events)
      && (SlotsNamed(runId, s.slots) ==> SlotsNamed(runId, st.state.slots))
  {
    PullFacts(runId, s, events);
  }

  /** Frames come out strictly in order: a pull returns the frame at the cursor, the
      file in that slot (named for that frame), and advances the cursor by exactly
      one; any other outcome leaves the cursor where it was. */
  lemma PullInOrder(runId: string, s: State, events: seq<Event>)
    requires Inv(s) && SlotsNamed(runId, s.slots)
    ensures var st := Pull(runId, s, events);
      && (st.result.Frame? ==>
            && st.result.idx == Start(s).cursor
            && st.state.cursor == st.result.idx + 1
            && st.result.idx < |st.state.slots|
            && st.state.slots[st.result.idx] == Some(st.result.path)
            && Names(runId, st.result.idx, st.result.path))
      && (!st.result.Frame? ==> st.state.cursor == Start(s).cursor)
  {
    PullFacts(runId, s, events);
  }

  /** Each pull first deletes the previously returned frame's file, and no other;
      deleting a file that is already gone changes nothing (it is not an error). */
  lemma PullReclaimsPrevious(runId: string, s: State, events: seq<Event>)
    requires Inv(s)
    ensures var st := Pull(runId, s, events);
      && st.state.deleted == s.deleted + Reclaimed(s)
      && (Start(s).cursor >= 1 ==> s.slots[Start(s).cursor - 1].value in st.state.deleted)
  {
    PullFacts(runId, s, events);
  }

  /** No premature end: the stream ends only when the cursor equals the frame count
      the process reported, and the watcher is stopped then. */
  lemma PullEndsOnlyAtCount(runId: string, s: State, events: seq<Event>)
    requires Inv(s)
    ensures var st := Pull(runId, s, events);
      st.result.EndOfStream? ==>
        st.state.numFrames == Some(Start(s).cursor) && st.state.cursor == Start(s).cursor && !st.state.watching
  {
    PullFacts(runId, s, events);
  }

  /** The converse: once the count is known and the cursor has reached it, a pull
      ends the stream at once, stops the watcher and consumes nothing, even while the
      watcher still runs (as it does right after the last frame was returned). */
  lemma PullEndsAtCount(runId: string, s: State, events: seq<Event>)
    requires Inv(s) && s.numFrames == Some(Start(s).cursor)
    ensures Pull(runId, s, events) == Step(EndOfStream, Begin(s).(watching := false), events)
  {
  }

  /** A poll that sees the process exit ends the pull exactly when the log has no
      frame count (raising that error) or reports the cursor (ending the stream);
      otherwise it records the count and the wait goes on. */
  lemma PollStopsExactly(s: State, events: seq<Event>)
    requires events != [] && events[0].Exit? && !s.exited
    ensures var n := FrameCountFromLog(events[0].log);
      Poll(s, events).Stop? <==> n.Err? || n.value == s.cursor
    ensures var n := FrameCountFromLog(events[0].log);
      n.Err? ==> Poll(s, events) == Stop(Step(Raised(BadExitLog(n.error)), s.(exited := true), events[1..]))
    ensures var n := FrameCountFromLog(events[0].log);
      n.Ok? && n.value != s.cursor ==>
        Poll(s, events) == Continue(s.(exited := true, numFrames := Some(n.value)), events[1..])
  {
  }

  /** An exit log without a frame count makes the waiting pull raise that error:
      the process is marked as exited, the count stays unknown and the watcher is
      left running. */
  lemma BadLogRaises(runId: string, s: State, log: seq<string>, rest: seq<Event>)
    requires Inv(s) && !s.exited
    requires var s3 := Pad(Begin(s)); s3.cursor < |s3.slots| && s3.slots[s3.cursor].None?
    requires FrameCountFromLog(log).Err?
    ensures Pull(runId, s, [Exit(log)] + rest)
      == Step(Raised(BadExitLog(FrameCountFromLog(log).error)), Pad(Begin(s)).(exited := true), rest)
  {
    assert ([Exit(log)] + rest)[1..] == rest;
  }

  /** A notification whose name does not match the run's pattern makes the waiting
      pull raise that error rather than being skipped; the table is left as it was. */
  lemma ForeignNameRaises(runId: string, s: State, p: FilePath, rest: seq<Event>)
    requires Inv(s) && (s.numFrames.None? || s.numFrames.value != Start(s).cursor)
    requires var s3 := Pad(Begin(s)); s3.cursor < |s3.slots| && s3.slots[s3.cursor].None?
    requires FrameNumber(runId, p.name).None?
    ensures Pull(runId, s, [Deliver(p)] + rest) == Step(Raised(UnexpectedFramePath(p)), Pad(Begin(s)), rest)
  {
    var s3, events := Pad(Begin(s)), [Deliver(p)] + rest;
    assert events[1..] == rest;
    assert Poll(s3, events) == Continue(s3, events);
    assert AddPath(runId, s3.slots, p) == Err(UnexpectedFramePath(p));
    assert Receive(runId, s3, events) == Step(Raised(UnexpectedFramePath(p)), s3, rest);
    assert Wait(runId, s3, events) == Receive(runId, s3, events);
  }

  /** The frame count is assigned at most once: once known it never changes. */
  lemma FrameCountSetOnce(runId: string, s: State, events: seq<Event>)
    requires Inv(s) && s.numFrames.Some?
    ensures Pull(runId, s, events).state.numFrames == s.numFrames
  {
    PullFacts(runId, s, events);
  }

  /** An exit log without a frame count raises an error and leaves the count unset. */
  lemma BadLogLeavesCountUnset(runId: string, s: State, events: seq<Event>)
    requires Inv(s)
    ensures var st := Pull(runId, s, events);
      st.result.Raised? && st.result.failure.BadExitLog? ==> st.state.numFrames.None? && st.state.exited
  {
    PullFacts(runId, s, events);
  }

  /** The IndexError of video.py:153 happens only when the reported frame count is
      below the cursor, which suppresses the padding; otherwise the cursor's slot exists. */
  lemma IndexErrorOnlyPastCount(runId: string, s: State, events: seq<Event>)
    requires Inv(s)
    ensures var st := Pull(runId, s, events);
      st.result == Raised(IndexOutOfRange) ==>
        s.numFrames.Some? && Start(s).cursor > s.numFrames.value && st.rest == events
  {
    PullFacts(runId, s, events);
  }

  /** The converse: a known count below a cursor that has reached the end of the
      table suppresses the padding, and the wait loop's first index raises at once. */
  lemma IndexErrorPastCount(runId: string, s: State, events: seq<Event>)
    requires Inv(s) && s.numFrames.Some? && s.numFrames.value < Start(s).cursor == |s.slots|
    ensures Pull(runId, s, events) == Step(Raised(IndexOutOfRange), Begin(s), events)
  {
  }

  /**
   * `__next__` with the end test of video.py:141 written `>=`: the stream ends once
   * the cursor has reached or passed the known count, so an exit log reporting
   * fewer frames than were delivered cannot lead to an IndexError.
   */
  function PullChecked(runId: string, s: State, events: seq<Event>): Step
    requires Inv(s)
  {
    var s2 := Begin(s);
    if s2.numFrames.Some? && s2.cursor >= s2.numFrames.value then Step(EndOfStream, s2.(watching := false), events)
    else Pull(runId, s, events)
  }

  /** The corrected pull never raises an IndexError, and it differs from `Pull` only
      once the cursor has passed the known count. */
  lemma PullCheckedNeverIndexError(runId: string, s: State, events: seq<Event>)
    requires Inv(s)
    ensures PullChecked(runId, s, events).result != Raised(IndexOutOfRange)
    ensures s.numFrames.None? || Start(s).cursor <= s.numFrames.value ==>
      PullChecked(runId, s, events) == Pull(runId, s, events)
  {
    IndexErrorOnlyPastCount(runId, s, events);
  }

  /** A pull that returns a frame without consuming an event leaves the table as it
      was (so repeated pulls either consume events or move towards the table's end). */
  lemma PullProgress(runId: string, s: State, events: seq<Event>)
    requires Inv(s)
    ensures var st := Pull(runId, s, events);
      && |st.rest| <= |events|
      && (st.result.Frame? && |st.rest| == |events| ==> s.cursor >= 0 && st.state.slots == s.slots)
  {
    PullFacts(runId, s, events);
  }

  /** The sequencer after the end of its stream. */
  ghost predicate Stopped(s: State)
  {
    Inv(s) && s.cursor >= 0 && s.numFrames == Some(s.cursor) && !s.watching
  }

  /** End of stream is reached in a stopped state, and is final: every later pull ends
      again at once, consumes nothing and changes nothing but deleting the last file again. */
  lemma EndOfStreamIsFinal(runId: string, s: State, events: seq<Event>, later: seq<Event>)
    requires Inv(s)
    ensures var st := Pull(runId, s, events);
      st.result.EndOfStream? ==>
        && Stopped(st.state)
        && Pull(runId, st.state, later) == Step(EndOfStream, st.state.(deleted := st.state.deleted + Reclaimed(st.state)), later)
  {
    PullFacts(runId, s, events);
    var st := Pull(runId, s, events);
    if st.result.EndOfStream? {
      StoppedPull(runId, st.state, later);
    }
  }

  /** A stopped sequencer answers every pull with end of stream. */
  lemma StoppedPull(runId: string, s: State, events: seq<Event>)
    requires Stopped(s)
    ensures Pull(runId, s, events) == Step(EndOfStream, s.(deleted := s.deleted + Reclaimed(s)), events)
    ensures Stopped(Pull(runId, s, events).state)
  {
  }

  // ---------------------------------------------------------------------------
  // Successive pulls

  /** The outcomes of `k` pulls in a row. */
  ghost function PullMany(runId: string, s: State, events: seq<Event>, k: nat): (rs: seq<Pulled>)
    requires Inv(s)
    ensures |rs| == k
    decreases k
  {
    if k == 0 then []
    else
      var st := Pull(runId, s, events);
      PullKeepsInvariant(runId, s, events);
      [st.result] + PullMany(runId, st.state, st.rest, k - 1)
  }

  /** `k + 1` pulls are the first pull followed by `k` pulls from where it left off. */
  lemma PullManyStep(runId: string, s: State, events: seq<Event>, k: nat)
    requires Inv(s)
    ensures var st := Pull(runId, s, events);
      Inv(st.state) && PullMany(runId, s, events, k + 1) == [st.result] + PullMany(runId, st.state, st.rest, k)
  {
    PullKeepsInvariant(runId, s, events);
  }

  /** The frames among `rs` are c, c + 1, c + 2, ..., in that order, each the file
      named for its frame; an outcome that is not a frame does not move the count on. */
  ghost predicate InOrderFrom(runId: string, rs: seq<Pulled>, c: int)
    decreases |rs|
  {
    rs != [] ==>
      if rs[0].Frame? then
        && rs[0].idx == c
        && Names(runId, rs[0].idx, rs[0].path)
        && InOrderFrom(runId, rs[1..], c + 1)
      else InOrderFrom(runId, rs[1..], c)
  }

  /** Whatever order the notifications arrive in, successive pulls return frames
      c, c + 1, c + 2, ... from the cursor c, each the file written for its frame. */
  lemma {:induction false} PullsAreConsecutive(runId: string, s: State, events: seq<Event>, k: nat)
    requires Inv(s) && SlotsNamed(runId, s.slots)
    ensures InOrderFrom(runId, PullMany(runId, s, events, k), Start(s).cursor)
    decreases k
  {
    if k > 0 {
      var st := Pull(runId, s, events);
      PullAdvances(runId, s, events);
      PullManyStep(runId, s, events, k - 1);
      PullsAreConsecutive(runId, st.state, st.rest, k - 1);
      InOrderCons(runId, st.result, PullMany(runId, st.state, st.rest, k - 1), Start(s).cursor, Start(st.state).cursor);
    }
  }

  /** One outcome in front of an ordered run: a frame must be the expected one and
      moves the expectation on; any other outcome leaves it. */
  lemma InOrderCons(runId: string, r: Pulled, rs: seq<Pulled>, c: int, d: int)
    requires r.Frame? ==> r.idx == c && Names(runId, r.idx, r.path) && d == c + 1
    requires !r.Frame? ==> d == c
    requires InOrderFrom(runId, rs, d)
    ensures InOrderFrom(runId, [r] + rs, c)
  {
    assert ([r] + rs)[1..] == rs;
  }

  /** One pull, as the induction above needs it: a frame is the one at the cursor,
      named for it, and the next pull starts one further on; after any other outcome
      the next pull starts at the same cursor. */
  lemma PullAdvances(runId: string, s: State, events: seq<Event>)
    requires Inv(s) && SlotsNamed(runId, s.slots)
    ensures var st := Pull(runId, s, events);
      && Inv(st.state) && SlotsNamed(runId, st.state.slots)
      && (st.result.Frame? ==>
            st.result.idx == Start(s).cursor && Names(runId, st.result.idx, st.result.path)
            && Start(st.state).cursor == Start(s).cursor + 1)
      && (!st.result.Frame? ==> Start(st.state).cursor == Start(s).cursor)
  {
    PullFacts(runId, s, events);
    PullInOrder(runId, s, events);
  }
}
