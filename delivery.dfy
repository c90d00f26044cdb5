/**
 * Liveness of the frame sequencer of pixeltable/utils/video.py: when the process
 * has written files numbered 1..N, each of them is notified at least once, in any
 * order and possibly more than once, and the process is then seen to exit with a
 * log reporting N frames, then N + 1 pulls return frames 0, 1, ..., N - 1 (each the
 * file written for it) and then end the stream.
 */
module Delivery {
  import opened Wrappers
  import opened FrameNames
  import opened Sequencer

  /** `files[i]` is the file the process wrote for frame i, numbered i + 1. */
  ghost predicate FrameFiles(runId: string, files: seq<FilePath>)
  {
    forall i :: 0 <= i < |files| ==> FrameNumber(runId, files[i].name) == Some(i + 1)
  }

  /** One "file closed" notification per element of `ds`, in that order. */
  function Notifications(ds: seq<FilePath>): (evs: seq<Event>)
    ensures |evs| == |ds|
    ensures ds != [] ==> evs[0] == Deliver(ds[0])
  {
    if ds == [] then [] else [Deliver(ds[0])] + Notifications(ds[1..])
  }

  /** The files notified by `ds`. */
  function Elems(ds: seq<FilePath>): set<FilePath>
  {
    if ds == [] then {} else {ds[0]} + Elems(ds[1..])
  }

  /** `Elems` holds exactly the elements of the sequence. */
  lemma {:induction false} ElemsMembership(ds: seq<FilePath>)
    ensures forall x :: x in Elems(ds) <==> x in ds
  {
    if ds != [] {
      ElemsMembership(ds[1..]);
      assert ds == [ds[0]] + ds[1..];
    }
  }

  /** The files of a sequence are those of any prefix and the matching suffix. */
  lemma {:induction false} ElemsSplit(ds: seq<FilePath>, k: nat)
    requires k <= |ds|
    ensures Elems(ds) == Elems(ds[..k]) + Elems(ds[k..])
  {
    if k > 0 {
      ElemsSplit(ds[1..], k - 1);
      assert ds[..k][1..] == ds[1..][..k - 1];
      assert ds[1..][k - 1..] == ds[k..];
    } else {
      assert ds[..0] == [] && ds[0..] == ds;
    }
  }

  /** The path table after the files in `seen` have been notified: slot i holds
      `files[i]` exactly when that file was seen, and the table reaches every seen
      file's slot and at most the slot one past the last frame. */
  ghost predicate Table(files: seq<FilePath>, seen: set<FilePath>, slots: seq<Option<FilePath>>)
  {
    && |slots| <= |files| + 1
    && (forall i :: 0 <= i < |slots| ==> slots[i] == (if i < |files| && files[i] in seen then Some(files[i]) else None))
    && (forall i :: 0 <= i < |files| && files[i] in seen ==> i < |slots|)
  }

  /** The frames from `c` on, in order, then the end of the stream. */
  function InOrderThenEnd(files: seq<FilePath>, c: nat): (rs: seq<Pulled>)
    requires c <= |files|
    ensures |rs| == |files| - c + 1 && rs[|rs| - 1] == EndOfStream
    ensures c < |files| ==> rs[0] == Frame(c, files[c])
    decreases |files| - c
  {
    if c == |files| then [EndOfStream] else [Frame(c, files[c])] + InOrderThenEnd(files, c + 1)
  }

  /** The frames from `c` on are frame `c` followed by the frames from `c + 1` on. */
  lemma InOrderStep(files: seq<FilePath>, c: nat, d: nat)
    requires c < |files| && d == c + 1
    ensures InOrderThenEnd(files, c) == [Frame(c, files[c])] + InOrderThenEnd(files, d)
  {
  }

  /** A notification for one of the run's files succeeds and keeps the table exact. */
  lemma TableAdd(runId: string, files: seq<FilePath>, seen: set<FilePath>, slots: seq<Option<FilePath>>, m: nat)
    requires FrameFiles(runId, files) && Table(files, seen, slots) && m < |files|
    ensures AddPath(runId, slots, files[m]).Ok?
    ensures Table(files, seen + {files[m]}, AddPath(runId, slots, files[m]).value)
  {
    AddPathStoresAtSlot(runId, slots, files[m], m + 1);
    var t, seen' := AddPath(runId, slots, files[m]).value, seen + {files[m]};
    forall i | 0 <= i < |t|
      ensures t[i] == (if i < |files| && files[i] in seen' then Some(files[i]) else None)
    {
      if i < |files| && i != m {
        // distinct frames have distinct files
        assert FrameNumber(runId, files[i].name) != FrameNumber(runId, files[m].name);
      }
    }
  }

  /** Padding the table with the cursor's (still empty) slot keeps it exact. */
  lemma TablePad(files: seq<FilePath>, seen: set<FilePath>, slots: seq<Option<FilePath>>)
    requires Table(files, seen, slots) && |slots| <= |files|
    ensures Table(files, seen, slots + [None])
  {
  }

  /** Notifications followed by more events, one taken off the front. */
  lemma NotificationsCons(ds: seq<FilePath>, tail: seq<Event>)
    requires ds != []
    ensures Notifications(ds) + tail == [Deliver(ds[0])] + (Notifications(ds[1..]) + tail)
  {
  }

  /** A wait on an empty slot takes a notification at the head of the events into
      the table and waits on. */
  lemma WaitTakes(runId: string, s: State, f: FilePath, rest: seq<Event>)
    requires 0 <= s.cursor < |s.slots| && s.slots[s.cursor].None?
    requires AddPath(runId, s.slots, f).Ok?
    ensures Wait(runId, s, [Deliver(f)] + rest) == Wait(runId, s.(slots := AddPath(runId, s.slots, f).value), rest)
  {
    var events := [Deliver(f)] + rest;
    assert events[1..] == rest;
    assert Poll(s, events) == Continue(s, events);
  }

  /** Taking the head notification and then `k` more is taking `k + 1`. */
  lemma TakeOneMore(seen: set<FilePath>, ds: seq<FilePath>, k: nat)
    requires k < |ds|
    ensures seen + {ds[0]} + Elems(ds[1..][..k]) == seen + Elems(ds[..k + 1])
    ensures ds[1..][k..] == ds[k + 1..]
  {
    assert ds[..k + 1][1..] == ds[1..][..k];
  }

  /** Waiting at cursor c < N while the notifications `ds` are ahead (and then
      anything): the wait consumes notifications up to one for `files[c]` and returns
      that file as frame c. */
  lemma {:induction false} WaitDelivers(runId: string, files: seq<FilePath>, s: State, seen: set<FilePath>, ds: seq<FilePath>, tail: seq<Event>)
    returns (k: nat)
    requires FrameFiles(runId, files) && Table(files, seen, s.slots)
    requires 0 <= s.cursor < |s.slots| && s.cursor < |files| && !s.exited
    requires Elems(ds) <= Elems(files)
    requires files[s.cursor] in seen + Elems(ds)
    ensures k <= |ds|
    ensures var st := Wait(runId, s, Notifications(ds) + tail);
      && st.result == Frame(s.cursor, files[s.cursor])
      && st.rest == Notifications(ds[k..]) + tail
      && st.state.cursor == s.cursor + 1 && st.state.numFrames == s.numFrames && st.state.exited == s.exited
      && st.state.watching == s.watching && st.state.deleted == s.deleted
      && Table(files, seen + Elems(ds[..k]), st.state.slots)
    decreases |ds|
  {
    var c := s.cursor;
    if s.slots[c].Some? {
      k := 0;
      assert ds[..0] == [] && ds[0..] == ds;
    } else {
      ElemsMembership(files);
      var m :| 0 <= m < |files| && files[m] == ds[0];
      NotificationsCons(ds, tail);
      TableAdd(runId, files, seen, s.slots, m);
      WaitTakes(runId, s, files[m], Notifications(ds[1..]) + tail);
      var s' := s.(slots := AddPath(runId, s.slots, files[m]).value);
      var k' := WaitDelivers(runId, files, s', seen + {ds[0]}, ds[1..], tail);
      k := k' + 1;
      TakeOneMore(seen, ds, k');
    }
  }

  /** Waiting at cursor N, on the slot past the last frame: notifications (repeats of
      files already seen, or late ones) fill only earlier slots, and the exit that
      reports N frames ends the stream. */
  lemma {:induction false} WaitEnds(runId: string, files: seq<FilePath>, s: State, seen: set<FilePath>, ds: seq<FilePath>, log: seq<string>)
    requires FrameFiles(runId, files) && Table(files, seen, s.slots)
    requires s.cursor == |files| && |s.slots| == |files| + 1 && !s.exited
    requires Elems(ds) <= Elems(files)
    requires FrameCountFromLog(log) == Ok(|files|)
    ensures var st := Wait(runId, s, Notifications(ds) + [Exit(log)]);
      st.result == EndOfStream && st.rest == []
    decreases |ds|
  {
    if ds == [] {
      assert Notifications(ds) + [Exit(log)] == [Exit(log)];
    } else {
      ElemsMembership(files);
      var m :| 0 <= m < |files| && files[m] == ds[0];
      NotificationsCons(ds, [Exit(log)]);
      TableAdd(runId, files, seen, s.slots, m);
      WaitTakes(runId, s, files[m], Notifications(ds[1..]) + [Exit(log)]);
      var s' := s.(slots := AddPath(runId, s.slots, files[m]).value);
      WaitEnds(runId, files, s', seen + {ds[0]}, ds[1..], log);
    }
  }

  /** The states the run goes through before the exit is consumed. */
  ghost predicate Running(runId: string, files: seq<FilePath>, s: State, seen: set<FilePath>)
  {
    && FrameFiles(runId, files) && Inv(s) && Table(files, seen, s.slots)
    && s.numFrames.None? && !s.exited
  }

  /** One pull before the last frame: it returns the cursor's file as that frame. */
  lemma PullDelivers(runId: string, files: seq<FilePath>, s: State, seen: set<FilePath>, ds: seq<FilePath>, tail: seq<Event>)
    returns (k: nat)
    requires Running(runId, files, s, seen) && Start(s).cursor < |files|
    requires Elems(ds) <= Elems(files)
    requires files[Start(s).cursor] in seen + Elems(ds)
    ensures k <= |ds|
    ensures var st := Pull(runId, s, Notifications(ds) + tail);
      && st.result == Frame(Start(s).cursor, files[Start(s).cursor])
      && st.rest == Notifications(ds[k..]) + tail
      && st.state.cursor == Start(s).cursor + 1
      && Running(runId, files, st.state, seen + Elems(ds[..k]))
  {
    var events := Notifications(ds) + tail;
    var s3 := Pad(Begin(s));
    if s3 != Begin(s) {
      TablePad(files, seen, s.slots);
    }
    PullWaits(runId, s, events);
    k := WaitDelivers(runId, files, s3, seen, ds, tail);
    PullKeepsInvariant(runId, s, events);
  }

  /** The pull at cursor N: it ends the stream and consumes every event left. */
  lemma PullEnds(runId: string, files: seq<FilePath>, s: State, seen: set<FilePath>, ds: seq<FilePath>, log: seq<string>)
    requires Running(runId, files, s, seen) && Start(s).cursor == |files|
    requires Elems(ds) <= Elems(files)
    requires FrameCountFromLog(log) == Ok(|files|)
    ensures var st := Pull(runId, s, Notifications(ds) + [Exit(log)]);
      st.result == EndOfStream && st.rest == []
  {
    var s3 := Pad(Begin(s));
    if s3 != Begin(s) {
      TablePad(files, seen, s.slots);
    }
    PullWaits(runId, s, Notifications(ds) + [Exit(log)]);
    WaitEnds(runId, files, s3, seen, ds, log);
  }

  /** The pulls from a cursor before the last frame: the first returns that frame. */
  lemma PullsDeliver(runId: string, files: seq<FilePath>, s: State, seen: set<FilePath>, ds: seq<FilePath>, log: seq<string>)
    returns (k: nat, next: State)
    requires Running(runId, files, s, seen) && Start(s).cursor < |files|
    requires Elems(ds) <= Elems(files)
    requires files[Start(s).cursor] in seen + Elems(ds)
    ensures k <= |ds| && Running(runId, files, next, seen + Elems(ds[..k])) && Start(next).cursor == Start(s).cursor + 1
    ensures PullMany(runId, s, Notifications(ds) + [Exit(log)], |files| - Start(s).cursor + 1)
      == [Frame(Start(s).cursor, files[Start(s).cursor])]
         + PullMany(runId, next, Notifications(ds[k..]) + [Exit(log)], |files| - Start(next).cursor + 1)
  {
    var events := Notifications(ds) + [Exit(log)];
    k := PullDelivers(runId, files, s, seen, ds, [Exit(log)]);
    next := Pull(runId, s, events).state;
    PullManyStep(runId, s, events, |files| - Start(s).cursor);
  }

  /** The pull at cursor N, as the first of the remaining pulls. */
  lemma PullsEnd(runId: string, files: seq<FilePath>, s: State, seen: set<FilePath>, ds: seq<FilePath>, log: seq<string>)
    requires Running(runId, files, s, seen) && Start(s).cursor == |files|
    requires Elems(ds) <= Elems(files)
    requires FrameCountFromLog(log) == Ok(|files|)
    ensures PullMany(runId, s, Notifications(ds) + [Exit(log)], 1) == [EndOfStream]
  {
    var events := Notifications(ds) + [Exit(log)];
    PullEnds(runId, files, s, seen, ds, log);
    PullManyStep(runId, s, events, 0);
    var st := Pull(runId, s, events);
    assert PullMany(runId, st.state, st.rest, 0) == [];
  }

  /** From cursor c, with every file not yet seen still to be notified, the
      remaining pulls return frames c..N-1 and then end the stream. */
  lemma {:induction false} RunFrom(runId: string, files: seq<FilePath>, s: State, seen: set<FilePath>, ds: seq<FilePath>, log: seq<string>)
    requires Running(runId, files, s, seen) && Start(s).cursor <= |files|
    requires Elems(ds) <= Elems(files)
    requires forall i :: Start(s).cursor <= i < |files| ==> files[i] in seen + Elems(ds)
    requires FrameCountFromLog(log) == Ok(|files|)
    ensures PullMany(runId, s, Notifications(ds) + [Exit(log)], |files| - Start(s).cursor + 1)
      == InOrderThenEnd(files, Start(s).cursor)
    decreases |files| - Start(s).cursor
  {
    var c := Start(s).cursor;
    if c == |files| {
      PullsEnd(runId, files, s, seen, ds, log);
    } else {
      var k, next := PullsDeliver(runId, files, s, seen, ds, log);
      ElemsSplit(ds, k);
      RunFrom(runId, files, next, seen + Elems(ds[..k]), ds[k..], log);
      InOrderStep(files, c, Start(next).cursor);
    }
  }

  /**
   * The arrival order of the notifications does not matter: when every file of the
   * run is notified (each at least once, in any order) before the process is seen
   * to exit with a log reporting N frames, a fresh iterator's first N + 1 pulls
   * return frame i as the file written for it, for i = 0..N-1, and then end of stream.
   */
  lemma ArrivalOrderIrrelevant(runId: string, files: seq<FilePath>, ds: seq<FilePath>, log: seq<string>)
    requires FrameFiles(runId, files)
    requires forall j :: 0 <= j < |ds| ==> ds[j] in files
    requires forall i :: 0 <= i < |files| ==> files[i] in ds
    requires FrameCountFromLog(log) == Ok(|files|)
    ensures PullMany(runId, Initial, Notifications(ds) + [Exit(log)], |files| + 1) == InOrderThenEnd(files, 0)
  {
    ElemsMembership(ds);
    ElemsMembership(files);
    RunFrom(runId, files, Initial, {}, ds, log);
  }

  /** The single step behind it: on a table that ends at the cursor, a notification
      for the cursor's frame at the head of the events is returned at once, and
      nothing after it is consumed. */
  lemma PullTakesArrivingFrame(runId: string, s: State, f: FilePath, events: seq<Event>)
    requires Inv(s) && Start(s).cursor == |s.slots|
    requires s.numFrames.None? || s.numFrames.value > Start(s).cursor
    requires events != [] && events[0] == Deliver(f)
    requires FrameNumber(runId, f.name) == Some(Start(s).cursor + 1)
    ensures var st := Pull(runId, s, events);
      st.result == Frame(Start(s).cursor, f) && st.rest == events[1..]
  {
    var c, s3 := Start(s).cursor, Pad(Begin(s));
    PullWaits(runId, s, events);
    AddPathStoresAtSlot(runId, s3.slots, f, c + 1);
    assert events == [Deliver(f)] + events[1..];
    WaitTakes(runId, s3, f, events[1..]);
  }
}
