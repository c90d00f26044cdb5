/**
 * The classes of pixeltable/utils/video.py: FrameIterator, which turns the files
 * an extraction process writes into frames delivered in order, and
 * FrameExtractor, the window function that returns the frame at a given index.
 *
 * The iterator's fields are the sequencing fields of the source; the directory watcher and the
 * deleted files are ghost state. The process and the notification queue are the
 * event list each method receives and returns what it left unconsumed. Every
 * method is proved to compute the specification functions of Sequencer and Runs.
 */
module Video {
  import opened Wrappers
  import opened FrameNames
  import opened Sequencer
  import opened Runs

  /** Why the video file cannot be opened (video.py:35-38). */
  datatype OpenFailure = FileNotFound | NotAFile

  class FrameIterator {
    /** The run id (`self.id`): the prefix of every frame file name of this run. */
    const runId: string
    /** `next_frame_idx`: the index of the next frame to return, -1 before extraction starts. */
    var cursor: int
    /** `num_frames`: the frame count, once read from the exited process's log. */
    var numFrames: Option<nat>
    /** `frame_paths`: the paths notified so far, by frame index. */
    var framePaths: seq<Option<FilePath>>
    /** Whether the process status has been seen as `exited`. */
    var exited: bool
    /** Whether the directory watcher runs. */
    ghost var watching: bool
    /** The frame files deleted so far. */
    ghost var deleted: set<FilePath>

    ghost function Model(): State
      reads this
    {
      State(cursor, numFrames, framePaths, exited, watching, deleted)
    }

    ghost predicate Valid()
      reads this
    {
      Inv(Model()) && SlotsNamed(runId, framePaths)
    }

    constructor (runId: string)
      ensures this.runId == runId && Model() == Initial && Valid()
    {
      this.runId := runId;
      cursor := NotStarted;
      numFrames := None;
      framePaths := [];
      exited := false;
      watching := false;
      deleted := {};
    }

    /** `__init__` (video.py:32-44, 67-71): the video must exist and be a regular
        file; the run id stands for the random `uuid4().hex[:16]`. */
    static method Create(runId: string, videoExists: bool, videoIsFile: bool) returns (r: Result<FrameIterator, OpenFailure>)
      ensures r == Err(FileNotFound) <==> !videoExists
      ensures r == Err(NotAFile) <==> videoExists && !videoIsFile
      ensures r.Ok? ==> fresh(r.value) && r.value.runId == runId && r.value.Model() == Initial && r.value.Valid()
    {
      if !videoExists {
        return Err(FileNotFound);
      }
      if !videoIsFile {
        return Err(NotAFile);
      }
      var it := new FrameIterator(runId);
      return Ok(it);
    }

    /** `_start_extraction` (video.py:73-115): start the watcher and the process;
        the cursor moves to 0. */
    method StartExtraction()
      requires cursor == NotStarted
      modifies this
      ensures Model() == Start(old(Model()))
    {
      watching := true;
      cursor := 0;
    }

    /** `_add_path` (video.py:185-196): parse the file's frame number, grow the table
        with empty slots up to it, and store the path; frame number 0 is index -1,
        Python's last slot. */
    method AddPath(p: FilePath) returns (failure: Option<Failure>)
      modifies this
      ensures failure.None? ==> Sequencer.AddPath(runId, old(framePaths), p) == Ok(framePaths)
      ensures failure.Some? ==> Sequencer.AddPath(runId, old(framePaths), p) == Err(failure.value) && framePaths == old(framePaths)
      ensures cursor == old(cursor) && numFrames == old(numFrames) && exited == old(exited)
      ensures watching == old(watching) && deleted == old(deleted)
    {
      var m := FrameNumber(runId, p.name);
      if m.None? {
        return Some(UnexpectedFramePath(p));
      }
      var idx := m.value as int - 1;
      ghost var before := framePaths;
      if idx >= |framePaths| {
        framePaths := framePaths + seq(idx - |framePaths| + 1, _ => None);
      }
      if idx < 0 {
        if framePaths == [] {
          return Some(IndexOutOfRange);
        }
        framePaths := framePaths[|framePaths| - 1 := Some(p)];
      } else {
        framePaths := framePaths[idx := Some(p)];
        if idx >= |before| {
          assert framePaths == before + seq(idx - |before|, _ => None) + [Some(p)];
        }
      }
      return None;
    }

    /** `__next__` (video.py:126-183): one pull. */
    method Next(events: seq<Event>) returns (r: Pulled, rest: seq<Event>)
      requires Valid()
      modifies this
      ensures Valid()
      ensures Step(r, Model(), rest) == Pull(runId, old(Model()), events)
    {
      ghost var s := Model();
      PullKeepsInvariant(runId, s, events);
      StartAndReclaim();
      if numFrames == Some(cursor) {
        watching := false;
        return EndOfStream, events;
      }
      if |framePaths| < cursor + 1 && (numFrames.None? || |framePaths| < numFrames.value) {
        assert |framePaths| == cursor;
        framePaths := framePaths + [None];
      }
      assert Model() == Pad(Begin(s));
      if cursor >= |framePaths| {
        return Raised(IndexOutOfRange), events;
      }
      PullWaits(runId, s, events);
      r, rest := AwaitFrame(events);
    }

    /** The start of `__next__` (video.py:130-139): start extraction if needed, then
        delete the previously returned frame's file (a missing file is no error). */
    method StartAndReclaim()
      requires Inv(Model())
      modifies this
      ensures Model() == Begin(old(Model()))
    {
      ghost var s := Model();
      if cursor == NotStarted {
        StartExtraction();
      }
      var prev := cursor - 1;
      if prev >= 0 {
        deleted := deleted + {framePaths[prev].value};
      }
    }

    /** The wait loop of `__next__` (video.py:153-183): until the cursor's slot is
        filled, poll the process once and wait once on the notification queue. */
    method AwaitFrame(events: seq<Event>) returns (r: Pulled, rest: seq<Event>)
      requires 0 <= cursor < |framePaths|
      modifies this
      ensures Step(r, Model(), rest) == Wait(runId, old(Model()), events)
    {
      ghost var s3 := Model();
      rest := events;
      while framePaths[cursor].None?
        invariant 0 <= cursor < |framePaths|
        invariant Wait(runId, Model(), rest) == Wait(runId, s3, events)
        decreases |rest|
      {
        if rest == [] {
          return Stalled, rest;
        }
        var stop;
        ghost var before, evs := Model(), rest;
        stop, rest := Poll(rest);
        if stop.Some? {
          return stop.value, rest;
        }
        assert Wait(runId, before, evs) == Receive(runId, Model(), rest);
        stop, rest := TakeNotification(rest);
        if stop.Some? {
          return stop.value, rest;
        }
      }
      r := Frame(cursor, framePaths[cursor].value);
      cursor := cursor + 1;
    }

    /** One poll of the process (video.py:155-169), made only until it is seen to
        exit: on exit, read the frame count from the log and end the stream if the
        cursor has reached it. `stop` is the pull's outcome when the poll ends it. */
    method Poll(events: seq<Event>) returns (stop: Option<Pulled>, rest: seq<Event>)
      requires 0 <= cursor < |framePaths| && framePaths[cursor].None? && events != []
      modifies this
      ensures stop.Some? ==> Sequencer.Poll(old(Model()), events) == Stop(Step(stop.value, Model(), rest))
      ensures stop.None? ==> Sequencer.Poll(old(Model()), events) == Continue(Model(), rest)
    {
      rest := events;
      if !exited && rest[0].Exit? {
        exited := true;
        var log := rest[0].log;
        rest := rest[1..];
        match FrameCountFromLog(log) {
          case Err(fault) =>
            return Some(Raised(BadExitLog(fault))), rest;
          case Ok(n) =>
            numFrames := Some(n);
            if cursor == n {
              watching := false;
              return Some(EndOfStream), rest;
            }
        }
      }
      stop := None;
    }

    /** One bounded wait on the notification queue (video.py:174-178): a notified
        file is added to the table; a wait that times out does nothing. */
    method TakeNotification(events: seq<Event>) returns (stop: Option<Pulled>, rest: seq<Event>)
      requires 0 <= cursor < |framePaths|
      modifies this
      ensures cursor == old(cursor) && |framePaths| >= |old(framePaths)|
      ensures stop.Some? ==> Step(stop.value, Model(), rest) == Receive(runId, old(Model()), events)
      ensures stop.None? ==> Wait(runId, Model(), rest) == Receive(runId, old(Model()), events) && |rest| < |events|
    {
      if events == [] {
        return Some(Stalled), events;
      }
      match events[0] {
        case Deliver(p) =>
          var failure := AddPath(p);
          if failure.Some? {
            return Some(Raised(failure.value)), events[1..];
          }
        case _ =>
      }
      return None, events[1..];
    }

    /** `seek` as written (video.py:198-206): start extraction if needed, then pull
        while `frame_idx < next_frame_idx`. */
    method Seek(frameIdx: int, events: seq<Event>) returns (outcome: Outcome, rest: seq<Event>)
      requires Valid() && frameIdx >= cursor
      modifies this
      ensures Valid()
      ensures Run(outcome, Model(), rest) == SeekRun(runId, old(Model()), events, frameIdx)
    {
      if cursor == NotStarted {
        StartExtraction();
      }
      ghost var s1 := Model();
      rest := events;
      while frameIdx < cursor
        invariant Valid()
        invariant frameIdx < cursor ==> frameIdx < s1.cursor && Drain(runId, Model(), rest) == Drain(runId, s1, events)
        invariant frameIdx >= cursor ==> Model() == s1 && rest == events
        decreases |rest|, |framePaths| - cursor
      {
        ghost var before := Model();
        ghost var evs := rest;
        PullProgress(runId, before, evs);
        PullInOrder(runId, before, evs);
        var r;
        r, rest := Next(rest);
        if !r.Frame? {
          assert Drain(runId, before, evs) == Step(r, Model(), rest);
          return Escaped(r), rest;
        }
        assert Drain(runId, before, evs) == Drain(runId, Model(), rest);
      }
      outcome := Returned;
    }

    /** The `seek` the source evidently intends: pull while `next_frame_idx < frame_idx`,
        so that the next pull returns frame `frame_idx`. */
    method FastForward(frameIdx: int, events: seq<Event>) returns (outcome: Outcome, rest: seq<Event>)
      requires Valid() && frameIdx >= cursor
      modifies this
      ensures Valid()
      ensures Run(outcome, Model(), rest) == FastForwardRun(runId, old(Model()), events, frameIdx)
    {
      if cursor == NotStarted {
        StartExtraction();
      }
      ghost var s1 := Model();
      rest := events;
      while cursor < frameIdx
        invariant Valid() && cursor >= 0
        invariant SkipTo(runId, Model(), rest, frameIdx) == SkipTo(runId, s1, events, frameIdx)
        decreases frameIdx - cursor
      {
        PullFacts(runId, Model(), rest);
        var r;
        r, rest := Next(rest);
        if !r.Frame? {
          return Escaped(r), rest;
        }
      }
      outcome := Returned;
    }

    /** `close` (video.py:214-222): pull until end of stream, which it absorbs. */
    method Close(events: seq<Event>) returns (outcome: Outcome, rest: seq<Event>)
      requires Valid()
      modifies this
      ensures Valid()
      ensures Run(outcome, Model(), rest) == CloseRun(runId, old(Model()), events)
    {
      if cursor == NotStarted {
        return Returned, events;
      }
      ghost var s0 := Model();
      rest := events;
      while true
        invariant Valid() && cursor >= 0
        invariant Drain(runId, Model(), rest) == Drain(runId, s0, events)
        decreases |rest|, |framePaths| - cursor
      {
        PullFacts(runId, Model(), rest);
        var r;
        r, rest := Next(rest);
        if r.EndOfStream? {
          return Returned, rest;
        }
        if !r.Frame? {
          return Escaped(r), rest;
        }
      }
    }
  }

  /** The `extract_frame` window function (video.py:225-244). */
  class FrameExtractor {
    const frames: FrameIterator
    /** `current_frame_path`: the file of the frame returned by the last update. */
    var currentFramePath: Option<FilePath>

    ghost predicate Valid()
      reads this, frames
    {
      frames.Valid()
    }

    constructor (frames: FrameIterator)
      requires frames.Valid()
      ensures this.frames == frames && currentFramePath == None && Valid()
    {
      this.frames := frames;
      currentFramePath := None;
    }

    /** `make_aggregator` and `__init__` (video.py:229-237): open the video's frames. */
    static method MakeAggregator(runId: string, videoExists: bool, videoIsFile: bool) returns (r: Result<FrameExtractor, OpenFailure>)
      ensures r == Err(FileNotFound) <==> !videoExists
      ensures r == Err(NotAFile) <==> videoExists && !videoIsFile
      ensures r.Ok? ==> fresh(r.value) && fresh(r.value.frames) && r.value.Valid()
      ensures r.Ok? ==> r.value.frames.runId == runId && r.value.frames.Model() == Initial && r.value.currentFramePath == None
    {
      var it := FrameIterator.Create(runId, videoExists, videoIsFile);
      if it.Err? {
        return Err(it.error);
      }
      var e := new FrameExtractor(it.value);
      return Ok(e);
    }

    /** `update` (video.py:239-241): seek as written, then pull one frame, which
        becomes the current frame. */
    method Update(frameIdx: int, events: seq<Event>) returns (outcome: Outcome, rest: seq<Event>)
      requires Valid() && frameIdx >= frames.cursor
      modifies this, frames
      ensures Valid()
      ensures Extracted(outcome, currentFramePath, frames.Model(), rest) ==
              ExtractAfter(frames.runId, SeekRun(frames.runId, old(frames.Model()), events, frameIdx), old(currentFramePath))
    {
      outcome, rest := frames.Seek(frameIdx, events);
      if outcome.Escaped? {
        return;
      }
      var r;
      r, rest := frames.Next(rest);
      if r.Frame? {
        currentFramePath := Some(r.path);
      } else {
        outcome := Escaped(r);
      }
    }

    /** `update` with the corrected seek: the current frame becomes frame `frame_idx`. */
    method UpdateAt(frameIdx: int, events: seq<Event>) returns (outcome: Outcome, rest: seq<Event>)
      requires Valid() && frameIdx >= frames.cursor
      modifies this, frames
      ensures Valid()
      ensures Extracted(outcome, currentFramePath, frames.Model(), rest) ==
              ExtractAfter(frames.runId, FastForwardRun(frames.runId, old(frames.Model()), events, frameIdx), old(currentFramePath))
    {
      outcome, rest := frames.FastForward(frameIdx, events);
      if outcome.Escaped? {
        return;
      }
      var r;
      r, rest := frames.Next(rest);
      if r.Frame? {
        currentFramePath := Some(r.path);
      } else {
        outcome := Escaped(r);
      }
    }
  }
}
