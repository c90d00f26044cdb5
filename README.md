# Frame sequencer, numeric aggregates and table parameters of pixeltable

This project models, in Dafny, three parts of pixeltable:

- **The frame sequencer** of `pixeltable/utils/video.py`. `FrameIterator` starts an
  extraction process that writes one file per frame (`{id}_%07d.jpg`, numbered from 1) and
  a directory watcher that posts a "file closed" notification for each file, in any order.
  `__next__` buffers the notified paths in a table indexed by frame and hands frames out
  strictly by index. It deletes the previously returned frame's file on the next pull. It
  learns the frame count from the exit log of the process (the leftmost `frame=\s*(\d+)` in
  the second-to-last log line), and it ends the stream when the cursor reaches that count.
  `seek`, `close` and `FrameExtractor.update` are built on `__next__`.
- **The aggregates** `sum`, `count` and `mean` of `pixeltable/functions/__init__.py`:
  objects updated once per row, skipping missing values.
- **`TableParameters`** of `pixeltable/metadata/schema.py`: defaults and `reset()`.

Layout:

- `wrappers.dfy`: `Option` and `Result`.
- `frame_names.dfy` (module `FrameNames`): the two text parses and the names the process
  writes, with the proof that the name parse inverts the naming.
- `sequencer.dfy` (module `Sequencer`): the state of `FrameIterator` as a datatype, and
  `__next__` as the function `Pull`, built from `Begin`, `Pad`, `Wait`, `Poll` and `Receive`,
  with the properties of a pull and of successive pulls.
- `runs.dfy` (module `Runs`): `seek`, `close` and `update` as functions over runs of pulls,
  both as written and with `seek`'s loop corrected.
- `video.dfy` (module `Video`): the classes `FrameIterator` and `FrameExtractor`. Their fields
  are the sequencing fields of the source (cursor, count, path table, exit and watcher flags,
  deleted files; the video path, frame rate, pattern, estimate, container, queue and observer
  objects are not fields of the model), and every method is proved to compute the functions of `Sequencer`
  and `Runs`.
- `delivery.dfy` (module `Delivery`): liveness. When every file of the run is notified, in any
  order and possibly more than once, before the exit that reports N frames, the first N + 1
  pulls return frames 0 to N - 1 and then end the stream.
- `scenarios.dfy` (module `Scenarios`): two worked event lists, with out-of-order
  notifications and with an exit that comes before the last notification.
- `aggregators.dfy` (module `Aggregators`) and `schema.dfy` (module `Schema`): the aggregate
  classes and `TableParameters`. Each is a class whose methods update fields in place, proved
  against a fold or a function of its history.

The environment is an explicit list of events: `Exit(log)` (the process is seen to have
exited, with its log lines), `Deliver(path)` (a notification) and `Timeout` (a queue wait of
one second that received nothing). One iteration of the wait loop polls the process, which
consumes a leading `Exit` only until the process has been seen to exit. It then takes one
event from the queue. When the events run out while the sequencer is still waiting, the pull
ends as `Stalled`, where the source would go on waiting. Every method takes the events and
returns the ones it left unconsumed.

## Model

| member | source | states |
|---|---|---|
| `FrameNames.RunLengthIsMaximal` | pixeltable/utils/video.py:162 | a greedy `\s*` or `\d+` takes every character of its class up to the first one outside it |
| `FrameNames.ValueIgnoresLeadingZeros` | pixeltable/utils/video.py:192 | `int()` of a zero-padded digit string is the value of the unpadded digits |
| `FrameNames.FrameNumberOfFileName` | pixeltable/utils/video.py:189-192 | the name the process writes for frame n (`{id}_%07d.jpg`) reads back as n, whatever follows it |
| `FrameNames.ForeignFileRejected` | pixeltable/utils/video.py:189-191 | a file of another run does not match this run's pattern, whatever the lengths of the two ids, as long as neither contains `_` (run ids are hex digits) |
| `FrameNames.FrameNumber` | pixeltable/utils/video.py:189-192 | the regex match of a notified name: the name the process writes for frame n reads back as n whatever follows it, and a name of another run is rejected (stated by `FrameNumberOfFileName`, `FrameNumberPrefixAnchored` and `ForeignFileRejected`) |
| `FrameNames.FrameFileName` | pixeltable/utils/video.py:85 | the output pattern `{id}_%07d.jpg`, which the name parse inverts (stated by `FrameNumberOfFileName`) |
| `FrameNames.FrameNumberPrefixAnchored` | pixeltable/utils/video.py:189 | `match` is anchored only at the start: a matching name keeps its number whatever is appended |
| `FrameNames.LeftmostMatchIsLeast` | pixeltable/utils/video.py:162 | the search finds a position exactly when one matches, and no match lies before the one it finds |
| `FrameNames.ParseFrameCountIsLeftmost` | pixeltable/utils/video.py:162-165 | a log line gives a count iff `frame=\s*(\d+)` matches somewhere in it, and the count is that of the leftmost match |
| `FrameNames.ParseFrameCountOf` | pixeltable/utils/video.py:162-165 | a line with `frame=`, blanks and a number reports that number |
| `FrameNames.ParseFrameCount` | pixeltable/utils/video.py:162-165 | `re.search(r'frame=\s*(\d+)', line)`: a count exactly when the pattern matches somewhere, and then the number at the leftmost match (stated by `ParseFrameCountIsLeftmost` and `ParseFrameCountOf`) |
| `FrameNames.FrameCountFromLog` | pixeltable/utils/video.py:159-160 | reading the log fails with "too short" exactly when it has fewer than two lines (`lines[-2]`) |
| `FrameNames.FrameCountFromLogCases` | pixeltable/utils/video.py:159-165 | the log gives no count exactly when its second-to-last line has no match, and otherwise gives that line's count |
| `Sequencer.Place` | pixeltable/utils/video.py:192-196 | storing at index n - 1 fails exactly for number 0 on an empty table, and never shrinks the table |
| `Sequencer.AddPath` | pixeltable/utils/video.py:185-196 | `UnexpectedFramePath` iff the name does not match; `IndexError` iff its number is 0 and the table is empty; the table never shrinks |
| `Sequencer.AddPathStoresAtSlot` | pixeltable/utils/video.py:192-196 | a file numbered n >= 1 lands in slot n - 1; the table grows with empty slots to reach it; every other slot keeps its content |
| `Sequencer.AddPathFrameZero` | pixeltable/utils/video.py:193-196 | a file numbered 0 (index -1) overwrites the last slot |
| `Sequencer.AddPathCommutes` | pixeltable/utils/video.py:185-196 | two notifications for different frames give the same table in either arrival order |
| `Sequencer.AddPathKeepsNames` | pixeltable/utils/video.py:185-196 | slots only receive files named for them, and a filled slot stays filled |
| `Sequencer.Begin` | pixeltable/utils/video.py:130-139 | a fresh iterator is started (cursor 0, watcher running) and a started one keeps its cursor; the table, the count and the exit flag are kept, the cursor lies within the table, and exactly the previously returned file is added to the deleted ones |
| `Sequencer.Start` | pixeltable/utils/video.py:130-131 | starting moves only a fresh iterator, to cursor 0 with the watcher running, changes nothing else and keeps the state reachable (stated by `StartFacts`) |
| `Sequencer.StartFacts` | pixeltable/utils/video.py:130-131 | the same, as a lemma about `Start` |
| `Sequencer.Pad` | pixeltable/utils/video.py:146-150 | padding adds at most one empty slot, and adds it exactly when the table ends at the cursor and does not yet cover the known count; the cursor has a slot unless the known count is already reached |
| `Sequencer.Poll` | pixeltable/utils/video.py:155-169 | a poll consumes nothing, or the exit at the head of the events if the process has not been seen to exit yet; a `Stop` ends the stream exactly when the count equals the cursor and raises exactly when the log has no count; a poll that lets the wait go on keeps the cursor and the table (that it stops exactly in those two cases, and records the count otherwise, is stated by `PollStopsExactly`) |
| `Sequencer.PollStopsExactly` | pixeltable/utils/video.py:157-169 | an exit seen at the head stops the pull if and only if its log has no count or reports the cursor; no count gives `BadExitLog` with the exit recorded, any other count is recorded and the wait goes on |
| `Sequencer.BadLogRaises` | pixeltable/utils/video.py:159-164 | a pull waiting on an empty slot raises `BadExitLog` when the exit's log has no count, consuming only that exit, with the count unset and the watcher left running |
| `Sequencer.ForeignNameRaises` | pixeltable/utils/video.py:174-191 | a pull waiting on an empty slot raises `UnexpectedFramePath` for a notification whose name does not match the run's pattern, rather than skipping it, consuming only that notification and leaving the table as it was |
| `Sequencer.WaitFacts` | pixeltable/utils/video.py:153-183 | the wait loop returns the frame at the cursor and advances by one, or ends the stream exactly at the count with the watcher stopped; it never raises `IndexError`; it keeps every filled slot and every name |
| `Sequencer.Wait` | pixeltable/utils/video.py:153-183 | the wait loop: the file in the cursor's slot as the frame at the cursor, or an end, error or stall with the cursor unchanged, consuming a prefix of the events (stated by `WaitFacts`) |
| `Sequencer.ReceiveFacts` | pixeltable/utils/video.py:174-178 | the same for the wait that continues after one receive from the queue |
| `Sequencer.Receive` | pixeltable/utils/video.py:174-178 | one queue wait: a notification is added to the table, or raises `_add_path`'s error (a name outside the pattern raises `UnexpectedFramePath`, stated by `ForeignNameRaises`); anything else is a timeout, and the loop goes on (its outcomes are stated by `ReceiveFacts`) |
| `Sequencer.PullFacts` | pixeltable/utils/video.py:126-183 | everything a pull guarantees: the invariant, names, deletion, cursor movement, the end, the errors and the count |
| `Sequencer.Pull` | pixeltable/utils/video.py:126-183 | one `__next__`: the frame at the cursor, which is the file named for it (or one numbered 0), and the cursor one further on; or the end exactly at the known count; or an error (stated by `PullFacts`, `PullInOrder`, `PullEndsOnlyAtCount` and `PullEndsAtCount`) |
| `Sequencer.PullKeepsInvariant` | pixeltable/utils/video.py:126-183 | a pull keeps the sequencer's state reachable, keeps every slot named for its frame, and consumes a prefix of the events |
| `Sequencer.PullInOrder` | pixeltable/utils/video.py:153-183 | a pull returns the frame at the cursor, which is the file named for that frame (or a file numbered 0, which index -1 puts in the last slot), and advances the cursor by exactly one; any other outcome leaves the cursor in place |
| `Sequencer.PullReclaimsPrevious` | pixeltable/utils/video.py:132-139 | each pull deletes the previously returned frame's file and no other; a missing file is not an error |
| `Sequencer.PullEndsOnlyAtCount` | pixeltable/utils/video.py:141-169 | the stream ends only when the cursor equals the reported frame count, with the watcher stopped |
| `Sequencer.PullEndsAtCount` | pixeltable/utils/video.py:141-144 | conversely, once the count is known and the cursor has reached it, a pull ends the stream at once, stops the watcher and consumes no event |
| `Sequencer.FrameCountSetOnce` | pixeltable/utils/video.py:155-165 | once known, the frame count never changes |
| `Sequencer.BadLogLeavesCountUnset` | pixeltable/utils/video.py:159-164 | a pull that raises `BadExitLog` leaves the count unset and the exit recorded (that such a log does raise is stated by `BadLogRaises`) |
| `Sequencer.IndexErrorOnlyPastCount` | pixeltable/utils/video.py:146-153 | the `IndexError` at the wait loop happens only when the reported count is below the cursor |
| `Sequencer.IndexErrorPastCount` | pixeltable/utils/video.py:141-153 | the converse: a known count below a cursor at the end of the table skips both the end test and the padding, and the pull raises `IndexError` at once, consuming nothing |
| `Sequencer.PullChecked` | pixeltable/utils/video.py:141-144 | `__next__` with the end test written `>=` (stated by `PullCheckedNeverIndexError`) |
| `Sequencer.PullCheckedNeverIndexError` | pixeltable/utils/video.py:141-153 | the corrected pull never raises `IndexError`, and it equals `Pull` whenever the cursor has not passed the known count |
| `Sequencer.PullProgress` | pixeltable/utils/video.py:153-183 | a pull never adds events, and a frame returned without consuming an event leaves the table unchanged |
| `Sequencer.EndOfStreamIsFinal` | pixeltable/utils/video.py:141-144 | end of stream is reached in a stopped state, and every later pull ends again at once, changing nothing |
| `Sequencer.StoppedPull` | pixeltable/utils/video.py:141-144 | a stopped sequencer answers every pull with end of stream and consumes nothing |
| `Sequencer.PullsAreConsecutive` | pixeltable/utils/video.py:126-196 | whatever the arrival order, the frames among successive pulls are c, c + 1, c + 2, ... from the cursor c, across errors and stalls (which leave the cursor in place), each the file written for its frame or a file numbered 0 |
| `Delivery.ArrivalOrderIrrelevant` | pixeltable/utils/video.py:126-196 | when every file of the run is notified at least once, in any order and with repeats, before the exit that reports N frames, a fresh iterator's first N + 1 pulls return frames 0 to N - 1, each the file written for it, and then end of stream |
| `Delivery.RunFrom` | pixeltable/utils/video.py:126-196 | the same from any cursor c reached before the exit: frames c to N - 1, then end of stream |
| `Delivery.PullDelivers` | pixeltable/utils/video.py:126-183 | a pull before the last frame returns the cursor's file as that frame once its notification arrives, consuming notifications only up to it |
| `Delivery.PullEnds` | pixeltable/utils/video.py:141-169 | the pull at cursor N absorbs any remaining notifications and ends the stream at the exit that reports N |
| `Delivery.WaitDelivers` | pixeltable/utils/video.py:153-196 | the wait at cursor c < N takes notifications into the table until the one for file c, and returns that file as frame c |
| `Delivery.WaitEnds` | pixeltable/utils/video.py:153-169 | the wait at cursor N: notifications fill only earlier slots, and the exit reporting N ends the stream with nothing left |
| `Delivery.TableAdd` | pixeltable/utils/video.py:185-196 | a notification for one of the run's files succeeds and stores exactly that file in its slot, leaving every other slot as it was |
| `Delivery.PullTakesArrivingFrame` | pixeltable/utils/video.py:146-196 | on a table that ends at the cursor, a notification for the cursor's frame at the head of the events is returned at once as that frame, and nothing after it is consumed |
| `Runs.Drain` | pixeltable/utils/video.py:218-222 | pulling until a pull returns something other than a frame keeps the invariant and the names, and ends at end of stream only in a stopped state |
| `Runs.SeekRun` | pixeltable/utils/video.py:198-206 | `seek` as written keeps the invariant and the names |
| `Runs.SkipTo` | pixeltable/utils/video.py:198-201 | the corrected loop returns with the cursor at the target (or where it was, if already past it); an escape is never a frame |
| `Runs.FastForwardRun` | pixeltable/utils/video.py:198-206 | the corrected `seek`: start if needed, then skip to the target; keeps the invariant (its outcome is stated by `SkipTo` and `UpdateAtDeliversTarget`) |
| `Runs.CloseRun` | pixeltable/utils/video.py:214-222 | `close` keeps the invariant and consumes a prefix of the events; before extraction started it returns at once and changes nothing; otherwise it returns normally exactly when its pulls reach end of stream, and then the sequencer is stopped |
| `Runs.StoppedCloses` | pixeltable/utils/video.py:214-222 | closing a stopped iterator returns normally |
| `Runs.CloseTwice` | pixeltable/utils/video.py:214-222 | closing a closed iterator consumes no event and changes nothing but deleting the last file again |
| `Runs.SeekAsWritten` | pixeltable/utils/video.py:202-206 | as written, `seek(k)` with k >= 0 only starts the extraction, and `seek(-1)` on a fresh iterator ends with an exception |
| `Runs.UpdateAsWrittenIgnoresIndex` | pixeltable/utils/video.py:239-241 | as written, `update(k)` yields the file of the frame at the cursor and leaves the cursor one past it, whatever k is |
| `Runs.ExtractAfter` | pixeltable/utils/video.py:241 | the pull after positioning: a normal return only after a normal positioning, with a current frame; an exception leaves the current frame as it was; the invariant is kept |
| `Runs.UpdateAsWrittenExample` | pixeltable/utils/video.py:239-241 | `update(5)` on a fresh extractor yields the file of frame 1 (index 0), not that of index 5 |
| `Runs.UpdateAtDeliversTarget` | pixeltable/utils/video.py:198-201 | with the corrected seek, `update(k)` yields the file written for frame k, or a file numbered 0 that index -1 put in slot k |
| `Scenarios.ExitLogReports` | pixeltable/utils/video.py:159-165 | a typical ffmpeg exit log reports its frame count |
| `Scenarios.OutOfOrderArrivals` | pixeltable/utils/video.py:126-196 | notifications for frames 3, 1, 2, then the exit reporting 3, give frames 0, 1, 2 in order, then end of stream |
| `Scenarios.ExitBeforeLastNotification` | pixeltable/utils/video.py:153-178 | an exit reporting 2 frames seen before the second notification does not end the stream early |
| `Scenarios.CountBelowCursorPull` | pixeltable/utils/video.py:153-178 | at cursor 3, an exit reporting 2 frames is recorded without ending the wait, and the file numbered 4 is returned as frame 3 |
| `Scenarios.CountBelowCursorRaises` | pixeltable/utils/video.py:141-153 | the pull after that raises `IndexError` instead of ending the stream |
| `Video.FrameIterator.constructor` | pixeltable/utils/video.py:67-71 | a new iterator has not started: cursor -1, no count, empty table |
| `Video.FrameIterator.Create` | pixeltable/utils/video.py:32-44 | "file not found" iff the video does not exist; "not a file" iff it exists but is not a regular file; otherwise a fresh iterator |
| `Video.FrameIterator.StartExtraction` | pixeltable/utils/video.py:73-115 | starting moves the cursor from -1 to 0 and starts the watcher |
| `Video.FrameIterator.AddPath` | pixeltable/utils/video.py:185-196 | updates the table in place exactly as `Sequencer.AddPath` computes, and leaves it unchanged on an error |
| `Video.FrameIterator.Next` | pixeltable/utils/video.py:126-183 | one pull in place: the result, the new fields and the unconsumed events are those of `Sequencer.Pull` |
| `Video.FrameIterator.StartAndReclaim` | pixeltable/utils/video.py:130-139 | the new fields are `Sequencer.Begin` of the old ones |
| `Video.FrameIterator.AwaitFrame` | pixeltable/utils/video.py:153-183 | the loop computes `Sequencer.Wait` |
| `Video.FrameIterator.Poll` | pixeltable/utils/video.py:155-169 | one poll computes `Sequencer.Poll` |
| `Video.FrameIterator.TakeNotification` | pixeltable/utils/video.py:174-178 | one queue wait computes `Sequencer.Receive`'s first step, keeps the cursor and never shrinks the table |
| `Video.FrameIterator.Seek` | pixeltable/utils/video.py:198-206 | the loop as written computes `Runs.SeekRun` |
| `Video.FrameIterator.FastForward` | pixeltable/utils/video.py:198-206 | the corrected loop computes `Runs.FastForwardRun` |
| `Video.FrameIterator.Close` | pixeltable/utils/video.py:214-222 | the loop computes `Runs.CloseRun` |
| `Video.FrameExtractor.constructor` | pixeltable/utils/video.py:229-231 | no current frame yet |
| `Video.FrameExtractor.MakeAggregator` | pixeltable/utils/video.py:233-237 | fails as the iterator's constructor does; otherwise a fresh extractor over a fresh iterator |
| `Video.FrameExtractor.Update` | pixeltable/utils/video.py:239-241 | seek as written, then one pull whose frame becomes the current one; an exception leaves the current frame as it was |
| `Video.FrameExtractor.UpdateAt` | pixeltable/utils/video.py:239-241 | the same with the corrected seek |
| `Aggregators.SumOfIsTotalOfPresent` | pixeltable/functions/__init__.py:51-53 | the running sum is the sum of the values present |
| `Aggregators.CountOfIsNumberPresent` | pixeltable/functions/__init__.py:69-71 | the running count is the number of values present |
| `Aggregators.CountOfZero` | pixeltable/functions/__init__.py:92-94 | the count is zero iff no value was present |
| `Aggregators.SumWithinBounds` | pixeltable/functions/__init__.py:88-95 | values within [lo, hi] sum to between lo and hi times their count, so the mean lies between them |
| `Aggregators.SumCountAppend` | pixeltable/functions/__init__.py:45-73 | sum and count over two runs of updates are those of the parts added up |
| `Aggregators.SumAggregator.constructor` | pixeltable/functions/__init__.py:46-47 | the sum starts at 0 with nothing seen |
| `Aggregators.SumAggregator.MakeAggregator` | pixeltable/functions/__init__.py:48-50 | a fresh aggregator with sum 0 |
| `Aggregators.SumAggregator.Update` | pixeltable/functions/__init__.py:51-53 | adds a present value to the sum and skips a missing one |
| `Aggregators.SumAggregator.Value` | pixeltable/functions/__init__.py:54-55 | the sum of the values present in all updates |
| `Aggregators.CountAggregator.constructor` | pixeltable/functions/__init__.py:64-65 | the count starts at 0 with nothing seen |
| `Aggregators.CountAggregator.MakeAggregator` | pixeltable/functions/__init__.py:66-68 | a fresh aggregator with count 0 |
| `Aggregators.CountAggregator.Update` | pixeltable/functions/__init__.py:69-71 | counts a present value and skips a missing one |
| `Aggregators.CountAggregator.Value` | pixeltable/functions/__init__.py:72-73 | the number of values present in all updates |
| `Aggregators.MeanAggregator.constructor` | pixeltable/functions/__init__.py:82-84 | sum and count start at 0 |
| `Aggregators.MeanAggregator.MakeAggregator` | pixeltable/functions/__init__.py:85-87 | a fresh aggregator with sum and count 0 |
| `Aggregators.MeanAggregator.Update` | pixeltable/functions/__init__.py:88-91 | adds a present value to the sum and counts it; a missing value changes nothing |
| `Aggregators.MeanAggregator.Value` | pixeltable/functions/__init__.py:92-95 | no mean iff no value was present; otherwise the sum of the values present over their number |
| `Aggregators.MeanIsSumOverCount` | pixeltable/functions/__init__.py:45-95 | a mean aggregator holds what a sum and a count aggregator fed the same updates hold |
| `Schema.ResetOf` | pixeltable/metadata/schema.py:89-93 | after a reset no frame extraction is configured |
| `Schema.ResetIsDefaultWithRetention` | pixeltable/metadata/schema.py:78-93 | a reset keeps the version retention and restores every other field to its default |
| `Schema.ResetIdempotent` | pixeltable/metadata/schema.py:89-93 | two resets are one |
| `Schema.ResetFixedPoints` | pixeltable/metadata/schema.py:89-93 | a reset changes nothing exactly when no frame extraction is configured |
| `Schema.TableParameters.constructor` | pixeltable/metadata/schema.py:78-87 | the defaults: 10 retained versions, every extraction field -1 |
| `Schema.TableParameters.WithValues` | pixeltable/metadata/schema.py:78-87 | every field as given |
| `Schema.TableParameters.Reset` | pixeltable/metadata/schema.py:89-93 | the fields in place become `ResetOf` the old ones |

## Left out

- The external process and the watcher thread (video.py:76-121) are not modelled. Their
  effects are the event list. The ffmpeg command line, the docker containers, and the
  watcher's `{id}_*.jpg` filter are not modelled. Any path may be notified. A name that
  passes the filter but not the regex (`{id}_x.jpg`) raises `UnexpectedFramePath`, as in the
  source.
- The one-second queue timeout and real time are not modelled. A `Timeout` event stands for a
  wait that received nothing. `Stalled` stands for a wait without end, which the source does
  not bound.
- The random run id (`uuid4().hex[:16]`) is a parameter. It is used as a literal prefix,
  because hex digits contain no regex metacharacters.
- The frame-count estimate through ffprobe (video.py:46-64) is left out. Nothing in the
  sequencer reads it.
- `\d` matches the ASCII digits only. Python's text patterns also accept the other Unicode
  decimal digits, which `int()` reads as well; those are not modelled. `\s` is modelled in
  full: it is the set of characters `str.isspace` accepts. Log lines are already text, so a
  failed UTF-8 decode is not modelled.
- The watcher's stop and join are the ghost flag `watching`. Deleting a file is adding it to
  the ghost set `deleted`. An `os.remove` error other than "file not found" is not modelled.
- `FrameExtractor.value` (opening the image with PIL), `num_tmp_frames`, `__iter__`,
  `__enter__` and `__exit__` (which is `close`) are left out. They do no sequencing.
- Video.FrameIterator.Seek: the source's `assert frame_idx >= self.next_frame_idx` is a
  precondition. The `AssertionError` raised when it fails is not modelled.
- Video.FrameExtractor.Update: like `Seek`, it requires the index to be at or after the
  cursor. The source asserts this.
- Aggregators.SumAggregator.Update: values are integers, as the registered argument type
  `IntType()` says. Float sums and their rounding are not modelled.
- Aggregators.MeanAggregator.Value: the mean is exact real division. Python's float division
  and its rounding are not modelled.
- The function registry, `cast`, `dict_map` and the other records of `schema.py` are left out.
  They are glue or plain data.
- Delivery.ArrivalOrderIrrelevant: covers every notification followed by the exit, with no
  `Timeout` between them. An exit seen before the last notification is covered only by the
  fixed case `Scenarios.ExitBeforeLastNotification`.
- Sequencer.PullChecked: the corrected end test is stated beside `Pull`. `Video.FrameIterator`,
  `Runs` and `Delivery` keep `Pull` as written, since the two agree whenever the count is not
  below the cursor (`PullCheckedNeverIndexError`).
- `__next__` deletes the previous frame's file but keeps its path in `frame_paths`
  (video.py:136), so a slot is never cleared. The `RuntimeError`s at video.py:164 and 191 leave
  the watcher running. The model follows the code in both.

## Findings

| source | as written | input that shows it | evidently intended | confidence | as-written member | corrected member |
|---|---|---|---|---|---|---|
| pixeltable/utils/video.py:205 | `while frame_idx < self.next_frame_idx` pulls only while the target lies behind the cursor, which the assert on line 202 rules out except for `seek(-1)` on a fresh iterator | `update(5)` on a fresh extractor whose first notification is the file of frame 1 yields that file (index 0), not frame 5; `seek(-1)` on a fresh iterator pulls until the stream ends and `StopIteration` escapes | `while self.next_frame_idx < frame_idx`, so that the next pull returns frame `frame_idx` (the method's docstring: "Fast-forward to frame idx") | not executed; follows from reading the guard | `Runs.UpdateAsWrittenExample` | `Runs.UpdateAtDeliversTarget` |
| pixeltable/utils/video.py:141 | `if self.next_frame_idx == self.num_frames` ends the stream only at equality; when the exit log reports fewer frames than were delivered, the cursor passes the count, the padding at lines 146-147 is skipped and line 153 indexes past the table | at cursor 3 (frames 0 to 2 returned), an exit reporting 2 frames, then the file numbered 4: frame 3 is returned and the next pull raises `IndexError` | `if self.next_frame_idx >= self.num_frames`, so that the stream ends and line 153 stays in bounds | not executed; needs a log that under-reports the frames written | `Scenarios.CountBelowCursorRaises` | `Sequencer.PullCheckedNeverIndexError` |
