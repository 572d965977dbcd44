# Acquisition core of a motion-OCT instrument, modelled in Dafny

This project models the concurrency core of a Python system that streams
frames from OCT imaging hardware to a display and to disk. It covers three
parts:

- **The hardware control worker** (`Control.dfy`, module `Control`). This is
  `HardwareControlProcess` and its only specialisation
  `MotionOCTControlProcess`, flattened into the class `MotionOctControl`.
  - `Recv` is the status state machine of `recv_msg`, over the states
    READY, NOT_READY, ACQUIRING and EXITING and the instructions OPEN,
    CLOSE, START_ACQ, STOP_ACQ and UPDATE_ACQ. It includes the derived
    parameters `bwidth`, `halfwidth` and `time_lags_n`.
  - The class also models the non-blocking push onto the bounded frame
    queue, with its drop counter.
  - It models the index arithmetic of `acquire_frame`: reshape into
    columns, roll by A - 2, crop the rows.
- **The shared circular buffer** (`SharedCircularBuffer.dfy`). It has N
  slots with one re-entrant lock each, a write index and a single
  "acquired" token. One writer calls `put`; one reader calls `examine` and
  `release`.
- **The file-rotation writer** (`NpyWriterProcess.dfy`). `config` queues a
  new base path and size limit. One pass of the `run` loop does three
  things in order:
  1. It starts a new numbered file once the byte counter has passed the
     limit.
  2. It applies a waiting configuration.
  3. It appends at most one frame to the open file.
- **`PyOps.dfy`** holds the pieces of Python and ctypes semantics these
  rely on:
  - `None` as `Option`;
  - slice normalisation;
  - `str(n)` and `str.zfill`;
  - the 32-bit wrap of a `multiprocessing.Value('i')` cell.

Each state-changing operation in the source is a method of a class. Its
`ensures` clauses tie the new state to a pure transition function on a
datatype (`Recv`, `PutStep`, `ExamineStep`, `ReleaseStep`, `PassStep`, ...).
The properties are proved about those functions: in their own `ensures` and
in lemmas that relate several steps. Loops that the source has (the main
loops, the column-filling loop of `acquire_frame`) are `while`/`for` loops
with invariants.

Behaviour of the code that a reader might not expect:

- **Frame queue when full:** it keeps the *oldest* frames. A push onto a
  full queue drops the new frame (`OfferAllKeepsOldest`), so the queue does
  not hold the most recent pushes.
- **Message polling:** a separate timer thread polls for messages, one per
  tick, whatever the status. The main loop does not block on the message
  queue when idle.
- **A command before OPEN:** START_ACQ (from READY) and STOP_ACQ before
  any successful OPEN call methods on the scan task, which is still None.
  The AttributeError escapes `recv_msg` and ends the message-polling
  thread, so later messages, CLOSE included, are never read
  (`Control.Recv`, `Control.StepEffects`). STOP_ACQ still sets READY first.
- **NOT_READY:** the status is never set to NOT_READY. An OPEN whose
  division fails raises out of `recv_msg` and leaves the status alone
  (`Control.Recv`).
- **Byte counter after rotation:** rotation resets the counter to 0, not to
  the size of a frame. It happens at the start of the pass *after* the
  counter exceeded the limit, so the frame that crossed the limit stays in
  the old file (`RotationScenarioFill`, `RotationScenarioRotate`).
- **Negative limit:** `config` accepts any integer as the limit. With a
  negative limit, `written > max_bytes` holds on every pass, so the loop
  rotates on every pass and each file gets at most one frame. A counter
  of 0 is then still above the limit, so every bound in the model is
  stated against max(limit, 0) (`RotateIfFull`, `AppendBounded`,
  `LeftFilesFit`).
- **Old files on configure:** configuring removes the path *without* its
  `.npy` extension. An existing `base_000.npy` is therefore appended to,
  not replaced (`ReconfigureAppends`). The same holds for rotation. Next to
  both removals, the comment at NpyWriterProcess.py:61 and :75 says the
  file is deleted.
- **Write index:** the buffer's write index is a 32-bit signed cell and
  wraps; it is not monotonic (`WrapMisdirectsExamine`).
- **Slots held by the reader:** after a `put` fails on the slot the reader
  holds, the reader's token is gone but its lock is not. That slot stays
  locked for good (`FailedPutLeaks`, `LeakPersists`,
  `LeakedTargetBlocksWriter`). So the one-buffer-at-a-time rule of the
  comment at SharedCircularBuffer.py:40 holds only while no `put` has failed
  (`OneAtATime`, `NoFailedPutOneAtATime`).
- **Suffix beyond three digits:** the comment at NpyWriterProcess.py:16
  gives ZPAD = 3 as a maximum of 999 files. In fact nothing stops
  rotation there: file suffixes past 999 grow, and each
  rotation then eats one more character of the base: `run_999`, then
  `run_1000`, then `run_11001` (`SuffixOverflow`).

## Model

| member | source | states |
|---|---|---|
| PyOps.WrapI32 | src/main/python/SharedCircularBuffer.py:35-36 | the value a c_int cell holds after an assignment: in the 32-bit signed range, congruent to the assigned value modulo 2^32, and equal to it when it already fits |
| PyOps.WrapI32Add | src/main/python/Control.py:196-197 | adding k to a cell that already wrapped reads back as the wrap of the whole sum, so a count of increments is kept modulo 2^32 |
| PyOps.SliceBounds | src/main/python/Control.py:374 | the positions a step-1 slice selects: within the sequence, the literal bounds when they are in range, empty when stop is before start |
| PyOps.SliceIndex | src/main/python/Control.py:374 | one slice bound: a bound within the sequence is kept, a negative one counts from the end, and anything outside is clamped to the ends |
| PyOps.Slice | src/main/python/NpyWriterProcess.py:58 | a slice has the normalised length, and its k-th element is the element at the normalised start plus k |
| PyOps.DecimalString | src/main/python/NpyWriterProcess.py:58 | str(n) is a non-empty string of digits with no leading zero |
| PyOps.DecimalStringValue | src/main/python/NpyWriterProcess.py:58 | str(n) spells n |
| PyOps.ZFill | src/main/python/NpyWriterProcess.py:58 | zfill pads on the left with '0' up to the width and keeps the string as its suffix |
| PyOps.Pad3 | src/main/python/NpyWriterProcess.py:16 | for n < 1000, str(n).zfill(3) is three digits that spell n |
| Control.DeriveParams | src/main/python/Control.py:284-286 | bwidth is the truncated quotient alines_per_buffer / number_of_blines (bounded on both sides), halfwidth is aline_size / 2 + 1 truncated, time_lags_n is the number of lags; no result exactly when number_of_blines is 0 |
| Control.Recv | src/main/python/Control.py:266-352 | START_ACQ gives ACQUIRING only from READY and otherwise changes nothing; from READY it raises exactly when no OPEN has succeeded; STOP_ACQ always leaves READY and raises exactly when no OPEN has succeeded; OPEN copies the parameters and, unless the division fails, sets READY and the derived parameters; CLOSE only sets the exit flag; UPDATE_ACQ, unknown instructions and other objects change nothing, and UPDATE_ACQ raises exactly after an OPEN whose division failed; NOT_READY and EXITING are never entered; ACQUIRING implies an open task |
| Control.EffectiveCapacity | src/main/python/Control.py:150 | the queue bound is frame_buffer_max when positive and SEM_VALUE_MAX otherwise |
| Control.Offer | src/main/python/Control.py:190-197 | a non-blocking push succeeds exactly when the queue has room; it appends at the back on success and leaves the queue as it was when full; the bound is kept |
| Control.OfferAll | src/main/python/Control.py:190-197 | pushes with no pops keep the queued frames at the front, queue or drop each pushed frame (the two counts add up to the pushes), and keep the bound |
| Control.OfferAllKeepsOldest | src/main/python/Control.py:187-197 | k pushes with no pops onto a queue with r free places keep the first min(k, r) frames in push order and drop max(0, k - r) |
| Control.PushesFromEmpty | src/main/python/Control.py:150-152 | from an empty queue of capacity C, k pushes leave the first min(k, C) frames and max(0, k - C) drops |
| Control.FlatIndex | src/main/python/Control.py:371 | row r of raw column i comes from position halfwidth * i + r, which lies inside the flat buffer |
| Control.ReshapeColumns | src/main/python/Control.py:370-371 | after the loop, element (r, i) of b is bflat[halfwidth * i + r]: column i is the i-th run of halfwidth elements |
| Control.RollColumns | src/main/python/Control.py:372 | np.roll along the columns keeps the number of rows and the width of every row |
| Control.RollMovesColumns | src/main/python/Control.py:372 | np.roll along the columns moves column j to column (j + shift) mod A |
| Control.RollByWidthLessTwo | src/main/python/Control.py:372 | after the roll by A - 2, output column j is raw column (j + 2) mod A |
| Control.ShapeImage | src/main/python/Control.py:374 | the cropped image has as many rows as the slice [zstart:zstart + bwidth] selects out of halfwidth, each of A columns |
| Control.ShapingSteps | src/main/python/Control.py:370-374 | reshaping, rolling by A - 2 and slicing the rows give exactly the image whose row r, column j is reference[halfwidth * ((j + 2) mod A) + lo + r] |
| Control.ShapedFrame | src/main/python/Control.py:356-375 | the frame's image has alines_per_buffer columns and at most halfwidth rows, exactly bwidth of them when the crop lies inside; mot holds the 3 * number_of_blines values the driver wrote, in order; spec is the driver's spectrum |
| Control.MotionOctControl.constructor | src/main/python/Control.py:139-158 | a new worker is READY with an empty queue, no drops, nothing grabbed, no parameters and no task; the queue bound follows mp.Queue's rule |
| Control.MotionOctControl.SendMsg | src/main/python/Control.py:167-168 | a message goes to the back of the message queue |
| Control.MotionOctControl.SetExit | src/main/python/Control.py:184 | the owner sets the shared exit event |
| Control.MotionOctControl.TakeFrame | src/main/python/Control.py:170-171 | the owner's non-blocking get on the frame queue takes the oldest frame, and gives None leaving the queue empty when nothing is queued |
| Control.MotionOctControl.RecvMsg | src/main/python/Control.py:266-352 | the new status, exit flag, parameters and outcome are those of Recv |
| Control.MotionOctControl.PollMsgBuffer | src/main/python/Control.py:160-165 | a tick takes the oldest message and hands it to Recv; an empty queue or a dead timer changes nothing; a raise ends the timer thread |
| Control.MotionOctControl.AcquireFrame | src/main/python/Control.py:354-378 | None exactly when the driver's return code is non-zero; otherwise the frame built from the reference buffer through the three index steps |
| Control.MotionOctControl.Iterate | src/main/python/Control.py:187-197 | in ACQUIRING with a frame, either the frame joins the back of the queue and total_grabbed goes up by one, or the queue is full and dropped_frames goes up by one (as a c_int); otherwise queue and counters stay; at most one frame is queued or dropped |
| Control.MotionOctControl.Begin | src/main/python/Control.py:180-183 | the timer runs and the status is READY before the loop |
| Control.MotionOctControl.Finish | src/main/python/Control.py:199-201 | after the loop the timer is stopped and the status is EXITING; close() raises when no OPEN ever succeeded |
| Control.DropCount | src/main/python/Control.py:196-197 | dropped_frames is a c_int: d drops followed by ds more leave the cell at the 32-bit wrap of its start value plus d + ds |
| Control.Step | src/main/python/Control.py:160-201 | one event of the interleaving: the main loop leaves exactly at a pass that finds the exit event set, and the exit event is never cleared |
| Control.StepEffects | src/main/python/Control.py:160-201 | what each event does: leaving stops the timer and publishes EXITING; a tick hands the oldest message to Recv and a raise ends the timer; the owner's send appends, its exit sets the event, its get takes the oldest frame; a pass in ACQUIRING with return code 0 offers the shaped frame and drops it exactly when the queue is full; any other pass changes nothing; the queue bound and the c_int range are kept |
| Control.Replay | src/main/python/Control.py:160-201 | a schedule of events keeps the settings consistent (ACQUIRING only with an open task) |
| Control.ReplayExits | src/main/python/Control.py:184-201 | the main loop leaves within a schedule exactly when some pass finds the exit event set |
| Control.PassAfterExit | src/main/python/Control.py:184 | once the exit event is set, the next pass of the main loop leaves |
| Control.ExitThenPass | src/main/python/Control.py:184 | the owner setting the exit event, followed later by a pass, makes the loop leave |
| Control.ExitStays | src/main/python/Control.py:184 | once set, the exit event stays set through any schedule |
| Control.StepBooks | src/main/python/Control.py:170-197 | one event: the queue before plus what the pass queued is what the owner took plus the queue after; total_grabbed counts what was queued, dropped_frames what was dropped; at most one of either |
| Control.ReplayBooks | src/main/python/Control.py:170-197 | over a whole schedule the frame queue is a FIFO of what the loop queued and the owner took; total_grabbed counts the frames queued, dropped_frames (as a c_int) the frames dropped, at most one of either per event |
| Control.MotionOctControl.Handle | src/main/python/Control.py:160-201 | one event of the schedule leaves the fields equal to Step of the old state: the loop leaves exactly when a pass reads the exit event set, and then the timer is stopped and the status is EXITING |
| Control.MotionOctControl.Run | src/main/python/Control.py:170-201 | the state, the loop's ending and the frames the owner took are those Replay gives after Begin; the loop ends with EXITING exactly when some pass found the exit event set; the frame queue is a FIFO of the frames queued; total_grabbed counts them, dropped_frames counts the drops (as a c_int), at most one of either per event |
| SharedCircularBuffer.Target | src/main/python/SharedCircularBuffer.py:27 | put writes slot index mod N, a slot that exists |
| SharedCircularBuffer.Prod | src/main/python/SharedCircularBuffer.py:21 | np.prod of the shape is 0 exactly when some dimension is 0, and a one-dimensional shape gives its one dimension |
| SharedCircularBuffer.Create | src/main/python/SharedCircularBuffer.py:11-24 | a new buffer has N slots of 2 * prod(shape) elements, index 0, acquired -1 and every lock free |
| SharedCircularBuffer.BeginPutStep | src/main/python/SharedCircularBuffer.py:27-34 | the writer takes the target lock exactly when it is free; otherwise only the acquired token is cleared while the reader keeps its lock, which breaks the one-slot bookkeeping |
| SharedCircularBuffer.FinishPutStep | src/main/python/SharedCircularBuffer.py:29-37 | the array replaces the target slot, its lock is freed, the index advances as a c_int and is returned |
| SharedCircularBuffer.PutStep | src/main/python/SharedCircularBuffer.py:26-37 | on a free slot: only that slot changes, every lock ends as it was, the index goes up by one (exactly, below the int32 maximum) and is returned; on a slot held by the reader: no slot, lock or index changes, acquired becomes -1 and the result is -1 |
| SharedCircularBuffer.ExamineTarget | src/main/python/SharedCircularBuffer.py:41-43 | examine(i) looks at i mod N; examine() looks at (index - 1) mod N, the slot before the next write, which is N - 1 before any write |
| SharedCircularBuffer.Take | src/main/python/SharedCircularBuffer.py:43 | the reader acquiring an RLock it does not hold, or already holds, ends holding it one level deeper |
| SharedCircularBuffer.Drop | src/main/python/SharedCircularBuffer.py:57 | one release of an RLock the reader holds frees it at depth one and lowers the depth otherwise |
| SharedCircularBuffer.ExamineStep | src/main/python/SharedCircularBuffer.py:39-52 | with the token taken, nothing happens and None is returned; otherwise it succeeds exactly when the writer does not hold the slot, and then takes its lock, sets acquired to the slot and returns its contents; a failure leaves acquired -1 |
| SharedCircularBuffer.ReleaseStep | src/main/python/SharedCircularBuffer.py:54-58 | the acquired slot's lock is given back once and acquired becomes -1; with acquired -1 nothing changes; if the bookkeeping was exact, no slot is left held |
| SharedCircularBuffer.ReleaseTwice | src/main/python/SharedCircularBuffer.py:54-58 | two releases act like one |
| SharedCircularBuffer.OneAtATimeHoldsOne | src/main/python/SharedCircularBuffer.py:40 | while no put has failed, the reader holds at most one slot |
| SharedCircularBuffer.FailedPutLeaks | src/main/python/SharedCircularBuffer.py:31-34 | a put that fails leaves its slot held with no token accounting for it |
| SharedCircularBuffer.LeakPersists | src/main/python/SharedCircularBuffer.py:26-58 | once leaked, a slot stays locked whatever examine, release and put do |
| SharedCircularBuffer.LeakedTargetBlocksWriter | src/main/python/SharedCircularBuffer.py:27-34 | when the leaked slot is the write target, every later put returns -1 and the index never moves |
| SharedCircularBuffer.ContentionScenario | src/main/python/SharedCircularBuffer.py:26-58 | examine(0), a failing put and a release leave slot 0 locked, and the next put fails too |
| SharedCircularBuffer.ExamineSeesLatestPut | src/main/python/SharedCircularBuffer.py:35-42 | below the int32 maximum, examine() right after a successful put returns that put's array |
| SharedCircularBuffer.WrapMisdirectsExamine | src/main/python/SharedCircularBuffer.py:35-42 | with three slots, a put at index 2147483647 writes slot 1, the index wraps to -2147483648, and examine() then returns slot 0 |
| SharedCircularBuffer.Perform | src/main/python/SharedCircularBuffer.py:26-58 | each call of a history keeps the buffer well formed, and only a write changes the slots |
| SharedCircularBuffer.PerformAll | src/main/python/SharedCircularBuffer.py:26-58 | a legal history of calls keeps the buffer well formed, and with no write no slot changes |
| SharedCircularBuffer.NoFailedPutKeeps | src/main/python/SharedCircularBuffer.py:26-58 | from exact bookkeeping, a history of calls in which no put finds its slot taken keeps the bookkeeping exact |
| SharedCircularBuffer.NoFailedPutOneAtATime | src/main/python/SharedCircularBuffer.py:11-58 | from a new buffer, any legal history with no failing put leaves the reader holding at most the acquired slot, once |
| SharedCircularBuffer.SharedCircularBuffer.constructor | src/main/python/SharedCircularBuffer.py:11-24 | the fields are those of Create |
| SharedCircularBuffer.SharedCircularBuffer.BeginPut | src/main/python/SharedCircularBuffer.py:27-34 | the new locks and token are those of BeginPutStep |
| SharedCircularBuffer.SharedCircularBuffer.FinishPut | src/main/python/SharedCircularBuffer.py:29-37 | the new slots, locks, index and result are those of FinishPutStep |
| SharedCircularBuffer.SharedCircularBuffer.Put | src/main/python/SharedCircularBuffer.py:26-37 | the new state and result are those of PutStep |
| SharedCircularBuffer.SharedCircularBuffer.Examine | src/main/python/SharedCircularBuffer.py:39-52 | the new state and result are those of ExamineStep |
| SharedCircularBuffer.SharedCircularBuffer.Release | src/main/python/SharedCircularBuffer.py:54-58 | the new state is that of ReleaseStep |
| NpyWriterProcess.Initial | src/main/python/NpyWriterProcess.py:25-51 | before any configuration no file is open (the loop's locals, lines 48-51), and the path is unset, the limit 0 and the configuration queue empty (`__init__`, lines 25-27) |
| NpyWriterProcess.Pad | src/main/python/NpyWriterProcess.py:58 | str(i).zfill(ZPAD) is all digits, at least three long, and exactly three digits spelling i when i < 1000 |
| NpyWriterProcess.PadZero | src/main/python/NpyWriterProcess.py:67 | the first suffix is "000" |
| NpyWriterProcess.RotatedPath | src/main/python/NpyWriterProcess.py:58 | the next path is the old one without its last three characters, followed by the padded index |
| NpyWriterProcess.RotatedPathKeepsBase | src/main/python/NpyWriterProcess.py:58 | replacing a three-character suffix by an index below 1000 keeps the base and the length |
| NpyWriterProcess.SuffixOverflow | src/main/python/NpyWriterProcess.py:16 | past 999 the suffix grows: run_999 becomes run_1000, which becomes run_11001 |
| NpyWriterProcess.SuffixTo1000 | src/main/python/NpyWriterProcess.py:58 | the rotation after run_999 gives run_1000 |
| NpyWriterProcess.SuffixTo1001 | src/main/python/NpyWriterProcess.py:58 | the rotation after run_1000 gives run_11001, one character of the base lost |
| NpyWriterProcess.Remove | src/main/python/NpyWriterProcess.py:60-61 | removing the open path takes out that one name and never a .npy file |
| NpyWriterProcess.GrowthKeeps | src/main/python/NpyWriterProcess.py:53-86 | a finished stretch stays recorded (in its file at its position, within max(limit, 0)) across any change that only makes .npy files grow |
| NpyWriterProcess.AllGrowthKeeps | src/main/python/NpyWriterProcess.py:53-86 | the same for every finished stretch at once |
| NpyWriterProcess.FinishedRecorded | src/main/python/NpyWriterProcess.py:54-79 | leaving the open file records its stretch: still in the file, all but its last frame within max(limit, 0), and past the limit when the file is left by rotation |
| NpyWriterProcess.RotateBounded | src/main/python/NpyWriterProcess.py:54-62 | a rotation past the limit keeps the bound: the counter is the bytes of the new (empty) stretch and every finished stretch is recorded |
| NpyWriterProcess.ConfigBounded | src/main/python/NpyWriterProcess.py:63-79 | taking a configuration keeps the bound |
| NpyWriterProcess.AppendBounded | src/main/python/NpyWriterProcess.py:80-86 | appending a frame while the counter is within max(limit, 0) keeps the bound: the counter is the bytes of the stretch so far, which runs at most one frame past max(limit, 0) |
| NpyWriterProcess.Rotate | src/main/python/NpyWriterProcess.py:54-62 | the counter goes to 0, the index up by one, the path becomes the rotated path, its .npy is the open file, and no .npy file loses anything; the new stretch of writing starts at the end of the new file, and the one left is recorded as ended by rotation |
| NpyWriterProcess.ApplyConfig | src/main/python/NpyWriterProcess.py:65-76 | the oldest configuration is taken: index 0, counter 0, the new limit, the path base + "_000" and its .npy as the open file; no .npy file loses anything; the new stretch starts at the end of base_000.npy, and the stretch of the file left, if any, is recorded as finished |
| NpyWriterProcess.AppendFrame | src/main/python/NpyWriterProcess.py:80-86 | the oldest waiting frame is counted in full and appended after what the open file holds; with none waiting nothing changes |
| NpyWriterProcess.RotateIfFull | src/main/python/NpyWriterProcess.py:54-62 | rotation happens only when the counter is strictly past the limit, and afterwards the counter is within max(limit, 0) |
| NpyWriterProcess.RotationFields | src/main/python/NpyWriterProcess.py:54-62 | a rotation sets the counter, index, path, files and open file as the loop assigns them, and keeps the base path, the limit and both queues |
| NpyWriterProcess.RotateKeeps | src/main/python/NpyWriterProcess.py:54-62 | the rotation check, whether or not it rotates, keeps both the bound on the counter and the naming of the open file |
| NpyWriterProcess.RotateKeepsNamed | src/main/python/NpyWriterProcess.py:56-58 | after a rotation below index 1000 the open path is still the configured base followed by the padded index |
| NpyWriterProcess.NextName | src/main/python/NpyWriterProcess.py:58 | if the open path is the base of the configured path followed by the padded index, the rotated path is that base followed by the padded next index |
| NpyWriterProcess.NamedAfterRotation | src/main/python/NpyWriterProcess.py:56-58 | a state with the same base path, the next index and the rotated path keeps the open path equal to the base followed by the padded index |
| NpyWriterProcess.ConfigIfAny | src/main/python/NpyWriterProcess.py:63-79 | a waiting configuration is applied, otherwise nothing changes; the counter stays within max(limit, 0) |
| NpyWriterProcess.ConfigFields | src/main/python/NpyWriterProcess.py:63-76 | taking a configuration sets the queue, index, base path, limit, counter, path, files and open file as the loop assigns them, and keeps the frame queue |
| NpyWriterProcess.AppendIfOpen | src/main/python/NpyWriterProcess.py:80-86 | no frame is consumed while no file is open; appending keeps every existing file's frames as a prefix |
| NpyWriterProcess.Rotations | src/main/python/NpyWriterProcess.py:54-79 | a configuration takes precedence over a rotation; hitting the limit exactly does not rotate; the counter ends at 0 after either |
| NpyWriterProcess.PassStep | src/main/python/NpyWriterProcess.py:53-86 | one pass keeps the bound (the counter is the bytes appended to the open file since it was opened, at most one frame past max(limit, 0), and every file left keeps its frames), keeps the open path equal to base + padded index, handles precedence and strict rotation as above, consumes a frame exactly when a file is open and appends it whole and last, and never shortens a .npy file |
| NpyWriterProcess.ConfigStep | src/main/python/NpyWriterProcess.py:39-40 | config queues [path, size] at the back when fewer than eight are waiting and otherwise changes nothing (queue.Full) |
| NpyWriterProcess.Apply | src/main/python/NpyWriterProcess.py:36-40 | configure, enqueue or a pass each keep the bound and the path naming |
| NpyWriterProcess.Replay | src/main/python/NpyWriterProcess.py:53-86 | the bound (counter equal to the bytes appended to the open file, at most one frame past max(limit, 0); every file left still holds its frames) and the path naming hold after any schedule |
| NpyWriterProcess.ReplayNext | src/main/python/NpyWriterProcess.py:53 | a schedule one event longer ends one event later |
| NpyWriterProcess.RotationsKeepHistory | src/main/python/NpyWriterProcess.py:54-79 | rotating and taking a configuration only add finished stretches after those already recorded |
| NpyWriterProcess.ApplyKeepsHistory | src/main/python/NpyWriterProcess.py:36-86 | a step only adds finished stretches after those already recorded |
| NpyWriterProcess.ReplayKeepsHistory | src/main/python/NpyWriterProcess.py:53-86 | no finished stretch is ever forgotten |
| NpyWriterProcess.LeftFilesFit | src/main/python/NpyWriterProcess.py:53-86 | from a fresh worker over any files and any schedule, every file the loop has left still holds, where its stretch began, the frames appended to it; all but the last of them fit max(limit, 0), and a file left by rotation went past it |
| NpyWriterProcess.NameAfterConfig | src/main/python/NpyWriterProcess.py:67 | below index 1000 the open path is base + "_" + the three-digit index, four characters longer than the base |
| NpyWriterProcess.PassWithinLimit | src/main/python/NpyWriterProcess.py:80-86 | a pass within the limit appends the next frame to the open file and changes nothing else |
| NpyWriterProcess.PassPastLimit | src/main/python/NpyWriterProcess.py:54-62 | a pass past the limit opens the next numbered file with the counter at 0 and puts the frame there |
| NpyWriterProcess.RotationScenarioConfig | src/main/python/NpyWriterProcess.py:63-86 | with a 1000-byte limit and 400-byte frames, the first pass opens run_000.npy and writes one frame |
| NpyWriterProcess.RotationScenarioFill | src/main/python/NpyWriterProcess.py:80-86 | the next two passes bring run_000.npy to three frames and 1200 bytes |
| NpyWriterProcess.RotationScenarioRotate | src/main/python/NpyWriterProcess.py:54-62 | the fourth pass opens run_001.npy with the counter reset, leaving run_000.npy with three frames |
| NpyWriterProcess.ReconfigureAppends | src/main/python/NpyWriterProcess.py:74-76 | configuring a base whose base_000.npy exists appends to that file |
| NpyWriterProcess.NpyWriterProcess.constructor | src/main/python/NpyWriterProcess.py:20-31 | a new worker over the given files models Initial: no path, a limit of 0, empty queues and no file open |
| NpyWriterProcess.NpyWriterProcess.Enqueue | src/main/python/NpyWriterProcess.py:36-37 | a frame goes to the back of the write queue |
| NpyWriterProcess.NpyWriterProcess.Config | src/main/python/NpyWriterProcess.py:39-40 | accepted exactly when fewer than eight configurations are waiting, and then queued at the back |
| NpyWriterProcess.NpyWriterProcess.CheckRotation | src/main/python/NpyWriterProcess.py:54-62 | the fields and the loop's locals model RotateIfFull of the state they modelled |
| NpyWriterProcess.NpyWriterProcess.PollConfig | src/main/python/NpyWriterProcess.py:63-79 | the fields and the loop's locals model ConfigIfAny of the state they modelled |
| NpyWriterProcess.NpyWriterProcess.WriteFrame | src/main/python/NpyWriterProcess.py:80-86 | the fields and the loop's locals model AppendIfOpen of the state they modelled |
| NpyWriterProcess.NpyWriterProcess.Step | src/main/python/NpyWriterProcess.py:54-86 | one loop body over the fields and locals models PassStep of the state they modelled |
| NpyWriterProcess.NpyWriterProcess.Handle | src/main/python/NpyWriterProcess.py:36-86 | one event (config, enqueue or a loop pass) leaves the fields and locals modelling Apply of the state they modelled |
| NpyWriterProcess.NpyWriterProcess.Run | src/main/python/NpyWriterProcess.py:42-88 | after the schedule, the fields and files are those Replay gives from a worker with no file open, and the ghost result lists the finished stretches, so LeftFilesFit applies to them |

## Left out

- Device driver calls (nidaqmx, PyIMAQ) are foreign code. A driver grab is
  a parameter: a return code, the values written into the reference and
  motion buffers, and the spectrum. `_buffer_scan_samples` reaches the
  device only through them.
- Control.Recv: assumes that the `scansig` of an OPEN message is a
  `ScanSignals` object. In the model, UPDATE_ACQ raises after an OPEN whose
  division failed. Before any OPEN it does not raise, because `scansig` is
  still None.
- Control.Recv: the derived `bwidth` and `halfwidth` use integer division.
  The source truncates a float quotient (Control.py:284 and 285), which
  differs once the operands pass 2^53.
- Control.Recv: the driver calls of OPEN (Control.py:289-322), START_ACQ,
  STOP_ACQ and CLOSE are taken never to raise. In the source such a raise
  would escape `recv_msg` and end the `RepeatTimer` thread, as the
  AttributeError cases do in the model.
- Control.MotionOctControl.AcquireFrame: the image holds the elements
  before `np.abs`. Element types are abstract, so the complex64 and
  float32 casts are not modelled.
- Control.MotionOctControl.SendMsg: never fails. The unbounded message
  queue's SEM_VALUE_MAX bound would only raise after 2^31 - 1 messages.
- NpyWriterProcess.NpyWriterProcess.Enqueue: never blocks. The default
  queue bound is not modelled, for the same reason.
- Concurrency is represented by explicit schedules of atomic steps, in
  `Control.MotionOctControl.Run` and `NpyWriterProcess.NpyWriterProcess.Run`:
  - the message-polling thread (`RepeatTimer`);
  - the owner process;
  - the writer and reader of the circular buffer, as separately callable
    halves of `put`.
- The following are not modelled:
  - races inside one step;
  - the delay of a `multiprocessing.Queue` feeder thread;
  - the one-second wait of the writer's frame `get`;
  - process start, join and terminate.
- `RLock` ownership is represented by the three holders Free, Writer and
  Reader(depth). Process and thread identities are not modelled.
- SharedCircularBuffer.ExamineStep: returns a copy of the slot. The source
  returns a live `np.frombuffer` view that later puts overwrite. The dtype
  reinterpretation and the reshape to `shape` are not modelled.
- SharedCircularBuffer.PutStep: requires the array to have the slot's
  length. numpy broadcasting and shape errors are not modelled.
- SharedCircularBuffer.Create: requires N > 0. With N = 0, put and examine
  raise ZeroDivisionError.
- The NumPy file format and the real filesystem are reduced to a map from
  file name to appended frames. `os.path.exists`/`os.remove` are a removal
  from that map. Opening an `NpyAppendArray` writes nothing until the
  first append.
- The `NpyWriterProcess` loop's orphan check (`os.getppid()`) and its exit
  event are the end of the schedule. `del open_file` and every `print` have
  no effect in the model.
- `str(fpath)` and `int(maxsize)` conversions in `config`: the model takes
  a string and an integer.
- Sizes (`aline_size`, `alines_per_buffer`, `number_of_blines`) are natural
  numbers. Negative sizes, where Python's truncation and numpy's shape
  errors matter, are not modelled. `None` values in OPEN messages are not
  modelled either.
- `_time_started` (a clock reading) and the extra OPEN fields (`niconfig`,
  `apod_window`, `lambda_data`, `phase_corr_apod_filter_2d`, `npeak`,
  `nrepeat`) only reach the driver. They are carried or dropped without
  effect.
- The `setup`/`close` base-class hooks are treated as follows:
  `setup` is a no-op; `close` is folded into `Finish`.
- `get_frame_buffer` only hands the frame queue to the owner. The owner's
  non-blocking gets on that queue are `Control.MotionOctControl.TakeFrame`.
  Its blocking gets and the `get_buffer` accessor are left out.
- The `Producer` demo and the `__main__` harness of the circular buffer
  file are left out.
- The Qt GUI (`main.py`, `tabs.py`, `Widgets/`) is left out.
