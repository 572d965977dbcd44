/** The hardware control worker: its status state machine, the bounded frame
    queue it feeds without blocking, and the index arithmetic that shapes a
    motion-OCT frame. HardwareControlProcess and its only specialisation,
    MotionOCTControlProcess, are flattened into one class. */
module Control {
  import opened PyOps

  // Instruction codes (Control.py:20-25).
  const VOID: int := 0
  const INSTR_OPEN: int := 1
  const INSTR_CLOSE: int := 2
  const INSTR_STOP_ACQ: int := 3
  const INSTR_START_ACQ: int := 4
  const INSTR_UPDATE_ACQ: int := 5

  /** The value of the shared status cell (Control.py:28-31). Only the
      identity of the state matters: the worker compares and assigns it. */
  datatype Status = Ready | NotReady | Acquiring | Exiting

  /** The fields of a MotionOCTMessage that the worker computes with; the
      others (device names, scan signals, windows) only reach the driver. */
  datatype OpenParams = OpenParams(
    alineSize: nat, alinesPerBuffer: nat, numberOfBlines: nat,
    zstart: int, npeak: int, nrepeat: int, timeLags: seq<int>)

  /** What the message queue can deliver: a MotionOCTMessage or any other object. */
  datatype Message = MotionOctMessage(instruction: int, params: OpenParams) | OtherMessage

  /** bwidth, halfwidth and time_lags_n, computed when OPEN is received. */
  datatype Derived = Derived(bwidth: nat, halfwidth: nat, timeLagsN: nat)

  datatype PyError = ZeroDivisionError | AttributeError

  /** How a handler ended: normally, or by raising out of it. */
  datatype Outcome = Done | Raised(error: PyError)

  /** The derived parameters of an OPEN message; None when
      int(alines_per_buffer / number_of_blines) divides by zero. */
  function DeriveParams(p: OpenParams): (r: Option<Derived>)
    ensures r.None? <==> p.numberOfBlines == 0
    ensures r.Some? ==>
      r.value.bwidth * p.numberOfBlines <= p.alinesPerBuffer < (r.value.bwidth + 1) * p.numberOfBlines
    ensures r.Some? ==> 2 * r.value.halfwidth - 2 <= p.alineSize < 2 * r.value.halfwidth
    ensures r.Some? ==> r.value.timeLagsN == |p.timeLags|
  {
    if p.numberOfBlines == 0 then None
    else
      // For operands >= 0, truncating a true quotient is floor division.
      Some(Derived(p.alinesPerBuffer / p.numberOfBlines, p.alineSize / 2 + 1, |p.timeLags|))
  }

  // ---------------------------------------------------------------------------
  // The message handler recv_msg as a transition on the state it touches.

  /** The part of the worker's state that recv_msg reads and writes.
      taskOpen records that _scan_task and _scan_writer are no longer None. */
  datatype Settings = Settings(
    status: Status, exitSet: bool, taskOpen: bool,
    params: Option<OpenParams>, derived: Option<Derived>)

  /** Acquiring needs an open scan task, and the task is only opened after
      the parameters and derived parameters have been set. */
  predicate Consistent(s: Settings) {
    && (s.status == Acquiring ==> s.taskOpen)
    && (s.taskOpen ==> s.params.Some? && s.derived.Some?)
  }

  predicate IsInstr(m: Message, instr: int) {
    m.MotionOctMessage? && m.instruction == instr
  }

  /** MotionOCTControlProcess.recv_msg: the new settings and how the handler ended. */
  function Recv(s: Settings, m: Message): (r: (Settings, Outcome))
    ensures Consistent(s) ==> Consistent(r.0)
    // Nothing ever assigns NOT_READY, and no message leads to EXITING.
    ensures r.0.status == NotReady ==> s.status == NotReady
    ensures r.0.status == Exiting ==> s.status == Exiting
    // OPEN: parameters copied; on success derived parameters set and READY.
    ensures IsInstr(m, INSTR_OPEN) ==> r.0.params == Some(m.params) && r.0.exitSet == s.exitSet
    ensures IsInstr(m, INSTR_OPEN) && m.params.numberOfBlines != 0 ==>
      && r.1 == Done && r.0.status == Ready && r.0.taskOpen
      && r.0.derived == DeriveParams(m.params)
    ensures IsInstr(m, INSTR_OPEN) && m.params.numberOfBlines == 0 ==>
      r == (s.(params := Some(m.params)), Raised(ZeroDivisionError))
    // CLOSE: only the exit flag.
    ensures IsInstr(m, INSTR_CLOSE) ==> r == (s.(exitSet := true), Done)
    // START_ACQ: ACQUIRING only from READY; otherwise nothing changes.
    ensures IsInstr(m, INSTR_START_ACQ) ==>
      (r.0.status == Acquiring <==> s.status == Acquiring || (s.status == Ready && s.taskOpen))
    ensures IsInstr(m, INSTR_START_ACQ) && s.status != Ready ==> r == (s, Done)
    ensures IsInstr(m, INSTR_START_ACQ) ==> r.0 == s || r.0 == s.(status := Acquiring)
    // From READY, starting before any OPEN succeeded raises on the None task.
    ensures IsInstr(m, INSTR_START_ACQ) && s.status == Ready ==> (r.1 == Done <==> s.taskOpen)
    // STOP_ACQ: READY whatever the status was; it raises when no task is open.
    ensures IsInstr(m, INSTR_STOP_ACQ) ==> r.0 == s.(status := Ready)
    ensures IsInstr(m, INSTR_STOP_ACQ) ==> (r.1 == Done <==> s.taskOpen)
    // UPDATE_ACQ, unknown instructions and other objects change nothing.
    // UPDATE_ACQ raises only after an OPEN whose division failed.
    ensures IsInstr(m, INSTR_UPDATE_ACQ) ==> r.0 == s
    ensures IsInstr(m, INSTR_UPDATE_ACQ) ==> (r.1 == Done <==> s.params.None? || s.taskOpen)
    ensures (&& !IsInstr(m, INSTR_OPEN) && !IsInstr(m, INSTR_CLOSE) && !IsInstr(m, INSTR_START_ACQ)
             && !IsInstr(m, INSTR_STOP_ACQ) && !IsInstr(m, INSTR_UPDATE_ACQ)) ==> r == (s, Done)
  {
    match m
    case OtherMessage => (s, Done)
    case MotionOctMessage(instr, p) =>
      if instr == INSTR_OPEN then
        match DeriveParams(p)
        case None => (s.(params := Some(p)), Raised(ZeroDivisionError))
        case Some(d) =>
          (s.(params := Some(p), derived := Some(d), taskOpen := true, status := Ready), Done)
      else if instr == INSTR_CLOSE then
        (s.(exitSet := true), Done)
      else if instr == INSTR_START_ACQ then
        if s.status != Ready then (s, Done)
        // _buffer_scan_samples or _scan_task.start() on a None handle.
        else if !s.taskOpen then (s, Raised(AttributeError))
        else (s.(status := Acquiring), Done)
      else if instr == INSTR_STOP_ACQ then
        // The status is written before _scan_task.stop() can raise.
        (s.(status := Ready), if s.taskOpen then Done else Raised(AttributeError))
      else if instr == INSTR_UPDATE_ACQ then
        // Once scansig is set, _scan_writer must be too.
        (s, if s.params.Some? && !s.taskOpen then Raised(AttributeError) else Done)
      else
        (s, Done)
  }

  // ---------------------------------------------------------------------------
  // The frame queue: mp.Queue(maxsize) with put(f, timeout=False).

  /** Linux's SEM_VALUE_MAX: the bound mp.Queue uses when maxsize <= 0. */
  const SEM_VALUE_MAX: nat := 0x7FFF_FFFF

  function EffectiveCapacity(maxsize: int): (c: nat)
    ensures c > 0
    ensures maxsize > 0 ==> c == maxsize
    ensures maxsize <= 0 ==> c == SEM_VALUE_MAX
  {
    if maxsize <= 0 then SEM_VALUE_MAX else maxsize
  }

  /** One non-blocking push: the new queue and whether f was accepted.
      A full queue drops f itself; the frames already queued stay. */
  function Offer<F>(q: seq<F>, cap: nat, f: F): (r: (seq<F>, bool))
    ensures r.1 <==> |q| < cap
    ensures r.0 == if r.1 then q + [f] else q
    ensures |q| <= cap ==> |r.0| <= cap
  {
    if |q| < cap then (q + [f], true) else (q, false)
  }

  /** Pushes fs in order with no pops: the queue left and the number of drops. */
  function OfferAll<F>(q: seq<F>, cap: nat, fs: seq<F>): (r: (seq<F>, nat))
    // The frames already queued stay at the front; each push is either
    // queued or counted as a drop; the bound is kept.
    ensures q <= r.0
    ensures |r.0| - |q| + r.1 == |fs|
    ensures |q| <= cap ==> |r.0| <= cap
    decreases |fs|
  {
    if fs == [] then (q, 0)
    else
      var (q1, ok) := Offer(q, cap, fs[0]);
      var (q2, d) := OfferAll(q1, cap, fs[1..]);
      (q2, if ok then d else d + 1)
  }

  /** k pushes onto a queue with room cap - |q| keep the first min(k, room)
      frames, in push order, and drop the other max(0, k - room). */
  lemma {:induction false} OfferAllKeepsOldest<F>(q: seq<F>, cap: nat, fs: seq<F>)
    requires |q| <= cap
    ensures OfferAll(q, cap, fs).0 == q + fs[..Min(|fs|, cap - |q|)]
    ensures OfferAll(q, cap, fs).1 == Max(0, |fs| - (cap - |q|))
    decreases |fs|
  {
    if fs != [] {
      var (q1, ok) := Offer(q, cap, fs[0]);
      OfferAllKeepsOldest(q1, cap, fs[1..]);
      if ok {
        assert q1 + fs[1..][..Min(|fs| - 1, cap - |q1|)] == q + fs[..Min(|fs|, cap - |q|)];
      } else {
        assert fs[1..][..Min(|fs| - 1, cap - |q1|)] == [] == fs[..Min(|fs|, cap - |q|)];
      }
    }
  }

  /** From an empty queue of capacity C: the first min(k, C) frames, and max(0, k - C) drops. */
  lemma PushesFromEmpty<F>(cap: nat, fs: seq<F>)
    ensures OfferAll([], cap, fs) == (fs[..Min(|fs|, cap)], Max(0, |fs| - cap))
  {
    OfferAllKeepsOldest([], cap, fs);
    assert [] + fs[..Min(|fs|, cap)] == fs[..Min(|fs|, cap)];
  }

  /** The dropped_frames cell counts as a c_int: d drops and then ds more
      leave it where d + ds drops from the same start would. */
  lemma DropCount(start: int, d: nat, ds: nat, mid: int, after: int)
    requires mid == WrapI32(start + d)
    requires after == WrapI32(mid + ds)
    ensures after == WrapI32(start + (d + ds))
  {
    WrapI32Add(start + d, ds);
    assert start + d + ds == start + (d + ds);
  }

  // ---------------------------------------------------------------------------
  // Frame shaping in acquire_frame.

  /** A motion-OCT frame: the cropped magnitude image b (rows of columns),
      the motion estimate mot and the spectrum spec. */
  datatype MotionFrame<E> = MotionFrame(b: seq<seq<E>>, mot: seq<E>, spec: seq<E>)

  /** What one call into the driver yields: octMotion's return code, the
      values it writes into the reference and motion buffers by position,
      and the spectrum copy. */
  datatype Grab<E> = Grab(rval: int, reference: nat -> E, motion: nat -> E, spectrum: seq<E>)

  /** The position in the flat buffer of row r of raw column i. */
  function FlatIndex(halfwidth: nat, alines: nat, i: nat, r: nat): (k: nat)
    requires i < alines && r < halfwidth
    ensures k < halfwidth * alines
  {
    assert halfwidth * i + r < halfwidth * (i + 1) <= halfwidth * alines;
    halfwidth * i + r
  }

  /** The loop of Control.py:370-371: column i of b is the i-th run of
      halfwidth elements of bflat. */
  method ReshapeColumns<E(0)>(bflat: seq<E>, halfwidth: nat, alines: nat) returns (b: array2<E>)
    requires |bflat| == halfwidth * alines
    ensures b.Length0 == halfwidth && b.Length1 == alines
    ensures forall r, i | 0 <= r < halfwidth && 0 <= i < alines ::
      b[r, i] == bflat[FlatIndex(halfwidth, alines, i, r)]
  {
    b := new E[halfwidth, alines];
    for i := 0 to alines
      invariant forall r, c | 0 <= r < halfwidth && 0 <= c < i ::
        b[r, c] == bflat[FlatIndex(halfwidth, alines, c, r)]
    {
      for r := 0 to halfwidth
        invariant forall r', c | 0 <= r' < halfwidth && 0 <= c < i ::
          b[r', c] == bflat[FlatIndex(halfwidth, alines, c, r')]
        invariant forall r' | 0 <= r' < r :: b[r', i] == bflat[FlatIndex(halfwidth, alines, i, r')]
      {
        b[r, i] := bflat[FlatIndex(halfwidth, alines, i, r)];
      }
    }
  }

  /** The rows of a two-dimensional array. */
  function Rows<E>(b: array2<E>): (rows: seq<seq<E>>)
    reads b
    ensures |rows| == b.Length0
    ensures forall r | 0 <= r < |rows| :: |rows[r]| == b.Length1
    ensures forall r, c | 0 <= r < b.Length0 && 0 <= c < b.Length1 :: rows[r][c] == b[r, c]
  {
    seq(b.Length0, r requires 0 <= r < b.Length0 reads b =>
      seq(b.Length1, c requires 0 <= c < b.Length1 reads b => b[r, c]))
  }

  predicate Rectangular<E>(rows: seq<seq<E>>, width: nat) {
    forall r | 0 <= r < |rows| :: |rows[r]| == width
  }

  lemma ModBack(j: int, shift: int, w: int)
    requires w > 0
    ensures ((j + shift) % w - shift) % w == j % w
  {
    var q := (j + shift) / w;
    assert (j + shift) % w - shift == j - q * w;
    ModMultiple(j, -q, w);
  }

  lemma RollIndexInverse(j: int, shift: int, w: int)
    requires 0 <= j < w
    ensures 0 <= (j + shift) % w < w
    ensures ((j + shift) % w - shift) % w == j
  {
    ModBack(j, shift, w);
    ModMultiple(j, 0, w);
  }

  /** np.roll(rows, shift, axis=1) on rows of width columns: the shape is
      kept (RollMovesColumns says where each element goes). */
  function RollColumns<E>(rows: seq<seq<E>>, width: nat, shift: int): (rolled: seq<seq<E>>)
    requires Rectangular(rows, width)
    ensures |rolled| == |rows| && Rectangular(rolled, width)
  {
    seq(|rows|, r requires 0 <= r < |rows| =>
      seq(width, j requires 0 <= j < width => rows[r][(j - shift) % width]))
  }

  /** Rolling by shift moves the element in column j to column (j + shift) mod width. */
  lemma {:induction false} RollMovesColumns<E>(rows: seq<seq<E>>, width: nat, shift: int)
    requires Rectangular(rows, width)
    ensures var rolled := RollColumns(rows, width, shift);
      forall r, j | 0 <= r < |rows| && 0 <= j < width :: rolled[r][(j + shift) % width] == rows[r][j]
  {
    var rolled := RollColumns(rows, width, shift);
    forall r, j | 0 <= r < |rows| && 0 <= j < width
      ensures rolled[r][(j + shift) % width] == rows[r][j]
    {
      RollIndexInverse(j, shift, width);
    }
  }

  /** The roll by A - 2 of Control.py:372: output column j is raw column (j + 2) mod A. */
  lemma {:induction false} RollByWidthLessTwo<E>(rows: seq<seq<E>>, width: nat)
    requires Rectangular(rows, width)
    ensures var rolled := RollColumns(rows, width, width as int - 2);
      forall r, j | 0 <= r < |rows| && 0 <= j < width :: rolled[r][j] == rows[r][(j + 2) % width]
  {
    var rolled := RollColumns(rows, width, width as int - 2);
    forall r, j | 0 <= r < |rows| && 0 <= j < width
      ensures rolled[r][j] == rows[r][(j + 2) % width]
    {
      ModMultiple(j + 2, -1, width);
    }
  }

  /** The image of a successful acquire_frame, stated directly by indices:
      row r of the crop, column j of the roll, is row lo + r of raw column
      (j + 2) mod A of the flat reference buffer, where [lo, hi) is what the
      row slice [zstart:zstart + bwidth] selects out of halfwidth rows. */
  function ShapeImage<E>(reference: nat -> E, halfwidth: nat, alines: nat, zstart: int, bwidth: nat)
    : (b: seq<seq<E>>)
    ensures |b| == SliceBounds(halfwidth, zstart, zstart + bwidth).1 - SliceBounds(halfwidth, zstart, zstart + bwidth).0
    ensures Rectangular(b, alines)
  {
    var bounds := SliceBounds(halfwidth, zstart, zstart + bwidth);
    seq(bounds.1 - bounds.0, r requires 0 <= r < bounds.1 - bounds.0 =>
      seq(alines, j requires 0 <= j < alines => reference(halfwidth * ((j + 2) % alines) + bounds.0 + r)))
  }

  /** Reshaping, rolling by A - 2 and slicing rows give ShapeImage. */
  lemma {:induction false} ShapingSteps<E>(reference: nat -> E, rows: seq<seq<E>>, halfwidth: nat, alines: nat,
                                          zstart: int, bwidth: nat)
    requires |rows| == halfwidth && Rectangular(rows, alines)
    requires forall r, i | 0 <= r < halfwidth && 0 <= i < alines :: rows[r][i] == reference(halfwidth * i + r)
    ensures Slice(RollColumns(rows, alines, alines as int - 2), zstart, zstart + bwidth)
         == ShapeImage(reference, halfwidth, alines, zstart, bwidth)
  {
    var rolled := RollColumns(rows, alines, alines as int - 2);
    var b := Slice(rolled, zstart, zstart + bwidth);
    var want := ShapeImage(reference, halfwidth, alines, zstart, bwidth);
    var lo := SliceBounds(halfwidth, zstart, zstart + bwidth).0;
    RollByWidthLessTwo(rows, alines);
    forall r | 0 <= r < |b| ensures b[r] == want[r] {
      forall j | 0 <= j < alines ensures b[r][j] == want[r][j] {
        assert b[r][j] == rolled[lo + r][j] == rows[lo + r][(j + 2) % alines];
      }
    }
  }

  /** Rows read out of the reshaped flat copy of the reference buffer hold
      the reference buffer's elements by position. */
  lemma FlatRows<E>(rows: seq<seq<E>>, bflat: seq<E>, reference: nat -> E, halfwidth: nat, alines: nat)
    requires |bflat| == halfwidth * alines
    requires forall k | 0 <= k < halfwidth * alines :: bflat[k] == reference(k)
    requires |rows| == halfwidth && Rectangular(rows, alines)
    requires forall r, i | 0 <= r < halfwidth && 0 <= i < alines ::
      rows[r][i] == bflat[FlatIndex(halfwidth, alines, i, r)]
    ensures forall r, i | 0 <= r < halfwidth && 0 <= i < alines :: rows[r][i] == reference(halfwidth * i + r)
  {
    forall r, i | 0 <= r < halfwidth && 0 <= i < alines ensures rows[r][i] == reference(halfwidth * i + r) {
      var k := FlatIndex(halfwidth, alines, i, r);
      assert rows[r][i] == bflat[k] && k == halfwidth * i + r;
    }
  }

  /** The frame acquire_frame returns for a driver grab with return code 0. */
  function ShapedFrame<E>(p: OpenParams, d: Derived, g: Grab<E>): (f: MotionFrame<E>)
    // An image of at most halfwidth rows (bwidth when the crop fits) of
    // alines_per_buffer columns, 3 * number_of_blines motion values and the
    // spectrum as the driver gave it.
    ensures Rectangular(f.b, p.alinesPerBuffer) && |f.b| <= d.halfwidth
    ensures 0 <= p.zstart && p.zstart + d.bwidth <= d.halfwidth ==> |f.b| == d.bwidth
    ensures |f.mot| == 3 * p.numberOfBlines && forall k | 0 <= k < |f.mot| :: f.mot[k] == g.motion(k)
    ensures f.spec == g.spectrum
  {
    MotionFrame(
      ShapeImage(g.reference, d.halfwidth, p.alinesPerBuffer, p.zstart, d.bwidth),
      seq(3 * p.numberOfBlines, k requires 0 <= k => g.motion(k)),
      g.spectrum)
  }

  /** The main loop's view of one step of the schedule that interleaves it
      with the message-polling timer and the owner process. OwnerTake is the
      owner's non-blocking get on the queue that get_frame_buffer hands out. */
  datatype Event<E> = Tick | Pass(grab: Grab<E>) | OwnerSend(m: Message) | OwnerExit | OwnerTake

  /** The worker's state as a value: what recv_msg touches, whether the
      timer thread runs, both queues and both counters. */
  datatype Worker<E> = Worker(
    s: Settings, pollerAlive: bool, msgQueue: seq<Message>,
    frameQueue: seq<MotionFrame<E>>, droppedFrames: int, totalGrabbed: nat)

  /** One tick of the RepeatTimer (Control.py:160-165). */
  function PollTick<E>(w: Worker<E>): Worker<E> {
    if !w.pollerAlive || w.msgQueue == [] then w
    else
      var (s, o) := Recv(w.s, w.msgQueue[0]);
      w.(s := s, msgQueue := w.msgQueue[1..], pollerAlive := o.Done?)
  }

  /** The body of a pass of the main loop (Control.py:187-197): in
      ACQUIRING with return code 0, push the shaped frame without blocking. */
  function Acquire<E>(w: Worker<E>, cap: nat, g: Grab<E>): Worker<E>
    requires Consistent(w.s)
  {
    if w.s.status == Acquiring && g.rval == 0 then
      var f := ShapedFrame(w.s.params.value, w.s.derived.value, g);
      if |w.frameQueue| < cap then w.(frameQueue := w.frameQueue + [f], totalGrabbed := w.totalGrabbed + 1)
      else w.(droppedFrames := WrapI32(w.droppedFrames + 1))
    else w
  }

  /** What run does after its loop (Control.py:199-201). */
  function Leave<E>(w: Worker<E>): Worker<E> {
    w.(s := w.s.(status := Exiting), pollerAlive := false)
  }

  /** One pass of the main loop of run: leave when the exit event is set. */
  function MainPass<E>(w: Worker<E>, cap: nat, g: Grab<E>): Worker<E>
    requires Consistent(w.s)
  {
    if w.s.exitSet then Leave(w) else Acquire(w, cap, g)
  }

  /** One event: the new state, whether the main loop left, and the frame
      the owner took, if any (StepEffects says what each event does). */
  function Step<E>(w: Worker<E>, cap: nat, e: Event<E>): (r: (Worker<E>, bool, seq<MotionFrame<E>>))
    requires Consistent(w.s)
    ensures Consistent(r.0.s)
    // The loop leaves exactly at a pass that finds the exit event set; the
    // exit event is never cleared.
    ensures r.1 <==> e.Pass? && w.s.exitSet
    ensures w.s.exitSet ==> r.0.s.exitSet
  {
    match e
    case Tick => (PollTick(w), false, [])
    case OwnerSend(m) => (w.(msgQueue := w.msgQueue + [m]), false, [])
    case OwnerExit => (w.(s := w.s.(exitSet := true)), false, [])
    case OwnerTake =>
      if w.frameQueue == [] then (w, false, [])
      else (w.(frameQueue := w.frameQueue[1..]), false, [w.frameQueue[0]])
    case Pass(g) => (MainPass(w, cap, g), w.s.exitSet, [])
  }

  /** What each event does to the worker's state. */
  lemma StepEffects<E>(w: Worker<E>, cap: nat, e: Event<E>)
    requires Consistent(w.s)
    ensures var r := Step(w, cap, e);
      // Leaving stops the timer and publishes EXITING.
      && (r.1 ==> r.0.s.status == Exiting && !r.0.pollerAlive)
      && (e.OwnerExit? ==> r == (w.(s := w.s.(exitSet := true)), false, []))
      // A tick hands the oldest message to Recv; a raise ends the timer.
      && (e.Tick? && w.pollerAlive && w.msgQueue != [] ==>
            && r.0.s == Recv(w.s, w.msgQueue[0]).0
            && r.0.pollerAlive == Recv(w.s, w.msgQueue[0]).1.Done?
            && r.0.msgQueue == w.msgQueue[1..] && r.0.frameQueue == w.frameQueue && r.2 == [])
      && (e.Tick? && (!w.pollerAlive || w.msgQueue == []) ==> r == (w, false, []))
      && (e.OwnerSend? ==> r == (w.(msgQueue := w.msgQueue + [e.m]), false, []))
      // The owner's get takes the oldest frame, if there is one.
      && (e.OwnerTake? ==>
            && r.2 == (if w.frameQueue == [] then [] else [w.frameQueue[0]])
            && r.0 == w.(frameQueue := if w.frameQueue == [] then [] else w.frameQueue[1..]))
      // A pass that does not leave: in ACQUIRING with return code 0 the
      // frame is offered without blocking and dropped exactly when the
      // queue is full; otherwise nothing changes.
      && (e.Pass? && !w.s.exitSet && w.s.status == Acquiring && e.grab.rval == 0 ==>
            var f := ShapedFrame(w.s.params.value, w.s.derived.value, e.grab);
            && r.0.frameQueue == Offer(w.frameQueue, cap, f).0
            && r.0.droppedFrames == (if |w.frameQueue| < cap then w.droppedFrames else WrapI32(w.droppedFrames + 1))
            && r.0.totalGrabbed == (if |w.frameQueue| < cap then w.totalGrabbed + 1 else w.totalGrabbed)
            && r.0.s == w.s && r.0.msgQueue == w.msgQueue && r.2 == [])
      && (e.Pass? && !w.s.exitSet && !(w.s.status == Acquiring && e.grab.rval == 0) ==> r == (w, false, []))
      // Only a pass counts frames; the bound and the c_int range are kept.
      && (!e.Pass? ==> r.0.droppedFrames == w.droppedFrames && r.0.totalGrabbed == w.totalGrabbed)
      && (|w.frameQueue| <= cap ==> |r.0.frameQueue| <= cap)
      && (InI32(w.droppedFrames) ==> InI32(r.0.droppedFrames))
  {
  }

  /** A schedule of events from state w, stopping at the event where the
      main loop leaves: the final state, whether it left, and the frames
      the owner took, oldest first. */
  function Replay<E>(w: Worker<E>, cap: nat, es: seq<Event<E>>): (r: (Worker<E>, bool, seq<MotionFrame<E>>))
    requires Consistent(w.s)
    ensures Consistent(r.0.s)
    decreases |es|
  {
    if es == [] then (w, false, [])
    else
      var (w1, done, t) := Step(w, cap, es[0]);
      if done then (w1, true, t)
      else
        var (w2, x, t2) := Replay(w1, cap, es[1..]);
        (w2, x, t + t2)
  }

  /** The main loop leaves within a schedule exactly when some pass finds
      the exit event set in the state the events before it lead to. */
  lemma {:induction false} ReplayExits<E>(w: Worker<E>, cap: nat, es: seq<Event<E>>)
    requires Consistent(w.s)
    ensures Replay(w, cap, es).1 <==>
      exists k | 0 <= k < |es| :: es[k].Pass? && Replay(w, cap, es[..k]).0.s.exitSet
    decreases |es|
  {
    if es != [] {
      var (w1, done, t) := Step(w, cap, es[0]);
      assert es[..0] == [];
      if done {
        assert es[0].Pass? && Replay(w, cap, es[..0]).0.s.exitSet;
      } else {
        ReplayExits(w1, cap, es[1..]);
        forall k | 1 <= k <= |es|
          ensures Replay(w, cap, es[..k]).0 == Replay(w1, cap, es[1..][..k - 1]).0
        {
          assert es[..k][0] == es[0] && es[..k][1..] == es[1..][..k - 1];
        }
        if Replay(w, cap, es).1 {
          var k' :| 0 <= k' < |es| - 1 && es[1..][k'].Pass? && Replay(w1, cap, es[1..][..k']).0.s.exitSet;
          assert es[k' + 1].Pass? && Replay(w, cap, es[..k' + 1]).0.s.exitSet;
        }
        if exists k | 0 <= k < |es| :: es[k].Pass? && Replay(w, cap, es[..k]).0.s.exitSet {
          var k :| 0 <= k < |es| && es[k].Pass? && Replay(w, cap, es[..k]).0.s.exitSet;
          assert k != 0;
          assert es[1..][k - 1].Pass? && Replay(w1, cap, es[1..][..k - 1]).0.s.exitSet;
        }
      }
    }
  }

  /** With the exit event set, the loop leaves at the next pass. */
  lemma {:induction false} PassAfterExit<E>(w: Worker<E>, cap: nat, es: seq<Event<E>>, j: nat)
    requires Consistent(w.s) && w.s.exitSet
    requires j < |es| && es[j].Pass?
    ensures Replay(w, cap, es).1
    decreases j
  {
    var (w1, done, t) := Step(w, cap, es[0]);
    if !done {
      PassAfterExit(w1, cap, es[1..], j - 1);
    }
  }

  /** The owner setting the exit event, followed later by a pass of the
      main loop, makes the loop leave. */
  lemma {:induction false} ExitThenPass<E>(w: Worker<E>, cap: nat, es: seq<Event<E>>, k: nat, j: nat)
    requires Consistent(w.s)
    requires k < j < |es| && es[k].OwnerExit? && es[j].Pass?
    ensures Replay(w, cap, es).1
    decreases k
  {
    var (w1, done, t) := Step(w, cap, es[0]);
    if !done {
      if k == 0 {
        PassAfterExit(w1, cap, es[1..], j - 1);
      } else {
        ExitThenPass(w1, cap, es[1..], k - 1, j - 1);
      }
    }
  }

  /** What run does before its loop (Control.py:180-183). */
  function Started<E>(w: Worker<E>): Worker<E> {
    w.(s := w.s.(status := Ready), pollerAlive := true)
  }

  /** The frame a pass of the main loop queues, if any. */
  function Pushed<E>(w: Worker<E>, cap: nat, e: Event<E>): seq<MotionFrame<E>>
    requires Consistent(w.s)
  {
    if e.Pass? && !w.s.exitSet && w.s.status == Acquiring && e.grab.rval == 0 && |w.frameQueue| < cap
    then [ShapedFrame(w.s.params.value, w.s.derived.value, e.grab)]
    else []
  }

  /** The frame a pass of the main loop drops, if any: one exactly when the
      queue is full. */
  function Dropped<E>(w: Worker<E>, cap: nat, e: Event<E>): nat
    requires Consistent(w.s)
  {
    if e.Pass? && !w.s.exitSet && w.s.status == Acquiring && e.grab.rval == 0 && |w.frameQueue| >= cap
    then 1
    else 0
  }

  /** Every frame the main loop queues within a schedule, in order. */
  function Queued<E>(w: Worker<E>, cap: nat, es: seq<Event<E>>): seq<MotionFrame<E>>
    requires Consistent(w.s)
    decreases |es|
  {
    if es == [] then []
    else
      var (w1, done, _) := Step(w, cap, es[0]);
      Pushed(w, cap, es[0]) + if done then [] else Queued(w1, cap, es[1..])
  }

  /** The number of frames the main loop drops within a schedule. */
  function Drops<E>(w: Worker<E>, cap: nat, es: seq<Event<E>>): nat
    requires Consistent(w.s)
    decreases |es|
  {
    if es == [] then 0
    else
      var (w1, done, _) := Step(w, cap, es[0]);
      Dropped(w, cap, es[0]) + if done then 0 else Drops(w1, cap, es[1..])
  }

  /** One event's share of the bookkeeping. */
  lemma StepBooks<E>(w: Worker<E>, cap: nat, e: Event<E>)
    requires Consistent(w.s) && InI32(w.droppedFrames)
    ensures var r := Step(w, cap, e);
      && w.frameQueue + Pushed(w, cap, e) == r.2 + r.0.frameQueue
      && r.0.totalGrabbed == w.totalGrabbed + |Pushed(w, cap, e)|
      && r.0.droppedFrames == WrapI32(w.droppedFrames + Dropped(w, cap, e))
      && |Pushed(w, cap, e)| + Dropped(w, cap, e) <= 1
  {
  }

  /** Over a whole schedule the frame queue is a FIFO: the queue before,
      followed by every frame queued, is the frames the owner took followed
      by the queue after. total_grabbed counts the frames queued,
      dropped_frames the frames dropped (as a c_int), and each event
      queues or drops at most one frame. */
  lemma ReplayBooks<E>(w: Worker<E>, cap: nat, es: seq<Event<E>>)
    requires Consistent(w.s) && InI32(w.droppedFrames)
    ensures var r := Replay(w, cap, es);
      && w.frameQueue + Queued(w, cap, es) == r.2 + r.0.frameQueue
      && r.0.totalGrabbed == w.totalGrabbed + |Queued(w, cap, es)|
      && r.0.droppedFrames == WrapI32(w.droppedFrames + Drops(w, cap, es))
      && |Queued(w, cap, es)| + Drops(w, cap, es) <= |es|
  {
    ReplayFifo(w, cap, es);
    ReplayCounts(w, cap, es);
    ReplayDrops(w, cap, es);
  }

  lemma {:induction false} ReplayFifo<E>(w: Worker<E>, cap: nat, es: seq<Event<E>>)
    requires Consistent(w.s) && InI32(w.droppedFrames)
    ensures w.frameQueue + Queued(w, cap, es) == Replay(w, cap, es).2 + Replay(w, cap, es).0.frameQueue
    decreases |es|
  {
    if es != [] {
      var (w1, done, t) := Step(w, cap, es[0]);
      StepBooks(w, cap, es[0]);
      if !done {
        ReplayFifo(w1, cap, es[1..]);
        var r := Replay(w1, cap, es[1..]);
        FifoGlue(w.frameQueue, Pushed(w, cap, es[0]), t, w1.frameQueue, Queued(w1, cap, es[1..]), r.2, r.0.frameQueue);
      }
    }
  }

  /** Two FIFO equations in a row make one. */
  lemma FifoGlue<F>(q0: seq<F>, p: seq<F>, t: seq<F>, q1: seq<F>, rest: seq<F>, t2: seq<F>, q2: seq<F>)
    requires q0 + p == t + q1 && q1 + rest == t2 + q2
    ensures q0 + (p + rest) == (t + t2) + q2
  {
    assert q0 + (p + rest) == (q0 + p) + rest && t + (t2 + q2) == (t + t2) + q2;
  }

  lemma {:induction false} ReplayCounts<E>(w: Worker<E>, cap: nat, es: seq<Event<E>>)
    requires Consistent(w.s) && InI32(w.droppedFrames)
    ensures Replay(w, cap, es).0.totalGrabbed == w.totalGrabbed + |Queued(w, cap, es)|
    ensures |Queued(w, cap, es)| + Drops(w, cap, es) <= |es|
    decreases |es|
  {
    if es != [] {
      var (w1, done, t) := Step(w, cap, es[0]);
      StepBooks(w, cap, es[0]);
      if !done {
        ReplayCounts(w1, cap, es[1..]);
      }
    }
  }

  lemma StepDrops<E>(w: Worker<E>, cap: nat, e: Event<E>)
    requires Consistent(w.s) && InI32(w.droppedFrames)
    ensures Step(w, cap, e).0.droppedFrames == WrapI32(w.droppedFrames + Dropped(w, cap, e))
  {
    StepBooks(w, cap, e);
  }

  lemma {:induction false} ReplayDrops<E>(w: Worker<E>, cap: nat, es: seq<Event<E>>)
    requires Consistent(w.s) && InI32(w.droppedFrames)
    ensures Replay(w, cap, es).0.droppedFrames == WrapI32(w.droppedFrames + Drops(w, cap, es))
    decreases |es|
  {
    if es != [] {
      var (w1, done, _) := Step(w, cap, es[0]);
      StepDrops(w, cap, es[0]);
      if !done {
        ReplayDrops(w1, cap, es[1..]);
        DropCount(w.droppedFrames, Dropped(w, cap, es[0]), Drops(w1, cap, es[1..]),
                  w1.droppedFrames, Replay(w1, cap, es[1..]).0.droppedFrames);
      }
    }
  }

  /** Once set, the exit event stays set through any schedule. */
  lemma {:induction false} ExitStays<E>(w: Worker<E>, cap: nat, es: seq<Event<E>>)
    requires Consistent(w.s) && w.s.exitSet
    ensures Replay(w, cap, es).0.s.exitSet
    decreases |es|
  {
    if es != [] {
      var (w1, done, t) := Step(w, cap, es[0]);
      if !done {
        ExitStays(w1, cap, es[1..]);
      }
    }
  }

  /** Replaying a schedule from start equals taking the frames taken so far
      and then replaying the events from i on in state w. */
  ghost predicate Resumes<E>(start: Worker<E>, cap: nat, es: seq<Event<E>>, i: nat, w: Worker<E>, taken: seq<MotionFrame<E>>)
    requires Consistent(start.s) && Consistent(w.s) && i <= |es|
  {
    var r := Replay(w, cap, es[i..]);
    Replay(start, cap, es) == (r.0, r.1, taken + r.2)
  }

  lemma ResumeStart<E>(start: Worker<E>, cap: nat, es: seq<Event<E>>)
    requires Consistent(start.s)
    ensures Resumes(start, cap, es, 0, start, [])
  {
    assert es[0..] == es;
    assert [] + Replay(start, cap, es).2 == Replay(start, cap, es).2;
  }

  /** One event handled moves the resumption point one event on, or ends
      the replay when the main loop leaves. */
  lemma ResumeStep<E>(start: Worker<E>, cap: nat, es: seq<Event<E>>, i: nat, w: Worker<E>,
                      taken: seq<MotionFrame<E>>, w1: Worker<E>, done: bool, took: seq<MotionFrame<E>>)
    requires Consistent(start.s) && Consistent(w.s) && i < |es|
    requires Resumes(start, cap, es, i, w, taken)
    requires (w1, done, took) == Step(w, cap, es[i])
    ensures done ==> Replay(start, cap, es) == (w1, true, taken + took)
    ensures !done ==> Resumes(start, cap, es, i + 1, w1, taken + took)
  {
    assert es[i..][0] == es[i] && es[i..][1..] == es[i + 1..];
    if !done {
      var r := Replay(w1, cap, es[i + 1..]);
      assert taken + (took + r.2) == (taken + took) + r.2;
    }
  }

  lemma ResumeEnd<E>(start: Worker<E>, cap: nat, es: seq<Event<E>>, w: Worker<E>, taken: seq<MotionFrame<E>>)
    requires Consistent(start.s) && Consistent(w.s)
    requires Resumes(start, cap, es, |es|, w, taken)
    ensures Replay(start, cap, es) == (w, false, taken)
  {
    assert es[|es|..] == [] && taken + [] == taken;
  }

  class MotionOctControl<E(0)> {
    var status: Status
    /** The exit_event shared with the owner. */
    var exitSet: bool
    /** Whether the RepeatTimer thread that polls msg_queue is running. */
    var pollerAlive: bool
    var taskOpen: bool
    var params: Option<OpenParams>
    var derived: Option<Derived>
    var msgQueue: seq<Message>
    var frameQueue: seq<MotionFrame<E>>
    const capacity: nat
    /** dropped_frames: a shared c_int cell. */
    var droppedFrames: int
    /** _total_grabbed: a plain Python int of the worker process. */
    var totalGrabbed: nat

    /** The fields recv_msg reads and writes, as one value. */
    function State(): Settings
      reads this
    {
      Settings(status, exitSet, taskOpen, params, derived)
    }

    /** The whole state of the worker, as a value. */
    function Model(): Worker<E>
      reads this
    {
      Worker(State(), pollerAlive, msgQueue, frameQueue, droppedFrames, totalGrabbed)
    }

    predicate Valid()
      reads this
    {
      && Consistent(State())
      && 0 < capacity
      && |frameQueue| <= capacity
      && InI32(droppedFrames)
    }

    /** HardwareControlProcess.__init__ and MotionOCTControlProcess.__init__,
        given an exit event that is not yet set. */
    constructor (frameBufferMax: int)
      ensures Valid()
      ensures status == Ready && !exitSet && !pollerAlive && !taskOpen
      ensures params.None? && derived.None?
      ensures msgQueue == [] && frameQueue == []
      ensures capacity == EffectiveCapacity(frameBufferMax)
      ensures droppedFrames == 0 && totalGrabbed == 0
    {
      status := Ready;
      exitSet := false;
      pollerAlive := false;
      taskOpen := false;
      params := None;
      derived := None;
      msgQueue := [];
      frameQueue := [];
      capacity := EffectiveCapacity(frameBufferMax);
      droppedFrames := 0;
      totalGrabbed := 0;
    }

    /** send_msg: msg_queue is unbounded, so the put always succeeds. */
    method SendMsg(m: Message)
      modifies this`msgQueue
      ensures msgQueue == old(msgQueue) + [m]
    {
      msgQueue := msgQueue + [m];
    }

    /** The owner sets the exit event directly. */
    method SetExit()
      modifies this`exitSet
      ensures exitSet
    {
      exitSet := true;
    }

    /** The owner's non-blocking get on the queue that get_frame_buffer
        hands out (Control.py:170-171): the oldest frame, or None
        (queue.Empty) when nothing is queued. */
    method TakeFrame() returns (f: Option<MotionFrame<E>>)
      modifies this`frameQueue
      ensures old(frameQueue) == [] ==> f.None? && frameQueue == []
      ensures old(frameQueue) != [] ==> f == Some(old(frameQueue)[0]) && frameQueue == old(frameQueue)[1..]
    {
      if frameQueue == [] {
        return None;
      }
      f := Some(frameQueue[0]);
      frameQueue := frameQueue[1..];
    }

    method RecvMsg(m: Message) returns (outcome: Outcome)
      requires Valid()
      modifies this`status, this`exitSet, this`taskOpen, this`params, this`derived
      ensures Valid()
      ensures (State(), outcome) == Recv(old(State()), m)
    {
      outcome := Done;
      if m.MotionOctMessage? {
        var instr := m.instruction;
        if instr == INSTR_OPEN {
          params := Some(m.params);
          var d := DeriveParams(m.params);
          if d.None? {
            return Raised(ZeroDivisionError);
          }
          derived := d;
          taskOpen := true;
          status := Ready;
        } else if instr == INSTR_CLOSE {
          exitSet := true;
        } else if instr == INSTR_START_ACQ {
          if status == Ready {
            if !taskOpen {
              return Raised(AttributeError);
            }
            status := Acquiring;
          } else {
            return;
          }
        } else if instr == INSTR_STOP_ACQ {
          status := Ready;
          if !taskOpen {
            outcome := Raised(AttributeError);
          }
        } else if instr == INSTR_UPDATE_ACQ {
          if params.Some? && !taskOpen {
            outcome := Raised(AttributeError);
          }
        }
      }
    }

    /** One tick of the RepeatTimer: a non-blocking get on msg_queue and
        recv_msg on what it yields. An exception ends the timer thread. */
    method PollMsgBuffer() returns (outcome: Option<Outcome>)
      requires Valid()
      modifies this`status, this`exitSet, this`taskOpen, this`params, this`derived,
               this`msgQueue, this`pollerAlive
      ensures Valid()
      ensures !old(pollerAlive) || old(msgQueue) == [] ==>
        outcome.None? && State() == old(State()) && msgQueue == old(msgQueue)
        && pollerAlive == old(pollerAlive)
      ensures Model() == PollTick(old(Model()))
      ensures old(pollerAlive) && old(msgQueue) != [] ==>
        && outcome.Some?
        && msgQueue == old(msgQueue)[1..]
        && (State(), outcome.value) == Recv(old(State()), old(msgQueue)[0])
        && pollerAlive == outcome.value.Done?
    {
      if !pollerAlive || msgQueue == [] {
        return None;
      }
      var m := msgQueue[0];
      msgQueue := msgQueue[1..];
      var o := RecvMsg(m);
      if o.Raised? {
        pollerAlive := false;
      }
      outcome := Some(o);
    }

    /** acquire_frame: None when octMotion's return code is not 0; otherwise
        the reference buffer reshaped into columns, rolled and cropped. */
    method AcquireFrame(grab: Grab<E>) returns (f: Option<MotionFrame<E>>)
      requires params.Some? && derived.Some?
      ensures f.None? <==> grab.rval != 0
      ensures f.Some? ==> f.value == ShapedFrame(params.value, derived.value, grab)
    {
      var a := params.value.alinesPerBuffer;
      var hw := derived.value.halfwidth;
      var bw := derived.value.bwidth;
      var zstart := params.value.zstart;
      var mot := seq(3 * params.value.numberOfBlines, k requires 0 <= k => grab.motion(k));
      if grab.rval != 0 {
        return None;
      }
      var bflat := seq(hw * a, k requires 0 <= k < hw * a => grab.reference(k));
      var raw := ReshapeColumns(bflat, hw, a);
      var rows := Rows(raw);
      var rolled := RollColumns(rows, a, a as int - 2);
      var b := Slice(rolled, zstart, zstart + bw);
      f := Some(MotionFrame(b, mot, grab.spectrum));
      FlatRows(rows, bflat, grab.reference, hw, a);
      ShapingSteps(grab.reference, rows, hw, a, zstart, bw);
    }

    /** One pass of the body of the run loop (Control.py:187-197). The ghost
        results name the frame queued, if any, and the drop, if any. */
    method Iterate(grab: Grab<E>) returns (ghost added: seq<MotionFrame<E>>, ghost dropped: nat)
      requires Valid()
      modifies this`frameQueue, this`droppedFrames, this`totalGrabbed
      ensures Valid()
      ensures Model() == Acquire(old(Model()), capacity, grab)
      ensures frameQueue == old(frameQueue) + added && totalGrabbed == old(totalGrabbed) + |added|
      ensures dropped == 0 ==> droppedFrames == old(droppedFrames)
      ensures dropped == 1 ==> droppedFrames == WrapI32(old(droppedFrames) + 1)
      ensures |added| + dropped <= 1
      ensures old(status) != Acquiring || grab.rval != 0 ==>
        frameQueue == old(frameQueue) && droppedFrames == old(droppedFrames)
        && totalGrabbed == old(totalGrabbed)
      ensures status == Acquiring && grab.rval == 0 && |old(frameQueue)| < capacity ==>
        && frameQueue == old(frameQueue) + [ShapedFrame(params.value, derived.value, grab)]
        && totalGrabbed == old(totalGrabbed) + 1 && droppedFrames == old(droppedFrames)
      ensures status == Acquiring && grab.rval == 0 && |old(frameQueue)| == capacity ==>
        && frameQueue == old(frameQueue) && totalGrabbed == old(totalGrabbed)
        && droppedFrames == WrapI32(old(droppedFrames) + 1)
      ensures status == Acquiring && grab.rval == 0 ==>
        frameQueue == Offer(old(frameQueue), capacity, ShapedFrame(params.value, derived.value, grab)).0
    {
      added, dropped := [], 0;
      if status == Acquiring {
        var f := AcquireFrame(grab);
        if f.Some? {
          if |frameQueue| < capacity {
            frameQueue := frameQueue + [f.value];
            totalGrabbed := totalGrabbed + 1;
            added := [f.value];
          } else {
            droppedFrames := WrapI32(droppedFrames + 1);
            dropped := 1;
          }
        }
      }
    }

    /** What run does before its loop: start the poll timer, then setup()
        (a no-op here) and the status READY. */
    method Begin()
      requires Valid()
      modifies this`pollerAlive, this`status
      ensures Valid()
      ensures pollerAlive && status == Ready
      ensures Model() == Started(old(Model()))
    {
      pollerAlive := true;
      status := Ready;
    }

    /** What run does after its loop: cancel the timer, publish EXITING, then
        close(), whose _scan_task.stop() raises when no OPEN succeeded. */
    method Finish() returns (outcome: Outcome)
      requires Valid()
      modifies this`pollerAlive, this`status
      ensures Valid() && !pollerAlive && status == Exiting
      ensures Model() == Leave(old(Model()))
      ensures outcome == if taskOpen then Done else Raised(AttributeError)
    {
      pollerAlive := false;
      status := Exiting;
      outcome := if taskOpen then Done else Raised(AttributeError);
    }

    /** One event of the schedule: the new state, whether the main loop
        read the exit event and left, and the frame the owner took, if any,
        are those of Step. */
    method Handle(e: Event<E>) returns (done: bool, took: seq<MotionFrame<E>>)
      requires Valid() && status != Exiting
      modifies this
      ensures Valid()
      ensures (Model(), done, took) == Step(old(Model()), capacity, e)
      ensures done <==> e.Pass? && old(exitSet)
      ensures done <==> status == Exiting
      ensures done ==> !pollerAlive
    {
      done, took := false, [];
      match e {
        case Tick =>
          var _ := PollMsgBuffer();
        case OwnerSend(m) =>
          SendMsg(m);
        case OwnerExit =>
          SetExit();
        case OwnerTake =>
          var f := TakeFrame();
          if f.Some? {
            took := [f.value];
          }
        case Pass(grab) =>
          if exitSet {
            var _ := Finish();
            done := true;
          } else {
            var _, _ := Iterate(grab);
          }
      }
    }

    /** run(), with the timer thread and the owner interleaved as the
        schedule says. The loop condition is read only before a pass of
        the main loop; ticks may still deliver messages after CLOSE. The
        state, whether the loop ended within the schedule, and the frames
        the owner took, oldest first, are those of Replay after Started.
        The ghost results name the frames the loop queued and the number it
        dropped: the queue is a FIFO of what was queued, total_grabbed
        counts it, dropped_frames counts the rest (as a c_int), and each
        event queues or drops at most one frame. */
    method Run(schedule: seq<Event<E>>)
      returns (exited: bool, taken: seq<MotionFrame<E>>, ghost queued: seq<MotionFrame<E>>, ghost drops: nat)
      requires Valid()
      modifies this
      ensures Valid()
      ensures (Model(), exited, taken) == Replay(Started(old(Model())), capacity, schedule)
      ensures exited <==> status == Exiting
      ensures exited ==> !pollerAlive
      ensures exited <==> exists k | 0 <= k < |schedule| ::
        schedule[k].Pass? && Replay(Started(old(Model())), capacity, schedule[..k]).0.s.exitSet
      ensures old(frameQueue) + queued == taken + frameQueue
      ensures totalGrabbed == old(totalGrabbed) + |queued|
      ensures droppedFrames == WrapI32(old(droppedFrames) + drops)
      ensures |queued| + drops <= |schedule|
    {
      Begin();
      ghost var start := Model();
      exited, taken := false, [];
      var i := 0;
      ResumeStart(start, capacity, schedule);
      while i < |schedule| && !exited
        invariant 0 <= i <= |schedule|
        invariant Valid() && (exited <==> status == Exiting) && (exited ==> !pollerAlive)
        invariant exited ==> Replay(start, capacity, schedule) == (Model(), true, taken)
        invariant !exited ==> Resumes(start, capacity, schedule, i, Model(), taken)
      {
        ghost var w := Model();
        var done, took := Handle(schedule[i]);
        ResumeStep(start, capacity, schedule, i, w, taken, Model(), done, took);
        taken, exited := taken + took, done;
        i := i + 1;
      }
      if !exited {
        ResumeEnd(start, capacity, schedule, Model(), taken);
      }
      ReplayBooks(start, capacity, schedule);
      ReplayExits(start, capacity, schedule);
      queued, drops := Queued(start, capacity, schedule), Drops(start, capacity, schedule);
    }
  }
}
