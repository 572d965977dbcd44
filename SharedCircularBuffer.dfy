/** The shared circular buffer: N slots of equal size, one re-entrant lock per
    slot, a shared write index and a single shared "acquired" token through
    which one reader examines one slot at a time. Exactly one writer calls
    put; one reader calls examine and release. */
module SharedCircularBuffer {
  import opened PyOps

  /** Who holds a slot's RLock. The writer takes it and gives it back within
      one put; the reader holds it from a successful examine until release.
      The lock is re-entrant, so the reader can take a lock it already has;
      depth counts its acquisitions. */
  datatype Lock = Free | Writer | Reader(depth: nat)

  /** _ring, _locks, _index and _acquired (-1 for none). */
  datatype Ring<E> = Ring(slots: seq<seq<E>>, locks: seq<Lock>, index: int, acquired: int)

  /** np.prod(shape); the product of no dimensions is 1. */
  function Prod(shape: seq<nat>): (r: nat)
    ensures r == 0 <==> 0 in shape
    ensures |shape| == 1 ==> r == shape[0]
  {
    if shape == [] then 1 else shape[0] * Prod(shape[1..])
  }

  predicate WellFormed<E>(s: Ring<E>) {
    && |s.slots| > 0
    && |s.locks| == |s.slots|
    && InI32(s.index)
    && (s.acquired == -1 || (0 <= s.acquired < |s.slots| && s.locks[s.acquired].Reader?))
    && (forall k | 0 <= k < |s.locks| :: s.locks[k].Reader? ==> s.locks[k].depth > 0)
    && (forall k | 0 <= k < |s.locks| :: s.locks[k] == Writer ==> k == s.index % |s.slots|)
  }

  /** The slot the next put writes: index mod N (Python's % for N > 0). */
  function Target<E>(s: Ring<E>): (k: nat)
    requires WellFormed(s)
    ensures k < |s.slots|
  {
    s.index % |s.slots|
  }

  /** The writer is between the two halves of a put. */
  predicate WriterBusy<E>(s: Ring<E>)
    requires WellFormed(s)
  {
    s.locks[Target(s)] == Writer
  }

  /** The reader's bookkeeping is exact: the only slot it holds is the
      acquired one, held once. */
  predicate OneAtATime<E>(s: Ring<E>)
    requires WellFormed(s)
  {
    forall k | 0 <= k < |s.locks| :: s.locks[k].Reader? ==> k == s.acquired && s.locks[k].depth == 1
  }

  /** SharedCircularBuffer.__init__: N zeroed slots of 2 * prod(shape) cells. */
  function Create<E>(n: nat, shape: seq<nat>, zero: E): (s: Ring<E>)
    requires n > 0
    ensures WellFormed(s) && OneAtATime(s) && !WriterBusy(s)
    ensures |s.slots| == n && s.index == 0 && s.acquired == -1
    ensures forall k | 0 <= k < n :: |s.slots[k]| == 2 * Prod(shape) && s.locks[k] == Free
  {
    Ring(seq(n, _ => seq(2 * Prod(shape), _ => zero)), seq(n, _ => Free), 0, -1)
  }

  /** The lock attempt of put (SharedCircularBuffer.py:27) and, when it
      fails, SharedCircularBuffer.py:31-34:
      the write is dropped and the acquired token cleared, but the reader
      keeps the lock it holds. */
  function BeginPutStep<E>(s: Ring<E>): (r: (Ring<E>, bool))
    requires WellFormed(s) && !WriterBusy(s)
    ensures WellFormed(r.0)
    ensures r.1 <==> s.locks[Target(s)] == Free
    ensures r.1 ==> r.0 == s.(locks := s.locks[Target(s) := Writer]) && WriterBusy(r.0)
    ensures !r.1 ==> r.0 == s.(acquired := -1) && s.locks[Target(s)].Reader?
    ensures OneAtATime(s) && r.1 ==> OneAtATime(r.0)
    ensures OneAtATime(s) && !r.1 ==> !OneAtATime(r.0)
  {
    var k := Target(s);
    if s.locks[k] == Free then (s.(locks := s.locks[k := Writer]), true)
    else (s.(acquired := -1), false)
  }

  /** The rest of a successful put (SharedCircularBuffer.py:29-30, 35-37):
      copy into the slot, release its lock, advance the c_int index and
      return it. */
  function FinishPutStep<E>(s: Ring<E>, a: seq<E>): (r: (Ring<E>, int))
    requires WellFormed(s) && WriterBusy(s) && |a| == |s.slots[Target(s)]|
    ensures WellFormed(r.0) && !WriterBusy(r.0)
    ensures r.0.slots == s.slots[Target(s) := a]
    ensures r.0.locks == s.locks[Target(s) := Free]
    ensures r.0.index == WrapI32(s.index + 1) && r.0.acquired == s.acquired
    ensures r.1 == r.0.index
    ensures OneAtATime(s) ==> OneAtATime(r.0)
  {
    var k := Target(s);
    var t := s.(slots := s.slots[k := a], locks := s.locks[k := Free], index := WrapI32(s.index + 1));
    assert forall j | 0 <= j < |t.locks| :: t.locks[j] != Writer;
    (t, t.index)
  }

  /** SharedCircularBuffer.put with no step of the reader in between. */
  function PutStep<E>(s: Ring<E>, a: seq<E>): (r: (Ring<E>, int))
    requires WellFormed(s) && !WriterBusy(s) && |a| == |s.slots[Target(s)]|
    ensures WellFormed(r.0) && !WriterBusy(r.0)
    // Success: slot index mod N gets a, no other slot changes, its lock is
    // free again, and the index advances by one (wrapping as a c_int).
    ensures s.locks[Target(s)] == Free ==>
      && r.0.slots == s.slots[Target(s) := a]
      && (forall k | 0 <= k < |s.slots| && k != Target(s) :: r.0.slots[k] == s.slots[k])
      && r.0.locks == s.locks && r.0.acquired == s.acquired
      && r.0.index == WrapI32(s.index + 1) && r.1 == r.0.index
      && (s.index < I32_MAX ==> r.0.index == s.index + 1)
    // Contention: nothing but the token changes, and put returns -1.
    ensures s.locks[Target(s)] != Free ==>
      && r.0.slots == s.slots && r.0.locks == s.locks && r.0.index == s.index
      && r.0.acquired == -1 && r.1 == -1
  {
    var (t, ok) := BeginPutStep(s);
    if ok then
      var (u, i) := FinishPutStep(t, a);
      assert u.locks == s.locks;
      (u, i)
    else (t, -1)
  }

  /** The slot examine(index) looks at: index mod N, or (_index - 1) mod N by default. */
  function ExamineTarget<E>(s: Ring<E>, index: Option<int>): (k: nat)
    requires WellFormed(s)
    ensures k < |s.slots|
    ensures index.Some? ==> k == index.value % |s.slots|
    // By default the slot just before the next write: the latest one written,
    // which is N - 1 before any write.
    ensures index.None? ==> k == (s.index - 1) % |s.slots| && (k + 1) % |s.slots| == Target(s)
    ensures index.None? && s.index == 0 ==> k == |s.slots| - 1
  {
    var i := if index.None? then s.index - 1 else index.value;
    var n := |s.slots|;
    var k := i % n;
    assert index.None? ==> (k + 1) % n == Target(s) by {
      if index.None? {
        ModSucc(s.index - 1, n);
      }
    }
    k
  }

  lemma ModSucc(i: int, n: int)
    requires n > 0
    ensures (i % n + 1) % n == (i + 1) % n
  {
    assert i + 1 == (i % n + 1) + (i / n) * n;
    ModMultiple(i % n + 1, i / n, n);
  }

  /** The reader takes a lock: free, or already its own. */
  function Take(l: Lock): (t: Lock)
    requires !l.Writer?
    ensures t.Reader? && t.depth == (if l.Reader? then l.depth else 0) + 1
  {
    match l
    case Free => Reader(1)
    case Reader(d) => Reader(d + 1)
  }

  /** The reader gives back one acquisition of a lock it holds. */
  function Drop(l: Lock): (t: Lock)
    requires l.Reader? && l.depth > 0
    ensures l.depth == 1 ==> t == Free
    ensures l.depth > 1 ==> t == Reader(l.depth - 1)
  {
    if l.depth == 1 then Free else Reader(l.depth - 1)
  }

  /** SharedCircularBuffer.examine: a snapshot of the slot on success. */
  function ExamineStep<E>(s: Ring<E>, index: Option<int>): (r: (Ring<E>, Option<seq<E>>))
    requires WellFormed(s)
    ensures WellFormed(r.0) && r.0.slots == s.slots && r.0.index == s.index
    // Only one slot at a time: while the token is taken nothing happens.
    ensures s.acquired != -1 ==> r == (s, None)
    ensures s.acquired == -1 ==>
      var k := ExamineTarget(s, index);
      && (r.1.Some? <==> s.locks[k] != Writer)
      && (r.1.Some? ==> && r.1.value == s.slots[k] && r.0.acquired == k
                        && r.0.locks == s.locks[k := Take(s.locks[k])])
      && (r.1.None? ==> r.0 == s && r.0.acquired == -1)
    ensures OneAtATime(s) ==> OneAtATime(r.0)
  {
    if s.acquired != -1 then (s, None)
    else
      var k := ExamineTarget(s, index);
      if s.locks[k] == Writer then (s.(acquired := -1), None)
      else (s.(locks := s.locks[k := Take(s.locks[k])], acquired := k), Some(s.slots[k]))
  }

  /** SharedCircularBuffer.release: give back the acquired slot's lock. */
  function ReleaseStep<E>(s: Ring<E>): (r: Ring<E>)
    requires WellFormed(s)
    ensures WellFormed(r) && r.acquired == -1
    ensures r.slots == s.slots && r.index == s.index
    ensures s.acquired == -1 ==> r == s
    ensures s.acquired != -1 ==> r.locks == s.locks[s.acquired := Drop(s.locks[s.acquired])]
    ensures OneAtATime(s) ==> OneAtATime(r) && forall k | 0 <= k < |r.locks| :: !r.locks[k].Reader?
  {
    if s.acquired == -1 then s
    else s.(locks := s.locks[s.acquired := Drop(s.locks[s.acquired])], acquired := -1)
  }

  /** Two releases act like one. */
  lemma ReleaseTwice<E>(s: Ring<E>)
    requires WellFormed(s)
    ensures ReleaseStep(ReleaseStep(s)) == ReleaseStep(s)
  {
  }

  /** While no put has failed, the reader holds at most one slot. */
  lemma OneAtATimeHoldsOne<E>(s: Ring<E>, j: nat, k: nat)
    requires WellFormed(s) && OneAtATime(s)
    requires j < |s.locks| && k < |s.locks| && s.locks[j].Reader? && s.locks[k].Reader?
    ensures j == k
  {
  }

  /** Slot k is held by the reader more times than its token accounts for:
      release can never bring the lock back to free. */
  predicate Leaked<E>(s: Ring<E>, k: nat)
    requires WellFormed(s)
  {
    k < |s.locks| && s.locks[k].Reader? && s.locks[k].depth > (if s.acquired == k then 1 else 0)
  }

  /** A put that fails on a slot the reader examines leaks that slot. */
  lemma {:induction false} FailedPutLeaks<E>(s: Ring<E>)
    requires WellFormed(s) && !WriterBusy(s) && s.locks[Target(s)] != Free
    ensures Leaked(BeginPutStep(s).0, Target(s))
  {
  }

  /** Once leaked, a slot stays leaked whatever the reader and writer do. */
  lemma {:induction false} LeakPersists<E>(s: Ring<E>, k: nat, index: Option<int>, a: seq<E>)
    requires WellFormed(s) && Leaked(s, k)
    ensures Leaked(ExamineStep(s, index).0, k)
    ensures Leaked(ReleaseStep(s), k)
    ensures !WriterBusy(s) ==> Leaked(BeginPutStep(s).0, k)
    ensures WriterBusy(s) && |a| == |s.slots[Target(s)]| ==> Leaked(FinishPutStep(s, a).0, k)
  {
    if s.acquired == -1 {
      var k' := ExamineTarget(s, index);
      if k' == k {
        assert s.locks[k] != Writer;
      }
    }
  }

  /** When the leaked slot is the write target, every later put fails and the
      index never advances: the writer drops every frame from then on. */
  lemma {:induction false} LeakedTargetBlocksWriter<E>(s: Ring<E>, a: seq<E>)
    requires WellFormed(s) && !WriterBusy(s) && Leaked(s, Target(s)) && |a| == |s.slots[Target(s)]|
    ensures PutStep(s, a).1 == -1 && PutStep(s, a).0.index == s.index
    ensures Leaked(PutStep(s, a).0, Target(s))
  {
    LeakPersists(s, Target(s), None, a);
  }

  /** examine, put that fails, release: the slot stays locked and the next
      put fails again. A buffer of two zero slots, with the reader on the
      slot the writer targets. */
  lemma ContentionScenario()
    ensures var s0 := Create(2, [1], 0);
      var s1 := ExamineStep(s0, Some(0)).0;
      var s2 := PutStep(s1, [7, 7]);
      var s3 := ReleaseStep(s2.0);
      && s1.locks[0] == Reader(1) && s1.acquired == 0
      && s2.1 == -1 && s2.0.acquired == -1
      && s3.locks[0] == Reader(1)
      && PutStep(s3, [7, 7]).1 == -1
  {
    var s0 := Create(2, [1], 0);
    assert Prod([1]) == 1;
    var s1 := ExamineStep(s0, Some(0)).0;
    assert ExamineTarget(s0, Some(0)) == 0;
    assert Target(s1) == 0;
  }

  /** Until the index wraps, examine() right after a put sees that put's array. */
  lemma ExamineSeesLatestPut<E>(s: Ring<E>, a: seq<E>)
    requires WellFormed(s) && !WriterBusy(s) && |a| == |s.slots[Target(s)]|
    requires s.locks[Target(s)] == Free && s.acquired == -1 && s.index < I32_MAX
    ensures ExamineStep(PutStep(s, a).0, None).1 == Some(a)
  {
    var t := PutStep(s, a).0;
    assert ExamineTarget(t, None) == (s.index + 1 - 1) % |s.slots| == Target(s);
  }

  /** Once the c_int index wraps, examine() no longer looks at the slot just
      written unless N divides 2^32: with three slots, a put at index
      2147483647 writes slot 1, and examine() then looks at slot 0. */
  lemma WrapMisdirectsExamine()
    ensures var s := Create(3, [1], 0).(index := I32_MAX);
      var t := PutStep(s, [1, 1]).0;
      && Target(s) == 1 && t.index == I32_MIN && t.slots[1] == [1, 1]
      && ExamineTarget(t, None) == 0 && ExamineStep(t, None).1 == Some(t.slots[0]) && t.slots[0] != [1, 1]
  {
    var s := Create(3, [1], 0).(index := I32_MAX);
    assert Prod([1]) == 1;
    assert Target(s) == 1;
    var t := PutStep(s, [1, 1]).0;
    assert t.index == I32_MIN;
    assert t.slots[0] == s.slots[0] == [0, 0];
  }

  // ---------------------------------------------------------------------------
  // Histories of calls by the one writer and the one reader.

  /** One call: a half of put, examine(index) or release. */
  datatype Call<E> = BeginPut | FinishPut(a: seq<E>) | Examine(index: Option<int>) | Release

  /** The call may be made now: the writer's two halves alternate, and a
      write has the slot's length. */
  predicate Enabled<E>(s: Ring<E>, c: Call<E>)
    requires WellFormed(s)
  {
    match c
    case BeginPut => !WriterBusy(s)
    case FinishPut(a) => WriterBusy(s) && |a| == |s.slots[Target(s)]|
    case _ => true
  }

  function Perform<E>(s: Ring<E>, c: Call<E>): (r: Ring<E>)
    requires WellFormed(s) && Enabled(s, c)
    ensures WellFormed(r)
    ensures r.slots == s.slots || c.FinishPut?
  {
    match c
    case BeginPut => BeginPutStep(s).0
    case FinishPut(a) => FinishPutStep(s, a).0
    case Examine(i) => ExamineStep(s, i).0
    case Release => ReleaseStep(s)
  }

  /** Every call of cs is enabled when it is made. */
  predicate Legal<E>(s: Ring<E>, cs: seq<Call<E>>)
    requires WellFormed(s)
    decreases |cs|
  {
    cs == [] || (Enabled(s, cs[0]) && Legal(Perform(s, cs[0]), cs[1..]))
  }

  /** The state after the calls of cs, in order. */
  function PerformAll<E>(s: Ring<E>, cs: seq<Call<E>>): (r: Ring<E>)
    requires WellFormed(s) && Legal(s, cs)
    ensures WellFormed(r)
    ensures (forall i | 0 <= i < |cs| :: !cs[i].FinishPut?) ==> r.slots == s.slots
    decreases |cs|
  {
    if cs == [] then s else PerformAll(Perform(s, cs[0]), cs[1..])
  }

  /** No lock attempt of put in cs finds its slot taken. */
  predicate NoFailedPut<E>(s: Ring<E>, cs: seq<Call<E>>)
    requires WellFormed(s) && Legal(s, cs)
    decreases |cs|
  {
    cs == [] || ((cs[0].BeginPut? ==> s.locks[Target(s)] == Free) && NoFailedPut(Perform(s, cs[0]), cs[1..]))
  }

  /** Calls with no failing put keep the reader's bookkeeping exact. */
  lemma {:induction false} NoFailedPutKeeps<E>(s: Ring<E>, cs: seq<Call<E>>)
    requires WellFormed(s) && OneAtATime(s) && Legal(s, cs) && NoFailedPut(s, cs)
    ensures OneAtATime(PerformAll(s, cs))
    decreases |cs|
  {
    if cs != [] {
      NoFailedPutKeeps(Perform(s, cs[0]), cs[1..]);
    }
  }

  /** From a new buffer, any history of calls in which no put fails leaves
      the reader holding at most the acquired slot, once. */
  lemma NoFailedPutOneAtATime<E>(n: nat, shape: seq<nat>, zero: E, cs: seq<Call<E>>)
    requires n > 0 && Legal(Create(n, shape, zero), cs) && NoFailedPut(Create(n, shape, zero), cs)
    ensures OneAtATime(PerformAll(Create(n, shape, zero), cs))
  {
    NoFailedPutKeeps(Create(n, shape, zero), cs);
  }

  class SharedCircularBuffer<E> {
    const n: nat
    const dim: seq<nat>
    var ring: seq<seq<E>>
    var locks: seq<Lock>
    var index: int
    var acquired: int

    function State(): Ring<E>
      reads this
    {
      Ring(ring, locks, index, acquired)
    }

    predicate Valid()
      reads this
    {
      WellFormed(State()) && |ring| == n
    }

    constructor (N: nat, shape: seq<nat>, zero: E)
      requires N > 0
      ensures Valid() && n == N && dim == shape
      ensures State() == Create(N, shape, zero)
    {
      n := N;
      dim := shape;
      index := 0;
      acquired := -1;
      ring := seq(N, _ => seq(2 * Prod(shape), _ => zero));
      locks := seq(N, _ => Free);
    }

    /** The writer's lock attempt; false means put returned -1. */
    method BeginPut() returns (locked: bool)
      requires Valid() && !WriterBusy(State())
      modifies this`locks, this`acquired
      ensures Valid()
      ensures (State(), locked) == BeginPutStep(old(State()))
    {
      var k := index % n;
      if locks[k] == Free {
        locks := locks[k := Writer];
        locked := true;
      } else {
        acquired := -1;
        locked := false;
      }
    }

    method FinishPut(a: seq<E>) returns (newIndex: int)
      requires Valid() && WriterBusy(State()) && |a| == |ring[Target(State())]|
      modifies this`ring, this`locks, this`index
      ensures Valid()
      ensures (State(), newIndex) == FinishPutStep(old(State()), a)
    {
      var k := index % n;
      ring := ring[k := a];
      locks := locks[k := Free];
      index := WrapI32(index + 1);
      newIndex := index;
    }

    method Put(a: seq<E>) returns (r: int)
      requires Valid() && !WriterBusy(State()) && |a| == |ring[Target(State())]|
      modifies this`ring, this`locks, this`index, this`acquired
      ensures Valid()
      ensures (State(), r) == PutStep(old(State()), a)
    {
      var locked := BeginPut();
      if !locked {
        return -1;
      }
      r := FinishPut(a);
    }

    method Examine(i: Option<int>) returns (view: Option<seq<E>>)
      requires Valid()
      modifies this`locks, this`acquired
      ensures Valid()
      ensures (State(), view) == ExamineStep(old(State()), i)
    {
      if acquired != -1 {
        return None;
      }
      var target := if i.None? then index - 1 else i.value;
      var k := target % n;
      if locks[k] != Writer {
        locks := locks[k := Take(locks[k])];
        acquired := k;
        view := Some(ring[k]);
      } else {
        acquired := -1;
        view := None;
      }
    }

    method Release()
      requires Valid()
      modifies this`locks, this`acquired
      ensures Valid()
      ensures State() == ReleaseStep(old(State()))
    {
      if acquired != -1 {
        locks := locks[acquired := Drop(locks[acquired])];
        acquired := -1;
      }
    }
  }
}
