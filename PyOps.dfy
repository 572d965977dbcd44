/** The pieces of Python and ctypes semantics that the three workers rely on:
    an option type for None, slice normalisation, str(n) for n >= 0,
    str.zfill, and the 32-bit signed cell behind multiprocessing.Value('i'). */
module PyOps {

  datatype Option<+T> = None | Some(value: T)

  function Max(a: int, b: int): int { if a < b then b else a }

  function Min(a: int, b: int): int { if a < b then a else b }

  // ---------------------------------------------------------------------------
  // multiprocessing.Value('i'): a ctypes c_int in shared memory. Assigning an
  // out-of-range Python int keeps its low 32 bits, read back as signed.

  const I32_MIN: int := -0x8000_0000
  const I32_MAX: int := 0x7FFF_FFFF
  const TWO_32: int := 0x1_0000_0000

  predicate InI32(x: int) { I32_MIN <= x <= I32_MAX }

  /** The value a c_int cell reads back after `cell.value = x`. */
  function WrapI32(x: int): (r: int)
    ensures InI32(r)
    ensures (x - r) % TWO_32 == 0
    ensures InI32(x) ==> r == x
  {
    var m := x % TWO_32;
    assert x == (x / TWO_32) * TWO_32 + m;
    if m <= I32_MAX then m else m - TWO_32
  }

  /** Incrementing a cell twice through the wrap is the wrap of the sum. */
  lemma WrapI32Add(x: int, k: int)
    ensures WrapI32(WrapI32(x) + k) == WrapI32(x + k)
  {
    var w := WrapI32(x);
    var q := (x - w) / TWO_32;
    assert x - w == q * TWO_32;
    ModShift(w + k, q);
    assert (x + k) == (w + k) + q * TWO_32;
  }

  lemma ModShift(a: int, q: int)
    ensures (a + q * TWO_32) % TWO_32 == a % TWO_32
  {
  }

  // ---------------------------------------------------------------------------
  // Python's % with a positive divisor agrees with Dafny's: both are
  // Euclidean there. Facts the solver does not find on its own.

  lemma ModMultiple(a: int, q: int, w: int)
    requires w > 0
    ensures (a + q * w) % w == a % w
  {
    var k := (a + q * w) / w;
    var m := a % w;
    assert a == (a / w) * w + m;
    assert a + q * w == (a / w + q) * w + m;
    assert 0 <= m < w;
    DivModUnique(a + q * w, a / w + q, m, w);
  }

  lemma DivModUnique(x: int, q: int, m: int, w: int)
    requires w > 0 && 0 <= m < w && x == q * w + m
    ensures x % w == m
  {
    var q', m' := x / w, x % w;
    assert x == q' * w + m';
    assert (q - q') * w == m' - m;
    if q > q' {
      MulAtLeast(q - q', w);
    } else if q < q' {
      MulAtLeast(q' - q, w);
    }
  }

  lemma MulAtLeast(k: int, w: int)
    requires k >= 1 && w > 0
    ensures k * w >= w
  {
  }

  // ---------------------------------------------------------------------------
  // Slices with step 1: s[start:stop]. Negative bounds count from the end,
  // then both are clamped to [0, n]; a stop before the start gives "".

  /** One bound of s[start:stop] after normalisation against length n. */
  function SliceIndex(n: nat, i: int): (r: nat)
    ensures r <= n
    ensures 0 <= i <= n ==> r == i
    ensures i > n ==> r == n
    ensures -(n as int) <= i < 0 ==> r == n + i
    ensures i < -(n as int) ==> r == 0
  {
    if i < 0 then (if i + n < 0 then 0 else i + n) else if i > n then n else i
  }

  /** The positions [lo, hi) of an n-element sequence that s[start:stop] selects. */
  function SliceBounds(n: nat, start: int, stop: int): (r: (nat, nat))
    ensures r.0 <= r.1 <= n
    ensures 0 <= start <= stop <= n ==> r == (start, stop)
    ensures 0 <= start && start <= stop ==> r.1 - r.0 == Min(stop, n) - Min(start, n)
    ensures stop <= start && (0 <= stop || start < 0) ==> r.0 == r.1
  {
    var lo := SliceIndex(n, start);
    var hi := SliceIndex(n, stop);
    (lo, if hi < lo then lo else hi)
  }

  function Slice<T>(s: seq<T>, start: int, stop: int): (r: seq<T>)
    ensures |r| == SliceBounds(|s|, start, stop).1 - SliceBounds(|s|, start, stop).0
    ensures forall k | 0 <= k < |r| :: r[k] == s[SliceBounds(|s|, start, stop).0 + k]
  {
    var b := SliceBounds(|s|, start, stop);
    s[b.0..b.1]
  }

  // ---------------------------------------------------------------------------
  // str(n) for n >= 0 and str.zfill(width) on such a string.

  predicate IsDigit(c: char) { '0' <= c <= '9' }

  predicate AllDigits(s: string) { forall i | 0 <= i < |s| :: IsDigit(s[i]) }

  function DigitChar(d: nat): (c: char)
    requires d < 10
    ensures IsDigit(c) && c as int - '0' as int == d
  {
    ['0', '1', '2', '3', '4', '5', '6', '7', '8', '9'][d]
  }

  function DigitValue(c: char): nat
    requires IsDigit(c)
  {
    c as int - '0' as int
  }

  /** The number a string of decimal digits denotes (leading zeros allowed). */
  function DecimalValue(s: string): nat
    requires AllDigits(s)
  {
    if s == [] then 0 else DecimalValue(s[..|s| - 1]) * 10 + DigitValue(s[|s| - 1])
  }

  /** str(n): the shortest decimal spelling of n. */
  function DecimalString(n: nat): (s: string)
    ensures 1 <= |s| && AllDigits(s)
    ensures |s| > 1 ==> s[0] != '0'
  {
    if n < 10 then [DigitChar(n)] else DecimalString(n / 10) + [DigitChar(n % 10)]
  }

  lemma {:induction false} DecimalStringValue(n: nat)
    ensures DecimalValue(DecimalString(n)) == n
  {
    if n >= 10 {
      var s := DecimalString(n);
      assert s[..|s| - 1] == DecimalString(n / 10);
      DecimalStringValue(n / 10);
    }
  }

  lemma DecimalStringLength(n: nat)
    ensures n < 10 ==> |DecimalString(n)| == 1
    ensures 10 <= n < 100 ==> |DecimalString(n)| == 2
    ensures 100 <= n < 1000 ==> |DecimalString(n)| == 3
    ensures 1000 <= n < 10000 ==> |DecimalString(n)| == 4
  {
    if n >= 10 {
      DecimalStringLength(n / 10);
    }
  }

  function Zeros(k: nat): (z: string)
    ensures |z| == k && AllDigits(z)
  {
    seq(k, _ => '0')
  }

  /** s.zfill(width) for a string without a sign: '0's on the left up to width. */
  function ZFill(s: string, width: nat): (r: string)
    ensures |r| == Max(|s|, width)
    ensures r[|r| - |s|..] == s
    ensures forall i | 0 <= i < |r| - |s| :: r[i] == '0'
  {
    if |s| >= width then s else Zeros(width - |s|) + s
  }

  lemma {:induction false} ZerosValue(k: nat)
    ensures DecimalValue(Zeros(k)) == 0
  {
    if k > 0 {
      assert Zeros(k)[..k - 1] == Zeros(k - 1);
      ZerosValue(k - 1);
    }
  }

  lemma {:induction false} LeadingZerosValue(k: nat, s: string)
    requires AllDigits(s)
    ensures AllDigits(Zeros(k) + s)
    ensures DecimalValue(Zeros(k) + s) == DecimalValue(s)
    decreases |s|
  {
    var t := Zeros(k) + s;
    if s == [] {
      assert t == Zeros(k);
      ZerosValue(k);
    } else {
      assert t[..|t| - 1] == Zeros(k) + s[..|s| - 1];
      LeadingZerosValue(k, s[..|s| - 1]);
    }
  }

  /** str(n).zfill(3) for n < 1000 is three digits spelling n. */
  lemma Pad3(n: nat)
    requires n < 1000
    ensures |ZFill(DecimalString(n), 3)| == 3
    ensures AllDigits(ZFill(DecimalString(n), 3))
    ensures DecimalValue(ZFill(DecimalString(n), 3)) == n
  {
    var s := DecimalString(n);
    DecimalStringLength(n);
    DecimalStringValue(n);
    if |s| < 3 {
      LeadingZerosValue(3 - |s|, s);
    }
  }
}
