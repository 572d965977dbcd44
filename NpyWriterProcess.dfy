/** The file-rotation writer: a worker that takes frames off a queue and
    appends them to a .npy file, starting a new numbered file whenever the
    bytes written to the current one exceed a limit, and switching to a new
    base name when a configuration arrives. */
module NpyWriterProcess {
  import opened PyOps

  /** Digits of the numeric file-name suffix. */
  const ZPAD: nat := 3
  /** Capacity of the configuration queue. */
  const CFG_QUEUE_MAX: nat := 8

  /** One entry of the configuration queue: [str(fpath), int(maxsize)]. */
  datatype CfgEntry = CfgEntry(path: string, maxBytes: int)

  /** A frame taken off the write queue, with its size in bytes. */
  datatype Chunk<F> = Chunk(data: F, nbytes: nat)

  /** The frames appended to each file, by file name. */
  type Disk<F> = map<string, seq<Chunk<F>>>

  /** A stretch of writing the run loop has finished: the frames it appended
      to file from position start on, the limit in force meanwhile, and
      whether the loop left the file by rotation (or for a new configuration). */
  datatype Closed<F> = Closed(file: string, start: nat, chunks: seq<Chunk<F>>, limit: int, rotated: bool)

  /** The worker's fields (_fpath, _max_bytes, both queues), the locals of
      its run loop (open_file, open_path, open_index, written) and the files.
      The last two fields are bookkeeping of the model, not of the worker:
      where in the open file the current stretch began, and every stretch
      finished so far, oldest first. */
  datatype Writer<F> = Writer(
    fpath: Option<string>,
    maxBytes: int,
    cfgQueue: seq<CfgEntry>,
    buffer: seq<Chunk<F>>,
    openFile: Option<string>,
    openPath: Option<string>,
    openIndex: nat,
    written: nat,
    disk: Disk<F>,
    start: nat,
    closed: seq<Closed<F>>)

  /** The state when the worker is created and its loop has not yet run. */
  function Initial<F>(): (w: Writer<F>)
    ensures WellFormed(w) && Bounded(w) && Named(w)
    ensures w.openFile.None? && w.written == 0 && w.maxBytes == 0 && w.cfgQueue == [] && w.closed == []
  {
    Writer(None, 0, [], [], None, None, 0, 0, map[], 0, [])
  }

  predicate WellFormed<F>(w: Writer<F>) {
    && |w.cfgQueue| <= CFG_QUEUE_MAX
    && w.openFile == (if w.openPath.Some? then Some(NpyName(w.openPath.value)) else None)
    && (w.openPath.None? ==> w.written == 0 && w.maxBytes == 0 && w.openIndex == 0)
  }

  function NpyName(p: string): string { p + ".npy" }

  predicate IsNpy(f: string) { |f| >= 4 && f[|f| - 4..] == ".npy" }

  /** What a file holds so far; a file that does not exist holds nothing. */
  function Contents<F>(d: Disk<F>, f: string): seq<Chunk<F>> {
    if f in d then d[f] else []
  }

  lemma NpyNameIsNpy(p: string)
    ensures IsNpy(NpyName(p))
  {
    assert NpyName(p)[|p|..] == ".npy";
  }

  /** The bytes the frames cs count for. */
  function Bytes<F>(cs: seq<Chunk<F>>): nat {
    if cs == [] then 0 else Bytes(cs[..|cs| - 1]) + cs[|cs| - 1].nbytes
  }

  lemma BytesAppend<F>(cs: seq<Chunk<F>>, c: Chunk<F>)
    ensures Bytes(cs + [c]) == Bytes(cs) + c.nbytes
  {
    assert (cs + [c])[..|cs|] == cs;
  }

  /** The frames of file f from position start on. */
  function Since<F>(d: Disk<F>, f: string, start: nat): seq<Chunk<F>> {
    var c := Contents(d, f);
    c[Min(start, |c|)..]
  }

  /** The frames cs lie in file f from position start on. */
  ghost predicate Holds<F>(d: Disk<F>, f: string, start: nat, cs: seq<Chunk<F>>) {
    var c := Contents(d, f);
    start + |cs| <= |c| && c[start..start + |cs|] == cs
  }

  /** At most one frame past the limit: the frames before the last one fit in it. */
  predicate Fits<F>(cs: seq<Chunk<F>>, limit: int) {
    |cs| > 0 ==> Bytes(cs[..|cs| - 1]) <= Max(limit, 0)
  }

  /** A finished stretch is still in its file, fits its limit, and, if it
      ended by rotation, went past that limit. */
  ghost predicate Recorded<F>(d: Disk<F>, s: Closed<F>) {
    && IsNpy(s.file) && Holds(d, s.file, s.start, s.chunks) && Fits(s.chunks, s.limit)
    && (s.rotated ==> Bytes(s.chunks) > s.limit)
  }

  /** A file that only grew keeps every stretch recorded in it. */
  lemma {:induction false} GrowthKeeps<F>(d: Disk<F>, d': Disk<F>, s: Closed<F>)
    requires forall f | f in d && IsNpy(f) :: f in d' && d[f] <= d'[f]
    requires Recorded(d, s)
    ensures Recorded(d', s)
  {
    var c, c' := Contents(d, s.file), Contents(d', s.file);
    if s.file in d {
      assert c <= c';
      assert c'[s.start..s.start + |s.chunks|] == c[s.start..s.start + |s.chunks|];
    } else {
      assert s.chunks == [];
    }
  }

  /** str(i).zfill(ZPAD). */
  function Pad(i: nat): (s: string)
    ensures AllDigits(s) && |s| >= ZPAD
    ensures i < 1000 ==> |s| == ZPAD && DecimalValue(s) == i
  {
    var s := ZFill(DecimalString(i), ZPAD);
    assert forall k | 0 <= k < |s| :: IsDigit(s[k]) by {
      var d := DecimalString(i);
      forall k | 0 <= k < |s|
        ensures IsDigit(s[k])
      {
        if k >= |s| - |d| {
          assert s[k] == s[|s| - |d|..][k - (|s| - |d|)];
        }
      }
    }
    assert i < 1000 ==> |s| == ZPAD && DecimalValue(s) == i by {
      if i < 1000 {
        Pad3(i);
      }
    }
    s
  }

  lemma PadZero()
    ensures Pad(0) == "000"
  {
    assert DecimalString(0) == "0";
    assert Zeros(2) == "00";
  }

  /** open_path[0:-ZPAD] + str(index).zfill(ZPAD). */
  function RotatedPath(p: string, index: nat): (r: string)
    ensures |r| >= ZPAD && IsDigit(r[|r| - 1])
    ensures var n := if |p| >= ZPAD then |p| - ZPAD else 0; r == p[..n] + Pad(index)
  {
    var n := if |p| >= ZPAD then |p| - ZPAD else 0;
    assert Slice(p, 0, -(ZPAD as int)) == p[..n];
    Slice(p, 0, -(ZPAD as int)) + Pad(index)
  }

  /** Replacing a ZPAD-character suffix by a padded index below 1000 keeps
      the base and the length. */
  lemma RotatedPathKeepsBase(b: string, d: string, index: nat)
    requires |d| == ZPAD && index < 1000
    ensures RotatedPath(b + d, index) == b + Pad(index)
    ensures |RotatedPath(b + d, index)| == |b + d|
  {
    assert (b + d)[..|b|] == b;
  }

  lemma Decimal1000()
    ensures DecimalString(1000) == "1000" && DecimalString(1001) == "1001"
  {
    assert DigitChar(0) == '0' && DigitChar(1) == '1';
    assert DecimalString(1) == "1";
    assert DecimalString(10) == "10";
    assert DecimalString(100) == "100";
  }

  /** Past index 999 the suffix grows and rotation starts eating the base:
      run_999 becomes run_1000, and that becomes run_11001. */
  lemma SuffixOverflow()
    ensures RotatedPath("run_999", 1000) == "run_1000"
    ensures RotatedPath("run_1000", 1001) == "run_11001"
  {
    SuffixTo1000();
    SuffixTo1001();
  }

  lemma SuffixTo1000()
    ensures RotatedPath("run_999", 1000) == "run_1000"
  {
    Decimal1000();
    assert "run_999"[..4] == "run_";
    assert "run_" + "1000" == "run_1000";
  }

  lemma SuffixTo1001()
    ensures RotatedPath("run_1000", 1001) == "run_11001"
  {
    Decimal1000();
    assert "run_1000"[..5] == "run_1";
    assert "run_1" + "1001" == "run_11001";
  }

  /** The removed path ends in a digit, so it is never the name of a .npy file. */
  function Remove<F>(d: Disk<F>, p: string): (r: Disk<F>)
    requires |p| > 0 && IsDigit(p[|p| - 1])
    ensures r.Keys == d.Keys - {p}
    ensures forall f | f in d && IsNpy(f) :: f in r && r[f] == d[f]
  {
    d - {p}
  }

  /** The frames appended to the open file since the loop opened it. */
  function Current<F>(w: Writer<F>): seq<Chunk<F>> {
    if w.openFile.Some? then Since(w.disk, w.openFile.value, w.start) else []
  }

  /** The stretch that ends when the loop leaves the open file. */
  function Finished<F>(w: Writer<F>, rotated: bool): Closed<F>
    requires w.openFile.Some?
  {
    Closed(w.openFile.value, w.start, Current(w), w.maxBytes, rotated)
  }

  /** NpyWriterProcess.py:54-62: a new file once the counter has passed the limit. */
  function Rotate<F>(w: Writer<F>): (r: Writer<F>)
    requires WellFormed(w) && w.openPath.Some?
    ensures WellFormed(r)
    ensures r.written == 0 && r.openIndex == w.openIndex + 1
    ensures r.openPath == Some(RotatedPath(w.openPath.value, w.openIndex + 1))
    ensures r.openFile == Some(NpyName(r.openPath.value))
    ensures r.disk.Keys == w.disk.Keys - {r.openPath.value}
    ensures forall f | f in w.disk && IsNpy(f) :: f in r.disk && r.disk[f] == w.disk[f]
    ensures r.fpath == w.fpath && r.maxBytes == w.maxBytes && r.cfgQueue == w.cfgQueue && r.buffer == w.buffer
    // The new stretch starts at the end of the new file; the old one is finished.
    ensures r.start == |Contents(r.disk, r.openFile.value)| && Current(r) == []
    ensures r.closed == w.closed + [Finished(w, true)]
  {
    var index := w.openIndex + 1;
    var p := RotatedPath(w.openPath.value, index);
    assert IsDigit(p[|p| - 1]) by {
      assert p[|p| - 1] == Pad(index)[|Pad(index)| - 1];
    }
    var d := Remove(w.disk, p);
    w.(written := 0, openIndex := index, openPath := Some(p), disk := d, openFile := Some(NpyName(p)),
       start := |Contents(d, NpyName(p))|, closed := w.closed + [Finished(w, true)])
  }

  /** NpyWriterProcess.py:65-76: the head of the configuration queue opens base_000. */
  function ApplyConfig<F>(w: Writer<F>): (r: Writer<F>)
    requires WellFormed(w) && |w.cfgQueue| > 0
    ensures WellFormed(r) && r.cfgQueue == w.cfgQueue[1..]
    ensures var p := w.cfgQueue[0].path + "_000";
      && r.openIndex == 0 && r.written == 0 && r.maxBytes == w.cfgQueue[0].maxBytes
      && r.fpath == Some(p) && r.openPath == Some(p) && r.openFile == Some(NpyName(p))
      && r.disk.Keys == w.disk.Keys - {p}
    ensures forall f | f in w.disk && IsNpy(f) :: f in r.disk && r.disk[f] == w.disk[f]
    ensures r.buffer == w.buffer
    // The new stretch starts at the end of base_000.npy, which may already hold frames.
    ensures r.start == |Contents(r.disk, r.openFile.value)| && Current(r) == []
    ensures r.closed == w.closed + if w.openFile.Some? then [Finished(w, false)] else []
  {
    var cfg := w.cfgQueue[0];
    var p := cfg.path + "_" + Pad(0);
    assert p == cfg.path + "_000" by {
      PadZero();
    }
    var d := Remove(w.disk, p);
    w.(cfgQueue := w.cfgQueue[1..], openIndex := 0, fpath := Some(p), maxBytes := cfg.maxBytes,
       written := 0, openPath := Some(p), disk := d, openFile := Some(NpyName(p)),
       start := |Contents(d, NpyName(p))|,
       closed := w.closed + if w.openFile.Some? then [Finished(w, false)] else [])
  }

  /** Taking a configuration, field by field, as the worker's loop performs it. */
  lemma ConfigFields<F>(w: Writer<F>)
    requires WellFormed(w) && |w.cfgQueue| > 0
    ensures var p := w.cfgQueue[0].path + "_000";
      var r := ConfigIfAny(w);
      && |p| > 0 && IsDigit(p[|p| - 1])
      && r.cfgQueue == w.cfgQueue[1..] && r.openIndex == 0 && r.fpath == Some(p)
      && r.maxBytes == w.cfgQueue[0].maxBytes && r.written == 0 && r.openPath == Some(p)
      && r.disk == Remove(w.disk, p) && r.openFile == Some(NpyName(p)) && r.buffer == w.buffer
  {
    PadZero();
  }

  /** NpyWriterProcess.py:80-86: with a file open, the next frame (if any)
      is appended to it and counted. */
  function AppendFrame<F>(w: Writer<F>): (r: Writer<F>)
    requires WellFormed(w) && w.openFile.Some?
    ensures WellFormed(r)
    ensures w.buffer == [] ==> r == w
    ensures w.buffer != [] ==>
      var f := w.buffer[0];
      && r.buffer == w.buffer[1..]
      && r.written == w.written + f.nbytes
      && r.disk == w.disk[w.openFile.value := Contents(w.disk, w.openFile.value) + [f]]
      && r.(buffer := w.buffer, written := w.written, disk := w.disk) == w
  {
    if w.buffer == [] then w
    else
      var f := w.buffer[0];
      w.(buffer := w.buffer[1..], written := w.written + f.nbytes,
         disk := w.disk[w.openFile.value := Contents(w.disk, w.openFile.value) + [f]])
  }

  /** The counter is the byte count of the frames appended to the open file
      since it was opened, and those run at most one frame past the limit;
      every stretch finished earlier is still in its file and kept the same
      bound, and one that ended by rotation went past its limit. */
  ghost predicate Bounded<F>(w: Writer<F>)
    requires WellFormed(w)
  {
    && (w.openFile.Some? ==> w.start <= |Contents(w.disk, w.openFile.value)|)
    && w.written == Bytes(Current(w))
    && Fits(Current(w), w.maxBytes)
    && forall k | 0 <= k < |w.closed| :: Recorded(w.disk, w.closed[k])
  }

  /** Finished stretches survive any change that only makes .npy files grow. */
  lemma {:induction false} AllGrowthKeeps<F>(d: Disk<F>, d': Disk<F>, closed: seq<Closed<F>>)
    requires forall f | f in d && IsNpy(f) :: f in d' && d[f] <= d'[f]
    requires forall k | 0 <= k < |closed| :: Recorded(d, closed[k])
    ensures forall k | 0 <= k < |closed| :: Recorded(d', closed[k])
  {
    forall k | 0 <= k < |closed|
      ensures Recorded(d', closed[k])
    {
      GrowthKeeps(d, d', closed[k]);
    }
  }

  /** Leaving the open file records its stretch, which fits the limit and, on
      a rotation, has passed it. */
  lemma {:induction false} FinishedRecorded<F>(w: Writer<F>, d': Disk<F>, rotated: bool)
    requires WellFormed(w) && Bounded(w) && w.openFile.Some?
    requires w.openFile.value in w.disk ==> w.openFile.value in d' && w.disk[w.openFile.value] <= d'[w.openFile.value]
    requires rotated ==> w.written > w.maxBytes
    ensures Recorded(d', Finished(w, rotated))
  {
    var f := w.openFile.value;
    NpyNameIsNpy(w.openPath.value);
    var c, c' := Contents(w.disk, f), Contents(d', f);
    assert c <= c';
    assert Current(w) == c[w.start..];
    assert c'[w.start..w.start + |Current(w)|] == c[w.start..];
  }

  /** A file just opened, with every finished stretch recorded, is within the bound. */
  lemma FreshBounded<F>(r: Writer<F>)
    requires WellFormed(r) && r.openFile.Some? && r.written == 0
    requires r.start == |Contents(r.disk, r.openFile.value)|
    requires forall k | 0 <= k < |r.closed| :: Recorded(r.disk, r.closed[k])
    ensures Bounded(r)
  {
    assert Current(r) == [];
  }

  lemma RecordedAppend<F>(d: Disk<F>, closed: seq<Closed<F>>, s: Closed<F>)
    requires forall k | 0 <= k < |closed| :: Recorded(d, closed[k])
    requires Recorded(d, s)
    ensures forall k | 0 <= k < |closed + [s]| :: Recorded(d, (closed + [s])[k])
  {
    forall k | 0 <= k < |closed + [s]|
      ensures Recorded(d, (closed + [s])[k])
    {
      if k < |closed| {
        assert (closed + [s])[k] == closed[k];
      }
    }
  }

  /** A rotation past the limit keeps the bound. */
  lemma {:induction false} RotateBounded<F>(w: Writer<F>)
    requires WellFormed(w) && w.openPath.Some? && Bounded(w) && w.written > w.maxBytes
    ensures Bounded(Rotate(w))
  {
    var r := Rotate(w);
    NpyNameIsNpy(w.openPath.value);
    LeavingKeeps(w.disk, r.disk, w.openFile.value);
    FinishedRecorded(w, r.disk, true);
    AllGrowthKeeps(w.disk, r.disk, w.closed);
    RecordedAppend(r.disk, w.closed, Finished(w, true));
    FreshBounded(r);
  }

  /** A change that leaves every .npy file as it was lets them all grow, and
      keeps the .npy file f in particular. */
  lemma LeavingKeeps<F>(d: Disk<F>, d': Disk<F>, f: string)
    requires forall g | g in d && IsNpy(g) :: g in d' && d'[g] == d[g]
    requires IsNpy(f)
    ensures forall g | g in d && IsNpy(g) :: g in d' && d[g] <= d'[g]
    ensures f in d ==> f in d' && d[f] <= d'[f]
  {
  }

  /** Applying a configuration keeps the bound. */
  lemma {:induction false} ConfigBounded<F>(w: Writer<F>)
    requires WellFormed(w) && |w.cfgQueue| > 0 && Bounded(w)
    ensures Bounded(ApplyConfig(w))
  {
    var r := ApplyConfig(w);
    AllGrowthKeeps(w.disk, r.disk, w.closed);
    if w.openFile.Some? {
      NpyNameIsNpy(w.openPath.value);
      LeavingKeeps(w.disk, r.disk, w.openFile.value);
      FinishedRecorded(w, r.disk, false);
      RecordedAppend(r.disk, w.closed, Finished(w, false));
    } else {
      LeavingKeeps(w.disk, r.disk, ".npy");
      assert r.closed == w.closed;
    }
    FreshBounded(r);
  }

  /** Appending a frame while the counter is within the limit keeps the bound. */
  lemma {:induction false} AppendBounded<F>(w: Writer<F>)
    requires WellFormed(w) && w.openFile.Some? && Bounded(w) && w.written <= Max(w.maxBytes, 0)
    ensures Bounded(AppendFrame(w))
  {
    if w.buffer != [] {
      var f, x := w.openFile.value, w.buffer[0];
      var d := w.disk[f := Contents(w.disk, f) + [x]];
      SinceAppend(w.disk, f, w.start, x);
      BytesAppend(Current(w), x);
      assert (Current(w) + [x])[..|Current(w)|] == Current(w);
      AppendGrows(w.disk, f, x);
      AllGrowthKeeps(w.disk, d, w.closed);
      assert AppendFrame(w) == w.(buffer := w.buffer[1..], written := w.written + x.nbytes, disk := d);
    }
  }

  /** Appending x to file f adds x to the frames of f since any position within it. */
  lemma SinceAppend<F>(d: Disk<F>, f: string, start: nat, x: Chunk<F>)
    requires start <= |Contents(d, f)|
    ensures Since(d[f := Contents(d, f) + [x]], f, start) == Since(d, f, start) + [x]
    ensures start <= |Contents(d[f := Contents(d, f) + [x]], f)|
  {
    var c := Contents(d, f);
    assert Contents(d[f := c + [x]], f) == c + [x];
    assert (c + [x])[start..] == c[start..] + [x];
  }

  /** Appending to one file makes every file grow or stay. */
  lemma AppendGrows<F>(d: Disk<F>, f: string, x: Chunk<F>)
    ensures forall g | g in d :: g in d[f := Contents(d, f) + [x]] && d[g] <= d[f := Contents(d, f) + [x]][g]
  {
  }

  /** While the index is below 1000 the open path is the configured base
      followed by the zero-padded index. */
  predicate Named<F>(w: Writer<F>)
    requires WellFormed(w)
  {
    w.openPath.Some? ==> w.fpath.Some? && NamedPath(w.fpath.value, w.openPath.value, w.openIndex)
  }

  /** p is fp without its last ZPAD characters followed by Pad(i), while i
      is below 1000. */
  predicate NamedPath(fp: string, p: string, i: nat) {
    |fp| >= ZPAD && (i < 1000 ==> p == fp[..|fp| - ZPAD] + Pad(i))
  }

  /** The rotation, field by field, as the worker's loop performs it. */
  lemma RotationFields<F>(w: Writer<F>)
    requires WellFormed(w) && w.written > w.maxBytes
    ensures var p := RotatedPath(w.openPath.value, w.openIndex + 1);
      var r := RotateIfFull(w);
      && |p| > 0 && IsDigit(p[|p| - 1])
      && r.written == 0 && r.openIndex == w.openIndex + 1 && r.openPath == Some(p)
      && r.disk == Remove(w.disk, p) && r.openFile == Some(NpyName(p))
      && r.fpath == w.fpath && r.maxBytes == w.maxBytes && r.cfgQueue == w.cfgQueue && r.buffer == w.buffer
  {
  }

  /** NpyWriterProcess.py:54-62: the rotation check. Afterwards the counter
      is within the limit (or zero, when the limit is negative). */
  function RotateIfFull<F>(w: Writer<F>): (r: Writer<F>)
    requires WellFormed(w)
    ensures WellFormed(r) && r.written <= Max(r.maxBytes, 0)
    ensures w.written <= w.maxBytes ==> r == w
    ensures w.written > w.maxBytes ==> r == Rotate(w)
    ensures r.closed == w.closed || r.closed == w.closed + [Finished(w, true)]
  {
    if w.written > w.maxBytes then Rotate(w) else w
  }

  /** The rotation check keeps the bound and the naming. */
  lemma RotateKeeps<F>(w: Writer<F>)
    requires WellFormed(w)
    ensures Named(w) ==> Named(RotateIfFull(w))
    ensures Bounded(w) ==> Bounded(RotateIfFull(w))
  {
    if w.written > w.maxBytes {
      if Named(w) {
        RotateKeepsNamed(w);
      }
      if Bounded(w) {
        RotateBounded(w);
      }
    }
  }

  lemma RotateKeepsNamed<F>(w: Writer<F>)
    requires WellFormed(w) && w.openPath.Some? && Named(w)
    ensures Named(Rotate(w))
  {
    NamedAfterRotation(w, Rotate(w));
  }

  /** Named carries over to any state with the same base path, the next
      index and the rotated path. */
  lemma NamedAfterRotation<F>(w: Writer<F>, r: Writer<F>)
    requires WellFormed(w) && w.openPath.Some? && Named(w) && WellFormed(r)
    requires r.fpath == w.fpath && r.openIndex == w.openIndex + 1
    requires r.openPath == Some(RotatedPath(w.openPath.value, w.openIndex + 1))
    ensures Named(r)
  {
    NextName(w.fpath.value, w.openPath.value, w.openIndex);
  }

  /** If p is the base of fp followed by Pad(i), the rotated name of p is
      that base followed by Pad(i + 1). */
  lemma NextName(fp: string, p: string, i: nat)
    requires NamedPath(fp, p, i)
    ensures NamedPath(fp, RotatedPath(p, i + 1), i + 1)
  {
    if i + 1 < 1000 {
      RotatedPathKeepsBase(fp[..|fp| - ZPAD], Pad(i), i + 1);
    }
  }

  /** NpyWriterProcess.py:63-79: the configuration poll. */
  function ConfigIfAny<F>(w: Writer<F>): (r: Writer<F>)
    requires WellFormed(w)
    ensures WellFormed(r)
    ensures |w.cfgQueue| == 0 ==> r == w
    ensures |w.cfgQueue| > 0 ==> r == ApplyConfig(w)
    ensures w.written <= Max(w.maxBytes, 0) ==> r.written <= Max(r.maxBytes, 0)
    ensures Bounded(w) ==> Bounded(r)
    ensures Named(w) ==> Named(r)
    ensures r.closed == w.closed || r.closed == w.closed + [Finished(w, false)]
  {
    if |w.cfgQueue| > 0 then
      var r := ApplyConfig(w);
      assert Named(r) by {
        var fp := r.fpath.value;
        assert fp[..|fp| - ZPAD] + "000" == fp;
        PadZero();
      }
      assert Bounded(w) ==> Bounded(r) by {
        if Bounded(w) {
          ConfigBounded(w);
        }
      }
      r
    else w
  }

  /** NpyWriterProcess.py:80-86: with a file open, one frame if one is waiting. */
  function AppendIfOpen<F>(w: Writer<F>): (r: Writer<F>)
    requires WellFormed(w)
    ensures WellFormed(r)
    ensures w.openFile.None? ==> r == w
    ensures w.openFile.Some? ==> r == AppendFrame(w)
    ensures Bounded(w) && w.written <= Max(w.maxBytes, 0) ==> Bounded(r)
    ensures Named(w) ==> Named(r)
    ensures && r.openFile == w.openFile && r.openPath == w.openPath && r.openIndex == w.openIndex
            && r.maxBytes == w.maxBytes && r.cfgQueue == w.cfgQueue
    ensures forall f | f in w.disk :: f in r.disk && w.disk[f] <= r.disk[f]
    ensures r.closed == w.closed
  {
    if w.openFile.Some? then
      assert Bounded(w) && w.written <= Max(w.maxBytes, 0) ==> Bounded(AppendFrame(w)) by {
        if Bounded(w) && w.written <= Max(w.maxBytes, 0) {
          AppendBounded(w);
        }
      }
      AppendFrame(w)
    else w
  }

  /** One iteration of the run loop. */
  function PassStep<F>(w: Writer<F>): (r: Writer<F>)
    requires WellFormed(w)
    ensures WellFormed(r)
    ensures Bounded(w) ==> Bounded(r)
    ensures Named(w) ==> Named(r)
    // A configuration waiting takes precedence over a rotation due together.
    ensures |w.cfgQueue| > 0 ==>
      && r.openIndex == 0 && r.maxBytes == w.cfgQueue[0].maxBytes
      && r.openPath == Some(w.cfgQueue[0].path + "_000") && r.cfgQueue == w.cfgQueue[1..]
    // Rotation is strict: reaching the limit exactly does not start a file.
    ensures |w.cfgQueue| == 0 && w.written <= w.maxBytes ==>
      r.openPath == w.openPath && r.openIndex == w.openIndex && r.maxBytes == w.maxBytes
    ensures |w.cfgQueue| == 0 && w.written > w.maxBytes ==>
      && r.openIndex == w.openIndex + 1 && r.maxBytes == w.maxBytes
      && r.openPath == Some(RotatedPath(w.openPath.value, w.openIndex + 1))
    // A frame is consumed exactly when a file is open and one is waiting;
    // it is counted in full and appended after what the file already holds.
    ensures r.openFile.None? || w.buffer == [] ==> r.buffer == w.buffer
    ensures r.openFile.Some? && w.buffer != [] ==>
      && r.buffer == w.buffer[1..]
      && r.openFile.value in r.disk
      && r.disk[r.openFile.value] == Contents(Rotations(w).disk, r.openFile.value) + [w.buffer[0]]
      && r.written == Rotations(w).written + w.buffer[0].nbytes
    ensures r.openFile.Some? && w.buffer == [] ==> r.written == Rotations(w).written
    // No existing .npy file loses a frame.
    ensures forall f | f in w.disk && IsNpy(f) :: f in r.disk && w.disk[f] <= r.disk[f]
  {
    AppendIfOpen(Rotations(w))
  }

  /** The file the pass writes to, after rotation and configuration. */
  function Rotations<F>(w: Writer<F>): (r: Writer<F>)
    requires WellFormed(w)
    ensures WellFormed(r) && r.written <= Max(r.maxBytes, 0) && r.buffer == w.buffer
    ensures r.written == (if |w.cfgQueue| > 0 || w.written > w.maxBytes then 0 else w.written)
    ensures Bounded(w) ==> Bounded(r)
    ensures Named(w) ==> Named(r)
    ensures forall f | f in w.disk && IsNpy(f) :: f in r.disk && r.disk[f] == w.disk[f]
    ensures |w.cfgQueue| > 0 ==>
      && r.openIndex == 0 && r.maxBytes == w.cfgQueue[0].maxBytes
      && r.openPath == Some(w.cfgQueue[0].path + "_000") && r.cfgQueue == w.cfgQueue[1..]
    ensures |w.cfgQueue| == 0 && w.written <= w.maxBytes ==> r == w
    ensures |w.cfgQueue| == 0 && w.written > w.maxBytes ==> r == Rotate(w)
  {
    RotateKeeps(w);
    ConfigIfAny(RotateIfFull(w))
  }

  /** config: a non-blocking put; false where the source raises queue.Full. */
  function ConfigStep<F>(w: Writer<F>, fpath: string, maxsize: int): (r: (Writer<F>, bool))
    requires WellFormed(w)
    ensures WellFormed(r.0)
    ensures r.1 <==> |w.cfgQueue| < CFG_QUEUE_MAX
    ensures r.0 == if r.1 then w.(cfgQueue := w.cfgQueue + [CfgEntry(fpath, maxsize)]) else w
  {
    if |w.cfgQueue| < CFG_QUEUE_MAX then (w.(cfgQueue := w.cfgQueue + [CfgEntry(fpath, maxsize)]), true)
    else (w, false)
  }

  /** What the worker's owner and its loop do, in the order they happen. */
  datatype Event<F> = Configure(fpath: string, maxsize: int) | Push(frame: Chunk<F>) | Pass

  function Apply<F>(w: Writer<F>, e: Event<F>): (r: Writer<F>)
    requires WellFormed(w)
    ensures WellFormed(r)
    ensures Bounded(w) ==> Bounded(r)
    ensures Named(w) ==> Named(r)
  {
    match e
    case Configure(p, m) =>
      QueuesOnly(w, ConfigStep(w, p, m).0);
      ConfigStep(w, p, m).0
    case Push(f) =>
      QueuesOnly(w, w.(buffer := w.buffer + [f]));
      w.(buffer := w.buffer + [f])
    case Pass => PassStep(w)
  }

  /** The bound and the naming do not depend on the two queues. */
  lemma QueuesOnly<F>(w: Writer<F>, v: Writer<F>)
    requires WellFormed(w) && WellFormed(v)
    requires v == w.(cfgQueue := v.cfgQueue, buffer := v.buffer)
    ensures Bounded(w) ==> Bounded(v)
    ensures Named(w) ==> Named(v)
  {
    assert Current(v) == Current(w);
  }

  /** The state after a schedule of events. */
  function Replay<F>(w: Writer<F>, es: seq<Event<F>>): (r: Writer<F>)
    requires WellFormed(w)
    ensures WellFormed(r)
    ensures Bounded(w) ==> Bounded(r)
    ensures Named(w) ==> Named(r)
  {
    if es == [] then w else Apply(Replay(w, es[..|es| - 1]), es[|es| - 1])
  }

  /** A schedule one event longer ends one event later. */
  lemma ReplayNext<F>(w: Writer<F>, es: seq<Event<F>>, i: nat)
    requires WellFormed(w) && i < |es|
    ensures Replay(w, es[..i + 1]) == Apply(Replay(w, es[..i]), es[i])
  {
    assert es[..i + 1][..i] == es[..i];
  }

  /** A step only adds finished stretches after those already recorded. */
  lemma ApplyKeepsHistory<F>(w: Writer<F>, e: Event<F>)
    requires WellFormed(w)
    ensures w.closed <= Apply(w, e).closed
  {
    if e.Pass? {
      RotationsKeepHistory(w);
    }
  }

  lemma RotationsKeepHistory<F>(w: Writer<F>)
    requires WellFormed(w)
    ensures w.closed <= Rotations(w).closed
  {
    var u := RotateIfFull(w);
    assert w.closed <= u.closed;
    assert u.closed <= ConfigIfAny(u).closed;
  }

  /** No finished stretch is ever forgotten. */
  lemma {:induction false} ReplayKeepsHistory<F>(w: Writer<F>, es: seq<Event<F>>)
    requires WellFormed(w)
    ensures w.closed <= Replay(w, es).closed
  {
    if es != [] {
      ReplayKeepsHistory(w, es[..|es| - 1]);
      ApplyKeepsHistory(Replay(w, es[..|es| - 1]), es[|es| - 1]);
    }
  }

  /** For a fresh worker over any existing files and any schedule: every file
      the loop has left still holds, where its stretch began, the frames the
      loop appended to it; all but the last of them fit the limit, and when
      the loop left by rotation they went past it. So a rotated file holds at
      most max_bytes plus the one frame that crossed it, beyond whatever it
      held before. */
  lemma {:induction false} LeftFilesFit<F>(files: Disk<F>, es: seq<Event<F>>)
    ensures WellFormed(Initial<F>().(disk := files))
    ensures var r := Replay(Initial<F>().(disk := files), es);
      forall s | s in r.closed ::
        && Holds(r.disk, s.file, s.start, s.chunks) && Fits(s.chunks, s.limit)
        && (s.rotated ==> Bytes(s.chunks) > s.limit)
  {
    var w := Initial<F>().(disk := files);
    assert Bounded(w);
    var r := Replay(w, es);
    forall s | s in r.closed
      ensures Holds(r.disk, s.file, s.start, s.chunks) && Fits(s.chunks, s.limit)
      ensures s.rotated ==> Bytes(s.chunks) > s.limit
    {
      var k :| 0 <= k < |r.closed| && r.closed[k] == s;
      assert Recorded(r.disk, r.closed[k]);
    }
  }

  /** A configuration with k rotations after it, for k below 1000, writes
      to base_ followed by k in three digits. */
  lemma {:induction false} NameAfterConfig<F>(w: Writer<F>, base: string)
    requires WellFormed(w) && Named(w) && w.openPath.Some?
    requires w.fpath == Some(base + "_000") && w.openIndex < 1000
    ensures w.openPath.value == base + "_" + Pad(w.openIndex)
    ensures |w.openPath.value| == |base| + 4
  {
    var fp := base + "_000";
    assert fp[..|fp| - ZPAD] == base + "_";
  }

  /** A pass below the limit with no configuration waiting appends the next
      frame to the open file and changes nothing else. */
  lemma PassWithinLimit<F>(w: Writer<F>)
    requires WellFormed(w) && w.cfgQueue == [] && w.written <= w.maxBytes
    requires w.openFile.Some? && w.buffer != []
    ensures PassStep(w) == w.(buffer := w.buffer[1..], written := w.written + w.buffer[0].nbytes,
                              disk := w.disk[w.openFile.value := Contents(w.disk, w.openFile.value) + [w.buffer[0]]])
  {
    assert Rotations(w) == w;
  }

  /** A pass past the limit with no configuration waiting opens the next
      numbered file, empties the counter and puts the frame there. */
  lemma PassPastLimit<F>(w: Writer<F>)
    requires WellFormed(w) && w.cfgQueue == [] && w.written > w.maxBytes && w.buffer != []
    ensures var p := RotatedPath(w.openPath.value, w.openIndex + 1);
      PassStep(w) == w.(buffer := w.buffer[1..], written := w.buffer[0].nbytes, openIndex := w.openIndex + 1,
                        openPath := Some(p), openFile := Some(NpyName(p)),
                        disk := (w.disk - {p})[NpyName(p) := Contents(w.disk - {p}, NpyName(p)) + [w.buffer[0]]],
                        start := |Contents(w.disk - {p}, NpyName(p))|, closed := w.closed + [Finished(w, true)])
  {
    assert Rotations(w) == Rotate(w);
  }

  /** The worker configured for base "run" with a 1000-byte limit, writing
      run_000, with the given frames still queued. */
  function RunAt<F>(buffer: seq<Chunk<F>>, written: nat, disk: Disk<F>): (w: Writer<F>)
    ensures WellFormed(w) && w.openFile == Some("run_000.npy")
  {
    assert NpyName("run_000") == "run_000.npy";
    Writer(Some("run_000"), 1000, [], buffer, Some("run_000.npy"), Some("run_000"), 0, written, disk, 0, [])
  }

  /** A 1000-byte limit with 400-byte frames: the configuration pass opens
      run_000.npy and writes the first frame, */
  lemma {:induction false} RotationScenarioConfig<F>(c: Chunk<F>)
    requires c.nbytes == 400
    ensures PassStep(Initial<F>().(cfgQueue := [CfgEntry("run", 1000)], buffer := [c, c, c, c]))
         == RunAt([c, c, c], 400, map["run_000.npy" := [c]])
  {
    var w0 := Initial<F>().(cfgQueue := [CfgEntry("run", 1000)], buffer := [c, c, c, c]);
    assert "run" + "_000" == "run_000";
    assert NpyName("run_000") == "run_000.npy";
    assert RotateIfFull(w0) == w0;
    var r0 := ApplyConfig(w0);
    assert r0.disk == map[] && r0.closed == [] && r0.start == 0;
    assert r0 == RunAt([c, c, c, c], 0, map[]);
    assert [c, c, c, c][1..] == [c, c, c];
  }

  /** the next two passes stay on run_000 and bring it to 1200 bytes, */
  lemma {:induction false} RotationScenarioFill<F>(c: Chunk<F>)
    requires c.nbytes == 400
    ensures PassStep(RunAt([c, c, c], 400, map["run_000.npy" := [c]]))
         == RunAt([c, c], 800, map["run_000.npy" := [c, c]])
    ensures PassStep(RunAt([c, c], 800, map["run_000.npy" := [c, c]]))
         == RunAt([c], 1200, map["run_000.npy" := [c, c, c]])
  {
    assert [c] + [c, c] == [c, c, c] && [c] + [c] == [c, c];
    RunAtAppend(c, [c, c], 400, [c]);
    assert [c, c] + [c] == [c, c, c];
    RunAtAppend(c, [c], 800, [c, c]);
  }

  /** Writing run_000 within the limit: the next frame goes at its end. */
  lemma RunAtAppend<F>(c: Chunk<F>, rest: seq<Chunk<F>>, written: nat, frames: seq<Chunk<F>>)
    requires written <= 1000
    ensures PassStep(RunAt([c] + rest, written, map["run_000.npy" := frames]))
         == RunAt(rest, written + c.nbytes, map["run_000.npy" := frames + [c]])
  {
    var w := RunAt([c] + rest, written, map["run_000.npy" := frames]);
    PassWithinLimit(w);
    assert ([c] + rest)[1..] == rest;
    assert Contents(w.disk, "run_000.npy") == frames;
  }

  /** and the fourth pass, past the limit, opens run_001.npy with the
      counter at zero before writing the last frame there. */
  lemma {:induction false} RotationScenarioRotate<F>(c: Chunk<F>)
    requires c.nbytes == 400
    ensures var w4 := PassStep(RunAt([c], 1200, map["run_000.npy" := [c, c, c]]));
      && w4.openPath == Some("run_001") && w4.openIndex == 1 && w4.written == 400
      && w4.disk == map["run_000.npy" := [c, c, c], "run_001.npy" := [c]]
      && w4.closed == [Closed("run_000.npy", 0, [c, c, c], 1000, true)]
  {
    var d := map["run_000.npy" := [c, c, c]];
    var w3 := RunAt([c], 1200, d);
    assert "run_001.npy" !in d by {
      assert "run_001.npy"[6] != "run_000.npy"[6];
    }
    PassPastLimit(w3);
    RotateRun000(w3);
    assert Contents(d, "run_001.npy") + [c] == [c];
  }

  /** Past the limit, run_000 rotates to run_001; nothing named run_001 is on disk. */
  lemma RotateRun000<F>(w: Writer<F>)
    requires w == RunAt(w.buffer, w.written, w.disk) && w.written > 1000
    requires forall f | f in w.disk :: IsNpy(f)
    requires "run_000.npy" in w.disk && "run_001.npy" !in w.disk
    ensures Rotate(w) == Writer(Some("run_000"), 1000, [], w.buffer, Some("run_001.npy"), Some("run_001"), 1, 0, w.disk,
                                0, [Closed("run_000.npy", 0, w.disk["run_000.npy"], 1000, true)])
    ensures RotatedPath("run_000", 1) == "run_001" && NpyName("run_001") == "run_001.npy"
    ensures w.disk - {"run_001"} == w.disk
  {
    Run001Names();
    assert "run_001" !in w.disk;
    assert w.disk - {"run_001"} == w.disk;
    assert Current(w) == w.disk["run_000.npy"];
    assert Contents(w.disk, "run_001.npy") == [];
  }

  lemma Run001Names()
    ensures RotatedPath("run_000", 1) == "run_001"
    ensures NpyName("run_001") == "run_001.npy"
    ensures !IsNpy("run_001")
  {
    PadOne();
    assert "run_000"[..4] == "run_";
    assert "run_001"[3..] != ".npy" by {
      assert "run_001"[3..][0] == '_';
    }
  }

  lemma PadOne()
    ensures Pad(1) == "001"
  {
    assert DecimalString(1) == "1";
    assert Zeros(2) == "00";
  }

  /** Configuring the same base again reopens base_000.npy and keeps
      appending after the frames already in it. */
  lemma {:induction false} ReconfigureAppends<F>(w: Writer<F>, f: Chunk<F>)
    requires WellFormed(w) && |w.cfgQueue| > 0 && w.buffer == [f]
    requires NpyName(w.cfgQueue[0].path + "_000") in w.disk
    ensures var name := NpyName(w.cfgQueue[0].path + "_000");
      PassStep(w).disk[name] == w.disk[name] + [f]
  {
    var name := NpyName(w.cfgQueue[0].path + "_000");
    var w1 := if w.written > w.maxBytes then Rotate(w) else w;
    assert IsNpy(name) by {
      assert name[|name| - 4..] == ".npy";
    }
    assert w1.disk[name] == w.disk[name];
  }

  class NpyWriterProcess<F> {
    var fpath: Option<string>
    var maxBytes: int
    var cfgQueue: seq<CfgEntry>
    var buffer: seq<Chunk<F>>
    /** The files the worker writes. */
    var disk: Disk<F>

    /** The fields and the loop's locals are those of the abstract state `w`
        (whose `start` and `closed` are bookkeeping for the proofs only). */
    ghost predicate Models(openFile: Option<string>, openPath: Option<string>, openIndex: nat, written: nat, w: Writer<F>)
      reads this
    {
      && fpath == w.fpath && maxBytes == w.maxBytes && cfgQueue == w.cfgQueue && buffer == w.buffer
      && openFile == w.openFile && openPath == w.openPath && openIndex == w.openIndex && written == w.written
      && disk == w.disk
    }

    constructor (files: Disk<F>)
      ensures Models(None, None, 0, 0, Initial<F>().(disk := files))
    {
      fpath := None;
      maxBytes := 0;
      cfgQueue := [];
      buffer := [];
      disk := files;
    }

    method Enqueue(f: Chunk<F>)
      modifies this`buffer
      ensures buffer == old(buffer) + [f]
    {
      buffer := buffer + [f];
    }

    /** Queue a new base path and size limit; false if eight are waiting. */
    method Config(path: string, maxsize: int) returns (accepted: bool)
      requires |cfgQueue| <= CFG_QUEUE_MAX
      modifies this`cfgQueue
      ensures |cfgQueue| <= CFG_QUEUE_MAX
      ensures accepted <==> |old(cfgQueue)| < CFG_QUEUE_MAX
      ensures cfgQueue == if accepted then old(cfgQueue) + [CfgEntry(path, maxsize)] else old(cfgQueue)
    {
      if |cfgQueue| >= CFG_QUEUE_MAX {
        return false;
      }
      cfgQueue := cfgQueue + [CfgEntry(path, maxsize)];
      accepted := true;
    }

    /** NpyWriterProcess.py:54-62, over the loop's locals. */
    method CheckRotation(openFile0: Option<string>, openPath0: Option<string>, openIndex0: nat, written0: nat,
                         ghost w: Writer<F>)
      returns (openFile: Option<string>, openPath: Option<string>, openIndex: nat, written: nat)
      requires WellFormed(w) && Models(openFile0, openPath0, openIndex0, written0, w)
      modifies this`disk
      ensures Models(openFile, openPath, openIndex, written, RotateIfFull(w))
    {
      openFile, openPath, openIndex, written := openFile0, openPath0, openIndex0, written0;
      if written > maxBytes {
        written := 0;
        openIndex := openIndex + 1;
        var p := RotatedPath(openPath.value, openIndex);
        openPath := Some(p);
        assert p[|p| - 1] == Pad(openIndex)[|Pad(openIndex)| - 1];
        disk := Remove(disk, p);
        openFile := Some(NpyName(p));
        assert fpath == w.fpath && maxBytes == w.maxBytes && cfgQueue == w.cfgQueue && buffer == w.buffer;
        RotationFields(w);
      } else {
        assert RotateIfFull(w) == w;
      }
    }

    /** NpyWriterProcess.py:63-79, over the loop's locals. */
    method PollConfig(openFile0: Option<string>, openPath0: Option<string>, openIndex0: nat, written0: nat,
                      ghost w: Writer<F>)
      returns (openFile: Option<string>, openPath: Option<string>, openIndex: nat, written: nat)
      requires WellFormed(w) && Models(openFile0, openPath0, openIndex0, written0, w)
      modifies this`cfgQueue, this`fpath, this`maxBytes, this`disk
      ensures Models(openFile, openPath, openIndex, written, ConfigIfAny(w))
    {
      openFile, openPath, openIndex, written := openFile0, openPath0, openIndex0, written0;
      if |cfgQueue| > 0 {
        var cfg := cfgQueue[0];
        cfgQueue := cfgQueue[1..];
        openIndex := 0;
        var p := cfg.path + "_" + Pad(openIndex);
        PadZero();
        fpath := Some(p);
        maxBytes := cfg.maxBytes;
        written := 0;
        openPath := Some(p);
        assert p[|p| - 1] == '0';
        disk := Remove(disk, p);
        openFile := Some(NpyName(p));
        assert buffer == w.buffer;
        ConfigFields(w);
      } else {
        assert ConfigIfAny(w) == w;
      }
    }

    /** NpyWriterProcess.py:80-86, over the loop's locals. */
    method WriteFrame(openFile: Option<string>, openPath: Option<string>, openIndex: nat, written0: nat,
                      ghost w: Writer<F>)
      returns (written: nat)
      requires WellFormed(w) && Models(openFile, openPath, openIndex, written0, w)
      modifies this`buffer, this`disk
      ensures Models(openFile, openPath, openIndex, written, AppendIfOpen(w))
    {
      written := written0;
      if openFile.Some? && |buffer| > 0 {
        var f := buffer[0];
        buffer := buffer[1..];
        written := written + f.nbytes;
        disk := disk[openFile.value := Contents(disk, openFile.value) + [f]];
      }
    }

    /** The body of the run loop, over its locals. */
    method Step(openFile0: Option<string>, openPath0: Option<string>, openIndex0: nat, written0: nat,
                ghost w: Writer<F>)
      returns (openFile: Option<string>, openPath: Option<string>, openIndex: nat, written: nat)
      requires WellFormed(w) && Models(openFile0, openPath0, openIndex0, written0, w)
      modifies this
      ensures Models(openFile, openPath, openIndex, written, PassStep(w))
    {
      openFile, openPath, openIndex, written := CheckRotation(openFile0, openPath0, openIndex0, written0, w);
      ghost var u := RotateIfFull(w);
      openFile, openPath, openIndex, written := PollConfig(openFile, openPath, openIndex, written, u);
      written := WriteFrame(openFile, openPath, openIndex, written, ConfigIfAny(u));
    }

    /** One event of a schedule: an owner's call, or one pass of the loop. */
    method Handle(e: Event<F>, openFile0: Option<string>, openPath0: Option<string>, openIndex0: nat, written0: nat,
                  ghost w: Writer<F>)
      returns (openFile: Option<string>, openPath: Option<string>, openIndex: nat, written: nat)
      requires WellFormed(w) && Models(openFile0, openPath0, openIndex0, written0, w)
      modifies this
      ensures Models(openFile, openPath, openIndex, written, Apply(w, e))
    {
      openFile, openPath, openIndex, written := openFile0, openPath0, openIndex0, written0;
      match e {
        case Configure(p, m) => {
          var _ := Config(p, m);
          assert fpath == w.fpath && maxBytes == w.maxBytes && buffer == w.buffer && disk == w.disk;
          assert Apply(w, e) == ConfigStep(w, p, m).0;
        }
        case Push(f) => {
          Enqueue(f);
          assert fpath == w.fpath && maxBytes == w.maxBytes && cfgQueue == w.cfgQueue && disk == w.disk;
          assert Apply(w, e) == w.(buffer := w.buffer + [f]);
        }
        case Pass => {
          openFile, openPath, openIndex, written := Step(openFile, openPath, openIndex, written, w);
          assert Apply(w, e) == PassStep(w);
        }
      }
    }

    /** The worker's loop interleaved with its owner's calls, until the exit
        event ends the schedule; `closed` holds the stretches it finished. */
    method Run(schedule: seq<Event<F>>) returns (ghost closed: seq<Closed<F>>)
      requires |cfgQueue| <= CFG_QUEUE_MAX && maxBytes == 0
      modifies this
      ensures var w := Replay(old(Writer(fpath, maxBytes, cfgQueue, buffer, None, None, 0, 0, disk, 0, [])), schedule);
        && fpath == w.fpath && maxBytes == w.maxBytes && cfgQueue == w.cfgQueue
        && buffer == w.buffer && disk == w.disk && closed == w.closed
    {
      ghost var w0 := Writer(fpath, maxBytes, cfgQueue, buffer, None, None, 0, 0, disk, 0, []);
      var openFile: Option<string> := None;
      var openPath: Option<string> := None;
      var openIndex: nat := 0;
      var written: nat := 0;
      ghost var cur := w0;
      var i := 0;
      assert schedule[..0] == [];
      while i < |schedule|
        invariant 0 <= i <= |schedule|
        invariant WellFormed(cur) && cur == Replay(w0, schedule[..i])
        invariant Models(openFile, openPath, openIndex, written, cur)
      {
        ReplayNext(w0, schedule, i);
        openFile, openPath, openIndex, written := Handle(schedule[i], openFile, openPath, openIndex, written, cur);
        cur := Apply(cur, schedule[i]);
        i := i + 1;
      }
      assert schedule[..i] == schedule;
      closed := cur.closed;
    }
  }
}
