/** The FRQI and NEQR circuit builders of the dataset pipeline, for 2 x 2 images.

    FRQI puts the position qubits in superposition and, for each pixel, rotates the
    intensity qubit by `intensity * pi` under a rotation controlled by all position
    qubits, conditioned on the pixel's address. NEQR writes the pixel's intensity,
    cut to an integer, as bits into two intensity qubits with multi-controlled X
    gates under the same address conditioning. */
module Simulate {
  import opened Binary
  import opened Images
  import opened Circuits
  import opened Classical
  import opened AddressConditioning

  /** Images are IMAGE_SIZE x IMAGE_SIZE. */
  const IMAGE_SIZE: nat := 2

  /** `int(np.log2(IMAGE_SIZE * IMAGE_SIZE))` position qubits. */
  const N_POS: nat := FloorLog2(IMAGE_SIZE * IMAGE_SIZE)

  /** A 2 x 2 image has two position qubits. */
  lemma PositionQubits()
    ensures N_POS == 2
  {
    assert FloorLog2(1) == 0;
    assert FloorLog2(2) == 1 + FloorLog2(1);
    assert FloorLog2(4) == 1 + FloorLog2(2);
  }

  /** NEQR's intensity register width. */
  const N_INTENSITY: nat := 2

  // ---------------------------------------------------------------- FRQI

  /** The gates FRQI emits for pixel `idx` with intensity `v` on n position qubits. */
  function FrqiBlock(idx: nat, v: real, n: nat): seq<Gate>
  {
    var flips := ZeroFlips(FormatBinary(idx, n));
    flips + [MCRY(Range(n), n, PiTimes(v))] + flips
  }

  /** The blocks of the first k pixels, in pixel order. */
  function FrqiBlocks(pixels: seq<real>, k: nat, n: nat): seq<Gate>
    requires k <= |pixels|
  {
    if k == 0 then [] else FrqiBlocks(pixels, k - 1, n) + FrqiBlock(k - 1, pixels[k - 1], n)
  }

  /** The whole FRQI gate list: the Hadamard layer, then one block per pixel. */
  function FrqiGates(pixels: seq<real>, n: nat): seq<Gate>
  {
    HadamardLayer(n) + FrqiBlocks(pixels, |pixels|, n)
  }

  method FrqiCircuit(image: seq<seq<real>>) returns (qc: Circuit)
    requires IsGrid(image, IMAGE_SIZE, IMAGE_SIZE)
    ensures fresh(qc) && qc.Valid()
    ensures qc.numQubits == N_POS + 1 && qc.gates == FrqiGates(Flatten(image), N_POS)
  {
    var nPos := N_POS;
    PositionQubits();
    qc := new Circuit(nPos + 1);
    qc.AppendHadamardLayer(nPos);
    FlattenLength(image, IMAGE_SIZE, IMAGE_SIZE);
    AppendFrqiBlocks(qc, Flatten(image), nPos);
  }

  /** The pixel loop: one block per pixel, in row-major pixel order. */
  method AppendFrqiBlocks(qc: Circuit, pixels: seq<real>, n: nat)
    requires qc.Valid() && qc.numQubits == n + 1 && n >= 1 && |pixels| <= Pow2(n)
    modifies qc
    ensures qc.Valid() && qc.gates == old(qc.gates) + FrqiBlocks(pixels, |pixels|, n)
  {
    for idx := 0 to |pixels|
      invariant qc.Valid() && qc.gates == old(qc.gates) + FrqiBlocks(pixels, idx, n)
    {
      AppendFrqiBlock(qc, idx, pixels[idx], n);
      FrqiBlocksStep(old(qc.gates), pixels, idx, n);
    }
  }

  lemma FrqiBlocksStep(prefix: seq<Gate>, pixels: seq<real>, k: nat, n: nat)
    requires k < |pixels|
    ensures prefix + FrqiBlocks(pixels, k + 1, n) == prefix + FrqiBlocks(pixels, k, n) + FrqiBlock(k, pixels[k], n)
  {
  }

  /** One iteration of the pixel loop: X on the address's 0 bits, the rotation
      controlled by every position qubit, the same X again. */
  method AppendFrqiBlock(qc: Circuit, idx: nat, v: real, n: nat)
    requires qc.Valid() && qc.numQubits == n + 1 && n >= 1 && idx < Pow2(n)
    modifies qc
    ensures qc.Valid() && qc.gates == old(qc.gates) + FrqiBlock(idx, v, n)
  {
    var address := FormatBinary(idx, n);
    FormatBinaryWidth(idx, n);
    AllControlsAdmissible(n, n, n + 1);
    AppendZeroFlips(qc, address);
    qc.Append(MCRY(Range(n), n, PiTimes(v)));
    AppendZeroFlips(qc, address);
  }

  /** `intensity * pi` for every pixel, in pixel order. */
  function FrqiAngles(pixels: seq<real>): (angles: seq<Angle>)
    ensures |angles| == |pixels|
  {
    seq(|pixels|, i requires 0 <= i < |pixels| => PiTimes(pixels[i]))
  }

  /** Reading the rotation angles back off an FRQI circuit gives one angle per
      pixel, in pixel order, each `intensity * pi`: the circuit loses no pixel and
      reorders none. */
  lemma FrqiRoundTrip(pixels: seq<real>, n: nat)
    ensures Rotations(FrqiGates(pixels, n)) == FrqiAngles(pixels)
  {
    NoRotations(HadamardLayer(n));
    RotationsAppend(HadamardLayer(n), FrqiBlocks(pixels, |pixels|, n));
    FrqiBlocksRotations(pixels, |pixels|, n);
    assert pixels[..|pixels|] == pixels;
  }

  lemma FrqiBlockRotations(idx: nat, v: real, n: nat)
    ensures Rotations(FrqiBlock(idx, v, n)) == [PiTimes(v)]
  {
    var flips := ZeroFlips(FormatBinary(idx, n));
    var mid := [MCRY(Range(n), n, PiTimes(v))];
    ZeroFlipsShape(FormatBinary(idx, n));
    NoRotations(flips);
    assert Rotations(mid) == [PiTimes(v)] by {
      assert mid[..0] == [];
    }
    RotationsAppend(flips, mid);
    RotationsAppend(flips + mid, flips);
  }

  lemma FrqiAnglesSnoc(pixels: seq<real>, k: nat)
    requires 0 < k <= |pixels|
    ensures FrqiAngles(pixels[..k]) == FrqiAngles(pixels[..k - 1]) + [PiTimes(pixels[k - 1])]
  {
  }

  lemma {:induction false} FrqiBlocksRotations(pixels: seq<real>, k: nat, n: nat)
    requires k <= |pixels|
    ensures Rotations(FrqiBlocks(pixels, k, n)) == FrqiAngles(pixels[..k])
  {
    if k > 0 {
      FrqiBlocksRotations(pixels, k - 1, n);
      FrqiBlockRotations(k - 1, pixels[k - 1], n);
      RotationsAppend(FrqiBlocks(pixels, k - 1, n), FrqiBlock(k - 1, pixels[k - 1], n));
      FrqiAnglesSnoc(pixels, k);
    }
  }

  /** Pixel `idx`'s block has one rotation and two X on each position qubit whose
      address bit is 0. */
  lemma FrqiBlockSize(idx: nat, v: real, n: nat)
    requires idx < Pow2(n) && n >= 1
    ensures |FrqiBlock(idx, v, n)| == 1 + 2 * CountChar(FormatBinary(idx, n), '0', n)
  {
    FormatBinaryWidth(idx, n);
    ZeroFlipsShape(FormatBinary(idx, n));
  }

  /** On a 2 x 2 image FRQI uses 3 qubits and 14 gates: 2 Hadamards, 4 rotations
      and 8 X (pixel addresses 00, 01, 10, 11 have 2, 1, 1 and 0 zero bits). */
  lemma FrqiTwoByTwo(pixels: seq<real>)
    requires |pixels| == IMAGE_SIZE * IMAGE_SIZE
    ensures N_POS + 1 == 3
    ensures |FrqiGates(pixels, N_POS)| == 14 && GateCount(FrqiGates(pixels, N_POS)) == 14
  {
    PositionQubits();
    FrqiFourBlocks(pixels);
    FrqiBlocksNoBarrier(pixels, 4, 2);
    NoBarrierCount(FrqiGates(pixels, 2));
  }

  /** The four blocks have 5, 3, 3 and 1 gates. */
  lemma FrqiFourBlocks(pixels: seq<real>)
    requires |pixels| == 4
    ensures |FrqiBlocks(pixels, 4, 2)| == 12
  {
    AddressZeroCounts();
    FrqiBlockSize(0, pixels[0], 2);
    FrqiBlockSize(1, pixels[1], 2);
    FrqiBlockSize(2, pixels[2], 2);
    FrqiBlockSize(3, pixels[3], 2);
    assert |FrqiBlocks(pixels, 1, 2)| == 5;
    assert |FrqiBlocks(pixels, 2, 2)| == 8;
    assert |FrqiBlocks(pixels, 3, 2)| == 11;
  }

  /** The two-bit addresses 00, 01, 10 and 11 have 2, 1, 1 and 0 zero bits. */
  lemma AddressZeroCounts()
    ensures CountChar(FormatBinary(0, 2), '0', 2) == 2 && CountChar(FormatBinary(1, 2), '0', 2) == 1
    ensures CountChar(FormatBinary(2, 2), '0', 2) == 1 && CountChar(FormatBinary(3, 2), '0', 2) == 0
  {
    assert FormatBinary(0, 2) == "00";
    assert FormatBinary(1, 2) == "01";
    assert FormatBinary(2, 2) == "10";
    assert FormatBinary(3, 2) == "11";
    assert CountChar("00", '0', 2) == 2 && CountChar("01", '0', 2) == 1;
    assert CountChar("10", '0', 2) == 1 && CountChar("11", '0', 2) == 0;
  }

  lemma {:induction false} FrqiBlocksNoBarrier(pixels: seq<real>, k: nat, n: nat)
    requires k <= |pixels|
    ensures forall i :: 0 <= i < |FrqiBlocks(pixels, k, n)| ==> !FrqiBlocks(pixels, k, n)[i].Barrier?
  {
    if k > 0 {
      FrqiBlocksNoBarrier(pixels, k - 1, n);
      ZeroFlipsShape(FormatBinary(k - 1, n));
    }
  }

  // ---------------------------------------------------------------- NEQR

  /** Python's `int(x)` and NumPy's `astype(int)`: truncation toward zero. */
  function Trunc(x: real): (r: int)
    ensures x >= 0.0 ==> r as real <= x < r as real + 1.0
    ensures x < 0.0 ==> r as real - 1.0 < x <= r as real
  {
    if x >= 0.0 then x.Floor else -((-x).Floor)
  }

  /** `(image.flatten() * 3).astype(int)`: each intensity scaled by 3 and cut. */
  function Intensities(pixels: seq<real>): (vals: seq<int>)
    ensures |vals| == |pixels|
  {
    seq(|pixels|, i requires 0 <= i < |pixels| => Trunc(3.0 * pixels[i]))
  }

  /** The first k iterations of `for bit in range(2): if (val >> bit) & 1:
      qc.mcx(list(range(n)), n + bit)`. */
  function IntensityWrites(val: int, n: nat, k: nat): seq<Gate>
  {
    if k == 0 then []
    else IntensityWrites(val, n, k - 1) + (if BitSet(val, k - 1) then [MCX(Range(n), n + k - 1)] else [])
  }

  /** The gates NEQR emits for pixel `idx` with integer intensity `val`. */
  function NeqrBlock(idx: nat, val: int, n: nat): seq<Gate>
  {
    var flips := ZeroFlips(FormatBinary(idx, n));
    flips + IntensityWrites(val, n, N_INTENSITY) + flips
  }

  function NeqrBlocks(vals: seq<int>, k: nat, n: nat): seq<Gate>
    requires k <= |vals|
  {
    if k == 0 then [] else NeqrBlocks(vals, k - 1, n) + NeqrBlock(k - 1, vals[k - 1], n)
  }

  /** The whole NEQR gate list: the Hadamard layer, then one block per pixel. */
  function NeqrGates(pixels: seq<real>, n: nat): seq<Gate>
  {
    HadamardLayer(n) + NeqrBlocks(Intensities(pixels), |pixels|, n)
  }

  method NeqrCircuit(image: seq<seq<real>>) returns (qc: Circuit)
    requires IsGrid(image, IMAGE_SIZE, IMAGE_SIZE)
    ensures fresh(qc) && qc.Valid()
    ensures qc.numQubits == N_POS + N_INTENSITY && qc.gates == NeqrGates(Flatten(image), N_POS)
  {
    var nPos := N_POS;
    PositionQubits();
    qc := new Circuit(nPos + N_INTENSITY);
    qc.AppendHadamardLayer(nPos);
    FlattenLength(image, IMAGE_SIZE, IMAGE_SIZE);
    var vals := Intensities(Flatten(image));
    AppendNeqrBlocks(qc, vals, nPos);
  }

  /** The pixel loop. */
  method AppendNeqrBlocks(qc: Circuit, vals: seq<int>, n: nat)
    requires qc.Valid() && qc.numQubits == n + N_INTENSITY && n >= 1 && |vals| <= Pow2(n)
    modifies qc
    ensures qc.Valid() && qc.gates == old(qc.gates) + NeqrBlocks(vals, |vals|, n)
  {
    for idx := 0 to |vals|
      invariant qc.Valid() && qc.gates == old(qc.gates) + NeqrBlocks(vals, idx, n)
    {
      AppendNeqrBlock(qc, idx, vals[idx], n);
      NeqrBlocksStep(old(qc.gates), vals, idx, n);
    }
  }

  lemma NeqrBlocksStep(prefix: seq<Gate>, vals: seq<int>, k: nat, n: nat)
    requires k < |vals|
    ensures prefix + NeqrBlocks(vals, k + 1, n) == prefix + NeqrBlocks(vals, k, n) + NeqrBlock(k, vals[k], n)
  {
  }

  /** One iteration of the pixel loop: the address flips, a multi-controlled X onto
      each intensity qubit whose bit of `val` is set, the address flips again. */
  method AppendNeqrBlock(qc: Circuit, idx: nat, val: int, n: nat)
    requires qc.Valid() && qc.numQubits == n + N_INTENSITY && n >= 1 && idx < Pow2(n)
    modifies qc
    ensures qc.Valid() && qc.gates == old(qc.gates) + NeqrBlock(idx, val, n)
  {
    var address := FormatBinary(idx, n);
    FormatBinaryWidth(idx, n);
    AppendZeroFlips(qc, address);
    AppendIntensityWrites(qc, val, n);
    AppendZeroFlips(qc, address);
  }

  /** The bit loop `for bit in range(2)`. */
  method AppendIntensityWrites(qc: Circuit, val: int, n: nat)
    requires qc.Valid() && qc.numQubits == n + N_INTENSITY
    modifies qc
    ensures qc.Valid() && qc.gates == old(qc.gates) + IntensityWrites(val, n, N_INTENSITY)
  {
    for bit := 0 to N_INTENSITY
      invariant qc.Valid() && qc.gates == old(qc.gates) + IntensityWrites(val, n, bit)
    {
      if BitSet(val, bit) {
        AllControlsAdmissible(n, n + bit, n + N_INTENSITY);
        qc.Append(MCX(Range(n), n + bit));
      }
    }
  }

  /** The number of intensity writes for `val`: one per set bit among bits 0 and 1. */
  function WriteCount(val: int): nat
  {
    (if BitSet(val, 0) then 1 else 0) + (if BitSet(val, 1) then 1 else 0)
  }

  /** The intensity writes are one multi-controlled X per set bit, each onto an
      intensity qubit; in particular there is no X and no barrier among them. */
  lemma IntensityWritesShape(val: int, n: nat)
    ensures |IntensityWrites(val, n, N_INTENSITY)| == WriteCount(val)
    ensures forall i :: 0 <= i < |IntensityWrites(val, n, N_INTENSITY)| ==>
      IntensityWrites(val, n, N_INTENSITY)[i].MCX? && IntensityWrites(val, n, N_INTENSITY)[i].target >= n
  {
    assert IntensityWrites(val, n, 1) == if BitSet(val, 0) then [MCX(Range(n), n)] else [];
  }

  /** Pixel `idx`'s NEQR block has two X on each position qubit whose address bit is
      0 and one multi-controlled X per set bit of `val`: the address sandwich is
      emitted even when `val` is 0. */
  lemma NeqrBlockSize(idx: nat, val: int, n: nat)
    requires idx < Pow2(n) && n >= 1
    ensures |NeqrBlock(idx, val, n)| == 2 * CountChar(FormatBinary(idx, n), '0', n) + WriteCount(val)
  {
    FormatBinaryWidth(idx, n);
    ZeroFlipsShape(FormatBinary(idx, n));
    IntensityWritesShape(val, n);
  }

  /** Within one NEQR block, position qubit q gets two X when its address bit is 0
      and none otherwise, so the block leaves the position register as it found it;
      no other qubit gets an X. */
  lemma NeqrBlockEvenFlips(idx: nat, val: int, n: nat, q: nat)
    requires idx < Pow2(n) && n >= 1
    ensures multiset(NeqrBlock(idx, val, n))[X(q)]
         == if q < n && FormatBinary(idx, n)[q] == '0' then 2 else 0
  {
    var address := FormatBinary(idx, n);
    FormatBinaryWidth(idx, n);
    ZeroFlipsArePositionFlips(address, n);
    FlipsMultiset(ZeroPositions(address, n), q);
    ZeroPositionsCount(address, n, q);
    var flips, writes := ZeroFlips(address), IntensityWrites(val, n, N_INTENSITY);
    IntensityWritesShape(val, n);
    assert X(q) !in writes;
    var mf: multiset<Gate>, mw: multiset<Gate> := multiset(flips), multiset(writes);
    assert multiset(flips + writes + flips) == mf + mw + mf;
  }

  lemma NeqrBlockNoBarrier(idx: nat, val: int, n: nat)
    ensures forall i :: 0 <= i < |NeqrBlock(idx, val, n)| ==> !NeqrBlock(idx, val, n)[i].Barrier?
  {
    var flips, writes := ZeroFlips(FormatBinary(idx, n)), IntensityWrites(val, n, N_INTENSITY);
    ZeroFlipsShape(FormatBinary(idx, n));
    IntensityWritesShape(val, n);
    NoBarrierJoin(flips, writes);
    NoBarrierJoin(flips + writes, flips);
  }

  lemma {:induction false} NeqrBlocksNoBarrier(vals: seq<int>, k: nat, n: nat)
    requires k <= |vals|
    ensures forall i :: 0 <= i < |NeqrBlocks(vals, k, n)| ==> !NeqrBlocks(vals, k, n)[i].Barrier?
  {
    if k > 0 {
      NeqrBlocksNoBarrier(vals, k - 1, n);
      NeqrBlockNoBarrier(k - 1, vals[k - 1], n);
      NoBarrierJoin(NeqrBlocks(vals, k - 1, n), NeqrBlock(k - 1, vals[k - 1], n));
    }
  }

  lemma NoBarrierJoin(a: seq<Gate>, b: seq<Gate>)
    requires forall i :: 0 <= i < |a| ==> !a[i].Barrier?
    requires forall i :: 0 <= i < |b| ==> !b[i].Barrier?
    ensures forall i :: 0 <= i < |a + b| ==> !(a + b)[i].Barrier?
  {
  }

  /** On a 2 x 2 image NEQR uses 4 qubits and 10 gates plus one per set intensity
      bit: 2 Hadamards, 8 address X (pixel addresses 00, 01, 10, 11 have 2, 1, 1 and
      0 zero bits) and the writes; `size()` counts every one of them. */
  lemma NeqrTwoByTwo(pixels: seq<real>)
    requires |pixels| == IMAGE_SIZE * IMAGE_SIZE
    ensures N_POS + N_INTENSITY == 4
    ensures var v := Intensities(pixels);
      |NeqrGates(pixels, N_POS)| == 10 + WriteCount(v[0]) + WriteCount(v[1]) + WriteCount(v[2]) + WriteCount(v[3])
    ensures GateCount(NeqrGates(pixels, N_POS)) == |NeqrGates(pixels, N_POS)|
  {
    PositionQubits();
    var v := Intensities(pixels);
    NeqrFourBlocks(v);
    NeqrBlocksNoBarrier(v, 4, 2);
    NoBarrierCount(NeqrGates(pixels, 2));
  }

  /** The four NEQR blocks of a 2 x 2 image. */
  lemma NeqrFourBlocks(v: seq<int>)
    requires |v| == 4
    ensures |NeqrBlocks(v, 4, 2)| == 8 + WriteCount(v[0]) + WriteCount(v[1]) + WriteCount(v[2]) + WriteCount(v[3])
  {
    AddressZeroCounts();
    NeqrBlockSize(0, v[0], 2);
    NeqrBlockSize(1, v[1], 2);
    NeqrBlockSize(2, v[2], 2);
    NeqrBlockSize(3, v[3], 2);
    assert |NeqrBlocks(v, 1, 2)| == 4 + WriteCount(v[0]);
    assert |NeqrBlocks(v, 2, 2)| == 6 + WriteCount(v[0]) + WriteCount(v[1]);
    assert |NeqrBlocks(v, 3, 2)| == 8 + WriteCount(v[0]) + WriteCount(v[1]) + WriteCount(v[2]);
  }

  /** Pixel intensities in [0, 1] become integers 0..3. */
  lemma IntensityBounds(v: real)
    requires 0.0 <= v <= 1.0
    ensures 0 <= Trunc(3.0 * v) <= 3
  {
  }

  /** The scaled intensity is cut, not rounded: 0.5 gives 1 and 0.9 gives 2. */
  lemma NeqrTruncates()
    ensures Trunc(3.0 * 0.5) == 1 && Trunc(3.0 * 0.9) == 2
  {
  }

  lemma WriteRunnable(n: nat, t: nat, size: nat)
    requires n <= t < size
    ensures Runnable([MCX(Range(n), t)], size)
  {
    AllControlsAdmissible(n, t, size);
  }

  /** On a basis state, the intensity writes of `val` complement intensity qubit
      n + b, for b < k, exactly when every position qubit holds 1 and bit b of val
      is set; no other qubit changes. */
  lemma {:induction false} IntensityWritesEffect(val: int, n: nat, k: nat, f: seq<bool>)
    requires n + k <= |f|
    ensures Runnable(IntensityWrites(val, n, k), |f|)
    ensures forall q :: 0 <= q < |f| ==>
      Run(IntensityWrites(val, n, k), f)[q] ==
        if n <= q < n + k then f[q] != (AllSet(f, Range(n)) && BitSet(val, q - n)) else f[q]
  {
    if k > 0 {
      IntensityWritesEffect(val, n, k - 1, f);
      var prev := IntensityWrites(val, n, k - 1);
      var last := if BitSet(val, k - 1) then [MCX(Range(n), n + k - 1)] else [];
      IntensityWriteStep(val, n, k, f, Run(prev, f));
      RunAppend(prev, last, f);
    }
  }

  /** The step of IntensityWritesEffect: from the state g left by the writes of bits
      0..k-2, the write of bit k-1 completes those of bits 0..k-1. */
  lemma IntensityWriteStep(val: int, n: nat, k: nat, f: seq<bool>, g: seq<bool>)
    requires 0 < k && n + k <= |f| && |g| == |f|
    requires forall q :: 0 <= q < |f| ==>
      g[q] == if n <= q < n + k - 1 then f[q] != (AllSet(f, Range(n)) && BitSet(val, q - n)) else f[q]
    ensures var last := if BitSet(val, k - 1) then [MCX(Range(n), n + k - 1)] else [];
      && Runnable(last, |g|)
      && forall q :: 0 <= q < |f| ==>
        Run(last, g)[q] == if n <= q < n + k then f[q] != (AllSet(f, Range(n)) && BitSet(val, q - n)) else f[q]
  {
    assert AllSet(g, Range(n)) == AllSet(f, Range(n)) by {
      AllSetRange(g, n);
      AllSetRange(f, n);
    }
    if BitSet(val, k - 1) {
      WriteEffect(n, n + k - 1, g);
    }
  }

  /** The multi-controlled X onto t complements qubit t when qubits 0..n-1 all hold
      1, and touches nothing else. */
  lemma WriteEffect(n: nat, t: nat, g: seq<bool>)
    requires n <= t < |g|
    ensures Runnable([MCX(Range(n), t)], |g|)
    ensures Run([MCX(Range(n), t)], g) == g[t := g[t] != AllSet(g, Range(n))]
  {
    WriteRunnable(n, t, |g|);
    RunSingle(MCX(Range(n), t), g);
  }

  /** On a basis state of at least n + 2 qubits, pixel `idx`'s NEQR block XORs bit b
      of `val` into intensity qubit n + b exactly when the position qubits spell
      `idx` (`fires`), and leaves every other qubit, the position qubits included, as it was. */
  lemma NeqrBlockEffect(idx: nat, val: int, n: nat, s: seq<bool>, fires: bool)
    requires n >= 1 && idx < Pow2(n) && n + N_INTENSITY <= |s|
    requires fires == Spells(s, idx, n)
    ensures Runnable(NeqrBlock(idx, val, n), |s|)
    ensures forall q :: 0 <= q < |s| ==>
      Run(NeqrBlock(idx, val, n), s)[q] ==
        if n <= q < n + N_INTENSITY then s[q] != (fires && BitSet(val, q - n)) else s[q]
  {
    var address := FormatBinary(idx, n);
    FormatBinaryBits(idx, n);
    var flips := ZeroFlips(address);
    var writes := IntensityWrites(val, n, N_INTENSITY);
    AddressSelects(idx, n, s);
    ZeroFlipsEffect(address, s);
    var f := Run(flips, s);
    IntensityWritesEffect(val, n, N_INTENSITY, f);
    var g := Run(writes, f);
    ZeroFlipsEffect(address, g);
    RunAppend(flips, writes, s);
    RunAppend(flips + writes, flips, s);
  }

  lemma NeqrBlocksUnfold(vals: seq<int>, k: nat, n: nat, s: seq<bool>)
    requires 0 < k <= |vals|
    requires Runnable(NeqrBlocks(vals, k - 1, n), |s|)
    requires Runnable(NeqrBlock(k - 1, vals[k - 1], n), |s|)
    ensures Runnable(NeqrBlocks(vals, k, n), |s|)
    ensures Run(NeqrBlocks(vals, k, n), s) ==
      Run(NeqrBlock(k - 1, vals[k - 1], n), Run(NeqrBlocks(vals, k - 1, n), s))
  {
    RunAppend(NeqrBlocks(vals, k - 1, n), NeqrBlock(k - 1, vals[k - 1], n), s);
  }

  /** On a basis state whose position qubits spell pixel j, the NEQR pixel blocks
      XOR the bits of pixel j's integer intensity into the intensity qubits (only
      block j fires) and change nothing else; an address past the last pixel gets
      nothing. */
  lemma {:induction false} NeqrBlocksEffect(vals: seq<int>, k: nat, n: nat, s: seq<bool>, j: nat)
    requires n >= 1 && k <= |vals| <= Pow2(n) && n + N_INTENSITY <= |s|
    requires j < Pow2(n) && Spells(s, j, n)
    ensures Runnable(NeqrBlocks(vals, k, n), |s|)
    ensures forall q :: 0 <= q < |s| ==>
      Run(NeqrBlocks(vals, k, n), s)[q] ==
        if n <= q < n + N_INTENSITY then s[q] != (j < k && BitSet(vals[j], q - n)) else s[q]
  {
    if k > 0 {
      NeqrBlocksEffect(vals, k - 1, n, s, j);
      var r := Run(NeqrBlocks(vals, k - 1, n), s);
      FiresExactly(s, r, j, k, n);
      NeqrBlockAfter(vals, k, n, s, j, r);
      NeqrBlocksUnfold(vals, k, n, s);
    } else {
      assert NeqrBlocks(vals, k, n) == [];
    }
  }

  /** The step of NeqrBlocksEffect: from the state r left by blocks 0..k-2, which
      spells pixel k-1 exactly when j == k-1, block k-1 completes the writes of
      blocks 0..k-1. */
  lemma NeqrBlockAfter(vals: seq<int>, k: nat, n: nat, s: seq<bool>, j: nat, r: seq<bool>)
    requires n >= 1 && 0 < k <= |vals| <= Pow2(n) && n + N_INTENSITY <= |s| && |r| == |s|
    requires Spells(r, k - 1, n) <==> j == k - 1
    requires forall q :: 0 <= q < |s| ==>
      r[q] == if n <= q < n + N_INTENSITY then s[q] != (j < k - 1 && BitSet(vals[j], q - n)) else s[q]
    ensures Runnable(NeqrBlock(k - 1, vals[k - 1], n), |r|)
    ensures forall q :: 0 <= q < |s| ==>
      Run(NeqrBlock(k - 1, vals[k - 1], n), r)[q] ==
        if n <= q < n + N_INTENSITY then s[q] != (j < k && BitSet(vals[j], q - n)) else s[q]
  {
    NeqrBlockEffect(k - 1, vals[k - 1], n, r, j == k - 1);
    ComposeWrites(s, r, Run(NeqrBlock(k - 1, vals[k - 1], n), r), n, vals, k, j, j == k - 1);
  }

  /** The positions still spell j after the earlier blocks, so block k-1 fires
      exactly when j == k-1. */
  lemma FiresExactly(s: seq<bool>, r: seq<bool>, j: nat, k: nat, n: nat)
    requires 0 < k <= Pow2(n) && n <= |s| == |r| && j < Pow2(n) && Spells(s, j, n)
    requires forall q :: 0 <= q < n ==> r[q] == s[q]
    ensures Spells(r, k - 1, n) <==> j == k - 1
  {
    SpellsKept(s, r, j, n);
    SpellsExactly(r, j, k - 1, n);
  }

  lemma SpellsKept(s: seq<bool>, r: seq<bool>, j: nat, n: nat)
    requires n <= |s| == |r| && Spells(s, j, n)
    requires forall q :: 0 <= q < n ==> r[q] == s[q]
    ensures Spells(r, j, n)
  {
  }

  /** Pointwise bookkeeping for one more pixel block: the writes of blocks 0..k-2
      followed by those of block k-1, which fires exactly for j == k-1. */
  lemma ComposeWrites(s: seq<bool>, r: seq<bool>, t: seq<bool>, n: nat, vals: seq<int>, k: nat, j: nat, fires: bool)
    requires |r| == |s| && |t| == |s| && 0 < k <= |vals|
    requires fires <==> j == k - 1
    requires forall q :: 0 <= q < |s| ==>
      r[q] == if n <= q < n + N_INTENSITY then s[q] != (j < k - 1 && BitSet(vals[j], q - n)) else s[q]
    requires forall q :: 0 <= q < |s| ==>
      t[q] == if n <= q < n + N_INTENSITY then r[q] != (fires && BitSet(vals[k - 1], q - n)) else r[q]
    ensures forall q :: 0 <= q < |s| ==>
      t[q] == if n <= q < n + N_INTENSITY then s[q] != (j < k && BitSet(vals[j], q - n)) else s[q]
  {
  }

  /** On a basis state whose position qubits spell pixel j and whose two intensity
      qubits are 0, the pixel blocks leave the position qubits as they were and
      load the two low bits of pixel j's integer intensity. */
  lemma NeqrBlocksLoad(vals: seq<int>, n: nat, s: seq<bool>, j: nat)
    requires n >= 1 && |vals| <= Pow2(n) && |s| == n + N_INTENSITY
    requires j < |vals| && Spells(s, j, n) && !s[n] && !s[n + 1]
    ensures Runnable(NeqrBlocks(vals, |vals|, n), |s|)
    ensures var r := Run(NeqrBlocks(vals, |vals|, n), s);
      r[..n] == s[..n] && r[n] == BitSet(vals[j], 0) && r[n + 1] == BitSet(vals[j], 1)
  {
    NeqrBlocksEffect(vals, |vals|, n, s, j);
    var r := Run(NeqrBlocks(vals, |vals|, n), s);
    assert r[..n] == s[..n];
  }

  /** NEQR's encoding theorem, on basis states: start with the position qubits
      spelling pixel j of a 2^n-pixel-or-smaller image and both intensity qubits at
      0; after the pixel blocks the position qubits are unchanged and the intensity
      qubits hold the two low bits of pixel j's integer intensity, which for an
      intensity in [0, 1] is the whole of `int(3 * intensity)`. The Hadamard layer
      in front prepares every position at once. */
  lemma NeqrEncodes(pixels: seq<real>, n: nat, s: seq<bool>, j: nat)
    requires n >= 1 && |pixels| <= Pow2(n) && |s| == n + N_INTENSITY
    requires j < |pixels| && Spells(s, j, n) && !s[n] && !s[n + 1]
    ensures Runnable(NeqrBlocks(Intensities(pixels), |pixels|, n), |s|)
    ensures var r := Run(NeqrBlocks(Intensities(pixels), |pixels|, n), s);
      && r[..n] == s[..n]
      && r[n] == BitSet(Intensities(pixels)[j], 0)
      && r[n + 1] == BitSet(Intensities(pixels)[j], 1)
      && (0.0 <= pixels[j] <= 1.0 ==> ReadIntensity(r[n], r[n + 1]) == Trunc(3.0 * pixels[j]))
  {
    NeqrBlocksLoad(Intensities(pixels), n, s, j);
    if 0.0 <= pixels[j] <= 1.0 {
      IntensityDecodes(pixels, j);
    }
  }

  /** The integer held by the two intensity qubits, qubit n being bit 0. */
  function ReadIntensity(low: bool, high: bool): int
  {
    (if low then 1 else 0) + (if high then 2 else 0)
  }

  /** The two intensity bits of an intensity in [0, 1] give back `int(3 * v)`. */
  lemma IntensityDecodes(pixels: seq<real>, j: nat)
    requires j < |pixels| && 0.0 <= pixels[j] <= 1.0
    ensures ReadIntensity(BitSet(Intensities(pixels)[j], 0), BitSet(Intensities(pixels)[j], 1)) == Trunc(3.0 * pixels[j])
  {
    var v := Trunc(3.0 * pixels[j]);
    assert Intensities(pixels)[j] == v;
    IntensityBounds(pixels[j]);
    TwoBits(v);
  }

  /** An integer 0..3 is its bit 0 plus twice its bit 1. */
  lemma TwoBits(v: int)
    requires 0 <= v <= 3
    ensures ReadIntensity(BitSet(v, 0), BitSet(v, 1)) == v
  {
  }
}
