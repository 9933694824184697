/** The simplified FRQI encoder: n = int(log2(size)) position qubits in uniform
    superposition, then one rotation of the intensity qubit per pixel by
    `2 * (intensity * pi)`, controlled by the single position qubit `idx % n`. No
    address conditioning is applied, so pixels idx and idx + n share a control. */
module FrqiEncoding {
  import opened Binary
  import opened Circuits

  /** The rotation of pixel `idx`, of intensity v, on n >= 1 position qubits. */
  function PixelRotation(idx: nat, v: real, n: nat): Gate
    requires n >= 1
  {
    CRY(idx % n, n, TwoPiTimes(v))
  }

  /** The rotations of the first k pixels, in flattened order. */
  function PixelRotations(pixels: seq<real>, k: nat, n: nat): seq<Gate>
    requires k <= |pixels| && n >= 1
  {
    if k == 0 then [] else PixelRotations(pixels, k - 1, n) + [PixelRotation(k - 1, pixels[k - 1], n)]
  }

  /** The whole gate list for n >= 1 position qubits. */
  function EncodingGates(pixels: seq<real>, n: nat): seq<Gate>
    requires n >= 1
  {
    HadamardLayer(n) + PixelRotations(pixels, |pixels|, n)
  }

  /** `frqi_circuit(image)` on the image's entries in flattened order. An empty image
      makes `int(np.log2(0))` raise OverflowError; a one-pixel image has n == 0 and
      `idx % n` raises ZeroDivisionError; otherwise the circuit has
      int(log2(size)) + 1 qubits. */
  method FrqiCircuit(pixels: seq<real>) returns (r: Result<Circuit>)
    ensures |pixels| == 0 <==> r == Err(OverflowError)
    ensures |pixels| == 1 <==> r == Err(ZeroDivisionError)
    ensures r.Ok? <==> |pixels| >= 2
    ensures r.Ok? ==> && fresh(r.value) && r.value.Valid()
                      && r.value.numQubits == FloorLog2(|pixels|) + 1
                      && r.value.gates == EncodingGates(pixels, FloorLog2(|pixels|))
  {
    if |pixels| == 0 {
      return Err(OverflowError);
    }
    var n := FloorLog2(|pixels|);
    if n == 0 {
      return Err(ZeroDivisionError);
    }
    var qc := new Circuit(n + 1);
    qc.AppendHadamardLayer(n);
    AppendPixelRotations(qc, pixels, n);
    return Ok(qc);
  }

  /** The pixel loop `for idx, val in enumerate(image.flatten())`. */
  method AppendPixelRotations(qc: Circuit, pixels: seq<real>, n: nat)
    requires qc.Valid() && qc.numQubits == n + 1 && n >= 1
    modifies qc
    ensures qc.Valid() && qc.gates == old(qc.gates) + PixelRotations(pixels, |pixels|, n)
  {
    for idx := 0 to |pixels|
      invariant qc.Valid() && qc.gates == old(qc.gates) + PixelRotations(pixels, idx, n)
    {
      var g := PixelRotation(idx, pixels[idx], n);
      assert Qubits(g) == [idx % n, n];
      qc.Append(g);
      PixelRotationsStep(old(qc.gates), pixels, idx, n);
    }
  }

  lemma PixelRotationsStep(prefix: seq<Gate>, pixels: seq<real>, k: nat, n: nat)
    requires k < |pixels| && n >= 1
    ensures prefix + PixelRotations(pixels, k + 1, n) == prefix + PixelRotations(pixels, k, n) + [PixelRotation(k, pixels[k], n)]
  {
  }

  /** The position count is the exponent of the largest power of two not above the
      pixel count; with at least two pixels it is at least 1. */
  lemma PositionCount(size: nat)
    requires size >= 2
    ensures var n := FloorLog2(size); n >= 1 && Pow2(n) <= size < 2 * Pow2(n)
  {
  }

  /** Gate k of the pixel rotations belongs to pixel k. */
  lemma {:induction false} PixelRotationsAt(pixels: seq<real>, k: nat, n: nat)
    requires k <= |pixels| && n >= 1
    ensures |PixelRotations(pixels, k, n)| == k
    ensures forall i :: 0 <= i < k ==> PixelRotations(pixels, k, n)[i] == CRY(i % n, n, TwoPiTimes(pixels[i]))
  {
    if k > 0 {
      PixelRotationsAt(pixels, k - 1, n);
    }
  }

  /** The layout: n Hadamards on qubits 0..n-1 in order, then one rotation per pixel
      in flattened order, n + size gates in all. Pixel i's rotation targets qubit n,
      is controlled by qubit i % n alone and turns by `2 * (intensity * pi)`. */
  lemma EncodingLayout(pixels: seq<real>, n: nat)
    requires n >= 1
    ensures |EncodingGates(pixels, n)| == n + |pixels|
    ensures forall i :: 0 <= i < n ==> EncodingGates(pixels, n)[i] == H(i)
    ensures forall i :: 0 <= i < |pixels| ==>
      EncodingGates(pixels, n)[n + i] == CRY(i % n, n, TwoPiTimes(pixels[i]))
  {
    PixelRotationsAt(pixels, |pixels|, n);
  }

  /** Without address conditioning, pixels idx and idx + n are rotated under the same
      control qubit. */
  lemma SharedControl(pixels: seq<real>, n: nat, idx: nat)
    requires n >= 1 && idx + n < |pixels|
    ensures |EncodingGates(pixels, n)| == n + |pixels|
    ensures var gs := EncodingGates(pixels, n);
      gs[n + idx].CRY? && gs[n + idx + n].CRY? && gs[n + idx].control == gs[n + idx + n].control
  {
    var gs := EncodingGates(pixels, n);
    EncodingLayout(pixels, n);
    assert gs[n + idx] == CRY(idx % n, n, TwoPiTimes(pixels[idx]));
    assert gs[n + (idx + n)] == CRY((idx + n) % n, n, TwoPiTimes(pixels[idx + n]));
    ModuloPeriod(idx, n);
  }

  lemma ModuloPeriod(a: nat, n: nat)
    requires n >= 1
    ensures (a + n) % n == a % n
  {
    var q, r := a / n, a % n;
    assert a == n * q + r && 0 <= r < n;
    assert a + n == n * (q + 1) + r;
    DivUnique(a + n, n, q + 1, r);
  }

  /** Every gate is a Hadamard or a rotation: the size the library reports is the
      length of the list. */
  lemma EncodingGateCount(pixels: seq<real>, n: nat)
    requires n >= 1
    ensures GateCount(EncodingGates(pixels, n)) == n + |pixels|
  {
    var gs := EncodingGates(pixels, n);
    EncodingLayout(pixels, n);
    forall j | 0 <= j < |gs| ensures !gs[j].Barrier? {
      if j >= n {
        assert gs[n + (j - n)] == CRY((j - n) % n, n, TwoPiTimes(pixels[j - n]));
      }
    }
    NoBarrierCount(gs);
  }

  /** `2 * (intensity * pi)` for every pixel, in pixel order. */
  function EncodingAngles(pixels: seq<real>): (angles: seq<Angle>)
    ensures |angles| == |pixels|
  {
    seq(|pixels|, i requires 0 <= i < |pixels| => TwoPiTimes(pixels[i]))
  }

  lemma {:induction false} PixelRotationsAngles(pixels: seq<real>, k: nat, n: nat)
    requires k <= |pixels| && n >= 1
    ensures Rotations(PixelRotations(pixels, k, n)) == EncodingAngles(pixels[..k])
  {
    if k > 0 {
      PixelRotationsAngles(pixels, k - 1, n);
      var last := [PixelRotation(k - 1, pixels[k - 1], n)];
      RotationsAppend(PixelRotations(pixels, k - 1, n), last);
      assert last[..0] == [];
      assert EncodingAngles(pixels[..k]) == EncodingAngles(pixels[..k - 1]) + [TwoPiTimes(pixels[k - 1])];
    }
  }

  /** Reading the rotation angles back off the circuit gives every pixel's angle,
      once, in pixel order. */
  lemma EncodingRoundTrip(pixels: seq<real>, n: nat)
    requires n >= 1
    ensures Rotations(EncodingGates(pixels, n)) == EncodingAngles(pixels)
  {
    NoRotations(HadamardLayer(n));
    RotationsAppend(HadamardLayer(n), PixelRotations(pixels, |pixels|, n));
    PixelRotationsAngles(pixels, |pixels|, n);
    assert pixels[..|pixels|] == pixels;
  }
}
