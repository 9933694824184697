/** The three small encoders of the metrics pipeline, on 2 x 2 images:

    - QRAM: three qubits, two address qubits and one data qubit. For each pixel, X on
      the address qubits whose character of `format(i, "02b")` is '1', an RY of the
      data qubit by `2 * arcsin(v)` (not controlled by the address), and the same X
      again.
    - MCQI: one RY per colour channel of pixel [0, 0], red on qubit 0, green on 1,
      blue on 2.
    - Amplitude: the flattened image divided by its norm, loaded into two qubits by a
      single state initialisation. */
module MetricsEvaluation {
  import opened Binary
  import opened Numerics
  import opened Images
  import opened Circuits
  import opened Classical

  // ---------------------------------------------------------------- QRAM

  /** The address qubits flipped for pixel i: qubit 0 when character 0 of
      `format(i, "02b")` is '1', then qubit 1 when character 1 is. */
  function QramAddressQubits(i: nat): seq<nat>
  {
    var b := FormatBinary(i, 2);
    (if b[0] == '1' then [0] else []) + (if b[1] == '1' then [1] else [])
  }

  function QramFlips(i: nat): seq<Gate>
  {
    Flips(QramAddressQubits(i))
  }

  /** Pixel i's block: the flips, the data rotation, the same flips. */
  function QramBlock(i: nat, v: real): seq<Gate>
  {
    QramFlips(i) + [RY(2, TwoArcsin(v))] + QramFlips(i)
  }

  /** The blocks of the first k pixels, in flattened order. */
  function QramGates(pixels: seq<real>, k: nat): seq<Gate>
    requires k <= |pixels|
  {
    if k == 0 then [] else QramGates(pixels, k - 1) + QramBlock(k - 1, pixels[k - 1])
  }

  /** `build_qram(image)`: whatever the image's size, three qubits and one block per
      pixel. */
  method BuildQram(image: seq<seq<real>>) returns (qc: Circuit)
    ensures fresh(qc) && qc.Valid() && qc.numQubits == 3
    ensures qc.gates == QramGates(Flatten(image), |Flatten(image)|)
  {
    var pixels := Flatten(image);
    qc := new Circuit(3);
    AppendQramBlocks(qc, pixels);
  }

  /** The pixel loop `for i, v in enumerate(pixels): ...`. */
  method AppendQramBlocks(qc: Circuit, pixels: seq<real>)
    requires qc.Valid() && qc.numQubits == 3
    modifies qc
    ensures qc.Valid() && qc.gates == old(qc.gates) + QramGates(pixels, |pixels|)
  {
    for i := 0 to |pixels|
      invariant qc.Valid() && qc.gates == old(qc.gates) + QramGates(pixels, i)
    {
      AppendQramBlock(qc, i, pixels[i]);
      QramGatesStep(old(qc.gates), pixels, i);
    }
  }

  lemma QramGatesStep(prefix: seq<Gate>, pixels: seq<real>, k: nat)
    requires k < |pixels|
    ensures prefix + QramGates(pixels, k + 1) == prefix + QramGates(pixels, k) + QramBlock(k, pixels[k])
  {
  }

  /** One iteration of the pixel loop. */
  method AppendQramBlock(qc: Circuit, i: nat, v: real)
    requires qc.Valid() && qc.numQubits == 3
    modifies qc
    ensures qc.Valid() && qc.gates == old(qc.gates) + QramBlock(i, v)
  {
    AppendAddressFlips(qc, i);
    assert Qubits(RY(2, TwoArcsin(v))) == [2];
    qc.Append(RY(2, TwoArcsin(v)));
    AppendAddressFlips(qc, i);
  }

  /** The X gates of pixel i's address, qubit 0 first. */
  method AppendAddressFlips(qc: Circuit, i: nat)
    requires qc.Valid() && qc.numQubits == 3
    modifies qc
    ensures qc.Valid() && qc.gates == old(qc.gates) + QramFlips(i)
  {
    var b := FormatBinary(i, 2);
    var a0: seq<nat> := if b[0] == '1' then [0] else [];
    var a1: seq<nat> := if b[1] == '1' then [1] else [];
    FlipsAppend(a0, a1);
    if b[0] == '1' {
      assert Qubits(X(0)) == [0];
      qc.Append(X(0));
    }
    if b[1] == '1' {
      assert Qubits(X(1)) == [1];
      qc.Append(X(1));
    }
  }

  /** For the four pixels of a 2 x 2 image the address is the pixel index in
      binary: qubit 0 is flipped when bit 1 of i is set, qubit 1 when bit 0 is. */
  lemma QramAddressIsIndex(i: nat)
    requires i < 4
    ensures QramAddressQubits(i) == (if BitSet(i, 1) then [0] else []) + (if BitSet(i, 0) then [1] else [])
  {
    assert Pow2(2) == 4;
    FormatBinaryBits(i, 2);
  }

  /** Past the fourth pixel addresses repeat: `format(4, "02b")` is "100", whose
      first two characters are those of pixel 2's address "10". */
  lemma QramAddressAliases()
    ensures QramAddressQubits(4) == QramAddressQubits(2) == [0]
  {
    assert FormatBinary(4, 2) == "100";
    assert FormatBinary(2, 2) == "10";
  }

  /** Qubit roles: every gate is either the rotation of data qubit 2 or an X on an
      address qubit; nothing else touches any qubit. */
  lemma {:induction false} QramRoles(pixels: seq<real>, k: nat)
    requires k <= |pixels|
    ensures forall j :: 0 <= j < |QramGates(pixels, k)| ==>
      var g := QramGates(pixels, k)[j];
      (g.RY? && g.q == 2) || (g.X? && g.q < 2)
  {
    if k > 0 {
      QramRoles(pixels, k - 1);
      var flips := QramFlips(k - 1);
      assert forall j :: 0 <= j < |flips| ==> flips[j].X? && flips[j].q < 2;
    }
  }

  /** An address flips no qubit, qubit 0, qubit 1, or qubit 0 then qubit 1. */
  lemma QramAddressShape(i: nat)
    ensures var a := QramAddressQubits(i); a == [] || a == [0] || a == [1] || a == [0, 1]
  {
  }

  /** Every X before a pixel's rotation is repeated after it, so each address
      qubit receives an even number of X in a block: two or none. */
  lemma QramBlockEvenFlips(i: nat, v: real, q: nat)
    ensures var c := multiset(QramBlock(i, v))[X(q)]; c == 0 || c == 2
  {
    SandwichCount(QramFlips(i), RY(2, TwoArcsin(v)), X(q));
    QramFlipsOnce(i, q);
  }

  /** A gate occurs twice as often in `f + [g] + f` as in f when it is not g. */
  lemma SandwichCount(f: seq<Gate>, g: Gate, x: Gate)
    requires g != x
    ensures multiset(f + [g] + f)[x] == 2 * multiset(f)[x]
  {
    var m: multiset<Gate> := multiset(f);
    assert multiset(f + [g] + f) == m + multiset{g} + m;
  }

  /** No address flips a qubit twice. */
  lemma QramFlipsOnce(i: nat, q: nat)
    ensures multiset(QramFlips(i))[X(q)] <= 1
  {
    QramAddressShape(i);
    ShortFlipsOnce(QramAddressQubits(i), q);
  }

  lemma ShortFlipsOnce(a: seq<nat>, q: nat)
    requires a == [] || a == [0] || a == [1] || a == [0, 1]
    ensures multiset(Flips(a))[X(q)] <= 1
  {
    if a == [0, 1] {
      assert Flips(a) == [X(0)] + [X(1)];
    } else if a != [] {
      assert Flips(a) == [X(a[0])];
    }
  }

  /** Run on a basis state, the flips after the rotation undo those before it: the
      address register ends every block as it began. */
  lemma QramFlipsRestore(i: nat, s: seq<bool>)
    requires |s| >= 3
    ensures Runnable(QramFlips(i) + QramFlips(i), |s|)
    ensures Run(QramFlips(i) + QramFlips(i), s) == s
  {
    FlipsTwice(QramAddressQubits(i), s);
  }

  /** `2 * arcsin(v)` for every pixel, in pixel order. */
  function QramAngles(pixels: seq<real>): (angles: seq<Angle>)
    ensures |angles| == |pixels|
  {
    seq(|pixels|, i requires 0 <= i < |pixels| => TwoArcsin(pixels[i]))
  }

  lemma QramBlockRotations(i: nat, v: real)
    ensures Rotations(QramBlock(i, v)) == [TwoArcsin(v)]
  {
    var f := QramFlips(i);
    var mid := [RY(2, TwoArcsin(v))];
    NoRotations(f);
    assert Rotations(mid) == [TwoArcsin(v)] by {
      assert mid[..0] == [];
    }
    RotationsAppend(f, mid);
    RotationsAppend(f + mid, f);
  }

  lemma {:induction false} QramGatesRotations(pixels: seq<real>, k: nat)
    requires k <= |pixels|
    ensures Rotations(QramGates(pixels, k)) == QramAngles(pixels[..k])
  {
    if k > 0 {
      QramGatesRotations(pixels, k - 1);
      QramBlockRotations(k - 1, pixels[k - 1]);
      RotationsAppend(QramGates(pixels, k - 1), QramBlock(k - 1, pixels[k - 1]));
      QramAnglesSnoc(pixels, k);
    }
  }

  lemma QramAnglesSnoc(pixels: seq<real>, k: nat)
    requires 0 < k <= |pixels|
    ensures QramAngles(pixels[..k]) == QramAngles(pixels[..k - 1]) + [TwoArcsin(pixels[k - 1])]
  {
  }

  /** Reading the rotations back off a QRAM circuit gives one angle per pixel, in
      pixel order: no pixel is lost or reordered. */
  lemma QramRoundTrip(pixels: seq<real>)
    ensures Rotations(QramGates(pixels, |pixels|)) == QramAngles(pixels)
  {
    QramGatesRotations(pixels, |pixels|);
    assert pixels[..|pixels|] == pixels;
  }

  /** The addresses of pixels 0..3 are "00", "01", "10" and "11". */
  lemma QramFirstAddresses()
    ensures QramAddressQubits(0) == [] && QramAddressQubits(1) == [1]
    ensures QramAddressQubits(2) == [0] && QramAddressQubits(3) == [0, 1]
  {
    assert FormatBinary(0, 2) == "00";
    assert FormatBinary(1, 2) == "01";
    assert FormatBinary(2, 2) == "10";
    assert FormatBinary(3, 2) == "11";
  }

  lemma QramFirstBlocks(v0: real, v1: real, v2: real, v3: real)
    ensures QramBlock(0, v0) == [RY(2, TwoArcsin(v0))]
    ensures QramBlock(1, v1) == [X(1), RY(2, TwoArcsin(v1)), X(1)]
    ensures QramBlock(2, v2) == [X(0), RY(2, TwoArcsin(v2)), X(0)]
    ensures QramBlock(3, v3) == [X(0), X(1), RY(2, TwoArcsin(v3)), X(0), X(1)]
  {
    QramFirstAddresses();
    assert QramFlips(0) == [];
    assert QramFlips(1) == [X(1)];
    assert QramFlips(2) == [X(0)];
    assert QramFlips(3) == [X(0), X(1)];
  }

  /** The whole circuit for four pixels, block by block: pixel 0's bare rotation,
      pixel 1's X(1) sandwich, pixel 2's X(0) sandwich, pixel 3's X(0) X(1)
      sandwich. */
  lemma QramFourPixels(pixels: seq<real>)
    requires |pixels| == 4
    ensures QramGates(pixels, 4) ==
      [RY(2, TwoArcsin(pixels[0]))]
      + [X(1), RY(2, TwoArcsin(pixels[1])), X(1)]
      + [X(0), RY(2, TwoArcsin(pixels[2])), X(0)]
      + [X(0), X(1), RY(2, TwoArcsin(pixels[3])), X(0), X(1)]
  {
    QramGatesFour(pixels);
    QramFirstBlocks(pixels[0], pixels[1], pixels[2], pixels[3]);
  }

  lemma QramGatesFour(pixels: seq<real>)
    requires |pixels| == 4
    ensures QramGates(pixels, 4) ==
      QramBlock(0, pixels[0]) + QramBlock(1, pixels[1]) + QramBlock(2, pixels[2]) + QramBlock(3, pixels[3])
  {
    assert QramGates(pixels, 1) == [] + QramBlock(0, pixels[0]) == QramBlock(0, pixels[0]);
    assert QramGates(pixels, 2) == QramGates(pixels, 1) + QramBlock(1, pixels[1]);
    assert QramGates(pixels, 3) == QramGates(pixels, 2) + QramBlock(2, pixels[2]);
  }

  /** For four pixels the library counts 12 gates, 4 of them rotations. */
  lemma QramFourPixelsCount(pixels: seq<real>)
    requires |pixels| == 4
    ensures GateCount(QramGates(pixels, 4)) == 12 && |Rotations(QramGates(pixels, 4))| == 4
  {
    QramFourPixels(pixels);
    NoBarrierCount(QramGates(pixels, 4));
    QramRoundTrip(pixels);
  }

  // ---------------------------------------------------------------- MCQI

  /** One rotation per channel of the pixel, in the order red, green, blue on qubits
      0, 1, 2. */
  function McqiGates(p: Rgb): seq<Gate>
  {
    [RY(0, TwoArcsin(p.r)), RY(1, TwoArcsin(p.g)), RY(2, TwoArcsin(p.b))]
  }

  /** `build_mcqi(image)`: only pixel [0, 0] is encoded; an image without it raises
      IndexError. */
  method BuildMcqi(image: seq<seq<Rgb>>) returns (r: Result<Circuit>)
    ensures r.Err? <==> |image| == 0 || |image[0]| == 0
    ensures r.Err? ==> r.error == IndexError
    ensures r.Ok? ==> && fresh(r.value) && r.value.Valid() && r.value.numQubits == 3
                      && r.value.gates == McqiGates(image[0][0])
  {
    if |image| == 0 || |image[0]| == 0 {
      return Err(IndexError);
    }
    var qc := new Circuit(3);
    AppendMcqiRotations(qc, image[0][0]);
    return Ok(qc);
  }

  /** The three straight-line rotations. */
  method AppendMcqiRotations(qc: Circuit, p: Rgb)
    requires qc.Valid() && qc.numQubits == 3
    modifies qc
    ensures qc.Valid() && qc.gates == old(qc.gates) + McqiGates(p)
  {
    assert Qubits(RY(0, TwoArcsin(p.r))) == [0];
    qc.Append(RY(0, TwoArcsin(p.r)));
    assert Qubits(RY(1, TwoArcsin(p.g))) == [1];
    qc.Append(RY(1, TwoArcsin(p.g)));
    assert Qubits(RY(2, TwoArcsin(p.b))) == [2];
    qc.Append(RY(2, TwoArcsin(p.b)));
  }

  /** Three gates, all rotations, gate i on qubit i, no qubit used twice, and the
      angles read back are the channels in the order red, green, blue. */
  lemma McqiLayout(p: Rgb)
    ensures |McqiGates(p)| == 3 && GateCount(McqiGates(p)) == 3
    ensures forall i :: 0 <= i < 3 ==> McqiGates(p)[i].RY? && McqiGates(p)[i].q == i
    ensures forall i, j :: 0 <= i < j < 3 ==> McqiGates(p)[i].q != McqiGates(p)[j].q
    ensures Rotations(McqiGates(p)) == [TwoArcsin(p.r), TwoArcsin(p.g), TwoArcsin(p.b)]
  {
    var gs := McqiGates(p);
    assert Rotations(gs[..1]) == [TwoArcsin(p.r)] by {
      assert gs[..1][..0] == [];
    }
    assert Rotations(gs[..2]) == [TwoArcsin(p.r), TwoArcsin(p.g)] by {
      assert gs[..2][..1] == gs[..1];
    }
    assert gs[..3][..2] == gs[..2] && gs[..3] == gs;
    NoBarrierCount(gs);
  }

  // ---------------------------------------------------------------- Amplitude

  /** `build_amplitude(image)`, given the Euclidean norm of the flattened image. The
      division by the norm always happens. The library's state preparation refuses
      (QiskitError) a vector whose length is not a positive power of two and one
      without unit norm, which is the all-zero image (0 / 0 is NaN everywhere); a
      legal state of another size than 4 is then refused (CircuitError) when it is
      placed on the two qubits [0, 1]. */
  method BuildAmplitude(image: seq<seq<real>>, norm: real) returns (r: Result<Circuit>)
    requires IsNorm(norm, Flatten(image))
    ensures r.Err? <==> |Flatten(image)| != 4 || AllZero(Flatten(image))
    ensures r.Err? ==> r.error == if PositivePowerOfTwo(|Flatten(image)|) && !AllZero(Flatten(image))
                                 then CircuitError else QiskitError
    ensures r.Ok? ==> && fresh(r.value) && r.value.Valid() && r.value.numQubits == 2 && norm != 0.0
                      && r.value.gates == [Init(Scale(Flatten(image), norm), [0, 1])]
  {
    var vec := Flatten(image);
    NormaliseMeaning(vec, norm);
    var state := Normalise(vec, norm);
    var qc := new Circuit(2);
    if !PositivePowerOfTwo(|state|) || norm == 0.0 {
      return Err(QiskitError);
    }
    if |state| != 4 {
      return Err(CircuitError);
    }
    var amplitudes := Values(state);
    AmplitudeAdmissible(vec, norm);
    qc.Append(Init(amplitudes, [0, 1]));
    return Ok(qc);
  }

  /** For a non-zero image of 4 pixels the normalised vector is a legal 2-qubit
      state: 4 = 2^2 amplitudes, in pixel order, each the pixel over the common
      norm, with squared magnitudes summing to 1. */
  lemma AmplitudeAdmissible(vec: seq<real>, norm: real)
    requires IsNorm(norm, vec) && |vec| == 4 && norm != 0.0
    ensures Admissible(Init(Scale(vec, norm), [0, 1]), 2)
    ensures forall i :: 0 <= i < 4 ==> Scale(vec, norm)[i] == vec[i] / norm
  {
    NormaliseMeaning(vec, norm);
    var g := Init(Scale(vec, norm), [0, 1]);
    assert Qubits(g) == [0, 1];
    assert Pow2(2) == 4;
  }
}
