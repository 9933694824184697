/** The stand-alone QRAM script: the fixed 2 x 2 image [0.2, 0.5, 0.7, 0.9] on two
    address qubits and one data qubit. */
module QramScript {
  import opened Circuits
  import opened MetricsEvaluation

  const PIXELS: seq<real> := [0.2, 0.5, 0.7, 0.9]

  /** The script's loop over the four pixels, up to the drawing: pixel 0 gets a bare
      rotation, pixel 1 an X(1) sandwich, pixel 2 an X(0) sandwich and pixel 3 an
      X(0) X(1) sandwich, 12 gates of which 4 are rotations. */
  method Encode() returns (qc: Circuit)
    ensures fresh(qc) && qc.Valid() && qc.numQubits == 3
    ensures qc.gates ==
      [RY(2, TwoArcsin(0.2))]
      + [X(1), RY(2, TwoArcsin(0.5)), X(1)]
      + [X(0), RY(2, TwoArcsin(0.7)), X(0)]
      + [X(0), X(1), RY(2, TwoArcsin(0.9)), X(0), X(1)]
    ensures GateCount(qc.gates) == 12
  {
    qc := new Circuit(3);
    AppendQramBlocks(qc, PIXELS);
    QramFourPixels(PIXELS);
    QramFourPixelsCount(PIXELS);
  }

  /** The angles read back are the four pixels' `2 * arcsin(v)`, in order. */
  lemma EncodedAngles()
    ensures Rotations(QramGates(PIXELS, 4)) ==
      [TwoArcsin(0.2), TwoArcsin(0.5), TwoArcsin(0.7), TwoArcsin(0.9)]
  {
    QramRoundTrip(PIXELS);
  }
}
