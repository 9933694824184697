/** The stand-alone MCQI script: one RGB pixel (0.6, 0.3, 0.8), one rotation per
    channel. */
module McqiScript {
  import opened Images
  import opened Circuits
  import opened MetricsEvaluation

  const PIXEL: Rgb := Rgb(0.6, 0.3, 0.8)

  /** The script's three rotations, up to the drawing: red on qubit 0, green on 1,
      blue on 2, in that order. */
  method Encode() returns (qc: Circuit)
    ensures fresh(qc) && qc.Valid() && qc.numQubits == 3
    ensures qc.gates == [RY(0, TwoArcsin(0.6)), RY(1, TwoArcsin(0.3)), RY(2, TwoArcsin(0.8))]
  {
    qc := new Circuit(3);
    AppendMcqiRotations(qc, PIXEL);
  }

  /** Three gates, no qubit touched twice, the channels read back in order. */
  lemma EncodedAngles()
    ensures GateCount(McqiGates(PIXEL)) == 3
    ensures Rotations(McqiGates(PIXEL)) == [TwoArcsin(0.6), TwoArcsin(0.3), TwoArcsin(0.8)]
  {
    McqiLayout(PIXEL);
  }
}
