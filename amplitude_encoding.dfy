/** The stand-alone amplitude-encoding script: the 4-vector [0.2, 0.5, 0.7, 0.9]
    divided by its norm and loaded into two qubits. */
module AmplitudeScript {
  import opened Numerics
  import opened Circuits
  import opened MetricsEvaluation

  const IMAGE: seq<real> := [0.2, 0.5, 0.7, 0.9]

  /** The script up to the drawing, given the vector's norm: one initialisation of
      qubits [0, 1] with each entry over the norm, in order. The vector is not zero,
      so the library accepts it. */
  method Encode(norm: real) returns (qc: Circuit)
    requires IsNorm(norm, IMAGE)
    ensures fresh(qc) && qc.Valid() && qc.numQubits == 2 && norm != 0.0
    ensures qc.gates == [Init(Scale(IMAGE, norm), [0, 1])]
    ensures GateCount(qc.gates) == 1
  {
    NotZero(norm);
    AmplitudeAdmissible(IMAGE, norm);
    qc := new Circuit(2);
    qc.Append(Init(Scale(IMAGE, norm), [0, 1]));
    assert qc.gates[..0] == [];
  }

  /** The vector has 4 = 2^2 entries and a non-zero norm. */
  lemma NotZero(norm: real)
    requires IsNorm(norm, IMAGE)
    ensures norm != 0.0 && |IMAGE| == 4
  {
    NormZeroIffAllZero(norm, IMAGE);
    assert IMAGE[0] != 0.0;
  }
}
