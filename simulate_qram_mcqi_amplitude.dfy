/** The per-dataset QRAM, MCQI and amplitude encoders of the drawing pipeline. Each
    builds its circuit with the same gate sequence as the corresponding metrics
    builder and then draws it; only the construction is modelled. */
module SimulateQramMcqiAmplitude {
  import opened Binary
  import opened Numerics
  import opened Images
  import opened Circuits
  import opened MetricsEvaluation

  /** `qram_encode(image, name)` up to the drawing: three qubits and the QRAM pixel
      blocks of the flattened image, the same gates `build_qram` emits. */
  method QramEncode(image: seq<seq<real>>) returns (qc: Circuit)
    ensures fresh(qc) && qc.Valid() && qc.numQubits == 3
    ensures qc.gates == QramGates(Flatten(image), |Flatten(image)|)
  {
    var pixels := Flatten(image);
    qc := new Circuit(3);
    AppendQramBlocks(qc, pixels);
  }

  /** `mcqi_encode(image, name)` up to the drawing: the three channel rotations of
      pixel [0, 0], or IndexError when the image has no such pixel. */
  method McqiEncode(image: seq<seq<Rgb>>) returns (r: Result<Circuit>)
    ensures r.Err? <==> |image| == 0 || |image[0]| == 0
    ensures r.Err? ==> r.error == IndexError
    ensures r.Ok? ==> && fresh(r.value) && r.value.Valid() && r.value.numQubits == 3
                      && r.value.gates == McqiGates(image[0][0])
  {
    if |image| == 0 || |image[0]| == 0 {
      return Err(IndexError);
    }
    var qc := new Circuit(3);
    AppendMcqiRotations(qc, image[0][0]);
    return Ok(qc);
  }

  /** `amplitude_encode(image, name)` up to the drawing: the normalised flattened
      image loaded into two qubits, refused by the library for anything but a
      non-zero 4-pixel image. */
  method AmplitudeEncode(image: seq<seq<real>>, norm: real) returns (r: Result<Circuit>)
    requires IsNorm(norm, Flatten(image))
    ensures r.Err? <==> |Flatten(image)| != 4 || AllZero(Flatten(image))
    ensures r.Err? ==> r.error == if PositivePowerOfTwo(|Flatten(image)|) && !AllZero(Flatten(image))
                                 then CircuitError else QiskitError
    ensures r.Ok? ==> && fresh(r.value) && r.value.Valid() && r.value.numQubits == 2 && norm != 0.0
                      && r.value.gates == [Init(Scale(Flatten(image), norm), [0, 1])]
  {
    r := BuildAmplitude(image, norm);
  }

  /** Each QRAM block leaves both address qubits with an even number of X gates,
      and a 2 x 2 image gives the 12-gate circuit with one rotation per pixel. */
  lemma QramEncodeShape(image: seq<seq<real>>, q: nat)
    requires IsGrid(image, 2, 2)
    ensures |Flatten(image)| == 4
    ensures var p := Flatten(image);
      && GateCount(QramGates(p, 4)) == 12
      && Rotations(QramGates(p, 4)) == QramAngles(p)
      && forall i :: 0 <= i < 4 ==> var c := multiset(QramBlock(i, p[i]))[X(q)]; c == 0 || c == 2
  {
    FlattenLength(image, 2, 2);
    var p := Flatten(image);
    QramFourPixelsCount(p);
    QramRoundTrip(p);
    forall i | 0 <= i < 4 ensures var c := multiset(QramBlock(i, p[i]))[X(q)]; c == 0 || c == 2 {
      QramBlockEvenFlips(i, p[i], q);
    }
  }
}
