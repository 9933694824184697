/** The classical, quantum-inspired array transforms of the output generator: the
    geometric transform (a counter-clockwise quarter turn or a left-right mirror),
    the lossless "qram" copy, the zero-guarded "amplitude" normalisation, and the
    table naming the five model functions. Arrays are row lists with an explicit
    column count, so that empty rows keep their shape. */
module GenerateOutputs {
  import opened Numerics
  import opened Images

  /** `np.rot90(a)` for an array of shape (rows, cols): a counter-clockwise quarter
      turn, of shape (cols, rows), whose row i is column cols - 1 - i of `a`. */
  function Rot90<T>(a: seq<seq<T>>, cols: nat): (r: seq<seq<T>>)
    requires IsGrid(a, |a|, cols)
    ensures IsGrid(r, cols, |a|)
  {
    seq(cols, i requires 0 <= i < cols => seq(|a|, j requires 0 <= j < |a| => a[j][cols - 1 - i]))
  }

  /** `np.fliplr(a)`: every row reversed, shape kept. */
  function FlipLR<T>(a: seq<seq<T>>, cols: nat): (r: seq<seq<T>>)
    requires IsGrid(a, |a|, cols)
    ensures IsGrid(r, |a|, cols)
  {
    seq(|a|, i requires 0 <= i < |a| => seq(cols, j requires 0 <= j < cols => a[i][cols - 1 - j]))
  }

  /** `quantum_geometric_transform(image, transform="rotate")`: "rotate" turns,
      "flip" mirrors, any other tag returns the image itself. */
  function GeometricTransform<T>(image: seq<seq<T>>, cols: nat, transform: string := "rotate"): (r: seq<seq<T>>)
    requires IsGrid(image, |image|, cols)
    ensures transform == "rotate" ==> IsGrid(r, cols, |image|)
    ensures transform != "rotate" ==> IsGrid(r, |image|, cols)
    ensures transform != "rotate" && transform != "flip" ==> r == image
  {
    if transform == "rotate" then Rot90(image, cols)
    else if transform == "flip" then FlipLR(image, cols)
    else image
  }

  /** Called without a tag, the transform rotates. */
  lemma DefaultIsRotate<T>(image: seq<seq<T>>, cols: nat)
    requires IsGrid(image, |image|, cols)
    ensures GeometricTransform(image, cols) == Rot90(image, cols)
    ensures forall i, j :: 0 <= i < cols && 0 <= j < |image| ==>
      GeometricTransform(image, cols)[i][j] == image[j][cols - 1 - i]
  {
  }

  /** Mirroring twice gives the array back. */
  lemma FlipTwice<T>(a: seq<seq<T>>, cols: nat)
    requires IsGrid(a, |a|, cols)
    ensures FlipLR(FlipLR(a, cols), cols) == a
  {
    var f := FlipLR(FlipLR(a, cols), cols);
    forall i | 0 <= i < |a| ensures f[i] == a[i] {
      assert |f[i]| == |a[i]|;
    }
  }

  /** A half turn: two quarter turns send entry (i, j) to (rows-1-i, cols-1-j). */
  lemma HalfTurn<T>(a: seq<seq<T>>, cols: nat)
    requires IsGrid(a, |a|, cols)
    ensures var h := Rot90(Rot90(a, cols), |a|);
      IsGrid(h, |a|, cols) &&
      forall i, j :: 0 <= i < |a| && 0 <= j < cols ==> h[i][j] == a[|a| - 1 - i][cols - 1 - j]
  {
  }

  /** Four quarter turns give the array back. */
  lemma RotateFour<T>(a: seq<seq<T>>, cols: nat)
    requires IsGrid(a, |a|, cols)
    ensures var r1 := Rot90(a, cols); var r2 := Rot90(r1, |a|); var r3 := Rot90(r2, cols);
      Rot90(r3, |a|) == a
  {
    var r2 := Rot90(Rot90(a, cols), |a|);
    HalfTurn(a, cols);
    HalfTurn(r2, cols);
    var r4 := Rot90(Rot90(r2, cols), |a|);
    forall i | 0 <= i < |a| ensures r4[i] == a[i] {
      assert |r4[i]| == |a[i]|;
    }
  }

  /** `qram(img)`: `img.copy()`, an array equal to its input entry by entry. */
  function QramModel<T>(img: seq<seq<T>>): (r: seq<seq<T>>)
    ensures |r| == |img| && forall i, j :: 0 <= i < |img| && 0 <= j < |img[i]| ==> j < |r[i]| && r[i][j] == img[i][j]
  {
    img
  }

  /** Every entry divided by the same non-zero number. */
  function ScaleGrid(img: seq<seq<real>>, n: real): (r: seq<seq<real>>)
    requires n != 0.0
    ensures |r| == |img| && forall i :: 0 <= i < |img| ==> r[i] == Scale(img[i], n)
  {
    seq(|img|, i requires 0 <= i < |img| => Scale(img[i], n))
  }

  /** `amplitude(img)`, given the Euclidean norm of all its entries: the image itself
      when the norm is 0, else every entry over the norm. The shape is kept and a
      zero image is returned unchanged. */
  function AmplitudeModel(img: seq<seq<real>>, norm: real): (r: seq<seq<real>>)
    requires IsNorm(norm, Flatten(img))
    ensures |r| == |img| && forall i :: 0 <= i < |img| ==> |r[i]| == |img[i]|
    ensures AllZero(Flatten(img)) ==> r == img
  {
    NormZeroIffAllZero(norm, Flatten(img));
    if norm == 0.0 then img else ScaleGrid(img, norm)
  }

  lemma ScaleAppend(a: seq<real>, b: seq<real>, n: real)
    requires n != 0.0
    ensures Scale(a + b, n) == Scale(a, n) + Scale(b, n)
  {
  }

  /** Scaling every row scales the flattened image. */
  lemma {:induction false} FlattenScale(img: seq<seq<real>>, n: real)
    requires n != 0.0
    ensures Flatten(ScaleGrid(img, n)) == Scale(Flatten(img), n)
  {
    if |img| > 0 {
      FlattenScale(img[1..], n);
      assert ScaleGrid(img, n)[1..] == ScaleGrid(img[1..], n);
      ScaleAppend(img[0], Flatten(img[1..]), n);
    }
  }

  /** A non-zero image comes out with squared entries summing to 1, each entry the
      input entry over the norm. */
  lemma AmplitudeModelUnit(img: seq<seq<real>>, norm: real)
    requires IsNorm(norm, Flatten(img)) && !AllZero(Flatten(img))
    ensures norm != 0.0
    ensures SumSq(Flatten(AmplitudeModel(img, norm))) == 1.0
    ensures forall i, j :: 0 <= i < |img| && 0 <= j < |img[i]| ==>
      AmplitudeModel(img, norm)[i][j] == img[i][j] / norm
  {
    NormZeroIffAllZero(norm, Flatten(img));
    FlattenScale(img, norm);
    ScaleByNormIsUnit(Flatten(img), norm);
  }

  /** The model functions by name. Only "qram" and "amplitude" are computed in this
      model; the other three are floating-point maps. */
  datatype Model = Frqi | Neqr | Qram | Mcqi | Amplitude

  const MODELS: map<string, Model> :=
    map["frqi" := Frqi, "neqr" := Neqr, "qram" := Qram, "mcqi" := Mcqi, "amplitude" := Amplitude]

  /** Exactly the five names, each naming its own model. */
  lemma ModelsTable()
    ensures MODELS.Keys == {"frqi", "neqr", "qram", "mcqi", "amplitude"}
    ensures MODELS["qram"] == Qram && MODELS["amplitude"] == Amplitude
    ensures forall a, b :: a in MODELS && b in MODELS && a != b ==> MODELS[a] != MODELS[b]
  {
  }
}
