/** Normalised images as the encoders receive them: a grid of intensities (or RGB
    triples), flattened in row-major order as `image.flatten()` does. */
module Images {

  /** One RGB pixel, channels in the order `r, g, b = image[0, 0]` unpacks them. */
  datatype Rgb = Rgb(r: real, g: real, b: real)

  /** `a` is a rows x cols array. */
  predicate IsGrid<T>(a: seq<seq<T>>, rows: nat, cols: nat)
  {
    |a| == rows && forall i :: 0 <= i < rows ==> |a[i]| == cols
  }

  /** `image.flatten()`: the rows one after another. */
  function Flatten<T>(a: seq<seq<T>>): (f: seq<T>)
  {
    if |a| == 0 then [] else a[0] + Flatten(a[1..])
  }

  /** Flattening a rows x cols grid gives rows * cols pixels. */
  lemma {:induction false} FlattenLength<T>(a: seq<seq<T>>, rows: nat, cols: nat)
    requires IsGrid(a, rows, cols)
    ensures |Flatten(a)| == rows * cols
  {
    if rows > 0 {
      FlattenLength(a[1..], rows - 1, cols);
      assert (rows - 1) * cols + cols == rows * cols;
    }
  }

  /** Row-major order: pixel (i, j) of a grid with `cols` columns lands at position
      i * cols + j of the flattened image. */
  lemma {:induction false} FlattenAt<T>(a: seq<seq<T>>, rows: nat, cols: nat, i: nat, j: nat)
    requires IsGrid(a, rows, cols) && i < rows && j < cols
    ensures i * cols + j < |Flatten(a)| && Flatten(a)[i * cols + j] == a[i][j]
  {
    FlattenLength(a[1..], rows - 1, cols);
    if i > 0 {
      FlattenAt(a[1..], rows - 1, cols, i - 1, j);
      assert i * cols + j == cols + ((i - 1) * cols + j);
    }
  }
}
