/** The hybrid image representation demo: the pixels above a threshold (the region
    of interest) and the rest (the background) are split apart in row-major order,
    each part is normalised to a state vector, the two vectors are concatenated, and
    the image is rebuilt by writing both parts back through the mask. The image is
    taken flattened in row-major order, the order boolean-mask indexing visits it. */
module HaQir {
  import opened Numerics
  import opened Images

  /** The demo's image side and threshold. */
  const N: nat := 8
  const THRESHOLD: real := 0.6

  /** `p[p > t]` when `above`, `p[~(p > t)]` otherwise: the pixels on one side of the
      threshold, in their original order. */
  function Select(p: seq<real>, t: real, above: bool): (r: seq<real>)
    ensures |r| <= |p|
  {
    if |p| == 0 then []
    else Select(p[..|p| - 1], t, above) + (if (p[|p| - 1] > t) == above then [p[|p| - 1]] else [])
  }

  /** The two parts share out the image: together they hold every pixel exactly as
      often as the image does, so their sizes add up to the pixel count. */
  lemma {:induction false} Partition(p: seq<real>, t: real)
    ensures multiset(Select(p, t, true)) + multiset(Select(p, t, false)) == multiset(p)
    ensures |Select(p, t, true)| + |Select(p, t, false)| == |p|
  {
    PartitionMultiset(p, t);
    assert |multiset(Select(p, t, true))| + |multiset(Select(p, t, false))| == |multiset(p)|;
  }

  lemma {:induction false} PartitionMultiset(p: seq<real>, t: real)
    ensures multiset(Select(p, t, true)) + multiset(Select(p, t, false)) == multiset(p)
  {
    if |p| > 0 {
      PartitionMultiset(p[..|p| - 1], t);
      PartitionStep(p, t);
      MultisetInit(p);
    }
  }

  /** The last pixel goes to exactly one of the two parts. */
  lemma PartitionStep(p: seq<real>, t: real)
    requires |p| > 0
    ensures multiset(Select(p, t, true)) + multiset(Select(p, t, false))
         == multiset(Select(p[..|p| - 1], t, true)) + multiset(Select(p[..|p| - 1], t, false)) + multiset{p[|p| - 1]}
  {
    var x := p[|p| - 1];
    var hi, lo := Select(p[..|p| - 1], t, true), Select(p[..|p| - 1], t, false);
    if x > t {
      assert Select(p, t, true) == hi + [x] && Select(p, t, false) == lo;
      MultisetInit(hi + [x]);
      assert (hi + [x])[..|hi|] == hi;
    } else {
      assert Select(p, t, true) == hi && Select(p, t, false) == lo + [x];
      MultisetInit(lo + [x]);
      assert (lo + [x])[..|lo|] == lo;
    }
  }

  lemma MultisetInit(p: seq<real>)
    requires |p| > 0
    ensures multiset(p) == multiset(p[..|p| - 1]) + multiset{p[|p| - 1]}
  {
    assert p == p[..|p| - 1] + [p[|p| - 1]];
  }

  /** Every selected pixel is on the selected side of the threshold, and every pixel
      on that side is selected. */
  lemma {:induction false} SelectSide(p: seq<real>, t: real, above: bool)
    ensures forall i :: 0 <= i < |Select(p, t, above)| ==> (Select(p, t, above)[i] > t) == above
    ensures forall i :: 0 <= i < |p| && (p[i] > t) == above ==> p[i] in Select(p, t, above)
  {
    if |p| > 0 {
      var q := p[..|p| - 1];
      SelectSide(q, t, above);
      forall i | 0 <= i < |q| && (q[i] > t) == above ensures p[i] in Select(p, t, above) {
        assert p[i] == q[i];
      }
    }
  }

  /** Selecting from a prefix of the image gives a prefix of the selection. */
  lemma {:induction false} SelectPrefix(p: seq<real>, i: nat, t: real, above: bool)
    requires i <= |p|
    ensures Select(p[..i], t, above) <= Select(p, t, above)
    decreases |p|
  {
    if i < |p| {
      var q := p[..|p| - 1];
      assert q[..i] == p[..i];
      SelectPrefix(q, i, t, above);
    } else {
      assert p[..i] == p;
    }
  }

  /** Selecting from one more pixel adds that pixel when it is on the selected side. */
  lemma SelectStep(p: seq<real>, i: nat, t: real, above: bool)
    requires i < |p|
    ensures Select(p[..i + 1], t, above) == Select(p[..i], t, above) + (if (p[i] > t) == above then [p[i]] else [])
  {
    assert p[..i + 1][..i] == p[..i];
  }

  /** Pixel i, when on the selected side, is the selection's entry just after those
      taken from the pixels before it. */
  lemma SelectNext(p: seq<real>, i: nat, t: real, above: bool)
    requires i < |p| && (p[i] > t) == above
    ensures |Select(p[..i], t, above)| < |Select(p, t, above)|
    ensures Select(p, t, above)[|Select(p[..i], t, above)|] == p[i]
  {
    SelectStep(p, i, t, above);
    SelectPrefix(p, i + 1, t, above);
  }

  /** `mcqi_encode(pixels)` and `amplitude_encode(pixels)`, which have the same body:
      an empty part gives an empty vector, any other part is divided by its norm. */
  function EncodePart(pixels: seq<real>, norm: real): (r: seq<Scalar>)
    requires IsNorm(norm, pixels)
    ensures |r| == |pixels|
  {
    if |pixels| == 0 then [] else Normalise(pixels, norm)
  }

  /** An encoded part is the part divided entry by entry by its norm, with squared
      entries summing to 1, unless the part is all zeros (then every entry is NaN)
      or empty (then so is the vector). */
  lemma EncodePartMeaning(pixels: seq<real>, norm: real)
    requires IsNorm(norm, pixels)
    ensures |pixels| == 0 ==> EncodePart(pixels, norm) == []
    ensures !AllZero(pixels) ==> norm != 0.0 && Values(EncodePart(pixels, norm)) == Scale(pixels, norm)
                                 && SumSq(Values(EncodePart(pixels, norm))) == 1.0
    ensures AllZero(pixels) ==> forall i :: 0 <= i < |pixels| ==> EncodePart(pixels, norm)[i].NaN?
  {
    NormaliseMeaning(pixels, norm);
  }

  /** `np.concatenate([roi_state, bg_state])`. */
  function Hybrid(roiState: seq<Scalar>, bgState: seq<Scalar>): (h: seq<Scalar>)
    ensures |h| == |roiState| + |bgState|
  {
    roiState + bgState
  }

  /** For an N x N image the hybrid state has one entry per pixel: N * N = 64. */
  lemma HybridLength(img: seq<seq<real>>, roiNorm: real, bgNorm: real)
    requires IsGrid(img, N, N)
    requires IsNorm(roiNorm, Select(Flatten(img), THRESHOLD, true))
    requires IsNorm(bgNorm, Select(Flatten(img), THRESHOLD, false))
    ensures |Hybrid(EncodePart(Select(Flatten(img), THRESHOLD, true), roiNorm),
                    EncodePart(Select(Flatten(img), THRESHOLD, false), bgNorm))| == N * N == 64
  {
    FlattenLength(img, N, N);
    Partition(Flatten(img), THRESHOLD);
  }

  /** `reconstructed = np.zeros_like(img)`, then `reconstructed[roi_mask] =
      roi_pixels` and `reconstructed[~roi_mask] = bg_pixels`: the masked writes put
      every pixel back where it came from. */
  method Reconstruct(img: seq<real>, t: real) returns (out: array<real>)
    ensures fresh(out) && out[..] == img
  {
    var roi := Select(img, t, true);
    var bg := Select(img, t, false);
    out := new real[|img|](_ => 0.0);
    WriteMasked(out, img, t, true, roi);
    WriteMasked(out, img, t, false, bg);
  }

  /** One masked assignment: the entries on the selected side receive the selected
      pixels in order; the others keep their value. */
  method WriteMasked(out: array<real>, img: seq<real>, t: real, above: bool, part: seq<real>)
    requires out.Length == |img| && part == Select(img, t, above)
    modifies out
    ensures forall j :: 0 <= j < |img| ==> out[j] == if (img[j] > t) == above then img[j] else old(out[j])
  {
    var k := 0;
    for i := 0 to |img|
      invariant k == |Select(img[..i], t, above)|
      invariant forall j :: 0 <= j < i ==> out[j] == if (img[j] > t) == above then img[j] else old(out[j])
      invariant forall j :: i <= j < |img| ==> out[j] == old(out[j])
    {
      SelectStep(img, i, t, above);
      if (img[i] > t) == above {
        SelectNext(img, i, t, above);
        out[i] := part[k];
        k := k + 1;
      }
    }
  }
}
