/**
 * The per-band min-max stretch of `ReadBandAsByte`: the exact minimum and
 * maximum of a plane, the degenerate-range test, and the mapping of one sample
 * onto 0..255 (scale, clamp, truncate). Arithmetic is exact (`real`); the clamp
 * is kept because the source uses it to absorb floating-point rounding.
 */
module Stretch {

  /** C#'s `byte`. */
  newtype byte = x: int | 0 <= x < 256

  /** Ranges narrower than this (`1e-12`) are treated as a single value. */
  const Epsilon: real := 1e-12

  function Abs(x: real): (r: real)
    ensures r >= 0.0 && (r == x || r == -x)
  {
    if x < 0.0 then -x else x
  }

  /** `Enumerable.Min`: the exact smallest sample of a non-empty plane. */
  function Minimum(s: seq<real>): (m: real)
    requires |s| > 0
    ensures exists i :: 0 <= i < |s| && s[i] == m
    ensures forall i :: 0 <= i < |s| ==> m <= s[i]
  {
    if |s| == 1 then s[0]
    else
      var rest := Minimum(s[1..]);
      if s[0] < rest then s[0] else rest
  }

  /** `Enumerable.Max`: the exact largest sample of a non-empty plane. */
  function Maximum(s: seq<real>): (m: real)
    requires |s| > 0
    ensures exists i :: 0 <= i < |s| && s[i] == m
    ensures forall i :: 0 <= i < |s| ==> s[i] <= m
  {
    if |s| == 1 then s[0]
    else
      var rest := Maximum(s[1..]);
      if s[0] > rest then s[0] else rest
  }

  /**
   * True when the plane's range is too small to stretch: equivalently, no two
   * samples are `Epsilon` or more apart.
   */
  predicate Degenerate(s: seq<real>): (d: bool)
    requires |s| > 0
    ensures d <==> forall i, j :: 0 <= i < |s| && 0 <= j < |s| ==> s[j] - s[i] < Epsilon
  {
    Abs(Maximum(s) - Minimum(s)) < Epsilon
  }

  /** Saturates at 0 below and at 255 above; values in between pass through. */
  function Clamp(x: real): (c: real)
    ensures 0.0 <= c <= 255.0
    ensures 0.0 <= x <= 255.0 ==> c == x
    ensures x < 0.0 ==> c == 0.0
    ensures x > 255.0 ==> c == 255.0
  {
    if x < 0.0 then 0.0 else if x > 255.0 then 255.0 else x
  }

  lemma ClampMonotone(x: real, y: real)
    requires x <= y
    ensures Clamp(x) <= Clamp(y)
  {
  }

  /** The unclamped image of `v` under the linear map taking `lo` to 0 and `hi` to 255. */
  function Scaled(v: real, lo: real, hi: real): (x: real)
    requires lo < hi
    ensures v == lo ==> x == 0.0
    ensures lo <= v ==> 0.0 <= x
  {
    (v - lo) * (255.0 / (hi - lo))
  }

  /** One output byte: scale, clamp to [0,255], truncate toward zero. */
  function StretchSample(v: real, lo: real, hi: real): (b: byte)
    requires lo < hi
    ensures v < lo ==> b == 0
    ensures v > hi ==> b == 255
  {
    var scale := 255.0 / (hi - lo);
    assert scale > 0.0 && (hi - lo) * scale == 255.0;
    assert Scaled(v, lo, hi) == (v - lo) * scale;
    assert v < lo ==> (v - lo) * scale < 0.0;
    assert v > hi ==> (v - lo) * scale - 255.0 == (v - hi) * scale > 0.0;
    Clamp(Scaled(v, lo, hi)).Floor as byte
  }

  /** The 8-bit plane that `ReadBandAsByte` produces from a non-empty plane. */
  function NormalizePlane(s: seq<real>): (out: seq<byte>)
    requires |s| > 0
    ensures |out| == |s|
  {
    if Degenerate(s) then seq(|s|, i => 0)
    else
      var lo, hi := Minimum(s), Maximum(s);
      seq(|s|, i requires 0 <= i < |s| => StretchSample(s[i], lo, hi))
  }

  // ---------------------------------------------------------------------
  // Properties of one sample

  /** The map is monotone: it never reorders two samples. */
  lemma StretchSampleMonotone(a: real, b: real, lo: real, hi: real)
    requires lo < hi && a <= b
    ensures StretchSample(a, lo, hi) <= StretchSample(b, lo, hi)
  {
    var scale := 255.0 / (hi - lo);
    assert scale > 0.0;
    assert Scaled(a, lo, hi) <= Scaled(b, lo, hi) by {
      assert (b - lo) * scale - (a - lo) * scale == (b - a) * scale;
    }
    var ca, cb := Clamp(Scaled(a, lo, hi)), Clamp(Scaled(b, lo, hi));
    ClampMonotone(Scaled(a, lo, hi), Scaled(b, lo, hi));
    assert ca.Floor <= cb.Floor;
  }

  /** With exact arithmetic every sample between the bounds already lands in [0,255]. */
  lemma ScaledInRange(v: real, lo: real, hi: real)
    requires lo <= v <= hi && lo < hi
    ensures 0.0 <= Scaled(v, lo, hi) <= 255.0
  {
    var d := hi - lo;
    var scale := 255.0 / d;
    assert scale * d == 255.0;
    assert 0.0 <= (v - lo) * scale;
    assert (v - lo) * scale <= d * scale by {
      assert d * scale - (v - lo) * scale == (hi - v) * scale;
    }
  }

  /** So for in-range samples the clamp never changes the value. */
  lemma ClampIsIdentityInRange(v: real, lo: real, hi: real)
    requires lo <= v <= hi && lo < hi
    ensures StretchSample(v, lo, hi) as int == Scaled(v, lo, hi).Floor
  {
    ScaledInRange(v, lo, hi);
  }

  /** The lower bound maps to 0 and the upper bound to 255. */
  lemma StretchSampleEndpoints(lo: real, hi: real)
    requires lo < hi
    ensures StretchSample(lo, lo, hi) == 0
    ensures StretchSample(hi, lo, hi) == 255
  {
    var d := hi - lo;
    assert Scaled(hi, lo, hi) == d * (255.0 / d) == 255.0;
  }

  // ---------------------------------------------------------------------
  // Properties of a whole plane

  /** A degenerate plane becomes all zero, and only a degenerate plane does. */
  lemma {:induction false} BlackIffDegenerate(s: seq<real>)
    requires |s| > 0
    ensures (forall i :: 0 <= i < |s| ==> NormalizePlane(s)[i] == 0) <==> Degenerate(s)
  {
    if !Degenerate(s) {
      var lo, hi := Minimum(s), Maximum(s);
      var j :| 0 <= j < |s| && s[j] == hi;
      StretchSampleEndpoints(lo, hi);
      assert NormalizePlane(s)[j] == 255;
    }
  }

  /** A plane of one repeated value (every single-pixel plane among them) becomes all zero. */
  lemma {:induction false} ConstantPlaneIsBlack(s: seq<real>)
    requires |s| > 0
    requires forall i :: 0 <= i < |s| ==> s[i] == s[0]
    ensures forall i :: 0 <= i < |s| ==> NormalizePlane(s)[i] == 0
  {
    var lo :| 0 <= lo < |s| && s[lo] == Minimum(s);
    var hi :| 0 <= hi < |s| && s[hi] == Maximum(s);
    assert Maximum(s) == Minimum(s);
    BlackIffDegenerate(s);
  }

  /** In a non-degenerate plane the minimum sample maps to 0 and the maximum to 255, and both occur. */
  lemma {:induction false} NormalizePlaneSpansFullRange(s: seq<real>)
    requires |s| > 0 && !Degenerate(s)
    ensures forall i :: 0 <= i < |s| && s[i] == Minimum(s) ==> NormalizePlane(s)[i] == 0
    ensures forall i :: 0 <= i < |s| && s[i] == Maximum(s) ==> NormalizePlane(s)[i] == 255
    ensures exists i :: 0 <= i < |s| && NormalizePlane(s)[i] == 0
    ensures exists i :: 0 <= i < |s| && NormalizePlane(s)[i] == 255
  {
    var lo, hi := Minimum(s), Maximum(s);
    StretchSampleEndpoints(lo, hi);
    var a :| 0 <= a < |s| && s[a] == lo;
    var b :| 0 <= b < |s| && s[b] == hi;
    assert NormalizePlane(s)[a] == 0;
    assert NormalizePlane(s)[b] == 255;
  }

  /** Samples keep their order: `s[i] <= s[j]` implies `out[i] <= out[j]`. */
  lemma {:induction false} NormalizePlaneMonotone(s: seq<real>, i: int, j: int)
    requires |s| > 0 && 0 <= i < |s| && 0 <= j < |s| && s[i] <= s[j]
    ensures NormalizePlane(s)[i] <= NormalizePlane(s)[j]
  {
    if !Degenerate(s) {
      StretchSampleMonotone(s[i], s[j], Minimum(s), Maximum(s));
    }
  }
}
