/** Worked conversions of small rasters, stated as lemmas about `Load`. */
module Scenarios {
  import opened Wrappers
  import opened Gdal
  import opened Stretch
  import opened Packing
  import opened GeoTiffLoaderGdal

  /** On the range [0, 255] the stretch is the truncation of the sample itself. */
  lemma UnitRangeStretch(v: real)
    requires 0.0 <= v <= 255.0
    ensures StretchSample(v, 0.0, 255.0) as int == v.Floor
  {
    assert 255.0 / (255.0 - 0.0) == 1.0;
    assert Scaled(v, 0.0, 255.0) == v;
  }

  lemma FullRangePlaneIsUnchanged(s: seq<real>)
    requires |s| == 4 && s[0] == 0.0 && s[1] == 64.0 && s[2] == 128.0 && s[3] == 255.0
    ensures NormalizePlane(s) == [0, 64, 128, 255]
  {
    var lo, hi := Minimum(s), Maximum(s);
    assert lo <= s[0] && hi >= s[3];
    assert lo == 0.0 && hi == 255.0;
    assert !Degenerate(s) by {
      assert s[3] - s[0] >= Epsilon;
    }
    var out := NormalizePlane(s);
    UnitRangeStretch(64.0);
    UnitRangeStretch(128.0);
    assert 64.0.Floor == 64 && 128.0.Floor == 128;
    assert out[0] == 0 && out[1] == 64 && out[2] == 128 && out[3] == 255;
    assert out == [out[0], out[1], out[2], out[3]];
  }

  /** A 2x2 gray raster that already spans 0..255 comes out unchanged. */
  lemma FullRangeGrayIsUnchanged(ds: Dataset)
    requires ds == Dataset(2, 2, [[0.0, 64.0, 128.0, 255.0]])
    ensures Load(Some(ds)) == Success(Bitmap([0, 64, 128, 255], 2, 2, Gray8, 2))
  {
    LoadSingleBand(ds);
    FullRangePlaneIsUnchanged(ds.bands[0]);
  }

  /** A 2x2 gray raster of one repeated value comes out black. */
  lemma UniformGrayIsBlack(ds: Dataset)
    requires ds == Dataset(2, 2, [[42.0, 42.0, 42.0, 42.0]])
    ensures Load(Some(ds)) == Success(Bitmap([0, 0, 0, 0], 2, 2, Gray8, 2))
  {
    LoadSingleBand(ds);
    UniformPlaneIsBlack(ds.bands[0]);
  }

  lemma UniformPlaneIsBlack(s: seq<real>)
    requires s == [42.0, 42.0, 42.0, 42.0]
    ensures NormalizePlane(s) == [0, 0, 0, 0]
  {
    assert forall i :: 0 <= i < |s| ==> s[i] == 42.0;
    ConstantPlaneIsBlack(s);
  }

  /** A single pixel is degenerate in every band, whatever the band values. */
  lemma SinglePixelRgbIsBlack(ds: Dataset)
    requires ds.Valid() && ds.width == 1 && ds.height == 1 && ds.BandCount() == 3
    ensures Load(Some(ds)) == Success(Bitmap([0, 0, 0], 1, 1, Bgr24, 3))
  {
    LoadMultiBandIsInterleave(ds);
    SinglePixelIsBlack(ds.bands[0]);
    SinglePixelIsBlack(ds.bands[1]);
    SinglePixelIsBlack(ds.bands[2]);
    assert Interleave([0], [0], [0]) == [0, 0, 0];
  }

  lemma SinglePixelIsBlack(s: seq<real>)
    requires |s| == 1
    ensures NormalizePlane(s) == [0]
  {
    ConstantPlaneIsBlack(s);
  }

  /** Two samples at least `1e-12` apart stretch to 0 and 255. */
  lemma TwoSamplePlane(s: seq<real>)
    requires |s| == 2 && s[1] - s[0] >= Epsilon
    ensures NormalizePlane(s) == [0, 255]
  {
    var lo, hi := Minimum(s), Maximum(s);
    assert lo <= s[0] && hi >= s[1];
    assert lo == s[0] && hi == s[1];
    StretchSampleEndpoints(lo, hi);
    var out := NormalizePlane(s);
    assert out[0] == 0 && out[1] == 255;
  }

  lemma FlatPairIsBlack(s: seq<real>)
    requires |s| == 2 && s[0] == s[1]
    ensures NormalizePlane(s) == [0, 0]
  {
    ConstantPlaneIsBlack(s);
  }

  /** A 1x2 raster: bands 1 and 3 stretch to 0 and 255, the flat band 2 to zeros; pixels are B,G,R. */
  lemma MixedRgbIsPackedBgr(ds: Dataset)
    requires ds == Dataset(2, 1, [[10.0, 20.0], [5.0, 5.0], [0.0, 100.0]])
    ensures Load(Some(ds)) == Success(Bitmap([0, 0, 0, 255, 0, 255], 2, 1, Bgr24, 6))
  {
    LoadMultiBandIsInterleave(ds);
    TwoSamplePlane(ds.bands[0]);
    FlatPairIsBlack(ds.bands[1]);
    TwoSamplePlane(ds.bands[2]);
    InterleaveTwoPixels([0, 255], [0, 0], [0, 255]);
  }

  lemma InterleaveTwoPixels(r: seq<byte>, g: seq<byte>, b: seq<byte>)
    requires |r| == |g| == |b| == 2
    ensures Interleave(r, g, b) == [b[0], g[0], r[0], b[1], g[1], r[1]]
  {
    assert r[..1][..0] == [] && g[..1][..0] == [] && b[..1][..0] == [];
    assert Interleave(r[..1], g[..1], b[..1]) == [b[0], g[0], r[0]];
  }

  /** A path that cannot be opened yields no bitmap. */
  lemma UnopenableFileFails()
    ensures Load(None).Failure? && Load(None).error == OpenFailed
  {
  }
}
