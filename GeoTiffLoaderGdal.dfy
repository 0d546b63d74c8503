/**
 * `GeoTiffLoaderGdal`: turns an opened raster dataset into a displayable 8-bit
 * bitmap. One band becomes a Gray8 image; otherwise bands 1, 2 and 3 are each
 * stretched on their own and interleaved as B,G,R.
 *
 * `ReadBand` and `Load` are the specifications; the methods `ReadBandAsByte`
 * and `LoadAsBitmapSource` follow the source's loops over arrays and are proved
 * equal to them. The lemmas below state what the conversion promises.
 */
module GeoTiffLoaderGdal {
  import opened Wrappers
  import opened Gdal
  import opened Stretch
  import opened Packing

  /** Why a conversion produced no bitmap. */
  datatype LoadError =
    | OpenFailed   // `Gdal.Open` returned null: InvalidOperationException
    | BandMissing  // `GetRasterBand` returned null: the read dereferences it
    | NoSamples    // an empty plane: `Enumerable.Min` throws on an empty sequence

  /** `ReadBandAsByte` as a function of the band it is given. */
  function ReadBand(band: Option<Plane>): (res: Result<seq<byte>, LoadError>)
    ensures res.Success? <==> band.Some? && |band.value| > 0
    ensures res.Success? ==> |res.value| == |band.value|
  {
    match band
    case None => Failure(BandMissing)
    case Some(buf) => if |buf| == 0 then Failure(NoSamples) else Success(NormalizePlane(buf))
  }

  /** `LoadAsBitmapSource` as a function of what `Gdal.Open` returned (`None`: it failed). */
  function Load(dataset: Option<Dataset>): (res: Result<Bitmap, LoadError>)
    requires dataset.Some? ==> dataset.value.Valid()
    ensures dataset.None? ==> res == Failure(OpenFailed)
    ensures res.Success? ==>
              res.value.width == dataset.value.width && res.value.height == dataset.value.height &&
              (res.value.format == Gray8 <==> dataset.value.BandCount() == 1)
  {
    match dataset
    case None => Failure(OpenFailed)
    case Some(ds) =>
      if ds.BandCount() == 1 then
        var gray :- ReadBand(GetRasterBand(ds, 1));
        Success(Bitmap(gray, ds.width, ds.height, Gray8, ds.width))
      else
        var r :- ReadBand(GetRasterBand(ds, 1));
        var g :- ReadBand(GetRasterBand(ds, 2));
        var b :- ReadBand(GetRasterBand(ds, 3));
        Success(Bitmap(Interleave(r, g, b), ds.width, ds.height, Bgr24, ds.width * 3))
  }

  /**
   * Reads a band's full plane and stretches it to bytes with the plane's own
   * minimum and maximum; a degenerate range gives an all-zero plane.
   */
  method ReadBandAsByte(band: Option<Plane>, width: nat, height: nat) returns (r: Result<array<byte>, LoadError>)
    requires band.Some? ==> |band.value| == width * height
    ensures ReadBand(band).Failure? ==> r == Failure(ReadBand(band).error)
    ensures ReadBand(band).Success? ==>
              r.Success? && r.value.Length == width * height &&
              r.value[..] == ReadBand(band).value
  {
    if band.None? {
      return Failure(BandMissing);
    }
    // `ReadRaster` over the full window fills `buf` with the band's plane.
    var buf := band.value;
    if |buf| == 0 {
      return Failure(NoSamples);
    }
    var min := Minimum(buf);
    var max := Maximum(buf);
    assert min <= buf[0] <= max;
    if Abs(max - min) < Epsilon {
      var zeros := new byte[|buf|](_ => 0);
      assert zeros[..] == NormalizePlane(buf);
      return Success(zeros);
    }
    var out8 := StretchBetween(buf, min, max);
    assert out8[..] == NormalizePlane(buf);
    return Success(out8);
  }

  /** The stretching loop of `ReadBandAsByte`: every sample is scaled by `255 / (max - min)`, clamped and truncated. */
  method StretchBetween(buf: Plane, min: real, max: real) returns (out8: array<byte>)
    requires min < max
    ensures out8.Length == |buf|
    ensures forall j :: 0 <= j < |buf| ==> out8[j] == StretchSample(buf[j], min, max)
  {
    out8 := new byte[|buf|];
    var scale := 255.0 / (max - min);
    for i := 0 to |buf|
      invariant forall j :: 0 <= j < i ==> out8[j] == StretchSample(buf[j], min, max)
    {
      var v := (buf[i] - min) * scale;
      ghost var scaled := v;
      assert scaled == Scaled(buf[i], min, max);
      if v < 0.0 { v := 0.0; }
      if v > 255.0 { v := 255.0; }
      assert v == Clamp(scaled);
      out8[i] := v.Floor as byte;
    }
  }

  /** Opens nothing itself: `dataset` is the result of `Gdal.Open(path)`. */
  method LoadAsBitmapSource(dataset: Option<Dataset>) returns (r: Result<Bitmap, LoadError>)
    requires dataset.Some? ==> dataset.value.Valid()
    ensures r == Load(dataset)
  {
    if dataset.None? {
      return Failure(OpenFailed);
    }
    var ds := dataset.value;
    var width, height, bandCount := ds.width, ds.height, ds.BandCount();

    if bandCount == 1 {
      var gray :- ReadBandAsByte(GetRasterBand(ds, 1), width, height);
      assert Load(dataset) == Success(Bitmap(gray[..], width, height, Gray8, width));
      return Success(Bitmap(gray[..], width, height, Gray8, width));
    } else {
      var red :- ReadBandAsByte(GetRasterBand(ds, 1), width, height);
      // Band 1 was read and the count is not 1, so band 2 exists and has as many
      // samples as band 1: this read cannot fail.
      var readGreen := ReadBandAsByte(GetRasterBand(ds, 2), width, height);
      assert readGreen.Success?;
      var green := readGreen.value;
      var blue :- ReadBandAsByte(GetRasterBand(ds, 3), width, height);

      var bgr := InterleaveBgr(red, green, blue);
      assert Load(dataset) == Success(Bitmap(bgr[..], width, height, Bgr24, width * 3));
      return Success(Bitmap(bgr[..], width, height, Bgr24, width * 3));
    }
  }

  /** The packing loop of `LoadAsBitmapSource`: three bytes per pixel, in B,G,R order. */
  method InterleaveBgr(red: array<byte>, green: array<byte>, blue: array<byte>) returns (bgr: array<byte>)
    requires red.Length == green.Length == blue.Length
    ensures bgr[..] == Interleave(red[..], green[..], blue[..])
  {
    ghost var rs, gs, bs := red[..], green[..], blue[..];
    var n := red.Length;
    bgr := new byte[n * 3];
    for i := 0 to n
      invariant red[..] == rs && green[..] == gs && blue[..] == bs
      invariant bgr[..3 * i] == Interleave(rs[..i], gs[..i], bs[..i])
    {
      ghost var done := bgr[..3 * i];
      bgr[i * 3 + 0] := blue[i];
      bgr[i * 3 + 1] := green[i];
      bgr[i * 3 + 2] := red[i];
      assert bgr[..3 * i] == done;
      assert bgr[..3 * (i + 1)] == done + [bs[i], gs[i], rs[i]];
      assert rs[..i + 1][..i] == rs[..i] && gs[..i + 1][..i] == gs[..i] && bs[..i + 1][..i] == bs[..i];
    }
    assert rs[..n] == rs && gs[..n] == gs && bs[..n] == bs;
    assert bgr[..3 * n] == bgr[..];
  }

  // ---------------------------------------------------------------------
  // What the conversion promises

  /** The outcome is decided by the open result, the band count and the plane size alone. */
  lemma LoadFailures(dataset: Option<Dataset>)
    requires dataset.Some? ==> dataset.value.Valid()
    ensures dataset.None? ==> Load(dataset) == Failure(OpenFailed)
    ensures dataset.Some? && dataset.value.BandCount() == 0 ==> Load(dataset) == Failure(BandMissing)
    ensures dataset.Some? && dataset.value.BandCount() > 0 && dataset.value.width * dataset.value.height == 0 ==>
              Load(dataset) == Failure(NoSamples)
    ensures dataset.Some? && dataset.value.BandCount() == 2 && dataset.value.width * dataset.value.height > 0 ==>
              Load(dataset) == Failure(BandMissing)
    ensures Load(dataset).Failure? <==>
              dataset.None? || dataset.value.BandCount() == 0 || dataset.value.BandCount() == 2 ||
              dataset.value.width * dataset.value.height == 0
  {
  }

  /** One band: the stretched plane itself, as Gray8 with one byte per pixel. */
  lemma LoadSingleBand(ds: Dataset)
    requires ds.Valid() && ds.BandCount() == 1 && ds.width * ds.height > 0
    ensures Load(Some(ds)) == Success(Bitmap(NormalizePlane(ds.bands[0]), ds.width, ds.height, Gray8, ds.width))
    ensures |Load(Some(ds)).value.pixels| == ds.width * ds.height
  {
  }

  /**
   * Three or more bands: Bgr24 with three bytes per pixel; pixel `i` holds the
   * stretched band 3, band 2 and band 1 samples at `i`, each band stretched
   * with its own minimum and maximum.
   */
  lemma LoadMultiBand(ds: Dataset)
    requires ds.Valid() && ds.BandCount() >= 3 && ds.width * ds.height > 0
    ensures Load(Some(ds)).Success?
    ensures var bmp := Load(Some(ds)).value;
              && bmp.format == Bgr24
              && bmp.width == ds.width && bmp.height == ds.height
              && bmp.stride == ds.width * 3
              && |bmp.pixels| == ds.width * ds.height * 3
              && forall i :: 0 <= i < ds.width * ds.height ==>
                   && bmp.pixels[3 * i] == NormalizePlane(ds.bands[2])[i]
                   && bmp.pixels[3 * i + 1] == NormalizePlane(ds.bands[1])[i]
                   && bmp.pixels[3 * i + 2] == NormalizePlane(ds.bands[0])[i]
  {
    var r, g, b := NormalizePlane(ds.bands[0]), NormalizePlane(ds.bands[1]), NormalizePlane(ds.bands[2]);
    LoadMultiBandIsInterleave(ds);
    InterleaveChannels(r, g, b);
  }

  /** Three or more bands: the stretched bands 1, 2 and 3, interleaved as B,G,R. */
  lemma LoadMultiBandIsInterleave(ds: Dataset)
    requires ds.Valid() && ds.BandCount() >= 3 && ds.width * ds.height > 0
    ensures Load(Some(ds)) == Success(Bitmap(
              Interleave(NormalizePlane(ds.bands[0]), NormalizePlane(ds.bands[1]), NormalizePlane(ds.bands[2])),
              ds.width, ds.height, Bgr24, ds.width * 3))
  {
  }

  /** Bands after the third are never read. */
  lemma LoadIgnoresBandsBeyondThree(ds: Dataset)
    requires ds.Valid() && ds.BandCount() >= 3
    ensures ds.(bands := ds.bands[..3]).Valid()
    ensures Load(Some(ds)) == Load(Some(ds.(bands := ds.bands[..3])))
  {
    var first3 := ds.(bands := ds.bands[..3]);
    assert GetRasterBand(first3, 1) == GetRasterBand(ds, 1);
    assert GetRasterBand(first3, 2) == GetRasterBand(ds, 2);
    assert GetRasterBand(first3, 3) == GetRasterBand(ds, 3);
  }

  /** A produced bitmap is exactly `width * height` pixels with no row padding. */
  lemma LoadShape(dataset: Option<Dataset>)
    requires dataset.Some? ==> dataset.value.Valid()
    ensures Load(dataset).Success? ==>
              var bmp := Load(dataset).value;
              && bmp.width == dataset.value.width && bmp.height == dataset.value.height
              && bmp.format == (if dataset.value.BandCount() == 1 then Gray8 else Bgr24)
              && |bmp.pixels| == bmp.width * bmp.height * BytesPerPixel(bmp.format)
              && bmp.stride == bmp.width * BytesPerPixel(bmp.format)
  {
    if dataset.Some? {
      var ds := dataset.value;
      if ds.width * ds.height == 0 || ds.BandCount() == 0 || ds.BandCount() == 2 {
        LoadFailures(dataset);
      } else if ds.BandCount() == 1 {
        LoadSingleBand(ds);
      } else {
        LoadMultiBand(ds);
      }
    }
  }
}
