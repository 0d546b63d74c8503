/**
 * The part of the GDAL raster library that the loader consumes, as plain data.
 * `Gdal.Open` becomes an `Option<Dataset>` handed to the loader (`None` when the
 * library could not open the path); a band is the row-major plane of samples that
 * `Band.ReadRaster` delivers for the full `width` x `height` window, read as
 * doubles and modelled here as reals.
 */
module Gdal {
  import opened Wrappers

  /** One band's full plane, row-major, `width * height` samples. */
  type Plane = seq<real>

  /** An open dataset: `RasterXSize`, `RasterYSize` and its bands in order. */
  datatype Dataset = Dataset(width: nat, height: nat, bands: seq<Plane>) {

    /** `RasterCount`. */
    function BandCount(): nat {
      |bands|
    }

    /** Every band covers the whole raster: what `ReadRaster` over the full window yields. */
    predicate Valid() {
      forall k :: 0 <= k < |bands| ==> |bands[k]| == width * height
    }
  }

  /**
   * `GetRasterBand(index)`: bands are numbered from 1; an index outside
   * 1..RasterCount gives no band (GDAL returns null).
   */
  function GetRasterBand(ds: Dataset, index: int): (band: Option<Plane>)
    ensures band.Some? <==> 1 <= index <= ds.BandCount()
    ensures band.Some? ==> band.value == ds.bands[index - 1]
  {
    if 1 <= index <= |ds.bands| then Some(ds.bands[index - 1]) else None
  }
}
