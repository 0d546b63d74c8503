# GeoTIFF-to-bitmap conversion, modelled in Dafny

This project models the raster loader of VectorLab (`GeoTiffLoaderGdal`). The
loader opens a raster dataset through GDAL and turns it into an 8-bit image the
WPF window can show:

- **ReadBandAsByte** reads one band's full `width * height` plane as doubles and
  takes its exact minimum and maximum. If `|max - min| < 1e-12` it returns an
  all-zero plane. Otherwise it maps each sample `v` to `(v - min) * 255 / (max - min)`,
  clamps that to [0, 255] and truncates it to a byte.
- **LoadAsBitmapSource** fails if the dataset cannot be opened. With exactly one
  band it returns that band's stretched plane as a Gray8 image with stride `width`.
  Otherwise it stretches bands 1, 2 and 3, each with its own minimum and maximum,
  and interleaves them into a `width * height * 3` buffer in B, G, R order
  (Bgr24, stride `width * 3`).

Files and modules:

- `Wrappers.dfy`: `Option` and `Result`.
- `Gdal.dfy`: the GDAL inputs as data. `Gdal.Open` becomes an `Option<Dataset>`
  (`None` when the open failed). A `Dataset` holds the raster size and one plane
  of `real` samples per band. `GetRasterBand` numbers bands from 1 and gives
  `None` for an index past the band count, where GDAL returns null.
- `Stretch.dfy`: the min-max stretch as specification functions (`Minimum`,
  `Maximum`, `Degenerate`, `Clamp`, `StretchSample`, `NormalizePlane`) and its laws.
- `Packing.dfy`: the result record `Bitmap` (pixels, width, height, pixel format,
  stride) and `Interleave`, the reference definition of B,G,R packing.
- `GeoTiffLoaderGdal.dfy`: the specifications `ReadBand` and `Load`; the methods
  `ReadBandAsByte`, `StretchBetween`, `InterleaveBgr` and `LoadAsBitmapSource`,
  which follow the source's array loops and are proved equal to those
  specifications; and the laws of the whole conversion.
- `Scenarios.dfy`: small worked rasters (gray, uniform, single pixel, mixed RGB, open failure).

Exceptions in the source become `LoadError` values:

- `OpenFailed`: `Gdal.Open` returned null, which throws at line 14.
- `BandMissing`: `GetRasterBand` returned null, so `ReadRaster` dereferences null at line 57.
- `NoSamples`: an empty plane, where `Enumerable.Min` throws at line 60.

Bands are read in the source's order (1, then 2, then 3), so the first failing
read decides the error.

A 2-band or 0-band dataset takes the `else` branch at line 30 and fails when it
reaches the missing band (band 3, or band 1). The model returns `BandMissing` for
it and never invents an image.

Samples are exact `real` numbers. The `(byte)` cast of the clamped, non-negative
value is `.Floor`.

## Model

| member | source | states |
|---|---|---|
| GeoTiffLoaderGdal.LoadAsBitmapSource | Services/GeoTiffLoaderGdal.cs:11-51 | The method's result equals the specification `Load`: open failure, the 1-band Gray8 path, the BGR path and every band-read failure. |
| GeoTiffLoaderGdal.ReadBandAsByte | Services/GeoTiffLoaderGdal.cs:53-78 | A missing band or an empty plane fails. Otherwise the returned array has `width * height` entries and equals `NormalizePlane` of the band: all zero when degenerate, else each sample scaled, clamped and truncated with the plane's own min and max. |
| GeoTiffLoaderGdal.StretchBetween | Services/GeoTiffLoaderGdal.cs:66-75 | The stretching loop returns one byte per sample, each equal to `StretchSample` of that sample with the plane's min and max. |
| GeoTiffLoaderGdal.InterleaveBgr | Services/GeoTiffLoaderGdal.cs:38-44 | The packing loop fills a buffer equal to `Interleave(red, green, blue)`: three bytes per pixel, blue first. |
| GeoTiffLoaderGdal.LoadFailures | Services/GeoTiffLoaderGdal.cs:13-35 | Conversion fails exactly when the open failed, the band count is 0 or 2, or the plane is empty; it names the error for each case (OpenFailed, BandMissing, NoSamples). |
| GeoTiffLoaderGdal.LoadSingleBand | Services/GeoTiffLoaderGdal.cs:21-28 | With one band the bitmap is the stretched band-1 plane unchanged, as Gray8 with stride `width` and `width * height` bytes. |
| GeoTiffLoaderGdal.LoadMultiBand | Services/GeoTiffLoaderGdal.cs:30-49 | With three or more bands the result is Bgr24 with stride `width * 3` and `width * height * 3` bytes. For every pixel `i`, byte `3i` is stretched band 3, `3i+1` is stretched band 2 and `3i+2` is stretched band 1, each stretched alone. |
| GeoTiffLoaderGdal.LoadMultiBandIsInterleave | Services/GeoTiffLoaderGdal.cs:30-49 | With three or more bands and a non-empty plane, the bitmap is the B,G,R interleaving of the stretched bands 1, 2 and 3. |
| GeoTiffLoaderGdal.LoadIgnoresBandsBeyondThree | Services/GeoTiffLoaderGdal.cs:33-35 | Dropping every band after the third leaves the result unchanged. |
| GeoTiffLoaderGdal.LoadShape | Services/GeoTiffLoaderGdal.cs:21-49 | Every produced bitmap has the dataset's width and height, Gray8 exactly for one band, `width * height * bytesPerPixel` bytes and stride `width * bytesPerPixel`. |
| GeoTiffLoaderGdal.ReadBand | Services/GeoTiffLoaderGdal.cs:53-78 | Reading a band succeeds exactly when the band exists and has samples, and then gives one byte per sample. |
| GeoTiffLoaderGdal.Load | Services/GeoTiffLoaderGdal.cs:11-51 | A failed open gives `OpenFailed`; a produced bitmap has the dataset's width and height and is Gray8 exactly when there is one band. |
| Packing.Interleave | Services/GeoTiffLoaderGdal.cs:38-44 | The packed buffer has three bytes per pixel. |
| Gdal.GetRasterBand | Services/GeoTiffLoaderGdal.cs:33-35 | A band exists exactly for indices 1 to the band count, and it is the band at that index. |
| Stretch.Minimum | Services/GeoTiffLoaderGdal.cs:60 | The result is a sample of the plane and no sample is smaller. |
| Stretch.Maximum | Services/GeoTiffLoaderGdal.cs:61 | The result is a sample of the plane and no sample is larger. |
| Stretch.Degenerate | Services/GeoTiffLoaderGdal.cs:60-64 | The range test (max minus min, in absolute value, below `1e-12`) holds exactly when no two samples of the plane are `1e-12` or more apart. |
| Stretch.Scaled | Services/GeoTiffLoaderGdal.cs:67-71 | The linear map of one sample sends the minimum to 0 and nothing at or above the minimum below 0. |
| Stretch.Clamp | Services/GeoTiffLoaderGdal.cs:72-73 | The result lies in [0, 255]: inputs below 0 become 0, inputs above 255 become 255, and inputs in range are unchanged. |
| Stretch.StretchSample | Services/GeoTiffLoaderGdal.cs:67-74 | One output byte saturates: a sample below the minimum gives 0 and one above the maximum gives 255. |
| Stretch.NormalizePlane | Services/GeoTiffLoaderGdal.cs:63-75 | The 8-bit plane has exactly as many entries as the input plane, on both the degenerate and the stretching path. |
| Stretch.BlackIffDegenerate | Services/GeoTiffLoaderGdal.cs:60-75 | The output is all zero if and only if max minus min, in absolute value, is below `1e-12`. |
| Stretch.ConstantPlaneIsBlack | Services/GeoTiffLoaderGdal.cs:60-64 | A plane of one repeated value, so also any single-pixel plane, becomes all zero. |
| Stretch.NormalizePlaneSpansFullRange | Services/GeoTiffLoaderGdal.cs:60-75 | In a non-degenerate plane every minimum sample maps to 0 and every maximum sample to 255, and both values occur. |
| Stretch.NormalizePlaneMonotone | Services/GeoTiffLoaderGdal.cs:67-75 | For samples of one plane, `a <= b` implies `out(a) <= out(b)`. |
| Stretch.StretchSampleMonotone | Services/GeoTiffLoaderGdal.cs:67-74 | Scaling, clamping and truncating one sample preserves order. |
| Stretch.StretchSampleEndpoints | Services/GeoTiffLoaderGdal.cs:67-74 | The minimum maps to 0 and the maximum to 255. |
| Stretch.ScaledInRange | Services/GeoTiffLoaderGdal.cs:67-71 | With exact arithmetic every sample between min and max already scales into [0, 255]. |
| Stretch.ClampIsIdentityInRange | Services/GeoTiffLoaderGdal.cs:71-74 | So the clamp never changes a value in exact arithmetic; it only absorbs rounding. The byte is the floor of the scaled value. |
| Packing.InterleaveChannels | Services/GeoTiffLoaderGdal.cs:38-44 | The interleaved buffer has three bytes per pixel: blue at `3i`, green at `3i+1`, red at `3i+2`. |
| Scenarios.FullRangeGrayIsUnchanged | Services/GeoTiffLoaderGdal.cs:21-28 | A 2x2 gray raster `[0, 64, 128, 255]` gives the same four bytes as Gray8. |
| Scenarios.UniformGrayIsBlack | Services/GeoTiffLoaderGdal.cs:60-64 | A 2x2 raster of `42.0` gives four zero bytes. |
| Scenarios.SinglePixelRgbIsBlack | Services/GeoTiffLoaderGdal.cs:30-49 | Every 1x1 three-band raster gives `[0, 0, 0]`, whatever its band values. |
| Scenarios.MixedRgbIsPackedBgr | Services/GeoTiffLoaderGdal.cs:30-49 | Bands `[10, 20]`, `[5, 5]` and `[0, 100]` give `[0, 0, 0, 255, 0, 255]`. |
| Scenarios.UnopenableFileFails | Services/GeoTiffLoaderGdal.cs:13-14 | An unopenable file gives `OpenFailed` and no bitmap. |

## Left out

- GDAL itself (`Gdal.Open`, `GetRasterBand`, `ReadRaster`) is an external library. Its results are inputs here: an optional dataset whose bands are planes of `width * height` samples. Driver registration in `App.xaml.cs` is startup plumbing.
- The error code returned by `ReadRaster` is ignored by the source. The model assumes every read delivers the band's plane.
- WPF objects (`WriteableBitmap`, `WritePixels`, `Freeze`, the 96 DPI values) are foreign UI types. The model returns the pixel buffer, dimensions, pixel format and stride instead.
- Disposal of the dataset (`using var ds`) is resource handling with no effect on the result.
- IEEE-754 doubles are not modelled: samples are exact reals. Rounding of `(v - min) * scale` and NaN samples (and LINQ's NaN rules for `Min`/`Max`) are out of scope. The clamp is kept as written.
- 32-bit `int` overflow of `width * height` and `width * height * 3` is not modelled. Sizes are unbounded naturals.
- ReadBandAsByte: the contract does not state that the returned array is newly allocated.
- InterleaveBgr: the contract does not state that the returned array is newly allocated. The packing loop at lines 38-44 sits inline in `LoadAsBitmapSource`; here it is its own method, called at the same point.
- StretchBetween: the contract does not state that the returned array is newly allocated. The stretching loop at lines 66-75 sits inline in `ReadBandAsByte`; here it is its own method, called at the same point. Keeping it apart keeps the real-number arithmetic of the loop away from the integer product `width * height`.
- The MVVM and UI files (`Infrastructure/RelayCommand.cs`, `Infrastructure/ViewModelBase.cs`, both `MainViewModel.cs` files, `App.xaml.cs`) only forward commands, raise property-change events and show a file dialog, so they are not part of this model.
