/**
 * What the loader hands to its caller instead of a WPF `BitmapSource`: the pixel
 * buffer, the dimensions, the pixel format and the row stride; and the
 * reference definition of the B,G,R interleaving used for multi-band rasters.
 */
module Packing {
  import opened Stretch

  /** `PixelFormats.Gray8` (one byte per pixel) or `PixelFormats.Bgr24` (three). */
  datatype PixelFormat = Gray8 | Bgr24

  function BytesPerPixel(f: PixelFormat): nat {
    match f
    case Gray8 => 1
    case Bgr24 => 3
  }

  /** The pixels written into the bitmap, with the stride passed to `WritePixels`. */
  datatype Bitmap = Bitmap(pixels: seq<byte>, width: nat, height: nat, format: PixelFormat, stride: nat)

  /** Pixel by pixel, the triple (blue, green, red), with red, green and blue given as planes. */
  function Interleave(r: seq<byte>, g: seq<byte>, b: seq<byte>): (out: seq<byte>)
    requires |r| == |g| == |b|
    ensures |out| == 3 * |r|
    decreases |r|
  {
    if |r| == 0 then []
    else
      var n := |r| - 1;
      Interleave(r[..n], g[..n], b[..n]) + [b[n], g[n], r[n]]
  }

  /** Three bytes per pixel: blue at `3i`, green at `3i+1`, red at `3i+2`, and nothing else. */
  lemma {:induction false} InterleaveChannels(r: seq<byte>, g: seq<byte>, b: seq<byte>)
    requires |r| == |g| == |b|
    ensures |Interleave(r, g, b)| == 3 * |r|
    ensures forall i :: 0 <= i < |r| ==>
              Interleave(r, g, b)[3 * i] == b[i] &&
              Interleave(r, g, b)[3 * i + 1] == g[i] &&
              Interleave(r, g, b)[3 * i + 2] == r[i]
    decreases |r|
  {
    if |r| > 0 {
      var n := |r| - 1;
      InterleaveChannels(r[..n], g[..n], b[..n]);
      var out := Interleave(r, g, b);
      assert out == Interleave(r[..n], g[..n], b[..n]) + [b[n], g[n], r[n]];
      forall i | 0 <= i < |r|
        ensures out[3 * i] == b[i] && out[3 * i + 1] == g[i] && out[3 * i + 2] == r[i]
      {
        if i < n {
          assert r[..n][i] == r[i] && g[..n][i] == g[i] && b[..n][i] == b[i];
        }
      }
    }
  }
}
