/**
 * The two pixel loops of `processStegoImage` in script.js. The image data is
 * RGBA, four bytes per pixel. The sampling loop adds up the low bits of red,
 * green and blue of every hundredth pixel. The noise loop writes a grey
 * noise map, 85 times the number of set low bits, fully opaque.
 */
module Stego {
  import opened Common

  /** The number of set low bits among the red, green and blue bytes of the pixel starting at `i`. */
  function LsbSum(pixels: seq<byte>, i: nat): (n: nat)
    requires i + 2 < |pixels|
    ensures n <= 3
  {
    pixels[i] % 2 + pixels[i + 1] % 2 + pixels[i + 2] % 2
  }

  /** The noise-map byte at `i`: the pixel's grey level for red, green and blue, 255 for alpha. */
  function NoiseByte(pixels: seq<byte>, i: nat): byte
    requires |pixels| % 4 == 0 && i < |pixels|
  {
    if i % 4 == 3 then 255 else 85 * LsbSum(pixels, i - i % 4)
  }

  function NoiseMap(pixels: seq<byte>): (noise: seq<byte>)
    requires |pixels| % 4 == 0
    ensures |noise| == |pixels|
  {
    seq(|pixels|, i requires 0 <= i < |pixels| => NoiseByte(pixels, i))
  }

  /** Each of the red, green and blue bytes of a noise pixel is the pixel's grey level. */
  lemma NoiseChannel(pixels: seq<byte>, p: nat, c: nat)
    requires |pixels| % 4 == 0 && 4 * p < |pixels| && c < 3
    ensures NoiseMap(pixels)[4 * p + c] == 85 * LsbSum(pixels, 4 * p)
  {
    assert (4 * p + c) % 4 == c;
  }

  lemma GreyLevel(n: nat)
    requires n <= 3
    ensures 85 * n in {0, 85, 170, 255}
  {
  }

  /**
   * Every pixel of the noise map is grey (R = G = B) at one of the four levels
   * 0, 85, 170 and 255, set by the low bits of the source pixel, and opaque.
   */
  lemma NoisePixel(pixels: seq<byte>, p: nat)
    requires |pixels| % 4 == 0 && 4 * p < |pixels|
    ensures var noise := NoiseMap(pixels);
      && noise[4 * p] == noise[4 * p + 1] == noise[4 * p + 2] == 85 * LsbSum(pixels, 4 * p)
      && noise[4 * p] in {0, 85, 170, 255}
      && noise[4 * p + 3] == 255
  {
    NoiseChannel(pixels, p, 0);
    NoiseChannel(pixels, p, 1);
    NoiseChannel(pixels, p, 2);
    GreyLevel(LsbSum(pixels, 4 * p));
    assert (4 * p + 3) % 4 == 3;
  }

  /** The noise loop: `noise` is filled in place, four bytes per step, from `pixels`. */
  method FillNoiseMap(pixels: array<byte>, noise: array<byte>)
    requires pixels.Length % 4 == 0 && noise.Length == pixels.Length && pixels != noise
    modifies noise
    ensures noise[..] == NoiseMap(pixels[..])
  {
    var i := 0;
    while i < pixels.Length
      invariant 0 <= i <= pixels.Length && i % 4 == 0
      invariant forall j :: 0 <= j < i ==> noise[j] == NoiseByte(pixels[..], j)
    {
      var lsbSum := pixels[i] % 2 + pixels[i + 1] % 2 + pixels[i + 2] % 2;
      var intensity := lsbSum * 85;
      noise[i] := intensity;
      noise[i + 1] := intensity;
      noise[i + 2] := intensity;
      noise[i + 3] := 255;
      i := i + 4;
    }
  }

  /** The low-bit total over the first `n` pixels, counting only pixels whose index is a multiple of 100. */
  function SampledLsb(pixels: seq<byte>, n: nat): nat
    requires 4 * n <= |pixels|
  {
    if n == 0 then 0
    else SampledLsb(pixels, n - 1) + (if (n - 1) % 100 == 0 then LsbSum(pixels, 4 * (n - 1)) else 0)
  }

  /** The sampled total is at most 3 for each of the ⌈n/100⌉ sampled pixels. */
  lemma {:induction false} SampledLsbBound(pixels: seq<byte>, n: nat)
    requires 4 * n <= |pixels|
    ensures SampledLsb(pixels, n) <= 3 * ((n + 99) / 100)
  {
    if n > 0 {
      SampledLsbBound(pixels, n - 1);
      if (n - 1) % 100 == 0 {
        assert (n + 99) / 100 == (n + 98) / 100 + 1;
      }
    }
  }

  /**
   * The sampling loop: `pixelCount` is the number of pixels and `lsbVariance`
   * the low-bit total over the sampled ones.
   */
  method SampleLsb(pixels: array<byte>) returns (lsbVariance: nat, pixelCount: nat)
    requires pixels.Length % 4 == 0
    ensures pixelCount == pixels.Length / 4
    ensures lsbVariance == SampledLsb(pixels[..], pixelCount)
    ensures lsbVariance <= 3 * ((pixelCount + 99) / 100)
  {
    lsbVariance, pixelCount := 0, 0;
    var i := 0;
    while i < pixels.Length
      invariant 0 <= i <= pixels.Length && i == 4 * pixelCount
      invariant lsbVariance == SampledLsb(pixels[..], pixelCount)
    {
      if pixelCount % 100 == 0 {
        lsbVariance := lsbVariance + pixels[i] % 2 + pixels[i + 1] % 2 + pixels[i + 2] % 2;
      }
      pixelCount := pixelCount + 1;
      i := i + 4;
    }
    SampledLsbBound(pixels[..], pixelCount);
  }
}
