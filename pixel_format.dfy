/** The channel swap of `CreateTextureFromBytePointer`: the engine's BGRA
    bitmap becomes the RGBA byte stream uploaded into a texture. */
module PixelFormat {
  import opened Common

  /** Where byte `i` of the converted stream comes from: within each 4-byte
      pixel, bytes 0 and 2 trade places and bytes 1 and 3 stay put. */
  function SourceIndex(i: nat): nat
  {
    if i % 4 == 0 then i + 2 else if i % 4 == 2 then i - 2 else i
  }

  /** The four source indices of the pixel that starts at byte `i`. */
  lemma SourceIndexInPixel(i: nat)
    requires i % 4 == 0
    ensures SourceIndex(i) == i + 2 && SourceIndex(i + 1) == i + 1
    ensures SourceIndex(i + 2) == i && SourceIndex(i + 3) == i + 3
  {
    assert (i + 1) % 4 == 1 && (i + 2) % 4 == 2 && (i + 3) % 4 == 3;
  }

  /** Reference definition: the first `n` pixels of `s`, each with bytes 0
      and 2 exchanged. */
  function SwapPixels(s: seq<byte>, n: nat): (r: seq<byte>)
    requires 4 * n <= |s|
    ensures |r| == 4 * n
  {
    if n == 0 then []
    else
      var p := 4 * (n - 1);
      SwapPixels(s, n - 1) + [s[p + 2], s[p + 1], s[p], s[p + 3]]
  }

  /** Every byte of the converted pixels is the source byte named by `SourceIndex`. */
  lemma {:induction false} SwapPixelsByte(s: seq<byte>, n: nat, i: nat)
    requires 4 * n <= |s| && i < 4 * n
    ensures SourceIndex(i) < 4 * n
    ensures SwapPixels(s, n)[i] == s[SourceIndex(i)]
  {
    var p := 4 * (n - 1);
    if i < p {
      SwapPixelsByte(s, n - 1, i);
    } else {
      assert p % 4 == 0;
      SourceIndexInPixel(p);
      assert i == p || i == p + 1 || i == p + 2 || i == p + 3;
    }
  }

  /** Pixel `k`: red and blue exchanged, green and alpha copied. */
  lemma SwapPixelsPixel(s: seq<byte>, n: nat, k: nat)
    requires 4 * n <= |s| && k < n
    ensures SwapPixels(s, n)[4 * k] == s[4 * k + 2]
    ensures SwapPixels(s, n)[4 * k + 1] == s[4 * k + 1]
    ensures SwapPixels(s, n)[4 * k + 2] == s[4 * k]
    ensures SwapPixels(s, n)[4 * k + 3] == s[4 * k + 3]
  {
    var i := 4 * k;
    assert i % 4 == 0;
    SourceIndexInPixel(i);
    SwapPixelsByte(s, n, i);
    SwapPixelsByte(s, n, i + 1);
    SwapPixelsByte(s, n, i + 2);
    SwapPixelsByte(s, n, i + 3);
  }

  /** Only the first `4 * n` bytes are read: sources that agree on them
      convert alike. */
  lemma {:induction false} SwapPixelsPrefix(s: seq<byte>, t: seq<byte>, n: nat)
    requires 4 * n <= |s| && 4 * n <= |t| && s[..4 * n] == t[..4 * n]
    ensures SwapPixels(s, n) == SwapPixels(t, n)
  {
    if n > 0 {
      var p := 4 * (n - 1);
      assert s[..p] == s[..4 * n][..p] && t[..p] == t[..4 * n][..p];
      SwapPixelsPrefix(s, t, n - 1);
      assert s[p] == s[..4 * n][p] && s[p + 1] == s[..4 * n][p + 1];
      assert s[p + 2] == s[..4 * n][p + 2] && s[p + 3] == s[..4 * n][p + 3];
    }
  }

  /** The swap is its own inverse: converting the converted pixels gives back
      exactly the bytes they came from. */
  lemma {:induction false} SwapPixelsInvolutive(s: seq<byte>, n: nat)
    requires 4 * n <= |s|
    ensures SwapPixels(SwapPixels(s, n), n) == s[..4 * n]
  {
    if n > 0 {
      var p := 4 * (n - 1);
      var t := SwapPixels(s, n);
      var u := SwapPixels(s, n - 1);
      assert t == u + [s[p + 2], s[p + 1], s[p], s[p + 3]];
      assert t[..p] == u[..p];
      SwapPixelsPrefix(t, u, n - 1);
      SwapPixelsInvolutive(s, n - 1);
      assert s[..4 * n] == s[..p] + [s[p], s[p + 1], s[p + 2], s[p + 3]];
    }
  }

  /** `width * height * 4` as the C# `int` the source computes. */
  function DataLength(width: int, height: int): (n: int)
    ensures IsInt32(n)
    ensures n >= 0 ==> n % 4 == 0
  {
    WrapKeepsMultipleOfFour(width * height * 4);
    WrapInt32(width * height * 4)
  }

  /** The number of pixels the loop converts: a quarter of the `int` length. */
  function PixelCount(width: int, height: int): (p: nat)
    requires DataLength(width, height) >= 0
    ensures 4 * p == DataLength(width, height)
  {
    DataLength(width, height) / 4
  }

  /** Without overflow, the length is the exact byte count of the bitmap. */
  lemma DataLengthExact(width: int, height: int)
    requires width >= 0 && height >= 0 && width * height * 4 <= INT32_MAX
    ensures DataLength(width, height) == width * height * 4
  {
  }

  /** A texture of the host graphics API after `SetData`: its size and bytes. */
  datatype Texture = Texture(width: int, height: int, data: seq<byte>)

  /** Allocates `stream`, fills it with the channel-swapped first
      `width * height * 4` bytes read through `bytePointer`, and returns the
      texture holding it. The pointer's memory is only read. There is no
      bounds check in the source, so its bytes must cover what is read;
      a negative length makes the allocation throw. */
  method CreateTextureFromBytePointer(bytePointer: seq<byte>, width: int, height: int)
    returns (r: Result<Texture>)
    requires IsInt32(width) && IsInt32(height)
    requires DataLength(width, height) <= |bytePointer|
    ensures r.Failure? <==> DataLength(width, height) < 0
    ensures r.Failure? ==> r.error == ArrayOverflow
    ensures r.Success? ==>
      r == Success(Texture(width, height, SwapPixels(bytePointer, PixelCount(width, height))))
  {
    var dataLength := DataLength(width, height);
    if dataLength < 0 {
      return Failure(ArrayOverflow);
    }
    ghost var pixels := PixelCount(width, height);
    var stream := new byte[dataLength];
    var i := 0;
    ghost var k := 0;
    while i < dataLength
      invariant i == 4 * k && 0 <= k <= pixels
      invariant stream[..i] == SwapPixels(bytePointer, k)
    {
      ghost var done := stream[..i];
      var red := bytePointer[i];
      var blue := bytePointer[i + 2];
      stream[i] := blue;
      stream[i + 2] := red;
      stream[i + 1] := bytePointer[i + 1];
      stream[i + 3] := bytePointer[i + 3];
      assert stream[..i] == done;
      assert stream[..i + 4] == done + [blue, bytePointer[i + 1], red, bytePointer[i + 3]];
      i, k := i + 4, k + 1;
    }
    assert stream[..] == stream[..i];
    r := Success(Texture(width, height, stream[..]));
  }
}
