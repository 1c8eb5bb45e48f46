/**
 * The bytes savebmp (main.cpp) writes: a 14-byte file header, a 40-byte
 * info header and three bytes per pixel. The headers follow the layout of
 * the Windows BMP headers, except that savebmp stores the image size and the
 * two resolutions one byte later than that layout places them (bytes 21-32
 * of the info header instead of 20-31); the model keeps savebmp's offsets.
 * Opening, writing and closing the file are not modelled: the method returns
 * the byte sequence it would write.
 */
module Bitmap {

  /** An unsigned char. */
  type Byte = b: int | 0 <= b < 256

  /** One pixel of the image buffer (RGBType). */
  datatype RGB = RGB(r: real, g: real, b: real)

  const TwoTo32: int := 4294967296
  const TwoTo31: int := 2147483648

  /** A value a C++ int can hold. */
  predicate InInt32(x: int) {
    -TwoTo31 <= x < TwoTo31
  }

  /**
   * The conversion to unsigned char: the value modulo 256. Applied to
   * `x >> n`, where `>>` on a signed int is an arithmetic shift, that is a
   * division by 2^n rounding down, which Dafny's `/` does for a positive
   * divisor.
   */
  function Narrow(x: int): (b: Byte)
    ensures (x - b) % 256 == 0
    ensures 0 <= x < 256 ==> b == x
  {
    x % 256
  }

  /** static_cast<int> of a double: truncation toward zero. */
  function Truncate(x: real): (n: int)
    ensures 0.0 <= x ==> n as real <= x < n as real + 1.0
    ensures x < 0.0 ==> n as real - 1.0 < x <= n as real
  {
    if x >= 0.0 then x.Floor else -((-x).Floor)
  }

  /** The four bytes of x, least significant first, as savebmp writes them. */
  function LE32(x: int): (b: seq<Byte>)
    ensures |b| == 4
  {
    [Narrow(x), Narrow(x / 256), Narrow(x / 65536), Narrow(x / 16777216)]
  }

  /** Reading four bytes back as an unsigned little-endian number. */
  function DecodeU32(b: seq<Byte>): (u: int)
    requires |b| == 4
    ensures 0 <= u < TwoTo32
  {
    b[0] as int + 256 * (b[1] as int) + 65536 * (b[2] as int) + 16777216 * (b[3] as int)
  }

  /** Reading four bytes back as a two's-complement little-endian number. */
  function DecodeI32(b: seq<Byte>): (v: int)
    requires |b| == 4
    ensures InInt32(v)
  {
    var u := DecodeU32(b);
    if u >= TwoTo31 then u - TwoTo32 else u
  }

  /** Reading the 32-bit field at byte offset `at` of a header. */
  function FieldAt(header: seq<Byte>, at: nat): (u: int)
    requires at + 4 <= |header|
    ensures 0 <= u < TwoTo32
  {
    DecodeU32(header[at..at + 4])
  }

  /** The four bytes are x modulo 2^32, whatever the sign of x. */
  lemma LE32RoundTrip(x: int)
    ensures DecodeU32(LE32(x)) == x % TwoTo32
  {
    var q1, r1 := x / 256, x % 256;
    var q2, r2 := q1 / 256, q1 % 256;
    var q3, r3 := q2 / 256, q2 % 256;
    var r4 := q3 % 256;
    assert x == 256 * q1 + r1;
    assert q1 == 256 * q2 + r2;
    assert q2 == 256 * q3 + r3;
    assert q1 == x / 256;
    assert q2 == x / 65536 by { DivDiv(x, 256); }
    assert q3 == x / 16777216 by { DivDiv(x, 65536); }
    assert x == TwoTo32 * (q3 / 256) + (r1 + 256 * r2 + 65536 * r3 + 16777216 * r4);
  }

  /** Dividing by 256 after dividing by d rounds the same as dividing by 256 * d once. */
  lemma DivDiv(x: int, d: int)
    requires d == 1 || d == 256 || d == 65536
    ensures x / d / 256 == x / (d * 256)
  {
    var q := x / d;
    var q2 := q / 256;
    assert x == d * q + x % d;
    assert q == 256 * q2 + q % 256;
    assert x == (d * 256) * q2 + (d * (q % 256) + x % d);
  }

  /** Any value an int can hold is read back unchanged as a signed field. */
  lemma LE32SignedRoundTrip(x: int)
    requires InInt32(x)
    ensures DecodeI32(LE32(x)) == x
  {
    LE32RoundTrip(x);
    if x < 0 {
      assert x % TwoTo32 == x + TwoTo32;
    } else {
      assert x % TwoTo32 == x;
    }
  }

  /** The image size s = 4k of savebmp, for k = w * h pixels at four bytes each. */
  function ImageSize(w: int, h: int): (s: int)
    ensures s % 4 == 0
    ensures 0 <= w && 0 <= h ==> 0 <= s
  {
    4 * (w * h)
  }

  /** The declared file size always covers the two headers. */
  function FileSize(w: int, h: int): (f: int)
    ensures 0 <= w && 0 <= h ==> 54 <= f
  {
    54 + ImageSize(w, h)
  }

  /** The factor 39.375 truncated to 39 pixels per metre for each dot per inch. */
  function PixelsPerMeter(dpi: int): (p: int)
    ensures p == dpi * 39
  {
    dpi * Truncate(39.375)
  }

  /**
   * The arithmetic of savebmp stays inside int: the source computes w*h,
   * 4*k, 54+s and dpi*39 in int, where an overflow is undefined.
   */
  predicate FitsInInt(w: int, h: int, dpi: int) {
    InInt32(w) && InInt32(h) && InInt32(w * h) && InInt32(ImageSize(w, h))
    && InInt32(FileSize(w, h)) && InInt32(dpi * 39)
  }

  /** The 14-byte file header: 'B','M', the file size, reserved zeros, the pixel offset 54. */
  function FileHeader(w: int, h: int): (r: seq<Byte>)
    ensures |r| == 14
  {
    [66, 77] + LE32(FileSize(w, h)) + [0, 0, 0, 0] + [54, 0, 0, 0]
  }

  /**
   * The 40-byte info header as savebmp fills it: header size 40, width,
   * height, one plane, 24 bits per pixel, then zeros except the image size at
   * bytes 21-24 and the two resolutions at 25-28 and 29-32.
   */
  function InfoHeader(w: int, h: int, dpi: int): (r: seq<Byte>)
    ensures |r| == 40
  {
    [40, 0, 0, 0] + LE32(w) + LE32(h) + [1, 0, 24, 0] + [0, 0, 0, 0, 0]
    + LE32(ImageSize(w, h)) + LE32(PixelsPerMeter(dpi)) + LE32(PixelsPerMeter(dpi))
    + [0, 0, 0, 0, 0, 0, 0]
  }

  /** A colour channel in [0, 1] as a byte: floor(c * 255), narrowed. */
  function Channel(c: real): (b: Byte)
    ensures 0.0 <= c <= 1.0 ==> b == (c * 255.0).Floor
  {
    Narrow((c * 255.0).Floor)
  }

  /** The three bytes of a pixel, blue first. */
  function PixelBytes(p: RGB): (r: seq<Byte>)
    ensures |r| == 3
  {
    [Channel(p.b), Channel(p.g), Channel(p.r)]
  }

  function Pixels(data: seq<RGB>): (r: seq<Byte>)
    ensures |r| == 3 * |data|
  {
    if |data| == 0 then [] else Pixels(data[..|data| - 1]) + PixelBytes(data[|data| - 1])
  }

  /** The number of pixels the loop of savebmp writes: k, or none when k < 0. */
  function PixelCount(w: int, h: int): nat {
    if w * h < 0 then 0 else w * h
  }

  /** Everything savebmp writes to the file, in order. */
  function BmpFile(w: int, h: int, dpi: int, data: seq<RGB>): (r: seq<Byte>)
    requires PixelCount(w, h) <= |data|
    ensures |r| == 54 + 3 * PixelCount(w, h)
    ensures r[..14] == FileHeader(w, h) && r[14..54] == InfoHeader(w, h, dpi)
  {
    FileHeader(w, h) + InfoHeader(w, h, dpi) + Pixels(data[..PixelCount(w, h)])
  }

  /** h with bytes at to at+3 replaced by the four bytes of x. */
  function Put(h: seq<Byte>, at: nat, x: int): (r: seq<Byte>)
    requires at + 4 <= |h|
    ensures |r| == |h|
  {
    h[..at] + LE32(x) + h[at + 4..]
  }

  const FileTemplate: seq<Byte> := [66, 77, 0, 0, 0, 0, 0, 0, 0, 0, 54, 0, 0, 0]
  const InfoTemplate: seq<Byte> := [40, 0, 0, 0, 0, 0, 0, 0, 0, 0, 0, 0, 1, 0, 24, 0]
    + [0, 0, 0, 0, 0, 0, 0, 0, 0, 0, 0, 0, 0, 0, 0, 0, 0, 0, 0, 0, 0, 0, 0, 0]

  /** The initialiser of bmpfileheader with the file size stored into it is the file header. */
  lemma FileHeaderFilled(w: int, h: int)
    ensures Put(FileTemplate, 2, FileSize(w, h)) == FileHeader(w, h)
  {
  }

  /** The initialiser of bmpinfoheader with the five fields stored into it is the info header. */
  lemma InfoHeaderFilled(w: int, h: int, dpi: int)
    ensures Put(Put(Put(Put(Put(InfoTemplate, 4, w), 8, h), 21, ImageSize(w, h)), 25, PixelsPerMeter(dpi)), 29, PixelsPerMeter(dpi))
         == InfoHeader(w, h, dpi)
  {
    var p := PixelsPerMeter(dpi);
    var head := [40, 0, 0, 0] + LE32(w) + LE32(h) + [1, 0, 24, 0] + [0, 0, 0, 0, 0];
    DimensionsFilled(w, h);
    var tail := LE32(ImageSize(w, h)) + LE32(p) + LE32(p) + [0, 0, 0, 0, 0, 0, 0];
    SizesFilled(head, ImageSize(w, h), p);
    assert head + tail == InfoHeader(w, h, dpi);
  }

  /** The width and the height stored at bytes 4 and 8 of the initialiser. */
  lemma DimensionsFilled(w: int, h: int)
    ensures Put(Put(InfoTemplate, 4, w), 8, h)
         == [40, 0, 0, 0] + LE32(w) + LE32(h) + [1, 0, 24, 0] + [0, 0, 0, 0, 0] + Zeros(19)
  {
    var rest := [1, 0, 24, 0] + Zeros(24);
    assert InfoTemplate == [40, 0, 0, 0] + Zeros(8) + rest;
    TwoFieldsFilled([40, 0, 0, 0], rest, w, h);
    assert rest == [1, 0, 24, 0] + [0, 0, 0, 0, 0] + Zeros(19);
  }

  /** Two fields stored back to back over eight zero bytes. */
  lemma TwoFieldsFilled(head: seq<Byte>, rest: seq<Byte>, w: int, h: int)
    requires |head| == 4
    ensures Put(Put(head + Zeros(8) + rest, 4, w), 8, h) == head + LE32(w) + LE32(h) + rest
  {
    var i1 := Put(head + Zeros(8) + rest, 4, w);
    assert i1 == head + LE32(w) + Zeros(4) + rest;
  }

  /** The image size and the two resolutions stored at bytes 21, 25 and 29 of 21 header bytes followed by zeros. */
  lemma SizesFilled(head: seq<Byte>, s: int, p: int)
    requires |head| == 21
    ensures Put(Put(Put(head + Zeros(19), 21, s), 25, p), 29, p)
         == head + (LE32(s) + LE32(p) + LE32(p) + [0, 0, 0, 0, 0, 0, 0])
  {
    var i3 := Put(head + Zeros(19), 21, s);
    assert i3 == head + LE32(s) + Zeros(15);
    var i4 := Put(i3, 25, p);
    assert i4 == head + LE32(s) + LE32(p) + Zeros(11);
  }

  /** n zero bytes. */
  function Zeros(n: nat): (z: seq<Byte>)
    ensures |z| == n && forall i :: 0 <= i < n ==> z[i] == 0
  {
    seq(n, i => 0)
  }

  /** The four assignments `header[at + j] = (unsigned char)(x >> 8j)` of savebmp. */
  method StoreLE32(header: array<Byte>, at: nat, x: int)
    requires at + 4 <= header.Length
    modifies header
    ensures header[..] == Put(old(header[..]), at, x)
  {
    header[at] := Narrow(x);
    header[at + 1] := Narrow(x / 256);
    header[at + 2] := Narrow(x / 65536);
    header[at + 3] := Narrow(x / 16777216);
  }

  /** bmpfileheader of savebmp: initialised, then the file size stored at byte 2. */
  method FillFileHeader(w: int, h: int) returns (header: seq<Byte>)
    ensures header == FileHeader(w, h)
  {
    var k := w * h;
    var s := 4 * k;
    var filesize := 54 + s;
    var bmpfileheader := new Byte[14] [66, 77, 0, 0, 0, 0, 0, 0, 0, 0, 54, 0, 0, 0];
    assert bmpfileheader[..] == FileTemplate;
    StoreLE32(bmpfileheader, 2, filesize);
    FileHeaderFilled(w, h);
    header := bmpfileheader[..];
  }

  /**
   * bmpinfoheader of savebmp: initialised, then the width, the height, the
   * image size and the resolution twice stored into it in place.
   */
  method FillInfoHeader(w: int, h: int, dpi: int) returns (header: seq<Byte>)
    ensures header == InfoHeader(w, h, dpi)
  {
    var k := w * h;
    var s := 4 * k;
    var factor := 39.375;
    var m := Truncate(factor);
    var ppm := dpi * m;
    var bmpinfoheader := new Byte[40] [40, 0, 0, 0, 0, 0, 0, 0, 0, 0, 0, 0, 1, 0, 24, 0,
      0, 0, 0, 0, 0, 0, 0, 0, 0, 0, 0, 0, 0, 0, 0, 0, 0, 0, 0, 0, 0, 0, 0, 0];
    assert bmpinfoheader[..] == InfoTemplate;
    StoreLE32(bmpinfoheader, 4, w);
    StoreLE32(bmpinfoheader, 8, h);
    StoreLE32(bmpinfoheader, 21, s);
    StoreLE32(bmpinfoheader, 25, ppm);
    StoreLE32(bmpinfoheader, 29, ppm);
    InfoHeaderFilled(w, h, dpi);
    header := bmpinfoheader[..];
  }

  /** savebmp: the headers, then one pixel after another, blue first. */
  method SaveBmp(w: int, h: int, dpi: int, data: seq<RGB>) returns (file: seq<Byte>)
    requires FitsInInt(w, h, dpi)
    requires w * h <= |data|
    ensures file == BmpFile(w, h, dpi, data)
  {
    var bmpfileheader := FillFileHeader(w, h);
    var bmpinfoheader := FillInfoHeader(w, h, dpi);
    file := bmpfileheader + bmpinfoheader;
    var k := w * h;
    file := WritePixels(file, data, k);
  }

  /** The pixel loop of savebmp: k pixels appended to `file`, three bytes each, blue first. */
  method WritePixels(file: seq<Byte>, data: seq<RGB>, k: int) returns (out: seq<Byte>)
    requires k <= |data|
    ensures out == file + Pixels(data[..if k < 0 then 0 else k])
  {
    out := file;
    var i := 0;
    while i < k
      invariant 0 <= i <= (if k < 0 then 0 else k)
      invariant out == file + Pixels(data[..i])
    {
      var red := data[i].r * 255.0;
      var green := data[i].g * 255.0;
      var blue := data[i].b * 255.0;
      var color := [Narrow(blue.Floor), Narrow(green.Floor), Narrow(red.Floor)];
      assert data[..i + 1][..i] == data[..i];
      out := out + color;
      i := i + 1;
    }
  }

  /** Pixel i occupies bytes 3i to 3i+2 of the pixel data, blue, green, red. */
  lemma {:induction false} PixelLayout(data: seq<RGB>, i: nat)
    requires i < |data|
    ensures Pixels(data)[3 * i..3 * i + 3] == [Channel(data[i].b), Channel(data[i].g), Channel(data[i].r)]
    decreases |data|
  {
    var front := data[..|data| - 1];
    if i < |data| - 1 {
      PixelLayout(front, i);
      assert front[i] == data[i];
      assert Pixels(data)[3 * i..3 * i + 3] == Pixels(front)[3 * i..3 * i + 3];
    }
  }

  /** A clipped channel gives 0 for 0, 255 for 1 and never decreases. */
  lemma ChannelRange(c: real, d: real)
    requires 0.0 <= c <= d <= 1.0
    ensures Channel(0.0) == 0 && Channel(1.0) == 255
    ensures Channel(c) <= Channel(d)
    ensures Channel(c) as real <= c * 255.0 < Channel(c) as real + 1.0
  {
  }

  /**
   * Read back at savebmp's offsets, the headers hold what it computed: the
   * signature, the file size, the pixel offset, the width, the height, one
   * plane, 24 bits, the image size and the resolution twice.
   */
  lemma HeaderFields(w: int, h: int, dpi: int)
    requires FitsInInt(w, h, dpi)
    ensures FileHeader(w, h)[0] == 66 && FileHeader(w, h)[1] == 77
    ensures DecodeI32(FileHeader(w, h)[2..6]) == 54 + 4 * (w * h)
    ensures FieldAt(FileHeader(w, h), 10) == 54
    ensures FieldAt(InfoHeader(w, h, dpi), 0) == 40
    ensures DecodeI32(InfoHeader(w, h, dpi)[4..8]) == w
    ensures DecodeI32(InfoHeader(w, h, dpi)[8..12]) == h
    ensures InfoHeader(w, h, dpi)[12] == 1 && InfoHeader(w, h, dpi)[14] == 24
    ensures DecodeI32(InfoHeader(w, h, dpi)[21..25]) == 4 * (w * h)
    ensures DecodeI32(InfoHeader(w, h, dpi)[25..29]) == dpi * 39
    ensures DecodeI32(InfoHeader(w, h, dpi)[29..33]) == dpi * 39
  {
    var fh, ih := FileHeader(w, h), InfoHeader(w, h, dpi);
    assert Truncate(39.375) == 39;
    assert fh[2..6] == LE32(FileSize(w, h));
    assert fh[10..14] == [54, 0, 0, 0];
    assert ih[0..4] == [40, 0, 0, 0];
    assert ih[4..8] == LE32(w);
    assert ih[8..12] == LE32(h);
    assert ih[21..25] == LE32(ImageSize(w, h));
    assert ih[25..29] == LE32(PixelsPerMeter(dpi));
    assert ih[29..33] == LE32(PixelsPerMeter(dpi));
    LE32SignedRoundTrip(FileSize(w, h));
    LE32SignedRoundTrip(w);
    LE32SignedRoundTrip(h);
    LE32SignedRoundTrip(ImageSize(w, h));
    LE32SignedRoundTrip(PixelsPerMeter(dpi));
  }

  /**
   * A reader that takes the image size from bytes 20-23, where the BMP
   * layout puts it, sees the size shifted up by one byte: its low byte is
   * the zero savebmp left at byte 20.
   */
  lemma ImageSizeOneByteLate(w: int, h: int, dpi: int)
    ensures FieldAt(InfoHeader(w, h, dpi), 20) == (256 * ImageSize(w, h)) % TwoTo32
  {
    var ih := InfoHeader(w, h, dpi);
    var s := ImageSize(w, h);
    assert ih[20..24] == [0] + LE32(s)[..3];
    ShiftedLE32(s);
    LE32RoundTrip(256 * s);
  }

  /** The bytes of 256 * x are a zero byte followed by the low three bytes of x. */
  lemma ShiftedLE32(x: int)
    ensures LE32(256 * x) == [0] + LE32(x)[..3]
  {
    var y := 256 * x;
    assert y / 256 == x;
    assert y / 65536 == x / 256 by { DivDiv(y, 256); }
    assert y / 16777216 == x / 65536 by {
      DivDiv(y, 65536);
      DivDiv(x, 256);
    }
  }

  /**
   * The file size field counts four bytes per pixel, but the loop writes
   * three and no row padding: for a non-empty image the declared size
   * exceeds the bytes written.
   */
  lemma DeclaredSizeVersusWritten(w: int, h: int, dpi: int, data: seq<RGB>)
    requires FitsInInt(w, h, dpi) && 0 <= w * h <= |data|
    ensures |BmpFile(w, h, dpi, data)| == 54 + 3 * (w * h)
    ensures DecodeI32(FileHeader(w, h)[2..6]) - |BmpFile(w, h, dpi, data)| == w * h
  {
    HeaderFields(w, h, dpi);
  }
}
