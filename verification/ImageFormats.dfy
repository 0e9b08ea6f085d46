/** The four image headers the avatar route accepts, and the choice between them. */
module ImageFormats {
  import opened Orders
  import opened Octets
  import opened JpegScanner

  const MAX_AVATAR_DIMENSION := 4096
  const MAX_AVATAR_PIXELS := 16_000_000

  datatype Format = Png | Jpeg | WebP | Gif

  datatype ImageInfo = ImageInfo(format: Format, size: Dimensions)

  const PNG_SIGNATURE: Bytes := [0x89, 0x50, 0x4e, 0x47, 0x0d, 0x0a, 0x1a, 0x0a]
  const IHDR: Bytes := [0, 0, 0, 0x0d, 0x49, 0x48, 0x44, 0x52]
  const IEND: Bytes := [0, 0, 0, 0, 0x49, 0x45, 0x4e, 0x44, 0xae, 0x42, 0x60, 0x82]
  const GIF87A: Bytes := [0x47, 0x49, 0x46, 0x38, 0x37, 0x61]
  const GIF89A: Bytes := [0x47, 0x49, 0x46, 0x38, 0x39, 0x61]
  const RIFF: Bytes := [0x52, 0x49, 0x46, 0x46]
  const WEBP: Bytes := [0x57, 0x45, 0x42, 0x50]
  const VP8X: Bytes := [0x56, 0x50, 0x38, 0x58]
  const VP8L: Bytes := [0x56, 0x50, 0x38, 0x4c]
  const VP8: Bytes := [0x56, 0x50, 0x38, 0x20]
  const VP8_START: Bytes := [0x9d, 0x01, 0x2a]

  /** The little-endian number in `bytes[i..j]`. */
  function Little(bytes: Bytes, i: nat, j: nat): nat
    requires i <= j <= |bytes|
    decreases j - i
  {
    if i == j then 0 else bytes[i] as nat + 0x100 * Little(bytes, i + 1, j)
  }

  function PngDimensions(bytes: Bytes): Option<Dimensions> {
    if |bytes| < 45 || !StartsWith(bytes, PNG_SIGNATURE) || bytes[8..16] != IHDR || !EndsWith(bytes, IEND) then None
    else Nonzero(Word(bytes, 16) * 0x1_0000 + Word(bytes, 18), Word(bytes, 20) * 0x1_0000 + Word(bytes, 22))
  }

  function GifDimensions(bytes: Bytes): Option<Dimensions> {
    if |bytes| < 14 || !(StartsWith(bytes, GIF87A) || StartsWith(bytes, GIF89A)) || bytes[|bytes| - 1] != 0x3b then None
    else Nonzero(Little(bytes, 6, 8), Little(bytes, 8, 10))
  }

  function WebpDimensions(bytes: Bytes): Option<Dimensions> {
    if |bytes| < 25 || !StartsWith(bytes, RIFF) || bytes[8..12] != WEBP then None
    else if Little(bytes, 4, 8) + 8 != |bytes| then None
    else if bytes[12..16] == VP8X && |bytes| >= 30 then
      Nonzero(1 + Little(bytes, 24, 27), 1 + Little(bytes, 27, 30))
    else if bytes[12..16] == VP8L && bytes[20] == 0x2f then
      var bits := Little(bytes, 21, 25);
      Nonzero(bits % 0x4000 + 1, bits / 0x4000 % 0x4000 + 1)
    else if bytes[12..16] == VP8 && |bytes| >= 30 && bytes[23..26] == VP8_START then
      Nonzero(Little(bytes, 26, 28) % 0x4000, Little(bytes, 28, 30) % 0x4000)
    else None
  }

  function InspectImage(bytes: Bytes): Option<ImageInfo> {
    if PngDimensions(bytes).Some? then Some(ImageInfo(Png, PngDimensions(bytes).value))
    else if ScanImage(bytes).Some? then Some(ImageInfo(Jpeg, ScanImage(bytes).value))
    else if WebpDimensions(bytes).Some? then Some(ImageInfo(WebP, WebpDimensions(bytes).value))
    else if GifDimensions(bytes).Some? then Some(ImageInfo(Gif, GifDimensions(bytes).value))
    else None
  }

  function Reader(format: Format, bytes: Bytes): Option<Dimensions> {
    match format
    case Png => PngDimensions(bytes)
    case Jpeg => ScanImage(bytes)
    case WebP => WebpDimensions(bytes)
    case Gif => GifDimensions(bytes)
  }

  predicate DimensionsWithin(size: Dimensions, maxDimension: nat, maxPixels: nat) {
    size.width <= maxDimension && size.height <= maxDimension && size.width * size.height <= maxPixels
  }

  /** The validation of an upload that was declared to be `declared`. */
  function ValidateAvatarImage(bytes: Bytes, declared: Format): Option<ImageInfo> {
    match InspectImage(bytes)
    case None => None
    case Some(info) =>
      if info.format != declared || !DimensionsWithin(info.size, MAX_AVATAR_DIMENSION, MAX_AVATAR_PIXELS) then None
      else Some(info)
  }

  lemma FirstByte(format: Format, bytes: Bytes)
    requires Reader(format, bytes).Some?
    ensures bytes != []
    ensures bytes[0] == match format case Png => 0x89 case Jpeg => 0xff case WebP => 0x52 case Gif => 0x47
  {
    match format
    case Png => assert bytes[..8][0] == PNG_SIGNATURE[0];
    case Jpeg => assert bytes[..2][0] == SOI[0];
    case WebP => assert bytes[..4][0] == RIFF[0];
    case Gif => assert bytes[..6][0] == GIF87A[0];
  }

  /** The order of the four attempts does not matter: a file is reported in a format exactly when
      that format's own reader accepts it, so no other can. */
  lemma OneReaderAccepts(bytes: Bytes, format: Format, size: Dimensions)
    ensures InspectImage(bytes) == Some(ImageInfo(format, size)) <==> Reader(format, bytes) == Some(size)
  {
    if Reader(format, bytes).Some? {
      FirstByte(format, bytes);
      forall other: Format | Reader(other, bytes).Some? ensures other == format {
        FirstByte(other, bytes);
      }
      assert PngDimensions(bytes) == Reader(Png, bytes) && ScanImage(bytes) == Reader(Jpeg, bytes);
      assert WebpDimensions(bytes) == Reader(WebP, bytes);
    }
  }

  /** An upload is accepted exactly when it reads as what it was declared to be, at an allowed size. */
  lemma AcceptedAvatars(bytes: Bytes, declared: Format)
    ensures ValidateAvatarImage(bytes, declared).Some? <==>
      Reader(declared, bytes).Some?
      && DimensionsWithin(Reader(declared, bytes).value, MAX_AVATAR_DIMENSION, MAX_AVATAR_PIXELS)
  {
    if InspectImage(bytes).Some? {
      OneReaderAccepts(bytes, InspectImage(bytes).value.format, InspectImage(bytes).value.size);
    }
    if Reader(declared, bytes).Some? {
      OneReaderAccepts(bytes, declared, Reader(declared, bytes).value);
    }
  }

  // ---- well-formed files of the other formats ------------------------------------------

  /** `n` in `width` bytes, least significant first. */
  function LittleBytes(n: nat, width: nat): (b: Bytes)
    ensures |b| == width
  {
    if width == 0 then [] else [(n % 0x100) as byte] + LittleBytes(n / 0x100, width - 1)
  }

  function Power(width: nat): nat {
    if width == 0 then 1 else 0x100 * Power(width - 1)
  }

  lemma {:induction false} LittleReads(bytes: Bytes, i: nat, width: nat, n: nat)
    requires i + width <= |bytes| && n < Power(width) && bytes[i..i + width] == LittleBytes(n, width)
    ensures Little(bytes, i, i + width) == n
    decreases width
  {
    if width > 0 {
      var text := bytes[i..i + width];
      assert text[0] == bytes[i] && text[1..] == bytes[i + 1..i + width];
      assert LittleBytes(n, width)[1..] == LittleBytes(n / 0x100, width - 1);
      LittleReads(bytes, i + 1, width - 1, n / 0x100);
    }
  }

  /** The piece `text` stands at `i`. */
  predicate HasAt(bytes: Bytes, i: nat, text: Bytes) {
    i + |text| <= |bytes| && bytes[i..i + |text|] == text
  }

  lemma GifsAreMeasured(bytes: Bytes, width: nat, height: nat)
    requires |bytes| >= 14 && (HasAt(bytes, 0, GIF87A) || HasAt(bytes, 0, GIF89A)) && EndsWith(bytes, [0x3b])
    requires 0 < width < 0x1_0000 && HasAt(bytes, 6, LittleBytes(width, 2))
    requires 0 < height < 0x1_0000 && HasAt(bytes, 8, LittleBytes(height, 2))
    ensures InspectImage(bytes) == Some(ImageInfo(Gif, Dimensions(width, height)))
  {
    assert Power(2) == 0x1_0000;
    LittleReads(bytes, 6, 2, width);
    LittleReads(bytes, 8, 2, height);
    assert bytes[|bytes| - 1..][0] == 0x3b;
    OneReaderAccepts(bytes, Gif, Dimensions(width, height));
  }

  lemma PngsAreMeasured(bytes: Bytes, width: nat, height: nat)
    requires |bytes| >= 45 && HasAt(bytes, 0, PNG_SIGNATURE) && HasAt(bytes, 8, IHDR) && EndsWith(bytes, IEND)
    requires 0 < width < 0x1_0000_0000 && 0 < height < 0x1_0000_0000
    requires HasAt(bytes, 16, Big(width / 0x1_0000)) && HasAt(bytes, 18, Big(width % 0x1_0000))
    requires HasAt(bytes, 20, Big(height / 0x1_0000)) && HasAt(bytes, 22, Big(height % 0x1_0000))
    ensures InspectImage(bytes) == Some(ImageInfo(Png, Dimensions(width, height)))
  {
    WordReads(bytes, 16, width / 0x1_0000);
    WordReads(bytes, 18, width % 0x1_0000);
    WordReads(bytes, 20, height / 0x1_0000);
    WordReads(bytes, 22, height % 0x1_0000);
    OneReaderAccepts(bytes, Png, Dimensions(width, height));
  }

  lemma WordReads(bytes: Bytes, i: nat, n: nat)
    requires n < 0x1_0000 && HasAt(bytes, i, Big(n))
    ensures Word(bytes, i) == n
  {
    assert bytes[i..i + 2][0] == bytes[i] && bytes[i..i + 2][1] == bytes[i + 1];
  }

  /** RIFF, the size of what follows it, WEBP, and a chunk name. */
  predicate IsWebp(bytes: Bytes, chunk: Bytes) {
    && HasAt(bytes, 0, RIFF) && |bytes| < 0x1_0000_0000 && 25 <= |bytes| && HasAt(bytes, 4, LittleBytes(|bytes| - 8, 4))
    && HasAt(bytes, 8, WEBP) && HasAt(bytes, 12, chunk)
  }

  lemma WebpSize(bytes: Bytes, chunk: Bytes)
    requires IsWebp(bytes, chunk)
    ensures Little(bytes, 4, 8) + 8 == |bytes|
  {
    assert Power(4) == 0x1_0000_0000;
    LittleReads(bytes, 4, 4, |bytes| - 8);
  }

  /** The extended header stores both sizes less one, in three bytes each. */
  lemma ExtendedWebpsAreMeasured(bytes: Bytes, width: nat, height: nat)
    requires IsWebp(bytes, VP8X) && |bytes| >= 30
    requires 0 < width <= 0x100_0000 && HasAt(bytes, 24, LittleBytes(width - 1, 3))
    requires 0 < height <= 0x100_0000 && HasAt(bytes, 27, LittleBytes(height - 1, 3))
    ensures InspectImage(bytes) == Some(ImageInfo(WebP, Dimensions(width, height)))
  {
    WebpSize(bytes, VP8X);
    assert Power(3) == 0x100_0000;
    LittleReads(bytes, 24, 3, width - 1);
    LittleReads(bytes, 27, 3, height - 1);
    OneReaderAccepts(bytes, WebP, Dimensions(width, height));
  }

  /** Fourteen low bits, and the rest. */
  lemma Packed(low: nat, rest: nat)
    requires low < 0x4000
    ensures (low + 0x4000 * rest) % 0x4000 == low && (low + 0x4000 * rest) / 0x4000 == rest
  {
  }

  lemma ChunksDiffer(bytes: Bytes, chunk: Bytes)
    requires IsWebp(bytes, chunk)
    ensures chunk == VP8L ==> bytes[12..16] != VP8X
    ensures chunk == VP8 ==> bytes[12..16] != VP8X && bytes[12..16] != VP8L
  {
    assert VP8L[3] != VP8X[3] && VP8[3] != VP8X[3] && VP8[3] != VP8L[3];
  }

  /** The lossless header packs both sizes less one into fourteen bits each, flags above them. */
  lemma LosslessWebpsAreMeasured(bytes: Bytes, width: nat, height: nat, flags: nat)
    requires IsWebp(bytes, VP8L) && bytes[20] == 0x2f
    requires 0 < width <= 0x4000 && 0 < height <= 0x4000 && flags < 0x10
    requires HasAt(bytes, 21, LittleBytes(width - 1 + 0x4000 * (height - 1 + 0x4000 * flags), 4))
    ensures InspectImage(bytes) == Some(ImageInfo(WebP, Dimensions(width, height)))
  {
    WebpSize(bytes, VP8L);
    assert Power(4) == 0x1_0000_0000;
    var bits := width - 1 + 0x4000 * (height - 1 + 0x4000 * flags);
    LittleReads(bytes, 21, 4, bits);
    Packed(width - 1, height - 1 + 0x4000 * flags);
    Packed(height - 1, flags);
    ChunksDiffer(bytes, VP8L);
    OneReaderAccepts(bytes, WebP, Dimensions(width, height));
  }

  /** The lossy header keeps each size in fourteen bits, two bits of scaling above it. */
  lemma LossyWebpsAreMeasured(bytes: Bytes, width: nat, height: nat, scaleX: nat, scaleY: nat)
    requires IsWebp(bytes, VP8) && |bytes| >= 30 && HasAt(bytes, 23, VP8_START)
    requires 0 < width < 0x4000 && 0 < height < 0x4000 && scaleX < 4 && scaleY < 4
    requires HasAt(bytes, 26, LittleBytes(width + 0x4000 * scaleX, 2))
    requires HasAt(bytes, 28, LittleBytes(height + 0x4000 * scaleY, 2))
    ensures InspectImage(bytes) == Some(ImageInfo(WebP, Dimensions(width, height)))
  {
    WebpSize(bytes, VP8);
    assert Power(2) == 0x1_0000;
    LittleReads(bytes, 26, 2, width + 0x4000 * scaleX);
    LittleReads(bytes, 28, 2, height + 0x4000 * scaleY);
    Packed(width, scaleX);
    Packed(height, scaleY);
    ChunksDiffer(bytes, VP8);
    OneReaderAccepts(bytes, WebP, Dimensions(width, height));
  }

  // ---- exactly which files each reader accepts -----------------------------------------

  /** The number in four bytes, the first of them worth the least. */
  function Value(a: byte, b: byte, c: byte, d: byte): nat {
    a as nat + 0x100 * b as nat + 0x1_0000 * c as nat + 0x100_0000 * d as nat
  }

  lemma LittleWord(bytes: Bytes, i: nat)
    requires i + 2 <= |bytes|
    ensures Little(bytes, i, i + 2) == Value(bytes[i], bytes[i + 1], 0, 0)
  {
    assert Little(bytes, i + 2, i + 2) == 0;
    assert Little(bytes, i + 1, i + 2) == bytes[i + 1] as nat;
  }

  lemma LittleThree(bytes: Bytes, i: nat)
    requires i + 3 <= |bytes|
    ensures Little(bytes, i, i + 3) == Value(bytes[i], bytes[i + 1], bytes[i + 2], 0)
  {
    LittleWord(bytes, i + 1);
  }

  lemma LittleFour(bytes: Bytes, i: nat)
    requires i + 4 <= |bytes|
    ensures Little(bytes, i, i + 4) == Value(bytes[i], bytes[i + 1], bytes[i + 2], bytes[i + 3])
  {
    LittleThree(bytes, i + 1);
  }

  lemma GifsInFull(bytes: Bytes, size: Dimensions)
    ensures GifDimensions(bytes) == Some(size) <==>
      && |bytes| >= 14 && bytes[|bytes| - 1] == 0x3b
      && (bytes[..6] == [0x47, 0x49, 0x46, 0x38, 0x37, 0x61] || bytes[..6] == [0x47, 0x49, 0x46, 0x38, 0x39, 0x61])
      && 0 < size.width == Value(bytes[6], bytes[7], 0, 0) && 0 < size.height == Value(bytes[8], bytes[9], 0, 0)
  {
    if |bytes| >= 14 {
      LittleWord(bytes, 6);
      LittleWord(bytes, 8);
    }
  }

  lemma PngsInFull(bytes: Bytes, size: Dimensions)
    ensures PngDimensions(bytes) == Some(size) <==>
      && |bytes| >= 45 && bytes[..8] == [0x89, 0x50, 0x4e, 0x47, 0x0d, 0x0a, 0x1a, 0x0a]
      && bytes[8..16] == [0, 0, 0, 0x0d, 0x49, 0x48, 0x44, 0x52]
      && bytes[|bytes| - 12..] == [0, 0, 0, 0, 0x49, 0x45, 0x4e, 0x44, 0xae, 0x42, 0x60, 0x82]
      && 0 < size.width == Value(bytes[19], bytes[18], bytes[17], bytes[16])
      && 0 < size.height == Value(bytes[23], bytes[22], bytes[21], bytes[20])
  {
  }

  /** The frame of every WebP: RIFF, the size of the rest, WEBP. */
  predicate RiffWebp(bytes: Bytes) {
    && |bytes| >= 25 && bytes[..4] == [0x52, 0x49, 0x46, 0x46] && bytes[8..12] == [0x57, 0x45, 0x42, 0x50]
    && Value(bytes[4], bytes[5], bytes[6], bytes[7]) == |bytes| - 8
  }

  /** The extended, the lossless and the lossy header. */
  predicate Extended(bytes: Bytes, size: Dimensions)
    requires |bytes| >= 25
  {
    && bytes[12..16] == [0x56, 0x50, 0x38, 0x58] && |bytes| >= 30
    && size.width == 1 + Value(bytes[24], bytes[25], bytes[26], 0)
    && size.height == 1 + Value(bytes[27], bytes[28], bytes[29], 0)
  }

  predicate Lossless(bytes: Bytes, size: Dimensions)
    requires |bytes| >= 25
  {
    && bytes[12..16] == [0x56, 0x50, 0x38, 0x4c] && bytes[20] == 0x2f
    && 1 <= size.width <= 0x4000 && 1 <= size.height <= 0x4000
    && var rest := Value(bytes[21], bytes[22], bytes[23], bytes[24]) - (size.width - 1) - 0x4000 * (size.height - 1);
       0 <= rest && rest % 0x1000_0000 == 0
  }

  predicate Lossy(bytes: Bytes, size: Dimensions)
    requires |bytes| >= 25
  {
    && bytes[12..16] == [0x56, 0x50, 0x38, 0x20] && |bytes| >= 30 && bytes[23..26] == [0x9d, 0x01, 0x2a]
    && 1 <= size.width < 0x4000 && 1 <= size.height < 0x4000
    && exists scaleX, scaleY :: 0 <= scaleX < 4 && 0 <= scaleY < 4
         && Value(bytes[26], bytes[27], 0, 0) == size.width + 0x4000 * scaleX
         && Value(bytes[28], bytes[29], 0, 0) == size.height + 0x4000 * scaleY
  }

  lemma ExtendedInFull(bytes: Bytes, size: Dimensions)
    requires |bytes| >= 25 && bytes[12..16] == VP8X && RiffWebp(bytes)
    ensures WebpDimensions(bytes) == Some(size) <==> Extended(bytes, size)
  {
    LittleFour(bytes, 4);
    if |bytes| >= 30 {
      LittleThree(bytes, 24);
      LittleThree(bytes, 27);
    }
    assert VP8X[3] != VP8L[3] && VP8X[3] != VP8[3];
  }

  lemma FourteenBits(bits: nat, width: nat, height: nat)
    requires bits < 0x1_0000_0000 && width < 0x4000 && height < 0x4000
    ensures bits % 0x4000 == width && bits / 0x4000 % 0x4000 == height
       <==> width + 0x4000 * height <= bits && (bits - width - 0x4000 * height) % 0x1000_0000 == 0
  {
    var low, mid, high := bits % 0x4000, bits / 0x4000 % 0x4000, bits / 0x1000_0000;
    assert bits == low + 0x4000 * mid + 0x1000_0000 * high;
  }

  lemma LosslessInFull(bytes: Bytes, size: Dimensions)
    requires |bytes| >= 25 && bytes[12..16] == VP8L && RiffWebp(bytes)
    ensures WebpDimensions(bytes) == Some(size) <==> Lossless(bytes, size)
  {
    LittleFour(bytes, 4);
    LittleFour(bytes, 21);
    var bits := Little(bytes, 21, 25);
    if 1 <= size.width <= 0x4000 && 1 <= size.height <= 0x4000 {
      FourteenBits(bits, size.width - 1, size.height - 1);
    }
    assert VP8L[3] != VP8X[3] && VP8L[3] != VP8[3];
  }

  lemma Scaled(n: nat, size: nat)
    requires n < 0x1_0000
    ensures 0 < size == n % 0x4000
       <==> 0 < size < 0x4000 && exists scale :: 0 <= scale < 4 && n == size + 0x4000 * scale
  {
    assert n == n % 0x4000 + 0x4000 * (n / 0x4000);
  }

  lemma LossyInFull(bytes: Bytes, size: Dimensions)
    requires |bytes| >= 25 && bytes[12..16] == VP8 && RiffWebp(bytes)
    ensures WebpDimensions(bytes) == Some(size) <==> Lossy(bytes, size)
  {
    LittleFour(bytes, 4);
    if |bytes| >= 30 {
      LittleWord(bytes, 26);
      LittleWord(bytes, 28);
      Scaled(Little(bytes, 26, 28), size.width);
      Scaled(Little(bytes, 28, 30), size.height);
    }
    assert VP8[3] != VP8L[3] && VP8X[3] != VP8[3];
  }

  lemma WebpsInFull(bytes: Bytes, size: Dimensions)
    ensures WebpDimensions(bytes) == Some(size) <==>
      RiffWebp(bytes) && (Extended(bytes, size) || Lossless(bytes, size) || Lossy(bytes, size))
  {
    if |bytes| >= 25 { LittleFour(bytes, 4); }
    if RiffWebp(bytes) {
      assert VP8[3] != VP8L[3] && VP8X[3] != VP8[3] && VP8X[3] != VP8L[3];
      if bytes[12..16] == VP8X {
        ExtendedInFull(bytes, size);
      } else if bytes[12..16] == VP8L {
        LosslessInFull(bytes, size);
      } else if bytes[12..16] == VP8 {
        LossyInFull(bytes, size);
      }
    }
  }

  /** An upload is accepted as what it was declared to be, with the size its own reader finds, when no
      side is over 4,096 pixels and there are no more than 16,000,000 in all. */
  lemma AcceptedInFull(bytes: Bytes, declared: Format, info: ImageInfo)
    ensures ValidateAvatarImage(bytes, declared) == Some(info) <==>
      && info.format == declared && Reader(declared, bytes) == Some(info.size)
      && info.size.width <= 4_096 && info.size.height <= 4_096 && info.size.width * info.size.height <= 16_000_000
  {
    AcceptedAvatars(bytes, declared);
    OneReaderAccepts(bytes, declared, info.size);
  }
}
