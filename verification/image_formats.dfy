/**
 * A reference description of the image formats both sniffers recognise:
 * each format's magic bytes as (offset, byte) constraints, its canonical
 * name, the names that refer to it, and the file extension it is saved with.
 * The sniffers and lookup tables are proved against these definitions.
 */
module ImageFormats {
  import opened Wrappers
  import opened Bytes

  datatype ImageFormat = Png | Jpeg | Webp | Bmp | Gif | Tiff

  /** The name the sniffers return for a format. */
  function Name(f: ImageFormat): string {
    match f
    case Png => "png"
    case Jpeg => "jpeg"
    case Webp => "webp"
    case Bmp => "bmp"
    case Gif => "gif"
    case Tiff => "tiff"
  }

  /** The lowercase names that denote a format: its own name, plus "jpg" and "tif". */
  function FormatNamed(name: string): (r: Option<ImageFormat>)
    ensures r.Some? ==> name == Name(r.value) || (r.value == Jpeg && name == "jpg") || (r.value == Tiff && name == "tif")
  {
    if name == "png" then Some(Png)
    else if name == "jpeg" || name == "jpg" then Some(Jpeg)
    else if name == "webp" then Some(Webp)
    else if name == "bmp" then Some(Bmp)
    else if name == "gif" then Some(Gif)
    else if name == "tiff" || name == "tif" then Some(Tiff)
    else None
  }

  lemma FormatNamedName(f: ImageFormat)
    ensures FormatNamed(Name(f)) == Some(f)
  {
  }

  /** The extension a format is saved with: ".jpg" for JPEG, "." and the name otherwise. */
  function Extension(f: ImageFormat): string {
    if f == Jpeg then ".jpg" else "." + Name(f)
  }

  /** One magic-byte constraint: the byte at `offset` has value `value`. */
  datatype ByteAt = ByteAt(offset: nat, value: UInt8)

  predicate PatternMatches(data: seq<UInt8>, p: seq<ByteAt>) {
    forall k :: 0 <= k < |p| ==> p[k].offset < |data| && data[p[k].offset] == p[k].value
  }

  /** The PNG file signature (section 3.1 of RFC 2083). */
  const PngSignature: seq<ByteAt> := [
    ByteAt(0, 0x89), ByteAt(1, 0x50), ByteAt(2, 0x4E), ByteAt(3, 0x47),
    ByteAt(4, 0x0D), ByteAt(5, 0x0A), ByteAt(6, 0x1A), ByteAt(7, 0x0A)]

  /** The JPEG SOI marker FF D8 (ITU-T T.81 Annex B) followed by the FF of the next marker. */
  const JpegSignature: seq<ByteAt> := [ByteAt(0, 0xFF), ByteAt(1, 0xD8), ByteAt(2, 0xFF)]

  /** "RIFF" at offset 0 and "WEBP" at offset 8; the RIFF chunk size at 4..7 is not constrained. */
  const WebpSignature: seq<ByteAt> := [
    ByteAt(0, 0x52), ByteAt(1, 0x49), ByteAt(2, 0x46), ByteAt(3, 0x46),
    ByteAt(8, 0x57), ByteAt(9, 0x45), ByteAt(10, 0x42), ByteAt(11, 0x50)]

  /** "BM". */
  const BmpSignature: seq<ByteAt> := [ByteAt(0, 0x42), ByteAt(1, 0x4D)]

  /** "GIF8". */
  const GifSignature: seq<ByteAt> := [ByteAt(0, 0x47), ByteAt(1, 0x49), ByteAt(2, 0x46), ByteAt(3, 0x38)]

  /** Little-endian TIFF header "II" 42 (TIFF Revision 6.0, section 2). */
  const TiffLittleEndian: seq<ByteAt> := [ByteAt(0, 0x49), ByteAt(1, 0x49), ByteAt(2, 0x2A), ByteAt(3, 0x00)]

  /** Big-endian TIFF header "MM" 42 (TIFF Revision 6.0, section 2). */
  const TiffBigEndian: seq<ByteAt> := [ByteAt(0, 0x4D), ByteAt(1, 0x4D), ByteAt(2, 0x00), ByteAt(3, 0x2A)]

  /** The data starts with one of the format's signatures. */
  predicate HasSignature(data: seq<UInt8>, f: ImageFormat) {
    match f
    case Png => PatternMatches(data, PngSignature)
    case Jpeg => PatternMatches(data, JpegSignature)
    case Webp => PatternMatches(data, WebpSignature)
    case Bmp => PatternMatches(data, BmpSignature)
    case Gif => PatternMatches(data, GifSignature)
    case Tiff => PatternMatches(data, TiffLittleEndian) || PatternMatches(data, TiffBigEndian)
  }

  lemma PatternAt(data: seq<UInt8>, p: seq<ByteAt>, k: nat)
    requires PatternMatches(data, p) && k < |p|
    ensures p[k].offset < |data| && data[p[k].offset] == p[k].value
  {
  }

  /** The first two bytes a format's signatures allow. */
  predicate HeadAllowed(f: ImageFormat, b0: UInt8, b1: UInt8) {
    match f
    case Png => b0 == 0x89 && b1 == 0x50
    case Jpeg => b0 == 0xFF && b1 == 0xD8
    case Webp => b0 == 0x52 && b1 == 0x49
    case Bmp => b0 == 0x42 && b1 == 0x4D
    case Gif => b0 == 0x47 && b1 == 0x49
    case Tiff => (b0 == 0x49 && b1 == 0x49) || (b0 == 0x4D && b1 == 0x4D)
  }

  lemma SignatureHead(data: seq<UInt8>, f: ImageFormat)
    requires HasSignature(data, f)
    ensures 2 <= |data| && HeadAllowed(f, data[0], data[1])
  {
    match f
    case Png => PatternAt(data, PngSignature, 0); PatternAt(data, PngSignature, 1);
    case Jpeg => PatternAt(data, JpegSignature, 0); PatternAt(data, JpegSignature, 1);
    case Webp => PatternAt(data, WebpSignature, 0); PatternAt(data, WebpSignature, 1);
    case Bmp => PatternAt(data, BmpSignature, 0); PatternAt(data, BmpSignature, 1);
    case Gif => PatternAt(data, GifSignature, 0); PatternAt(data, GifSignature, 1);
    case Tiff =>
      if PatternMatches(data, TiffLittleEndian) {
        PatternAt(data, TiffLittleEndian, 0); PatternAt(data, TiffLittleEndian, 1);
      } else {
        PatternAt(data, TiffBigEndian, 0); PatternAt(data, TiffBigEndian, 1);
      }
  }

  /** No data carries the signatures of two formats, so the order of the checks cannot matter. */
  lemma SignaturesExclusive(data: seq<UInt8>, f: ImageFormat, g: ImageFormat)
    requires HasSignature(data, f) && HasSignature(data, g)
    ensures f == g
  {
    SignatureHead(data, f);
    SignatureHead(data, g);
  }
}
