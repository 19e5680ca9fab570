/**
 * The Android image utilities: magic-byte sniffing over a Java `byte[]`
 * (signed bytes, so values above 0x7F are compared through `(byte)` casts),
 * the file-extension table and the `Bitmap.CompressFormat` table.
 */
module AndroidImageUtils {
  import opened Wrappers
  import opened Bytes
  import opened Ascii
  import opened ImageFormats

  /** `detectImageFormat`: the checks in source order; `None` is Java's `null`. */
  function DetectImageFormat(data: seq<JByte>): (r: Option<string>)
    ensures |data| < 8 ==> r == None
    ensures r.Some? ==> r.value in {"png", "jpeg", "webp", "bmp", "gif", "tiff"}
  {
    if |data| < 8 then None
    else if data[0] == Cast(0x89) && data[1] == 0x50 && data[2] == 0x4E && data[3] == 0x47
         && data[4] == 0x0D && data[5] == 0x0A && data[6] == 0x1A && data[7] == 0x0A then Some("png")
    else if data[0] == Cast(0xFF) && data[1] == Cast(0xD8) && data[2] == Cast(0xFF) then Some("jpeg")
    else if |data| >= 12 && data[0] == 0x52 && data[1] == 0x49 && data[2] == 0x46 && data[3] == 0x46
         && data[8] == 0x57 && data[9] == 0x45 && data[10] == 0x42 && data[11] == 0x50 then Some("webp")
    else if data[0] == 0x42 && data[1] == 0x4D then Some("bmp")
    else if data[0] == 0x47 && data[1] == 0x49 && data[2] == 0x46 && data[3] == 0x38 then Some("gif")
    else if (data[0] == 0x49 && data[1] == 0x49 && data[2] == 0x2A && data[3] == 0x00)
         || (data[0] == 0x4D && data[1] == 0x4D && data[2] == 0x00 && data[3] == 0x2A) then Some("tiff")
    else None
  }

  /** `getFileExtension`: `null` and unknown names give ".png"; names match case-insensitively. */
  function GetFileExtension(format: Option<string>): (r: string)
    ensures 0 < |r| && r[0] == '.'
    ensures format.None? ==> r == ".png"
  {
    match format
    case None => ".png"
    case Some(name) =>
      var key := Lower(name);
      if key == "jpeg" || key == "jpg" then ".jpg"
      else if key == "png" then ".png"
      else if key == "webp" then ".webp"
      else if key == "bmp" then ".bmp"
      else if key == "gif" then ".gif"
      else if key == "tiff" || key == "tif" then ".tiff"
      else ".png"
  }

  /** The three `Bitmap.CompressFormat` values the table yields. */
  datatype CompressFormat = JPEG | WEBP | PNG

  /** `getCompressFormat`: only JPEG, WebP and PNG have an encoder; everything else is `null`. */
  function GetCompressFormat(format: Option<string>): (r: Option<CompressFormat>)
    ensures format.None? ==> r.None?
  {
    match format
    case None => None
    case Some(name) =>
      var key := Lower(name);
      if key == "jpeg" || key == "jpg" then Some(JPEG)
      else if key == "webp" then Some(WEBP)
      else if key == "png" then Some(PNG)
      else if key == "bmp" || key == "gif" || key == "tiff" || key == "tif" then None
      else None
  }

  // ---------------------------------------------------------------------------
  // Properties

  /** The unsigned view of a Java byte array: `0xff & data[i]` for each byte. */
  function UnsignedBytes(data: seq<JByte>): (u: seq<UInt8>)
    ensures |u| == |data|
    ensures forall i :: 0 <= i < |data| ==> u[i] == Unsigned(data[i])
  {
    seq(|data|, i requires 0 <= i < |data| => Unsigned(data[i]))
  }

  /** Byte `i` compares equal to `(byte) v` exactly when its unsigned value is `v`. */
  lemma {:induction false} ByteIs(data: seq<JByte>, i: nat, v: int)
    requires i < |data| && 0 <= v < 256
    ensures data[i] == Cast(v) <==> UnsignedBytes(data)[i] as int == v
  {
    EqualsCast(data[i], v);
  }

  /** The first check of `detectImageFormat` tests the PNG signature. */
  lemma PngCheck(data: seq<JByte>)
    requires 8 <= |data|
    ensures (data[0] == Cast(0x89) && data[1] == 0x50 && data[2] == 0x4E && data[3] == 0x47
         && data[4] == 0x0D && data[5] == 0x0A && data[6] == 0x1A && data[7] == 0x0A)
      <==> PatternMatches(UnsignedBytes(data), PngSignature)
  {
    var u := UnsignedBytes(data);
    ByteIs(data, 0, 0x89); ByteIs(data, 1, 0x50); ByteIs(data, 2, 0x4E); ByteIs(data, 3, 0x47);
    ByteIs(data, 4, 0x0D); ByteIs(data, 5, 0x0A); ByteIs(data, 6, 0x1A); ByteIs(data, 7, 0x0A);
    if PatternMatches(u, PngSignature) {
      PatternAt(u, PngSignature, 0); PatternAt(u, PngSignature, 1); PatternAt(u, PngSignature, 2);
      PatternAt(u, PngSignature, 3); PatternAt(u, PngSignature, 4); PatternAt(u, PngSignature, 5);
      PatternAt(u, PngSignature, 6); PatternAt(u, PngSignature, 7);
    }
  }

  lemma JpegCheck(data: seq<JByte>)
    requires 8 <= |data|
    ensures (data[0] == Cast(0xFF) && data[1] == Cast(0xD8) && data[2] == Cast(0xFF))
      <==> PatternMatches(UnsignedBytes(data), JpegSignature)
  {
    var u := UnsignedBytes(data);
    ByteIs(data, 0, 0xFF); ByteIs(data, 1, 0xD8); ByteIs(data, 2, 0xFF);
    if PatternMatches(u, JpegSignature) {
      PatternAt(u, JpegSignature, 0); PatternAt(u, JpegSignature, 1); PatternAt(u, JpegSignature, 2);
    }
  }

  lemma WebpCheck(data: seq<JByte>)
    requires 8 <= |data|
    ensures (|data| >= 12 && data[0] == 0x52 && data[1] == 0x49 && data[2] == 0x46 && data[3] == 0x46
         && data[8] == 0x57 && data[9] == 0x45 && data[10] == 0x42 && data[11] == 0x50)
      <==> PatternMatches(UnsignedBytes(data), WebpSignature)
  {
    var u := UnsignedBytes(data);
    ByteIs(data, 0, 0x52); ByteIs(data, 1, 0x49); ByteIs(data, 2, 0x46); ByteIs(data, 3, 0x46);
    if |data| >= 12 {
      ByteIs(data, 8, 0x57); ByteIs(data, 9, 0x45); ByteIs(data, 10, 0x42); ByteIs(data, 11, 0x50);
    }
    if PatternMatches(u, WebpSignature) {
      PatternAt(u, WebpSignature, 0); PatternAt(u, WebpSignature, 1); PatternAt(u, WebpSignature, 2);
      PatternAt(u, WebpSignature, 3); PatternAt(u, WebpSignature, 4); PatternAt(u, WebpSignature, 5);
      PatternAt(u, WebpSignature, 6); PatternAt(u, WebpSignature, 7);
    }
  }

  lemma BmpCheck(data: seq<JByte>)
    requires 8 <= |data|
    ensures (data[0] == 0x42 && data[1] == 0x4D) <==> PatternMatches(UnsignedBytes(data), BmpSignature)
  {
    var u := UnsignedBytes(data);
    ByteIs(data, 0, 0x42); ByteIs(data, 1, 0x4D);
    if PatternMatches(u, BmpSignature) {
      PatternAt(u, BmpSignature, 0); PatternAt(u, BmpSignature, 1);
    }
  }

  lemma GifCheck(data: seq<JByte>)
    requires 8 <= |data|
    ensures (data[0] == 0x47 && data[1] == 0x49 && data[2] == 0x46 && data[3] == 0x38)
      <==> PatternMatches(UnsignedBytes(data), GifSignature)
  {
    var u := UnsignedBytes(data);
    ByteIs(data, 0, 0x47); ByteIs(data, 1, 0x49); ByteIs(data, 2, 0x46); ByteIs(data, 3, 0x38);
    if PatternMatches(u, GifSignature) {
      PatternAt(u, GifSignature, 0); PatternAt(u, GifSignature, 1);
      PatternAt(u, GifSignature, 2); PatternAt(u, GifSignature, 3);
    }
  }

  lemma TiffCheck(data: seq<JByte>)
    requires 8 <= |data|
    ensures ((data[0] == 0x49 && data[1] == 0x49 && data[2] == 0x2A && data[3] == 0x00)
         || (data[0] == 0x4D && data[1] == 0x4D && data[2] == 0x00 && data[3] == 0x2A))
      <==> HasSignature(UnsignedBytes(data), Tiff)
  {
    var u := UnsignedBytes(data);
    ByteIs(data, 0, 0x49); ByteIs(data, 1, 0x49); ByteIs(data, 2, 0x2A); ByteIs(data, 3, 0x00);
    ByteIs(data, 0, 0x4D); ByteIs(data, 1, 0x4D); ByteIs(data, 2, 0x00); ByteIs(data, 3, 0x2A);
    if PatternMatches(u, TiffLittleEndian) {
      PatternAt(u, TiffLittleEndian, 0); PatternAt(u, TiffLittleEndian, 1);
      PatternAt(u, TiffLittleEndian, 2); PatternAt(u, TiffLittleEndian, 3);
    }
    if PatternMatches(u, TiffBigEndian) {
      PatternAt(u, TiffBigEndian, 0); PatternAt(u, TiffBigEndian, 1);
      PatternAt(u, TiffBigEndian, 2); PatternAt(u, TiffBigEndian, 3);
    }
  }

  /** Every check of `detectImageFormat`, read unsigned, is the matching signature test. */
  lemma AllChecks(data: seq<JByte>)
    requires 8 <= |data|
    ensures DetectImageFormat(data) ==
      var u := UnsignedBytes(data);
      if HasSignature(u, Png) then Some("png")
      else if HasSignature(u, Jpeg) then Some("jpeg")
      else if HasSignature(u, Webp) then Some("webp")
      else if HasSignature(u, Bmp) then Some("bmp")
      else if HasSignature(u, Gif) then Some("gif")
      else if HasSignature(u, Tiff) then Some("tiff")
      else None
  {
    PngCheck(data); JpegCheck(data); WebpCheck(data); BmpCheck(data); GifCheck(data); TiffCheck(data);
  }

  /**
   * `detectImageFormat` names format `f` exactly when the data is at least
   * 8 bytes long and starts with one of `f`'s signatures.
   */
  lemma DetectMeansSignature(data: seq<JByte>, f: ImageFormat)
    ensures DetectImageFormat(data) == Some(Name(f)) <==> 8 <= |data| && HasSignature(UnsignedBytes(data), f)
  {
    if 8 <= |data| {
      var u := UnsignedBytes(data);
      AllChecks(data);
      if HasSignature(u, f) {
        forall g | HasSignature(u, g) ensures g == f { SignaturesExclusive(u, f, g); }
      }
    }
  }

  /** `detectImageFormat` returns `null` exactly for short data or data with none of the six signatures. */
  lemma DetectNullMeansNoSignature(data: seq<JByte>)
    ensures DetectImageFormat(data).None? <==> |data| < 8 || forall f :: !HasSignature(UnsignedBytes(data), f)
  {
    var d := DetectImageFormat(data);
    if d.Some? {
      var f := if d.value == "png" then Png else if d.value == "jpeg" then Jpeg else if d.value == "webp" then Webp
               else if d.value == "bmp" then Bmp else if d.value == "gif" then Gif else Tiff;
      assert d == Some(Name(f));
      DetectMeansSignature(data, f);
    } else {
      forall f ensures !(8 <= |data| && HasSignature(UnsignedBytes(data), f)) {
        DetectMeansSignature(data, f);
      }
    }
  }

  /** Upper- and lower-case spellings of a name get the same extension. */
  lemma FileExtensionIgnoresCase(a: string, b: string)
    requires Lower(a) == Lower(b)
    ensures GetFileExtension(Some(a)) == GetFileExtension(Some(b))
  {
  }

  /**
   * The extension table agrees with the reference: a name denoting a format
   * gives that format's extension, any other name gives ".png".
   */
  lemma FileExtensionMeansFormat(name: string)
    ensures GetFileExtension(Some(name)) ==
      match FormatNamed(Lower(name))
      case Some(f) => Extension(f)
      case None => ".png"
  {
  }

  /** For every format `detectImageFormat` can return, the extension is ".jpg" for JPEG and "." + the name otherwise. */
  lemma DetectedFormatExtension(data: seq<JByte>)
    requires DetectImageFormat(data).Some?
    ensures var f := DetectImageFormat(data).value;
      GetFileExtension(Some(f)) == if f == "jpeg" then ".jpg" else "." + f
  {
    var f := DetectImageFormat(data).value;
    LowerOfLowerCase(f);
  }

  /** The compress-format table yields a format exactly for the names of JPEG, WebP and PNG. */
  lemma CompressFormatMeansFormat(name: string)
    ensures GetCompressFormat(Some(name)) ==
      match FormatNamed(Lower(name))
      case Some(Jpeg) => Some(JPEG)
      case Some(Webp) => Some(WEBP)
      case Some(Png) => Some(PNG)
      case _ => None
  {
  }

  /** When a compress format exists, it encodes to the file type the extension table names. */
  lemma CompressFormatAgreesWithExtension(name: string)
    requires GetCompressFormat(Some(name)).Some?
    ensures GetFileExtension(Some(name)) ==
      match GetCompressFormat(Some(name)).value
      case JPEG => ".jpg"
      case WEBP => ".webp"
      case PNG => ".png"
  {
  }
}
