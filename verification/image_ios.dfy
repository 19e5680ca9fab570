/**
 * The iOS image utilities: magic-byte sniffing over `Data` (bytes as
 * `UInt8`), the file-extension table and the clipboard-support predicate,
 * with their agreement with the Android utilities.
 */
module IosImageUtils {
  import opened Wrappers
  import opened Bytes
  import opened Ascii
  import opened ImageFormats
  import AndroidImageUtils

  /** `detectImageFormat(from:)`: the checks in source order; `None` is Swift's `nil`. */
  function DetectImageFormat(data: seq<UInt8>): (r: Option<string>)
    ensures |data| < 8 ==> r == None
  {
    if |data| < 8 then None
    else if data[0] == 0x89 && data[1] == 0x50 && data[2] == 0x4E && data[3] == 0x47
         && data[4] == 0x0D && data[5] == 0x0A && data[6] == 0x1A && data[7] == 0x0A then Some("png")
    else if data[0] == 0xFF && data[1] == 0xD8 && data[2] == 0xFF then Some("jpeg")
    else if |data| >= 12 && data[0] == 0x52 && data[1] == 0x49 && data[2] == 0x46 && data[3] == 0x46
         && data[8] == 0x57 && data[9] == 0x45 && data[10] == 0x42 && data[11] == 0x50 then Some("webp")
    else if data[0] == 0x42 && data[1] == 0x4D then Some("bmp")
    else if data[0] == 0x47 && data[1] == 0x49 && data[2] == 0x46 && data[3] == 0x38 then Some("gif")
    else if (data[0] == 0x49 && data[1] == 0x49 && data[2] == 0x2A && data[3] == 0x00)
         || (data[0] == 0x4D && data[1] == 0x4D && data[2] == 0x00 && data[3] == 0x2A) then Some("tiff")
    else None
  }

  /** `getFileExtension(for:)`: a non-optional name, matched case-insensitively, ".png" by default. */
  function GetFileExtension(format: string): (r: string)
    ensures 0 < |r| && r[0] == '.'
  {
    var key := Lower(format);
    if key == "jpeg" || key == "jpg" then ".jpg"
    else if key == "png" then ".png"
    else if key == "webp" then ".webp"
    else if key == "bmp" then ".bmp"
    else if key == "gif" then ".gif"
    else if key == "tiff" || key == "tif" then ".tiff"
    else ".png"
  }

  const ClipboardFormats: seq<string> := ["png", "jpeg", "jpg", "webp", "bmp", "gif", "tiff", "tif"]

  /** `isFormatSupportedForClipboard`: the lowercased name is in the supported list. */
  function IsFormatSupportedForClipboard(format: string): bool {
    Lower(format) in ClipboardFormats
  }

  // ---------------------------------------------------------------------------
  // Properties

  /** The Java byte array holding the same bits as Swift bytes. */
  function JavaBytes(data: seq<UInt8>): (j: seq<JByte>)
    ensures |j| == |data|
    ensures AndroidImageUtils.UnsignedBytes(j) == data
  {
    var j := seq(|data|, i requires 0 <= i < |data| => Cast(data[i] as int));
    forall i | 0 <= i < |data| ensures Unsigned(j[i]) == data[i] {
      UnsignedOfCast(data[i] as int);
    }
    j
  }

  /** Each Swift check, in order, is the reference signature test on the same bytes. */
  lemma AllChecks(data: seq<UInt8>)
    requires 8 <= |data|
    ensures DetectImageFormat(data) ==
      if HasSignature(data, Png) then Some("png")
      else if HasSignature(data, Jpeg) then Some("jpeg")
      else if HasSignature(data, Webp) then Some("webp")
      else if HasSignature(data, Bmp) then Some("bmp")
      else if HasSignature(data, Gif) then Some("gif")
      else if HasSignature(data, Tiff) then Some("tiff")
      else None
  {
    if HasSignature(data, Png) {
      PatternAt(data, PngSignature, 0); PatternAt(data, PngSignature, 1); PatternAt(data, PngSignature, 2);
      PatternAt(data, PngSignature, 3); PatternAt(data, PngSignature, 4); PatternAt(data, PngSignature, 5);
      PatternAt(data, PngSignature, 6); PatternAt(data, PngSignature, 7);
    }
    if HasSignature(data, Jpeg) {
      PatternAt(data, JpegSignature, 0); PatternAt(data, JpegSignature, 1); PatternAt(data, JpegSignature, 2);
    }
    if HasSignature(data, Webp) {
      PatternAt(data, WebpSignature, 0); PatternAt(data, WebpSignature, 1); PatternAt(data, WebpSignature, 2);
      PatternAt(data, WebpSignature, 3); PatternAt(data, WebpSignature, 4); PatternAt(data, WebpSignature, 5);
      PatternAt(data, WebpSignature, 6); PatternAt(data, WebpSignature, 7);
    }
    if HasSignature(data, Bmp) {
      PatternAt(data, BmpSignature, 0); PatternAt(data, BmpSignature, 1);
    }
    if HasSignature(data, Gif) {
      PatternAt(data, GifSignature, 0); PatternAt(data, GifSignature, 1);
      PatternAt(data, GifSignature, 2); PatternAt(data, GifSignature, 3);
    }
    if PatternMatches(data, TiffLittleEndian) {
      PatternAt(data, TiffLittleEndian, 0); PatternAt(data, TiffLittleEndian, 1);
      PatternAt(data, TiffLittleEndian, 2); PatternAt(data, TiffLittleEndian, 3);
    }
    if PatternMatches(data, TiffBigEndian) {
      PatternAt(data, TiffBigEndian, 0); PatternAt(data, TiffBigEndian, 1);
      PatternAt(data, TiffBigEndian, 2); PatternAt(data, TiffBigEndian, 3);
    }
  }

  /** The Swift sniffer returns what the Java sniffer returns on a byte array with the same bits. */
  lemma SameAsAndroid(data: seq<UInt8>)
    ensures DetectImageFormat(data) == AndroidImageUtils.DetectImageFormat(JavaBytes(data))
  {
    if 8 <= |data| {
      AllChecks(data);
      AndroidImageUtils.AllChecks(JavaBytes(data));
    }
  }

  /** ... and conversely, on every Java byte array. */
  lemma AndroidSameAsIos(data: seq<JByte>)
    ensures AndroidImageUtils.DetectImageFormat(data) == DetectImageFormat(AndroidImageUtils.UnsignedBytes(data))
  {
    if 8 <= |data| {
      AllChecks(AndroidImageUtils.UnsignedBytes(data));
      AndroidImageUtils.AllChecks(data);
    }
  }

  /** `detectImageFormat` names format `f` exactly when the data is at least 8 bytes and starts with one of `f`'s signatures. */
  lemma DetectMeansSignature(data: seq<UInt8>, f: ImageFormat)
    ensures DetectImageFormat(data) == Some(Name(f)) <==> 8 <= |data| && HasSignature(data, f)
  {
    SameAsAndroid(data);
    AndroidImageUtils.DetectMeansSignature(JavaBytes(data), f);
  }

  /** Both TIFF byte orders are recognised. */
  lemma TiffBothByteOrders(data: seq<UInt8>)
    requires 8 <= |data|
    requires (data[0] == 0x49 && data[1] == 0x49 && data[2] == 0x2A && data[3] == 0x00)
          || (data[0] == 0x4D && data[1] == 0x4D && data[2] == 0x00 && data[3] == 0x2A)
    ensures DetectImageFormat(data) == Some("tiff")
  {
  }

  /** Any data of at least 8 bytes starting FF D8 FF is JPEG. */
  lemma JpegFromPrefix(data: seq<UInt8>)
    requires 8 <= |data| && data[..3] == [0xFF, 0xD8, 0xFF]
    ensures DetectImageFormat(data) == Some("jpeg")
  {
    assert data[0] == 0xFF && data[1] == 0xD8 && data[2] == 0xFF;
  }

  /** The Swift and Java extension tables agree on every name. */
  lemma FileExtensionSameAsAndroid(format: string)
    ensures GetFileExtension(format) == AndroidImageUtils.GetFileExtension(Some(format))
  {
  }

  /** The clipboard accepts exactly the names (any case) that denote one of the six formats. */
  lemma ClipboardMeansFormatNamed(format: string)
    ensures IsFormatSupportedForClipboard(format) <==> FormatNamed(Lower(format)).Some?
  {
  }

  /** Every format the sniffer detects can go on the clipboard. */
  lemma DetectedIsSupportedForClipboard(data: seq<UInt8>)
    requires DetectImageFormat(data).Some?
    ensures IsFormatSupportedForClipboard(DetectImageFormat(data).value)
  {
    var f := DetectImageFormat(data).value;
    assert f in ["png", "jpeg", "webp", "bmp", "gif", "tiff"] by {
      if 8 <= |data| { AllChecks(data); }
    }
    LowerOfLowerCase(f);
  }
}
