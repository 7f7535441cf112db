/**
 * `strip_image_metadata`: reopens the image, drops its ancillary info, and re-encodes it by
 * a format policy; PNG stays PNG, every other format (JPEG included) becomes a JPEG after
 * converting the modes RGBA, LA and P to RGB. Any failure is raised, never swallowed.
 */
module Stripper {
  import opened Wrappers
  import opened Strings
  import opened Libraries

  const StripErrorPrefix := "Failed to strip metadata: "
  const JpegQuality: nat := 95

  /** The three modes converted to RGB before a JPEG save: RGBA, LA and P. */
  predicate NeedsRgb(mode: string) {
    mode in {"RGBA", "LA", "P"}
  }

  /** `(img.format or "JPEG").upper()`. */
  function SourceFormat(img: DecodedImage): string {
    Upper(OrElse(img.format, "JPEG"))
  }

  /** `cleaned.convert("RGB")` when the mode needs it, then a JPEG save at quality 95 with optimize. */
  function JpegRequest(cleaned: PreparedImage): SaveRequest {
    var converted := if NeedsRgb(cleaned.mode) then PreparedImage("RGB", cleaned.info) else cleaned;
    SaveRequest(converted, Jpeg, Some(JpegQuality), true)
  }

  /** The re-encode policy: what is handed to the encoder for an opened image. */
  function SaveRequestFor(img: DecodedImage): (req: SaveRequest)
    // `cleaned.info = {}` holds on every branch
    ensures req.image.info == map[]
    ensures req.format == Png <==> SourceFormat(img) == "PNG"
    ensures req.format == Png ==> req.image.mode == img.mode && req.quality.None? && req.optimize
    ensures req.format == Jpeg ==>
      req.quality == Some(95) && req.optimize && req.image.mode == (if NeedsRgb(img.mode) then "RGB" else img.mode)
    // so a JPEG is never asked to store RGBA, LA or P
    ensures req.format == Jpeg ==> !NeedsRgb(req.image.mode)
  {
    var fmt := SourceFormat(img);
    var cleaned := PreparedImage(img.mode, map[]);
    if fmt == "JPEG" then JpegRequest(cleaned)
    else if fmt == "PNG" then SaveRequest(cleaned, Png, None, true)
    else JpegRequest(cleaned)
  }

  /** Strips one buffer: open, apply the policy, save; either failure becomes a strip error. */
  function StripImageMetadata(lib: Libraries, bytes: Bytes): (r: Result<Bytes, string>)
    ensures lib.openImage(bytes).Failure? ==> r == Failure(StripErrorPrefix + lib.openImage(bytes).error)
    ensures lib.openImage(bytes).Success? ==>
      var saved := lib.saveImage(bytes, SaveRequestFor(lib.openImage(bytes).value));
      && (saved.Success? ==> r == Success(saved.value))
      && (saved.Failure? ==> r == Failure(StripErrorPrefix + saved.error))
  {
    match lib.openImage(bytes)
    case Failure(e) => Failure(StripErrorPrefix + e)
    case Success(img) =>
      match lib.saveImage(bytes, SaveRequestFor(img))
      case Failure(e) => Failure(StripErrorPrefix + e)
      case Success(out) => Success(out)
  }

  /** Every failure surfaces, and carries the strip error prefix. */
  lemma StripFailuresSurface(lib: Libraries, bytes: Bytes)
    ensures var r := StripImageMetadata(lib, bytes);
      r.Failure? <==> lib.openImage(bytes).Failure?
                      || lib.saveImage(bytes, SaveRequestFor(lib.openImage(bytes).value)).Failure?
    ensures var r := StripImageMetadata(lib, bytes); r.Failure? ==> StripErrorPrefix <= r.error
  {
  }

  /** Any format other than PNG is treated exactly as JPEG is. */
  lemma OtherFormatsFollowJpeg(img: DecodedImage)
    requires SourceFormat(img) != "PNG"
    ensures SaveRequestFor(img) == SaveRequestFor(img.(format := Some("JPEG")))
    ensures SaveRequestFor(img).format == Jpeg
  {
  }

  /** A missing or empty format reads as JPEG. */
  lemma MissingFormatIsJpeg(img: DecodedImage)
    requires img.format.None? || img.format == Some("")
    ensures SaveRequestFor(img) == JpegRequest(PreparedImage(img.mode, map[]))
  {
  }

  /** The format test is case-insensitive: "png" takes the PNG path. */
  lemma LowerCasePngStaysPng(img: DecodedImage)
    requires img.format == Some("png")
    ensures SaveRequestFor(img) == SaveRequest(PreparedImage(img.mode, map[]), Png, None, true)
  {
  }
}
