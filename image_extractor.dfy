/**
 * `extract_image_metadata`: basic properties from the image codec, then derived camera,
 * time, software and GPS fields from the EXIF tags, each stage with its own error field,
 * and a presence report of three flags.
 */
module ImageExtractor {
  import opened Wrappers
  import opened Strings
  import opened Libraries
  import opened Degrees

  const MakeTag := "Image Make"
  const ModelTag := "Image Model"
  const DateTimeOriginalTag := "EXIF DateTimeOriginal"
  const SoftwareTag := "Image Software"
  const LatitudeTag := "GPS GPSLatitude"
  const LatitudeRefTag := "GPS GPSLatitudeRef"
  const LongitudeTag := "GPS GPSLongitude"
  const LongitudeRefTag := "GPS GPSLongitudeRef"

  /** Placeholder for a derived field whose tag is missing. */
  const Unknown := "Unknown"
  /** The `gps` field when the four GPS tags are not all present. */
  const NoGpsMessage := "No GPS data found"
  /** The text of the TypeError raised by negating None. */
  const NegateNoneError := "bad operand type for unary -: 'NoneType'"

  /** `format`, `size` and `mode` of the opened image. */
  datatype BasicProps = BasicProps(format: Option<string>, size: (nat, nat), mode: string)

  /** `raw_exif` and the four derived fields, which are set together. */
  datatype CameraFields = CameraFields(rawExif: map<string, string>, cameraMake: string, cameraModel: string,
                                       datetimeOriginal: string, software: string)

  /** The `gps` field: a coordinate pair (either may be None), or the "No GPS data found" marker. */
  datatype GpsField = Coordinates(latitude: Option<real>, longitude: Option<real>) | NoGpsData

  datatype Presence = Presence(gpsData: bool, cameraInfo: bool, timestamp: bool)

  /**
   * The image section: `basic` is format/size/mode or `image_error`; `camera` and `gps`
   * are absent when the EXIF stage raised before setting them, and then `exifError` holds
   * the exception text; `presence` is always there.
   */
  datatype ImageInfo = ImageInfo(basic: Result<BasicProps, string>, camera: Option<CameraFields>,
                                 gps: Option<GpsField>, exifError: Option<string>, presence: Presence)

  /** `{str(k): str(v) for k, v in tags.items()}`. */
  function Printable(tags: ExifTags): (m: map<string, string>)
    ensures m.Keys == tags.Keys
    ensures forall k :: k in tags ==> m[k] == tags[k].printable
  {
    map k | k in tags :: tags[k].printable
  }

  /** `dict.get(k)`. */
  function Lookup(m: map<string, string>, k: string): Option<string> {
    if k in m then Some(m[k]) else None
  }

  /** `img.format`, `img.size`, `img.mode`, or the codec's exception as `image_error`. */
  function BasicProperties(decoded: Result<DecodedImage, string>): Result<BasicProps, string> {
    match decoded
    case Success(img) => Success(BasicProps(img.format, (img.width, img.height), img.mode))
    case Failure(e) => Failure(e)
  }

  /** `if ref.values != positive: coord = -coord`, where negating None raises. */
  function Signed(coord: Option<real>, ref: TagValues, positive: string): (r: Result<Option<real>, string>)
    ensures ref == Text(positive) ==> r == Success(coord)
    ensures ref != Text(positive) && coord.Some? ==> r == Success(Some(-coord.value))
    ensures ref != Text(positive) && coord.None? ==> r == Failure(NegateNoneError)
  {
    if ref == Text(positive) then Success(coord)
    else if coord.None? then Failure(NegateNoneError)
    else Success(Some(-coord.value))
  }

  predicate HasAllGpsTags(tags: ExifTags) {
    LatitudeTag in tags && LatitudeRefTag in tags && LongitudeTag in tags && LongitudeRefTag in tags
  }

  /** The GPS step: coordinates when all four tags are present, else the marker; may raise. */
  function DeriveGps(tags: ExifTags): Result<GpsField, string> {
    if HasAllGpsTags(tags) then
      var lat := ConvertToDegrees(tags[LatitudeTag].values);
      var lon := ConvertToDegrees(tags[LongitudeTag].values);
      match Signed(lat, tags[LatitudeRefTag].values, "N")
      case Failure(e) => Failure(e)
      case Success(lat') =>
        match Signed(lon, tags[LongitudeRefTag].values, "E")
        case Failure(e) => Failure(e)
        case Success(lon') => Success(Coordinates(lat', lon'))
    else
      Success(NoGpsData)
  }

  /** The camera fields with their defaults: a falsy make/model/time, or an absent software tag, reads "Unknown". */
  function DeriveCamera(exif: map<string, string>): CameraFields {
    CameraFields(exif, OrElse(Lookup(exif, MakeTag), Unknown), OrElse(Lookup(exif, ModelTag), Unknown),
                 OrElse(Lookup(exif, DateTimeOriginalTag), Unknown), Lookup(exif, SoftwareTag).GetOr(Unknown))
  }

  /** `extract_image_metadata` over the codec's and the tag parser's outcomes for one buffer. */
  function ExtractImage(decoded: Result<DecodedImage, string>, parsed: Result<ExifTags, string>): (info: ImageInfo)
    // the codec's outcome alone decides format/size/mode versus image_error
    ensures info.basic.Success? <==> decoded.Success?
    ensures decoded.Success? ==> info.basic.value.mode == decoded.value.mode && info.basic.value.format == decoded.value.format
                                 && info.basic.value.size == (decoded.value.width, decoded.value.height)
    ensures decoded.Failure? ==> info.basic.error == decoded.error
    // a parser failure leaves only exif_error and an all-false presence report
    ensures parsed.Failure? ==> info.camera.None? && info.gps.None? && info.exifError == Some(parsed.error)
                                && info.presence == Presence(false, false, false)
    // the camera fields survive any failure of the GPS step
    ensures info.camera.Some? <==> parsed.Success?
    ensures parsed.Success? ==> info.camera == Some(DeriveCamera(Printable(parsed.value)))
    ensures info.exifError.None? <==> info.gps.Some?
    // presence flags
    ensures info.presence.cameraInfo <==>
              parsed.Success? && (Truthy(Lookup(Printable(parsed.value), MakeTag)) || Truthy(Lookup(Printable(parsed.value), ModelTag)))
    ensures info.presence.timestamp <==>
              parsed.Success? && Truthy(Lookup(Printable(parsed.value), DateTimeOriginalTag))
    ensures info.presence.gpsData <==> info.gps.Some? && info.gps.value.Coordinates?
    ensures info.presence.gpsData ==> HasAllGpsTags(parsed.value)
    ensures parsed.Success? && !HasAllGpsTags(parsed.value) ==> info.gps == Some(NoGpsData) && info.exifError.None?
  {
    var basic := BasicProperties(decoded);
    match parsed
    case Failure(e) =>
      ImageInfo(basic, None, None, Some(e), Presence(false, false, false))
    case Success(tags) =>
      var exif := Printable(tags);
      var camera := DeriveCamera(exif);
      var cameraInfo := Truthy(Lookup(exif, MakeTag)) || Truthy(Lookup(exif, ModelTag));
      var timestamp := Truthy(Lookup(exif, DateTimeOriginalTag));
      match DeriveGps(tags)
      case Failure(e) =>
        ImageInfo(basic, Some(camera), None, Some(e), Presence(false, cameraInfo, timestamp))
      case Success(gps) =>
        ImageInfo(basic, Some(camera), Some(gps), None, Presence(gps.Coordinates?, cameraInfo, timestamp))
  }

  /** A decode failure does not stop tag derivation, and the tags do not touch format/size/mode. */
  lemma StagesIndependent(o1: Result<DecodedImage, string>, o2: Result<DecodedImage, string>,
                          p1: Result<ExifTags, string>, p2: Result<ExifTags, string>)
    ensures var a, b := ExtractImage(o1, p1), ExtractImage(o2, p1);
      a.camera == b.camera && a.gps == b.gps && a.exifError == b.exifError && a.presence == b.presence
    ensures ExtractImage(o1, p1).basic == ExtractImage(o1, p2).basic
  {
  }

  /** Defaults: make, model and time read "Unknown" when absent or empty; software only when absent. */
  lemma CameraDefaults(decoded: Result<DecodedImage, string>, tags: ExifTags)
    ensures var c := ExtractImage(decoded, Success(tags)).camera.value;
      && (MakeTag !in tags || tags[MakeTag].printable == "" ==> c.cameraMake == Unknown)
      && (MakeTag in tags && tags[MakeTag].printable != "" ==> c.cameraMake == tags[MakeTag].printable)
      && (ModelTag !in tags || tags[ModelTag].printable == "" ==> c.cameraModel == Unknown)
      && (ModelTag in tags && tags[ModelTag].printable != "" ==> c.cameraModel == tags[ModelTag].printable)
      && (DateTimeOriginalTag !in tags || tags[DateTimeOriginalTag].printable == "" ==> c.datetimeOriginal == Unknown)
      && (DateTimeOriginalTag in tags && tags[DateTimeOriginalTag].printable != "" ==>
            c.datetimeOriginal == tags[DateTimeOriginalTag].printable)
      && (SoftwareTag in tags ==> c.software == tags[SoftwareTag].printable)
      && (SoftwareTag !in tags ==> c.software == Unknown)
      && c.rawExif == Printable(tags)
  {
  }

  /** A flag left false means its derived fields hold the placeholder. */
  lemma PresenceMatchesPlaceholders(decoded: Result<DecodedImage, string>, tags: ExifTags)
    ensures var info := ExtractImage(decoded, Success(tags));
      && (!info.presence.cameraInfo ==> info.camera.value.cameraMake == Unknown && info.camera.value.cameraModel == Unknown)
      && (!info.presence.timestamp ==> info.camera.value.datetimeOriginal == Unknown)
      && (info.presence.cameraInfo ==> info.camera.value.cameraMake != "" && info.camera.value.cameraModel != "")
  {
  }

  /** With both conversions defined, latitude is negated unless its ref is "N", longitude unless it is "E". */
  lemma GpsSignConvention(decoded: Result<DecodedImage, string>, tags: ExifTags)
    requires HasAllGpsTags(tags)
    requires ConvertToDegrees(tags[LatitudeTag].values).Some? && ConvertToDegrees(tags[LongitudeTag].values).Some?
    ensures var info := ExtractImage(decoded, Success(tags));
      var lat := ConvertToDegrees(tags[LatitudeTag].values).value;
      var lon := ConvertToDegrees(tags[LongitudeTag].values).value;
      && info.presence.gpsData
      && info.exifError.None?
      && info.gps == Some(Coordinates(Some(if tags[LatitudeRefTag].values == Text("N") then lat else -lat),
                                      Some(if tags[LongitudeRefTag].values == Text("E") then lon else -lon)))
  {
  }

  /**
   * A coordinate that does not convert, under a ref that asks for negation, raises while
   * negating None: the error lands in exif_error, no gps field is set, and the camera
   * fields and the camera/timestamp flags already derived are kept.
   */
  lemma NegatingMissingCoordinateRaises(decoded: Result<DecodedImage, string>, tags: ExifTags)
    requires HasAllGpsTags(tags)
    requires ConvertToDegrees(tags[LatitudeTag].values).None? && tags[LatitudeRefTag].values != Text("N")
    ensures var info := ExtractImage(decoded, Success(tags));
      && info.exifError == Some(NegateNoneError)
      && info.gps.None? && !info.presence.gpsData
      && info.camera == Some(DeriveCamera(Printable(tags)))
      && info.presence.cameraInfo == (Truthy(Lookup(Printable(tags), MakeTag)) || Truthy(Lookup(Printable(tags), ModelTag)))
      && info.basic == BasicProperties(decoded)
  {
  }

  /** A coordinate that does not convert under the positive ref stays None, yet gps_data is reported true. */
  lemma MissingCoordinateUnderPositiveRef(decoded: Result<DecodedImage, string>, tags: ExifTags)
    requires HasAllGpsTags(tags)
    requires ConvertToDegrees(tags[LatitudeTag].values).None? && tags[LatitudeRefTag].values == Text("N")
    requires ConvertToDegrees(tags[LongitudeTag].values).Some?
    ensures var info := ExtractImage(decoded, Success(tags));
      info.presence.gpsData && info.gps.Some? && info.gps.value.latitude.None?
  {
  }

  /**
   * The same for longitude: with latitude converted, a longitude that does not convert
   * under a ref other than "E" raises while negating None, after the latitude step.
   */
  lemma NegatingMissingLongitudeRaises(decoded: Result<DecodedImage, string>, tags: ExifTags)
    requires HasAllGpsTags(tags)
    requires ConvertToDegrees(tags[LatitudeTag].values).Some?
    requires ConvertToDegrees(tags[LongitudeTag].values).None? && tags[LongitudeRefTag].values != Text("E")
    ensures var info := ExtractImage(decoded, Success(tags));
      && info.exifError == Some(NegateNoneError)
      && info.gps.None? && !info.presence.gpsData
      && info.camera == Some(DeriveCamera(Printable(tags)))
      && info.presence.timestamp == Truthy(Lookup(Printable(tags), DateTimeOriginalTag))
      && info.basic == BasicProperties(decoded)
  {
  }

  /** A longitude that does not convert under "E" stays None, yet gps_data is reported true. */
  lemma MissingLongitudeUnderPositiveRef(decoded: Result<DecodedImage, string>, tags: ExifTags)
    requires HasAllGpsTags(tags)
    requires ConvertToDegrees(tags[LatitudeTag].values).Some?
    requires ConvertToDegrees(tags[LongitudeTag].values).None? && tags[LongitudeRefTag].values == Text("E")
    ensures var info := ExtractImage(decoded, Success(tags));
      info.presence.gpsData && info.gps.Some? && info.gps.value.longitude.None?
  {
  }

  /** 40 deg 26 min 46 sec under "N" is +72803/1800 degrees, under "S" it is -72803/1800. */
  lemma GpsExample(decoded: Result<DecodedImage, string>, north: bool)
    ensures var dms := Ratios([Rational(40, 1), Rational(26, 1), Rational(46, 1)]);
      var tags := map[LatitudeTag := Tag("[40, 26, 46]", dms), LatitudeRefTag := Tag(if north then "N" else "S", Text(if north then "N" else "S")),
                       LongitudeTag := Tag("[40, 26, 46]", dms), LongitudeRefTag := Tag("E", Text("E"))];
      ExtractImage(decoded, Success(tags)).gps
        == Some(Coordinates(Some(if north then 72803.0 / 1800.0 else -72803.0 / 1800.0), Some(72803.0 / 1800.0)))
  {
  }
}
