/**
 * The foreign libraries the pipeline calls (content sniffer, image codec, EXIF tag parser,
 * PDF reader, word-processing reader, audio tag reader), as abstract values: each is a
 * function of the uploaded bytes whose result is either what the library returns or the
 * text of the exception it raises.
 */
module Libraries {
  import opened Wrappers

  type Bytes = seq<bv8>

  /** An EXIF rational, numerator over denominator; the denominator may be zero. */
  datatype Rational = Rational(num: int, den: int)

  /** The `values` of a parsed tag: a list of rationals, a text value, or anything else. */
  datatype TagValues = Ratios(ratios: seq<Rational>) | Text(text: string) | Other

  /** A parsed tag: its printable rendering (`str(tag)`) and its raw values. */
  datatype Tag = Tag(printable: string, values: TagValues)

  /** The tag parser's result: tag name (e.g. "GPS GPSLatitude") to tag. */
  type ExifTags = map<string, Tag>

  /** What the image codec reports on opening a buffer: format, size, pixel mode, info dict. */
  datatype DecodedImage = DecodedImage(format: Option<string>, width: nat, height: nat, mode: string, info: map<string, string>)

  /** The two encoders the stripper uses. */
  datatype TargetFormat = Jpeg | Png

  /** The image handed to the encoder: its pixel mode and its ancillary info dict. */
  datatype PreparedImage = PreparedImage(mode: string, info: map<string, string>)

  /** One call of the encoder: what is saved, in which format, with which options. */
  datatype SaveRequest = SaveRequest(image: PreparedImage, format: TargetFormat, quality: Option<nat>, optimize: bool)

  /** The PDF reader: the page count and the document-information dictionary, each of which may raise. */
  datatype PdfParse = PdfParse(pageCount: Result<nat, string>, metadata: Result<Option<map<string, string>>, string>)

  /** The word-processing reader's core properties; `created`/`modified` are the `str` of a datetime or None. */
  datatype CoreProps = CoreProps(author: Option<string>, title: Option<string>, created: Option<string>, modified: Option<string>)

  /** A recognised audio file: its tag frames (or None) and its length in seconds if reported. */
  datatype AudioFile = AudioFile(tags: Option<map<string, string>>, length: Option<real>)

  datatype Libraries = Libraries(
    sniffMime: Bytes -> string,
    openImage: Bytes -> Result<DecodedImage, string>,
    /** Converts (if asked) and encodes the pixels of the given buffer. */
    saveImage: (Bytes, SaveRequest) -> Result<Bytes, string>,
    processExif: Bytes -> Result<ExifTags, string>,
    readPdf: Bytes -> Result<PdfParse, string>,
    readDocx: Bytes -> Result<CoreProps, string>,
    /** None stands for a falsy result of the audio reader: nothing recognised, or a file without tags. */
    readAudio: Bytes -> Result<Option<AudioFile>, string>)
}
