/**
 * `extract_pdf_metadata`, `extract_docx_metadata` and `extract_audio_metadata`: each turns
 * its reader's outcome into a section, catching every exception into its own error field
 * and keeping what was set before the exception.
 */
module DocumentExtractors {
  import opened Wrappers
  import opened Strings
  import opened Libraries

  /** `num_pages` and `document_info`, or `pdf_error` after whatever was set before it. */
  datatype PdfInfo = PdfInfo(numPages: Option<nat>, documentInfo: Option<map<string, string>>, pdfError: Option<string>)

  /** The shape every PDF section has: an error exactly when the payload is incomplete, filled in order. */
  ghost predicate WellShaped(info: PdfInfo) {
    && (info.pdfError.None? <==> info.documentInfo.Some?)
    && (info.documentInfo.Some? ==> info.numPages.Some?)
  }

  function ExtractPdf(reader: Result<PdfParse, string>): (info: PdfInfo)
    ensures WellShaped(info)
    ensures info.pdfError.None? <==>
              reader.Success? && reader.value.pageCount.Success? && reader.value.metadata.Success?
    // the page count is kept when only the document-information dictionary raised
    ensures info.numPages.Some? <==> reader.Success? && reader.value.pageCount.Success?
    ensures info.numPages.Some? ==> info.numPages.value == reader.value.pageCount.value
    // `pdf_error` holds the text of the first exception raised
    ensures reader.Failure? ==> info.pdfError == Some(reader.error)
    ensures reader.Success? && reader.value.pageCount.Failure? ==> info.pdfError == Some(reader.value.pageCount.error)
    ensures reader.Success? && reader.value.pageCount.Success? && reader.value.metadata.Failure? ==>
              info.pdfError == Some(reader.value.metadata.error)
    // a missing dictionary reads as an empty one
    ensures info.documentInfo.Some? ==> info.documentInfo.value == reader.value.metadata.value.GetOr(map[])
  {
    match reader
    case Failure(e) => PdfInfo(None, None, Some(e))
    case Success(pdf) =>
      match pdf.pageCount
      case Failure(e) => PdfInfo(None, None, Some(e))
      case Success(n) =>
        match pdf.metadata
        case Failure(e) => PdfInfo(Some(n), None, Some(e))
        case Success(m) => PdfInfo(Some(n), Some(m.GetOr(map[])), None)
  }

  /** `author`, `title`, and the `str` of the two timestamps. */
  datatype DocxFields = DocxFields(author: Option<string>, title: Option<string>, created: string, modified: string)

  /** The word-processing section: the core properties or `docx_error`. */
  datatype DocxInfo = DocxInfo(fields: Option<DocxFields>, docxError: Option<string>)

  function ExtractDocx(read: Result<CoreProps, string>): (info: DocxInfo)
    ensures info.fields.Some? <==> info.docxError.None?
    ensures info.docxError.Some? <==> read.Failure?
    ensures read.Failure? ==> info.docxError.value == read.error
    // author and title pass through unchanged (None included); a missing timestamp reads "None"
    ensures read.Success? ==>
      var p, f := read.value, info.fields.value;
      f.author == p.author && f.title == p.title
      && (p.created.None? ==> f.created == "None") && (p.created.Some? ==> f.created == p.created.value)
      && (p.modified.None? ==> f.modified == "None") && (p.modified.Some? ==> f.modified == p.modified.value)
  {
    match read
    case Failure(e) => DocxInfo(None, Some(e))
    case Success(p) => DocxInfo(Some(DocxFields(p.author, p.title, Show(p.created), Show(p.modified))), None)
  }

  /** `tags` (a missing tag container reads as empty) and `length`. */
  datatype AudioFields = AudioFields(tags: map<string, string>, length: Option<real>)

  /** The audio section: empty when the reader's result is falsy, else the fields, or `audio_error`. */
  datatype AudioInfo = AudioInfo(fields: Option<AudioFields>, audioError: Option<string>)

  function ExtractAudio(read: Result<Option<AudioFile>, string>): (info: AudioInfo)
    ensures !(info.fields.Some? && info.audioError.Some?)
    ensures info.audioError.Some? <==> read.Failure?
    ensures read.Failure? ==> info.audioError.value == read.error
    // an unrecognised file is not an error: the section is simply empty
    ensures read == Success(None) ==> info == AudioInfo(None, None)
    ensures info.fields.Some? <==> read.Success? && read.value.Some?
    ensures info.fields.Some? ==>
      info.fields.value.tags == read.value.value.tags.GetOr(map[]) && info.fields.value.length == read.value.value.length
  {
    match read
    case Failure(e) => AudioInfo(None, Some(e))
    case Success(None) => AudioInfo(None, None)
    case Success(Some(a)) => AudioInfo(Some(AudioFields(a.tags.GetOr(map[]), a.length)), None)
  }
}
