/**
 * `extract_metadata`: sniffs the MIME type of the buffer once, routes it to exactly one
 * extractor by the first test that matches, and adds a summary for images.
 */
module Dispatcher {
  import opened Wrappers
  import opened Strings
  import opened Libraries
  import opened ImageExtractor
  import opened DocumentExtractors

  const UnsupportedNote := "File type not supported"

  /** The five branches of the dispatch, in the order they are tried. */
  datatype Kind = ImageKind | PdfKind | DocxKind | AudioKind | UnsupportedKind

  function Classify(mime: string): (k: Kind)
    ensures k == ImageKind <==> "image/" <= mime
    // "application/pdf" is never shadowed by the image test
    ensures k == PdfKind <==> mime == "application/pdf"
    ensures k == DocxKind <==> !("image/" <= mime) && mime != "application/pdf" && Contains(mime, "wordprocessingml")
    ensures k == AudioKind <==>
              !("image/" <= mime) && !Contains(mime, "wordprocessingml") && "audio/" <= mime
    ensures k == UnsupportedKind <==>
              !("image/" <= mime) && mime != "application/pdf" && !Contains(mime, "wordprocessingml") && !("audio/" <= mime)
  {
    assert !("image/" <= "application/pdf") && !("audio/" <= "application/pdf") by {
      assert "application/pdf"[0] != "image/"[0] && "application/pdf"[1] != "audio/"[1];
    }
    if "image/" <= mime then ImageKind
    else if mime == "application/pdf" then PdfKind
    else if Contains(mime, "wordprocessingml") then DocxKind
    else if "audio/" <= mime then AudioKind
    else UnsupportedKind
  }

  /** The condensed view of an image: `Camera`, `Taken On`, `Software`, `GPS`. */
  datatype Summary = Summary(camera: string, takenOn: Option<string>, software: Option<string>, gps: Option<GpsField>)

  /** Exactly one section per report: each variant is one of the report's alternative keys. */
  datatype Section =
    | Image(image: ImageInfo, summary: Summary)
    | Pdf(pdf: PdfInfo)
    | Docx(docx: DocxInfo)
    | Audio(audio: AudioInfo)
    | Note(note: string)

  datatype MetadataReport = MetadataReport(mime: string, section: Section)

  /** The summary reads the image section with `dict.get`, so a field the EXIF stage never set reads as None. */
  function Summarize(info: ImageInfo): (s: Summary)
    ensures info.camera.Some? ==>
      s.camera == info.camera.value.cameraMake + " " + info.camera.value.cameraModel
      && s.takenOn == Some(info.camera.value.datetimeOriginal) && s.software == Some(info.camera.value.software)
    ensures info.camera.None? ==> s.camera == "None None" && s.takenOn.None? && s.software.None?
    ensures s.gps == info.gps
  {
    var make := if info.camera.Some? then Some(info.camera.value.cameraMake) else None;
    var model := if info.camera.Some? then Some(info.camera.value.cameraModel) else None;
    Summary(Show(make) + " " + Show(model),
            if info.camera.Some? then Some(info.camera.value.datetimeOriginal) else None,
            if info.camera.Some? then Some(info.camera.value.software) else None,
            info.gps)
  }

  function SectionKind(s: Section): Kind {
    match s
    case Image(_, _) => ImageKind
    case Pdf(_) => PdfKind
    case Docx(_) => DocxKind
    case Audio(_) => AudioKind
    case Note(_) => UnsupportedKind
  }

  function ExtractMetadata(lib: Libraries, bytes: Bytes): (r: MetadataReport)
    ensures r.mime == lib.sniffMime(bytes)
    ensures SectionKind(r.section) == Classify(r.mime)
    ensures r.section.Note? ==> r.section.note == UnsupportedNote
    ensures r.section.Image? ==>
      r.section.image == ExtractImage(lib.openImage(bytes), lib.processExif(bytes))
      && r.section.summary == Summarize(r.section.image)
    ensures r.section.Pdf? ==> r.section.pdf == ExtractPdf(lib.readPdf(bytes))
    ensures r.section.Docx? ==> r.section.docx == ExtractDocx(lib.readDocx(bytes))
    ensures r.section.Audio? ==> r.section.audio == ExtractAudio(lib.readAudio(bytes))
  {
    var mime := lib.sniffMime(bytes);
    var section :=
      match Classify(mime)
      case ImageKind =>
        var info := ExtractImage(lib.openImage(bytes), lib.processExif(bytes));
        Image(info, Summarize(info))
      case PdfKind => Pdf(ExtractPdf(lib.readPdf(bytes)))
      case DocxKind => Docx(ExtractDocx(lib.readDocx(bytes)))
      case AudioKind => Audio(ExtractAudio(lib.readAudio(bytes)))
      case UnsupportedKind => Note(UnsupportedNote);
    MetadataReport(mime, section)
  }

  /** The libraries agree on what the branch chosen for `mime` would consult. */
  predicate AgreeOnBranch(l1: Libraries, l2: Libraries, bytes: Bytes, mime: string) {
    match Classify(mime)
    case ImageKind => l1.openImage(bytes) == l2.openImage(bytes) && l1.processExif(bytes) == l2.processExif(bytes)
    case PdfKind => l1.readPdf(bytes) == l2.readPdf(bytes)
    case DocxKind => l1.readDocx(bytes) == l2.readDocx(bytes)
    case AudioKind => l1.readAudio(bytes) == l2.readAudio(bytes)
    case UnsupportedKind => true
  }

  /** No other extractor can affect a report: it depends only on the sniffer and the chosen branch's reader. */
  lemma ReportDependsOnlyOnChosenBranch(l1: Libraries, l2: Libraries, bytes: Bytes)
    requires l1.sniffMime(bytes) == l2.sniffMime(bytes)
    requires AgreeOnBranch(l1, l2, bytes, l1.sniffMime(bytes))
    ensures ExtractMetadata(l1, bytes) == ExtractMetadata(l2, bytes)
  {
  }

  /** Every `application/` type carrying the marker is routed to the document extractor. */
  lemma ApplicationTypesWithMarkerAreDocuments(a: string, b: string)
    ensures Classify("application/" + a + "wordprocessingml" + b) == DocxKind
  {
    var mime := "application/" + a + "wordprocessingml" + b;
    ContainsSpliced("application/" + a, "wordprocessingml", b);
    assert mime[0] == "application/"[0] != "image/"[0];
    assert |mime| != |"application/pdf"|;
  }

  /** The marker test comes before the audio test, so every audio type carrying the marker is a document. */
  lemma MarkerBeatsAudioPrefix(a: string, b: string)
    ensures Classify("audio/" + a + "wordprocessingml" + b) == DocxKind
  {
    var mime := "audio/" + a + "wordprocessingml" + b;
    ContainsSpliced("audio/" + a, "wordprocessingml", b);
    assert mime[0] == "audio/"[0] != "image/"[0];
    assert mime[1] == "audio/"[1] != "application/pdf"[1];
  }

  /** Anything else, the empty type included, gets only the note. */
  lemma UnsupportedExamples(lib: Libraries, bytes: Bytes)
    requires lib.sniffMime(bytes) in {"", "text/plain"}
    ensures ExtractMetadata(lib, bytes) == MetadataReport(lib.sniffMime(bytes), Note(UnsupportedNote))
  {
    var mime := lib.sniffMime(bytes);
    assert mime != "" ==> mime[0] != "image/"[0] && mime[0] != "audio/"[0];
  }
}
