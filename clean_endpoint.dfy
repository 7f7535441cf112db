/**
 * The `/api/clean` endpoint: rejects a request without a file or with a non-image type,
 * reports a strip failure, and otherwise returns the cleaned bytes as an attachment named
 * after the upload with `_cleaned` inserted before the extension.
 */
module CleanEndpoint {
  import opened Wrappers
  import opened Strings
  import opened Libraries
  import opened Paths
  import opened Stripper

  /** The uploaded file: its client-side name (None or empty when not given) and its bytes. */
  datatype Upload = Upload(filename: Option<string>, content: Bytes)

  /** A JSON `{"error": ...}` body with a status, or the file download. */
  datatype Response =
    | ErrorJson(status: nat, error: string)
    | SendFile(content: Bytes, mimetype: string, asAttachment: bool, downloadName: string)

  const NoFileMessage := "No file uploaded"
  const OnlyImagesMessage := "Only image cleaning supported"
  const DefaultName := "cleaned.jpg"
  const CleanedSuffix := "_cleaned"

  /** The extension used when the name has none: by the sniffed type, JPEG or else PNG. */
  function FallbackExtension(mime: string): string {
    if mime == "image/jpeg" then ".jpg" else ".png"
  }

  /** The name whose split is used: the upload's, or the default when missing or empty. */
  function BaseName(filename: Option<string>): string {
    OrElse(filename, DefaultName)
  }

  /** The extension of the download name: the split one, or the fallback when it is empty. */
  function DownloadExtension(filename: Option<string>, mime: string): string {
    var ext := SplitExt(BaseName(filename)).1;
    if ext == "" then FallbackExtension(mime) else ext
  }

  lemma CleanedSuffixIsStem(n: string)
    ensures HasStem(n + CleanedSuffix)
  {
    var m := n + CleanedSuffix;
    assert m[|m| - 1] == 'd';
  }

  lemma FallbackIsExtension(mime: string)
    ensures IsExtension(FallbackExtension(mime))
  {
  }

  /** `f"{name}_cleaned{ext}"` for `name, ext = os.path.splitext(base)`, ext defaulted. */
  function CleanedName(filename: Option<string>, mime: string): (r: string)
    // splitting the download name gives back the suffixed stem and an extension: it always has one
    ensures SplitExt(r) == (SplitExt(BaseName(filename)).0 + CleanedSuffix, DownloadExtension(filename, mime))
    ensures IsExtension(DownloadExtension(filename, mime))
    // with an extension, the suffix is inserted right before it
    ensures SplitExt(BaseName(filename)).1 != "" ==>
      var base, k := BaseName(filename), |SplitExt(BaseName(filename)).0|;
      k <= |base| && r == base[..k] + CleanedSuffix + base[k..]
    // without one, the suffix and the fallback extension are appended
    ensures SplitExt(BaseName(filename)).1 == "" ==> r == BaseName(filename) + CleanedSuffix + FallbackExtension(mime)
  {
    var base := BaseName(filename);
    var split := SplitExt(base);
    var ext := DownloadExtension(filename, mime);
    FallbackIsExtension(mime);
    CleanedSuffixIsStem(split.0);
    SplitExtUnique(split.0 + CleanedSuffix + ext, split.0 + CleanedSuffix, ext);
    assert split.1 != "" ==> base[..|split.0|] == split.0 && base[|split.0|..] == split.1;
    split.0 + CleanedSuffix + ext
  }

  /** `clean_file` over the libraries and the request's upload. */
  function CleanFile(lib: Libraries, upload: Option<Upload>): (r: Response)
    ensures upload.None? ==> r == ErrorJson(400, NoFileMessage)
    ensures upload.Some? && !("image/" <= lib.sniffMime(upload.value.content)) ==> r == ErrorJson(400, OnlyImagesMessage)
    ensures upload.Some? && "image/" <= lib.sniffMime(upload.value.content) ==>
      var stripped := StripImageMetadata(lib, upload.value.content);
      && (stripped.Failure? ==> r == ErrorJson(500, stripped.error))
      && (stripped.Success? ==> r.SendFile? && r.content == stripped.value)
    // a download is sent as an attachment labelled with the sniffed type, under the cleaned name
    ensures r.SendFile? ==>
      var mime := lib.sniffMime(upload.value.content);
      r.mimetype == mime && r.asAttachment && r.downloadName == CleanedName(upload.value.filename, mime)
  {
    match upload
    case None => ErrorJson(400, NoFileMessage)
    case Some(f) =>
      // `sniff_mime(...) or ""`: the sniffer returns a string, and an empty one stays empty
      var mime := lib.sniffMime(f.content);
      if !("image/" <= mime) then ErrorJson(400, OnlyImagesMessage)
      else
        match StripImageMetadata(lib, f.content)
        case Failure(e) => ErrorJson(500, e)
        case Success(cleaned) => SendFile(cleaned, mime, true, CleanedName(f.filename, mime))
  }

  /** The rejections happen before the image is opened: the codec cannot change them. */
  lemma RejectionsNeverStrip(l1: Libraries, l2: Libraries, upload: Option<Upload>)
    requires upload.Some? ==> l1.sniffMime(upload.value.content) == l2.sniffMime(upload.value.content)
    requires upload.Some? ==> !("image/" <= l1.sniffMime(upload.value.content))
    ensures CleanFile(l1, upload) == CleanFile(l2, upload)
    ensures CleanFile(l1, upload).ErrorJson? && CleanFile(l1, upload).status == 400
  {
  }

  /** The response is labelled with the sniffed type even when the stripper re-encoded to JPEG. */
  lemma ResponseKeepsSniffedType(lib: Libraries, bytes: Bytes, img: DecodedImage)
    requires lib.sniffMime(bytes) == "image/gif"
    requires lib.openImage(bytes) == Success(img) && img.format == Some("GIF")
    requires lib.saveImage(bytes, SaveRequestFor(img)).Success?
    ensures var r := CleanFile(lib, Some(Upload(Some("anim.gif"), bytes)));
      r.SendFile? && r.mimetype == "image/gif" && SaveRequestFor(img).format == Jpeg
  {
  }

  /** A missing or empty file name gives "cleaned_cleaned.jpg", whatever the image type. */
  lemma DefaultDownloadName(filename: Option<string>, mime: string)
    requires filename.None? || filename == Some("")
    ensures CleanedName(filename, mime) == "cleaned_cleaned.jpg"
  {
    var n, e := "cleaned", ".jpg";
    assert n + e == DefaultName;
    assert n[0] != '.' && n[0] != '/' && forall j :: 0 < j < |n| ==> n[j] != '/';
    SplitExtUnique(DefaultName, n, e);
    assert BaseName(filename) == DefaultName;
    assert DownloadExtension(filename, mime) == e;
    assert n + CleanedSuffix + e == "cleaned_cleaned.jpg";
  }

  /** A name of leading dots only has no extension, so the fallback for the type is appended. */
  lemma DotFileName()
    ensures CleanedName(Some(".bashrc"), "image/png") == ".bashrc_cleaned.png"
  {
  }

  /** A name without a dot gets the JPEG extension when the type is JPEG. */
  lemma NameWithoutExtension()
    ensures CleanedName(Some("photo"), "image/jpeg") == "photo_cleaned.jpg"
  {
  }
}
