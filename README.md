# metashield metadata pipeline, modelled in Dafny

A model of the decision layer of metashield, a service that reports the metadata of an
uploaded file and returns privacy-cleaned copies of images. The model covers:

- the MIME dispatch of `extract_metadata`: the first matching test among image prefix,
  exact PDF type, the word-processing marker and audio prefix picks exactly one report
  section, and an image report gets a summary;
- `extract_image_metadata`: defaulted camera, time and software fields, the three-flag
  presence report, the GPS field with its hemisphere sign convention, and the separate
  `image_error` / `exif_error` channels with what each stage keeps when the other fails;
- `_convert_to_degrees`, over exact reals;
- the error-field shape of the PDF, word-processing and audio extractors;
- the re-encode policy of `strip_image_metadata`;
- the `/api/clean` endpoint: its order of rejections, the strip-failure response, and the
  download name `name + "_cleaned" + ext` built from `os.path.splitext`.

Every foreign library (libmagic, PIL, exifread, PyPDF2, python-docx, mutagen) is a
function-valued field of `Libraries.Libraries`. All but the sniffer return either their
result or the text of the exception they raise (`Result`); the sniffer returns a string.
Everything else is pure functions and lemmas.

Modules, leaf first: `Wrappers` (Option, Result), `Strings` (Python truthiness, `or`,
`str(None)`, substring `in`, ASCII `upper`), `Paths` (`rfind` and POSIX `splitext`),
`Libraries` (the collaborator interface), `Degrees`, `ImageExtractor`,
`DocumentExtractors`, `Dispatcher`, `Stripper`, `CleanEndpoint`.

Behaviours of the code worth knowing, each stated as a lemma:

- A GPS coordinate that fails to convert does not always leave just a None in the
  report: under a hemisphere ref that asks for negation, the code negates None, which
  raises a TypeError; its text becomes `exif_error` and no `gps` field is set
  (`ImageExtractor.NegatingMissingCoordinateRaises`, `ImageExtractor.NegatingMissingLongitudeRaises`).
  Under "N"/"E" the None stays and `gps_data` is reported true with a None coordinate
  (`ImageExtractor.MissingCoordinateUnderPositiveRef`, `ImageExtractor.MissingLongitudeUnderPositiveRef`).
- `camera_info` is true when Make or Model is non-empty, even if the text is literally
  "Unknown", so the flag and the placeholder agree only in one direction
  (`ImageExtractor.PresenceMatchesPlaceholders`).
- The cleaned download is labelled with the sniffed MIME type, not the format it was
  re-encoded to: a GIF is sent as JPEG bytes under `image/gif`
  (`CleanEndpoint.ResponseKeepsSniffedType`).
- The default name `cleaned.jpg` already has an extension, so a missing file name gives
  `cleaned_cleaned.jpg` whatever the image type (`CleanEndpoint.DefaultDownloadName`).
- `sniff_mime` is declared to return a string, so the `or ""` of `clean_file` only maps
  the empty string to itself; the model takes the sniffed type as a string.

## Model

| member | source | states |
|---|---|---|
| `Strings.Contains` | metadata_extractor/app/extractor.py:139 | `t in s` holds exactly when `t` occurs in `s` at some index |
| `Strings.Upper` | metadata_extractor/app/extractor.py:156 | `upper()` keeps the length and upper-cases each character in place |
| `Paths.LastIndexOf` | metadata_extractor/app/main.py:46 | the `rfind` inside `splitext`: -1 or an index holding the character, with no later occurrence |
| `Paths.SplitExt` | metadata_extractor/app/main.py:46 | `name + ext` is the path; a non-empty ext is one dot then neither dots nor `/`, and the stem's last component is not all dots |
| `Paths.SplitExtUnique` | metadata_extractor/app/main.py:46 | any stem/extension split of a path is the one `splitext` returns |
| `Paths.SplitExtFindsExtension` | metadata_extractor/app/main.py:46 | `splitext` finds an extension iff some stem/extension split exists |
| `Degrees.ConvertToDegrees` | metadata_extractor/app/extractor.py:17-23 | defined iff the values are exactly three rationals with nonzero denominators, and then equal to d + m/60 + s/3600 |
| `Degrees.ConvertStaysWithinDegree` | metadata_extractor/app/extractor.py:20-21 | whole degrees, whole minutes below 60 and seconds in [0, 60) convert to a value within that degree |
| `Degrees.ConvertExample` | metadata_extractor/app/extractor.py:17-23 | 40/1, 26/1, 46/1 converts to 72803/1800 |
| `Degrees.ConvertRejectsZeroDenominator` | metadata_extractor/app/extractor.py:20-23 | a zero denominator anywhere yields None rather than an exception |
| `ImageExtractor.Printable` | metadata_extractor/app/extractor.py:41 | `raw_exif` has the parser's keys, each mapped to the tag's printable text |
| `ImageExtractor.Signed` | metadata_extractor/app/extractor.py:66-69 | a ref other than the positive one negates the coordinate, and negating None raises |
| `ImageExtractor.ExtractImage` | metadata_extractor/app/extractor.py:26-79 | image_error vs format/size/mode from the codec alone; a parser failure leaves exif_error and all-false flags; after a successful parse the camera fields are the derived ones and survive a GPS failure; flag conditions for camera, timestamp and GPS; GPS coordinates need all four tags |
| `ImageExtractor.StagesIndependent` | metadata_extractor/app/extractor.py:29-40 | the decode outcome does not change the EXIF-derived fields, and the tags do not change format/size/mode |
| `ImageExtractor.CameraDefaults` | metadata_extractor/app/extractor.py:41-51 | raw_exif is the printable tag map; make, model and time are the tag text when non-empty and "Unknown" when absent or empty; software is the tag text when present (even empty) and "Unknown" only when absent |
| `ImageExtractor.PresenceMatchesPlaceholders` | metadata_extractor/app/extractor.py:48-56 | a false camera or timestamp flag means its fields hold "Unknown"; a true camera flag means neither field is empty |
| `ImageExtractor.GpsSignConvention` | metadata_extractor/app/extractor.py:63-71 | with both conversions defined, gps_data is true and latitude/longitude are negated unless their refs are "N"/"E" |
| `ImageExtractor.NegatingMissingCoordinateRaises` | metadata_extractor/app/extractor.py:63-76 | a None latitude under a non-"N" ref ends in exif_error with no gps field, keeping camera fields, camera flag and format/size/mode |
| `ImageExtractor.MissingCoordinateUnderPositiveRef` | metadata_extractor/app/extractor.py:63-71 | a None latitude under "N" is stored as None with gps_data true |
| `ImageExtractor.NegatingMissingLongitudeRaises` | metadata_extractor/app/extractor.py:63-76 | with latitude converted, a None longitude under a non-"E" ref ends in exif_error with no gps field, keeping camera fields, timestamp flag and format/size/mode |
| `ImageExtractor.MissingLongitudeUnderPositiveRef` | metadata_extractor/app/extractor.py:63-71 | with latitude converted, a None longitude under "E" is stored as None with gps_data true |
| `ImageExtractor.GpsExample` | metadata_extractor/app/extractor.py:58-71 | 40 deg 26' 46" gives +72803/1800 under "N" and -72803/1800 under "S" |
| `DocumentExtractors.ExtractPdf` | metadata_extractor/app/extractor.py:82-90 | pdf_error iff some reader step raised, holding that exception's text; the page count is kept when only the info dictionary raised; a missing dictionary reads as empty |
| `DocumentExtractors.ExtractDocx` | metadata_extractor/app/extractor.py:93-104 | docx_error iff the reader raised, else author and title as read and the timestamps as text ("None" when missing) |
| `DocumentExtractors.ExtractAudio` | metadata_extractor/app/extractor.py:107-119 | audio_error iff the reader raised, holding its text; a falsy reader result (nothing recognised, or a file without tags) gives an empty section; else tags and length |
| `Dispatcher.Classify` | metadata_extractor/app/extractor.py:126-146 | the branch taken for each MIME type, by the first matching test in order; the PDF branch is taken exactly for "application/pdf" |
| `Dispatcher.Summarize` | metadata_extractor/app/extractor.py:129-134 | Camera is make + " " + model ("None None" when the EXIF stage failed), Taken On, Software and GPS copied from the image section |
| `Dispatcher.ExtractMetadata` | metadata_extractor/app/extractor.py:122-148 | the report carries the sniffed type and exactly the section of the branch `Classify` picks, holding that branch's extractor result; the note reads "File type not supported"; images get their summary |
| `Dispatcher.ReportDependsOnlyOnChosenBranch` | metadata_extractor/app/extractor.py:126-146 | readers of other branches cannot change a report |
| `Dispatcher.ApplicationTypesWithMarkerAreDocuments` | metadata_extractor/app/extractor.py:136-140 | every `application/` type containing "wordprocessingml" goes to the document extractor |
| `Dispatcher.MarkerBeatsAudioPrefix` | metadata_extractor/app/extractor.py:139-143 | every `audio/` type containing "wordprocessingml" goes to the document extractor, the marker test coming first |
| `Dispatcher.UnsupportedExamples` | metadata_extractor/app/extractor.py:145-146 | the empty type and "text/plain" give only the note |
| `Stripper.SaveRequestFor` | metadata_extractor/app/extractor.py:156-169 | info is cleared on every branch; PNG iff the upper-cased format (default JPEG) is "PNG", then no mode change; otherwise JPEG at quality 95 with optimize, the modes RGBA, LA and P converted to RGB |
| `Stripper.StripImageMetadata` | metadata_extractor/app/extractor.py:151-173 | an open or save failure becomes "Failed to strip metadata: " + its text; otherwise the encoder's bytes |
| `Stripper.StripFailuresSurface` | metadata_extractor/app/extractor.py:171-173 | the result is a failure iff opening or saving failed, always with the strip prefix |
| `Stripper.OtherFormatsFollowJpeg` | metadata_extractor/app/extractor.py:160-169 | any non-PNG format is handled exactly as JPEG |
| `Stripper.MissingFormatIsJpeg` | metadata_extractor/app/extractor.py:156 | a missing or empty format takes the JPEG path |
| `Stripper.LowerCasePngStaysPng` | metadata_extractor/app/extractor.py:156-165 | "png" takes the PNG path without mode change |
| `CleanEndpoint.CleanedName` | metadata_extractor/app/main.py:46-49 | splitting the download name gives the suffixed stem and the download extension, which is always an extension; `_cleaned` is inserted right before an existing extension, else suffix and fallback are appended |
| `CleanEndpoint.CleanFile` | metadata_extractor/app/main.py:31-56 | 400 "No file uploaded" without a file; 400 for a non-image type; 500 with the strip error; else the cleaned bytes as an attachment under the sniffed type and the cleaned name |
| `CleanEndpoint.RejectionsNeverStrip` | metadata_extractor/app/main.py:33-39 | a missing file or a non-image type is answered with 400 whatever the image codec does |
| `CleanEndpoint.ResponseKeepsSniffedType` | metadata_extractor/app/main.py:51-55 | a GIF re-encoded as JPEG is still sent as `image/gif` |
| `CleanEndpoint.DefaultDownloadName` | metadata_extractor/app/main.py:46 | a missing or empty name gives "cleaned_cleaned.jpg" |
| `CleanEndpoint.DotFileName` | metadata_extractor/app/main.py:46-49 | ".bashrc" has no extension, so a PNG gets ".bashrc_cleaned.png" |
| `CleanEndpoint.NameWithoutExtension` | metadata_extractor/app/main.py:46-49 | "photo" as JPEG gets "photo_cleaned.jpg" |

## Left out

- `sniff_mime` (metadata_extractor/app/extractor.py:11-14): a call into libmagic; the sniffed type is the `sniffMime` field of `Libraries`, a total function, so an exception raised by the sniffer is not modelled.
- What PIL, exifread, PyPDF2, python-docx and mutagen actually parse: their results are abstract inputs; `Tag.printable` stands for `str(tag)`, and the contents of `document_info`, `tags` and `length` are not interpreted.
- Exceptions from `str(...)` of a tag, and a failing `convert("RGB")` apart from saving: the former is not modelled, the latter is folded into the encoder's outcome.
- Every present EXIF tag is taken as truthy, which is how a tag object without a length behaves in the `if gps_lat and ...` test.
- The word-processing and audio readers are all-or-nothing: a failure between two of their field reads is not modelled.
- The audio extractor's temporary file (metadata_extractor/app/extractor.py:110-113): filesystem I/O; only its error channel is kept.
- Floating-point rounding: degrees are exact reals.
- Pixel equivalence and idempotence of stripping: they depend on the codecs, which are abstract here.
- `os.path.splitext` is modelled as on POSIX (separator `/`, no alternative separator).
- Strings.Upper: upper-cases ASCII letters only; Unicode case mapping of non-ASCII format names is not modelled.
- The Flask application, `home`, `extract_route`, routing, `render_template`, JSON rendering, `send_file` and the size limit (metadata_extractor/app/main.py:1-29, 59-60): transport plumbing; the second `Flask(...)` at main.py:12 discards the size limit set at line 11.
- metadata_extractor/app/check_exif.py: a debugging script with a fixed path that prints tags.
