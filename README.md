# Static DICOMweb storage core, modelled in Dafny

This project models the storage core of a static DICOMweb server. Two parts are covered.

**The `DicomHandler`.** It owns a directory tree under a root directory. When an instance is uploaded, it lays the instance out as the Static DICOMweb file structure:

- a study / series / instance hierarchy of directories;
- gzip-compressed JSON metadata documents;
- the raw pixel data;
- the first frame;
- JPEG thumbnails at the study, series and instance levels;
- a rendered frame;
- bulk data files;
- a notification;
- a study index and a series index.

The handler also reads these artifacts back.

**The `DicomWebServer`.** It sits in front of the handler and turns each read or store into an HTTP answer.

## How the model is built

**The tree.** The tree is a value, `Store.Tree`:

- a map from each file's path to the artifact it holds;
- the set of directories.

The handler's read accessors are functions on that value. Creating a directory is `Mkdir`, which adds all its ancestors, as `parents=True` does. The instance directory cannot be created when a file stands at it or at one of its ancestors (`Tree.Blocked`); the store then raises the error of `mkdir`. Writing a file is `Write`. Paths are lists of components. Joining an empty name or "." adds no component, as `pathlib` does. Listings come back in lexical order.

**The handler.** `Handler.DicomHandler` is a class whose `tree` field its methods update step by step, in the order of the source. Each method is proved to leave the tree exactly as a function of the `Ingest` module describes:

- `Ingest.StoreDicom` is `store_dicom` written as stages:
  - identification;
  - creating the instance directory;
  - the instance metadata;
  - the pixel stage;
  - bulk data;
  - the notification;
  - the study index;
  - the series files.

**The proofs.** `IngestFacts` and `IngestProperties` prove what a store does:

- what it refuses and why it fails;
- that it keeps the store valid;
- what reads back afterwards;
- which files it touches;
- that storing the same upload again changes nothing.

`Server` gives each route's answer as a value `Response`: a success, an HTTP error with status and detail, or an exception that escapes the route. The listing routes run their loop in a method. That loop is proved equal to a recursive reference definition, and the reference definition is proved sound, complete and sorted.

**Inputs.** Parsing the uploaded bytes is an input (`Dicom.Parse`), so the model starts from the parsed dataset or the parser's failure. The decoded pixel array is part of the dataset: an integer array, or the failure to decode it.

**Images.** A file that holds an image keeps the array the image was encoded from.

## Model

| member | source | states |
|---|---|---|
| Handler.Init | static_dicomweb/dicom_handler.py:18-39 | opening a root adds the four base directories, keeps every file, and writes `[]` as the study list only when nothing is at its path |
| Handler.InitEmptyIsValid | static_dicomweb/dicom_handler.py:30-39 | a fresh root becomes a valid store |
| Handler.InitMakesValid | static_dicomweb/dicom_handler.py:30-39 | a root whose files fit their names and whose study list is `[]` or absent becomes a valid store |
| Handler.InitKeepsValidStore | static_dicomweb/dicom_handler.py:30-39 | opening a valid store again leaves it unchanged |
| Handler.InitIdempotent | static_dicomweb/dicom_handler.py:30-39 | opening a root twice is the same as opening it once |
| Handler.DicomHandler.constructor | static_dicomweb/dicom_handler.py:18-39 | the directory-creating loop and the study-list check leave the tree equal to `Init` of the tree found under the root |
| Handler.DicomHandler.GenerateThumbnail | static_dicomweb/dicom_handler.py:66-121 | creates the thumbnail's directory, then writes the thumbnail of `ThumbnailImage(a)` (the corrected normalisation of Findings) at the deepest level named |
| Handler.DicomHandler.UpdateStudiesIndex | static_dicomweb/dicom_handler.py:123-151 | the study directory is created; a missing index is created with the study UID; an existing object is merged with the incoming elements; a list raises AttributeError; read errors escape |
| Handler.DicomHandler.StoreBulkData | static_dicomweb/dicom_handler.py:279-286 | the loop writes one file per bulk attribute holding a non-empty byte string, in listing order, and nothing else |
| Handler.DicomHandler.StoreDicom | static_dicomweb/dicom_handler.py:153-324 | the stepwise store leaves the tree and the result exactly as `Ingest.StoreDicom` describes, including the `mkdir` error at 177 with nothing written; the study-thumbnail fallback at 274-277 is proved unreachable |
| Ingest.Identify | static_dicomweb/dicom_handler.py:165-173 | succeeds iff the upload parses and carries all three UIDs, giving `str` of each; every failure is a ValueError starting "Invalid DICOM data: " |
| Ingest.BulkNames | static_dicomweb/dicom_handler.py:280 | exactly the attributes ending in "Data" other than PixelData, sorted and without repeats |
| IngestFacts.UpdateStudiesIndexLayer | static_dicomweb/dicom_handler.py:123-151 | the index update succeeds iff the index is missing or holds an object; it then only adds the study directory and the merged index; a top-level list raises AttributeError |
| IngestFacts.StoreLayers | static_dicomweb/dicom_handler.py:176-318 | a store that creates the instance directory and gets past extraction is the file layer, then the study index layer, then the series layer; it succeeds iff the study index is updatable, and otherwise stops after creating the study directory |
| IngestProperties.StoreRejectsInvalid | static_dicomweb/dicom_handler.py:165-173 | an unparsable upload, or one lacking a UID, is refused with "Invalid DICOM data: …" and the tree is untouched |
| IngestProperties.StoreKeepsValid | static_dicomweb/dicom_handler.py:153-324 | every store, successful or not, keeps a valid store valid |
| IngestProperties.StoreOutcome | static_dicomweb/dicom_handler.py:153-324 | on a valid store an identified upload is stored iff the instance directory can be created, extraction succeeds, PixelData is bytes and the study UID names a directory; each failure's exception is given, and a failed `mkdir` leaves the tree untouched |
| IngestProperties.StudyNamedLikeIndexRefused | static_dicomweb/dicom_handler.py:176-177 | a study UID equal to "index.json.gz" makes the instance `mkdir` raise NotADirectoryError, and nothing is written |
| IngestProperties.StoreLeavesInstanceOpen | static_dicomweb/dicom_handler.py:176-318 | no file a successful store writes is its instance directory or an ancestor of it, so the same upload can create the directory again |
| IngestProperties.StoreReadsBack | static_dicomweb/dicom_handler.py:176-318 | after a store, the instance metadata reads back with the UIDs written over it; the series metadata, series index, merged study index and pending notification are in place |
| IngestProperties.StorePixelsReadBack | static_dicomweb/dicom_handler.py:186-266 | after a store with pixel data, the raw bytes, frame 1 and the thumbnails at all three levels read back from the decoded array (or the gray stand-in), and the rendered frame exists |
| IngestProperties.StoreBulkReadsBack | static_dicomweb/dicom_handler.py:279-286 | every bulk attribute holding non-empty bytes is stored in its own file under the study |
| IngestProperties.StoreFootprint | static_dicomweb/dicom_handler.py:153-324 | a successful store adds exactly the files and directories of its stages; every other file keeps its content |
| IngestProperties.StoreAgainChangesNothing | static_dicomweb/dicom_handler.py:153-324 | storing the same upload again succeeds and leaves the tree exactly as it was |
| IngestProperties.MergeAgain | static_dicomweb/dicom_handler.py:138-142 | merging the same study elements into the study index twice is the same as merging them once |
| IngestProperties.StoredIsListed | static_dicomweb/dicom_handler.py:372-418 | after a store with identifiers that name directories, the study, the series and the instance are all listed |
| IngestProperties.ListedWhenMade | static_dicomweb/dicom_handler.py:372-418 | a tree holding an instance directory lists its study, series and instance |
| Paths.Child | static_dicomweb/dicom_handler.py:41-51 | joining a name adds one component exactly when the name is neither empty nor "." |
| Paths.InstanceLayout | static_dicomweb/dicom_handler.py:41-55 | an instance lives at `studies/{study}/series/{series}/instances/{instance}` and frame n at `…/frames/{n}.gz` |
| Paths.ThumbnailLevels | static_dicomweb/dicom_handler.py:57-64 | the thumbnail sits in the instance, series or study directory, whichever is the deepest level named |
| Paths.InstancePathInjective | static_dicomweb/dicom_handler.py:49-51 | distinct identifier triples give distinct instance directories |
| Paths.FrameNameInjective | static_dicomweb/dicom_handler.py:53-55 | distinct frame numbers give distinct frame files |
| Paths.StudyIndexCollapses | static_dicomweb/dicom_handler.py:41-43 | a study's index coincides with the top-level study list exactly when the study UID names no component |
| Paths.NamesDistinct | static_dicomweb/dicom_handler.py:36-318 | the fixed file names differ from each other and from `1.gz`; only the documents and frames are `.gz` |
| Pixels.SelectSlice | static_dicomweb/dicom_handler.py:78-93 | arrays of rank at most 2, and colour images (rank 3 with three channels), are used whole; rank above 4 gives the gray stand-in; None, where indexing raises, exactly when a rank-3 array has no planes or a rank-4 array has no frames or no channels |
| Pixels.Gray64 | static_dicomweb/dicom_handler.py:91 | the stand-in is a 64 x 64 unsigned-byte image of 128s |
| Pixels.Normalise | static_dicomweb/dicom_handler.py:95-100 | defined iff the image has samples; gives an unsigned-byte image of the same shape |
| Pixels.NormaliseSpansFullRange | static_dicomweb/dicom_handler.py:95-100 | normalisation keeps the order of samples and maps min to 0 and max to 255; a constant image becomes all zeros |
| Pixels.NormaliseAsWritten | static_dicomweb/dicom_handler.py:96-98 | the source's arithmetic in the array's own element type: defined iff there are samples; unsigned bytes of the same shape |
| Pixels.WrapAroundLosesBrightSample | static_dicomweb/dicom_handler.py:96-98 | on a uint16 image [0, 65535] the source's arithmetic gives [0, 0], while the intended result is [0, 255] |
| Pixels.ByteImageLosesBrightSample | static_dicomweb/dicom_handler.py:96-98 | a uint8 image holding 0 and 255 comes out [0, 0] as written and [0, 255] with the exact scaling |
| Pixels.AsWrittenAgreesWithoutWrap | static_dicomweb/dicom_handler.py:96-98 | for unsigned images whose range times 255 fits the element type, the source's arithmetic equals the exact normalisation |
| Pixels.ThumbnailImage | static_dicomweb/dicom_handler.py:76-110 | the image the model encodes, with the corrected normalisation of Findings, is an unsigned-byte image of rank at least 1 with samples in 0..255; the gray stand-in itself when indexing raises, when the chosen image has no samples (so `min()` raises) and when it has rank 0 |
| Pixels.ThumbnailAsWritten | static_dicomweb/dicom_handler.py:76-110 | the image encoded with the source's own arithmetic: the gray stand-in when no plane is chosen, otherwise an unsigned-byte image of the chosen plane's shape |
| Pixels.ThumbnailAgreesWithoutWrap | static_dicomweb/dicom_handler.py:92-100 | when the chosen plane is unsigned and its range times 255 fits its element type, the source's thumbnail equals the model's |
| Pixels.TestImageThumbnailsDiffer | static_dicomweb/dicom_handler.py:96-98 | on the uint16 test image [0, 65535] the source's thumbnail is [0, 0] and the model's is [0, 255] |
| Pixels.StandInThumbnailIsBlack | static_dicomweb/dicom_handler.py:89-110 | arrays of rank above 4, and the gray stand-in, give an all-black 64 x 64 thumbnail |
| Pixels.ThumbnailOfColour | static_dicomweb/dicom_handler.py:82-83 | a colour image keeps its shape in the model's thumbnail, and every channel is scaled exactly (the corrected normalisation of Findings) by the one minimum and maximum of the whole array |
| Pixels.ThumbnailOfPlane | static_dicomweb/dicom_handler.py:92-100 | a 2-D image keeps its shape; each sample of the model's thumbnail is the source sample scaled exactly by the image's range |
| Pixels.ThumbnailOfVolume | static_dicomweb/dicom_handler.py:81-85 | a stack of planes gives its middle plane along the last axis, scaled exactly by that plane's range |
| Pixels.ThumbnailOfFrames | static_dicomweb/dicom_handler.py:87-88 | a rank-4 array gives channel 0 of its middle frame, scaled exactly by that plane's range |
| Pixels.Uint16Bytes | static_dicomweb/dicom_handler.py:490-492 | the frame bytes are two per sample |
| Pixels.Uint16BytesRoundTrip | static_dicomweb/dicom_handler.py:490-492 | reading the bytes back as little-endian uint16 gives every sample modulo 2^16 |
| Dicom.AttrText | static_dicomweb/dicom_handler.py:335-336 | `str` of a text attribute is the text, and `int` of `str` of an integer gives the integer back |
| Dicom.AttrInt | static_dicomweb/dicom_handler.py:338-339 | `int` of an integer is itself; of a text it succeeds iff `int()` reads the text as a literal, with the text's value; a failure on text is the ValueError whose message is the text's repr cut to 200 characters, and on bytes the repr of the first 200 bytes cut the same way |
| Text.StrRepr | static_dicomweb/dicom_handler.py:338-339 | the repr `int()` quotes in its message is at least two characters longer than the text, in double quotes exactly when the text holds a single quote and no double quote |
| Text.PlainTextRepr | static_dicomweb/dicom_handler.py:338-339 | text without quote, backslash or control character is quoted as it is between single quotes |
| Text.ApostropheSwitchesQuotes | static_dicomweb/dicom_handler.py:338-339 | `repr("it's")` is `"it's"` |
| Text.LineBreakEscaped | static_dicomweb/dicom_handler.py:338-339 | `repr("a\nb")` writes the line break as a backslash and `n` |
| Text.TextIntError | static_dicomweb/dicom_handler.py:338-339 | the message never exceeds the prefix and 200 characters, and text of 198 characters or more fills all 200 |
| Text.PlainTextError | static_dicomweb/dicom_handler.py:338-339 | a short plain text appears in the message as it is, between single quotes |
| Text.BytesIntError | static_dicomweb/dicom_handler.py:338-339 | the message never exceeds the prefix and 200 characters, and bytes past the 200th do not change it |
| Text.TextToInt | static_dicomweb/dicom_handler.py:338-339 | `int()` of ASCII text is the ASCII parse, and a number needs at least one decimal digit of some script |
| Text.DigitValue | static_dicomweb/dicom_handler.py:338-339 | a code point read as a digit beyond ASCII lies in a run of ten decimal digits, and its value, below 10, is its distance from the run's zero |
| Text.ArabicIndicDigitParses | static_dicomweb/dicom_handler.py:338-339 | `int('\u0661') == 1` |
| Text.NoBreakSpaceSkipped | static_dicomweb/dicom_handler.py:338-339 | `int('\u00a05') == 5` |
| Text.FullwidthDigitsParse | static_dicomweb/dicom_handler.py:338-339 | `int('\uff11\uff12') == 12` |
| Text.OtherCharacterRefused | static_dicomweb/dicom_handler.py:338-339 | a character beyond ASCII that is neither white space nor a decimal digit makes `int()` raise, wherever it stands |
| Text.ParseIntRefuses | static_dicomweb/dicom_handler.py:338-339 | an ASCII character other than a digit, an underscore, a sign or white space makes `int()` raise, wherever it stands |
| Dicom.GetText | static_dicomweb/dicom_handler.py:335-336 | a missing attribute gives the default |
| Dicom.GetInt | static_dicomweb/dicom_handler.py:338-339 | a missing attribute gives 0 |
| Dicom.TagKeyInjective | static_dicomweb/dicom_handler.py:342-368 | distinct tags have distinct eight-digit keys, so keying documents by tag loses nothing |
| Dicom.ExtractMetadataSpec | static_dicomweb/dicom_handler.py:326-370 | extraction fails iff an integer row fails, with the first failing row's error; otherwise the document has the table's 25 tags, VRs and values |
| Dicom.TableFacts | static_dicomweb/dicom_handler.py:342-368 | 25 distinct tags; the integer rows are the six US image-geometry attributes; SeriesNumber and InstanceNumber are read as text |
| Dicom.ExtractEmpty | static_dicomweb/dicom_handler.py:335-368 | a dataset without attributes gives "" for every text row and 0 for every integer row |
| Dicom.ExtractedSummaryTexts | static_dicomweb/dicom_handler.py:342-350 | a successful extraction records the texts of StudyDate, StudyDescription, SeriesNumber and SeriesDescription, "" when missing |
| Dicom.ExtractBadRows | static_dicomweb/dicom_handler.py:338-339 | a non-numeric Rows text ends extraction with the ValueError of `int()`, whose message is the text's repr cut to 200 characters |
| Store.Overlay | static_dicomweb/dicom_handler.py:462-467 | the three UID tags are set to the requested identifiers; every other element is kept |
| Store.Tree.ReadFile | static_dicomweb/dicom_handler.py:456-460 | reading succeeds iff a file is at the path; a missing path raises FileNotFoundError with the given message |
| Store.Tree.ListDir | static_dicomweb/dicom_handler.py:379 | the directory listing succeeds iff the path is a directory, and gives exactly its subdirectories, sorted |
| Store.Tree.GetStudies | static_dicomweb/dicom_handler.py:372-379 | succeeds iff `studies/` is a directory, then lists exactly its subdirectories |
| Store.Tree.GetSeries | static_dicomweb/dicom_handler.py:381-398 | empty when the study or its series directory is missing; raises iff that is a file; otherwise lists exactly the series directories |
| Store.Tree.GetInstances | static_dicomweb/dicom_handler.py:400-418 | empty when the series or its instances directory is missing; raises iff that is a file; otherwise lists exactly the instance directories |
| Store.Tree.GetMetadata | static_dicomweb/dicom_handler.py:441-468 | a missing file raises "Metadata not found for instance …"; a stored object reads back with the requested UIDs written over it |
| Store.Tree.GetSeriesMetadata | static_dicomweb/dicom_handler.py:516-534 | a missing file raises "Series metadata not found"; otherwise the stored document as it is |
| Store.Tree.GetFrameData | static_dicomweb/dicom_handler.py:470-492 | a missing frame raises "Frame n not found"; a stored frame reads back as its uint16 little-endian bytes |
| Store.Tree.GetPixelData | static_dicomweb/dicom_handler.py:494-514 | a missing file raises "Pixel data not found for instance …"; otherwise the stored bytes |
| Store.Tree.GetThumbnail | static_dicomweb/dicom_handler.py:536-553 | a missing thumbnail raises "Thumbnail not found"; otherwise the thumbnail at the deepest level named |
| Store.MkdirKeepsValid | static_dicomweb/dicom_handler.py:30-39 | creating directories keeps a store valid |
| Store.WriteKeepsValid | static_dicomweb/dicom_handler.py:30-39 | writing an artifact that fits its name, anywhere but the study list, keeps a store valid |
| Store.OnlyFirstFrameStored | static_dicomweb/dicom_handler.py:203-206 | a valid store holds no frame but frame 1, so no other frame number reads back |
| Server.NotFoundAs | static_dicomweb/web_server.py:114-119 | a FileNotFoundError becomes a 404 with the route's detail; any other exception escapes unchanged |
| Server.FirstValueOr | static_dicomweb/web_server.py:45-46 | a missing element gives the default; an element without values gives nothing; otherwise its first value |
| Server.FirstValue | static_dicomweb/web_server.py:78-79 | succeeds iff the element exists with a value, giving its first value; failures are not FileNotFoundError |
| Server.FirstInstanceDoc | static_dicomweb/web_server.py:39-42 | the first instance's metadata exists iff the instance listing succeeds, is not empty, and the read succeeds |
| Server.StudyEntry | static_dicomweb/web_server.py:35-49 | a study's summary is made iff its first series' first instance reads back and its date and description elements, when present, have values; it carries the study's UID and those values, "" for a missing element |
| Server.SeriesEntry | static_dicomweb/web_server.py:56-68 | a series' summary is made iff its first instance reads back and its number and description elements, when present, have values; it carries the series' UID and those values, "1" and "" for missing elements |
| Server.InstanceEntry | static_dicomweb/web_server.py:75-82 | an instance is skipped iff reading its metadata raises FileNotFoundError (so always when the file is missing); a summary is made iff the metadata reads back with a first SOPInstanceUID and a first InstanceNumber value, and holds those values; other failures escape |
| Server.InstanceEntryUid | static_dicomweb/web_server.py:76-78 | an instance summary always reports the instance's own name as its UID |
| Server.RowsSpec | static_dicomweb/web_server.py:34-49 | the skip-on-failure listing holds exactly the entries made for the listed UIDs, in ascending order, each once |
| Server.CollectSpec | static_dicomweb/web_server.py:74-82 | the instance listing succeeds iff no entry raises and then holds exactly the made entries; otherwise it raises the first entry's error |
| Server.ListRows | static_dicomweb/web_server.py:34-49 | the loop appends each entry that can be made and skips the rest, equal to `Rows` |
| Server.CollectRows | static_dicomweb/web_server.py:74-82 | the loop drops skipped entries and stops at the first raise, equal to `Collect` |
| Server.StoreResponse | static_dicomweb/web_server.py:24-29 | a stored instance answers its UIDs; a ValueError becomes 400 with its message; anything else escapes |
| Server.StudiesResponseSpec | static_dicomweb/web_server.py:31-50 | succeeds iff `studies/` exists; reports exactly the study directories that have a summary, sorted by UID, each once |
| Server.SeriesResponseSpec | static_dicomweb/web_server.py:52-69 | raises iff the series listing raises; reports exactly the listed series that have a summary, sorted by UID, each once |
| Server.InstancesResponseUids | static_dicomweb/web_server.py:71-83 | every reported instance is named by the UID of a listed instance directory |
| Server.StudyMetadata | static_dicomweb/web_server.py:85-101 | succeeds iff the study has a series whose first instance reads back, with that metadata; no series gives 404 "Study not found"; an empty first series gives the prefixed "404: No instances found in study"; listing and read failures give 404s prefixed "Error retrieving study metadata: " with their message |
| Server.InstanceMetadata | static_dicomweb/web_server.py:103-112 | 404 "Instance not found" iff nothing is at the metadata path; otherwise the stored document without the UID overlay |
| Server.InstanceMetadataAgrees | static_dicomweb/web_server.py:103-112 | the server's and the handler's metadata reads agree, up to the handler's UID overlay |
| Server.FrameRoute | static_dicomweb/web_server.py:114-119 | answers exactly what the handler returns; a missing frame is 404 "Frame data not found" |
| Server.PixelRoute | static_dicomweb/web_server.py:121-126 | answers exactly what the handler returns; missing pixel data is 404 "Pixel data not found" |
| Server.ThumbnailRoute | static_dicomweb/web_server.py:128-133 | answers exactly what the handler returns; a missing thumbnail is 404 "Thumbnail not found" |
| Server.SeriesMetadataRoute | static_dicomweb/web_server.py:191-207 | succeeds iff the series is listed and its first instance reads back, with that metadata; an unlisted series is 404 "Series not found", an empty one 404 "No instances found in series"; a FileNotFoundError becomes a prefixed 404 and never escapes |
| Server.RenderedRoute | static_dicomweb/web_server.py:221-227 | answers the rendered frame's path iff it exists, otherwise 404 "Rendered instance not found" |
| Server.StoreRejectsWith400 | static_dicomweb/web_server.py:24-29 | an invalid upload is answered 400 with "Invalid DICOM data: …", and nothing is written |
| Server.StoreErrorsAnswered | static_dicomweb/web_server.py:24-29 | a failed instance `mkdir` escapes with its error; past it, a failing integer conversion is answered 400 with `int()`'s message, and pixel data that is not bytes escapes |
| Server.StoredInstanceReported | static_dicomweb/web_server.py:71-83 | after a store, a successful instance listing of the series reports the instance with its stored instance number |
| Server.StoredStudyReported | static_dicomweb/web_server.py:31-50 | after a store whose series and instance come first, the studies listing reports the study with the stored date and description |
| Server.StoredSeriesReported | static_dicomweb/web_server.py:52-69 | after a store whose instance comes first in its series, the series listing reports the series with the stored number and description ("", not "1", when SeriesNumber is missing) |
| Server.StoredSeriesFound | static_dicomweb/web_server.py:191-207 | after a store, the series metadata route does not answer "Series not found" or "No instances found in series" |
| Server.StoredPixelRoutes | static_dicomweb/web_server.py:114-133 | after a store with pixel data, the pixel, frame 1, three thumbnail and rendered routes all answer with the stored content |
| Server.OnlyFirstFrameServed | static_dicomweb/web_server.py:114-119 | on a valid store no frame number other than 1 is served |
| Server.DicomWebServer.constructor | static_dicomweb/web_server.py:17-22 | the server opens a fresh handler on its root |
| Server.DicomWebServer.StoreInstance | static_dicomweb/web_server.py:24-29 | the store changes the handler's tree as `Ingest.StoreDicom` does, and answers `StoreResponse` of its result |
| Server.DicomWebServer.GetStudies | static_dicomweb/web_server.py:31-50 | the route's loop answers `StudiesResponse` of the handler's tree |
| Server.DicomWebServer.GetSeries | static_dicomweb/web_server.py:52-69 | the route's loop answers `SeriesResponse` of the handler's tree |
| Server.DicomWebServer.GetInstances | static_dicomweb/web_server.py:71-83 | the route's loop answers `InstancesResponse` of the handler's tree |

## Left out

- **Parsing.** Parsing the upload is not modelled. The input is the parsed dataset, or the parser's failure with its message. pydicom is not part of this model.
- **Pixel decoding.** Decoding the pixel data is an input: an integer array or a failure.
- **Other mid-stage failures.** Failures inside the pixel stage other than decoding are not modelled. Examples: a JPEG or PNG encoder error, or `np.save` failing. With them left out, the fallback at lines 246-266 runs exactly when decoding fails.
- **Image encoding.** Resizing to 128 x 128, conversion to RGB and JPEG encoding are left out. Thumbnail files keep the normalised array they are encoded from.
- **Encoding details.** gzip, JSON text and `.npy` serialisation are not modelled. Documents are stored as values. JSON key order is not modelled.
- **The rendered frame.** Its floating-point normalisation (line 232) is left out. The rendered PNG is a marker whose presence is what the rendered route checks.
- **The frame route's arguments.** `get_frame_data` reads back the array stored as frame 1. NumPy dtype promotion on load is not modelled; the cast to uint16 is.
- **File-system errors.** Only the handler's own errors are modelled, plus reading a directory as a file, or the reverse, and the failing `mkdir` of the instance directory. Disk-full and permission errors are left out, as is concurrency between requests.
- Text.StrRepr: beyond U+00FF every character is written as it is; Python's `repr` also writes the format characters, the private-use and unassigned code points and the separators such as U+2028 as `\u` or `\U` escapes.
- Dicom.AttrInt: the limit of 4300 decimal digits that Python (from 3.11) puts on `int()` is not modelled; a longer literal converts here, where Python raises ValueError.
- Text.DigitValue: the decimal digits and white space `int()` accepts are those of Unicode 15.0, the tables of Python 3.12 and 3.13; scripts added to Unicode later are not modelled.
- **Identifiers.** Identifiers are path components. A UID containing "/", which `pathlib` splits into several components, is not modelled; nor is "..", which `pathlib` keeps and the operating system resolves to the parent directory.
- **Absent arguments.** The absent series or instance of `_generate_thumbnail` and `get_thumbnail` (Python `None`) is modelled as the empty string. Both are falsy and select the same level.
- **Error text.** An exception's text (`str(e)`) is its message. The Python exception class name is kept as a separate field.
- **Listing order.** Listings come back in lexical order. `iterdir()` promises no order, so the model fixes one.
- **Artifact kinds.** A file holding an artifact of another kind than the reader expects raises `Store.WrongKind`. No store built by the handler holds one.
- **No rollback.** A store that fails leaves behind what it wrote up to that point. This matches the source, which has no rollback.
- **The first `get_series_metadata`.** The definition at dicom_handler.py:420-439 is shadowed by the later one at 516-534 and is never reachable. Only the later one is modelled.
- **Web-layer glue.** The FastAPI routing, `UploadFile` reading, async scheduling, media types and `FileResponse` are left out. So are the module-level default server and `init_server_with_config` (web_server.py:136-157). Configuration loading, the CLI and the test-data scripts are not part of this model.
- IngestProperties.StoreOutcome: only the `mkdir` of the instance directory (line 177) can fail in the model. The later `mkdir` calls (frames, rendered, thumbnail, bulkdata, study and series directories) and every write are taken to succeed. They fail in the source only when a file stands where a directory goes, or a directory where a file goes.
- IngestFacts.StoreLayers: describes a store whose instance directory can be created; the blocked case is stated by IngestProperties.StoreOutcome.
- Ingest.StoreDicom: a model tree may hold the same path as a file and as a directory, which a file system cannot. The errors of `mkdir` keep only their kind and "Not a directory" / "File exists", not the errno and path of the text.
- Pixels.ThumbnailImage: uses the corrected normalisation of Findings, not the wrapping arithmetic at lines 96-98. The two agree when the chosen plane is unsigned and its range times 255 fits its element type (Pixels.ThumbnailAgreesWithoutWrap); otherwise they can differ (Pixels.TestImageThumbnailsDiffer). The source's form is Pixels.ThumbnailAsWritten.
- Pixels.ThumbnailOfColour: states the exact scaling of the model's thumbnail, which is the source's only where nothing wraps; colour images are usually uint8, where any range of 2 or more wraps.
- Pixels.ThumbnailOfPlane: states the exact scaling of the model's thumbnail, which is the source's only where nothing wraps.
- Pixels.ThumbnailOfVolume: states the right plane with the exact scaling, which is the source's only where nothing wraps.
- Pixels.ThumbnailOfFrames: states the right frame and channel with the exact scaling, which is the source's only where nothing wraps.
- Handler.DicomHandler.GenerateThumbnail: writes the thumbnail of the corrected normalisation.
- Handler.DicomHandler.StoreDicom: stores thumbnails of the corrected normalisation; every other artifact is as the source writes it.
- IngestProperties.StorePixelsReadBack: the thumbnails it reads back are those of the corrected normalisation.
- Server.StoredPixelRoutes: the thumbnails it answers are those of the corrected normalisation.
- Pixels.NormaliseAsWritten: follows NumPy 1.x value-based casting, under which a signed-byte array times 255 is computed in 16 bits. Under NumPy 2 that product raises OverflowError; the source catches it and the thumbnail becomes the gray stand-in.
- **Server.FirstValueOr.** It covers documents whose elements always carry a value list. An element without a "Value" key would take the default in the source. The handler never writes one.
- **Store.OnlyFirstFrameStored, Server.OnlyFirstFrameServed.** These state only that other frame numbers are not served. The exact exception raised is not stated.

## Findings

| source | as written | input that shows it | evidently intended | confidence | as-written member | corrected member |
|---|---|---|---|---|---|---|
| static_dicomweb/dicom_handler.py:96-98 | `(slice - min) * 255` is computed in the array's own integer type, so it wraps around before the division | a uint16 image holding 0 and 65535: 65535 * 255 wraps to 65281, which divides by 65535 to 0, so the brightest sample is drawn black; a uint8 image holding 0 and 255 wraps the same way | samples scaled from min..max onto 0..255, so the brightest sample is 255 | not executed | Pixels.WrapAroundLosesBrightSample | Pixels.NormaliseSpansFullRange |
