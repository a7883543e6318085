/** What storing one uploaded object does to the tree: the specification
    of `store_dicom`, written as the sequence of its stages. */
module Ingest {
  import opened Wrappers
  import opened Text
  import opened Order
  import opened Paths
  import opened Pixels
  import opened Dicom
  import opened Store

  datatype Uids = Uids(study: string, series: string, instance: string)

  /** The tree after a store, and what the store returns or raises. */
  datatype Stored = Stored(tree: Tree, result: Result<Uids, Exception>)

  /** The tree after a stage, and the exception that ended the store there. */
  datatype Step = Step(tree: Tree, error: Option<Exception>)

  const InvalidPrefix := "Invalid DICOM data: "
  const MissingUids := "Missing required DICOM attributes: StudyInstanceUID, SeriesInstanceUID, or SOPInstanceUID"

  // ---------------------------------------------------------------
  // accepting the upload
  // ---------------------------------------------------------------

  predicate HasUids(ds: Dataset) {
    "StudyInstanceUID" in ds.attrs && "SeriesInstanceUID" in ds.attrs && "SOPInstanceUID" in ds.attrs
  }

  /** Parsing the upload and reading its three identifiers; every failure
      becomes a `ValueError` prefixed "Invalid DICOM data: ". */
  function Identify(input: Parse): (r: Result<(Dataset, Uids), Exception>)
    ensures r.Ok? <==> input.Parsed? && HasUids(input.dataset)
    ensures r.Err? ==> r.error.ValueError? && InvalidPrefix <= r.error.message
    ensures input.Unreadable? ==> r == Err(ValueError(InvalidPrefix + input.reason))
    ensures r.Ok? ==> var ds := input.dataset;
      r.value == (ds, Uids(AttrText(ds.attrs["StudyInstanceUID"]), AttrText(ds.attrs["SeriesInstanceUID"]),
                          AttrText(ds.attrs["SOPInstanceUID"])))
  {
    match input
    case Unreadable(reason) => Err(ValueError(InvalidPrefix + reason))
    case Parsed(ds) =>
      if !HasUids(ds) then Err(ValueError(InvalidPrefix + MissingUids))
      else Ok((ds, Uids(AttrText(ds.attrs["StudyInstanceUID"]), AttrText(ds.attrs["SeriesInstanceUID"]),
                        AttrText(ds.attrs["SOPInstanceUID"]))))
  }

  // ---------------------------------------------------------------
  // pixel data, thumbnails, the first frame and the rendered frame
  // ---------------------------------------------------------------

  /** The array the frame and thumbnails are made from: the decoded pixel
      array, or the 64 x 64 gray stand-in when decoding fails. */
  function FrameArray(ds: Dataset): Array {
    match ds.pixels
    case Decoded(a) => a
    case DecodeFailed(_) => Gray64()
  }

  /** `_generate_thumbnail`: the thumbnail of `a` at the level named. */
  function WriteThumbnail(t: Tree, a: Array, study: string, series: string, instance: string): Tree {
    t.Mkdir(ThumbnailDir(study, series, instance))
     .Write(ThumbnailPath(study, series, instance), Thumbnail(ThumbnailImage(a)))
  }

  /** The writes made when the object has pixel data `bytes`. */
  function PixelWrites(t: Tree, u: Uids, bytes: seq<byte>, a: Array): Tree {
    var t1 := t.Write(PixelDataPath(u.study, u.series, u.instance), Blob(bytes))
               .Mkdir(FramesDir(u.study, u.series, u.instance));
    var t2 := WriteThumbnail(t1, a, u.study, "", "");
    var t3 := WriteThumbnail(t2, a, u.study, u.series, "");
    var t4 := WriteThumbnail(t3, a, u.study, u.series, u.instance);
    t4.Write(FramePath(u.study, u.series, u.instance, 1), Frame(a))
      .Mkdir(RenderedDir(u.study, u.series, u.instance))
      .Write(RenderedPath(u.study, u.series, u.instance), Rendered)
  }

  /** Pixel data that is not a byte string cannot be written out. */
  predicate PixelDataUnwritable(ds: Dataset) {
    "PixelData" in ds.attrs && !ds.attrs["PixelData"].Bytes?
  }

  function TypeName(v: AttrValue): string {
    match v
    case Text(_) => "str"
    case Int(_) => "int"
    case Bytes(_) => "bytes"
    case NoValue => "NoneType"
  }

  /** The stage for pixel data: nothing when the object has none. */
  function PixelStage(t: Tree, ds: Dataset, u: Uids): Tree
    requires !PixelDataUnwritable(ds)
  {
    if "PixelData" in ds.attrs then PixelWrites(t, u, ds.attrs["PixelData"].b, FrameArray(ds)) else t
  }

  // ---------------------------------------------------------------
  // bulk data and the notification
  // ---------------------------------------------------------------

  /** An attribute stored as a separate bulk data file. */
  predicate IsBulkName(name: string) {
    EndsWith(name, "Data") && name != "PixelData"
  }

  /** The bulk data attributes of an object, in the order `dir()` gives them. */
  function BulkNames(ds: Dataset): (r: seq<string>)
    ensures StrictlySorted(r)
    ensures forall n :: n in r <==> n in ds.attrs && IsBulkName(n)
  {
    Listing(set n | n in ds.attrs && IsBulkName(n))
  }

  /** The content written for a bulk attribute: non-empty byte strings only. */
  function BulkContent(v: AttrValue): Option<seq<byte>> {
    if v.Bytes? && |v.b| > 0 then Some(v.b) else None
  }

  /** The writes for the bulk attributes `names`, in order. */
  function BulkWrites(t: Tree, ds: Dataset, u: Uids, names: seq<string>): Tree
    requires forall n :: n in names ==> n in ds.attrs
    decreases |names|
  {
    if names == [] then t
    else
      var t' := BulkWrites(t, ds, u, names[..|names| - 1]);
      var n := names[|names| - 1];
      match BulkContent(ds.attrs[n])
      case Some(b) => t'.Write(BulkDataPath(u.study, u.instance, n), Blob(b))
      case None => t'
  }

  /** The stage for bulk data: the directory, then every bulk attribute. */
  function BulkStage(t: Tree, ds: Dataset, u: Uids): Tree {
    BulkWrites(t.Mkdir(BulkDataDir(u.study)), ds, u, BulkNames(ds))
  }

  // ---------------------------------------------------------------
  // the study index and the series files
  // ---------------------------------------------------------------

  /** The elements a store contributes to its study's index. */
  function StudyIncoming(ds: Dataset): Doc {
    map[0x00080020 := Element(None, [Str(GetText(ds, "StudyDate", ""))]),
        0x00081030 := Element(None, [Str(GetText(ds, "StudyDescription", ""))])]
  }

  /** A study index created from scratch: the incoming elements and the
      study identifier. */
  function NewStudyIndex(incoming: Doc, study: string): Doc {
    incoming[0x0020000D := Element(Some("UI"), [Str(study)])]
  }

  /** `_update_studies_index`: merge into the existing study index, or
      create it. */
  function UpdateStudiesIndex(t: Tree, study: string, incoming: Doc): Step {
    var t1 := t.Mkdir(StudyPath(study));
    var p := StudyIndexPath(study);
    if !t1.Exists(p) then Step(t1.Write(p, Json(Object(NewStudyIndex(incoming, study)))), None)
    else
      match t1.ReadFile(p, "")
      case Ok(Json(Object(prior))) => Step(t1.Write(p, Json(Object(prior + incoming))), None)
      case Ok(Json(List(_))) => Step(t1, Some(OtherError("AttributeError", "'list' object has no attribute 'update'")))
      case Ok(_) => Step(t1, Some(WrongKind))
      case Err(e) => Step(t1, Some(e))
  }

  /** The series index document; the series number defaults to "1". */
  function SeriesIndex(ds: Dataset, series: string): Doc {
    map[0x00200011 := Element(None, [Str(GetText(ds, "SeriesNumber", "1"))]),
        0x0008103E := Element(None, [Str(GetText(ds, "SeriesDescription", ""))]),
        0x0020000E := Element(None, [Str(series)]),
        0x00080060 := Element(None, [Str(GetText(ds, "Modality", ""))])]
  }

  /** The series directory, its index and its metadata, both overwritten. */
  function SeriesWrites(t: Tree, ds: Dataset, u: Uids, doc: Doc): Tree {
    t.Mkdir(SeriesPath(u.study, u.series))
     .Write(SeriesIndexPath(u.study, u.series), Json(Object(SeriesIndex(ds, u.series))))
     .Write(SeriesMetadataPath(u.study, u.series), Json(Object(doc)))
  }

  // ---------------------------------------------------------------
  // the whole store
  // ---------------------------------------------------------------

  /** The tree once the instance directory and metadata exist and the
      pixel, bulk data and notification stages have run. */
  function FilesStage(t: Tree, ds: Dataset, u: Uids, doc: Doc): Tree
    requires !PixelDataUnwritable(ds)
  {
    var t1 := t.Mkdir(InstancePath(u.study, u.series, u.instance))
               .Write(InstanceMetadataPath(u.study, u.series, u.instance), Json(Object(doc)));
    BulkStage(PixelStage(t1, ds, u), ds, u)
      .Write(NotificationPath(u.study, u.series, u.instance), Notice("pending"))
  }

  /** `store_dicom`. */
  function StoreDicom(t: Tree, input: Parse): Stored {
    match Identify(input)
    case Err(e) => Stored(t, Err(e))
    case Ok((ds, u)) =>
      var ip := InstancePath(u.study, u.series, u.instance);
      if t.Blocked(ip) then Stored(t, Err(t.MkdirError(ip)))
      else
      var t1 := t.Mkdir(ip);
      match ExtractMetadata(ds)
      case Err(e) => Stored(t1, Err(e))
      case Ok(doc) =>
        if PixelDataUnwritable(ds) then
          var t2 := t1.Write(InstanceMetadataPath(u.study, u.series, u.instance), Json(Object(doc)));
          Stored(t2, Err(OtherError("TypeError", "memoryview: a bytes-like object is required, not '"
                                                 + TypeName(ds.attrs["PixelData"]) + "'")))
        else
          var step := UpdateStudiesIndex(FilesStage(t, ds, u, doc), u.study, StudyIncoming(ds));
          if step.error.Some? then Stored(step.tree, Err(step.error.value))
          else Stored(SeriesWrites(step.tree, ds, u, doc), Ok(u))
  }
}
