/** The directory tree the handler keeps under its root directory, and the
    handler's read accessors over it. A tree maps each file's path to the
    artifact it holds and records the set of directories. */
module Store {
  import opened Wrappers
  import opened Text
  import opened Order
  import opened Paths
  import opened Pixels
  import opened Dicom

  /** A JSON document as stored: an object of elements, or a list (the
      top-level study list is the only list the handler writes). */
  datatype JsonValue = Object(doc: Doc) | List(items: seq<Doc>)

  /** What a file holds. Images are kept as the array that was encoded;
      the rendered frame is kept only as a marker. */
  datatype Artifact =
    | Json(value: JsonValue)
    | Notice(status: string)
    | Blob(bytes: seq<byte>)
    | Frame(pixelArray: Array)
    | Thumbnail(image: Array)
    | Rendered

  /** `p` and every ancestor of `p` below the root. */
  function Prefixes(p: Path): set<Path> {
    set k | 1 <= k <= |p| :: p[..k]
  }

  /** The error raised when a file holds an artifact of another kind than
      the reader expects (a case no store built by the handler has). */
  const WrongKind := OtherError("ValueError", "unexpected file content")

  /** The three identifiers written over a document read back for an
      instance. */
  function Overlay(doc: Doc, study: string, series: string, instance: string): (r: Doc)
    ensures r.Keys == doc.Keys + {0x0020000D, 0x0020000E, 0x00080018}
    ensures r[0x0020000D] == Element(Some("UI"), [Str(study)])
    ensures r[0x0020000E] == Element(Some("UI"), [Str(series)])
    ensures r[0x00080018] == Element(Some("UI"), [Str(instance)])
    ensures forall tag :: tag in doc && tag !in {0x0020000D, 0x0020000E, 0x00080018} ==> r[tag] == doc[tag]
  {
    doc[0x0020000D := Element(Some("UI"), [Str(study)])]
       [0x0020000E := Element(Some("UI"), [Str(series)])]
       [0x00080018 := Element(Some("UI"), [Str(instance)])]
  }

  datatype Tree = Tree(files: map<Path, Artifact>, dirs: set<Path>) {

    predicate Exists(p: Path) {
      p in files || p in dirs
    }

    /** `p.mkdir(parents=True, exist_ok=True)`. */
    function Mkdir(p: Path): Tree {
      Tree(files, dirs + Prefixes(p))
    }

    /** `p` itself or one of its ancestors is a file, so creating `p` as a
        directory fails. */
    predicate Blocked(p: Path) {
      exists k :: 1 <= k <= |p| && p[..k] in files
    }

    /** What `p.mkdir(parents=True, exist_ok=True)` raises on a blocked
        path: `NotADirectoryError` when an ancestor is a file, otherwise
        `FileExistsError` since `p` itself is one. */
    function MkdirError(p: Path): Exception
      requires Blocked(p)
    {
      if exists k :: 1 <= k < |p| && p[..k] in files then OtherError("NotADirectoryError", "Not a directory")
      else OtherError("FileExistsError", "File exists")
    }

    /** Creating or overwriting the file at `p`. */
    function Write(p: Path, a: Artifact): Tree {
      Tree(files[p := a], dirs)
    }

    /** Opening the file at `p` for reading after the caller found it
        missing with message `missing`. */
    function ReadFile(p: Path, missing: string): (r: Result<Artifact, Exception>)
      ensures r.Ok? <==> p in files
      ensures !Exists(p) ==> r == Err(FileNotFoundError(missing))
      ensures r.Ok? ==> r.value == files[p]
    {
      if p in files then Ok(files[p])
      else if p in dirs then Err(OtherError("IsADirectoryError", "Is a directory"))
      else Err(FileNotFoundError(missing))
    }

    /** Names of the directories directly inside `p`. */
    function Children(p: Path): set<string> {
      set d | d in dirs && |d| == |p| + 1 && d[..|p|] == p :: d[|p|]
    }

    /** `[d.name for d in p.iterdir() if d.is_dir()]`, in lexical order. */
    function ListDir(p: Path): (r: Result<seq<string>, Exception>)
      ensures r.Ok? <==> p in dirs
      ensures r.Ok? ==> StrictlySorted(r.value) && forall x :: x in r.value <==> p + [x] in dirs
    {
      if p in dirs then
        var names := Children(p);
        assert forall x :: x in names <==> p + [x] in dirs by {
          forall x | p + [x] in dirs ensures x in names {
            var d := p + [x];
            assert d[..|p|] == p && d[|p|] == x;
          }
          forall x | x in names ensures p + [x] in dirs {
            var d :| d in dirs && |d| == |p| + 1 && d[..|p|] == p && d[|p|] == x;
            assert d == p + [x];
          }
        }
        Ok(Listing(names))
      else if p in files then Err(OtherError("NotADirectoryError", "Not a directory"))
      else Err(FileNotFoundError("No such file or directory"))
    }

    // ---------------------------------------------------------------
    // the handler's accessors
    // ---------------------------------------------------------------

    /** `get_studies`: the study directories; raises when `studies/` is
        missing or is a file. */
    function GetStudies(): (r: Result<seq<string>, Exception>)
      ensures r.Ok? <==> StudiesDir in dirs
      ensures r.Ok? ==> StrictlySorted(r.value) && forall x :: x in r.value <==> StudiesDir + [x] in dirs
    {
      ListDir(StudiesDir)
    }

    /** `get_series`: empty when the study or its `series` directory is
        missing, else the series directories. */
    function GetSeries(study: string): (r: Result<seq<string>, Exception>)
      ensures !Exists(StudyPath(study)) || !Exists(SeriesRoot(study)) ==> r == Ok([])
      ensures Exists(StudyPath(study)) && SeriesRoot(study) in dirs ==>
        r.Ok? && StrictlySorted(r.value) && forall x :: x in r.value <==> SeriesRoot(study) + [x] in dirs
      ensures r.Err? <==> Exists(StudyPath(study)) && SeriesRoot(study) in files && SeriesRoot(study) !in dirs
    {
      if !Exists(StudyPath(study)) then Ok([])
      else if !Exists(SeriesRoot(study)) then Ok([])
      else ListDir(SeriesRoot(study))
    }

    /** `get_instances`: empty when the series or its `instances`
        directory is missing, else the instance directories. */
    function GetInstances(study: string, series: string): (r: Result<seq<string>, Exception>)
      ensures !Exists(SeriesPath(study, series)) || !Exists(InstancesRoot(study, series)) ==> r == Ok([])
      ensures Exists(SeriesPath(study, series)) && InstancesRoot(study, series) in dirs ==>
        r.Ok? && StrictlySorted(r.value)
        && forall x :: x in r.value <==> InstancesRoot(study, series) + [x] in dirs
      ensures r.Err? <==> Exists(SeriesPath(study, series)) && InstancesRoot(study, series) in files
                          && InstancesRoot(study, series) !in dirs
    {
      if !Exists(SeriesPath(study, series)) then Ok([])
      else if !Exists(InstancesRoot(study, series)) then Ok([])
      else ListDir(InstancesRoot(study, series))
    }

    /** `get_metadata`: the stored instance document with the requested
        identifiers written over its three identifier tags. */
    function GetMetadata(study: string, series: string, instance: string): (r: Result<Doc, Exception>)
      ensures !Exists(InstanceMetadataPath(study, series, instance)) ==>
        r == Err(FileNotFoundError("Metadata not found for instance " + instance))
      ensures r.Ok? <==> var p := InstanceMetadataPath(study, series, instance);
        p in files && files[p].Json? && files[p].value.Object?
      ensures r.Ok? ==> r.value == Overlay(files[InstanceMetadataPath(study, series, instance)].value.doc,
                                           study, series, instance)
    {
      match ReadFile(InstanceMetadataPath(study, series, instance), "Metadata not found for instance " + instance)
      case Err(e) => Err(e)
      case Ok(Json(Object(doc))) => Ok(Overlay(doc, study, series, instance))
      case Ok(Json(List(_))) => Err(OtherError("AttributeError", "'list' object has no attribute 'update'"))
      case Ok(_) => Err(WrongKind)
    }

    /** `get_series_metadata` (the later of its two definitions): the stored
        series document as it is. */
    function GetSeriesMetadata(study: string, series: string): (r: Result<JsonValue, Exception>)
      ensures !Exists(SeriesMetadataPath(study, series)) ==> r == Err(FileNotFoundError("Series metadata not found"))
      ensures r.Ok? <==> SeriesMetadataPath(study, series) in files && files[SeriesMetadataPath(study, series)].Json?
      ensures r.Ok? ==> Json(r.value) == files[SeriesMetadataPath(study, series)]
    {
      match ReadFile(SeriesMetadataPath(study, series), "Series metadata not found")
      case Err(e) => Err(e)
      case Ok(Json(v)) => Ok(v)
      case Ok(_) => Err(WrongKind)
    }

    /** `get_frame_data`: the stored frame's samples as little-endian
        unsigned 16-bit values. */
    function GetFrameData(study: string, series: string, instance: string, frame: int): (r: Result<seq<byte>, Exception>)
      ensures !Exists(FramePath(study, series, instance, frame)) ==>
        r == Err(FileNotFoundError("Frame " + IntToString(frame) + " not found"))
      ensures r.Ok? <==> FramePath(study, series, instance, frame) in files
                         && files[FramePath(study, series, instance, frame)].Frame?
      ensures r.Ok? ==> r.value == Uint16Bytes(files[FramePath(study, series, instance, frame)].pixelArray)
    {
      match ReadFile(FramePath(study, series, instance, frame), "Frame " + IntToString(frame) + " not found")
      case Err(e) => Err(e)
      case Ok(Frame(a)) => Ok(Uint16Bytes(a))
      case Ok(_) => Err(WrongKind)
    }

    /** `get_pixel_data`: the stored pixel data bytes. */
    function GetPixelData(study: string, series: string, instance: string): (r: Result<seq<byte>, Exception>)
      ensures !Exists(PixelDataPath(study, series, instance)) ==>
        r == Err(FileNotFoundError("Pixel data not found for instance " + instance))
      ensures r.Ok? <==> PixelDataPath(study, series, instance) in files
                         && files[PixelDataPath(study, series, instance)].Blob?
      ensures r.Ok? ==> Blob(r.value) == files[PixelDataPath(study, series, instance)]
    {
      match ReadFile(PixelDataPath(study, series, instance), "Pixel data not found for instance " + instance)
      case Err(e) => Err(e)
      case Ok(Blob(b)) => Ok(b)
      case Ok(_) => Err(WrongKind)
    }

    /** `get_thumbnail`: the thumbnail at the deepest level named. */
    function GetThumbnail(study: string, series: string, instance: string): (r: Result<Array, Exception>)
      ensures !Exists(ThumbnailPath(study, series, instance)) ==> r == Err(FileNotFoundError("Thumbnail not found"))
      ensures r.Ok? <==> ThumbnailPath(study, series, instance) in files
                         && files[ThumbnailPath(study, series, instance)].Thumbnail?
      ensures r.Ok? ==> Thumbnail(r.value) == files[ThumbnailPath(study, series, instance)]
    {
      match ReadFile(ThumbnailPath(study, series, instance), "Thumbnail not found")
      case Err(e) => Err(e)
      case Ok(Thumbnail(img)) => Ok(img)
      case Ok(_) => Err(WrongKind)
    }

    // ---------------------------------------------------------------
    // the shape every store built by the handler keeps
    // ---------------------------------------------------------------

    /** The four top-level directories exist, `studies/index.json.gz` is
        the empty list, and every other file holds the kind of artifact
        its name says. */
    predicate Valid() {
      && StudiesDir in dirs && DeduplicatedDir in dirs && InstancesDir in dirs && NotificationsDir in dirs
      && StudiesIndexPath in files && files[StudiesIndexPath] == Json(List([]))
      && forall p :: p in files && p != StudiesIndexPath ==> Fits(p, files[p])
    }
  }

  /** The artifact `a` may be stored under the name that ends `p`: the
      documents are JSON objects, `1.gz` a frame, `pixel_data.raw` raw
      bytes, `thumbnail.jpg` a thumbnail, and no other compressed file. */
  predicate Fits(p: Path, a: Artifact) {
    && |p| > 0
    && var name := p[|p| - 1];
       && (name == MetadataName || name == IndexName ==> a.Json? && a.value.Object?)
       && (name == FrameName(1) ==> a.Frame?)
       && (name == PixelDataName ==> a.Blob?)
       && (name == ThumbnailName ==> a.Thumbnail?)
       && (EndsWith(name, ".gz") ==> name == MetadataName || name == IndexName || name == FrameName(1))
  }

  /** Creating directories keeps a store valid. */
  lemma MkdirKeepsValid(t: Tree, p: Path)
    requires t.Valid()
    ensures t.Mkdir(p).Valid()
  {
  }

  /** Writing an artifact that fits its name anywhere but the study list
      keeps a store valid. */
  lemma WriteKeepsValid(t: Tree, p: Path, a: Artifact)
    requires t.Valid() && Fits(p, a) && p != StudiesIndexPath
    ensures t.Write(p, a).Valid()
  {
  }

  /** `str(n)` starts with a digit or a minus sign. */
  lemma IntToStringHead(n: int)
    ensures IsDigit(IntToString(n)[0]) || IntToString(n)[0] == '-'
  {
    if n >= 0 {
      assert IntToString(n) == NatToString(n);
    }
  }

  /** A valid store holds no frame file other than `1.gz`, so no frame
      number other than 1 is ever read back. */
  lemma OnlyFirstFrameStored(t: Tree, study: string, series: string, instance: string, frame: int)
    requires t.Valid() && frame != 1
    ensures !t.GetFrameData(study, series, instance, frame).Ok?
  {
    var p := FramePath(study, series, instance, frame);
    FrameNameUnfit(frame);
    assert p[|p| - 1] == FrameName(frame);
    assert p != StudiesIndexPath by {
      assert StudiesIndexPath[|StudiesIndexPath| - 1] == IndexName;
    }
    assert p !in t.files;
  }

  /** The file name of any frame other than the first is a compressed name
      that no artifact fits. */
  lemma FrameNameUnfit(frame: int)
    requires frame != 1
    ensures var name := FrameName(frame);
      EndsWith(name, ".gz") && name != MetadataName && name != IndexName && name != FrameName(1)
  {
    var name := FrameName(frame);
    NamesDistinct();
    IntToStringHead(frame);
    assert name[0] == IntToString(frame)[0];
    assert name[|name| - 3..] == ".gz";
    assert name != MetadataName by { assert MetadataName[0] == 'm'; }
    assert name != IndexName by { assert IndexName[0] == 'i'; }
    if name == FrameName(1) {
      FrameNameInjective(frame, 1);
    }
  }
}
