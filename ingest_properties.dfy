/** The promises of `store_dicom`: which uploads it accepts, that what it
    stores reads back through the accessors, that a store built by the
    handler stays well formed, and that storing the same object twice
    changes nothing the second time. */
module IngestProperties {
  import opened Wrappers
  import opened Text
  import opened Paths
  import opened Pixels
  import opened Dicom
  import opened Store
  import opened Ingest
  import opened IngestFacts

  /** An upload that cannot be parsed or lacks an identifier is refused
      with a "Invalid DICOM data: " error and the tree is left as it was. */
  lemma StoreRejectsInvalid(t: Tree, input: Parse)
    requires !(input.Parsed? && HasUids(input.dataset))
    ensures StoreDicom(t, input).tree == t
    ensures var r := StoreDicom(t, input).result;
      r.Err? && r.error.ValueError? && InvalidPrefix <= r.error.message
    ensures input.Unreadable? ==> StoreDicom(t, input).result == Err(ValueError(InvalidPrefix + input.reason))
  {
  }

  /** A valid store stays valid, whichever way the store ends. */
  lemma StoreKeepsValid(t: Tree, input: Parse)
    requires t.Valid()
    ensures StoreDicom(t, input).tree.Valid()
  {
    match Identify(input)
    case Err(_) =>
    case Ok((ds, u)) =>
      var st, se, i := u.study, u.series, u.instance;
      if t.Blocked(InstancePath(st, se, i)) {
        return;
      }
      MkdirKeepsValid(t, InstancePath(st, se, i));
      var t1 := t.Mkdir(InstancePath(st, se, i));
      match ExtractMetadata(ds)
      case Err(_) =>
      case Ok(doc) =>
        if PixelDataUnwritable(ds) {
          var imp := InstanceMetadataPath(st, se, i);
          assert Name(imp) == MetadataName;
          FixedNameFits(imp, Json(Object(doc)));
          WriteKeepsValid(t1, imp, Json(Object(doc)));
        } else {
          StoreFilesKeepsValid(t, input, ds, u, doc);
        }
  }

  /** A store that gets past the pixel data leaves a valid store valid. */
  lemma StoreFilesKeepsValid(t: Tree, input: Parse, ds: Dataset, u: Uids, doc: Doc)
    requires t.Valid() && Identify(input) == Ok((ds, u)) && !t.Blocked(InstancePath(u.study, u.series, u.instance))
    requires ExtractMetadata(ds) == Ok(doc) && !PixelDataUnwritable(ds)
    ensures StoreDicom(t, input).tree.Valid()
  {
    var st := u.study;
    var fe := FilesStage(Empty, ds, u, doc);
    StoreLayers(t, input, ds, u, doc);
    FilesEditSafe(ds, u, doc);
    LayerKeepsValid(t, fe);
    MkdirKeepsValid(Layer(t, fe), StudyPath(st));
    if IndexUpdatable(t, st) {
      IndexUpdatableWhen(t, st);
      StudyIndexCollapses(st);
      IndexEditSafe(t, st, StudyIncoming(ds));
      SeriesEditFacts(ds, u, doc);
      SafeLayersKeepValid(t, fe, IndexEdit(t, st, StudyIncoming(ds)), SeriesWrites(Empty, ds, u, doc));
    }
  }

  /** Three safe edits laid over a valid store leave it valid. */
  lemma SafeLayersKeepValid(t: Tree, e1: Tree, e2: Tree, e3: Tree)
    requires t.Valid() && SafeEdit(e1) && SafeEdit(e2) && SafeEdit(e3)
    ensures Layer(Layer(Layer(t, e1), e2), e3).Valid()
  {
    LayerKeepsValid(t, e1);
    LayerKeepsValid(Layer(t, e1), e2);
    LayerKeepsValid(Layer(Layer(t, e1), e2), e3);
  }

  /** On a valid store, an identified upload is stored exactly when its
      instance directory can be created, its metadata can be extracted,
      its pixel data is a byte string, and its study identifier names a
      directory whose index is not itself a directory; the failures raise
      the error of `mkdir` (leaving the tree as it was), the extraction
      error, a TypeError, or an AttributeError from treating the top-level
      study list as a study index. */
  lemma StoreOutcome(t: Tree, input: Parse, ds: Dataset, u: Uids)
    requires t.Valid() && Identify(input) == Ok((ds, u))
    ensures var ip := InstancePath(u.study, u.series, u.instance);
      StoreDicom(t, input).result.Ok? <==>
      && !t.Blocked(ip) && ExtractMetadata(ds).Ok? && !PixelDataUnwritable(ds) && Named(u.study)
      && (StudyIndexPath(u.study) in t.files || StudyIndexPath(u.study) !in t.dirs)
    ensures StoreDicom(t, input).result.Ok? ==> StoreDicom(t, input).result == Ok(u)
    ensures var ip := InstancePath(u.study, u.series, u.instance);
      t.Blocked(ip) ==> StoreDicom(t, input) == Stored(t, Err(t.MkdirError(ip)))
    ensures var ip := InstancePath(u.study, u.series, u.instance);
      !t.Blocked(ip) && ExtractMetadata(ds).Err? ==> StoreDicom(t, input).result == Err(ExtractMetadata(ds).error)
    ensures var ip := InstancePath(u.study, u.series, u.instance);
      !t.Blocked(ip) && ExtractMetadata(ds).Ok? && PixelDataUnwritable(ds) ==>
      StoreDicom(t, input).result.Err? && StoreDicom(t, input).result.error == OtherError("TypeError",
        "memoryview: a bytes-like object is required, not '" + TypeName(ds.attrs["PixelData"]) + "'")
    ensures var ip := InstancePath(u.study, u.series, u.instance);
      !t.Blocked(ip) && ExtractMetadata(ds).Ok? && !PixelDataUnwritable(ds) && !Named(u.study) ==>
      StoreDicom(t, input).result == Err(OtherError("AttributeError", "'list' object has no attribute 'update'"))
  {
    if !t.Blocked(InstancePath(u.study, u.series, u.instance)) && ExtractMetadata(ds).Ok? && !PixelDataUnwritable(ds) {
      var doc := ExtractMetadata(ds).value;
      StoreLayers(t, input, ds, u, doc);
      IndexUpdatableWhen(t, u.study);
      if !Named(u.study) {
        StoreIntoTopLevel(t, input, ds, u, doc);
      }
    }
  }

  /** A study identifier spelled like the top-level study list puts that
      file among the ancestors of the instance directory: `mkdir` raises
      `NotADirectoryError` and nothing is written. */
  lemma StudyNamedLikeIndexRefused(t: Tree, input: Parse, ds: Dataset, u: Uids)
    requires t.Valid() && Identify(input) == Ok((ds, u)) && u.study == IndexName
    ensures StoreDicom(t, input) == Stored(t, Err(OtherError("NotADirectoryError", "Not a directory")))
  {
    var ip := InstancePath(u.study, u.series, u.instance);
    assert ip[..2] == StudiesIndexPath;
  }

  /** On a valid store the study index is updatable exactly when the study
      identifier names a directory whose index is not itself a directory. */
  lemma IndexUpdatableWhen(t: Tree, st: string)
    requires t.Valid()
    ensures IndexUpdatable(t, st) <==> Named(st) && (StudyIndexPath(st) in t.files || StudyIndexPath(st) !in t.dirs)
  {
    StudyIndexCollapses(st);
    assert Name(StudyIndexPath(st)) == IndexName;
  }

  /** A study identifier that names no directory makes the store update the
      top-level study list, which is a list. */
  lemma StoreIntoTopLevel(t: Tree, input: Parse, ds: Dataset, u: Uids, doc: Doc)
    requires t.Valid() && Identify(input) == Ok((ds, u)) && !t.Blocked(InstancePath(u.study, u.series, u.instance))
    requires ExtractMetadata(ds) == Ok(doc) && !PixelDataUnwritable(ds) && !Named(u.study)
    ensures StoreDicom(t, input).result == Err(OtherError("AttributeError", "'list' object has no attribute 'update'"))
  {
    StoreLayers(t, input, ds, u, doc);
    IndexUpdatableWhen(t, u.study);
    FilesEditSafe(ds, u, doc);
    SafeEditKeepsStudyList(t, FilesStage(Empty, ds, u, doc), u.study, StudyIncoming(ds));
  }

  /** After a safe edit of a valid store, updating the index of a study
      that names no directory reads the top-level study list. */
  lemma SafeEditKeepsStudyList(t: Tree, e: Tree, st: string, incoming: Doc)
    requires t.Valid() && SafeEdit(e) && !Named(st)
    ensures UpdateStudiesIndex(Layer(t, e), st, incoming).error
         == Some(OtherError("AttributeError", "'list' object has no attribute 'update'"))
  {
    StudyIndexCollapses(st);
    assert StudiesIndexPath !in e.files;
    assert Layer(t, e).files[StudiesIndexPath] == Json(List([]));
  }

  /** The three layers of a successful store touch different files. */
  lemma StoreEditsApart(t: Tree, ds: Dataset, u: Uids, doc: Doc)
    requires !PixelDataUnwritable(ds)
    ensures var fe, ie, se := FilesStage(Empty, ds, u, doc), IndexEdit(t, u.study, StudyIncoming(ds)),
                              SeriesWrites(Empty, ds, u, doc);
      && (forall p :: p in fe.files ==> p !in ie.files && p !in se.files)
      && (forall p :: p in ie.files ==> p !in se.files)
  {
    FilesApartFromIndex(t, ds, u, doc);
    FilesApartFromSeries(ds, u, doc);
    IndexApartFromSeries(t, ds, u, doc);
  }

  lemma FilesApartFromIndex(t: Tree, ds: Dataset, u: Uids, doc: Doc)
    requires !PixelDataUnwritable(ds)
    ensures forall p :: p in FilesStage(Empty, ds, u, doc).files ==> p !in IndexEdit(t, u.study, StudyIncoming(ds)).files
  {
    FilesEditSafe(ds, u, doc);
    assert Name(StudyIndexPath(u.study)) == IndexName;
  }

  lemma FilesApartFromSeries(ds: Dataset, u: Uids, doc: Doc)
    requires !PixelDataUnwritable(ds)
    ensures forall p :: p in FilesStage(Empty, ds, u, doc).files ==> p !in SeriesWrites(Empty, ds, u, doc).files
  {
    var st, se, i := u.study, u.series, u.instance;
    var imp, sip, smp := InstanceMetadataPath(st, se, i), SeriesIndexPath(st, se), SeriesMetadataPath(st, se);
    FilesEditSafe(ds, u, doc);
    SeriesEditFacts(ds, u, doc);
    SeriesFileNames(st, se, i);
    NoIndexesAvoid(FilesStage(Empty, ds, u, doc), SeriesWrites(Empty, ds, u, doc), imp, sip, smp);
  }

  /** The series files are an index and a metadata document, one level
      above the instance's metadata. */
  lemma SeriesFileNames(st: string, se: string, i: string)
    ensures |SeriesIndexPath(st, se)| > 0 && Name(SeriesIndexPath(st, se)) == IndexName
    ensures |SeriesMetadataPath(st, se)| > 0 && Name(SeriesMetadataPath(st, se)) == MetadataName
    ensures |InstanceMetadataPath(st, se, i)| > |SeriesMetadataPath(st, se)|
  {
  }

  /** Edits without indexes, whose only metadata document is `imp`, touch
      none of the files of an edit made of an index and another metadata
      document. */
  lemma NoIndexesAvoid(e: Tree, f: Tree, imp: Path, index: Path, metadata: Path)
    requires NoIndexes(e, imp) && |index| > 0 && Name(index) == IndexName
    requires |metadata| > 0 && Name(metadata) == MetadataName && metadata != imp
    requires f.files.Keys == {index, metadata}
    ensures forall p :: p in e.files ==> p !in f.files
  {
  }

  lemma IndexApartFromSeries(t: Tree, ds: Dataset, u: Uids, doc: Doc)
    ensures forall p :: p in IndexEdit(t, u.study, StudyIncoming(ds)).files ==> p !in SeriesWrites(Empty, ds, u, doc).files
  {
    var st, se := u.study, u.series;
    SeriesEditFacts(ds, u, doc);
    var sip, smp := SeriesIndexPath(st, se), SeriesMetadataPath(st, se);
    assert |sip| > |StudyIndexPath(st)| && |smp| > |StudyIndexPath(st)|;
  }

  /** Three layers over different files; each file keeps the value of
      the layer that wrote it. */
  lemma ThreeLayersRead(t: Tree, a: Tree, b: Tree, c: Tree)
    requires forall p :: p in a.files ==> p !in b.files && p !in c.files
    requires forall p :: p in b.files ==> p !in c.files
    ensures var r := Layer(Layer(Layer(t, a), b), c);
      && r.files.Keys == t.files.Keys + a.files.Keys + b.files.Keys + c.files.Keys
      && r.dirs == t.dirs + a.dirs + b.dirs + c.dirs
      && (forall p :: p in a.files ==> r.files[p] == a.files[p])
      && (forall p :: p in b.files ==> r.files[p] == b.files[p])
      && (forall p :: p in c.files ==> r.files[p] == c.files[p])
      && (forall p :: p in t.files && p !in a.files && p !in b.files && p !in c.files ==> r.files[p] == t.files[p])
  {
  }

  /** After a successful store the instance metadata reads back with its
      identifiers, the series metadata is the instance's document, the
      series index describes the series, the study index holds the merged
      study elements and the notification is pending. */
  lemma StoreReadsBack(t: Tree, input: Parse, ds: Dataset, u: Uids, doc: Doc)
    requires Identify(input) == Ok((ds, u)) && ExtractMetadata(ds) == Ok(doc)
    requires StoreDicom(t, input).result.Ok?
    ensures var r := StoreDicom(t, input).tree;
      var st, se, i := u.study, u.series, u.instance;
      && r.GetMetadata(st, se, i) == Ok(Overlay(doc, st, se, i))
      && r.GetSeriesMetadata(st, se) == Ok(Object(doc))
      && SeriesIndexPath(st, se) in r.files && r.files[SeriesIndexPath(st, se)] == Json(Object(SeriesIndex(ds, se)))
      && StudyIndexPath(st) in r.files
      && r.files[StudyIndexPath(st)] == Json(Object(MergedIndex(t, st, StudyIncoming(ds))))
      && NotificationPath(st, se, i) in r.files && r.files[NotificationPath(st, se, i)] == Notice("pending")
  {
    var fe, ie, sw := FilesStage(Empty, ds, u, doc), IndexEdit(t, u.study, StudyIncoming(ds)),
                      SeriesWrites(Empty, ds, u, doc);
    StoreLayers(t, input, ds, u, doc);
    var r := StoreDicom(t, input).tree;
    assert r == Layer(Layer(Layer(t, fe), ie), sw);
    StoreEditsApart(t, ds, u, doc);
    ThreeLayersRead(t, fe, ie, sw);
    FilesEditFacts(ds, u, doc);
    SeriesEditFacts(ds, u, doc);
    var imp, smp := InstanceMetadataPath(u.study, u.series, u.instance), SeriesMetadataPath(u.study, u.series);
    var np := NotificationPath(u.study, u.series, u.instance);
    assert ie.files == map[StudyIndexPath(u.study) := Json(Object(MergedIndex(t, u.study, StudyIncoming(ds))))];
    assert np in fe.files;
    assert r.files[imp] == Json(Object(doc));
    assert r.files[smp] == Json(Object(doc));
  }

  /** After a successful store of an object with pixel data, the raw
      bytes, the first frame and the thumbnails at all three levels read
      back; the frame and thumbnails come from the decoded array, or from
      the gray stand-in when decoding failed. */
  lemma StorePixelsReadBack(t: Tree, input: Parse, ds: Dataset, u: Uids, doc: Doc)
    requires Identify(input) == Ok((ds, u)) && ExtractMetadata(ds) == Ok(doc)
    requires StoreDicom(t, input).result.Ok? && "PixelData" in ds.attrs
    ensures var r := StoreDicom(t, input).tree;
      var st, se, i := u.study, u.series, u.instance;
      var a := FrameArray(ds);
      && r.GetPixelData(st, se, i) == Ok(ds.attrs["PixelData"].b)
      && r.GetFrameData(st, se, i, 1) == Ok(Uint16Bytes(a))
      && r.GetThumbnail(st, se, i) == Ok(ThumbnailImage(a))
      && r.GetThumbnail(st, se, "") == Ok(ThumbnailImage(a))
      && r.GetThumbnail(st, "", "") == Ok(ThumbnailImage(a))
      && RenderedPath(st, se, i) in r.files
  {
    var fe, ie, sw := FilesStage(Empty, ds, u, doc), IndexEdit(t, u.study, StudyIncoming(ds)),
                      SeriesWrites(Empty, ds, u, doc);
    StoreLayers(t, input, ds, u, doc);
    StoreEditsApart(t, ds, u, doc);
    ThreeLayersRead(t, fe, ie, sw);
    FilesEditFacts(ds, u, doc);
    PixelEditFacts(u, ds.attrs["PixelData"].b, FrameArray(ds));
  }

  /** After a successful store every bulk data attribute holding a
      non-empty byte string is in its own file under the study. */
  lemma StoreBulkReadsBack(t: Tree, input: Parse, ds: Dataset, u: Uids, doc: Doc, name: string)
    requires Identify(input) == Ok((ds, u)) && ExtractMetadata(ds) == Ok(doc)
    requires StoreDicom(t, input).result.Ok?
    requires name in ds.attrs && IsBulkName(name) && ds.attrs[name].Bytes? && |ds.attrs[name].b| > 0
    ensures var r := StoreDicom(t, input).tree;
      BulkDataPath(u.study, u.instance, name) in r.files
      && r.files[BulkDataPath(u.study, u.instance, name)] == Blob(ds.attrs[name].b)
  {
    var fe, ie, sw := FilesStage(Empty, ds, u, doc), IndexEdit(t, u.study, StudyIncoming(ds)),
                      SeriesWrites(Empty, ds, u, doc);
    StoreLayers(t, input, ds, u, doc);
    StoreEditsApart(t, ds, u, doc);
    ThreeLayersRead(t, fe, ie, sw);
    FilesEditFacts(ds, u, doc);
    assert name in BulkNames(ds);
    BulkFilesHas(ds, u, BulkNames(ds), name);
  }

  /** What a successful store changes: the files of its three layers and
      the directories they create; every other file keeps its content. */
  lemma StoreFootprint(t: Tree, input: Parse, ds: Dataset, u: Uids, doc: Doc)
    requires Identify(input) == Ok((ds, u)) && ExtractMetadata(ds) == Ok(doc)
    requires StoreDicom(t, input).result.Ok?
    ensures var r := StoreDicom(t, input).tree;
      var fe := FilesStage(Empty, ds, u, doc);
      var written := {StudyIndexPath(u.study), SeriesIndexPath(u.study, u.series), SeriesMetadataPath(u.study, u.series)};
      && r.files.Keys == t.files.Keys + fe.files.Keys + written
      && r.dirs == t.dirs + fe.dirs + Prefixes(StudyPath(u.study)) + Prefixes(SeriesPath(u.study, u.series))
      && forall p :: p in t.files && p !in fe.files && p !in written ==> r.files[p] == t.files[p]
  {
    StoreLayers(t, input, ds, u, doc);
    LayersFootprint(t, ds, u, doc);
  }

  /** A successful store leaves its instance directory free of files up
      to the root, so the same upload can create it again. */
  lemma StoreLeavesInstanceOpen(t: Tree, input: Parse, ds: Dataset, u: Uids, doc: Doc)
    requires Identify(input) == Ok((ds, u)) && ExtractMetadata(ds) == Ok(doc)
    requires StoreDicom(t, input).result.Ok?
    ensures !StoreDicom(t, input).tree.Blocked(InstancePath(u.study, u.series, u.instance))
  {
    var fe := FilesStage(Empty, ds, u, doc);
    var written := {StudyIndexPath(u.study), SeriesIndexPath(u.study, u.series), SeriesMetadataPath(u.study, u.series)};
    StoreFootprint(t, input, ds, u, doc);
    StoreWritesAvoidInstance(ds, u, doc);
    UnblockedBeside(t, StoreDicom(t, input).tree, fe.files.Keys + written, InstancePath(u.study, u.series, u.instance));
  }

  /** No file a store writes is its instance directory or one of that
      directory's ancestors. */
  lemma StoreWritesAvoidInstance(ds: Dataset, u: Uids, doc: Doc)
    requires !PixelDataUnwritable(ds)
    ensures var written := {StudyIndexPath(u.study), SeriesIndexPath(u.study, u.series), SeriesMetadataPath(u.study, u.series)};
      forall q :: q in FilesStage(Empty, ds, u, doc).files.Keys + written ==>
        q !in Prefixes(InstancePath(u.study, u.series, u.instance))
  {
    var fe := FilesStage(Empty, ds, u, doc);
    forall q | q in fe.files.Keys + {StudyIndexPath(u.study), SeriesIndexPath(u.study, u.series), SeriesMetadataPath(u.study, u.series)}
      ensures q !in Prefixes(InstancePath(u.study, u.series, u.instance))
    {
      if q in fe.files {
        WrittenFileAvoidsInstance(ds, u, doc, q);
      } else {
        StoredIndexesAvoidInstance(u, q);
      }
    }
  }

  /** Adding files that are none of the ancestors of `p` leaves `p` free
      to be created. */
  lemma UnblockedBeside(t: Tree, r: Tree, extra: set<Path>, p: Path)
    requires !t.Blocked(p) && r.files.Keys == t.files.Keys + extra
    requires forall q :: q in extra ==> q !in Prefixes(p)
    ensures !r.Blocked(p)
  {
    forall k | 1 <= k <= |p| ensures p[..k] !in r.files {
      assert p[..k] in Prefixes(p);
    }
  }

  /** No file of the file-writing stages is the instance directory or one
      of its ancestors. */
  lemma WrittenFileAvoidsInstance(ds: Dataset, u: Uids, doc: Doc, q: Path)
    requires !PixelDataUnwritable(ds) && q in FilesStage(Empty, ds, u, doc).files
    ensures q !in Prefixes(InstancePath(u.study, u.series, u.instance))
  {
    var st, se, i := u.study, u.series, u.instance;
    var ip := InstancePath(st, se, i);
    FilesEditFacts(ds, u, doc);
    if q in BulkEdit(ds, u).files {
      BulkFilesAt(ds, u, BulkNames(ds), q);
      var n :| n in BulkNames(ds) && q == BulkDataPath(st, i, n);
      BulkBesideInstance(st, se, i, n);
    } else if q in PixelStage(Empty, ds, u).files {
      PixelFileAvoidsInstance(u, ds.attrs["PixelData"].b, FrameArray(ds), q);
    } else if q == NotificationPath(st, se, i) {
      InstanceBranches(st, se, i);
      ForksFrom(q, ip, 0);
    } else {
      assert |q| > |ip|;
    }
  }

  /** No file of the pixel stage is the instance directory or one of its
      ancestors. */
  lemma PixelFileAvoidsInstance(u: Uids, b: seq<byte>, a: Array, q: Path)
    requires q in PixelWrites(Empty, u, b, a).files
    ensures q !in Prefixes(InstancePath(u.study, u.series, u.instance))
  {
    var st, se, i := u.study, u.series, u.instance;
    var ip := InstancePath(st, se, i);
    PixelEditFacts(u, b, a);
    if q == ThumbnailPath(st, "", "") || q == ThumbnailPath(st, se, "") || q == ThumbnailPath(st, se, i) {
      ThumbnailBesideInstance(st, se, i, q);
    } else if q == PixelDataPath(st, se, i) {
      assert |q| == |ip| + 1;
    } else if q == FramePath(st, se, i, 1) {
      assert |q| == |ip| + 2;
    } else {
      assert q == RenderedPath(st, se, i);
      assert |q| == |ip| + 2;
    }
  }

  /** The thumbnails of the study, the series and the instance lie beside
      or below the instance directory. */
  lemma ThumbnailBesideInstance(st: string, se: string, i: string, q: Path)
    requires q == ThumbnailPath(st, "", "") || q == ThumbnailPath(st, se, "") || q == ThumbnailPath(st, se, i)
    ensures q !in Prefixes(InstancePath(st, se, i))
  {
    var ip := InstancePath(st, se, i);
    if |q| <= |ip| {
      var d := q[..|q| - 1];
      assert q == d + [ThumbnailName];
      assert d == StudyPath(st) || d == SeriesPath(st, se);
      BesideInstance(st, se, i, d, [ThumbnailName]);
    }
  }

  /** The bulk data files lie beside the instance directory. */
  lemma BulkBesideInstance(st: string, se: string, i: string, n: string)
    ensures BulkDataPath(st, i, n) !in Prefixes(InstancePath(st, se, i))
  {
    assert BulkDataPath(st, i, n) == StudyPath(st) + ["bulkdata", BulkDataName(i, n)];
    BesideInstance(st, se, i, StudyPath(st), ["bulkdata", BulkDataName(i, n)]);
  }

  /** The study index and the series files lie beside the instance
      directory. */
  lemma StoredIndexesAvoidInstance(u: Uids, q: Path)
    requires q in {StudyIndexPath(u.study), SeriesIndexPath(u.study, u.series), SeriesMetadataPath(u.study, u.series)}
    ensures q !in Prefixes(InstancePath(u.study, u.series, u.instance))
  {
    if q == StudyIndexPath(u.study) {
      BesideInstance(u.study, u.series, u.instance, StudyPath(u.study), [IndexName]);
    } else if q == SeriesIndexPath(u.study, u.series) {
      BesideInstance(u.study, u.series, u.instance, SeriesPath(u.study, u.series), [IndexName]);
    } else {
      BesideInstance(u.study, u.series, u.instance, SeriesPath(u.study, u.series), [MetadataName]);
    }
  }

  /** A path that leaves the study or the series directory by another name
      than the instance directory does is none of its ancestors. */
  lemma BesideInstance(st: string, se: string, i: string, d: Path, rest: Path)
    requires d == StudyPath(st) || d == SeriesPath(st, se)
    requires |rest| > 0 && (rest[0] == IndexName || rest[0] == MetadataName || rest[0] == ThumbnailName || rest[0] == "bulkdata")
    ensures d + rest !in Prefixes(InstancePath(st, se, i))
  {
    InstanceBranches(st, se, i);
    ForksFrom(d + rest, InstancePath(st, se, i), |d|);
  }

  /** Where the instance directory passes the study and the series
      directories, and its first component. */
  lemma InstanceBranches(st: string, se: string, i: string)
    ensures var ip, sp, stp := InstancePath(st, se, i), SeriesPath(st, se), StudyPath(st);
      && |sp| < |ip| && ip[..|sp|] == sp && ip[|sp|] == "instances"
      && |stp| < |ip| && ip[..|stp|] == stp && ip[|stp|] == "series"
      && ip[0] == "studies" && NotificationPath(st, se, i)[0] == "notifications"
  {
    var ip, sp, stp := InstancePath(st, se, i), SeriesPath(st, se), StudyPath(st);
    assert ip[..|sp| + 1] == InstancesRoot(st, se);
    assert sp[..|stp| + 1] == SeriesRoot(st);
  }

  /** A path that leaves `p` at position `k` is none of `p`'s ancestors. */
  lemma ForksFrom(q: Path, p: Path, k: nat)
    requires k < |q| && k < |p| && q[..k] == p[..k] && q[k] != p[k]
    ensures q !in Prefixes(p)
  {
    forall j | 1 <= j <= |p| ensures q != p[..j] {
      if |q| == j {
        assert p[..j][k] == p[k];
      }
    }
  }

  lemma LayersFootprint(t: Tree, ds: Dataset, u: Uids, doc: Doc)
    requires !PixelDataUnwritable(ds)
    ensures var fe, ie, sw := FilesStage(Empty, ds, u, doc), IndexEdit(t, u.study, StudyIncoming(ds)),
                              SeriesWrites(Empty, ds, u, doc);
      var r := Layer(Layer(Layer(t, fe), ie), sw);
      var written := {StudyIndexPath(u.study), SeriesIndexPath(u.study, u.series), SeriesMetadataPath(u.study, u.series)};
      && r.files.Keys == t.files.Keys + fe.files.Keys + written
      && r.dirs == t.dirs + fe.dirs + Prefixes(StudyPath(u.study)) + Prefixes(SeriesPath(u.study, u.series))
      && forall p :: p in t.files && p !in fe.files && p !in written ==> r.files[p] == t.files[p]
  {
    var fe, ie, sw := FilesStage(Empty, ds, u, doc), IndexEdit(t, u.study, StudyIncoming(ds)),
                      SeriesWrites(Empty, ds, u, doc);
    StoreEditsApart(t, ds, u, doc);
    SeriesEditFacts(ds, u, doc);
    ThreeLayersFootprint(t, fe, ie, sw, StudyIndexPath(u.study), SeriesIndexPath(u.study, u.series),
                         SeriesMetadataPath(u.study, u.series), Prefixes(StudyPath(u.study)),
                         Prefixes(SeriesPath(u.study, u.series)));
  }

  lemma ThreeLayersFootprint(t: Tree, a: Tree, b: Tree, c: Tree, bp: Path, cp: Path, cq: Path,
                             bd: set<Path>, cd: set<Path>)
    requires forall p :: p in a.files ==> p !in b.files && p !in c.files
    requires forall p :: p in b.files ==> p !in c.files
    requires b.files.Keys == {bp} && b.dirs == bd && c.files.Keys == {cp, cq} && c.dirs == cd
    ensures var r := Layer(Layer(Layer(t, a), b), c);
      && r.files.Keys == t.files.Keys + a.files.Keys + {bp, cp, cq}
      && r.dirs == t.dirs + a.dirs + bd + cd
      && forall p :: p in t.files && p !in a.files && p !in {bp, cp, cq} ==> r.files[p] == t.files[p]
  {
    ThreeLayersRead(t, a, b, c);
  }

  lemma LayerAbsorbs(t: Tree, e: Tree)
    requires forall p :: p in e.files ==> p in t.files && t.files[p] == e.files[p]
    requires e.dirs <= t.dirs
    ensures Layer(t, e) == t
  {
    assert t.files + e.files == t.files;
  }

  /** Laying the same three layers over different files a second time
      changes nothing. */
  lemma ThreeLayersAgain(t: Tree, a: Tree, b: Tree, c: Tree)
    requires forall p :: p in a.files ==> p !in b.files && p !in c.files
    requires forall p :: p in b.files ==> p !in c.files
    ensures var r := Layer(Layer(Layer(t, a), b), c);
      Layer(Layer(Layer(r, a), b), c) == r
  {
    var r := Layer(Layer(Layer(t, a), b), c);
    ThreeLayersRead(t, a, b, c);
    LayerAbsorbs(r, a);
    LayerAbsorbs(r, b);
    LayerAbsorbs(r, c);
  }

  /** Merging the same study elements into the study index again leaves it
      as it is. */
  lemma MergeAgain(t: Tree, study: string, ds: Dataset)
    ensures MergedIndex(t, study, StudyIncoming(ds)) + StudyIncoming(ds) == MergedIndex(t, study, StudyIncoming(ds))
  {
    var inc := StudyIncoming(ds);
    var p := StudyIndexPath(study);
    if p in t.files && t.files[p].Json? && t.files[p].value.Object? {
      var prior := t.files[p].value.doc;
      assert (prior + inc) + inc == prior + inc;
    } else {
      assert 0x0020000D !in inc;
      var n := NewStudyIndex(inc, study);
      assert n + inc == n;
    }
  }

  /** A study index holding the merge of the same elements updates to
      itself. */
  lemma IndexEditAgain(t: Tree, r: Tree, study: string, ds: Dataset)
    requires StudyIndexPath(study) in r.files
    requires r.files[StudyIndexPath(study)] == Json(Object(MergedIndex(t, study, StudyIncoming(ds))))
    ensures IndexUpdatable(r, study)
    ensures IndexEdit(r, study, StudyIncoming(ds)) == IndexEdit(t, study, StudyIncoming(ds))
  {
    MergeAgain(t, study, ds);
  }

  /** Storing the same upload again succeeds and leaves the tree exactly
      as the first store left it: every file is rewritten with the content
      it already has and the study index absorbs the same elements. */
  lemma StoreAgainChangesNothing(t: Tree, input: Parse)
    requires StoreDicom(t, input).result.Ok?
    ensures StoreDicom(StoreDicom(t, input).tree, input) == StoreDicom(t, input)
  {
    var ds, u := Identify(input).value.0, Identify(input).value.1;
    var doc := ExtractMetadata(ds).value;
    var r := StoreDicom(t, input).tree;
    var fe, ie, sw := FilesStage(Empty, ds, u, doc), IndexEdit(t, u.study, StudyIncoming(ds)),
                      SeriesWrites(Empty, ds, u, doc);
    StoreLayers(t, input, ds, u, doc);
    StoreReadsBack(t, input, ds, u, doc);
    IndexEditAgain(t, r, u.study, ds);
    StoreLeavesInstanceOpen(t, input, ds, u, doc);
    StoreLayers(r, input, ds, u, doc);
    StoreEditsApart(t, ds, u, doc);
    ThreeLayersAgain(t, fe, ie, sw);
  }

  /** After a successful store with identifiers that name directories,
      the study, the series and the instance are listed. */
  lemma StoredIsListed(t: Tree, input: Parse, ds: Dataset, u: Uids, doc: Doc)
    requires Identify(input) == Ok((ds, u)) && ExtractMetadata(ds) == Ok(doc)
    requires StoreDicom(t, input).result.Ok?
    requires Named(u.study) && Named(u.series) && Named(u.instance)
    ensures var r := StoreDicom(t, input).tree;
      && r.GetStudies().Ok? && u.study in r.GetStudies().value
      && r.GetSeries(u.study).Ok? && u.series in r.GetSeries(u.study).value
      && r.GetInstances(u.study, u.series).Ok? && u.instance in r.GetInstances(u.study, u.series).value
  {
    StoreFootprint(t, input, ds, u, doc);
    FilesEditFacts(ds, u, doc);
    ListedWhenMade(StoreDicom(t, input).tree, u);
  }

  /** A tree holding an instance directory lists its study, series and
      instance. */
  lemma ListedWhenMade(r: Tree, u: Uids)
    requires Named(u.study) && Named(u.series) && Named(u.instance)
    requires Prefixes(InstancePath(u.study, u.series, u.instance)) <= r.dirs
    ensures && r.GetStudies().Ok? && u.study in r.GetStudies().value
            && r.GetSeries(u.study).Ok? && u.series in r.GetSeries(u.study).value
            && r.GetInstances(u.study, u.series).Ok? && u.instance in r.GetInstances(u.study, u.series).value
  {
    InstanceAncestors(u.study, u.series, u.instance);
  }

  /** The directories above an instance directory, down to it. */
  lemma InstanceAncestors(st: string, se: string, i: string)
    requires Named(st) && Named(se) && Named(i)
    ensures var ps := Prefixes(InstancePath(st, se, i));
      && StudiesDir in ps && StudiesDir + [st] in ps && StudyPath(st) == StudiesDir + [st]
      && SeriesRoot(st) in ps && SeriesRoot(st) + [se] in ps && SeriesPath(st, se) == SeriesRoot(st) + [se]
      && InstancesRoot(st, se) in ps && InstancesRoot(st, se) + [i] in ps
  {
    var ip := InstancePath(st, se, i);
    InstanceLayout(st, se, i, 0);
    assert ip[..1] == StudiesDir;
    assert ip[..2] == StudiesDir + [st];
    assert ip[..3] == SeriesRoot(st);
    assert ip[..4] == SeriesRoot(st) + [se];
    assert ip[..5] == InstancesRoot(st, se);
    assert ip[..6] == InstancesRoot(st, se) + [i];
  }
}
