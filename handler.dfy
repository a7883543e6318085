/** The handler object: it owns the directory tree under its root and
    updates it file by file, as `store_dicom` and its helpers do. Each
    method is proved to leave the tree exactly as the corresponding
    function of `Ingest` describes, so the properties proved about those
    functions hold of the handler. */
module Handler {
  import opened Wrappers
  import opened Paths
  import opened Pixels
  import opened Dicom
  import opened Store
  import opened Ingest

  /** The four directories the handler creates under its root. */
  const BaseDirs: seq<Path> := [StudiesDir, DeduplicatedDir, InstancesDir, NotificationsDir]

  /** Creating each directory of `ps` in turn. */
  function MkdirEach(t: Tree, ps: seq<Path>): Tree
    decreases |ps|
  {
    if ps == [] then t else MkdirEach(t, ps[..|ps| - 1]).Mkdir(ps[|ps| - 1])
  }

  /** A path of one component has no ancestor but itself. */
  lemma PrefixesOfTopLevel(p: Path)
    requires |p| == 1
    ensures Prefixes(p) == {p}
  {
    assert p[..1] == p;
  }

  /** What `__init__` does to the tree found under the root: the four base
      directories exist afterwards, no file is touched, and the study list
      is written as `[]` only when nothing is at its path yet. */
  function Init(t: Tree): (r: Tree)
    ensures r.dirs == t.dirs + {StudiesDir, DeduplicatedDir, InstancesDir, NotificationsDir}
    ensures forall p :: p in t.files ==> p in r.files && r.files[p] == t.files[p]
    ensures t.Exists(StudiesIndexPath) ==> r.files == t.files
    ensures !t.Exists(StudiesIndexPath) ==> r.files == t.files[StudiesIndexPath := Json(List([]))]
  {
    PrefixesOfTopLevel(StudiesDir);
    PrefixesOfTopLevel(DeduplicatedDir);
    PrefixesOfTopLevel(InstancesDir);
    PrefixesOfTopLevel(NotificationsDir);
    var t1 := MkdirEach(t, BaseDirs);
    assert t1 == t.Mkdir(StudiesDir).Mkdir(DeduplicatedDir).Mkdir(InstancesDir).Mkdir(NotificationsDir) by {
      var ps := BaseDirs;
      assert ps[..3] == [StudiesDir, DeduplicatedDir, InstancesDir];
      assert ps[..3][..2] == [StudiesDir, DeduplicatedDir];
      assert ps[..3][..2][..1] == [StudiesDir];
      assert [StudiesDir][..0] == [];
      assert MkdirEach(t, [StudiesDir]) == t.Mkdir(StudiesDir);
      assert MkdirEach(t, ps[..3][..2]) == t.Mkdir(StudiesDir).Mkdir(DeduplicatedDir);
      assert MkdirEach(t, ps[..3]) == t.Mkdir(StudiesDir).Mkdir(DeduplicatedDir).Mkdir(InstancesDir);
    }
    if t1.Exists(StudiesIndexPath) then t1 else t1.Write(StudiesIndexPath, Json(List([])))
  }

  /** A fresh root becomes a valid store. */
  lemma InitEmptyIsValid()
    ensures Init(Tree(map[], {})).Valid()
  {
  }

  /** A root whose files all fit their names, holding the empty study list
      or nothing at its path, becomes a valid store. */
  lemma InitMakesValid(t: Tree)
    requires forall p :: p in t.files && p != StudiesIndexPath ==> Fits(p, t.files[p])
    requires StudiesIndexPath in t.files ==> t.files[StudiesIndexPath] == Json(List([]))
    requires StudiesIndexPath !in t.dirs
    ensures Init(t).Valid()
  {
  }

  /** Opening a valid store again changes nothing. */
  lemma InitKeepsValidStore(t: Tree)
    requires t.Valid()
    ensures Init(t) == t
  {
  }

  /** Opening a root twice is the same as opening it once. */
  lemma InitIdempotent(t: Tree)
    ensures Init(Init(t)) == Init(t)
  {
  }

  /** One more bulk attribute writes its file when it has content. */
  lemma BulkWritesStep(t: Tree, ds: Dataset, u: Uids, names: seq<string>, k: nat)
    requires k < |names| && forall n :: n in names ==> n in ds.attrs
    ensures var before, c := BulkWrites(t, ds, u, names[..k]), BulkContent(ds.attrs[names[k]]);
      BulkWrites(t, ds, u, names[..k + 1])
        == if c.Some? then before.Write(BulkDataPath(u.study, u.instance, names[k]), Blob(c.value)) else before
  {
    assert names[..k + 1][..k] == names[..k];
  }

  class DicomHandler {
    var tree: Tree

    /** `__init__`: creates the base directories one after another, then
        the study list when it is missing. */
    constructor(existing: Tree)
      ensures tree == Init(existing)
    {
      var t := existing;
      for k := 0 to |BaseDirs|
        invariant t == MkdirEach(existing, BaseDirs[..k])
      {
        assert BaseDirs[..k + 1][..k] == BaseDirs[..k];
        t := t.Mkdir(BaseDirs[k]);
      }
      assert BaseDirs[..|BaseDirs|] == BaseDirs;
      if !t.Exists(StudiesIndexPath) {
        t := t.Write(StudiesIndexPath, Json(List([])));
      }
      tree := t;
    }

    /** `_generate_thumbnail`: the thumbnail directory, then the image. */
    method GenerateThumbnail(a: Array, study: string, series: string, instance: string)
      modifies this
      ensures tree == WriteThumbnail(old(tree), a, study, series, instance)
    {
      tree := tree.Mkdir(ThumbnailDir(study, series, instance));
      tree := tree.Write(ThumbnailPath(study, series, instance), Thumbnail(ThumbnailImage(a)));
    }

    /** `_update_studies_index`: returns the exception it raises, if any. */
    method UpdateStudiesIndex(study: string, incoming: Doc) returns (error: Option<Exception>)
      modifies this
      ensures Step(tree, error) == Ingest.UpdateStudiesIndex(old(tree), study, incoming)
    {
      tree := tree.Mkdir(StudyPath(study));
      var p := StudyIndexPath(study);
      if !tree.Exists(p) {
        tree := tree.Write(p, Json(Object(NewStudyIndex(incoming, study))));
        return None;
      }
      var read := tree.ReadFile(p, "");
      match read {
        case Ok(Json(Object(prior))) =>
          tree := tree.Write(p, Json(Object(prior + incoming)));
          error := None;
        case Ok(Json(List(_))) =>
          error := Some(OtherError("AttributeError", "'list' object has no attribute 'update'"));
        case Ok(_) =>
          error := Some(WrongKind);
        case Err(e) =>
          error := Some(e);
      }
    }

    /** The loop over the bulk data attributes: one file per attribute
        holding a non-empty byte string. */
    method StoreBulkData(ds: Dataset, u: Uids)
      modifies this
      ensures tree == BulkWrites(old(tree), ds, u, BulkNames(ds))
    {
      var names := BulkNames(ds);
      assert forall n :: n in names ==> n in ds.attrs;
      ghost var start := tree;
      for k := 0 to |names|
        invariant tree == BulkWrites(start, ds, u, names[..k])
      {
        BulkWritesStep(start, ds, u, names, k);
        var n := names[k];
        var content := BulkContent(ds.attrs[n]);
        if content.Some? {
          tree := tree.Write(BulkDataPath(u.study, u.instance, n), Blob(content.value));
        }
      }
      assert names[..|names|] == names;
    }

    /** `store_dicom`: returns the three identifiers, or the exception
        that ended the store, leaving behind what was written up to it. */
    method StoreDicom(input: Parse) returns (result: Result<Uids, Exception>)
      modifies this
      ensures Stored(tree, result) == Ingest.StoreDicom(old(tree), input)
    {
      var identified := Identify(input);
      if identified.Err? {
        return Err(identified.error);
      }
      var ds, u := identified.value.0, identified.value.1;
      var st, se, i := u.study, u.series, u.instance;
      ghost var t0 := tree;
      if tree.Blocked(InstancePath(st, se, i)) {
        return Err(tree.MkdirError(InstancePath(st, se, i)));
      }
      tree := tree.Mkdir(InstancePath(st, se, i));
      var extracted := ExtractMetadata(ds);
      if extracted.Err? {
        return Err(extracted.error);
      }
      var doc := extracted.value;
      tree := tree.Write(InstanceMetadataPath(st, se, i), Json(Object(doc)));
      ghost var t1 := tree;
      if "PixelData" in ds.attrs {
        var v := ds.attrs["PixelData"];
        if !v.Bytes? {
          return Err(OtherError("TypeError", "memoryview: a bytes-like object is required, not '" + TypeName(v) + "'"));
        }
        tree := tree.Write(PixelDataPath(st, se, i), Blob(v.b));
        tree := tree.Mkdir(FramesDir(st, se, i));
        var a := FrameArray(ds);
        GenerateThumbnail(a, st, "", "");
        GenerateThumbnail(a, st, se, "");
        GenerateThumbnail(a, st, se, i);
        tree := tree.Write(FramePath(st, se, i, 1), Frame(a));
        tree := tree.Mkdir(RenderedDir(st, se, i));
        tree := tree.Write(RenderedPath(st, se, i), Rendered);
      }
      assert tree == PixelStage(t1, ds, u);
      tree := tree.Mkdir(BulkDataDir(st));
      // The study thumbnail was written by the pixel stage whenever the
      // object has pixel data, so the fallback that would generate it here
      // never runs.
      if !tree.Exists(ThumbnailPath(st, "", "")) && "PixelData" in ds.attrs {
        assert false;
      }
      StoreBulkData(ds, u);
      tree := tree.Write(NotificationPath(st, se, i), Notice("pending"));
      assert tree == FilesStage(t0, ds, u, doc);
      var error := UpdateStudiesIndex(st, StudyIncoming(ds));
      if error.Some? {
        return Err(error.value);
      }
      tree := tree.Mkdir(SeriesPath(st, se));
      tree := tree.Write(SeriesIndexPath(st, se), Json(Object(SeriesIndex(ds, se))));
      tree := tree.Write(SeriesMetadataPath(st, se), Json(Object(doc)));
      return Ok(u);
    }
  }
}
