/** What a store leaves behind. Every stage of `store_dicom` only creates
    directories and writes files, so each stage is a set of edits laid
    over the tree it starts from; the read-back, validity and re-store
    properties all follow from which edits a store makes. */
module IngestFacts {
  import opened Wrappers
  import opened Text
  import opened Order
  import opened Paths
  import opened Pixels
  import opened Dicom
  import opened Store
  import opened Ingest

  const Empty := Tree(map[], {})

  /** `t` with the files and directories of `e` laid over it. */
  function Layer(t: Tree, e: Tree): Tree {
    Tree(t.files + e.files, t.dirs + e.dirs)
  }

  lemma LayerEmpty(t: Tree)
    ensures Layer(t, Empty) == t
  {
    assert t.files + map[] == t.files;
  }

  lemma LayerWrite(t: Tree, e: Tree, p: Path, a: Artifact)
    ensures Layer(t, e).Write(p, a) == Layer(t, e.Write(p, a))
  {
    assert (t.files + e.files)[p := a] == t.files + e.files[p := a];
  }

  lemma LayerMkdir(t: Tree, e: Tree, p: Path)
    ensures Layer(t, e).Mkdir(p) == Layer(t, e.Mkdir(p))
  {
  }

  lemma LayerLayer(t: Tree, e: Tree, f: Tree)
    ensures Layer(Layer(t, e), f) == Layer(t, Layer(e, f))
  {
    assert (t.files + e.files) + f.files == t.files + (e.files + f.files);
  }

  // ---------------------------------------------------------------
  // each stage is a layer
  // ---------------------------------------------------------------

  lemma ThumbnailLayer(t: Tree, e: Tree, a: Array, st: string, se: string, i: string)
    ensures WriteThumbnail(Layer(t, e), a, st, se, i) == Layer(t, WriteThumbnail(e, a, st, se, i))
  {
    LayerMkdir(t, e, ThumbnailDir(st, se, i));
    LayerWrite(t, e.Mkdir(ThumbnailDir(st, se, i)), ThumbnailPath(st, se, i), Thumbnail(ThumbnailImage(a)));
  }

  lemma PixelWritesLayer(t: Tree, e: Tree, u: Uids, b: seq<byte>, a: Array)
    ensures PixelWrites(Layer(t, e), u, b, a) == Layer(t, PixelWrites(e, u, b, a))
  {
    var st, se, i := u.study, u.series, u.instance;
    LayerWrite(t, e, PixelDataPath(st, se, i), Blob(b));
    var e1 := e.Write(PixelDataPath(st, se, i), Blob(b));
    LayerMkdir(t, e1, FramesDir(st, se, i));
    var e2 := e1.Mkdir(FramesDir(st, se, i));
    ThumbnailLayer(t, e2, a, st, "", "");
    var e3 := WriteThumbnail(e2, a, st, "", "");
    ThumbnailLayer(t, e3, a, st, se, "");
    var e4 := WriteThumbnail(e3, a, st, se, "");
    ThumbnailLayer(t, e4, a, st, se, i);
    var e5 := WriteThumbnail(e4, a, st, se, i);
    LayerWrite(t, e5, FramePath(st, se, i, 1), Frame(a));
    var e6 := e5.Write(FramePath(st, se, i, 1), Frame(a));
    LayerMkdir(t, e6, RenderedDir(st, se, i));
    LayerWrite(t, e6.Mkdir(RenderedDir(st, se, i)), RenderedPath(st, se, i), Rendered);
  }

  lemma {:induction false} BulkWritesLayer(t: Tree, e: Tree, ds: Dataset, u: Uids, names: seq<string>)
    requires forall n :: n in names ==> n in ds.attrs
    ensures BulkWrites(Layer(t, e), ds, u, names) == Layer(t, BulkWrites(e, ds, u, names))
    decreases |names|
  {
    if names != [] {
      var front := names[..|names| - 1];
      BulkWritesLayer(t, e, ds, u, front);
      var n := names[|names| - 1];
      match BulkContent(ds.attrs[n])
      case Some(b) => LayerWrite(t, BulkWrites(e, ds, u, front), BulkDataPath(u.study, u.instance, n), Blob(b));
      case None =>
    }
  }

  lemma FilesStageLayer(t: Tree, ds: Dataset, u: Uids, doc: Doc)
    requires !PixelDataUnwritable(ds)
    ensures FilesStage(t, ds, u, doc) == Layer(t, FilesStage(Empty, ds, u, doc))
  {
    var st, se, i := u.study, u.series, u.instance;
    LayerEmpty(t);
    LayerMkdir(t, Empty, InstancePath(st, se, i));
    var e1 := Empty.Mkdir(InstancePath(st, se, i));
    LayerWrite(t, e1, InstanceMetadataPath(st, se, i), Json(Object(doc)));
    var e2 := e1.Write(InstanceMetadataPath(st, se, i), Json(Object(doc)));
    if "PixelData" in ds.attrs {
      PixelWritesLayer(t, e2, u, ds.attrs["PixelData"].b, FrameArray(ds));
    }
    var e3 := PixelStage(e2, ds, u);
    LayerMkdir(t, e3, BulkDataDir(st));
    BulkWritesLayer(t, e3.Mkdir(BulkDataDir(st)), ds, u, BulkNames(ds));
    var e4 := BulkStage(e3, ds, u);
    LayerWrite(t, e4, NotificationPath(st, se, i), Notice("pending"));
  }

  // ---------------------------------------------------------------
  // what each stage writes
  // ---------------------------------------------------------------

  /** The last component of a path: the name of the file or directory. */
  function Name(p: Path): string
    requires |p| > 0
  {
    p[|p| - 1]
  }

  /** A file name ending in 'n' (".bin", ".json") is none of the names
      that carry a kind, so any artifact fits it. */
  lemma PlainNameFits(p: Path, a: Artifact)
    requires |p| > 0 && |Name(p)| > 0 && Name(p)[|Name(p)| - 1] == 'n'
    ensures Fits(p, a) && p != StudiesIndexPath
  {
    NamesDistinct();
    var name := Name(p);
    assert MetadataName[|MetadataName| - 1] == 'z' && IndexName[|IndexName| - 1] == 'z';
    assert PixelDataName[|PixelDataName| - 1] == 'w' && ThumbnailName[|ThumbnailName| - 1] == 'g';
    assert FrameName(1)[3] == 'z';
    assert |name| < 3 || name[|name| - 3..][2] == 'n';
    assert ".gz"[2] == 'z';
  }

  /** Bulk data file names ending in ".bin" tell their attributes apart. */
  lemma BulkDataNameInjective(i: string, m: string, n: string)
    requires BulkDataName(i, m) == BulkDataName(i, n)
    ensures m == n
  {
    var s := BulkDataName(i, m);
    assert |m| == |n|;
    assert s[|i| + 1..|i| + 1 + |m|] == m;
    assert BulkDataName(i, n)[|i| + 1..|i| + 1 + |n|] == n;
  }

  lemma BulkDataNameEndsInN(i: string, n: string)
    ensures |BulkDataName(i, n)| > 0 && BulkDataName(i, n)[|BulkDataName(i, n)| - 1] == 'n'
  {
  }

  /** The pixel stage on an empty tree, written out as its files and
      directories. */
  lemma PixelWritesUnfold(u: Uids, b: seq<byte>, a: Array)
    ensures var st, se, i := u.study, u.series, u.instance;
      var th := Thumbnail(ThumbnailImage(a));
      PixelWrites(Empty, u, b, a)
      == Tree(map[PixelDataPath(st, se, i) := Blob(b)][ThumbnailPath(st, "", "") := th][ThumbnailPath(st, se, "") := th]
                 [ThumbnailPath(st, se, i) := th][FramePath(st, se, i, 1) := Frame(a)][RenderedPath(st, se, i) := Rendered],
              Prefixes(FramesDir(st, se, i)) + Prefixes(ThumbnailDir(st, "", "")) + Prefixes(ThumbnailDir(st, se, ""))
              + Prefixes(ThumbnailDir(st, se, i)) + Prefixes(RenderedDir(st, se, i)))
  {
  }

  /** The pixel stage writes the raw bytes, three thumbnails, the first
      frame and the rendered marker, and nothing else. */
  lemma PixelEditFacts(u: Uids, b: seq<byte>, a: Array)
    ensures var e := PixelWrites(Empty, u, b, a);
      var st, se, i := u.study, u.series, u.instance;
      && e.files.Keys == {PixelDataPath(st, se, i), ThumbnailPath(st, "", ""), ThumbnailPath(st, se, ""),
                          ThumbnailPath(st, se, i), FramePath(st, se, i, 1), RenderedPath(st, se, i)}
      && e.files[PixelDataPath(st, se, i)] == Blob(b)
      && e.files[ThumbnailPath(st, "", "")] == Thumbnail(ThumbnailImage(a))
      && e.files[ThumbnailPath(st, se, "")] == Thumbnail(ThumbnailImage(a))
      && e.files[ThumbnailPath(st, se, i)] == Thumbnail(ThumbnailImage(a))
      && e.files[FramePath(st, se, i, 1)] == Frame(a)
      && e.files[RenderedPath(st, se, i)] == Rendered
      && e.dirs == Prefixes(FramesDir(st, se, i)) + Prefixes(ThumbnailDir(st, "", "")) + Prefixes(ThumbnailDir(st, se, ""))
                   + Prefixes(ThumbnailDir(st, se, i)) + Prefixes(RenderedDir(st, se, i))
  {
    PixelWritesUnfold(u, b, a);
    NamesDistinct();
    var st, se, i := u.study, u.series, u.instance;
    var pd, fr, rd := PixelDataPath(st, se, i), FramePath(st, se, i, 1), RenderedPath(st, se, i);
    var t1, t2, t3 := ThumbnailPath(st, "", ""), ThumbnailPath(st, se, ""), ThumbnailPath(st, se, i);
    assert Name(pd) == PixelDataName && Name(fr) == FrameName(1) && Name(rd) == RenderedName;
    assert Name(t1) == ThumbnailName && Name(t2) == ThumbnailName && Name(t3) == ThumbnailName;
    SixWrites(PixelWrites(Empty, u, b, a).files, pd, t1, t2, t3, fr, rd,
              Blob(b), Thumbnail(ThumbnailImage(a)), Frame(a), Rendered);
  }

  /** Six writes under paths that differ except among the three
      thumbnails, which receive the same artifact. */
  lemma SixWrites(m: map<Path, Artifact>, pd: Path, t1: Path, t2: Path, t3: Path, fr: Path, rd: Path,
                  blob: Artifact, th: Artifact, frame: Artifact, rendered: Artifact)
    requires m == map[pd := blob][t1 := th][t2 := th][t3 := th][fr := frame][rd := rendered]
    requires pd != t1 && pd != t2 && pd != t3 && pd != fr && pd != rd
    requires fr != t1 && fr != t2 && fr != t3 && fr != rd
    requires rd != t1 && rd != t2 && rd != t3
    ensures m.Keys == {pd, t1, t2, t3, fr, rd}
    ensures m[pd] == blob && m[t1] == th && m[t2] == th && m[t3] == th && m[fr] == frame && m[rd] == rendered
  {
  }

  lemma BulkDataPathInjective(u: Uids)
    ensures forall m, n :: BulkDataPath(u.study, u.instance, m) == BulkDataPath(u.study, u.instance, n) ==> m == n
  {
    forall m, n | BulkDataPath(u.study, u.instance, m) == BulkDataPath(u.study, u.instance, n)
      ensures m == n
    {
      assert Name(BulkDataPath(u.study, u.instance, m)) == BulkDataName(u.instance, m);
      BulkDataNameInjective(u.instance, m, n);
    }
  }

  /** The files the bulk data writes for `names` create: one for each
      attribute holding a non-empty byte string. */
  function BulkFiles(ds: Dataset, u: Uids, names: seq<string>): map<Path, Artifact>
    requires forall n :: n in names ==> n in ds.attrs
  {
    BulkDataPathInjective(u);
    map n | n in names && BulkContent(ds.attrs[n]).Some?
      :: BulkDataPath(u.study, u.instance, n) := Blob(BulkContent(ds.attrs[n]).value)
  }

  lemma BulkFilesAt(ds: Dataset, u: Uids, names: seq<string>, p: Path)
    requires forall n :: n in names ==> n in ds.attrs
    requires p in BulkFiles(ds, u, names)
    ensures exists n :: n in names && p == BulkDataPath(u.study, u.instance, n)
    ensures |p| > 0 && p[0] == "studies" && |Name(p)| > 0 && Name(p)[|Name(p)| - 1] == 'n'
  {
    var n :| n in names && BulkContent(ds.attrs[n]).Some? && p == BulkDataPath(u.study, u.instance, n);
    BulkDataNameEndsInN(u.instance, n);
  }

  lemma BulkFilesHas(ds: Dataset, u: Uids, names: seq<string>, n: string)
    requires forall m :: m in names ==> m in ds.attrs
    requires n in names && BulkContent(ds.attrs[n]).Some?
    ensures var p := BulkDataPath(u.study, u.instance, n);
      p in BulkFiles(ds, u, names) && BulkFiles(ds, u, names)[p] == Blob(BulkContent(ds.attrs[n]).value)
  {
    BulkDataPathInjective(u);
  }

  /** Each bulk attribute with non-empty bytes is written to its own file. */
  lemma {:induction false} BulkWritesFiles(ds: Dataset, u: Uids, names: seq<string>)
    requires forall n :: n in names ==> n in ds.attrs
    ensures BulkWrites(Empty, ds, u, names) == Tree(BulkFiles(ds, u, names), {})
    decreases |names|
  {
    if names != [] {
      var front := names[..|names| - 1];
      var n := names[|names| - 1];
      BulkWritesFiles(ds, u, front);
      assert names == front + [n];
      BulkFilesSnoc(ds, u, front, n);
    }
  }

  /** One more bulk attribute adds its file when it has content. */
  lemma BulkFilesSnoc(ds: Dataset, u: Uids, front: seq<string>, n: string)
    requires forall m :: m in front ==> m in ds.attrs
    requires n in ds.attrs
    ensures BulkContent(ds.attrs[n]).Some? ==>
      BulkFiles(ds, u, front + [n]) == BulkFiles(ds, u, front)[BulkDataPath(u.study, u.instance, n) := Blob(BulkContent(ds.attrs[n]).value)]
    ensures BulkContent(ds.attrs[n]).None? ==> BulkFiles(ds, u, front + [n]) == BulkFiles(ds, u, front)
  {
    var names := front + [n];
    assert forall m :: m in names <==> m in front || m == n;
    BulkDataPathInjective(u);
  }

  lemma PixelStageLayer(t: Tree, ds: Dataset, u: Uids)
    requires !PixelDataUnwritable(ds)
    ensures PixelStage(t, ds, u) == Layer(t, PixelStage(Empty, ds, u))
  {
    LayerEmpty(t);
    if "PixelData" in ds.attrs {
      PixelWritesLayer(t, Empty, u, ds.attrs["PixelData"].b, FrameArray(ds));
    }
  }

  /** The bulk data stage: its directory and one file per bulk attribute. */
  function BulkEdit(ds: Dataset, u: Uids): Tree {
    Tree(BulkFiles(ds, u, BulkNames(ds)), Prefixes(BulkDataDir(u.study)))
  }

  lemma BulkEditWrites(ds: Dataset, u: Uids)
    ensures BulkStage(Empty, ds, u) == BulkEdit(ds, u)
  {
    var names := BulkNames(ds);
    var bf := BulkFiles(ds, u, names);
    var d := Empty.Mkdir(BulkDataDir(u.study));
    LayerEmpty(d);
    BulkWritesLayer(d, Empty, ds, u, names);
    BulkWritesFiles(ds, u, names);
    assert map[] + bf == bf;
  }

  lemma BulkStageLayer(t: Tree, ds: Dataset, u: Uids)
    ensures BulkStage(t, ds, u) == Layer(t, BulkEdit(ds, u))
  {
    var d := Empty.Mkdir(BulkDataDir(u.study));
    LayerEmpty(t);
    LayerMkdir(t, Empty, BulkDataDir(u.study));
    BulkWritesLayer(t, d, ds, u, BulkNames(ds));
    BulkEditWrites(ds, u);
  }

  /** The instance directory and its metadata document. */
  function MetadataEdit(u: Uids, doc: Doc): Tree {
    Empty.Mkdir(InstancePath(u.study, u.series, u.instance))
         .Write(InstanceMetadataPath(u.study, u.series, u.instance), Json(Object(doc)))
  }

  function NotificationEdit(u: Uids): Tree {
    Empty.Write(NotificationPath(u.study, u.series, u.instance), Notice("pending"))
  }

  /** The file-writing stages, one layer each. */
  lemma FilesEditParts(ds: Dataset, u: Uids, doc: Doc)
    requires !PixelDataUnwritable(ds)
    ensures FilesStage(Empty, ds, u, doc)
         == Layer(Layer(Layer(MetadataEdit(u, doc), PixelStage(Empty, ds, u)), BulkEdit(ds, u)), NotificationEdit(u))
  {
    var e2 := MetadataEdit(u, doc);
    PixelStageLayer(e2, ds, u);
    var e3 := PixelStage(e2, ds, u);
    BulkStageLayer(e3, ds, u);
    var e4 := BulkStage(e3, ds, u);
    LayerEmpty(e4);
    LayerWrite(e4, Empty, NotificationPath(u.study, u.series, u.instance), Notice("pending"));
  }

  /** Every file of `e` holds the kind its name calls for, and none is
      the top-level study list. */
  predicate SafeEdit(e: Tree) {
    forall p :: p in e.files ==> Fits(p, e.files[p]) && p != StudiesIndexPath
  }

  lemma LayerSafe(e: Tree, f: Tree)
    requires SafeEdit(e) && SafeEdit(f)
    ensures SafeEdit(Layer(e, f))
  {
  }

  /** Laying a safe edit over a valid store keeps it valid. */
  lemma LayerKeepsValid(t: Tree, e: Tree)
    requires t.Valid() && SafeEdit(e)
    ensures Layer(t, e).Valid()
  {
    var r := Layer(t, e);
    assert StudiesIndexPath in r.files && r.files[StudiesIndexPath] == Json(List([]));
    forall p | p in r.files && p != StudiesIndexPath
      ensures Fits(p, r.files[p])
    {
      if p in e.files {
        assert r.files[p] == e.files[p];
      } else {
        assert r.files[p] == t.files[p];
      }
    }
  }

  /** The artifacts the handler writes under fixed names fit them. */
  lemma FixedNameFits(p: Path, a: Artifact)
    requires |p| > 0
    requires || (Name(p) == PixelDataName && a.Blob?)
             || (Name(p) == ThumbnailName && a.Thumbnail?)
             || (Name(p) == FrameName(1) && a.Frame?)
             || Name(p) == RenderedName
             || (Name(p) == MetadataName && a.Json? && a.value.Object?)
    ensures Fits(p, a) && p != StudiesIndexPath
  {
    NamesDistinct();
    assert Name(StudiesIndexPath) == IndexName;
  }

  /** Six files under the pixel stage's names, each holding the kind its
      name calls for. */
  lemma PixelFilesSafe(e: Tree, pd: Path, t1: Path, t2: Path, t3: Path, fr: Path, rd: Path)
    requires e.files.Keys == {pd, t1, t2, t3, fr, rd}
    requires |pd| > 0 && Name(pd) == PixelDataName && e.files[pd].Blob?
    requires |t1| > 0 && Name(t1) == ThumbnailName && e.files[t1].Thumbnail?
    requires |t2| > 0 && Name(t2) == ThumbnailName && e.files[t2].Thumbnail?
    requires |t3| > 0 && Name(t3) == ThumbnailName && e.files[t3].Thumbnail?
    requires |fr| > 0 && Name(fr) == FrameName(1) && e.files[fr].Frame?
    requires |rd| > 0 && Name(rd) == RenderedName
    ensures SafeEdit(e)
    ensures forall p :: p in e.files ==>
      |p| > 0 && (Name(p) == PixelDataName || Name(p) == ThumbnailName || Name(p) == FrameName(1)
                  || Name(p) == RenderedName)
  {
    forall p | p in e.files
      ensures Fits(p, e.files[p]) && p != StudiesIndexPath
      ensures |p| > 0 && (Name(p) == PixelDataName || Name(p) == ThumbnailName || Name(p) == FrameName(1)
                          || Name(p) == RenderedName)
    {
      assert p == pd || p == t1 || p == t2 || p == t3 || p == fr || p == rd;
      if p == pd {
        FixedNameFits(pd, e.files[pd]);
      } else if p == fr {
        FixedNameFits(fr, e.files[fr]);
      } else if p == rd {
        FixedNameFits(rd, e.files[rd]);
      } else if p == t1 {
        FixedNameFits(t1, e.files[t1]);
      } else if p == t2 {
        FixedNameFits(t2, e.files[t2]);
      } else {
        FixedNameFits(t3, e.files[t3]);
      }
    }
  }

  /** The names the pixel stage writes under. */
  lemma PixelEditNames(ds: Dataset, u: Uids)
    requires !PixelDataUnwritable(ds)
    ensures var e := PixelStage(Empty, ds, u);
      && SafeEdit(e)
      && forall p :: p in e.files ==>
           |p| > 0 && (Name(p) == PixelDataName || Name(p) == ThumbnailName || Name(p) == FrameName(1)
                       || Name(p) == RenderedName)
  {
    if "PixelData" in ds.attrs {
      var st, se, i := u.study, u.series, u.instance;
      var b, a := ds.attrs["PixelData"].b, FrameArray(ds);
      PixelEditFacts(u, b, a);
      var pd, fr, rd := PixelDataPath(st, se, i), FramePath(st, se, i, 1), RenderedPath(st, se, i);
      var t1, t2, t3 := ThumbnailPath(st, "", ""), ThumbnailPath(st, se, ""), ThumbnailPath(st, se, i);
      assert Name(pd) == PixelDataName && Name(fr) == FrameName(1) && Name(rd) == RenderedName;
      assert Name(t1) == ThumbnailName && Name(t2) == ThumbnailName && Name(t3) == ThumbnailName;
      PixelFilesSafe(PixelWrites(Empty, u, b, a), pd, t1, t2, t3, fr, rd);
    } else {
      assert PixelStage(Empty, ds, u) == Empty;
    }
  }

  lemma BulkEditNames(ds: Dataset, u: Uids)
    ensures var e := BulkEdit(ds, u);
      && SafeEdit(e)
      && forall p :: p in e.files ==> |p| > 0 && p[0] == "studies" && |Name(p)| > 0 && Name(p)[|Name(p)| - 1] == 'n'
  {
    forall p | p in BulkEdit(ds, u).files
      ensures Fits(p, BulkEdit(ds, u).files[p]) && p != StudiesIndexPath
      ensures |p| > 0 && p[0] == "studies" && |Name(p)| > 0 && Name(p)[|Name(p)| - 1] == 'n'
    {
      BulkFilesAt(ds, u, BulkNames(ds), p);
      PlainNameFits(p, BulkEdit(ds, u).files[p]);
    }
  }

  lemma MetadataEditNames(u: Uids, doc: Doc)
    ensures var e := MetadataEdit(u, doc);
      && SafeEdit(e)
      && e.files == map[InstanceMetadataPath(u.study, u.series, u.instance) := Json(Object(doc))]
  {
    var p := InstanceMetadataPath(u.study, u.series, u.instance);
    assert Name(p) == MetadataName;
    FixedNameFits(p, Json(Object(doc)));
  }

  lemma NotificationEditNames(u: Uids)
    ensures var e := NotificationEdit(u);
      && SafeEdit(e)
      && forall p :: p in e.files ==> |p| > 0 && p[0] == "notifications" && |Name(p)| > 0 && Name(p)[|Name(p)| - 1] == 'n'
  {
    var p := NotificationPath(u.study, u.series, u.instance);
    assert Name(p) == NotificationName(u.study, u.series, u.instance);
    PlainNameFits(p, Notice("pending"));
  }

  /** The last letters of the fixed names: none of them is 'n'. */
  lemma FixedNamesLastLetters()
    ensures MetadataName[|MetadataName| - 1] == 'z' && IndexName[|IndexName| - 1] == 'z'
    ensures PixelDataName[|PixelDataName| - 1] == 'w' && ThumbnailName[|ThumbnailName| - 1] == 'g'
    ensures FrameName(1)[|FrameName(1)| - 1] == 'z' && RenderedName[|RenderedName| - 1] == 'g'
  {
    NamesDistinct();
  }

  /** Four edits touching different files, laid in order. */
  lemma LayerFour(a: Tree, b: Tree, c: Tree, d: Tree)
    requires forall p :: p in a.files ==> p !in b.files && p !in c.files && p !in d.files
    requires forall p :: p in b.files ==> p !in c.files && p !in d.files
    requires forall p :: p in c.files ==> p !in d.files
    ensures var r := Layer(Layer(Layer(a, b), c), d);
      && r.files.Keys == a.files.Keys + b.files.Keys + c.files.Keys + d.files.Keys
      && r.dirs == a.dirs + b.dirs + c.dirs + d.dirs
      && (forall p :: p in a.files ==> r.files[p] == a.files[p])
      && (forall p :: p in b.files ==> r.files[p] == b.files[p])
      && (forall p :: p in c.files ==> r.files[p] == c.files[p])
      && (forall p :: p in d.files ==> r.files[p] == d.files[p])
  {
  }

  lemma MetadataApart(ds: Dataset, u: Uids)
    requires !PixelDataUnwritable(ds)
    ensures var imp := InstanceMetadataPath(u.study, u.series, u.instance);
      imp !in PixelStage(Empty, ds, u).files && imp !in BulkEdit(ds, u).files
      && imp !in NotificationEdit(u).files
  {
    var imp := InstanceMetadataPath(u.study, u.series, u.instance);
    assert Name(imp) == MetadataName;
    PixelEditNames(ds, u);
    BulkEditNames(ds, u);
    NotificationEditNames(u);
    NamesDistinct();
    FixedNamesLastLetters();
  }

  lemma PixelApart(ds: Dataset, u: Uids)
    requires !PixelDataUnwritable(ds)
    ensures forall p :: p in PixelStage(Empty, ds, u).files ==> p !in BulkEdit(ds, u).files && p !in NotificationEdit(u).files
  {
    PixelEditNames(ds, u);
    BulkEditNames(ds, u);
    NotificationEditNames(u);
    FixedNamesLastLetters();
  }

  lemma BulkApart(ds: Dataset, u: Uids)
    ensures forall p :: p in BulkEdit(ds, u).files ==> p !in NotificationEdit(u).files
  {
    BulkEditNames(ds, u);
    NotificationEditNames(u);
  }

  lemma FilesEditDisjoint(ds: Dataset, u: Uids, doc: Doc)
    requires !PixelDataUnwritable(ds)
    ensures var me, pe, be, ne := MetadataEdit(u, doc), PixelStage(Empty, ds, u), BulkEdit(ds, u), NotificationEdit(u);
      && (forall p :: p in me.files ==> p !in pe.files && p !in be.files && p !in ne.files)
      && (forall p :: p in pe.files ==> p !in be.files && p !in ne.files)
      && (forall p :: p in be.files ==> p !in ne.files)
  {
    MetadataEditNames(u, doc);
    MetadataApart(ds, u);
    PixelApart(ds, u);
    BulkApart(ds, u);
  }

  /** The four file-writing layers, abstractly: a single metadata file,
      the pixel and bulk files, and a single notification. */
  lemma FourLayers(fe: Tree, me: Tree, pe: Tree, be: Tree, ne: Tree, imp: Path, np: Path, doc: Doc)
    requires fe == Layer(Layer(Layer(me, pe), be), ne)
    requires me.files == map[imp := Json(Object(doc))] && ne.files == map[np := Notice("pending")]
    requires ne.dirs == {}
    requires imp !in pe.files && imp !in be.files && imp != np
    requires forall p :: p in pe.files ==> p !in be.files && p != np
    requires np !in be.files
    ensures && fe.files.Keys == {imp} + pe.files.Keys + be.files.Keys + {np}
      && fe.dirs == me.dirs + pe.dirs + be.dirs
      && fe.files[imp] == Json(Object(doc))
      && (forall p :: p in pe.files ==> fe.files[p] == pe.files[p])
      && (forall p :: p in be.files ==> fe.files[p] == be.files[p])
      && fe.files[np] == Notice("pending")
  {
    assert me.files.Keys == {imp} && ne.files.Keys == {np};
    LayerFour(me, pe, be, ne);
    assert imp in me.files && np in ne.files;
  }

  /** What the file-writing stages write: the instance metadata, the
      pixel files, the bulk data files and the notification, each under
      its own path. */
  lemma FilesEditFacts(ds: Dataset, u: Uids, doc: Doc)
    requires !PixelDataUnwritable(ds)
    ensures var fe := FilesStage(Empty, ds, u, doc);
      var pe, be := PixelStage(Empty, ds, u), BulkEdit(ds, u);
      var imp := InstanceMetadataPath(u.study, u.series, u.instance);
      var np := NotificationPath(u.study, u.series, u.instance);
      && fe.files.Keys == {imp} + pe.files.Keys + be.files.Keys + {np}
      && fe.dirs == Prefixes(InstancePath(u.study, u.series, u.instance)) + pe.dirs + be.dirs
      && fe.files[imp] == Json(Object(doc))
      && (forall p :: p in pe.files ==> fe.files[p] == pe.files[p])
      && (forall p :: p in be.files ==> fe.files[p] == be.files[p])
      && fe.files[np] == Notice("pending")
  {
    var me, pe, be, ne := MetadataEdit(u, doc), PixelStage(Empty, ds, u), BulkEdit(ds, u), NotificationEdit(u);
    var imp := InstanceMetadataPath(u.study, u.series, u.instance);
    var np := NotificationPath(u.study, u.series, u.instance);
    FilesEditParts(ds, u, doc);
    FilesEditPieces(ds, u, doc);
    FourLayers(FilesStage(Empty, ds, u, doc), me, pe, be, ne, imp, np, doc);
  }

  /** The four parts of the file-writing stages, one file or directory set
      at a time, and the files they keep apart. */
  lemma FilesEditPieces(ds: Dataset, u: Uids, doc: Doc)
    requires !PixelDataUnwritable(ds)
    ensures var me, pe, be, ne := MetadataEdit(u, doc), PixelStage(Empty, ds, u), BulkEdit(ds, u), NotificationEdit(u);
      var imp := InstanceMetadataPath(u.study, u.series, u.instance);
      var np := NotificationPath(u.study, u.series, u.instance);
      && me.files == map[imp := Json(Object(doc))] && ne.files == map[np := Notice("pending")]
      && ne.dirs == {} && me.dirs == Prefixes(InstancePath(u.study, u.series, u.instance))
      && imp !in pe.files && imp !in be.files && imp != np
      && (forall p :: p in pe.files ==> p !in be.files && p != np)
      && np !in be.files
  {
    MetadataEditNames(u, doc);
    MetadataApart(ds, u);
    PixelApart(ds, u);
    BulkApart(ds, u);
  }

  /** No file of `e` is an index, and the only metadata document is `imp`. */
  predicate NoIndexes(e: Tree, imp: Path) {
    forall p :: p in e.files ==> |p| > 0 && Name(p) != IndexName && (Name(p) == MetadataName ==> p == imp)
  }

  lemma LayerNoIndexes(e: Tree, f: Tree, imp: Path)
    requires NoIndexes(e, imp) && NoIndexes(f, imp)
    ensures NoIndexes(Layer(e, f), imp)
  {
  }

  lemma EditsNoIndexes(ds: Dataset, u: Uids, doc: Doc)
    requires !PixelDataUnwritable(ds)
    ensures var imp := InstanceMetadataPath(u.study, u.series, u.instance);
      && NoIndexes(MetadataEdit(u, doc), imp) && NoIndexes(PixelStage(Empty, ds, u), imp)
      && NoIndexes(BulkEdit(ds, u), imp) && NoIndexes(NotificationEdit(u), imp)
  {
    var imp := InstanceMetadataPath(u.study, u.series, u.instance);
    assert Name(imp) == MetadataName;
    MetadataEditNames(u, doc);
    PixelEditNames(ds, u);
    BulkEditNames(ds, u);
    NotificationEditNames(u);
    NamesDistinct();
    FixedNamesLastLetters();
  }

  /** Every file the file-writing stages write fits its name; none is an
      index, and the only metadata document is the instance's. */
  lemma FilesEditSafe(ds: Dataset, u: Uids, doc: Doc)
    requires !PixelDataUnwritable(ds)
    ensures var fe := FilesStage(Empty, ds, u, doc);
      SafeEdit(fe) && NoIndexes(fe, InstanceMetadataPath(u.study, u.series, u.instance))
  {
    var me, pe, be, ne := MetadataEdit(u, doc), PixelStage(Empty, ds, u), BulkEdit(ds, u), NotificationEdit(u);
    var imp := InstanceMetadataPath(u.study, u.series, u.instance);
    FilesEditParts(ds, u, doc);
    MetadataEditNames(u, doc);
    PixelEditNames(ds, u);
    BulkEditNames(ds, u);
    NotificationEditNames(u);
    LayerSafe(me, pe);
    LayerSafe(Layer(me, pe), be);
    LayerSafe(Layer(Layer(me, pe), be), ne);
    EditsNoIndexes(ds, u, doc);
    LayerNoIndexes(me, pe, imp);
    LayerNoIndexes(Layer(me, pe), be, imp);
    LayerNoIndexes(Layer(Layer(me, pe), be), ne, imp);
  }

  // ---------------------------------------------------------------
  // the study index and the series files
  // ---------------------------------------------------------------

  /** The study index a successful update leaves: the stored document
      with the incoming elements merged over it, or a new one. */
  function MergedIndex(t: Tree, study: string, incoming: Doc): Doc {
    var p := StudyIndexPath(study);
    if p in t.files && t.files[p].Json? && t.files[p].value.Object? then t.files[p].value.doc + incoming
    else NewStudyIndex(incoming, study)
  }

  function IndexEdit(t: Tree, study: string, incoming: Doc): Tree {
    Empty.Mkdir(StudyPath(study)).Write(StudyIndexPath(study), Json(Object(MergedIndex(t, study, incoming))))
  }

  /** The study index can be updated: it is missing, or it holds an object. */
  predicate IndexUpdatable(t: Tree, study: string) {
    var p := StudyIndexPath(study);
    !t.Exists(p) || (p in t.files && t.files[p].Json? && t.files[p].value.Object?)
  }

  lemma PrefixesShorter(p: Path)
    ensures forall d :: d in Prefixes(p) ==> |d| <= |p|
  {
  }

  /** Updating the study index succeeds exactly when it is updatable, and
      then only creates the study directory and writes the index. */
  lemma UpdateStudiesIndexLayer(t: Tree, study: string, incoming: Doc)
    ensures var s := UpdateStudiesIndex(t, study, incoming);
      && (s.error.None? <==> IndexUpdatable(t, study))
      && (s.error.None? ==> s.tree == Layer(t, IndexEdit(t, study, incoming)))
      && (s.error.Some? ==> s.tree == t.Mkdir(StudyPath(study)))
      && (StudyIndexPath(study) in t.files && t.files[StudyIndexPath(study)] == Json(List([])) ==>
            s.error == Some(OtherError("AttributeError", "'list' object has no attribute 'update'")))
  {
    var p := StudyIndexPath(study);
    PrefixesShorter(StudyPath(study));
    assert p !in Prefixes(StudyPath(study));
    var t1 := t.Mkdir(StudyPath(study));
    assert t1.Exists(p) == t.Exists(p);
    LayerEmpty(t);
    LayerMkdir(t, Empty, StudyPath(study));
    LayerWrite(t, Empty.Mkdir(StudyPath(study)), p, Json(Object(MergedIndex(t, study, incoming))));
  }

  /** The study index layer is safe wherever it is not the top-level list. */
  lemma IndexEditSafe(t: Tree, study: string, incoming: Doc)
    requires StudyIndexPath(study) != StudiesIndexPath
    ensures SafeEdit(IndexEdit(t, study, incoming))
    ensures IndexEdit(t, study, incoming).files
         == map[StudyIndexPath(study) := Json(Object(MergedIndex(t, study, incoming)))]
  {
    var p := StudyIndexPath(study);
    assert Name(p) == IndexName;
    NamesDistinct();
  }

  lemma SeriesWritesLayer(t: Tree, ds: Dataset, u: Uids, doc: Doc)
    ensures SeriesWrites(t, ds, u, doc) == Layer(t, SeriesWrites(Empty, ds, u, doc))
  {
    var se := SeriesPath(u.study, u.series);
    LayerEmpty(t);
    LayerMkdir(t, Empty, se);
    LayerWrite(t, Empty.Mkdir(se), SeriesIndexPath(u.study, u.series), Json(Object(SeriesIndex(ds, u.series))));
    LayerWrite(t, Empty.Mkdir(se).Write(SeriesIndexPath(u.study, u.series), Json(Object(SeriesIndex(ds, u.series)))),
               SeriesMetadataPath(u.study, u.series), Json(Object(doc)));
  }

  /** The series stage writes the series index and the series metadata. */
  lemma SeriesEditFacts(ds: Dataset, u: Uids, doc: Doc)
    ensures var e := SeriesWrites(Empty, ds, u, doc);
      var sip, smp := SeriesIndexPath(u.study, u.series), SeriesMetadataPath(u.study, u.series);
      && e.files.Keys == {sip, smp}
      && e.files[sip] == Json(Object(SeriesIndex(ds, u.series)))
      && e.files[smp] == Json(Object(doc))
      && e.dirs == Prefixes(SeriesPath(u.study, u.series))
      && SafeEdit(e)
  {
    var sip, smp := SeriesIndexPath(u.study, u.series), SeriesMetadataPath(u.study, u.series);
    NamesDistinct();
    assert Name(sip) == IndexName && Name(smp) == MetadataName;
    assert |sip| >= 3;
    FixedNameFits(smp, Json(Object(doc)));
  }

  /** Below a study, everything lies in its `series` or `bulkdata` directory. */
  predicate UnderStudy(q: Path, study: string) {
    || q == StudyPath(study)
    || q == BulkDataDir(study)
    || (|q| >= |SeriesRoot(study)| && q[..|SeriesRoot(study)|] == SeriesRoot(study))
  }

  lemma LayoutUnderStudy(st: string, se: string, i: string)
    ensures UnderStudy(SeriesPath(st, se), st) && UnderStudy(InstancePath(st, se, i), st)
    ensures UnderStudy(FramesDir(st, se, i), st) && UnderStudy(RenderedDir(st, se, i), st)
    ensures UnderStudy(ThumbnailDir(st, "", ""), st) && UnderStudy(ThumbnailDir(st, se, ""), st)
    ensures UnderStudy(ThumbnailDir(st, se, i), st)
  {
    var sr := SeriesRoot(st);
    var ip := InstancePath(st, se, i);
    assert SeriesPath(st, se)[..|sr|] == sr;
    assert InstancesRoot(st, se)[..|sr|] == sr;
    assert ip[..|sr|] == sr;
    assert FramesDir(st, se, i)[..|sr|] == ip[..|sr|];
    assert RenderedDir(st, se, i)[..|sr|] == ip[..|sr|];
  }

  /** No directory made under a study is its index file's path. */
  lemma UnderStudyAvoidsIndex(q: Path, study: string)
    requires UnderStudy(q, study)
    ensures StudyIndexPath(study) !in Prefixes(q)
  {
    var p := StudyIndexPath(study);
    var sr := SeriesRoot(study);
    assert |sr| == |p| && sr[|sr| - 1] == "series" && p[|p| - 1] == IndexName;
    NamesDistinct();
    assert IndexName[0] == 'i';
    forall d | d in Prefixes(q)
      ensures d != p
    {
      if |d| == |p| && |q| >= |sr| && q[..|sr|] == sr {
        assert d == q[..|sr|];
      }
    }
  }

  /** The file-writing stages never create a directory where the study
      index belongs. */
  lemma FilesDirsAvoidIndex(ds: Dataset, u: Uids, doc: Doc)
    requires !PixelDataUnwritable(ds)
    ensures StudyIndexPath(u.study) !in FilesStage(Empty, ds, u, doc).dirs
  {
    var st, se, i := u.study, u.series, u.instance;
    FilesEditFacts(ds, u, doc);
    LayoutUnderStudy(st, se, i);
    UnderStudyAvoidsIndex(InstancePath(st, se, i), st);
    UnderStudyAvoidsIndex(BulkDataDir(st), st);
    if "PixelData" in ds.attrs {
      PixelEditFacts(u, ds.attrs["PixelData"].b, FrameArray(ds));
      UnderStudyAvoidsIndex(FramesDir(st, se, i), st);
      UnderStudyAvoidsIndex(RenderedDir(st, se, i), st);
      UnderStudyAvoidsIndex(ThumbnailDir(st, "", ""), st);
      UnderStudyAvoidsIndex(ThumbnailDir(st, se, ""), st);
      UnderStudyAvoidsIndex(ThumbnailDir(st, se, i), st);
    } else {
      assert PixelStage(Empty, ds, u) == Empty;
    }
  }

  // ---------------------------------------------------------------
  // the whole store
  // ---------------------------------------------------------------

  /** The file-writing stages leave the study index as they found it. */
  lemma FilesKeepIndex(t: Tree, ds: Dataset, u: Uids, doc: Doc)
    requires !PixelDataUnwritable(ds)
    ensures var t5 := Layer(t, FilesStage(Empty, ds, u, doc));
      && (IndexUpdatable(t5, u.study) <==> IndexUpdatable(t, u.study))
      && MergedIndex(t5, u.study, StudyIncoming(ds)) == MergedIndex(t, u.study, StudyIncoming(ds))
  {
    var fe := FilesStage(Empty, ds, u, doc);
    var p := StudyIndexPath(u.study);
    FilesEditSafe(ds, u, doc);
    FilesDirsAvoidIndex(ds, u, doc);
    assert Name(p) == IndexName;
    LayerKeepsIndex(t, fe, u.study, StudyIncoming(ds));
  }

  lemma LayerKeepsIndex(t: Tree, e: Tree, study: string, incoming: Doc)
    requires StudyIndexPath(study) !in e.files && StudyIndexPath(study) !in e.dirs
    ensures IndexUpdatable(Layer(t, e), study) <==> IndexUpdatable(t, study)
    ensures MergedIndex(Layer(t, e), study, incoming) == MergedIndex(t, study, incoming)
  {
  }

  /** A store that creates the instance directory and gets past metadata
      extraction is the file-writing layer, then the study index layer and
      the series layer when the study index can be updated; otherwise it
      stops after creating the study directory. */
  lemma StoreLayers(t: Tree, input: Parse, ds: Dataset, u: Uids, doc: Doc)
    requires Identify(input) == Ok((ds, u)) && !t.Blocked(InstancePath(u.study, u.series, u.instance))
    requires ExtractMetadata(ds) == Ok(doc) && !PixelDataUnwritable(ds)
    ensures var r := StoreDicom(t, input);
      var t5 := Layer(t, FilesStage(Empty, ds, u, doc));
      && (r.result.Ok? <==> IndexUpdatable(t, u.study))
      && (r.result.Ok? ==> r.result == Ok(u) && r.tree == Layer(Layer(t5, IndexEdit(t, u.study, StudyIncoming(ds))),
                                                                SeriesWrites(Empty, ds, u, doc)))
      && (r.result.Err? ==> r.tree == t5.Mkdir(StudyPath(u.study))
                            && UpdateStudiesIndex(t5, u.study, StudyIncoming(ds)).error == Some(r.result.error))
  {
    var fe := FilesStage(Empty, ds, u, doc);
    var t5 := Layer(t, fe);
    FilesStageLayer(t, ds, u, doc);
    FilesKeepIndex(t, ds, u, doc);
    UpdateStudiesIndexLayer(t5, u.study, StudyIncoming(ds));
    var step := UpdateStudiesIndex(t5, u.study, StudyIncoming(ds));
    SeriesWritesLayer(step.tree, ds, u, doc);
  }
}
