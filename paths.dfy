/** Where each artifact lives, relative to the configured root directory.
    A path is the list of its components. As with `pathlib`, joining an
    empty name or "." adds no component, so such an identifier collapses a
    level of the tree. */
module Paths {
  import opened Text

  type Path = seq<string>

  /** An identifier that adds a component when joined to a path. */
  predicate Named(name: string) {
    name != "" && name != "."
  }

  /** `p / name`. */
  function Child(p: Path, name: string): (r: Path)
    ensures r == p || r == p + [name]
    ensures |r| == |p| + (if Named(name) then 1 else 0)
    ensures |r| > 0 ==> |p| > 0 ==> r[0] == p[0]
  {
    if Named(name) then p + [name] else p
  }

  // ---------------------------------------------------------------
  // fixed file names
  // ---------------------------------------------------------------

  const MetadataName := "metadata.json.gz"
  const IndexName := "index.json.gz"
  const PixelDataName := "pixel_data.raw"
  const ThumbnailName := "thumbnail.jpg"
  const RenderedName := "0.png"

  /** The fixed names differ from one another and from the first frame's
      file name; the compressed ones are the two documents and the frame. */
  lemma NamesDistinct()
    ensures FrameName(1) == "1.gz"
    ensures MetadataName != IndexName && MetadataName != PixelDataName && MetadataName != ThumbnailName
    ensures MetadataName != RenderedName && MetadataName != FrameName(1)
    ensures IndexName != PixelDataName && IndexName != ThumbnailName && IndexName != RenderedName
    ensures IndexName != FrameName(1)
    ensures PixelDataName != ThumbnailName && PixelDataName != RenderedName && PixelDataName != FrameName(1)
    ensures ThumbnailName != RenderedName && ThumbnailName != FrameName(1) && RenderedName != FrameName(1)
    ensures EndsWith(MetadataName, ".gz") && EndsWith(IndexName, ".gz") && EndsWith(FrameName(1), ".gz")
    ensures !EndsWith(PixelDataName, ".gz") && !EndsWith(ThumbnailName, ".gz") && !EndsWith(RenderedName, ".gz")
  {
    assert FrameName(1) == "1.gz";
    assert MetadataName[0] == 'm' && IndexName[0] == 'i' && PixelDataName[0] == 'p';
    assert ThumbnailName[0] == 't' && RenderedName[0] == '0' && FrameName(1)[0] == '1';
    assert PixelDataName[|PixelDataName| - 1] == 'w';
    assert ThumbnailName[|ThumbnailName| - 1] == 'g' && ThumbnailName[|ThumbnailName| - 3] == 'j';
    assert RenderedName[|RenderedName| - 1] == 'g' && RenderedName[|RenderedName| - 3] == 'p';
  }

  const StudiesDir: Path := ["studies"]
  const DeduplicatedDir: Path := ["deduplicated"]
  const InstancesDir: Path := ["instances"]
  const NotificationsDir: Path := ["notifications"]

  /** The list of studies kept at the top of the tree. */
  const StudiesIndexPath: Path := StudiesDir + [IndexName]

  // ---------------------------------------------------------------
  // study, series, instance and frame locations
  // ---------------------------------------------------------------

  function StudyPath(study: string): Path {
    Child(StudiesDir, study)
  }

  /** The directory listing a study's series. */
  function SeriesRoot(study: string): Path {
    Child(StudyPath(study), "series")
  }

  function SeriesPath(study: string, series: string): Path {
    Child(SeriesRoot(study), series)
  }

  /** The directory listing a series' instances. */
  function InstancesRoot(study: string, series: string): Path {
    Child(SeriesPath(study, series), "instances")
  }

  function InstancePath(study: string, series: string, instance: string): Path {
    Child(InstancesRoot(study, series), instance)
  }

  function FrameName(frame: int): string {
    IntToString(frame) + ".gz"
  }

  function FramesDir(study: string, series: string, instance: string): Path {
    InstancePath(study, series, instance) + ["frames"]
  }

  function FramePath(study: string, series: string, instance: string, frame: int): Path {
    FramesDir(study, series, instance) + [FrameName(frame)]
  }

  /** The directory a thumbnail belongs to: the instance when an instance
      is named, else the series when a series is named, else the study.
      An empty name counts as not given. */
  function ThumbnailDir(study: string, series: string, instance: string): Path {
    if instance != "" then InstancePath(study, series, instance)
    else if series != "" then SeriesPath(study, series)
    else StudyPath(study)
  }

  function ThumbnailPath(study: string, series: string, instance: string): Path {
    ThumbnailDir(study, series, instance) + [ThumbnailName]
  }

  // ---------------------------------------------------------------
  // the other artifacts of a study, a series and an instance
  // ---------------------------------------------------------------

  function StudyIndexPath(study: string): Path {
    StudyPath(study) + [IndexName]
  }

  function BulkDataDir(study: string): Path {
    StudyPath(study) + ["bulkdata"]
  }

  function BulkDataName(instance: string, attr: string): string {
    instance + "_" + attr + ".bin"
  }

  function BulkDataPath(study: string, instance: string, attr: string): Path {
    BulkDataDir(study) + [BulkDataName(instance, attr)]
  }

  function SeriesIndexPath(study: string, series: string): Path {
    SeriesPath(study, series) + [IndexName]
  }

  function SeriesMetadataPath(study: string, series: string): Path {
    SeriesPath(study, series) + [MetadataName]
  }

  function InstanceMetadataPath(study: string, series: string, instance: string): Path {
    InstancePath(study, series, instance) + [MetadataName]
  }

  function PixelDataPath(study: string, series: string, instance: string): Path {
    InstancePath(study, series, instance) + [PixelDataName]
  }

  function RenderedDir(study: string, series: string, instance: string): Path {
    InstancePath(study, series, instance) + ["rendered"]
  }

  function RenderedPath(study: string, series: string, instance: string): Path {
    RenderedDir(study, series, instance) + [RenderedName]
  }

  function NotificationName(study: string, series: string, instance: string): string {
    study + "_" + series + "_" + instance + ".json"
  }

  function NotificationPath(study: string, series: string, instance: string): Path {
    NotificationsDir + [NotificationName(study, series, instance)]
  }

  // ---------------------------------------------------------------
  // properties of the layout
  // ---------------------------------------------------------------

  /** With identifiers that name a component an instance lives at
      `studies/{study}/series/{series}/instances/{instance}` and its frame
      `n` at `.../frames/{n}.gz`. */
  lemma InstanceLayout(study: string, series: string, instance: string, frame: int)
    requires Named(study) && Named(series) && Named(instance)
    ensures InstancePath(study, series, instance)
         == ["studies", study, "series", series, "instances", instance]
    ensures FramePath(study, series, instance, frame)
         == ["studies", study, "series", series, "instances", instance, "frames", IntToString(frame) + ".gz"]
  {
  }

  /** The thumbnail sits at the deepest level that is named. */
  lemma ThumbnailLevels(study: string, series: string, instance: string)
    ensures instance != "" ==>
      ThumbnailPath(study, series, instance) == InstancePath(study, series, instance) + ["thumbnail.jpg"]
    ensures instance == "" && series != "" ==>
      ThumbnailPath(study, series, instance) == SeriesPath(study, series) + ["thumbnail.jpg"]
    ensures instance == "" && series == "" ==>
      ThumbnailPath(study, series, instance) == StudyPath(study) + ["thumbnail.jpg"]
  {
  }

  /** Distinct identifier triples give distinct instance directories. */
  lemma InstancePathInjective(st: string, se: string, i: string, st': string, se': string, i': string)
    requires Named(st) && Named(se) && Named(i) && Named(st') && Named(se') && Named(i')
    requires InstancePath(st, se, i) == InstancePath(st', se', i')
    ensures st == st' && se == se' && i == i'
  {
    InstanceLayout(st, se, i, 0);
    InstanceLayout(st', se', i', 0);
    assert InstancePath(st, se, i)[1] == st';
  }

  /** Distinct frame numbers are distinct files. */
  lemma FrameNameInjective(m: int, n: int)
    requires FrameName(m) == FrameName(n)
    ensures m == n
  {
    var a, b := IntToString(m), IntToString(n);
    assert |a| == |b|;
    assert a == FrameName(m)[..|a|];
    assert b == FrameName(n)[..|b|];
    IntToStringInjective(m, n);
  }

  /** A study identifier that names no component collapses the study
      level onto `studies/` itself, so the study index coincides with the
      top-level list; any other study index lies one level deeper. */
  lemma StudyIndexCollapses(study: string)
    ensures StudyIndexPath(study) == StudiesIndexPath <==> !Named(study)
  {
    if Named(study) {
      assert |StudyIndexPath(study)| == 3;
    }
  }
}
