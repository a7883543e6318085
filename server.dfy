/** The web server in front of the handler: what each route answers, as a
    value, an HTTP error, or an exception that escapes the route (which the
    framework turns into a server error). The listing routes build their
    answer in a loop over a directory listing, skipping the entries they
    cannot read. */
module Server {
  import opened Wrappers
  import opened Text
  import opened Order
  import opened Paths
  import opened Pixels
  import opened Dicom
  import opened Store
  import opened Ingest
  import opened IngestFacts
  import opened IngestProperties
  import opened Handler

  /** A route's answer. */
  datatype Response<T> = Success(value: T) | HttpError(status: nat, detail: string) | Raised(error: Exception)

  datatype StudySummary = StudySummary(uid: string, date: Scalar, description: Scalar)
  datatype SeriesSummary = SeriesSummary(uid: string, number: Scalar, description: Scalar)
  datatype InstanceSummary = InstanceSummary(uid: Scalar, number: Scalar)

  /** `str(e)`. */
  function Message(e: Exception): string {
    e.message
  }

  /** A `FileNotFoundError` becomes a 404 with `detail`; anything else
      escapes. */
  function NotFoundAs<T>(e: Exception, detail: string): (r: Response<T>)
    ensures r.HttpError? <==> e.FileNotFoundError?
    ensures r.HttpError? ==> r == HttpError(404, detail)
    ensures r.Raised? ==> r.error == e
  {
    if e.FileNotFoundError? then HttpError(404, detail) else Raised(e)
  }

  // ---------------------------------------------------------------
  // reading one element of a document
  // ---------------------------------------------------------------

  /** `doc.get(key, {}).get("Value", [default])[0]`: `None` when the element
      is there with no value (the indexing raises). */
  function FirstValueOr(doc: Doc, tag: nat, default: Scalar): (r: Option<Scalar>)
    ensures tag !in doc ==> r == Some(default)
    ensures tag in doc ==> (r.Some? <==> doc[tag].values != [])
    ensures tag in doc && r.Some? ==> r.value == doc[tag].values[0]
  {
    if tag !in doc then Some(default)
    else if doc[tag].values == [] then None
    else Some(doc[tag].values[0])
  }

  /** `doc[key]["Value"][0]`: a `KeyError` for a missing element, an
      `IndexError` for an element without value. */
  function FirstValue(doc: Doc, tag: nat): (r: Result<Scalar, Exception>)
    ensures r.Ok? <==> tag in doc && doc[tag].values != []
    ensures r.Ok? ==> r.value == doc[tag].values[0]
    ensures r.Err? ==> !r.error.FileNotFoundError?
  {
    if tag !in doc then Err(OtherError("KeyError", "'" + TagKey(tag) + "'"))
    else if doc[tag].values == [] then Err(OtherError("IndexError", "list index out of range"))
    else Ok(doc[tag].values[0])
  }

  // ---------------------------------------------------------------
  // one entry of each listing
  // ---------------------------------------------------------------

  /** The metadata of the first instance of a series: `None` when the
      instance listing raises or is empty, or the read raises. */
  function FirstInstanceDoc(t: Tree, study: string, series: string): (r: Option<Doc>)
    ensures r.Some? <==> && t.GetInstances(study, series).Ok? && t.GetInstances(study, series).value != []
                         && t.GetMetadata(study, series, t.GetInstances(study, series).value[0]).Ok?
    ensures r.Some? ==> r.value == t.GetMetadata(study, series, t.GetInstances(study, series).value[0]).value
  {
    match t.GetInstances(study, series)
    case Err(_) => None
    case Ok(instances) =>
      if instances == [] then None
      else
        match t.GetMetadata(study, series, instances[0])
        case Err(_) => None
        case Ok(doc) => Some(doc)
  }

  /** The summary of one study, read from the first instance of its first
      series; `None` when it has none or when any step raises. */
  function StudyEntry(t: Tree, study: string): (r: Option<StudySummary>)
    ensures r.Some? <==>
      && t.GetSeries(study).Ok? && t.GetSeries(study).value != []
      && var first := FirstInstanceDoc(t, study, t.GetSeries(study).value[0]);
         && first.Some?
         && FirstValueOr(first.value, 0x00080020, Str("")).Some?
         && FirstValueOr(first.value, 0x00081030, Str("")).Some?
    ensures r.Some? ==> var doc := FirstInstanceDoc(t, study, t.GetSeries(study).value[0]).value;
      && r.value.uid == study
      && r.value.date == (if 0x00080020 in doc then doc[0x00080020].values[0] else Str(""))
      && r.value.description == (if 0x00081030 in doc then doc[0x00081030].values[0] else Str(""))
  {
    match t.GetSeries(study)
    case Err(_) => None
    case Ok(series) =>
      if series == [] then None
      else
        match FirstInstanceDoc(t, study, series[0])
        case None => None
        case Some(doc) =>
          var date := FirstValueOr(doc, 0x00080020, Str(""));
          var description := FirstValueOr(doc, 0x00081030, Str(""));
          if date.Some? && description.Some? then Some(StudySummary(study, date.value, description.value))
          else None
  }

  /** The summary of one series, read from its first instance; the number
      defaults to "1". `None` when it has no instance or any step raises. */
  function SeriesEntry(t: Tree, study: string, series: string): (r: Option<SeriesSummary>)
    ensures r.Some? <==>
      && FirstInstanceDoc(t, study, series).Some?
      && FirstValueOr(FirstInstanceDoc(t, study, series).value, 0x00200011, Str("1")).Some?
      && FirstValueOr(FirstInstanceDoc(t, study, series).value, 0x0008103E, Str("")).Some?
    ensures r.Some? ==> var doc := FirstInstanceDoc(t, study, series).value;
      && r.value.uid == series
      && r.value.number == (if 0x00200011 in doc then doc[0x00200011].values[0] else Str("1"))
      && r.value.description == (if 0x0008103E in doc then doc[0x0008103E].values[0] else Str(""))
  {
    match FirstInstanceDoc(t, study, series)
    case None => None
    case Some(doc) =>
      var number := FirstValueOr(doc, 0x00200011, Str("1"));
      var description := FirstValueOr(doc, 0x0008103E, Str(""));
      if number.Some? && description.Some? then Some(SeriesSummary(series, number.value, description.value))
      else None
  }

  /** The summary of one instance: only a missing metadata file skips it,
      any other failure escapes. */
  function InstanceEntry(t: Tree, study: string, series: string, instance: string)
    : (r: Result<Option<InstanceSummary>, Exception>)
    ensures r.Err? ==> !r.error.FileNotFoundError?
    ensures !t.Exists(InstanceMetadataPath(study, series, instance)) ==> r == Ok(None)
    ensures r == Ok(None) <==>
      t.GetMetadata(study, series, instance).Err? && t.GetMetadata(study, series, instance).error.FileNotFoundError?
    ensures r.Ok? && r.value.Some? <==>
      && t.GetMetadata(study, series, instance).Ok?
      && FirstValue(t.GetMetadata(study, series, instance).value, 0x00080018).Ok?
      && FirstValue(t.GetMetadata(study, series, instance).value, 0x00200013).Ok?
    ensures r.Ok? && r.value.Some? ==> var doc := t.GetMetadata(study, series, instance).value;
      && 0x00080018 in doc && doc[0x00080018].values != [] && r.value.value.uid == doc[0x00080018].values[0]
      && 0x00200013 in doc && doc[0x00200013].values != [] && r.value.value.number == doc[0x00200013].values[0]
  {
    match t.GetMetadata(study, series, instance)
    case Err(e) => if e.FileNotFoundError? then Ok(None) else Err(e)
    case Ok(doc) =>
      match FirstValue(doc, 0x00080018)
      case Err(e) => Err(e)
      case Ok(uid) =>
        match FirstValue(doc, 0x00200013)
        case Err(e) => Err(e)
        case Ok(number) => Ok(Some(InstanceSummary(uid, number)))
  }

  /** The identifier an instance summary reports is always the instance's
      own name, since reading the metadata writes it over the stored one. */
  lemma InstanceEntryUid(t: Tree, study: string, series: string, instance: string)
    requires InstanceEntry(t, study, series, instance).Ok?
    requires InstanceEntry(t, study, series, instance).value.Some?
    ensures InstanceEntry(t, study, series, instance).value.value.uid == Str(instance)
  {
    var doc := t.GetMetadata(study, series, instance).value;
    assert doc[0x00080018].values == [Str(instance)];
  }

  // ---------------------------------------------------------------
  // the listings, entry by entry
  // ---------------------------------------------------------------

  /** The entries of `uids`, in order, skipping those without one. */
  function Rows<T>(entry: string -> Option<T>, uids: seq<string>): seq<T>
    decreases |uids|
  {
    if uids == [] then []
    else
      var rows := Rows(entry, uids[..|uids| - 1]);
      match entry(uids[|uids| - 1])
      case Some(s) => rows + [s]
      case None => rows
  }

  /** The entries of `uids`, in order; the first entry that raises ends
      the listing with its exception. */
  function Collect<T>(entry: string -> Result<Option<T>, Exception>, uids: seq<string>): Result<seq<T>, Exception>
    decreases |uids|
  {
    if uids == [] then Ok([])
    else
      match Collect(entry, uids[..|uids| - 1])
      case Err(e) => Err(e)
      case Ok(rows) =>
        match entry(uids[|uids| - 1])
        case Err(e) => Err(e)
        case Ok(None) => Ok(rows)
        case Ok(Some(s)) => Ok(rows + [s])
  }

  function StudyEntries(t: Tree): string -> Option<StudySummary> {
    study => StudyEntry(t, study)
  }

  function SeriesEntries(t: Tree, study: string): string -> Option<SeriesSummary> {
    series => SeriesEntry(t, study, series)
  }

  function InstanceEntries(t: Tree, study: string, series: string): string -> Result<Option<InstanceSummary>, Exception> {
    instance => InstanceEntry(t, study, series, instance)
  }

  /** For entries that carry the uid they were made for: an entry is
      listed exactly when its uid is among `uids` and it is the entry made
      for that uid, and the listed uids ascend as `uids` do. */
  lemma {:induction false} RowsSpec<T>(entry: string -> Option<T>, key: T -> string, uids: seq<string>)
    requires StrictlySorted(uids)
    requires forall u :: entry(u).Some? ==> key(entry(u).value) == u
    ensures forall s :: s in Rows(entry, uids) ==> key(s) in uids && entry(key(s)) == Some(s)
    ensures forall u :: u in uids && entry(u).Some? ==> entry(u).value in Rows(entry, uids)
    ensures forall i, j :: 0 <= i < j < |Rows(entry, uids)| ==>
      Below(key(Rows(entry, uids)[i]), key(Rows(entry, uids)[j])) && key(Rows(entry, uids)[i]) != key(Rows(entry, uids)[j])
    decreases |uids|
  {
    if uids != [] {
      var pre, last := uids[..|uids| - 1], uids[|uids| - 1];
      assert uids == pre + [last];
      RowsSpec(entry, key, pre);
      var rows := Rows(entry, pre);
      forall x | x in pre ensures Below(x, last) && x != last {
        var k :| 0 <= k < |pre| && pre[k] == x;
        assert uids[k] == x;
      }
      var all := Rows(entry, uids);
      forall i, j | 0 <= i < j < |all| ensures Below(key(all[i]), key(all[j])) && key(all[i]) != key(all[j]) {
        assert all[i] == rows[i];
        if j == |rows| {
          assert all[j] == entry(last).value;
          assert rows[i] in rows;
          assert key(rows[i]) in pre;
          assert key(all[j]) == last;
        } else {
          assert all[j] == rows[j];
          assert Below(key(rows[i]), key(rows[j])) && key(rows[i]) != key(rows[j]);
        }
      }
    }
  }

  /** The listing succeeds exactly when no entry raises, and then holds
      every entry made, in the order of `uids`; otherwise it raises the
      error of the first entry that does. */
  lemma {:induction false} CollectSpec<T>(entry: string -> Result<Option<T>, Exception>, uids: seq<string>)
    ensures Collect(entry, uids).Ok? <==> forall k :: 0 <= k < |uids| ==> entry(uids[k]).Ok?
    ensures Collect(entry, uids).Ok? ==>
      forall s :: s in Collect(entry, uids).value ==> exists k :: 0 <= k < |uids| && entry(uids[k]) == Ok(Some(s))
    ensures Collect(entry, uids).Ok? ==>
      forall k :: 0 <= k < |uids| && entry(uids[k]).value.Some? ==> entry(uids[k]).value.value in Collect(entry, uids).value
    ensures Collect(entry, uids).Err? ==>
      exists k :: 0 <= k < |uids| && entry(uids[k]) == Err(Collect(entry, uids).error)
                  && forall j :: 0 <= j < k ==> entry(uids[j]).Ok?
    decreases |uids|
  {
    if uids != [] {
      var pre := uids[..|uids| - 1];
      CollectSpec(entry, pre);
      assert forall k :: 0 <= k < |pre| ==> uids[k] == pre[k];
      var r := Collect(entry, uids);
      if r.Ok? {
        var rows := Collect(entry, pre).value;
        forall s | s in r.value ensures exists k :: 0 <= k < |uids| && entry(uids[k]) == Ok(Some(s)) {
          if s in rows {
            var k :| 0 <= k < |pre| && entry(pre[k]) == Ok(Some(s));
            assert uids[k] == pre[k];
          } else {
            assert entry(uids[|uids| - 1]) == Ok(Some(s));
          }
        }
        forall k | 0 <= k < |uids| && entry(uids[k]).value.Some? ensures entry(uids[k]).value.value in r.value {
          if k < |pre| {
            assert uids[k] == pre[k];
            assert entry(pre[k]).value.value in rows;
          }
        }
      } else if Collect(entry, pre).Ok? {
        assert entry(uids[|uids| - 1]) == Err(r.error);
      }
    }
  }

  /** Once a prefix of the listing raises, the whole listing raises the
      same exception. */
  lemma {:induction false} CollectPrefix<T>(entry: string -> Result<Option<T>, Exception>, uids: seq<string>, n: nat)
    requires n <= |uids| && Collect(entry, uids[..n]).Err?
    ensures Collect(entry, uids) == Collect(entry, uids[..n])
    decreases |uids| - n
  {
    if n < |uids| {
      assert uids[..n + 1][..n] == uids[..n];
      CollectPrefix(entry, uids, n + 1);
    } else {
      assert uids[..n] == uids;
    }
  }

  // ---------------------------------------------------------------
  // the routes
  // ---------------------------------------------------------------

  /** `store_instance`: a `ValueError` becomes a 400 carrying its message;
      every other exception escapes. */
  function StoreResponse(result: Result<Uids, Exception>): (r: Response<Uids>)
    ensures r.Success? <==> result.Ok?
    ensures r.Success? ==> r.value == result.value
    ensures r.HttpError? <==> result.Err? && result.error.ValueError?
    ensures r.HttpError? ==> r == HttpError(400, result.error.message)
    ensures r.Raised? ==> r.error == result.error
  {
    match result
    case Ok(u) => Success(u)
    case Err(e) => if e.ValueError? then HttpError(400, Message(e)) else Raised(e)
  }

  /** `get_studies`: the listing of the studies directory escapes when it
      fails; each study's own failures only drop it. */
  function StudiesResponse(t: Tree): Response<seq<StudySummary>> {
    match t.GetStudies()
    case Err(e) => Raised(e)
    case Ok(uids) => Success(Rows(StudyEntries(t), uids))
  }

  function SeriesResponse(t: Tree, study: string): Response<seq<SeriesSummary>> {
    match t.GetSeries(study)
    case Err(e) => Raised(e)
    case Ok(uids) => Success(Rows(SeriesEntries(t, study), uids))
  }

  function InstancesResponse(t: Tree, study: string, series: string): Response<seq<InstanceSummary>> {
    match t.GetInstances(study, series)
    case Err(e) => Raised(e)
    case Ok(uids) =>
      match Collect(InstanceEntries(t, study, series), uids)
      case Err(e) => Raised(e)
      case Ok(rows) => Success(rows)
  }

  /** The studies route succeeds exactly when the studies directory
      exists, and then reports exactly the study directories that have a
      summary, in ascending order of uid and each once. */
  lemma StudiesResponseSpec(t: Tree)
    ensures StudiesResponse(t).Success? <==> StudiesDir in t.dirs
    ensures StudiesResponse(t).Success? ==> forall s :: s in StudiesResponse(t).value ==>
      StudiesDir + [s.uid] in t.dirs && StudyEntry(t, s.uid) == Some(s)
    ensures StudiesResponse(t).Success? ==> forall study :: StudiesDir + [study] in t.dirs && StudyEntry(t, study).Some? ==>
      StudyEntry(t, study).value in StudiesResponse(t).value
    ensures StudiesResponse(t).Success? ==> forall i, j :: 0 <= i < j < |StudiesResponse(t).value| ==>
      Below(StudiesResponse(t).value[i].uid, StudiesResponse(t).value[j].uid)
      && StudiesResponse(t).value[i].uid != StudiesResponse(t).value[j].uid
  {
    if t.GetStudies().Ok? {
      var uids := t.GetStudies().value;
      var entries := StudyEntries(t);
      forall u | entries(u).Some? ensures entries(u).value.uid == u {
      }
      RowsSpec(entries, (s: StudySummary) => s.uid, uids);
    }
  }

  /** The series route reports exactly the series directories of the study
      that have a summary, in ascending order of uid and each once; it
      raises only when the series listing does. */
  lemma SeriesResponseSpec(t: Tree, study: string)
    ensures SeriesResponse(t, study).Raised? <==> t.GetSeries(study).Err?
    ensures SeriesResponse(t, study).Success? ==> forall s :: s in SeriesResponse(t, study).value ==>
      s.uid in t.GetSeries(study).value && SeriesEntry(t, study, s.uid) == Some(s)
    ensures SeriesResponse(t, study).Success? ==> forall series ::
      series in t.GetSeries(study).value && SeriesEntry(t, study, series).Some? ==>
      SeriesEntry(t, study, series).value in SeriesResponse(t, study).value
    ensures SeriesResponse(t, study).Success? ==> forall i, j :: 0 <= i < j < |SeriesResponse(t, study).value| ==>
      Below(SeriesResponse(t, study).value[i].uid, SeriesResponse(t, study).value[j].uid)
      && SeriesResponse(t, study).value[i].uid != SeriesResponse(t, study).value[j].uid
  {
    if t.GetSeries(study).Ok? {
      var uids := t.GetSeries(study).value;
      var entries := SeriesEntries(t, study);
      forall u | entries(u).Some? ensures entries(u).value.uid == u {
      }
      RowsSpec(entries, (s: SeriesSummary) => s.uid, uids);
    }
  }

  /** Every instance the instance listing reports is named by its own uid. */
  lemma InstancesResponseUids(t: Tree, study: string, series: string)
    requires InstancesResponse(t, study, series).Success?
    ensures forall s :: s in InstancesResponse(t, study, series).value ==>
      s.uid.Str? && InstancesRoot(study, series) + [s.uid.s] in t.dirs
  {
    var uids := t.GetInstances(study, series).value;
    CollectSpec(InstanceEntries(t, study, series), uids);
    forall s | s in InstancesResponse(t, study, series).value
      ensures s.uid.Str? && InstancesRoot(study, series) + [s.uid.s] in t.dirs
    {
      var k :| 0 <= k < |uids| && InstanceEntry(t, study, series, uids[k]) == Ok(Some(s));
      InstanceEntryUid(t, study, series, uids[k]);
      assert t.GetInstances(study, series) == Ok([]) ==> false;
    }
  }

  /** `get_study_metadata`: the metadata of the first instance of the first
      series. A failing series listing escapes; later failures, including
      the 404 raised for an empty series, are reported as 404s whose detail
      starts "Error retrieving study metadata: ". */
  function StudyMetadata(t: Tree, study: string): (r: Response<Doc>)
    ensures r.Raised? <==> t.GetSeries(study).Err?
    ensures t.GetSeries(study) == Ok([]) ==> r == HttpError(404, "Study not found")
    ensures r.HttpError? ==>
      r.status == 404 && (r.detail == "Study not found" || StudyMetadataError <= r.detail)
    ensures r.Success? <==> t.GetSeries(study).Ok? && t.GetSeries(study).value != []
                            && FirstInstanceDoc(t, study, t.GetSeries(study).value[0]).Some?
    ensures r.Success? ==> r.value == FirstInstanceDoc(t, study, t.GetSeries(study).value[0]).value
    ensures t.GetSeries(study).Ok? && t.GetSeries(study).value != [] ==>
      var first := t.GetSeries(study).value[0];
      && (t.GetInstances(study, first) == Ok([]) ==>
            r == HttpError(404, StudyMetadataError + "404: No instances found in study"))
      && (t.GetInstances(study, first).Err? ==>
            r == HttpError(404, StudyMetadataError + t.GetInstances(study, first).error.message))
      && (t.GetInstances(study, first).Ok? && t.GetInstances(study, first).value != [] ==>
            var m := t.GetMetadata(study, first, t.GetInstances(study, first).value[0]);
            m.Err? ==> r == HttpError(404, StudyMetadataError + m.error.message))
  {
    match t.GetSeries(study)
    case Err(e) => Raised(e)
    case Ok(series) =>
      if series == [] then HttpError(404, "Study not found")
      else
        match t.GetInstances(study, series[0])
        case Err(e) => HttpError(404, StudyMetadataError + Message(e))
        case Ok(instances) =>
          if instances == [] then HttpError(404, StudyMetadataError + "404: No instances found in study")
          else
            match t.GetMetadata(study, series[0], instances[0])
            case Err(e) => HttpError(404, StudyMetadataError + Message(e))
            case Ok(doc) => Success(doc)
  }

  const StudyMetadataError := "Error retrieving study metadata: "

  /** The server's own `get_metadata`: the stored document as it is, a 404
      when nothing is at its path. */
  function InstanceMetadata(t: Tree, study: string, series: string, instance: string): (r: Response<JsonValue>)
    ensures r.HttpError? <==> !t.Exists(InstanceMetadataPath(study, series, instance))
    ensures r.HttpError? ==> r == HttpError(404, "Instance not found")
    ensures r.Success? <==> var p := InstanceMetadataPath(study, series, instance);
      p in t.files && t.files[p].Json?
    ensures r.Success? ==> Json(r.value) == t.files[InstanceMetadataPath(study, series, instance)]
  {
    var p := InstanceMetadataPath(study, series, instance);
    if !t.Exists(p) then HttpError(404, "Instance not found")
    else
      match t.ReadFile(p, "Metadata not found for instance " + instance)
      case Ok(Json(v)) => Success(v)
      case Ok(_) => Raised(WrongKind)
      case Err(e) => Raised(e)
  }

  /** The server's reader and the handler's reader see the same document,
      except that the handler writes the requested identifiers over it. */
  lemma InstanceMetadataAgrees(t: Tree, study: string, series: string, instance: string, doc: Doc)
    requires InstanceMetadata(t, study, series, instance) == Success(Object(doc))
    ensures t.GetMetadata(study, series, instance) == Ok(Overlay(doc, study, series, instance))
  {
  }

  function FrameRoute(t: Tree, study: string, series: string, instance: string, frame: int): (r: Response<seq<byte>>)
    ensures r.Success? <==> t.GetFrameData(study, series, instance, frame).Ok?
    ensures r.Success? ==> r.value == t.GetFrameData(study, series, instance, frame).value
    ensures !t.Exists(FramePath(study, series, instance, frame)) ==> r == HttpError(404, "Frame data not found")
  {
    match t.GetFrameData(study, series, instance, frame)
    case Ok(b) => Success(b)
    case Err(e) => NotFoundAs(e, "Frame data not found")
  }

  function PixelRoute(t: Tree, study: string, series: string, instance: string): (r: Response<seq<byte>>)
    ensures r.Success? <==> t.GetPixelData(study, series, instance).Ok?
    ensures r.Success? ==> r.value == t.GetPixelData(study, series, instance).value
    ensures !t.Exists(PixelDataPath(study, series, instance)) ==> r == HttpError(404, "Pixel data not found")
  {
    match t.GetPixelData(study, series, instance)
    case Ok(b) => Success(b)
    case Err(e) => NotFoundAs(e, "Pixel data not found")
  }

  /** The three thumbnail routes; an absent series or instance is "". */
  function ThumbnailRoute(t: Tree, study: string, series: string, instance: string): (r: Response<Array>)
    ensures r.Success? <==> t.GetThumbnail(study, series, instance).Ok?
    ensures r.Success? ==> r.value == t.GetThumbnail(study, series, instance).value
    ensures !t.Exists(ThumbnailPath(study, series, instance)) ==> r == HttpError(404, "Thumbnail not found")
  {
    match t.GetThumbnail(study, series, instance)
    case Ok(img) => Success(img)
    case Err(e) => NotFoundAs(e, "Thumbnail not found")
  }

  /** The series metadata route: 404 unless the series is listed in its
      study and has an instance; then the first instance's metadata, a
      missing file becoming a 404 that says so. */
  function SeriesMetadataRoute(t: Tree, study: string, series: string): (r: Response<Doc>)
    ensures t.GetSeries(study).Ok? && series !in t.GetSeries(study).value ==> r == HttpError(404, "Series not found")
    ensures r.Success? <==> t.GetSeries(study).Ok? && series in t.GetSeries(study).value
                            && FirstInstanceDoc(t, study, series).Some?
    ensures r.Success? ==> r.value == FirstInstanceDoc(t, study, series).value
    ensures t.GetSeries(study).Ok? && series in t.GetSeries(study).value ==>
      && (t.GetInstances(study, series) == Ok([]) ==> r == HttpError(404, "No instances found in series"))
      && (t.GetInstances(study, series).Err? ==>
            r == NotFoundAs(t.GetInstances(study, series).error, SeriesMetadataError + t.GetInstances(study, series).error.message))
      && (t.GetInstances(study, series).Ok? && t.GetInstances(study, series).value != [] ==>
            var m := t.GetMetadata(study, series, t.GetInstances(study, series).value[0]);
            m.Err? ==> r == NotFoundAs(m.error, SeriesMetadataError + m.error.message))
    ensures t.GetSeries(study).Err? ==>
      r == NotFoundAs(t.GetSeries(study).error, SeriesMetadataError + t.GetSeries(study).error.message)
    ensures r.Raised? ==> !r.error.FileNotFoundError?
  {
    match t.GetSeries(study)
    case Err(e) => NotFoundAs(e, SeriesMetadataError + Message(e))
    case Ok(listed) =>
      if series !in listed then HttpError(404, "Series not found")
      else
        match t.GetInstances(study, series)
        case Err(e) => NotFoundAs(e, SeriesMetadataError + Message(e))
        case Ok(instances) =>
          if instances == [] then HttpError(404, "No instances found in series")
          else
            match t.GetMetadata(study, series, instances[0])
            case Err(e) => NotFoundAs(e, SeriesMetadataError + Message(e))
            case Ok(doc) => Success(doc)
  }

  const SeriesMetadataError := "Series metadata not found: "

  /** The rendered route: the path of the rendered frame when it exists. */
  function RenderedRoute(t: Tree, study: string, series: string, instance: string): (r: Response<Path>)
    ensures r.Success? <==> t.Exists(RenderedPath(study, series, instance))
    ensures r.Success? ==> r.value == RenderedPath(study, series, instance)
    ensures !r.Success? ==> r == HttpError(404, "Rendered instance not found")
  {
    var p := RenderedPath(study, series, instance);
    if t.Exists(p) then Success(p) else HttpError(404, "Rendered instance not found")
  }

  // ---------------------------------------------------------------
  // what the routes answer after a store
  // ---------------------------------------------------------------

  /** An upload that cannot be parsed or lacks an identifier is answered
      with a 400 whose detail starts "Invalid DICOM data: ", and nothing
      is written. */
  lemma StoreRejectsWith400(t: Tree, input: Parse)
    requires Identify(input).Err?
    ensures var s := StoreDicom(t, input);
      && s.tree == t
      && StoreResponse(s.result).HttpError? && StoreResponse(s.result).status == 400
      && InvalidPrefix <= StoreResponse(s.result).detail
  {
  }

  /** An instance directory that cannot be created escapes with the error
      of `mkdir`; past it, an integer attribute that does not convert is
      answered with a 400 carrying the message of `int()`, and pixel data
      that is not a byte string escapes. */
  lemma StoreErrorsAnswered(t: Tree, input: Parse, ds: Dataset, u: Uids)
    requires t.Valid() && Identify(input) == Ok((ds, u))
    ensures var ip := InstancePath(u.study, u.series, u.instance);
      t.Blocked(ip) ==> StoreResponse(StoreDicom(t, input).result) == Raised(t.MkdirError(ip))
    ensures var ip := InstancePath(u.study, u.series, u.instance);
      !t.Blocked(ip) && ExtractMetadata(ds).Err? && ExtractMetadata(ds).error.ValueError? ==>
      StoreResponse(StoreDicom(t, input).result) == HttpError(400, ExtractMetadata(ds).error.message)
    ensures var ip := InstancePath(u.study, u.series, u.instance);
      !t.Blocked(ip) && ExtractMetadata(ds).Ok? && PixelDataUnwritable(ds) ==>
      StoreResponse(StoreDicom(t, input).result).Raised?
  {
    StoreOutcome(t, input, ds, u);
  }

  /** After a successful store, listing the stored series reports the stored
      instance with the instance number it was stored with, unless another
      instance of the series makes the listing fail. */
  lemma StoredInstanceReported(t: Tree, input: Parse, ds: Dataset, u: Uids, doc: Doc)
    requires Identify(input) == Ok((ds, u)) && ExtractMetadata(ds) == Ok(doc)
    requires StoreDicom(t, input).result.Ok?
    requires Named(u.study) && Named(u.series) && Named(u.instance)
    ensures InstancesResponse(StoreDicom(t, input).tree, u.study, u.series).Success? ==>
      InstanceSummary(Str(u.instance), Str(GetText(ds, "InstanceNumber", "")))
        in InstancesResponse(StoreDicom(t, input).tree, u.study, u.series).value
  {
    var r := StoreDicom(t, input).tree;
    StoredIsListed(t, input, ds, u, doc);
    StoreReadsBack(t, input, ds, u, doc);
    StoredNumber(ds, doc, u);
    ListedEntryReported(r, u.study, u.series, u.instance,
                        InstanceSummary(Str(u.instance), Str(GetText(ds, "InstanceNumber", ""))));
  }

  /** After a successful store whose series comes first in its study and
      whose instance comes first in its series, the studies listing reports
      the study with the stored date and description ("" for a missing
      attribute). */
  lemma StoredStudyReported(t: Tree, input: Parse, ds: Dataset, u: Uids, doc: Doc)
    requires Identify(input) == Ok((ds, u)) && ExtractMetadata(ds) == Ok(doc)
    requires StoreDicom(t, input).result.Ok?
    requires Named(u.study) && Named(u.series) && Named(u.instance)
    requires var r := StoreDicom(t, input).tree;
      && r.GetSeries(u.study).Ok? && r.GetSeries(u.study).value != [] && r.GetSeries(u.study).value[0] == u.series
      && r.GetInstances(u.study, u.series).Ok? && r.GetInstances(u.study, u.series).value != []
      && r.GetInstances(u.study, u.series).value[0] == u.instance
    ensures var r := StoreDicom(t, input).tree;
      && StudiesResponse(r).Success?
      && StudySummary(u.study, Str(GetText(ds, "StudyDate", "")), Str(GetText(ds, "StudyDescription", "")))
           in StudiesResponse(r).value
  {
    var r := StoreDicom(t, input).tree;
    StoredIsListed(t, input, ds, u, doc);
    StoreReadsBack(t, input, ds, u, doc);
    StoredSummaryTexts(ds, doc, u);
    StudyListedReported(r, u.study,
                        StudySummary(u.study, Str(GetText(ds, "StudyDate", "")), Str(GetText(ds, "StudyDescription", ""))));
  }

  /** After a successful store whose instance comes first in its series,
      the series listing of the study reports the series with the stored
      number and description; a missing SeriesNumber is reported as "",
      not as the listing's default "1", since the stored document always
      holds the element. */
  lemma StoredSeriesReported(t: Tree, input: Parse, ds: Dataset, u: Uids, doc: Doc)
    requires Identify(input) == Ok((ds, u)) && ExtractMetadata(ds) == Ok(doc)
    requires StoreDicom(t, input).result.Ok?
    requires Named(u.study) && Named(u.series) && Named(u.instance)
    requires var r := StoreDicom(t, input).tree;
      r.GetInstances(u.study, u.series).Ok? && r.GetInstances(u.study, u.series).value != []
      && r.GetInstances(u.study, u.series).value[0] == u.instance
    ensures var r := StoreDicom(t, input).tree;
      && SeriesResponse(r, u.study).Success?
      && SeriesSummary(u.series, Str(GetText(ds, "SeriesNumber", "")), Str(GetText(ds, "SeriesDescription", "")))
           in SeriesResponse(r, u.study).value
  {
    var r := StoreDicom(t, input).tree;
    StoredIsListed(t, input, ds, u, doc);
    StoreReadsBack(t, input, ds, u, doc);
    StoredSummaryTexts(ds, doc, u);
    SeriesListedReported(r, u.study, u.series,
                         SeriesSummary(u.series, Str(GetText(ds, "SeriesNumber", "")), Str(GetText(ds, "SeriesDescription", ""))));
  }

  /** The stored document keeps the study and series texts under its
      identifier overlay. */
  lemma StoredSummaryTexts(ds: Dataset, doc: Doc, u: Uids)
    requires ExtractMetadata(ds) == Ok(doc)
    ensures var full := Overlay(doc, u.study, u.series, u.instance);
      && 0x00080020 in full && full[0x00080020].values == [Str(GetText(ds, "StudyDate", ""))]
      && 0x00081030 in full && full[0x00081030].values == [Str(GetText(ds, "StudyDescription", ""))]
      && 0x00200011 in full && full[0x00200011].values == [Str(GetText(ds, "SeriesNumber", ""))]
      && 0x0008103E in full && full[0x0008103E].values == [Str(GetText(ds, "SeriesDescription", ""))]
  {
    ExtractedSummaryTexts(ds, doc);
  }

  /** A listed study whose first series' first instance reads back with a
      date and a description is reported by a studies listing that
      succeeds. */
  lemma StudyListedReported(r: Tree, study: string, s: StudySummary)
    requires r.GetStudies().Ok? && study in r.GetStudies().value
    requires r.GetSeries(study).Ok? && r.GetSeries(study).value != []
    requires FirstInstanceDoc(r, study, r.GetSeries(study).value[0]).Some?
    requires var doc := FirstInstanceDoc(r, study, r.GetSeries(study).value[0]).value;
      && 0x00080020 in doc && doc[0x00080020].values == [s.date]
      && 0x00081030 in doc && doc[0x00081030].values == [s.description] && s.uid == study
    ensures StudiesResponse(r).Success? && s in StudiesResponse(r).value
  {
    assert StudyEntry(r, study) == Some(s);
    StudiesResponseSpec(r);
  }

  /** A listed series whose first instance reads back with a number and a
      description is reported by its study's series listing. */
  lemma SeriesListedReported(r: Tree, study: string, series: string, s: SeriesSummary)
    requires r.GetSeries(study).Ok? && series in r.GetSeries(study).value
    requires FirstInstanceDoc(r, study, series).Some?
    requires var doc := FirstInstanceDoc(r, study, series).value;
      && 0x00200011 in doc && doc[0x00200011].values == [s.number]
      && 0x0008103E in doc && doc[0x0008103E].values == [s.description] && s.uid == series
    ensures SeriesResponse(r, study).Success? && s in SeriesResponse(r, study).value
  {
    assert SeriesEntry(r, study, series) == Some(s);
    SeriesResponseSpec(r, study);
  }

  /** The stored document keeps the instance number under its identifier
      overlay. */
  lemma StoredNumber(ds: Dataset, doc: Doc, u: Uids)
    requires ExtractMetadata(ds) == Ok(doc)
    ensures var full := Overlay(doc, u.study, u.series, u.instance);
      0x00200013 in full && full[0x00200013].values == [Str(GetText(ds, "InstanceNumber", ""))]
  {
    ExtractedInstanceNumber(ds, doc);
  }

  /** A listed instance whose entry is made appears in a listing that
      succeeds. */
  lemma ListedEntryReported(r: Tree, study: string, series: string, instance: string, s: InstanceSummary)
    requires r.GetInstances(study, series).Ok? && instance in r.GetInstances(study, series).value
    requires r.GetMetadata(study, series, instance).Ok?
    requires var full := r.GetMetadata(study, series, instance).value;
      0x00200013 in full && full[0x00200013].values == [s.number] && s.uid == Str(instance)
    ensures InstancesResponse(r, study, series).Success? ==> s in InstancesResponse(r, study, series).value
  {
    var full := r.GetMetadata(study, series, instance).value;
    assert full[0x00080018].values == [Str(instance)];
    assert InstanceEntry(r, study, series, instance) == Ok(Some(s));
    var uids := r.GetInstances(study, series).value;
    CollectSpec(InstanceEntries(r, study, series), uids);
    var k :| 0 <= k < |uids| && uids[k] == instance;
  }

  /** After a successful store, the series metadata route finds the stored
      series and an instance in it. */
  lemma StoredSeriesFound(t: Tree, input: Parse, ds: Dataset, u: Uids, doc: Doc)
    requires Identify(input) == Ok((ds, u)) && ExtractMetadata(ds) == Ok(doc)
    requires StoreDicom(t, input).result.Ok?
    requires Named(u.study) && Named(u.series) && Named(u.instance)
    ensures var answer := SeriesMetadataRoute(StoreDicom(t, input).tree, u.study, u.series);
      answer != HttpError(404, "Series not found") && answer != HttpError(404, "No instances found in series")
  {
    StoredIsListed(t, input, ds, u, doc);
  }

  /** After a successful store of an object with pixel data, the pixel,
      first-frame, thumbnail and rendered routes all answer. */
  lemma StoredPixelRoutes(t: Tree, input: Parse, ds: Dataset, u: Uids, doc: Doc)
    requires Identify(input) == Ok((ds, u)) && ExtractMetadata(ds) == Ok(doc)
    requires StoreDicom(t, input).result.Ok? && "PixelData" in ds.attrs
    ensures var r := StoreDicom(t, input).tree;
      var st, se, i := u.study, u.series, u.instance;
      && PixelRoute(r, st, se, i) == Success(ds.attrs["PixelData"].b)
      && FrameRoute(r, st, se, i, 1) == Success(Uint16Bytes(FrameArray(ds)))
      && ThumbnailRoute(r, st, "", "") == Success(ThumbnailImage(FrameArray(ds)))
      && ThumbnailRoute(r, st, se, "") == Success(ThumbnailImage(FrameArray(ds)))
      && ThumbnailRoute(r, st, se, i) == Success(ThumbnailImage(FrameArray(ds)))
      && RenderedRoute(r, st, se, i) == Success(RenderedPath(st, se, i))
  {
    StorePixelsReadBack(t, input, ds, u, doc);
  }

  /** A valid store answers no frame number other than 1. */
  lemma OnlyFirstFrameServed(t: Tree, study: string, series: string, instance: string, frame: int)
    requires t.Valid() && frame != 1
    ensures !FrameRoute(t, study, series, instance, frame).Success?
  {
    OnlyFirstFrameStored(t, study, series, instance, frame);
  }

  // ---------------------------------------------------------------
  // the loops of the listing routes
  // ---------------------------------------------------------------

  /** The loop of `get_studies` and `get_series`: each entry that can be
      made is appended, the others are skipped. */
  method ListRows<T>(entries: string -> Option<T>, uids: seq<string>) returns (rows: seq<T>)
    ensures rows == Rows(entries, uids)
  {
    rows := [];
    for k := 0 to |uids|
      invariant rows == Rows(entries, uids[..k])
    {
      assert uids[..k + 1][..k] == uids[..k];
      var entry := entries(uids[k]);
      if entry.Some? {
        rows := rows + [entry.value];
      }
    }
    assert uids[..|uids|] == uids;
  }

  /** The loop of `get_instances`: skipped entries are dropped, and the
      first entry that raises ends the loop. */
  method CollectRows<T>(entries: string -> Result<Option<T>, Exception>, uids: seq<string>)
    returns (r: Result<seq<T>, Exception>)
    ensures r == Collect(entries, uids)
  {
    var rows: seq<T> := [];
    for k := 0 to |uids|
      invariant Collect(entries, uids[..k]) == Ok(rows)
    {
      assert uids[..k + 1][..k] == uids[..k];
      var entry := entries(uids[k]);
      match entry {
        case Err(e) =>
          assert Collect(entries, uids[..k + 1]) == Err(e);
          CollectPrefix(entries, uids, k + 1);
          return Err(e);
        case Ok(None) =>
        case Ok(Some(s)) => rows := rows + [s];
      }
    }
    assert uids[..|uids|] == uids;
    return Ok(rows);
  }

  // ---------------------------------------------------------------
  // the server object
  // ---------------------------------------------------------------

  class DicomWebServer {
    const handler: DicomHandler

    /** The server opens the handler on its configured root. */
    constructor(root: Tree)
      ensures fresh(handler) && handler.tree == Init(root)
    {
      handler := new DicomHandler(root);
    }

    /** `store_instance`. */
    method StoreInstance(input: Parse) returns (r: Response<Uids>)
      modifies handler
      ensures var s := Ingest.StoreDicom(old(handler.tree), input);
        handler.tree == s.tree && r == StoreResponse(s.result)
    {
      var result := handler.StoreDicom(input);
      match result {
        case Ok(u) => r := Success(u);
        case Err(e) => r := if e.ValueError? then HttpError(400, Message(e)) else Raised(e);
      }
    }

    /** `get_studies`. */
    method GetStudies() returns (r: Response<seq<StudySummary>>)
      ensures r == StudiesResponse(handler.tree)
    {
      var listed := handler.tree.GetStudies();
      if listed.Err? {
        return Raised(listed.error);
      }
      var rows := ListRows(StudyEntries(handler.tree), listed.value);
      return Success(rows);
    }

    /** `get_series`. */
    method GetSeries(study: string) returns (r: Response<seq<SeriesSummary>>)
      ensures r == SeriesResponse(handler.tree, study)
    {
      var listed := handler.tree.GetSeries(study);
      if listed.Err? {
        return Raised(listed.error);
      }
      var rows := ListRows(SeriesEntries(handler.tree, study), listed.value);
      return Success(rows);
    }

    /** `get_instances`: a missing metadata file skips the instance, any
        other failure ends the route. */
    method GetInstances(study: string, series: string) returns (r: Response<seq<InstanceSummary>>)
      ensures r == InstancesResponse(handler.tree, study, series)
    {
      var listed := handler.tree.GetInstances(study, series);
      if listed.Err? {
        return Raised(listed.error);
      }
      var rows := CollectRows(InstanceEntries(handler.tree, study, series), listed.value);
      match rows {
        case Ok(rows) => return Success(rows);
        case Err(e) => return Raised(e);
      }
    }
  }
}
