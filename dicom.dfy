/** The parsed imaging object as the handler sees it, the JSON documents it
    writes, and the extraction of an instance's metadata document. */
module Dicom {
  import opened Wrappers
  import opened Text
  import opened Pixels

  /** The value the parser yields for an attribute. `NoValue` is an
      element that is present but empty (read back as `None`). */
  datatype AttrValue = Text(s: string) | Int(n: int) | Bytes(b: seq<byte>) | NoValue

  /** What reading the decoded pixel array gives. */
  datatype PixelDecode = Decoded(pixelArray: Array) | DecodeFailed(reason: string)

  /** A parsed object: its attributes by keyword, and the outcome of
      decoding its pixel data. */
  datatype Dataset = Dataset(attrs: map<string, AttrValue>, pixels: PixelDecode)

  /** The outcome of parsing the uploaded bytes. */
  datatype Parse = Parsed(dataset: Dataset) | Unreadable(reason: string)

  /** The exceptions the handler lets escape. */
  datatype Exception =
    | ValueError(message: string)
    | FileNotFoundError(message: string)
    | OtherError(name: string, message: string)

  // ---------------------------------------------------------------
  // JSON documents of DICOM elements
  // ---------------------------------------------------------------

  datatype Scalar = Str(s: string) | Num(n: int)

  /** One element of a document: `{"vr": ..., "Value": [...]}`, the value
      representation being absent from the index documents. */
  datatype Element = Element(vr: Option<string>, values: seq<Scalar>)

  /** A document maps a tag to its element. The JSON text writes each tag
      as its `TagKey`; since that rendering is injective on tags, the model
      keys documents by the tag itself. */
  type Doc = map<nat, Element>

  /** A tag is a 32-bit number: group in the high half, element in the low. */
  predicate IsTag(tag: nat) {
    tag < 0x1_0000_0000
  }

  /** The key of a tag in a document: `0x0020000D` becomes "0020000D". */
  function TagKey(tag: nat): (s: string)
    ensures |s| == 8
  {
    Hex(tag, 8)
  }

  /** Distinct tags have distinct keys, so a document keyed by tag and
      its JSON text keyed by `TagKey` hold the same entries. */
  lemma TagKeyInjective(a: nat, b: nat)
    requires IsTag(a) && IsTag(b)
    ensures TagKey(a) == TagKey(b) <==> a == b
  {
    assert Pow16(8) == 0x1_0000_0000;
    HexRoundTrip(a, 8);
    HexRoundTrip(b, 8);
  }

  // ---------------------------------------------------------------
  // reading attributes
  // ---------------------------------------------------------------

  /** `str(value)`. */
  function AttrText(v: AttrValue): (s: string)
    ensures v.Text? ==> s == v.s
    ensures v.Int? ==> TextToInt(s) == Some(v.n)
  {
    match v
    case Text(s) => s
    case Int(n) => ParseIntOfIntToString(n); IntToStringIsAscii(n); IntToString(n)
    case Bytes(b) => BytesRepr(b)
    case NoValue => "None"
  }

  /** `int(value)`: text and bytes are parsed as base-10 literals, text
      with the decimal digits and white space of every script; an empty
      element cannot be converted. */
  function AttrInt(v: AttrValue): (r: Result<int, Exception>)
    ensures v.Int? ==> r == Ok(v.n)
    ensures v.Text? ==> (r.Ok? <==> TextToInt(v.s).Some?)
    ensures v.Text? && r.Ok? ==> r.value == TextToInt(v.s).value
    ensures v.Text? && r.Err? ==> r.error == ValueError(TextIntError(v.s))
    ensures v.Bytes? && r.Err? ==> r.error == ValueError(BytesIntError(v.b))
    ensures r.Err? && !v.NoValue? ==> r.error.ValueError?
  {
    match v
    case Int(n) => Ok(n)
    case Text(s) =>
      (match TextToInt(s)
       case Some(n) => Ok(n)
       case None => Err(ValueError(TextIntError(s))))
    case Bytes(b) =>
      (match ParseInt(Latin1(b))
       case Some(n) => Ok(n)
       case None => Err(ValueError(BytesIntError(b))))
    case NoValue => Err(OtherError("TypeError", "int() argument must be a string, a bytes-like object or a real number, not 'NoneType'"))
  }

  /** `str(getattr(ds, keyword, default))`. */
  function GetText(ds: Dataset, keyword: string, default: string): (s: string)
    ensures keyword !in ds.attrs ==> s == default
  {
    if keyword in ds.attrs then AttrText(ds.attrs[keyword]) else default
  }

  /** `int(getattr(ds, keyword, 0))`. */
  function GetInt(ds: Dataset, keyword: string): (r: Result<int, Exception>)
    ensures keyword !in ds.attrs ==> r == Ok(0)
  {
    if keyword in ds.attrs then AttrInt(ds.attrs[keyword]) else Ok(0)
  }

  // ---------------------------------------------------------------
  // the instance metadata document
  // ---------------------------------------------------------------

  datatype FieldKind = TextField | IntField

  /** One row of the extraction table: tag, value representation, the
      attribute read, and whether it is read as text or as an integer. */
  datatype TagSpec = TagSpec(tag: nat, vr: string, keyword: string, kind: FieldKind)

  const MetadataTable: seq<TagSpec> := [
    TagSpec(0x00080020, "DA", "StudyDate", TextField),
    TagSpec(0x00080030, "TM", "StudyTime", TextField),
    TagSpec(0x00081030, "LO", "StudyDescription", TextField),
    TagSpec(0x0020000D, "UI", "StudyInstanceUID", TextField),
    TagSpec(0x00100010, "PN", "PatientName", TextField),
    TagSpec(0x00100020, "LO", "PatientID", TextField),
    TagSpec(0x00200011, "IS", "SeriesNumber", TextField),
    TagSpec(0x0008103E, "LO", "SeriesDescription", TextField),
    TagSpec(0x0020000E, "UI", "SeriesInstanceUID", TextField),
    TagSpec(0x00200013, "IS", "InstanceNumber", TextField),
    TagSpec(0x00080016, "UI", "SOPClassUID", TextField),
    TagSpec(0x00080018, "UI", "SOPInstanceUID", TextField),
    TagSpec(0x00280010, "US", "Rows", IntField),
    TagSpec(0x00280011, "US", "Columns", IntField),
    TagSpec(0x00280004, "CS", "PhotometricInterpretation", TextField),
    TagSpec(0x00280100, "US", "BitsAllocated", IntField),
    TagSpec(0x00280101, "US", "BitsStored", IntField),
    TagSpec(0x00280102, "US", "HighBit", IntField),
    TagSpec(0x00280103, "US", "PixelRepresentation", IntField),
    TagSpec(0x00080060, "CS", "Modality", TextField),
    TagSpec(0x00200010, "SH", "StudyID", TextField),
    TagSpec(0x00080050, "SH", "AccessionNumber", TextField),
    TagSpec(0x00100040, "CS", "PatientSex", TextField),
    TagSpec(0x00100030, "DA", "PatientBirthDate", TextField),
    TagSpec(0x00100021, "LO", "IssuerOfPatientID", TextField)
  ]

  /** Every row's tag is a 32-bit tag and no tag appears twice. */
  predicate TagsDistinct(specs: seq<TagSpec>) {
    && (forall k :: 0 <= k < |specs| ==> IsTag(specs[k].tag))
    && (forall i, j :: 0 <= i < j < |specs| ==> specs[i].tag != specs[j].tag)
  }

  /** The value one table row reads: text (empty when absent) or an
      integer (0 when absent). */
  function FieldValue(ds: Dataset, spec: TagSpec): (r: Result<Scalar, Exception>)
    ensures spec.kind == TextField ==> r.Ok? && r.value.Str?
    ensures spec.kind == IntField ==> (r.Ok? <==> GetInt(ds, spec.keyword).Ok?) && (r.Ok? ==> r.value.Num?)
  {
    match spec.kind
    case TextField => Ok(Str(GetText(ds, spec.keyword, "")))
    case IntField =>
      match GetInt(ds, spec.keyword)
      case Ok(n) => Ok(Num(n))
      case Err(e) => Err(e)
  }

  predicate Fails(ds: Dataset, spec: TagSpec) {
    FieldValue(ds, spec).Err?
  }

  /** The keys a table's rows produce. */
  function RowKeys(specs: seq<TagSpec>): set<nat> {
    set k | 0 <= k < |specs| :: specs[k].tag
  }

  /** The rows of `specs` read in order; the first row whose conversion
      raises ends the extraction with that error. */
  function ExtractRows(ds: Dataset, specs: seq<TagSpec>): (r: Result<Doc, Exception>)
    ensures specs == [] ==> r == Ok(map[])
  {
    if specs == [] then Ok(map[])
    else
      match FieldValue(ds, specs[0])
      case Err(e) => Err(e)
      case Ok(v) =>
        match ExtractRows(ds, specs[1..])
        case Err(e) => Err(e)
        case Ok(rest) => Ok(rest[specs[0].tag := Element(Some(specs[0].vr), [v])])
  }

  /** Row `k` is the first row of `specs` that fails. */
  predicate FirstFailure(ds: Dataset, specs: seq<TagSpec>, k: int) {
    0 <= k < |specs| && Fails(ds, specs[k]) && forall j :: 0 <= j < k ==> !Fails(ds, specs[j])
  }

  lemma FirstFailureShift(ds: Dataset, specs: seq<TagSpec>, k: int)
    requires specs != [] && !Fails(ds, specs[0]) && FirstFailure(ds, specs[1..], k)
    ensures FirstFailure(ds, specs, k + 1)
  {
    forall j | 0 <= j < k + 1 ensures !Fails(ds, specs[j]) {
      if j > 0 {
        assert specs[j] == specs[1..][j - 1];
      }
    }
  }

  /** The extraction fails exactly when some row fails, and then with the
      error of the first failing row. */
  lemma {:induction false} ExtractRowsFails(ds: Dataset, specs: seq<TagSpec>)
    ensures ExtractRows(ds, specs).Err? <==> (exists k :: 0 <= k < |specs| && Fails(ds, specs[k]))
    ensures ExtractRows(ds, specs).Err? ==>
      exists k :: FirstFailure(ds, specs, k) && FieldValue(ds, specs[k]) == Err(ExtractRows(ds, specs).error)
  {
    if specs != [] {
      var rest := specs[1..];
      ExtractRowsFails(ds, rest);
      var r := ExtractRows(ds, specs);
      if Fails(ds, specs[0]) {
        assert FirstFailure(ds, specs, 0) && FieldValue(ds, specs[0]) == Err(r.error);
      } else if ExtractRows(ds, rest).Err? {
        var k :| FirstFailure(ds, rest, k) && FieldValue(ds, rest[k]) == Err(ExtractRows(ds, rest).error);
        FirstFailureShift(ds, specs, k);
        assert specs[k + 1] == rest[k];
      } else {
        forall k | 0 <= k < |specs| ensures !Fails(ds, specs[k]) {
          if k > 0 {
            assert specs[k] == rest[k - 1];
          }
        }
      }
    }
  }

  /** A successful extraction holds exactly one entry per row, at the row's
      tag, with the row's value representation and the value read. */
  lemma {:induction false} ExtractRowsDoc(ds: Dataset, specs: seq<TagSpec>)
    requires TagsDistinct(specs)
    requires ExtractRows(ds, specs).Ok?
    ensures ExtractRows(ds, specs).value.Keys == RowKeys(specs)
    ensures forall k :: 0 <= k < |specs| ==>
      && FieldValue(ds, specs[k]).Ok?
      && ExtractRows(ds, specs).value[specs[k].tag] == Element(Some(specs[k].vr), [FieldValue(ds, specs[k]).value])
  {
    ExtractRowsFails(ds, specs);
    if specs != [] {
      var rest := specs[1..];
      assert TagsDistinct(rest);
      ExtractRowsDoc(ds, rest);
      assert forall k :: 1 <= k < |specs| ==> specs[k] == rest[k - 1];
      RowKeysCons(specs);
    }
  }

  lemma RowKeysCons(specs: seq<TagSpec>)
    requires specs != []
    ensures RowKeys(specs) == RowKeys(specs[1..]) + {specs[0].tag}
  {
    var rest := specs[1..];
    forall t | t in RowKeys(specs) ensures t in RowKeys(rest) + {specs[0].tag} {
      var k :| 0 <= k < |specs| && specs[k].tag == t;
      if k > 0 { assert rest[k - 1].tag == t; }
    }
    forall t | t in RowKeys(rest) ensures t in RowKeys(specs) {
      var k :| 0 <= k < |rest| && rest[k].tag == t;
      assert specs[k + 1].tag == t;
    }
  }

  /** The row of `MetadataTable` that reads `tag`, or -1 for any other tag. */
  function TableRow(tag: nat): int {
    if tag == 0x00080020 then 0
    else if tag == 0x00080030 then 1
    else if tag == 0x00081030 then 2
    else if tag == 0x0020000D then 3
    else if tag == 0x00100010 then 4
    else if tag == 0x00100020 then 5
    else if tag == 0x00200011 then 6
    else if tag == 0x0008103E then 7
    else if tag == 0x0020000E then 8
    else if tag == 0x00200013 then 9
    else if tag == 0x00080016 then 10
    else if tag == 0x00080018 then 11
    else if tag == 0x00280010 then 12
    else if tag == 0x00280011 then 13
    else if tag == 0x00280004 then 14
    else if tag == 0x00280100 then 15
    else if tag == 0x00280101 then 16
    else if tag == 0x00280102 then 17
    else if tag == 0x00280103 then 18
    else if tag == 0x00080060 then 19
    else if tag == 0x00200010 then 20
    else if tag == 0x00080050 then 21
    else if tag == 0x00100040 then 22
    else if tag == 0x00100030 then 23
    else if tag == 0x00100021 then 24
    else -1
  }

  /** Tags that each name their own row are pairwise distinct. */
  lemma DistinctByRow(specs: seq<TagSpec>, row: nat -> int)
    requires forall k :: 0 <= k < |specs| ==> row(specs[k].tag) == k
    ensures forall i, j :: 0 <= i < j < |specs| ==> specs[i].tag != specs[j].tag
  {
  }

  lemma TableTagsDistinct()
    ensures TagsDistinct(MetadataTable)
  {
    assert forall k :: 0 <= k < |MetadataTable| ==> IsTag(MetadataTable[k].tag);
    assert forall k :: 0 <= k < |MetadataTable| ==> TableRow(MetadataTable[k].tag) == k;
    DistinctByRow(MetadataTable, TableRow);
  }

  /** The instance metadata document of a dataset (`_extract_metadata`). */
  function ExtractMetadata(ds: Dataset): Result<Doc, Exception> {
    ExtractRows(ds, MetadataTable)
  }

  const MetadataTags: set<nat> := RowKeys(MetadataTable)

  /** A document shaped as extracting the rows `specs` makes it: exactly
      their tags, each with the row's value representation and a single
      value, a string for text rows and a number for integer rows. */
  predicate RowsExtracted(doc: Doc, specs: seq<TagSpec>) {
    && doc.Keys == RowKeys(specs)
    && forall k :: 0 <= k < |specs| ==>
         var e := doc[specs[k].tag];
         && e.vr == Some(specs[k].vr)
         && |e.values| == 1
         && (specs[k].kind == TextField <==> e.values[0].Str?)
  }

  /** Extraction fails exactly when one of the integer rows cannot be
      converted, and then with the error of the first such row; otherwise
      the document has the table's shape, every row's value read from the
      dataset, with "" for a missing text attribute and 0 for a missing
      integer attribute. */
  lemma ExtractMetadataSpec(ds: Dataset)
    ensures var r := ExtractMetadata(ds);
      && (r.Err? <==> exists k :: 0 <= k < |MetadataTable| && MetadataTable[k].kind == IntField
                                  && GetInt(ds, MetadataTable[k].keyword).Err?)
      && (r.Err? ==> exists k :: 0 <= k < |MetadataTable| && GetInt(ds, MetadataTable[k].keyword) == Err(r.error)
                                  && MetadataTable[k].kind == IntField
                                  && forall j :: 0 <= j < k && MetadataTable[j].kind == IntField ==>
                                       GetInt(ds, MetadataTable[j].keyword).Ok?)
      && (r.Ok? ==> RowsExtracted(r.value, MetadataTable) && r.value.Keys == MetadataTags)
      && (r.Ok? ==> forall k :: 0 <= k < |MetadataTable| && MetadataTable[k].kind == TextField ==>
            r.value[MetadataTable[k].tag].values == [Str(GetText(ds, MetadataTable[k].keyword, ""))])
      && (r.Ok? ==> forall k :: 0 <= k < |MetadataTable| && MetadataTable[k].kind == IntField ==>
            r.value[MetadataTable[k].tag].values == [Num(GetInt(ds, MetadataTable[k].keyword).value)])
  {
    TableTagsDistinct();
    ExtractRowsSpec(ds, MetadataTable);
  }

  /** The same for any table whose tags are distinct. */
  lemma ExtractRowsSpec(ds: Dataset, specs: seq<TagSpec>)
    requires TagsDistinct(specs)
    ensures var r := ExtractRows(ds, specs);
      && (r.Err? <==> exists k :: 0 <= k < |specs| && specs[k].kind == IntField
                                  && GetInt(ds, specs[k].keyword).Err?)
      && (r.Err? ==> exists k :: 0 <= k < |specs| && GetInt(ds, specs[k].keyword) == Err(r.error)
                                  && specs[k].kind == IntField
                                  && forall j :: 0 <= j < k && specs[j].kind == IntField ==>
                                       GetInt(ds, specs[j].keyword).Ok?)
      && (r.Ok? ==> RowsExtracted(r.value, specs))
      && (r.Ok? ==> forall k :: 0 <= k < |specs| && specs[k].kind == TextField ==>
            r.value[specs[k].tag].values == [Str(GetText(ds, specs[k].keyword, ""))])
      && (r.Ok? ==> forall k :: 0 <= k < |specs| && specs[k].kind == IntField ==>
            r.value[specs[k].tag].values == [Num(GetInt(ds, specs[k].keyword).value)])
  {
    ExtractRowsFails(ds, specs);
    var r := ExtractRows(ds, specs);
    if r.Ok? {
      ExtractRowsDoc(ds, specs);
    } else {
      var k :| FirstFailure(ds, specs, k) && FieldValue(ds, specs[k]) == Err(r.error);
      assert specs[k].kind == IntField;
    }
  }

  /** The extracted document holds the instance number as text. */
  lemma ExtractedInstanceNumber(ds: Dataset, doc: Doc)
    requires ExtractMetadata(ds) == Ok(doc)
    ensures 0x00200013 in doc && doc[0x00200013].values == [Str(GetText(ds, "InstanceNumber", ""))]
  {
    TableFacts();
    TableTagsDistinct();
    ExtractedTextRow(ds, MetadataTable, 9);
  }

  /** A successful extraction records the texts of StudyDate,
      StudyDescription, SeriesNumber and SeriesDescription, each "" when
      the attribute is missing. */
  lemma ExtractedSummaryTexts(ds: Dataset, doc: Doc)
    requires ExtractMetadata(ds) == Ok(doc)
    ensures 0x00080020 in doc && doc[0x00080020].values == [Str(GetText(ds, "StudyDate", ""))]
    ensures 0x00081030 in doc && doc[0x00081030].values == [Str(GetText(ds, "StudyDescription", ""))]
    ensures 0x00200011 in doc && doc[0x00200011].values == [Str(GetText(ds, "SeriesNumber", ""))]
    ensures 0x0008103E in doc && doc[0x0008103E].values == [Str(GetText(ds, "SeriesDescription", ""))]
  {
    TableSummaryRows();
    TableTagsDistinct();
    ExtractedTextRow(ds, MetadataTable, 0);
    ExtractedTextRow(ds, MetadataTable, 2);
    ExtractedTextRow(ds, MetadataTable, 6);
    ExtractedTextRow(ds, MetadataTable, 7);
  }

  lemma TableSummaryRows()
    ensures |MetadataTable| == 25
    ensures MetadataTable[0] == TagSpec(0x00080020, "DA", "StudyDate", TextField)
    ensures MetadataTable[2] == TagSpec(0x00081030, "LO", "StudyDescription", TextField)
    ensures MetadataTable[6] == TagSpec(0x00200011, "IS", "SeriesNumber", TextField)
    ensures MetadataTable[7] == TagSpec(0x0008103E, "LO", "SeriesDescription", TextField)
  {
  }

  /** A text row of a successful extraction holds the attribute's text. */
  lemma ExtractedTextRow(ds: Dataset, specs: seq<TagSpec>, k: nat)
    requires TagsDistinct(specs) && ExtractRows(ds, specs).Ok?
    requires k < |specs| && specs[k].kind == TextField
    ensures specs[k].tag in ExtractRows(ds, specs).value
    ensures ExtractRows(ds, specs).value[specs[k].tag].values == [Str(GetText(ds, specs[k].keyword, ""))]
  {
    ExtractRowsDoc(ds, specs);
    assert specs[k].tag in RowKeys(specs);
  }

  /** The table has 25 rows with 25 distinct keys, and the integer rows are
      exactly the six image-geometry attributes; SeriesNumber and
      InstanceNumber are read as text although their value representation
      is IS. */
  lemma TableFacts()
    ensures |MetadataTable| == 25 && |MetadataTags| == 25
    ensures forall k :: 0 <= k < |MetadataTable| && MetadataTable[k].kind == IntField ==>
      MetadataTable[k].keyword in {"Rows", "Columns", "BitsAllocated", "BitsStored", "HighBit", "PixelRepresentation"}
      && MetadataTable[k].vr == "US"
    ensures MetadataTable[6] == TagSpec(0x00200011, "IS", "SeriesNumber", TextField)
    ensures MetadataTable[9] == TagSpec(0x00200013, "IS", "InstanceNumber", TextField)
  {
    TableTagsDistinct();
    DistinctKeysCount(MetadataTable);
    TableIntRows();
  }

  lemma TableIntRows()
    ensures forall k :: 0 <= k < |MetadataTable| && MetadataTable[k].kind == IntField ==>
      MetadataTable[k].keyword in {"Rows", "Columns", "BitsAllocated", "BitsStored", "HighBit", "PixelRepresentation"}
      && MetadataTable[k].vr == "US"
  {
  }

  lemma {:induction false} DistinctKeysCount(specs: seq<TagSpec>)
    requires TagsDistinct(specs)
    ensures |RowKeys(specs)| == |specs|
  {
    if specs != [] {
      var rest := specs[1..];
      assert TagsDistinct(rest);
      DistinctKeysCount(rest);
      assert RowKeys(specs) == {specs[0].tag} + RowKeys(rest) by {
        forall t | t in RowKeys(specs) ensures t in {specs[0].tag} + RowKeys(rest) {
          var k :| 0 <= k < |specs| && specs[k].tag == t;
          if k > 0 { assert rest[k - 1].tag == t; }
        }
      }
      forall k | 0 <= k < |rest| ensures rest[k].tag != specs[0].tag {
        assert rest[k] == specs[k + 1];
      }
    }
  }

  /** A dataset without any of the table's attributes gives the empty
      string for every text row and 0 for every integer row. */
  lemma ExtractEmpty(ds: Dataset)
    requires ds.attrs == map[]
    ensures var r := ExtractMetadata(ds);
      && r.Ok?
      && forall k :: 0 <= k < |MetadataTable| ==>
           MetadataTable[k].tag in r.value
           && r.value[MetadataTable[k].tag].values
             == (if MetadataTable[k].kind == TextField then [Str("")] else [Num(0)])
  {
    ExtractMetadataSpec(ds);
  }

  /** When the only attribute is a Rows text that is not a number, the
      extraction ends with the `ValueError` of `int()`. */
  lemma ExtractBadRows(ds: Dataset, t: string)
    requires ds.attrs.Keys == {"Rows"} && "Rows" in ds.attrs
    requires ds.attrs["Rows"] == Text(t) && TextToInt(t) == None
    ensures ExtractMetadata(ds) == Err(ValueError(TextIntError(t)))
  {
    TableRowsEntry();
    assert GetInt(ds, "Rows") == Err(ValueError(TextIntError(t)));
    BadRowsRow(ds, MetadataTable, ValueError(TextIntError(t)), 12);
  }

  /** Row 12 of the table reads Rows as an integer. */
  lemma TableRowsEntry()
    ensures |MetadataTable| == 25 && MetadataTable[12] == TagSpec(0x00280010, "US", "Rows", IntField)
  {
  }

  /** Rows read from a dataset whose only attribute is a Rows that `int()`
      refuses, one of them reading Rows as an integer. */
  lemma BadRowsRow(ds: Dataset, specs: seq<TagSpec>, e: Exception, k: nat)
    requires ds.attrs.Keys == {"Rows"} && GetInt(ds, "Rows") == Err(e)
    requires k < |specs| && specs[k].keyword == "Rows" && specs[k].kind == IntField
    ensures ExtractRows(ds, specs) == Err(e)
  {
    assert Fails(ds, specs[k]);
    ExtractRowsFails(ds, specs);
    var r := ExtractRows(ds, specs);
    var j :| FirstFailure(ds, specs, j) && FieldValue(ds, specs[j]) == Err(r.error);
    OnlyPresentFails(ds, specs[j]);
  }

  /** Only a row that reads an attribute present in the dataset can fail. */
  lemma OnlyPresentFails(ds: Dataset, spec: TagSpec)
    requires Fails(ds, spec)
    ensures spec.kind == IntField && spec.keyword in ds.attrs
    ensures FieldValue(ds, spec) == Err(GetInt(ds, spec.keyword).error)
  {
  }
}
