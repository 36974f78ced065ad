/** Lesion records built from the rows of an annotation CSV, and the loader
    for the folders of several annotators (skin3d/annotate.py). */
module Annotate {
  import opened Wrappers
  import opened Batches
  import opened Strings
  import opened Decimal
  import opened Sorting
  import opened Sequences
  import opened Paths
  import opened OrderedMaps
  import opened Storage

  /** A decoded JSON value of the attributes object. */
  datatype Json = JString(s: string) | JInt(n: int) | JBool(b: bool) | JNull

  /** `json.loads` of the attributes text: None where it raises. */
  type Parser = string -> Option<map<string, Json>>

  /** The lesion number; `Absent` is the `""` sentinel, never confused with a number. */
  datatype LesionId = Absent | Id(n: int)

  /** One lesion record. `annotator` holds the stored value as given, or `JString("")`
      when the key is missing, exactly as the dictionary the source builds. */
  datatype Lesion = Lesion(
    scanId: Option<string>,
    x: int, y: int, x2: int, y2: int,
    width: int, height: int,
    annotator: Json,
    lesionId: LesionId)

  const Undefined := "undefined"
  const QuotedUndefined := "\"undefined\""

  // ---------------------------------------------------------------------------
  // The textual repair of the attributes

  /** The annotation tool wrote `undefined` unquoted; before the text is decoded,
      every occurrence of the substring gains two quotes, whether it was bare,
      already quoted or part of a longer word. */
  function RepairUndefined(text: string): string {
    if Contains(text, Undefined) then Replace(text, Undefined, QuotedUndefined) else text
  }

  /** The inverse rewrite: every quoted `"undefined"` back to the unquoted word. */
  function RestoreUndefined(text: string): string {
    Replace(text, QuotedUndefined, Undefined)
  }

  /** Each occurrence of `undefined`, bare, already quoted or inside a longer
      word, gains two quotes, and nothing else changes length. */
  lemma RepairLength(text: string)
    ensures |RepairUndefined(text)| == |text| + 2 * Count(text, Undefined)
  {
    ReplaceLength(text, Undefined, QuotedUndefined);
    if !Contains(text, Undefined) {
      CountZeroIffAbsent(text, Undefined);
    }
  }

  /** The repair does not look at the context of an occurrence: a value that was
      already quoted gains a second pair of quotes, which the decoder then
      rejects, and a longer word containing `undefined` is split by quotes. */
  lemma RepairQuotesEveryOccurrence()
    ensures RepairUndefined("\"undefined\"") == "\"\"undefined\"\""
    ensures RepairUndefined("undefinedX") == "\"undefined\"X"
  {
    var quoted := "\"undefined\"";
    assert quoted[..9][0] == '"' != Undefined[0];
    assert quoted[1..] == Undefined + "\"";
    assert StartsWith(Undefined + "\"", Undefined) && (Undefined + "\"")[9..] == "\"";
    assert Contains(quoted, Undefined) by { assert StartsWith(quoted[1..], Undefined); }
    var word := "undefinedX";
    assert StartsWith(word, Undefined) && word[9..] == "X";
  }

  /** The repair changes the text exactly when the text holds `undefined`. */
  lemma RepairUnchangedIff(text: string)
    ensures RepairUndefined(text) == text <==> !Contains(text, Undefined)
  {
    RepairLength(text);
    CountZeroIffAbsent(text, Undefined);
  }

  /** The guard `'undefined' in text` only skips work: the repair is the plain replacement. */
  lemma RepairIsReplace(text: string)
    ensures RepairUndefined(text) == Replace(text, Undefined, QuotedUndefined)
  {
    if !Contains(text, Undefined) {
      ReplaceAbsent(text, Undefined, QuotedUndefined);
    }
  }

  /** The repair loses nothing: removing the added quotes gives the original text back. */
  lemma RepairRoundTrip(text: string)
    ensures RestoreUndefined(RepairUndefined(text)) == text
  {
    RepairIsReplace(text);
    QuoteRoundTrip(text);
  }

  lemma {:induction false} QuoteRoundTrip(s: string)
    ensures Replace(Replace(s, Undefined, QuotedUndefined), QuotedUndefined, Undefined) == s
    decreases |s|
  {
    if |s| < |Undefined| {
    } else if StartsWith(s, Undefined) {
      var rest := Replace(s[9..], Undefined, QuotedUndefined);
      QuoteRoundTrip(s[9..]);
      ReplaceAtMatch(QuotedUndefined, rest, Undefined);
      assert s == Undefined + s[9..];
    } else {
      var rest := Replace(s[1..], Undefined, QuotedUndefined);
      QuoteRoundTrip(s[1..]);
      var r := [s[0]] + rest;
      assert Replace(s, Undefined, QuotedUndefined) == r;
      if |r| < |QuotedUndefined| {
        assert rest == s[1..];
      } else {
        NoUndefinedAhead(s[1..]);
        QuotedAfterOneChar(s[0], rest);
        ReplaceAtMismatch(s[0], rest, QuotedUndefined, Undefined);
      }
      assert s == [s[0]] + s[1..];
    }
  }

  lemma ReplaceAtMatch(pat: string, rest: string, sub: string)
    requires |pat| > 0
    ensures Replace(pat + rest, pat, sub) == sub + Replace(rest, pat, sub)
  {
    assert (pat + rest)[|pat|..] == rest;
  }

  lemma ReplaceAtMismatch(c: char, rest: string, pat: string, sub: string)
    requires |pat| > 0 && |pat| <= 1 + |rest| && !StartsWith([c] + rest, pat)
    ensures Replace([c] + rest, pat, sub) == [c] + Replace(rest, pat, sub)
  {
    assert ([c] + rest)[1..] == rest;
  }

  /** The repaired text never starts with the unquoted word: each occurrence now
      begins with a quote. */
  lemma NoUndefinedAhead(t: string)
    ensures !StartsWith(Replace(t, Undefined, QuotedUndefined), Undefined)
  {
    var r := Replace(t, Undefined, QuotedUndefined);
    if StartsWith(r, Undefined) {
      QuoteFreePrefix(Undefined, t);
    }
  }

  lemma QuotedAfterOneChar(c: char, rest: string)
    ensures StartsWith([c] + rest, QuotedUndefined) ==> StartsWith(rest, Undefined)
  {
    var r := [c] + rest;
    if StartsWith(r, QuotedUndefined) {
      assert r[..11] == QuotedUndefined;
      assert r[1..10] == QuotedUndefined[1..10] == Undefined;
      assert rest[..9] == r[1..10];
    }
  }

  lemma RepairedStartsWithQuote(t: string)
    requires StartsWith(t, Undefined)
    ensures Replace(t, Undefined, QuotedUndefined)[0] == '"'
  {
  }

  /** A quote-free prefix of the repaired text is already a prefix of the input. */
  lemma {:induction false} QuoteFreePrefix(w: string, t: string)
    requires '"' !in w
    requires StartsWith(Replace(t, Undefined, QuotedUndefined), w)
    ensures StartsWith(t, w)
    decreases |t|
  {
    var r := Replace(t, Undefined, QuotedUndefined);
    if w == [] || |t| < |Undefined| {
    } else if StartsWith(t, Undefined) {
      RepairedStartsWithQuote(t);
      assert false;
    } else {
      var rest := Replace(t[1..], Undefined, QuotedUndefined);
      assert r == [t[0]] + rest;
      assert StartsWith(rest, w[1..]) by {
        assert rest[..|w| - 1] == r[1..|w|] == w[1..];
      }
      assert '"' !in w[1..] by {
        assert forall c :: c in w[1..] ==> c in w;
      }
      QuoteFreePrefix(w[1..], t[1..]);
      assert w == [w[0]] + w[1..];
    }
  }

  // ---------------------------------------------------------------------------
  // One lesion record per region

  /** Python's `int(value)` on a decoded JSON value. */
  function PyInt(v: Json): Result<int> {
    match v
    case JInt(n) => Ok(n)
    case JBool(b) => Ok(if b then 1 else 0)
    case JString(s) =>
      (match ParseInt(s)
       case Some(n) => Ok(n)
       case None => Err(ValueError(InvalidIntLiteral)))
    case JNull => Err(TypeError)
  }

  /** A lesion number stored as its decimal text reads back as that number. */
  lemma LesionIdTextRoundTrip(n: int)
    ensures PyInt(JString(IntLiteral(n))) == Ok(n)
  {
    IntLiteralRoundTrip(n);
  }

  /** The `lesion_id` field: the sentinel when missing or empty, otherwise
      `int` of the stored value, whose failure aborts the record. */
  function LesionIdOf(attrs: map<string, Json>): (r: Result<LesionId>)
    ensures r == Ok(Absent) <==> "lesion_id" !in attrs || attrs["lesion_id"] == JString("")
    ensures r.Ok? && r.value.Id? ==> "lesion_id" in attrs && PyInt(attrs["lesion_id"]) == Ok(r.value.n)
    ensures r.Err? ==> "lesion_id" in attrs && attrs["lesion_id"] != JString("") && PyInt(attrs["lesion_id"]) == Err(r.error)
  {
    if "lesion_id" in attrs && attrs["lesion_id"] != JString("") then
      match PyInt(attrs["lesion_id"])
      case Ok(n) => Ok(Id(n))
      case Err(e) => Err(e)
    else Ok(Absent)
  }

  /** An empty `lesion_id` is the sentinel, not the number 0. */
  lemma EmptyLesionIdIsAbsent(attrs: map<string, Json>)
    requires "lesion_id" in attrs && attrs["lesion_id"] == JString("")
    ensures LesionIdOf(attrs) == Ok(Absent) && LesionIdOf(attrs) != Ok(Id(0))
  {
  }

  /** The `annotator` field: the stored value as given, `""` when missing. */
  function AnnotatorOf(attrs: map<string, Json>): (a: Json)
    ensures a == JString("") <==> "annotator" !in attrs || attrs["annotator"] == JString("")
    ensures "annotator" in attrs ==> a == attrs["annotator"]
  {
    if "annotator" in attrs then attrs["annotator"] else JString("")
  }

  /** The first of the four rectangle keys, in the order the source reads them,
      that the shape lacks. */
  function MissingShapeKey(shape: map<string, int>): Option<string> {
    if "x" !in shape then Some("x")
    else if "y" !in shape then Some("y")
    else if "width" !in shape then Some("width")
    else if "height" !in shape then Some("height")
    else None
  }

  /** The body of the loop in `lesion_properties_from_annotations`, for one region. */
  function LesionRecord(region: Region, scanId: Option<string>, parse: Parser): (r: Result<Lesion>)
    ensures MissingShapeKey(region.shape).Some? ==> r == Err(KeyError(MissingShapeKey(region.shape).value))
    ensures MissingShapeKey(region.shape).None? && parse(RepairUndefined(region.attributes)).None? ==> r == Err(JsonDecodeError)
    ensures r.Ok? ==>
      && MissingShapeKey(region.shape).None?
      && parse(RepairUndefined(region.attributes)).Some?
      && var shape, attrs := region.shape, parse(RepairUndefined(region.attributes)).value;
      && r.value.scanId == scanId
      && r.value.x == shape["x"] && r.value.y == shape["y"]
      && r.value.width == shape["width"] && r.value.height == shape["height"]
      && r.value.x2 == r.value.x + r.value.width
      && r.value.y2 == r.value.y + r.value.height
      && Ok(r.value.lesionId) == LesionIdOf(attrs)
      && r.value.annotator == AnnotatorOf(attrs)
    ensures r.Err? && MissingShapeKey(region.shape).None? && parse(RepairUndefined(region.attributes)).Some? ==>
      LesionIdOf(parse(RepairUndefined(region.attributes)).value) == Err(r.error)
  {
    match MissingShapeKey(region.shape)
    case Some(key) => Err(KeyError(key))
    case None =>
      var x, y := region.shape["x"], region.shape["y"];
      var w, h := region.shape["width"], region.shape["height"];
      match parse(RepairUndefined(region.attributes))
      case None => Err(JsonDecodeError)
      case Some(attrs) =>
        match LesionIdOf(attrs)
        case Err(e) => Err(e)
        case Ok(lesionId) => Ok(Lesion(scanId, x, y, x + w, y + h, w, h, AnnotatorOf(attrs), lesionId))
  }

  /** `lesion_properties_from_annotations`: one record per region, in order, or
      the exception of the first region that raises. */
  function LesionProperties(regions: seq<Region>, scanId: Option<string>, parse: Parser): (r: Result<seq<Lesion>>)
    ensures r.Ok? <==> forall i :: 0 <= i < |regions| ==> LesionRecord(regions[i], scanId, parse).Ok?
    ensures r.Ok? ==> |r.value| == |regions|
    ensures r.Ok? ==> forall i :: 0 <= i < |regions| ==> r.value[i] == LesionRecord(regions[i], scanId, parse).value
    ensures r.Ok? ==> forall i :: 0 <= i < |r.value| ==> r.value[i].scanId == scanId
    ensures r.Err? ==>
      exists k :: 0 <= k < |regions| && LesionRecord(regions[k], scanId, parse) == Err(r.error) &&
        forall j :: 0 <= j < k ==> LesionRecord(regions[j], scanId, parse).Ok?
  {
    Collect(regions, region => LesionRecord(region, scanId, parse))
  }

  /** The loop of `lesion_properties_from_annotations`, appending one record per region. */
  method LesionPropertiesFromAnnotations(regions: seq<Region>, scanId: Option<string>, parse: Parser)
    returns (r: Result<seq<Lesion>>)
    ensures r == LesionProperties(regions, scanId, parse)
  {
    ghost var f := (region: Region) => LesionRecord(region, scanId, parse);
    var properties: seq<Lesion> := [];
    for i := 0 to |regions|
      invariant Collect(regions[..i], f) == Ok(properties)
    {
      var record := LesionRecord(regions[i], scanId, parse);
      if record.Err? {
        CollectStepError(regions, f, i);
        return Err(record.error);
      }
      CollectStepOk(regions, f, i, properties);
      properties := properties + [record.value];
    }
    assert regions[..|regions|] == regions;
    return Ok(properties);
  }

  // ---------------------------------------------------------------------------
  // The folders of several annotators

  /** `scan_id, _ = csv_name.split('.')`: the stem before the only dot. */
  function ScanIdFromCsvName(name: string): (r: Result<string>)
    ensures r.Ok? <==> multiset(name)['.'] == 1
    ensures r.Err? ==> r.error == ValueError(UnpackMismatch(multiset(name)['.'] + 1))
    ensures r.Ok? ==> '.' !in r.value && StartsWith(name, r.value + ".") && '.' !in name[|r.value| + 1..]
  {
    var parts := Split(name, '.');
    SplitCount(name, '.');
    SplitPieces(name, '.');
    SplitJoin(name, '.');
    if |parts| != 2 then Err(ValueError(UnpackMismatch(|parts|)))
    else
      assert name == parts[0] + "." + parts[1] by {
        assert Join(parts, '.') == parts[0] + ['.'] + Join(parts[1..], '.');
      }
      assert name[|parts[0]| + 1..] == parts[1];
      Ok(parts[0])
  }

  /** Naming a scan `<scan_id>.csv` gives back `scan_id`, for any stem without a dot. */
  lemma CsvNameRoundTrip(scanId: string)
    requires '.' !in scanId
    ensures ScanIdFromCsvName(scanId + ".csv") == Ok(scanId)
  {
    var name := scanId + ".csv";
    assert multiset(name)['.'] == 1 by {
      assert multiset(name) == multiset(scanId) + multiset(".csv");
    }
    var r := ScanIdFromCsvName(name);
    assert r.value == scanId by {
      assert StartsWith(name, r.value + ".");
      assert r.value == name[..|r.value|];
    }
  }

  /** A directory entry that is not hidden. */
  predicate IsVisible(name: string) {
    !StartsWith(name, ".")
  }

  /** `[ann for ann in names if not ann.startswith('.')]`. */
  function VisibleNames(names: seq<string>): seq<string> {
    Filter(names, IsVisible)
  }

  /** The annotator folders are visited in sorted order, with the hidden ones
      dropped and every other one kept, each once. */
  lemma VisibleSortedNames(names: seq<string>)
    ensures Ordered(VisibleNames(SortStrings(names)))
    ensures forall a :: a in VisibleNames(SortStrings(names)) <==> a in names && !StartsWith(a, ".")
    ensures Distinct(names) ==> Distinct(VisibleNames(SortStrings(names)))
  {
    SortStringsCorrect(names);
    FilterOrdered(SortStrings(names), IsVisible);
    VisibleMembers(names);
    if Distinct(names) {
      VisibleDistinct(names);
    }
  }

  lemma VisibleMembers(names: seq<string>)
    ensures forall a :: a in VisibleNames(SortStrings(names)) <==> a in names && IsVisible(a)
  {
    var sorted := SortStrings(names);
    SortStringsCorrect(names);
    forall a ensures a in VisibleNames(sorted) <==> a in names && IsVisible(a) {
      assert a in VisibleNames(sorted) <==> multiset(VisibleNames(sorted))[a] > 0;
      assert a in sorted <==> multiset(sorted)[a] > 0;
      assert a in names <==> multiset(names)[a] > 0;
    }
  }

  lemma VisibleDistinct(names: seq<string>)
    requires Distinct(names)
    ensures Distinct(VisibleNames(SortStrings(names)))
  {
    var sorted := SortStrings(names);
    SortStringsCorrect(names);
    DistinctCounts(names);
    DistinctCounts(sorted);
    FilterDistinct(sorted, IsVisible);
  }

  lemma {:induction false} FilterOrdered(s: seq<string>, keep: string -> bool)
    requires Ordered(s)
    ensures Ordered(Filter(s, keep))
    decreases |s|
  {
    if s != [] {
      OrderedTail(s);
      FilterOrdered(s[1..], keep);
      if keep(s[0]) {
        var rest := Filter(s[1..], keep);
        forall x | x in rest ensures LexLe(s[0], x) {
          assert multiset(rest)[x] > 0;
          MinimumFirst(s, x);
        }
        OrderedCons(s[0], rest);
      }
    }
  }

  /** One CSV of an annotator's folder: read, turned into records with no scan
      id stamped, and keyed by the stem of its name. */
  function ScanEntry(fs: FileSystem, dir: string, csvName: string, parse: Parser): (r: Result<(string, seq<Lesion>)>)
    ensures r.Ok? <==>
      JoinPath(dir, csvName) in fs.csvs && LesionProperties(fs.csvs[JoinPath(dir, csvName)], None, parse).Ok? &&
      multiset(csvName)['.'] == 1
    ensures r.Ok? ==> ScanIdFromCsvName(csvName) == Ok(r.value.0)
    ensures r.Ok? ==> LesionProperties(fs.csvs[JoinPath(dir, csvName)], None, parse) == Ok(r.value.1)
    ensures JoinPath(dir, csvName) !in fs.csvs ==> r == Err(FileNotFound(JoinPath(dir, csvName)))
    ensures JoinPath(dir, csvName) in fs.csvs && LesionProperties(fs.csvs[JoinPath(dir, csvName)], None, parse).Err? ==>
      r == Err(LesionProperties(fs.csvs[JoinPath(dir, csvName)], None, parse).error)
    ensures
      (JoinPath(dir, csvName) in fs.csvs && LesionProperties(fs.csvs[JoinPath(dir, csvName)], None, parse).Ok? &&
       multiset(csvName)['.'] != 1) ==>
      r == Err(ValueError(UnpackMismatch(multiset(csvName)['.'] + 1)))
  {
    match ReadCsv(fs, JoinPath(dir, csvName))
    case Err(e) => Err(e)
    case Ok(regions) =>
      match LesionProperties(regions, None, parse)
      case Err(e) => Err(e)
      case Ok(properties) =>
        match ScanIdFromCsvName(csvName)
        case Err(e) => Err(e)
        case Ok(scanId) => Ok((scanId, properties))
  }

  function ScanEntries(fs: FileSystem, dir: string, parse: Parser): string -> Result<(string, seq<Lesion>)> {
    (csvName: string) => ScanEntry(fs, dir, csvName, parse)
  }

  /** One annotator's folder: every CSV in sorted order, as a dictionary from
      scan id to records. */
  function AnnotatorFolder(fs: FileSystem, dir: string, parse: Parser): (r: Result<OrderedMap<seq<Lesion>>>)
    ensures dir !in fs.listings ==> r == Err(FileNotFound(dir))
    ensures r.Ok? <==> dir in fs.listings && forall n :: n in fs.listings[dir] ==> ScanEntry(fs, dir, n, parse).Ok?
    ensures r.Err? && dir in fs.listings ==>
      exists n :: n in fs.listings[dir] && ScanEntry(fs, dir, n, parse) == Err(r.error)
    ensures r.Ok? ==> r.value.Valid()
  {
    match ListDir(fs, dir)
    case Err(e) => Err(e)
    case Ok(csvNames) =>
      SortStringsMembers(csvNames);
      CollectMembers(SortStrings(csvNames), ScanEntries(fs, dir, parse));
      match Collect(SortStrings(csvNames), ScanEntries(fs, dir, parse))
      case Err(e) => Err(e)
      case Ok(scans) => Ok(FromPairs(scans))
  }

  function AnnotatorEntry(fs: FileSystem, root: string, annotator: string, parse: Parser)
    : (r: Result<(string, OrderedMap<seq<Lesion>>)>)
    ensures r.Ok? <==> AnnotatorFolder(fs, JoinPath(root, annotator), parse).Ok?
    ensures r.Ok? ==> r.value == (annotator, AnnotatorFolder(fs, JoinPath(root, annotator), parse).value)
    ensures r.Err? ==> r.error == AnnotatorFolder(fs, JoinPath(root, annotator), parse).error
  {
    match AnnotatorFolder(fs, JoinPath(root, annotator), parse)
    case Err(e) => Err(e)
    case Ok(scans) => Ok((annotator, scans))
  }

  function AnnotatorEntries(fs: FileSystem, root: string, parse: Parser): string -> Result<(string, OrderedMap<seq<Lesion>>)> {
    (annotator: string) => AnnotatorEntry(fs, root, annotator, parse)
  }

  ghost predicate InnerValid(entry: OrderedMap<seq<Lesion>>) {
    entry.Valid()
  }

  /** `load_multiple_annotations`: annotator -> scan id -> records. */
  function MultipleAnnotations(fs: FileSystem, root: string, parse: Parser)
    : (r: Result<OrderedMap<OrderedMap<seq<Lesion>>>>)
    ensures root !in fs.listings ==> r == Err(FileNotFound(root))
    ensures r.Ok? <==> (root in fs.listings &&
      forall a :: a in fs.listings[root] && IsVisible(a) ==> AnnotatorFolder(fs, JoinPath(root, a), parse).Ok?)
    ensures r.Err? && root in fs.listings ==>
      exists a :: a in fs.listings[root] && IsVisible(a) && AnnotatorFolder(fs, JoinPath(root, a), parse) == Err(r.error)
    ensures r.Ok? ==> r.value.Valid() && forall a :: a in r.value.entries ==> r.value.entries[a].Valid()
  {
    match ListDir(fs, root)
    case Err(e) => Err(e)
    case Ok(names) =>
      VisibleMembers(names);
      CollectMembers(VisibleNames(SortStrings(names)), AnnotatorEntries(fs, root, parse));
      match Collect(VisibleNames(SortStrings(names)), AnnotatorEntries(fs, root, parse))
      case Err(e) => Err(e)
      case Ok(entries) =>
        FromPairsValues(entries, InnerValid);
        Ok(FromPairs(entries))
  }

  /** The inner loop of `load_multiple_annotations`, over one annotator's CSVs
      in sorted order. */
  method LoadAnnotatorFolder(fs: FileSystem, dir: string, parse: Parser) returns (r: Result<OrderedMap<seq<Lesion>>>)
    ensures r == AnnotatorFolder(fs, dir, parse)
  {
    var listing := ListDir(fs, dir);
    if listing.Err? {
      return Err(listing.error);
    }
    var csvNames := SortStrings(listing.value);
    r := LoadScans(fs, dir, csvNames, parse);
  }

  /** The given CSVs of one folder, as a dictionary filled one CSV at a time;
      the first CSV that fails aborts. */
  method LoadScans(fs: FileSystem, dir: string, csvNames: seq<string>, parse: Parser)
    returns (r: Result<OrderedMap<seq<Lesion>>>)
    ensures Collect(csvNames, ScanEntries(fs, dir, parse)).Err? ==>
      r == Err(Collect(csvNames, ScanEntries(fs, dir, parse)).error)
    ensures Collect(csvNames, ScanEntries(fs, dir, parse)).Ok? ==>
      r == Ok(FromPairs(Collect(csvNames, ScanEntries(fs, dir, parse)).value))
  {
    ghost var perCsv := ScanEntries(fs, dir, parse);
    var userAnnotations: OrderedMap<seq<Lesion>> := Empty();
    ghost var scans: seq<(string, seq<Lesion>)> := [];
    for j := 0 to |csvNames|
      invariant Collect(csvNames[..j], perCsv) == Ok(scans)
      invariant userAnnotations == FromPairs(scans)
    {
      var csvName := csvNames[j];
      var entry := LoadScan(fs, dir, csvName, parse);
      assert perCsv(csvName) == entry;
      if entry.Err? {
        CollectStepError(csvNames, perCsv, j);
        return Err(entry.error);
      }
      CollectStepOk(csvNames, perCsv, j, scans);
      userAnnotations := userAnnotations.Put(entry.value.0, entry.value.1);
      scans := scans + [entry.value];
    }
    assert csvNames[..|csvNames|] == csvNames;
    return Ok(userAnnotations);
  }

  /** The body of the inner loop: read one CSV, build its records, split its name. */
  method LoadScan(fs: FileSystem, dir: string, csvName: string, parse: Parser) returns (r: Result<(string, seq<Lesion>)>)
    ensures r == ScanEntry(fs, dir, csvName, parse)
  {
    var table := ReadCsv(fs, JoinPath(dir, csvName));
    if table.Err? {
      return Err(table.error);
    }
    var properties := LesionPropertiesFromAnnotations(table.value, None, parse);
    if properties.Err? {
      return Err(properties.error);
    }
    var scanId := ScanIdFromCsvName(csvName);
    if scanId.Err? {
      return Err(scanId.error);
    }
    return Ok((scanId.value, properties.value));
  }

  /** The outer loop of `load_multiple_annotations`, over the visible annotator
      folders in sorted order. */
  method LoadMultipleAnnotations(fs: FileSystem, root: string, parse: Parser)
    returns (r: Result<OrderedMap<OrderedMap<seq<Lesion>>>>)
    ensures r == MultipleAnnotations(fs, root, parse)
  {
    var listing := ListDir(fs, root);
    if listing.Err? {
      return Err(listing.error);
    }
    var annotators := VisibleNames(SortStrings(listing.value));
    r := LoadAnnotators(fs, root, annotators, parse);
  }

  /** The annotators' folders in the given order, as a dictionary filled one
      annotator at a time; the first folder that fails aborts. */
  method LoadAnnotators(fs: FileSystem, root: string, annotators: seq<string>, parse: Parser)
    returns (r: Result<OrderedMap<OrderedMap<seq<Lesion>>>>)
    ensures Collect(annotators, AnnotatorEntries(fs, root, parse)).Err? ==>
      r == Err(Collect(annotators, AnnotatorEntries(fs, root, parse)).error)
    ensures Collect(annotators, AnnotatorEntries(fs, root, parse)).Ok? ==>
      r == Ok(FromPairs(Collect(annotators, AnnotatorEntries(fs, root, parse)).value))
  {
    ghost var perAnnotator := AnnotatorEntries(fs, root, parse);
    var annotations: OrderedMap<OrderedMap<seq<Lesion>>> := Empty();
    ghost var entries: seq<(string, OrderedMap<seq<Lesion>>)> := [];
    for i := 0 to |annotators|
      invariant Collect(annotators[..i], perAnnotator) == Ok(entries)
      invariant annotations == FromPairs(entries)
    {
      var annotator := annotators[i];
      var userAnnotations := LoadAnnotatorFolder(fs, JoinPath(root, annotator), parse);
      assert perAnnotator(annotator) == AnnotatorEntry(fs, root, annotator, parse);
      if userAnnotations.Err? {
        CollectStepError(annotators, perAnnotator, i);
        return Err(userAnnotations.error);
      }
      CollectStepOk(annotators, perAnnotator, i, entries);
      annotations := annotations.Put(annotator, userAnnotations.value);
      entries := entries + [(annotator, userAnnotations.value)];
    }
    assert annotators[..|annotators|] == annotators;
    return Ok(annotations);
  }

  /** No record of the table carries a scan id. */
  predicate Unstamped(table: seq<Lesion>) {
    forall i :: 0 <= i < |table| ==> table[i].scanId == None
  }

  /** The CSV entries a loaded folder was built from, in sorted name order. */
  lemma FolderScans(fs: FileSystem, dir: string, parse: Parser) returns (names: seq<string>, scans: seq<(string, seq<Lesion>)>)
    requires AnnotatorFolder(fs, dir, parse).Ok?
    ensures dir in fs.listings && names == SortStrings(fs.listings[dir])
    ensures forall n :: n in names <==> n in fs.listings[dir]
    ensures AnnotatorFolder(fs, dir, parse).value == FromPairs(scans)
    ensures |scans| == |names|
    ensures forall i :: 0 <= i < |names| ==> ScanEntry(fs, dir, names[i], parse) == Ok(scans[i])
  {
    names := SortStrings(fs.listings[dir]);
    scans := Collect(names, ScanEntries(fs, dir, parse)).value;
    SortStringsMembers(fs.listings[dir]);
  }

  /** A loaded folder is keyed by the stem of every CSV it lists, and by nothing
      else; every listed name has exactly one dot; and no record carries a scan id. */
  lemma AnnotatorFolderLoaded(fs: FileSystem, dir: string, parse: Parser)
    requires AnnotatorFolder(fs, dir, parse).Ok?
    ensures dir in fs.listings
    ensures forall n :: n in fs.listings[dir] ==> multiset(n)['.'] == 1
    ensures forall n :: n in fs.listings[dir] ==>
      ScanIdFromCsvName(n).Ok? && ScanIdFromCsvName(n).value in AnnotatorFolder(fs, dir, parse).value.entries
    ensures forall scanId :: scanId in AnnotatorFolder(fs, dir, parse).value.entries ==>
      exists n :: n in fs.listings[dir] && ScanIdFromCsvName(n) == Ok(scanId)
    ensures forall scanId :: scanId in AnnotatorFolder(fs, dir, parse).value.entries ==>
      Unstamped(AnnotatorFolder(fs, dir, parse).value.entries[scanId])
  {
    var names, scans := FolderScans(fs, dir, parse);
    FolderStems(fs, dir, parse, names, scans);
    FolderKeys(fs.listings[dir], names, scans);
    FolderNames(fs.listings[dir], names, scans);
    FromPairsValues(scans, Unstamped);
  }

  /** Each collected entry is keyed by the stem of its CSV name and holds
      unstamped records. */
  lemma FolderStems(fs: FileSystem, dir: string, parse: Parser, names: seq<string>, scans: seq<(string, seq<Lesion>)>)
    requires |scans| == |names|
    requires forall i :: 0 <= i < |names| ==> ScanEntry(fs, dir, names[i], parse) == Ok(scans[i])
    ensures forall i :: 0 <= i < |names| ==> ScanIdFromCsvName(names[i]) == Ok(Firsts(scans)[i])
    ensures forall i :: 0 <= i < |scans| ==> Unstamped(scans[i].1)
  {
    forall i | 0 <= i < |names|
      ensures ScanIdFromCsvName(names[i]) == Ok(Firsts(scans)[i]) && Unstamped(scans[i].1)
    {
      assert ScanEntry(fs, dir, names[i], parse) == Ok(scans[i]);
    }
  }

  /** `annotations[annotator][scan_id]` holds the records of the CSV named after
      the scan: a listed CSV that is the last in sorted order with its stem gives
      the records stored under that stem. */
  lemma FolderEntry(fs: FileSystem, dir: string, parse: Parser, n: string)
    requires AnnotatorFolder(fs, dir, parse).Ok?
    requires dir in fs.listings && n in fs.listings[dir]
    requires forall m :: m in fs.listings[dir] && ScanIdFromCsvName(m) == ScanIdFromCsvName(n) ==> LexLe(m, n)
    ensures ScanEntry(fs, dir, n, parse).Ok?
    ensures ScanEntry(fs, dir, n, parse).value.0 in AnnotatorFolder(fs, dir, parse).value.entries
    ensures AnnotatorFolder(fs, dir, parse).value.entries[ScanEntry(fs, dir, n, parse).value.0] ==
      ScanEntry(fs, dir, n, parse).value.1
  {
    var names, scans := FolderScans(fs, dir, parse);
    SortStringsCorrect(fs.listings[dir]);
    var i :| 0 <= i < |names| && names[i] == n;
    LaterStemsAgree(fs, dir, parse, names, scans, i);
    FromPairsLast(scans, i);
  }

  /** After the last name with a given stem no other name has that stem, so
      every later entry with the same key carries the same records. */
  lemma LaterStemsAgree(fs: FileSystem, dir: string, parse: Parser,
                        names: seq<string>, scans: seq<(string, seq<Lesion>)>, i: nat)
    requires Ordered(names) && |scans| == |names| && i < |names|
    requires forall j :: 0 <= j < |names| ==> ScanEntry(fs, dir, names[j], parse) == Ok(scans[j])
    requires forall m :: m in names && ScanIdFromCsvName(m) == ScanIdFromCsvName(names[i]) ==> LexLe(m, names[i])
    ensures forall j :: i < j < |scans| && scans[j].0 == scans[i].0 ==> scans[j].1 == scans[i].1
  {
    forall j | i < j < |scans| && scans[j].0 == scans[i].0
      ensures scans[j].1 == scans[i].1
    {
      assert ScanEntry(fs, dir, names[j], parse) == Ok(scans[j]);
      assert ScanEntry(fs, dir, names[i], parse) == Ok(scans[i]);
      assert names[j] in names;
      LexLeAntisymmetric(names[i], names[j]);
    }
  }

  /** A folder that fails raises the error of the first failing CSV in sorted order. */
  lemma FolderFirstError(fs: FileSystem, dir: string, parse: Parser) returns (k: nat)
    requires dir in fs.listings && AnnotatorFolder(fs, dir, parse).Err?
    ensures k < |SortStrings(fs.listings[dir])|
    ensures ScanEntry(fs, dir, SortStrings(fs.listings[dir])[k], parse) == Err(AnnotatorFolder(fs, dir, parse).error)
    ensures forall j :: 0 <= j < k ==> ScanEntry(fs, dir, SortStrings(fs.listings[dir])[j], parse).Ok?
  {
    var names := SortStrings(fs.listings[dir]);
    var f := ScanEntries(fs, dir, parse);
    assert Collect(names, f).Err? && AnnotatorFolder(fs, dir, parse).error == Collect(names, f).error;
    k := FirstFailure(names, f);
    assert ScanEntry(fs, dir, names[k], parse) == f(names[k]);
    forall j | 0 <= j < k ensures ScanEntry(fs, dir, names[j], parse).Ok? {
      assert f(names[j]).Ok?;
    }
  }

  /** Every listed name is a CSV name whose stem keys the folder. */
  lemma FolderKeys(listing: seq<string>, names: seq<string>, scans: seq<(string, seq<Lesion>)>)
    requires forall n :: n in names <==> n in listing
    requires |scans| == |names|
    requires forall i :: 0 <= i < |names| ==> ScanIdFromCsvName(names[i]) == Ok(Firsts(scans)[i])
    ensures forall n :: n in listing ==> ScanIdFromCsvName(n).Ok? && ScanIdFromCsvName(n).value in FromPairs(scans).entries
  {
    forall n | n in listing ensures ScanIdFromCsvName(n).Ok? && ScanIdFromCsvName(n).value in Firsts(scans) {
      var i :| 0 <= i < |names| && names[i] == n;
    }
  }

  /** Every key of the folder is the stem of a listed CSV name. */
  lemma FolderNames(listing: seq<string>, names: seq<string>, scans: seq<(string, seq<Lesion>)>)
    requires forall n :: n in names <==> n in listing
    requires |scans| == |names|
    requires forall i :: 0 <= i < |names| ==> ScanIdFromCsvName(names[i]) == Ok(Firsts(scans)[i])
    ensures forall k :: k in FromPairs(scans).entries ==> exists n :: n in listing && ScanIdFromCsvName(n) == Ok(k)
  {
    forall k | k in FromPairs(scans).entries ensures exists n :: n in listing && ScanIdFromCsvName(n) == Ok(k) {
      assert k in Firsts(scans);
      var i :| 0 <= i < |scans| && Firsts(scans)[i] == k;
      var n := names[i];
      assert n in names;
      assert n in listing && ScanIdFromCsvName(n) == Ok(k);
    }
  }

  /** The loaded dictionary lists the visible annotator folders in sorted order,
      each with its own folder's contents. */
  lemma AnnotatorsLoadedInOrder(fs: FileSystem, root: string, parse: Parser)
    requires MultipleAnnotations(fs, root, parse).Ok?
    requires Distinct(fs.listings[root])
    ensures MultipleAnnotations(fs, root, parse).value.keys == VisibleNames(SortStrings(fs.listings[root]))
    ensures var m := MultipleAnnotations(fs, root, parse).value;
      forall i :: 0 <= i < |m.keys| ==> AnnotatorFolder(fs, JoinPath(root, m.keys[i]), parse) == Ok(m.entries[m.keys[i]])
  {
    var annotators, entries := LoadedEntries(fs, root, parse);
    VisibleDistinct(fs.listings[root]);
    FromPairsKeyed(entries, annotators);
  }

  /** Loading fails with the error of the first failing visible annotator folder
      in sorted order. */
  lemma AnnotatorsFirstError(fs: FileSystem, root: string, parse: Parser) returns (annotators: seq<string>, k: nat)
    requires root in fs.listings && MultipleAnnotations(fs, root, parse).Err?
    ensures annotators == VisibleNames(SortStrings(fs.listings[root])) && k < |annotators|
    ensures AnnotatorFolder(fs, JoinPath(root, annotators[k]), parse) == Err(MultipleAnnotations(fs, root, parse).error)
    ensures forall j :: 0 <= j < k ==> AnnotatorFolder(fs, JoinPath(root, annotators[j]), parse).Ok?
  {
    annotators := VisibleNames(SortStrings(fs.listings[root]));
    var f := AnnotatorEntries(fs, root, parse);
    assert Collect(annotators, f).Err? && MultipleAnnotations(fs, root, parse).error == Collect(annotators, f).error;
    k := FirstFailure(annotators, f);
    assert f(annotators[k]) == AnnotatorEntry(fs, root, annotators[k], parse);
    forall j | 0 <= j < k ensures AnnotatorFolder(fs, JoinPath(root, annotators[j]), parse).Ok? {
      assert f(annotators[j]).Ok?;
    }
  }

  /** The annotator entries the loaded dictionary was built from. */
  lemma LoadedEntries(fs: FileSystem, root: string, parse: Parser)
    returns (annotators: seq<string>, entries: seq<(string, OrderedMap<seq<Lesion>>)>)
    requires MultipleAnnotations(fs, root, parse).Ok?
    ensures root in fs.listings && annotators == VisibleNames(SortStrings(fs.listings[root]))
    ensures MultipleAnnotations(fs, root, parse).value == FromPairs(entries)
    ensures |entries| == |annotators|
    ensures forall i :: 0 <= i < |entries| ==>
      entries[i].0 == annotators[i] && AnnotatorFolder(fs, JoinPath(root, annotators[i]), parse) == Ok(entries[i].1)
  {
    annotators := VisibleNames(SortStrings(fs.listings[root]));
    var f := AnnotatorEntries(fs, root, parse);
    entries := Collect(annotators, f).value;
    forall i | 0 <= i < |entries|
      ensures entries[i].0 == annotators[i] && AnnotatorFolder(fs, JoinPath(root, annotators[i]), parse) == Ok(entries[i].1)
    {
      assert f(annotators[i]).Ok?;
    }
  }
}

