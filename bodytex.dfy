/** The 3DBodyTex dataset: queries over the scan manifest, the paths of texture
    images and annotation CSVs, and the concatenated annotation tables
    (skin3d/bodytex.py). */
module BodyTex {
  import opened Wrappers
  import opened Batches
  import opened Strings
  import opened Sequences
  import opened Paths
  import opened Storage
  import opened Annotate

  /** One row of the manifest data-frame, restricted to the columns the dataset reads. */
  datatype ManifestRow = ManifestRow(scanId: string, scanName: string, partition: string, selected: bool)

  const DefaultDirAnnotate := "../data/3dbodytex-1.1-highres/annotations/"
  const DefaultDirMultiAnnotate := "../data/3dbodytex-1.1-highres/multiple_annotators/"
  const HighresImage := "model_highres_0_normalized.png"
  const LowresImage := "model_lowres_0_normalized.png"

  /** The texture image file name of a scan folder. */
  function ImageName(highres: bool): (name: string)
    ensures IsSegment(name)
  {
    if highres then HighresImage else LowresImage
  }

  /** The `scan_id` column of some manifest rows, in row order. */
  function ScanIdColumn(rows: seq<ManifestRow>): (ids: seq<string>)
    ensures |ids| == |rows|
    ensures forall i :: 0 <= i < |rows| ==> ids[i] == rows[i].scanId
  {
    seq(|rows|, i requires 0 <= i < |rows| => rows[i].scanId)
  }

  /** The row belongs to `partition` and was selected for the experiments. */
  function SelectedIn(partition: string): ManifestRow -> bool {
    (row: ManifestRow) => row.partition == partition && row.selected
  }

  /** The row carries `scanId`. */
  function WithScanId(scanId: string): ManifestRow -> bool {
    (row: ManifestRow) => row.scanId == scanId
  }

  /** The counts `summary` reports, without the floating-point averages. */
  datatype SummaryCounts = SummaryCounts(scans: nat, train: nat, valid: nat, test: nat, longitudinal: nat, lesions: nat)

  /** The dataset: the manifest and the three directories, all fixed at construction. */
  datatype BodyTexDataset = BodyTexDataset(
    df: seq<ManifestRow>,
    dirAnnotate: string,
    dirMultiAnnotate: string,
    dirTextures: Option<string>)
  {
    /** The selected rows of `partition`, in manifest order. */
    function AnnotatedSamplesInPartition(partition: string): (r: seq<ManifestRow>)
      ensures forall i :: 0 <= i < |r| ==> r[i].partition == partition && r[i].selected
      ensures forall row :: multiset(r)[row] == if row.partition == partition && row.selected then multiset(df)[row] else 0
      ensures IsSubsequence(r, df)
    {
      Filter(df, SelectedIn(partition))
    }

    /** The scan ids of the selected rows of `partition`, in manifest order. */
    function AnnotatedScanIds(partition: string): (ids: seq<string>)
      ensures |ids| == |AnnotatedSamplesInPartition(partition)|
      ensures forall i :: 0 <= i < |ids| ==> ids[i] == AnnotatedSamplesInPartition(partition)[i].scanId
    {
      ScanIdColumn(AnnotatedSamplesInPartition(partition))
    }

    /** The second projection of the same filter: the very same list. */
    function AnnotationIdsInPartition(partition: string): (ids: seq<string>)
      ensures ids == AnnotatedScanIds(partition)
    {
      var partitionIds := ScanIdColumn(AnnotatedSamplesInPartition(partition));
      partitionIds
    }

    /** No two manifest rows carry `scanId`. */
    predicate UniqueScanId(scanId: string) {
      forall i, j :: 0 <= i < |df| && 0 <= j < |df| && df[i].scanId == scanId && df[j].scanId == scanId ==> i == j
    }

    /** The rows whose scan id is `scanId`: none or one, or a `ValueError` when there are several. */
    function ScanRow(scanId: string): (r: Result<seq<ManifestRow>>)
      ensures r.Ok? <==> UniqueScanId(scanId)
      ensures r.Err? ==> r.error == ValueError(ScanIdNotUnique)
      ensures r.Ok? ==> |r.value| <= 1
      ensures r.Ok? ==> (r.value == [] <==> forall i :: 0 <= i < |df| ==> df[i].scanId != scanId)
      ensures r.Ok? ==> forall row :: row in r.value ==> row in df && row.scanId == scanId
    {
      var rows := Filter(df, WithScanId(scanId));
      RowsWithScanIdCount(this, scanId);
      RowsWithScanIdMembers(this, scanId);
      if |rows| > 1 then Err(ValueError(ScanIdNotUnique)) else Ok(rows)
    }

    /** The texture image of the scan: its folder joined with the image name,
        under `dirTextures` when that is set. */
    function TextureFilepath(scanId: string, highres: bool): (r: Result<string>)
      ensures ScanRow(scanId).Err? ==> r == Err(ScanRow(scanId).error)
      ensures ScanRow(scanId) == Ok([]) ==> r == Err(IndexError)
      ensures (forall i :: 0 <= i < |df| ==> df[i].scanId != scanId) ==> r == Err(IndexError)
      ensures ScanRow(scanId).Ok? && ScanRow(scanId).value != [] ==>
        r.Ok? && EndsWith(r.value, ImageName(highres)) &&
        (dirTextures.None? ==> StartsWith(r.value, ScanRow(scanId).value[0].scanName))
    {
      match ScanRow(scanId)
      case Err(e) => Err(e)
      case Ok(rows) =>
        var imageName := ImageName(highres);
        if |rows| == 0 then Err(IndexError)
        else
          assert !StartsWith(imageName, "/") by { assert imageName[0] != '/'; }
          var folderFilename := JoinPath(rows[0].scanName, imageName);
          if dirTextures.None? then Ok(folderFilename)
          else Ok(JoinPath(dirTextures.value, folderFilename))
    }

    /** The CSV of the scan: `<scanId>.csv` in `dirAnnotate`, or in the
        annotator's folder under `dirMultiAnnotate`. */
    function AnnotationFilepath(scanId: string, annotator: Option<string>): (path: string)
      ensures EndsWith(path, scanId + ".csv")
      ensures annotator.None? && !StartsWith(scanId, "/") ==> StartsWith(path, dirAnnotate)
    {
      var filepath := scanId + ".csv";
      assert StartsWith(scanId, "/") <==> StartsWith(filepath, "/") by {
        assert filepath[..1] == [filepath[0]];
        if |scanId| > 0 { assert scanId[..1] == [scanId[0]] && filepath[0] == scanId[0]; }
        else { assert filepath[0] == '.'; }
      }
      if annotator.None? then JoinPath(dirAnnotate, filepath)
      else JoinPath(JoinPath(dirMultiAnnotate, annotator.value), filepath)
    }

    /** The records of one scan's CSV, each stamped with `scanId`. */
    function Annotation(fs: FileSystem, scanId: string, annotator: Option<string>, parse: Parser): (r: Result<seq<Lesion>>)
      ensures AnnotationFilepath(scanId, annotator) !in fs.csvs ==> r == Err(FileNotFound(AnnotationFilepath(scanId, annotator)))
      ensures AnnotationFilepath(scanId, annotator) in fs.csvs ==>
        r == LesionProperties(fs.csvs[AnnotationFilepath(scanId, annotator)], Some(scanId), parse)
      ensures r.Ok? ==> AnnotationFilepath(scanId, annotator) in fs.csvs
      ensures r.Ok? ==> |r.value| == |fs.csvs[AnnotationFilepath(scanId, annotator)]|
      ensures r.Ok? ==> forall i :: 0 <= i < |r.value| ==> r.value[i].scanId == Some(scanId)
    {
      match ReadCsv(fs, AnnotationFilepath(scanId, annotator))
      case Err(e) => Err(e)
      case Ok(annotatedDf) => LesionProperties(annotatedDf, Some(scanId), parse)
    }

    /** The per-scan tables, in the order of `scanIds`; the first failure aborts. */
    function Tables(fs: FileSystem, scanIds: seq<string>, annotator: Option<string>, parse: Parser): Result<seq<seq<Lesion>>> {
      Collect(scanIds, (scanId: string) => Annotation(fs, scanId, annotator, parse))
    }

    /** All records of the given scans: their tables concatenated in order. An
        empty id list has nothing to concatenate. */
    function Annotations(fs: FileSystem, scanIds: seq<string>, annotator: Option<string>, parse: Parser): (r: Result<seq<Lesion>>)
      ensures r.Ok? <==> scanIds != [] && forall i :: 0 <= i < |scanIds| ==> Annotation(fs, scanIds[i], annotator, parse).Ok?
      ensures scanIds == [] ==> r == Err(ValueError(NothingToConcatenate))
      ensures r.Err? && scanIds != [] ==>
        exists k :: 0 <= k < |scanIds| && Annotation(fs, scanIds[k], annotator, parse) == Err(r.error) &&
          forall j :: 0 <= j < k ==> Annotation(fs, scanIds[j], annotator, parse).Ok?
    {
      match Tables(fs, scanIds, annotator, parse)
      case Err(e) => Err(e)
      case Ok(allAnnDfs) =>
        if allAnnDfs == [] then Err(ValueError(NothingToConcatenate)) else Ok(Flatten(allAnnDfs))
    }

    /** The loop of `annotations`: one table per scan id, then one concatenation. */
    method CollectAnnotations(fs: FileSystem, scanIds: seq<string>, annotator: Option<string>, parse: Parser)
      returns (r: Result<seq<Lesion>>)
      ensures r == Annotations(fs, scanIds, annotator, parse)
    {
      ghost var perScan := (scanId: string) => Annotation(fs, scanId, annotator, parse);
      var allAnnDfs: seq<seq<Lesion>> := [];
      for i := 0 to |scanIds|
        invariant Collect(scanIds[..i], perScan) == Ok(allAnnDfs)
      {
        var ann := Annotation(fs, scanIds[i], annotator, parse);
        if ann.Err? {
          CollectStepError(scanIds, perScan, i);
          return Err(ann.error);
        }
        CollectStepOk(scanIds, perScan, i, allAnnDfs);
        allAnnDfs := allAnnDfs + [ann.value];
      }
      assert scanIds[..|scanIds|] == scanIds;
      if allAnnDfs == [] {
        return Err(ValueError(NothingToConcatenate));
      }
      return Ok(Flatten(allAnnDfs));
    }

    /** The concatenation of the four partitions' id lists, repetitions kept. */
    function AllAnnotatedScanIds(): (ids: seq<string>)
      ensures |ids| == |AnnotatedScanIds("train")| + |AnnotatedScanIds("valid")| +
        |AnnotatedScanIds("test")| + |AnnotatedScanIds("long")|
    {
      AnnotatedScanIds("train") + AnnotatedScanIds("valid") + AnnotatedScanIds("test") + AnnotatedScanIds("long")
    }

    /** The counts `summary` prints: the four partitions' id lists, their plain
        concatenation, and the records of the single annotations of every scan
        together with the three annotators' annotations of the test scans. */
    function SummaryOf(fs: FileSystem, parse: Parser): (r: Result<SummaryCounts>)
      ensures r.Ok? ==> r.value.scans == r.value.train + r.value.valid + r.value.test + r.value.longitudinal
      ensures r.Ok? ==>
        r.value.train == |AnnotatedScanIds("train")| && r.value.valid == |AnnotatedScanIds("valid")| &&
        r.value.test == |AnnotatedScanIds("test")| && r.value.longitudinal == |AnnotatedScanIds("long")|
      ensures r.Ok? ==>
        Annotations(fs, AllAnnotatedScanIds(), None, parse).Ok? &&
        Annotations(fs, AnnotatedScanIds("test"), Some("A1"), parse).Ok? &&
        Annotations(fs, AnnotatedScanIds("test"), Some("A2"), parse).Ok? &&
        Annotations(fs, AnnotatedScanIds("test"), Some("A3"), parse).Ok?
      ensures r.Ok? ==>
        r.value.lesions == |Annotations(fs, AllAnnotatedScanIds(), None, parse).value| +
          |Annotations(fs, AnnotatedScanIds("test"), Some("A1"), parse).value| +
          |Annotations(fs, AnnotatedScanIds("test"), Some("A2"), parse).value| +
          |Annotations(fs, AnnotatedScanIds("test"), Some("A3"), parse).value| &&
        r.value.lesions > 0
      ensures r.Err? ==>
        Annotations(fs, AllAnnotatedScanIds(), None, parse).Err? ||
        Annotations(fs, AnnotatedScanIds("test"), Some("A1"), parse).Err? ||
        Annotations(fs, AnnotatedScanIds("test"), Some("A2"), parse).Err? ||
        Annotations(fs, AnnotatedScanIds("test"), Some("A3"), parse).Err? ||
        r.error == AttributeError("width")
      ensures AnnotatedScanIds("test") == [] ==> r.Err?
      ensures
        (Annotations(fs, AllAnnotatedScanIds(), None, parse).Ok? &&
         Annotations(fs, AnnotatedScanIds("test"), Some("A1"), parse).Ok? &&
         Annotations(fs, AnnotatedScanIds("test"), Some("A2"), parse).Ok? &&
         Annotations(fs, AnnotatedScanIds("test"), Some("A3"), parse).Ok?) ==>
        (r.Ok? <==>
          |Annotations(fs, AllAnnotatedScanIds(), None, parse).value| +
          |Annotations(fs, AnnotatedScanIds("test"), Some("A1"), parse).value| +
          |Annotations(fs, AnnotatedScanIds("test"), Some("A2"), parse).value| +
          |Annotations(fs, AnnotatedScanIds("test"), Some("A3"), parse).value| > 0)
    {
      var testIds := AnnotatedScanIds("test");
      var single := Annotations(fs, AllAnnotatedScanIds(), None, parse);
      var a1 := Annotations(fs, testIds, Some("A1"), parse);
      var a2 := Annotations(fs, testIds, Some("A2"), parse);
      var a3 := Annotations(fs, testIds, Some("A3"), parse);
      if single.Err? then Err(single.error)
      else if a1.Err? then Err(a1.error)
      else if a2.Err? then Err(a2.error)
      else if a3.Err? then Err(a3.error)
      else
        var annotations := single.value + a1.value + a2.value + a3.value;
        if annotations == [] then Err(AttributeError("width"))
        else Ok(SummaryCounts(|AllAnnotatedScanIds()|, |AnnotatedScanIds("train")|, |AnnotatedScanIds("valid")|,
          |testIds|, |AnnotatedScanIds("long")|, |annotations|))
    }

    /** `summary`: the id lists are built one after the other, then the four
        concatenations are loaded in turn; the first failure aborts. */
    method Summary(fs: FileSystem, parse: Parser) returns (r: Result<SummaryCounts>)
      ensures r == SummaryOf(fs, parse)
    {
      var trainIds := AnnotatedScanIds("train");
      var validIds := AnnotatedScanIds("valid");
      var testIds := AnnotatedScanIds("test");
      var longIds := AnnotatedScanIds("long");
      var scanIds := trainIds + validIds + testIds + longIds;
      var annotationsSingle := CollectAnnotations(fs, scanIds, None, parse);
      if annotationsSingle.Err? {
        return Err(annotationsSingle.error);
      }
      var a1 := CollectAnnotations(fs, testIds, Some("A1"), parse);
      if a1.Err? {
        return Err(a1.error);
      }
      var a2 := CollectAnnotations(fs, testIds, Some("A2"), parse);
      if a2.Err? {
        return Err(a2.error);
      }
      var a3 := CollectAnnotations(fs, testIds, Some("A3"), parse);
      if a3.Err? {
        return Err(a3.error);
      }
      var annotations := annotationsSingle.value + a1.value + a2.value + a3.value;
      if annotations == [] {
        return Err(AttributeError("width"));
      }
      return Ok(SummaryCounts(|scanIds|, |trainIds|, |validIds|, |testIds|, |longIds|, |annotations|));
    }
  }

  /** At most one row carries an id exactly when the id is unique. */
  lemma RowsWithScanIdCount(d: BodyTexDataset, scanId: string)
    ensures |Filter(d.df, WithScanId(scanId))| <= 1 <==> d.UniqueScanId(scanId)
  {
    var keep := WithScanId(scanId);
    if d.UniqueScanId(scanId) {
      FilterAtMostOne(d.df, keep);
    } else {
      var i, j :| 0 <= i < |d.df| && 0 <= j < |d.df| && d.df[i].scanId == scanId && d.df[j].scanId == scanId && i != j;
      if i < j { FilterTwo(d.df, keep, i, j); } else { FilterTwo(d.df, keep, j, i); }
    }
  }

  /** The rows found are manifest rows carrying the id, and there are none
      exactly when no row carries it. */
  lemma RowsWithScanIdMembers(d: BodyTexDataset, scanId: string)
    ensures Filter(d.df, WithScanId(scanId)) == [] <==> forall i :: 0 <= i < |d.df| ==> d.df[i].scanId != scanId
    ensures forall row :: row in Filter(d.df, WithScanId(scanId)) ==> row in d.df && row.scanId == scanId
  {
    var rows := Filter(d.df, WithScanId(scanId));
    FilterEmpty(d.df, WithScanId(scanId));
    forall row | row in rows ensures row in d.df && row.scanId == scanId {
      assert multiset(rows)[row] > 0;
    }
  }

  /** A scan id is listed for a partition exactly when some selected row of
      that partition carries it. */
  lemma AnnotatedScanIdsExactly(d: BodyTexDataset, partition: string)
    ensures forall id :: id in d.AnnotatedScanIds(partition) <==>
      exists i :: 0 <= i < |d.df| && d.df[i].scanId == id && d.df[i].partition == partition && d.df[i].selected
  {
    var rows := d.AnnotatedSamplesInPartition(partition);
    var ids := d.AnnotatedScanIds(partition);
    forall id | id in ids
      ensures exists i :: 0 <= i < |d.df| && d.df[i].scanId == id && d.df[i].partition == partition && d.df[i].selected
    {
      var j :| 0 <= j < |ids| && ids[j] == id;
      assert multiset(rows)[rows[j]] > 0;
      assert rows[j] in d.df;
      var i :| 0 <= i < |d.df| && d.df[i] == rows[j];
    }
    forall i | 0 <= i < |d.df| && d.df[i].partition == partition && d.df[i].selected
      ensures d.df[i].scanId in ids
    {
      assert multiset(rows)[d.df[i]] > 0;
      var j :| 0 <= j < |rows| && rows[j] == d.df[i];
      assert ids[j] == d.df[i].scanId;
    }
  }

  /** The row was selected and belongs to one of the four partitions `summary` reads. */
  predicate InStudy(row: ManifestRow) {
    row.selected && (row.partition == "train" || row.partition == "valid" || row.partition == "test" || row.partition == "long")
  }

  /** `summary` raises the error of the first of its four loads that fails:
      the single annotations, then A1, A2 and A3 on the test scans. */
  lemma SummaryFirstError(d: BodyTexDataset, fs: FileSystem, parse: Parser)
    ensures d.Annotations(fs, d.AllAnnotatedScanIds(), None, parse).Err? ==>
      d.SummaryOf(fs, parse) == Err(d.Annotations(fs, d.AllAnnotatedScanIds(), None, parse).error)
    ensures (d.Annotations(fs, d.AllAnnotatedScanIds(), None, parse).Ok? &&
       d.Annotations(fs, d.AnnotatedScanIds("test"), Some("A1"), parse).Err?) ==>
      d.SummaryOf(fs, parse) == Err(d.Annotations(fs, d.AnnotatedScanIds("test"), Some("A1"), parse).error)
    ensures (d.Annotations(fs, d.AllAnnotatedScanIds(), None, parse).Ok? &&
       d.Annotations(fs, d.AnnotatedScanIds("test"), Some("A1"), parse).Ok? &&
       d.Annotations(fs, d.AnnotatedScanIds("test"), Some("A2"), parse).Err?) ==>
      d.SummaryOf(fs, parse) == Err(d.Annotations(fs, d.AnnotatedScanIds("test"), Some("A2"), parse).error)
    ensures (d.Annotations(fs, d.AllAnnotatedScanIds(), None, parse).Ok? &&
       d.Annotations(fs, d.AnnotatedScanIds("test"), Some("A1"), parse).Ok? &&
       d.Annotations(fs, d.AnnotatedScanIds("test"), Some("A2"), parse).Ok? &&
       d.Annotations(fs, d.AnnotatedScanIds("test"), Some("A3"), parse).Err?) ==>
      d.SummaryOf(fs, parse) == Err(d.Annotations(fs, d.AnnotatedScanIds("test"), Some("A3"), parse).error)
  {
  }

  /** The number of scans `summary` reports is the number of selected rows in
      the four partitions: the concatenation neither drops nor merges ids. */
  lemma ScanCountIsSelectedRows(d: BodyTexDataset)
    ensures |d.AllAnnotatedScanIds()| == |Filter(d.df, InStudy)|
  {
    StudyCount(d.df);
  }

  lemma {:induction false} StudyCount(rows: seq<ManifestRow>)
    ensures |Filter(rows, InStudy)| ==
      |Filter(rows, SelectedIn("train"))| + |Filter(rows, SelectedIn("valid"))| +
      |Filter(rows, SelectedIn("test"))| + |Filter(rows, SelectedIn("long"))|
    decreases |rows|
  {
    if rows != [] {
      StudyCount(rows[1..]);
      PartitionNamesDistinct();
      FilterLengthCons(rows, InStudy);
      FilterLengthCons(rows, SelectedIn("train"));
      FilterLengthCons(rows, SelectedIn("valid"));
      FilterLengthCons(rows, SelectedIn("test"));
      FilterLengthCons(rows, SelectedIn("long"));
    }
  }

  /** The ids `summary` counts are the scan ids of the selected rows of the four
      partitions, each as often as it has such rows: the concatenation neither
      drops, adds nor merges ids. */
  lemma ScanIdsAreStudyRows(d: BodyTexDataset)
    ensures multiset(d.AllAnnotatedScanIds()) == multiset(ScanIdColumn(Filter(d.df, InStudy)))
  {
    StudyIds(d.df);
  }

  lemma {:induction false} StudyIds(rows: seq<ManifestRow>)
    ensures multiset(ScanIdColumn(Filter(rows, InStudy))) ==
      multiset(ScanIdColumn(Filter(rows, SelectedIn("train")))) + multiset(ScanIdColumn(Filter(rows, SelectedIn("valid")))) +
      multiset(ScanIdColumn(Filter(rows, SelectedIn("test")))) + multiset(ScanIdColumn(Filter(rows, SelectedIn("long"))))
    decreases |rows|
  {
    if rows != [] {
      StudyIds(rows[1..]);
      PartitionNamesDistinct();
      ColumnCons(rows, InStudy);
      ColumnCons(rows, SelectedIn("train"));
      ColumnCons(rows, SelectedIn("valid"));
      ColumnCons(rows, SelectedIn("test"));
      ColumnCons(rows, SelectedIn("long"));
    }
  }

  /** The id column of a filter takes the first row's id or not, then the rest's. */
  lemma ColumnCons(rows: seq<ManifestRow>, keep: ManifestRow -> bool)
    requires rows != []
    ensures keep(rows[0]) ==>
      multiset(ScanIdColumn(Filter(rows, keep))) == multiset(ScanIdColumn(Filter(rows[1..], keep))) + multiset{rows[0].scanId}
    ensures !keep(rows[0]) ==> multiset(ScanIdColumn(Filter(rows, keep))) == multiset(ScanIdColumn(Filter(rows[1..], keep)))
  {
    var rest := Filter(rows[1..], keep);
    if keep(rows[0]) {
      assert Filter(rows, keep) == [rows[0]] + rest;
      ColumnPrepend(rows[0], rest);
    }
  }

  lemma ColumnPrepend(row: ManifestRow, rows: seq<ManifestRow>)
    ensures ScanIdColumn([row] + rows) == [row.scanId] + ScanIdColumn(rows)
  {
  }

  lemma PartitionNamesDistinct()
    ensures "train" != "valid" && "train" != "test" && "train" != "long"
    ensures "valid" != "test" && "valid" != "long" && "test" != "long"
  {
    assert "train"[0] != "valid"[0] && "train"[1] != "test"[1] && "train"[0] != "long"[0];
    assert "valid"[0] != "test"[0] && "valid"[0] != "long"[0] && "test"[0] != "long"[0];
  }

  /** The texture path of a scan with a single row is built from that row's folder. */
  lemma TextureFilepathOfRow(d: BodyTexDataset, scanId: string, highres: bool, i: nat)
    requires i < |d.df| && d.df[i].scanId == scanId && d.UniqueScanId(scanId)
    ensures d.dirTextures.None? ==>
      d.TextureFilepath(scanId, highres) == Ok(JoinPath(d.df[i].scanName, ImageName(highres)))
    ensures d.dirTextures.Some? ==>
      d.TextureFilepath(scanId, highres) == Ok(JoinPath(d.dirTextures.value, JoinPath(d.df[i].scanName, ImageName(highres))))
  {
    var rows := d.ScanRow(scanId).value;
    assert rows != [];
    assert rows[0] in d.df;
    var k :| 0 <= k < |d.df| && d.df[k] == rows[0];
  }

  /** For a scan with a single row and a plain folder name, the texture path is
      `<scan_name>/<image>`, under `dirTextures` when that is set. */
  lemma TextureFilepathLayout(d: BodyTexDataset, scanId: string, highres: bool, i: nat)
    requires i < |d.df| && d.df[i].scanId == scanId && d.UniqueScanId(scanId)
    requires IsSegment(d.df[i].scanName)
    ensures d.dirTextures.None? ==>
      d.TextureFilepath(scanId, highres) == Ok(d.df[i].scanName + "/" + ImageName(highres))
    ensures d.dirTextures.Some? && IsDirPrefix(d.dirTextures.value) ==>
      d.TextureFilepath(scanId, highres) == Ok(d.dirTextures.value + d.df[i].scanName + "/" + ImageName(highres))
    ensures d.dirTextures.Some? && IsBareDir(d.dirTextures.value) ==>
      d.TextureFilepath(scanId, highres) == Ok(d.dirTextures.value + "/" + d.df[i].scanName + "/" + ImageName(highres))
  {
    TextureFilepathOfRow(d, scanId, highres, i);
    JoinSegments(d.df[i].scanName, ImageName(highres));
    if d.dirTextures.Some? {
      JoinUnderNested(d.dirTextures.value, d.df[i].scanName, ImageName(highres));
    }
  }

  /** A plain scan id gives a plain CSV file name. */
  lemma CsvFileName(scanId: string)
    requires IsSegment(scanId)
    ensures IsSegment(scanId + ".csv")
  {
    var file := scanId + ".csv";
    assert forall c :: c in file ==> c in scanId || c in ".csv";
  }

  /** With a plain scan id and no annotator the path is `dir_annotate/<scan_id>.csv`,
      whether or not the directory is spelled with its trailing separator. */
  lemma SingleAnnotationFilepath(d: BodyTexDataset, scanId: string)
    requires IsSegment(scanId)
    ensures IsDirPrefix(d.dirAnnotate) ==> d.AnnotationFilepath(scanId, None) == d.dirAnnotate + scanId + ".csv"
    ensures IsBareDir(d.dirAnnotate) ==> d.AnnotationFilepath(scanId, None) == d.dirAnnotate + "/" + scanId + ".csv"
  {
    CsvFileName(scanId);
    if IsDirPrefix(d.dirAnnotate) { JoinUnderDir(d.dirAnnotate, scanId + ".csv"); }
    if IsBareDir(d.dirAnnotate) { JoinUnderBareDir(d.dirAnnotate, scanId + ".csv"); }
  }

  /** With plain names the path of an annotator's CSV is
      `dir_multi_annotate/<annotator>/<scan_id>.csv`. */
  lemma MultiAnnotationFilepath(d: BodyTexDataset, scanId: string, annotator: string)
    requires IsSegment(scanId) && IsSegment(annotator)
    ensures IsDirPrefix(d.dirMultiAnnotate) ==>
      d.AnnotationFilepath(scanId, Some(annotator)) == d.dirMultiAnnotate + annotator + "/" + scanId + ".csv"
    ensures IsBareDir(d.dirMultiAnnotate) ==>
      d.AnnotationFilepath(scanId, Some(annotator)) == d.dirMultiAnnotate + "/" + annotator + "/" + scanId + ".csv"
  {
    CsvFileName(scanId);
    JoinThenJoin(d.dirMultiAnnotate, annotator, scanId + ".csv");
  }

  /** The default directories end in a separator, so a plain scan id lands
      directly inside them. */
  lemma DefaultAnnotationFilepath(df: seq<ManifestRow>, scanId: string)
    requires IsSegment(scanId)
    ensures BodyTexDataset(df, DefaultDirAnnotate, DefaultDirMultiAnnotate, None).AnnotationFilepath(scanId, None) ==
      DefaultDirAnnotate + scanId + ".csv"
    ensures BodyTexDataset(df, DefaultDirAnnotate, DefaultDirMultiAnnotate, None).AnnotationFilepath(scanId, Some("A1")) ==
      DefaultDirMultiAnnotate + "A1/" + scanId + ".csv"
  {
    var d := BodyTexDataset(df, DefaultDirAnnotate, DefaultDirMultiAnnotate, None);
    DefaultNames();
    SingleAnnotationFilepath(d, scanId);
    MultiAnnotationFilepath(d, scanId, "A1");
    assert DefaultDirMultiAnnotate + "A1" + "/" + scanId + ".csv" == DefaultDirMultiAnnotate + "A1/" + scanId + ".csv";
  }

  lemma DefaultNames()
    ensures IsDirPrefix(DefaultDirAnnotate) && IsDirPrefix(DefaultDirMultiAnnotate) && IsSegment("A1")
  {
    assert DefaultDirAnnotate[|DefaultDirAnnotate| - 1] == '/';
    assert DefaultDirMultiAnnotate[|DefaultDirMultiAnnotate| - 1] == '/';
    assert "A1"[0] != '/' && "A1"[1] != '/';
  }

  /** `annotations` is the concatenation, in the order of `scanIds`, of one
      table per scan id, so its length is the sum of the tables' lengths. */
  lemma AnnotationsConcatenateInOrder(d: BodyTexDataset, fs: FileSystem, scanIds: seq<string>, annotator: Option<string>, parse: Parser)
    returns (tables: seq<seq<Lesion>>)
    requires d.Annotations(fs, scanIds, annotator, parse).Ok?
    ensures |tables| == |scanIds|
    ensures forall i :: 0 <= i < |scanIds| ==> d.Annotation(fs, scanIds[i], annotator, parse) == Ok(tables[i])
    ensures d.Annotations(fs, scanIds, annotator, parse).value == Flatten(tables)
    ensures |d.Annotations(fs, scanIds, annotator, parse).value| == TotalLength(tables)
  {
    tables := d.Tables(fs, scanIds, annotator, parse).value;
  }

  /** Every record of `annotations` carries the id of one of the requested scans. */
  lemma AnnotationsStamped(d: BodyTexDataset, fs: FileSystem, scanIds: seq<string>, annotator: Option<string>, parse: Parser)
    requires d.Annotations(fs, scanIds, annotator, parse).Ok?
    ensures forall x :: x in d.Annotations(fs, scanIds, annotator, parse).value ==>
      x.scanId.Some? && x.scanId.value in scanIds
  {
    var tables := AnnotationsConcatenateInOrder(d, fs, scanIds, annotator, parse);
    forall x: Lesion | x in Flatten(tables) ensures x.scanId.Some? && x.scanId.value in scanIds {
      FlattenMember(tables, x);
      var i :| 0 <= i < |tables| && x in tables[i];
      var k :| 0 <= k < |tables[i]| && tables[i][k] == x;
      assert d.Annotation(fs, scanIds[i], annotator, parse) == Ok(tables[i]);
    }
  }
}
