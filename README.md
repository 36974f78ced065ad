# skin3d: lesion annotations of the 3DBodyTex scans, modelled in Dafny

skin3d turns the bounding-box annotations of skin lesions on 3DBodyTex texture
images into lesion records, loads the annotations of several annotators, answers
queries over the dataset manifest, and paints the box frames into images. This
project models that core and proves what it promises:

- `Annotate` (skin3d/annotate.py) builds one lesion record per annotated region.
  Before the attributes are decoded it quotes every occurrence of `undefined`,
  whether bare, already quoted or inside a longer word. It
  extracts `lesion_id` and `annotator` with their sentinels. It loads the folders
  of several annotators under the same naming rules as the source: sorted
  listings, hidden annotator folders dropped, CSV names split at their only dot.
- `BodyTex` (skin3d/bodytex.py) models the dataset as a value holding the
  manifest rows and the three directories, since the source never changes them
  after construction. It covers the partition filter, the scan-id projections,
  `scan_row` with its uniqueness check, texture and annotation paths, the ordered
  concatenation of per-scan tables, and the counts of `summary`.
- `Visualize` (skin3d/visualize.py) paints frames in place into an H×W×C
  `array3<int>`, one pad-thick band at a time. Its contracts fix every pixel
  afterwards: the frame pixels hold the colour, all others keep their old value.
- Supporting modules model the Python and library behaviour the core relies on:
  - `Wrappers`: the raised exceptions, as `Result` errors.
  - `Batches`: a loop that stops at the first exception.
  - `Strings`: `str.replace`, `str.split` and `str.strip`.
  - `Decimal`: `int()` on text.
  - `Sorting`: `sorted` on strings, by code point.
  - `Sequences`: row filters and `pd.concat`.
  - `Paths`: POSIX `os.path.join`, including the absolute-component and
    trailing-separator rules.
  - `OrderedMaps`: dictionaries in insertion order.
  - `Storage`: directory listings and CSV tables, given as values.

Python exceptions are `Err` values. The first exception of a loop aborts the
whole call, as it does in the source. `json.loads` is a parameter
`parse: string -> Option<map<string, Json>>`, where `None` stands for a
`JSONDecodeError`.

`summary` concatenates four tables: the single annotations of all scans and
the A1, A2 and A3 annotations of the test scans.

## Model

The functions `Annotate.RepairUndefined` (skin3d/annotate.py:25-27),
`Annotate.PyInt` (skin3d/annotate.py:35) and `Annotate.VisibleNames`
(skin3d/annotate.py:68) have no contract of their own. The rows for
`RepairLength` through `RepairQuotesEveryOccurrence`, for `LesionIdOf`,
`LesionIdTextRoundTrip` and `BlankIsNotInt`, and for `VisibleSortedNames`
specify them.

| member | source | states |
|---|---|---|
| Annotate.RepairLength | skin3d/annotate.py:25-27 | the repaired text is longer by exactly two quotes per occurrence of `undefined`, counted as `str.count` does: bare, already quoted or inside a longer word |
| Annotate.RepairUnchangedIff | skin3d/annotate.py:25-27 | the repair leaves the text unchanged if and only if it holds no `undefined` |
| Annotate.RepairIsReplace | skin3d/annotate.py:25-27 | the `in` guard only skips work: the repair is the replacement of every occurrence |
| Annotate.RepairRoundTrip | skin3d/annotate.py:25-27 | turning every quoted `"undefined"` back into the unquoted word gives the original text, so the repair loses nothing |
| Annotate.RepairQuotesEveryOccurrence | skin3d/annotate.py:25-27 | the repair ignores context: an already quoted `"undefined"` becomes `""undefined""`, and `undefinedX` becomes `"undefined"X` |
| Annotate.LesionIdOf | skin3d/annotate.py:32-35 | the sentinel is returned if and only if the key is missing or its value is `""`; otherwise the result is `int` of the stored value, and its failure is the record's failure |
| Annotate.EmptyLesionIdIsAbsent | skin3d/annotate.py:32-35 | an empty `lesion_id` gives the sentinel, never the number 0 |
| Annotate.LesionIdTextRoundTrip | skin3d/annotate.py:35 | a lesion number stored as its decimal text reads back as that number |
| Decimal.BlankIsNotInt | skin3d/annotate.py:35 | `int` of an empty or blank text fails; it never yields a default 0 |
| Annotate.AnnotatorOf | skin3d/annotate.py:37-39 | `annotator` is `""` if and only if the key is missing or stores `""`; a present key yields its stored value as given |
| Annotate.LesionRecord | skin3d/annotate.py:17-49 | a missing rectangle key raises `KeyError` for the first one in reading order; undecodable attributes raise; on success x, y, width and height are copied, `x2 = x + width`, `y2 = y + height`, and the scan id, lesion id and annotator are as extracted |
| Annotate.LesionProperties | skin3d/annotate.py:8-52 | succeeds if and only if every region gives a record; then there is exactly one record per region, in input order, each carrying the `scan_id` argument; otherwise the error is that of the first failing region |
| Annotate.LesionPropertiesFromAnnotations | skin3d/annotate.py:14-52 | the appending loop computes `LesionProperties` |
| Annotate.ScanIdFromCsvName | skin3d/annotate.py:79 | succeeds if and only if the name has exactly one dot; the scan id is the dot-free part before it; with any other count of dots the unpacking fails, reporting the number of pieces |
| Annotate.CsvNameRoundTrip | skin3d/annotate.py:79 | the CSV named `<scan_id>.csv` gives back `scan_id` for any dot-free id |
| Sorting.SortStringsCorrect | skin3d/annotate.py:67 | `sorted` returns the names in code-point order, each as often as listed |
| Sorting.SortedListingIndependent | skin3d/annotate.py:73 | the processing order does not depend on the order `os.listdir` returns |
| Annotate.VisibleSortedNames | skin3d/annotate.py:67-68 | annotator folders are visited in sorted order; exactly the names not starting with `.` are kept; a listing without repetitions stays without them |
| Annotate.ScanEntry | skin3d/annotate.py:75-80 | a CSV loads if and only if its file exists, all its rows become records and its name has exactly one dot; then it gives the records, with no scan id stamped, under the stem of its name; otherwise the missing file, the record error or the unpack error, in that order |
| Annotate.AnnotatorFolder | skin3d/annotate.py:72-80 | a missing folder raises; the folder loads if and only if every listed CSV loads, and a failure is the error of one listed CSV; the result is a well-formed dictionary |
| Annotate.AnnotatorEntry | skin3d/annotate.py:71-82 | an entry exists exactly when the annotator's folder loads; it is keyed by the annotator's own name and holds that folder, and a failure is the folder's error |
| Annotate.MultipleAnnotations | skin3d/annotate.py:55-84 | a missing root raises; loading succeeds if and only if every visible annotator folder loads, and a failure is the error of one visible folder; the result is a well-formed dictionary of well-formed dictionaries |
| Annotate.LoadAnnotatorFolder | skin3d/annotate.py:72-82 | the inner loop computes `AnnotatorFolder`, including its first error |
| Annotate.LoadMultipleAnnotations | skin3d/annotate.py:67-84 | the outer loop computes `MultipleAnnotations`, including its first error |
| Annotate.LoadAnnotators | skin3d/annotate.py:70-84 | filling the dictionary one annotator at a time gives the dictionary of the collected folders, or the first folder's error |
| Annotate.AnnotatorFolderLoaded | skin3d/annotate.py:73-80 | a loaded folder has every listed CSV name with exactly one dot (hidden files are not filtered); its keys are exactly the stems of the listed names; no record carries a scan id |
| Annotate.LoadScans | skin3d/annotate.py:74-80 | the loop over the sorted CSV names gives the dictionary built from the collected (stem, records) pairs, later pairs overwriting earlier ones, or the first failing name's error |
| Annotate.LoadScan | skin3d/annotate.py:76-79 | reading, converting and splitting one CSV name gives exactly `ScanEntry`, errors included |
| Annotate.FolderEntry | skin3d/annotate.py:73-80 | for a loaded folder and a listed name that sorts last among the names with its stem, the folder stores that name's records under its stem (the last write wins) |
| OrderedMaps.FromPairsLast | skin3d/annotate.py:80 | a key maps to the value of its last pair, when later pairs with that key agree |
| Annotate.FolderFirstError | skin3d/annotate.py:73-80 | a failed folder fails with the error of the first sorted CSV name that fails; every earlier name loads |
| Annotate.AnnotatorsFirstError | skin3d/annotate.py:67-82 | failed multiple annotations fail with the error of the first visible annotator folder, in sorted order, that fails; every earlier folder loads |
| Annotate.AnnotatorsLoadedInOrder | skin3d/annotate.py:67-82 | the keys are the visible annotator folders in sorted order, and each maps to that folder's loaded contents |
| BodyTex.BodyTexDataset.AnnotatedSamplesInPartition | skin3d/bodytex.py:153-169 | every returned row has the partition and is selected, every such row of the manifest is returned as often as it occurs, and manifest order is kept |
| BodyTex.BodyTexDataset.AnnotatedScanIds | skin3d/bodytex.py:36-39 | one scan id per filtered row, in the same order |
| BodyTex.AnnotatedScanIdsExactly | skin3d/bodytex.py:36-39 | an id is listed for a partition if and only if a selected row of that partition carries it |
| BodyTex.BodyTexDataset.AnnotationIdsInPartition | skin3d/bodytex.py:147-151 | returns the very same list as `AnnotatedScanIds` |
| BodyTex.BodyTexDataset.ScanRow | skin3d/bodytex.py:41-53 | raises `ValueError` if and only if two rows carry the id; otherwise returns at most one row, none exactly when no row carries the id, and any row it returns is a manifest row with that id |
| BodyTex.BodyTexDataset.TextureFilepath | skin3d/bodytex.py:55-84 | a non-unique id raises `ValueError`; an id without a row raises `IndexError`; otherwise the path ends in the high- or low-resolution image name and, without `dir_textures`, starts with the scan's folder |
| BodyTex.TextureFilepathOfRow | skin3d/bodytex.py:71-84 | for a scan with one row, the path joins that row's `scan_name` with the image name, under `dir_textures` only when set |
| BodyTex.TextureFilepathLayout | skin3d/bodytex.py:73-84 | with plain names the path is `<scan_name>/<image>`, or that path under `dir_textures` with exactly one separator, whether or not `dir_textures` ends in one |
| BodyTex.BodyTexDataset.AnnotationFilepath | skin3d/bodytex.py:86-101 | the path ends in `<scan_id>.csv` and, for no annotator and a relative id, starts with `dir_annotate` |
| BodyTex.SingleAnnotationFilepath | skin3d/bodytex.py:93-96 | with a plain scan id and no annotator the path is `dir_annotate/<scan_id>.csv`, with exactly one separator, whether or not the directory already ends in one |
| BodyTex.MultiAnnotationFilepath | skin3d/bodytex.py:97-99 | with a plain scan id and annotator the path is `dir_multi_annotate/<annotator>/<scan_id>.csv`, with exactly one separator between parts, whether or not the directory already ends in one |
| BodyTex.DefaultAnnotationFilepath | skin3d/bodytex.py:23-34 | under the default directories the paths are `…/annotations/<id>.csv` and `…/multiple_annotators/A1/<id>.csv`, without a doubled separator |
| Paths.JoinPath | skin3d/bodytex.py:96-99 | the joined path ends with the last component; a relative component follows the first either directly, when the first is empty or ends in `/`, or after one `/` otherwise; an absolute one replaces it |
| BodyTex.BodyTexDataset.Annotation | skin3d/bodytex.py:103-126 | a missing CSV raises `FileNotFound`; an existing CSV gives exactly the records its rows parse to, stamped with the scan id, or the parser's first error; on success there is one record per CSV row |
| BodyTex.BodyTexDataset.Annotations | skin3d/bodytex.py:128-139 | succeeds if and only if the id list is non-empty and every scan loads; an empty list fails in the concatenation; otherwise the error is that of the first failing scan |
| BodyTex.BodyTexDataset.CollectAnnotations | skin3d/bodytex.py:134-139 | the loop computes `Annotations`, including its first error |
| BodyTex.AnnotationsConcatenateInOrder | skin3d/bodytex.py:134-139 | the result is the per-scan tables concatenated in the order of the ids, so its length is the sum of theirs |
| BodyTex.AnnotationsStamped | skin3d/bodytex.py:123-139 | every record carries the id of one of the requested scans |
| BodyTex.BodyTexDataset.AllAnnotatedScanIds | skin3d/bodytex.py:173-177 | the concatenated id list is as long as the four partition lists together |
| BodyTex.ScanCountIsSelectedRows | skin3d/bodytex.py:177-191 | the reported scan count is the number of selected rows in the four partitions: nothing is dropped or merged |
| BodyTex.ScanIdsAreStudyRows | skin3d/bodytex.py:173-177 | the counted ids are, as a multiset, the scan ids of the selected rows of the four partitions: each id as often as it has such rows |
| BodyTex.BodyTexDataset.SummaryOf | skin3d/bodytex.py:171-201 | the scan count is the sum of the four partition counts; success needs all four loads; when all four load, the call succeeds if and only if they hold a record at all, and the lesion count is the sum of their lengths; an empty test partition always fails |
| BodyTex.SummaryFirstError | skin3d/bodytex.py:177-188 | the error is that of the first failing load, in the order single annotations, A1, A2, A3 |
| BodyTex.BodyTexDataset.Summary | skin3d/bodytex.py:171-199 | the step-by-step computation gives `SummaryOf` |
| Visualize.FrameIsRing | skin3d/visualize.py:8-11 | the four bands form the box grown by `pad` on every side, minus the box itself; with `pad = 0` there is no frame |
| Visualize.FillBlock | skin3d/visualize.py:8 | a slice assignment sets every channel of every pixel of the block to the colour and leaves all other pixels unchanged |
| Visualize.EmbedBoxBorders | skin3d/visualize.py:5-11 | afterwards every pixel of the left, right, top and bottom bands (corners included) holds the colour on every channel, and every other pixel, the box interior included, keeps its old value |
| Visualize.EmbedBoxBordersTwice | skin3d/visualize.py:8-11 | painting the same frame twice leaves the image as painting it once |
| Visualize.InAnyFrameExactly | skin3d/visualize.py:24-25 | a pixel is painted by the rows if and only if it lies in the frame of one of them, whatever their order |
| Visualize.EmbedAnnotations | skin3d/visualize.py:14-25 | afterwards the pixels of the union of all rows' frames hold the colour and every other pixel keeps its old value; the image is changed in place |

## Left out

- `json.loads` is a parameter of the model, not a JSON decoder. Decoded
  attribute values are strings, integers, booleans or null. Floats, arrays
  and objects are not modelled, and neither is `int()` of a float.
- The rectangle (`region_shape_attributes`) arrives already decoded to its
  integer fields. A malformed shape text is not modelled.
- `region_attributes` is always a string. A missing CSV cell, which pandas
  reads as a float NaN, is not modelled.
- `os.listdir` and `pd.read_csv` are lookups in a `FileSystem` value. Listings
  come in whatever order the value holds. Entries that are not directories,
  and CSV columns other than the two region columns, are not modelled.
- `texture_image` is left out. It opens and converts an image file, which is I/O.
- `Summary` leaves out the `print` calls and the floating-point means of width
  and height. It keeps the means' one error: with no record at all, the
  concatenated frame has no `width` column.
- `Summary` treats `DataFrame.append` as plain concatenation. Recent pandas
  versions no longer provide that method.
- The pandas DataFrame object model is left out. Tables are sequences of
  records and the manifest is a sequence of rows.
- `ScanRow` and `AnnotationFilepath` take scan ids as strings. The source
  declares `scan_id: int` for `annotation_filepath`, where `scan_id + '.csv'`
  would raise `TypeError` for an int; the model assumes the manifest and the
  callers pass strings.
- The numpy slice edge behaviour of `embed_box_borders` is left out. A negative
  start wraps around and an out-of-range stop is clipped. Instead,
  `EmbedBoxBorders` and `EmbedAnnotations` require `pad >= 0`, `width >= 0`,
  `height >= 0`, `x >= pad`, `y >= pad`, `x + width + pad <= W` and
  `y + height + pad <= H`.
- Pixels are unbounded integers and the colour is a sequence of one value per
  channel. uint8 wrap-around and numpy broadcasting of other colour shapes are
  not modelled.
- `Decimal.ParseInt` accepts only ASCII whitespace and ASCII digits. It does not
  model the Unicode digits, Unicode whitespace or the `_` separators that
  Python's `int()` also accepts.
- Paths are POSIX paths. Windows separators and drive letters are not modelled.
