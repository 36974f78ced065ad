/** The files the modelled code reads, as values: directory listings and the
    annotation CSVs, both keyed by path. */
module Storage {
  import opened Wrappers

  /** One row of an annotation CSV: the raw `region_attributes` text, and the
      `region_shape_attributes` object already decoded to its integer fields. */
  datatype Region = Region(attributes: string, shape: map<string, int>)

  datatype FileSystem = FileSystem(listings: map<string, seq<string>>, csvs: map<string, seq<Region>>)

  /** `os.listdir(path)`: the entries in the order the operating system gives them. */
  function ListDir(fs: FileSystem, path: string): (r: Result<seq<string>>)
    ensures r.Ok? <==> path in fs.listings
    ensures r.Err? ==> r.error == FileNotFound(path)
  {
    if path in fs.listings then Ok(fs.listings[path]) else Err(FileNotFound(path))
  }

  /** `pd.read_csv(path)` restricted to the two region columns. */
  function ReadCsv(fs: FileSystem, path: string): (r: Result<seq<Region>>)
    ensures r.Ok? <==> path in fs.csvs
    ensures r.Err? ==> r.error == FileNotFound(path)
  {
    if path in fs.csvs then Ok(fs.csvs[path]) else Err(FileNotFound(path))
  }
}
