/** The entry points of `taxi_etl/get_data.py`.

    `download_nyc_taxi_data` here creates the output directory before it
    validates its arguments, checks every month of the list (the twelve months
    when `months` is None), and then runs the shared month loop. `get_data`
    downloads January 2023 of the yellow data into the data directory and
    loads it. The directory that `output_dir=None` resolves to is a parameter
    (`dataPath`). */
module TaxiEtlGetData {
  import opened Common
  import opened Naming
  import opened Environment
  import opened Fetcher
  import opened RunProperties
  import opened Loader

  /** The specification of `download_nyc_taxi_data`. */
  function Download(d: Disk, net: Network, year: int, months: Option<seq<int>>, dataType: string,
                    outputDir: Path, force: bool): (o: Outcome)
    // mkdir comes first: a file in the way of the directory or of a
    // directory above it fails the call before anything else
    ensures MkdirFails(d, outputDir) ==> o == Outcome(Err(OSError), d, [])
    // otherwise the directory and those above it exist afterwards, whatever the arguments
    ensures !MkdirFails(d, outputDir) ==> outputDir in o.disk.dirs && Ancestors(outputDir) <= o.disk.dirs
    ensures o.result == Err(InvalidDataType) <==> !MkdirFails(d, outputDir) && !ValidDataType(dataType)
    ensures o.result == Err(InvalidMonth) <==>
              !MkdirFails(d, outputDir) && ValidDataType(dataType) && !AllValidMonths(MonthsOf(months))
    // a validation error makes no request and leaves only the new directories behind
    ensures o.result == Err(InvalidDataType) || o.result == Err(InvalidMonth) ==>
              o.requested == [] && o.disk == WithDirs(d, outputDir)
  {
    if MkdirFails(d, outputDir) then Outcome(Err(OSError), d, [])
    else
      var made := WithDirs(d, outputDir);
      if !ValidDataType(dataType) then Outcome(Err(InvalidDataType), made, [])
      else if !AllValidMonths(MonthsOf(months)) then Outcome(Err(InvalidMonth), made, [])
      else
        RunPreserves(made, net, force, Plan(Job(dataType, year, outputDir, force), MonthsOf(months)));
        Finish(RunMonths(made, net, Job(dataType, year, outputDir, force), MonthsOf(months)))
  }

  method DownloadNycTaxiData(fs: FileSystem, server: Server, year: int := 2023,
                             months: Option<seq<int>> := Some([1]), dataType: string := "yellow",
                             outputDir: Path, force: bool := false)
    returns (res: Result<seq<Path>>)
    modifies fs, server
    ensures var o := Download(old(fs.Snapshot()), server.responses, year, months, dataType, outputDir, force);
      res == o.result && fs.Snapshot() == o.disk && server.log == old(server.log) + o.requested
  {
    var ms := MonthsOf(months);
    var made := fs.MakeDirs(outputDir);
    if !made {
      return Err(OSError);
    }
    if dataType !in ["yellow", "green", "fhv"] {
      return Err(InvalidDataType);
    }
    var valid := CheckMonths(ms);
    if !valid {
      return Err(InvalidMonth);
    }
    var paths, aborted := FetchMonths(fs, server, Namer(Job(dataType, year, outputDir, force)), force, ms);
    if aborted {
      return Err(OSError);
    }
    return Ok(paths);
  }

  /** A call that succeeds returns, in input order, the paths of some of the
      requested months (all twelve when `months` is None), never more paths
      than months, each of them on disk. */
  lemma DownloadReturnsPlannedPaths(d: Disk, net: Network, year: int, months: Option<seq<int>>,
                                    dataType: string, outputDir: Path, force: bool)
    requires Download(d, net, year, months, dataType, outputDir, force).result.Ok?
    ensures var o, ms := Download(d, net, year, months, dataType, outputDir, force), MonthsOf(months);
      && ValidDataType(dataType) && AllValidMonths(ms)
      && IsSubsequence(o.result.value, Paths(Plan(Job(dataType, year, outputDir, force), ms)))
      && |o.result.value| <= |ms|
      && forall i :: 0 <= i < |o.result.value| ==> OnDisk(o.disk, o.result.value[i])
  {
    var made := WithDirs(d, outputDir);
    FinishShape(made, net, force, Plan(Job(dataType, year, outputDir, force), MonthsOf(months)));
  }

  // ---------------------------------------------------------------------
  // get_data

  /** The specification of `get_data`: download with the fixed arguments,
      fail on an empty list, and load the files from the disk as the
      download left it. */
  function GetDataResult<R>(d: Disk, net: Network, dataPath: Path, reader: Reader<R>): (res: Result<Frame<R>>) {
    var o := Download(d, net, 2023, Some([1]), "yellow", dataPath, false);
    match o.result
    case Err(e) => Err(e)
    case Ok(files) => if files == [] then Err(NoDataLoaded) else LoadResult(files, ReadFrom(o.disk, reader))
  }

  method GetData<R>(fs: FileSystem, server: Server, dataPath: Path, reader: Reader<R>)
    returns (res: Result<Frame<R>>)
    modifies fs, server
    ensures res == GetDataResult(old(fs.Snapshot()), server.responses, dataPath, reader)
    ensures var o := Download(old(fs.Snapshot()), server.responses, 2023, Some([1]), "yellow", dataPath, false);
      fs.Snapshot() == o.disk && server.log == old(server.log) + o.requested
  {
    var files := DownloadNycTaxiData(fs, server, 2023, Some([1]), "yellow", dataPath, false);
    match files {
      case Err(e) =>
        res := Err(e);
      case Ok(paths) =>
        if paths == [] {
          res := Err(NoDataLoaded);
        } else {
          res := Load(paths, ReadFrom(fs.Snapshot(), reader));
        }
    }
  }

  /** The fixed arguments always pass validation: `get_data` fails only with
      an OSError or for want of data. */
  lemma GetDataNeverInvalid<R>(d: Disk, net: Network, dataPath: Path, reader: Reader<R>)
    ensures var res := GetDataResult(d, net, dataPath, reader);
      res.Err? ==> res.error == OSError || res.error == NoDataLoaded
  {
    var o := Download(d, net, 2023, Some([1]), "yellow", dataPath, false);
    assert ValidDataType("yellow") && AllValidMonths([1]);
    if o.result.Ok? && o.result.value != [] {
      LoadFailsIffNothingRead(o.result.value, ReadFrom(o.disk, reader));
    }
  }

  /** `get_data` reports that no data loaded exactly when the download
      returned paths none of which reads as a table (an empty list
      included): its own emptiness check agrees with the loader's. */
  lemma GetDataNoDataIff<R>(d: Disk, net: Network, dataPath: Path, reader: Reader<R>)
    ensures var o := Download(d, net, 2023, Some([1]), "yellow", dataPath, false);
      GetDataResult(d, net, dataPath, reader) == Err(NoDataLoaded) <==>
        o.result.Ok? && forall i :: 0 <= i < |o.result.value| ==> ReadFrom(o.disk, reader)(o.result.value[i]).None?
  {
    var o := Download(d, net, 2023, Some([1]), "yellow", dataPath, false);
    if o.result.Ok? {
      LoadFailsIffNothingRead(o.result.value, ReadFrom(o.disk, reader));
    }
  }

  /** With January 2023 already in the data directory (a file, or a
      directory read as a dataset), `get_data` makes no request and loads
      that path alone. */
  lemma GetDataFromCache<R>(d: Disk, net: Network, dataPath: Path, reader: Reader<R>)
    requires !MkdirFails(d, dataPath)
    requires OnDisk(d, Join(dataPath, FileName("yellow", 2023, 1)))
    ensures var o, path := Download(d, net, 2023, Some([1]), "yellow", dataPath, false),
                           Join(dataPath, FileName("yellow", 2023, 1));
      && o.requested == []
      && o.disk == WithDirs(d, dataPath)
      && GetDataResult(d, net, dataPath, reader) == LoadResult([path], ReadFrom(o.disk, reader))
  {
    var job := Job("yellow", 2023, dataPath, false);
    assert ValidDataType("yellow") && AllValidMonths([1]);
    DownloadAllCached(d, net, 2023, Some([1]), "yellow", dataPath);
    assert Paths(Plan(job, [1])) == [EntryOf(job, 1).path];
  }

  /** When every planned file is already on disk, a call that does not
      force the download makes no request, adds only the output directory
      and those above it,
      and returns every planned path in order. */
  lemma DownloadAllCached(d: Disk, net: Network, year: int, months: Option<seq<int>>, dataType: string, outputDir: Path)
    requires !MkdirFails(d, outputDir) && ValidDataType(dataType) && AllValidMonths(MonthsOf(months))
    requires var job, ms := Job(dataType, year, outputDir, false), MonthsOf(months);
      forall i :: 0 <= i < |ms| ==> OnDisk(d, EntryOf(job, ms[i]).path)
    ensures var job, ms := Job(dataType, year, outputDir, false), MonthsOf(months);
      Download(d, net, year, months, dataType, outputDir, false)
      == Outcome(Ok(Paths(Plan(job, ms))), WithDirs(d, outputDir), [])
  {
    var job, ms := Job(dataType, year, outputDir, false), MonthsOf(months);
    var made := WithDirs(d, outputDir);
    var es := Plan(job, ms);
    assert forall i :: 0 <= i < |es| ==> OnDisk(made, es[i].path);
    AllCachedRun(made, net, es);
  }
}
