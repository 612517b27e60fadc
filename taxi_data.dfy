/** The entry point of `taxi_data.py`.

    This copy validates first and creates the directory afterwards: an
    invalid data type or an out-of-range month in an explicit list fails
    with the disk untouched. When `months` is None the twelve months are
    used without the range check. The output directory defaults to "data". */
module TaxiData {
  import opened Common
  import opened Naming
  import opened Environment
  import opened Fetcher
  import opened RunProperties

  const DefaultOutputDir: Path := "data"

  /** The specification of `download_nyc_taxi_data`. */
  function Download(d: Disk, net: Network, year: int, months: Option<seq<int>>, dataType: string,
                    outputDir: Path, force: bool): (o: Outcome)
    // the data type is checked first, before the months and before mkdir
    ensures !ValidDataType(dataType) ==> o == Outcome(Err(InvalidDataType), d, [])
    // only an explicit list is range-checked
    ensures o.result == Err(InvalidMonth) <==>
              ValidDataType(dataType) && months.Some? && !AllValidMonths(months.value)
    // a validation error leaves the disk untouched and makes no request
    ensures o.result == Err(InvalidDataType) || o.result == Err(InvalidMonth) ==> o.disk == d && o.requested == []
    // after validation, mkdir fails exactly on a file in the way of the
    // directory or of a directory above it, and otherwise they all exist
    ensures ValidDataType(dataType) && (months.None? || AllValidMonths(months.value)) && MkdirFails(d, outputDir) ==>
              o == Outcome(Err(OSError), d, [])
    ensures ValidDataType(dataType) && (months.None? || AllValidMonths(months.value)) && !MkdirFails(d, outputDir) ==>
              outputDir in o.disk.dirs && Ancestors(outputDir) <= o.disk.dirs
  {
    if !ValidDataType(dataType) then Outcome(Err(InvalidDataType), d, [])
    else if months.Some? && !AllValidMonths(months.value) then Outcome(Err(InvalidMonth), d, [])
    else if MkdirFails(d, outputDir) then Outcome(Err(OSError), d, [])
    else
      var made := WithDirs(d, outputDir);
      RunPreserves(made, net, force, Plan(Job(dataType, year, outputDir, force), MonthsOf(months)));
      Finish(RunMonths(made, net, Job(dataType, year, outputDir, force), MonthsOf(months)))
  }

  method DownloadNycTaxiData(fs: FileSystem, server: Server, year: int := 2023,
                             months: Option<seq<int>> := None, dataType: string := "yellow",
                             outputDir: Path := DefaultOutputDir, force: bool := false)
    returns (res: Result<seq<Path>>)
    modifies fs, server
    ensures var o := Download(old(fs.Snapshot()), server.responses, year, months, dataType, outputDir, force);
      res == o.result && fs.Snapshot() == o.disk && server.log == old(server.log) + o.requested
  {
    if dataType !in ["yellow", "green", "fhv"] {
      return Err(InvalidDataType);
    }
    var ms := MonthsOf(months);
    if months.Some? {
      var valid := CheckMonths(ms);
      if !valid {
        return Err(InvalidMonth);
      }
    }
    var made := fs.MakeDirs(outputDir);
    if !made {
      return Err(OSError);
    }
    var paths, aborted := FetchMonths(fs, server, Namer(Job(dataType, year, outputDir, force)), force, ms);
    if aborted {
      return Err(OSError);
    }
    return Ok(paths);
  }

  /** When no planned file exists yet, every download completes and no
      month repeats, a valid call returns every planned path and requests
      every planned URL, in input order. */
  lemma DownloadAllFresh(d: Disk, net: Network, year: int, months: seq<int>, dataType: string,
                         outputDir: Path, force: bool)
    requires !MkdirFails(d, outputDir) && ValidDataType(dataType) && AllValidMonths(months)
    requires forall i, j :: 0 <= i < j < |months| ==> months[i] != months[j]
    requires var job := Job(dataType, year, outputDir, force);
      forall i :: 0 <= i < |months| ==> FreshDownload(d, net, EntryOf(job, months[i]))
    ensures var o, es := Download(d, net, year, Some(months), dataType, outputDir, force),
                         Plan(Job(dataType, year, outputDir, force), months);
      o.result == Ok(Paths(es)) && o.requested == Urls(es)
  {
    var job := Job(dataType, year, outputDir, force);
    var made := WithDirs(d, outputDir);
    var es := Plan(job, months);
    forall i | 0 <= i < |es|
      ensures FreshDownload(made, net, es[i])
    {
      FreshAfterMkdir(d, net, job, months[i]);
    }
    forall i, j | 0 <= i < j < |es|
      ensures es[i].path != es[j].path
    {
      DistinctMonthsDistinctPaths(dataType, year, months[i], months[j], outputDir);
    }
    AllFreshRun(made, net, force, es);
  }

  /** The example at the bottom of the file: January and February 2023 of
      the yellow data, neither on disk yet and both downloads complete,
      give both paths in order after one request each. */
  lemma TwoMonthExample(d: Disk, net: Network)
    requires DefaultOutputDir !in d.files
    requires var job := Job("yellow", 2023, DefaultOutputDir, false);
      FreshDownload(d, net, EntryOf(job, 1)) && FreshDownload(d, net, EntryOf(job, 2))
    ensures var o, job := Download(d, net, 2023, Some([1, 2]), "yellow", DefaultOutputDir, false),
                          Job("yellow", 2023, DefaultOutputDir, false);
      && o.result == Ok([EntryOf(job, 1).path, EntryOf(job, 2).path])
      && o.requested == [EntryOf(job, 1).url, EntryOf(job, 2).url]
  {
    var job := Job("yellow", 2023, DefaultOutputDir, false);
    DefaultDirCreatable(d);
    assert ValidDataType("yellow") && AllValidMonths([1, 2]);
    DownloadAllFresh(d, net, 2023, [1, 2], "yellow", DefaultOutputDir, false);
    var es := Plan(job, [1, 2]);
    assert Paths(es) == [EntryOf(job, 1).path, EntryOf(job, 2).path];
    assert Urls(es) == [EntryOf(job, 1).url, EntryOf(job, 2).url];
  }

  /** "data" has no directory above it, so only a file named "data" stops
      mkdir of the default directory. */
  lemma DefaultDirCreatable(d: Disk)
    requires DefaultOutputDir !in d.files
    ensures !MkdirFails(d, DefaultOutputDir)
  {
    NoSeparatorNoAncestors(DefaultOutputDir);
  }

  /** Creating the output directory and those above it does not put
      anything at a month's path. */
  lemma FreshAfterMkdir(d: Disk, net: Network, job: Job, m: int)
    requires FreshDownload(d, net, EntryOf(job, m))
    ensures FreshDownload(WithDirs(d, job.dir), net, EntryOf(job, m))
  {
    var e := EntryOf(job, m);
    assert |e.path| > |job.dir|;
  }
}
