/** How the two copies of `download_nyc_taxi_data` relate: they share the
    month loop, and differ only in when the output directory is created
    relative to validation and in whether the default twelve months are
    range-checked (which they always pass). */
module Variants {
  import opened Common
  import opened Naming
  import opened Environment
  import opened Fetcher
  import opened RunProperties
  import TaxiEtlGetData
  import TaxiData

  /** On arguments that pass validation both copies do exactly the same
      thing, the OSError of a file in the way of the directory included. */
  lemma CopiesAgreeOnValidInput(d: Disk, net: Network, year: int, months: Option<seq<int>>, dataType: string,
                                outputDir: Path, force: bool)
    requires ValidDataType(dataType) && (months.None? || AllValidMonths(months.value))
    ensures TaxiEtlGetData.Download(d, net, year, months, dataType, outputDir, force)
         == TaxiData.Download(d, net, year, months, dataType, outputDir, force)
  {
  }

  /** On arguments that fail validation, both raise the same ValueError and
      make no request, but only `taxi_etl/get_data.py` leaves the output
      directories behind. */
  lemma CopiesDifferOnInvalidInput(d: Disk, net: Network, year: int, months: Option<seq<int>>, dataType: string,
                                   outputDir: Path, force: bool)
    requires !MkdirFails(d, outputDir)
    requires !ValidDataType(dataType) || (months.Some? && !AllValidMonths(months.value))
    ensures var o1, o2 := TaxiEtlGetData.Download(d, net, year, months, dataType, outputDir, force),
                          TaxiData.Download(d, net, year, months, dataType, outputDir, force);
      && o1.result == o2.result && o1.result.Err? && o1.result.error != OSError
      && o1.requested == [] && o2.requested == []
      && o1.disk == WithDirs(d, outputDir) && o2.disk == d
  {
  }

  /** With a file in the way of the output directory or of a directory above
      it, `taxi_etl/get_data.py`
      reports the OSError whatever the arguments, while `taxi_data.py`
      reports an invalid data type first. */
  lemma ErrorPrecedence(d: Disk, net: Network, year: int, months: Option<seq<int>>, dataType: string,
                        outputDir: Path, force: bool)
    requires MkdirFails(d, outputDir) && !ValidDataType(dataType)
    ensures TaxiEtlGetData.Download(d, net, year, months, dataType, outputDir, force).result == Err(OSError)
    ensures TaxiData.Download(d, net, year, months, dataType, outputDir, force).result == Err(InvalidDataType)
  {
  }

  /** A regular file "a" makes both copies fail with an OSError for the
      output directory "a/b", though nothing is at "a/b" itself. */
  lemma FileAboveOutputDir(net: Network)
    ensures var d := Disk({}, map["a" := []]);
      && TaxiEtlGetData.Download(d, net, 2023, Some([]), "yellow", "a/b", false) == Outcome(Err(OSError), d, [])
      && TaxiData.Download(d, net, 2023, Some([]), "yellow", "a/b", false) == Outcome(Err(OSError), d, [])
  {
    FileAboveBlocksMkdir();
    assert ValidDataType("yellow") && AllValidMonths([]);
  }

  /** A call of `taxi_data.py` that succeeds returns, in input order, the
      paths of some of the requested months (all twelve when `months` is
      None), never more paths than months, each of them on disk: it passed
      validation, so it did what `taxi_etl/get_data.py` does. */
  lemma TaxiDataReturnsPlannedPaths(d: Disk, net: Network, year: int, months: Option<seq<int>>,
                                    dataType: string, outputDir: Path, force: bool)
    requires TaxiData.Download(d, net, year, months, dataType, outputDir, force).result.Ok?
    ensures var o, ms := TaxiData.Download(d, net, year, months, dataType, outputDir, force), MonthsOf(months);
      && ValidDataType(dataType) && AllValidMonths(ms)
      && IsSubsequence(o.result.value, Paths(Plan(Job(dataType, year, outputDir, force), ms)))
      && |o.result.value| <= |ms|
      && forall i :: 0 <= i < |o.result.value| ==> OnDisk(o.disk, o.result.value[i])
  {
    CopiesAgreeOnValidInput(d, net, year, months, dataType, outputDir, force);
    TaxiEtlGetData.DownloadReturnsPlannedPaths(d, net, year, months, dataType, outputDir, force);
  }

  /** Neither copy ever leaves a path that is both a directory and a file,
      whatever the arguments and the network. */
  lemma DownloadKeepsWellFormed(d: Disk, net: Network, year: int, months: Option<seq<int>>, dataType: string,
                                outputDir: Path, force: bool)
    requires WellFormed(d)
    ensures WellFormed(TaxiEtlGetData.Download(d, net, year, months, dataType, outputDir, force).disk)
    ensures WellFormed(TaxiData.Download(d, net, year, months, dataType, outputDir, force).disk)
  {
    if !MkdirFails(d, outputDir) {
      var made := WithDirs(d, outputDir);
      MkdirKeepsWellFormed(d, outputDir);
      RunPreserves(made, net, force, Plan(Job(dataType, year, outputDir, force), MonthsOf(months)));
    }
  }
}
