# NYC taxi trip data retrieval, modelled in Dafny

This project models the data-retrieval core of the taxi ETL repository.

`download_nyc_taxi_data` fetches the TLC trip-data parquet files month by month into a
local cache directory. It skips a month whose file already exists (unless the download is
forced), streams the other months from the TLC endpoint, and swallows a request failure
for one month. It returns, in input order, the paths of the months that were cache hits
or completed downloads, each of which is on disk afterwards. A month whose request fails
or whose stream breaks is left out even when a file remains at its path.
`load_taxi_data` reads those files, skips any that fail to read, and concatenates the rest
with a fresh row index. `get_data` chains the two for January 2023 of the yellow data.
`is_dev` and `is_prod` classify the `APP_ENV` value. The download and load routines exist
in two copies, `taxi_etl/get_data.py` and `taxi_data.py`. They share the month loop and
differ in validation order, in how `months=None` is checked, and in their defaults.

Modules:

- `Common` (common.dfy): options, results, the errors that escape (the two ValueErrors of
  validation, the ValueError of an empty load, and an OSError), and byte chunks.
- `Config` (config.dfy): `is_dev` and `is_prod` over the environment, passed in as a map.
  A character-wise "equal ignoring case" is the reference definition they are proved against.
- `Environment` (environment.dfy): the disk as a value (a set of directories and a map from
  file paths to contents), well formed when no path is both. `FileSystem` is a class updated in place by `mkdir`,
  `open(..., 'wb')` and `write`. `Server` answers each URL with a fixed response and
  logs every request.
- `Naming` (naming.dfy): the file-name, URL and path template. It includes Python's `str()`
  for the year and `format(month, "02d")`. A strict parser is proved to be the template's
  inverse, so distinct months never share a path or a URL.
- `Fetcher` (fetcher.dfy): the month loop shared by both copies.
  - `FetchStep` and `RunEntries` specify one month and the whole loop as functions over the
    disk and the network.
  - `FetchEntry`, `Retrieve`, `StreamChunks` and `FetchMonths` are the imperative loop over
    the `FileSystem` and the `Server`, each proved equal to that specification.
  - `FetchMonths` receives the month-to-entry function as an argument. Both entry points pass
    `Namer(job)`, the template above.
  - Month validation and `list(range(1, 13))` are also here.
- `RunProperties` (run_properties.dfy): what the loop guarantees. The result is the in-order
  subsequence of planned paths of the months that did not fail. It covers requests, cache hits,
  forcing, repeated months, interrupted streams, the frame on the disk, and idempotence of
  a second run.
- `Loader` (loader.dfy): `load_taxi_data`, identical in both copies, with reading as an
  oracle from a path to a table or a failure. On a disk a file is decoded from its contents
  and a directory is read as a dataset, as `pd.read_parquet` does.
- `TaxiEtlGetData` (taxi_etl_get_data.dfy): `taxi_etl/get_data.py`, with `download_nyc_taxi_data`
  (directory first, then validation) and `get_data`.
- `TaxiData` (taxi_data.dfy): `taxi_data.py`, with `download_nyc_taxi_data` (validation
  first, then directory; `months=None` not range-checked).
- `Variants` (variants.dfy): where the two copies agree and where they differ.

Each entry point has a specification function `Download` returning an `Outcome`: the result,
the final disk and the URLs requested. The method `DownloadNycTaxiData` is proved to
produce exactly that outcome on a `FileSystem` and a `Server`.

## Model

| member | source | states |
|---|---|---|
| Config.LowerMatchesWord | taxi_etl/config.py:4-5 | the lower-cased value equals a lower-case word exactly when it equals that word ignoring case, character by character |
| Config.IsDevIgnoresCase | taxi_etl/config.py:3-5 | `is_dev` (`Config.IsDev`) holds iff the APP_ENV value spells "dev" or "development" in any mix of cases |
| Config.IsProdIgnoresCase | taxi_etl/config.py:7-9 | `is_prod` (`Config.IsProd`) holds iff the APP_ENV value spells "prod" or "production" in any mix of cases |
| Config.UnsetIsNeither | taxi_etl/config.py:3-9 | a missing APP_ENV reads as "" and is neither dev nor prod |
| Config.NeverBoth | taxi_etl/config.py:3-9 | no value is both dev and prod |
| Config.NonLetterIsNeither | taxi_etl/config.py:4-9 | a value with any non-letter character (a surrounding space included) is neither dev nor prod: nothing is trimmed |
| Config.CaseExamples | taxi_etl/config.py:3-9 | "DEV" is dev, "Production" is prod, " dev" is neither |
| Common.FlattenNonEmpty | taxi_etl/get_data.py:80-82 | skipping empty chunks does not change the bytes written |
| Environment.FileSystem.MakeDirs | taxi_etl/get_data.py:41 | `mkdir(parents=True, exist_ok=True)` fails exactly when a regular file sits at the directory or at any directory above it, and otherwise creates the directory and every directory above it and leaves the files alone |
| Environment.MkdirKeepsWellFormed | taxi_etl/get_data.py:41 | a successful mkdir never makes a path both a directory and a file |
| Environment.FileAboveBlocksMkdir | taxi_etl/get_data.py:41 | a regular file "a" makes mkdir of "a/b" fail, though nothing is at "a/b" |
| Environment.FileSystem.OpenForWrite | taxi_etl/get_data.py:78 | `open(p, 'wb')` fails exactly on a directory, and otherwise creates or truncates the file to empty |
| Environment.FileSystem.Write | taxi_etl/get_data.py:82 | a write appends the chunk to the file |
| Environment.Server.Get | taxi_etl/get_data.py:71 | a request returns the URL's response and is appended to the request log |
| Naming.NatToString | taxi_etl/get_data.py:58 | `str(n)` is a non-empty string of digits, with no leading zero for n > 0, and one digit exactly when n < 10 |
| Naming.NatToStringRoundTrip | taxi_etl/get_data.py:58 | the digits of `str(n)` read back as n |
| Naming.IntToStringRoundTrip | taxi_etl/get_data.py:58 | `str(year)` is an integer literal that reads back as the year, negative years included |
| Naming.IntToStringCanonical | taxi_etl/get_data.py:58 | `str(year)` has no leading zero and no "-0" |
| Naming.CanonicalYearRoundTrip | taxi_etl/get_data.py:58 | every canonical year text is `str()` of its value, so the parser accepts only what the template produces |
| Naming.Pad2Month | taxi_etl/get_data.py:58 | `format(month, "02d")` of a valid month is two digits whose value is the month |
| Naming.CanonicalMonthRoundTrip | taxi_etl/get_data.py:58 | every two-digit text of a valid month is `format(month, "02d")` of its value |
| Naming.FileNameRoundTrip | taxi_etl/get_data.py:58 | parsing `{data_type}_tripdata_{year}-{month:02d}.parquet` (`Naming.FileName`, built from `Naming.IntToString` and `Naming.Pad2`) of a valid key gives back the key |
| Naming.ParseFileNameCanonical | taxi_etl/get_data.py:58 | a name the parser accepts is exactly the file name of the key it returns |
| Naming.FileNameInjective | taxi_etl/get_data.py:58 | two valid keys with the same file name are the same key |
| Naming.DistinctMonthsDistinctPaths | taxi_etl/get_data.py:58-61 | two different valid months of the same data type and year have different cache paths (`Naming.Join`) and different URLs (`Naming.UrlOf`) |
| Naming.FileNameExample | taxi_etl/get_data.py:57-58 | yellow, 2023, month 1 is named "yellow_tripdata_2023-01.parquet" |
| Fetcher.Plan | taxi_etl/get_data.py:56-61 | the loop works through one entry per month, in input order, each the template's name, URL and path for that month |
| Fetcher.FetchStep | taxi_etl/get_data.py:63-90 | a month is a cache hit iff its path exists and the download is not forced, and then nothing changes; a request failure or an error status (4xx/5xx) leaves the disk as it was and skips the month; a completed download holds exactly the concatenated chunks; only a directory at the path raises the OSError; a month that is not skipped has its path on disk |
| Fetcher.FetchStepFrame | taxi_etl/get_data.py:63-90 | one month never touches the directories, never removes anything, can only create its own file, and keeps a well-formed disk well formed |
| Fetcher.RunEntries | taxi_etl/get_data.py:56-92 | the loop, one `Fetcher.Advance` per month: each month processed gets one status, and the batch is aborted exactly when fewer months were processed than planned |
| Fetcher.RunAfterAbort | taxi_etl/get_data.py:78 | after the OSError nothing more happens: the later months change nothing |
| Fetcher.AdvanceCacheHit | taxi_etl/get_data.py:64-67 | an existing file without forcing appends the path with no request and no change to the disk |
| Fetcher.AdvanceRequestError | taxi_etl/get_data.py:69-90 | a RequestException or an error status logs the request, adds no path and creates no file |
| Fetcher.AdvanceDirectoryInTheWay | taxi_etl/get_data.py:78 | a directory at the file's path ends the batch after the request |
| Fetcher.AdvanceWrite | taxi_etl/get_data.py:78-86 | a successful response writes the non-empty chunks; the path is appended only when the stream completes |
| Fetcher.StreamChunks | taxi_etl/get_data.py:80-83 | the chunk loop leaves the file holding exactly the non-empty chunks, in order, and changes nothing else |
| Fetcher.Retrieve | taxi_etl/get_data.py:69-90 | the request, status check and streamed write take the loop to exactly the next run of the specification |
| Fetcher.FetchEntry | taxi_etl/get_data.py:63-90 | the loop body takes the disk, the request log and the result list to exactly the next run of the specification |
| Fetcher.FetchMonths | taxi_etl/get_data.py:54-92 | the month loop returns exactly the specification's paths, leaves exactly its disk and makes exactly its requests, in order |
| Fetcher.CheckMonths | taxi_etl/get_data.py:47-49 | the check passes iff every month is within 1..12, and a failure names a month outside that range |
| Fetcher.AllMonths | taxi_etl/get_data.py:31-32 | the default list holds twelve months, every valid month once, in ascending order |
| Fetcher.MonthsOf | taxi_etl/get_data.py:31-32 | `months=None` becomes 1..12 in order; a given list is used as it is |
| RunProperties.RunShape | taxi_etl/get_data.py:56-92 | the result is the paths of exactly the months that were not skipped, in input order; requests went out for exactly the months that were not cache hits; after an OSError this holds for the months before it, and the aborting month's URL was the last request |
| RunProperties.ApplyShape | taxi_etl/get_data.py:63-90 | one month adds its path exactly when it is not skipped, and its URL exactly when it is not a cache hit |
| RunProperties.RunPreserves | taxi_etl/get_data.py:56-92 | the loop leaves the directories alone, removes nothing, creates only planned paths, keeps a well-formed disk well formed, and every returned path exists afterwards |
| RunProperties.AllCachedRun | taxi_etl/get_data.py:64-67 | with every file present and no forcing, the loop makes no request, changes nothing and returns every planned path |
| RunProperties.AllFreshRun | taxi_etl/get_data.py:69-86 | with no file present, every download complete and distinct paths, the loop requests every URL and returns every path, in order |
| RunProperties.RerunIsCached | taxi_etl/get_data.py:64-67 | after a run with no skipped month, a second run without forcing makes no request whatever the network says, changes nothing, and returns the same paths |
| RunProperties.PrefixRun | taxi_etl/get_data.py:56-92 | the run over the first k months is the beginning of the whole run |
| RunProperties.StatusAt | taxi_etl/get_data.py:56-92 | month k is fetched against the disk left by the months before it |
| RunProperties.DiskGrows | taxi_etl/get_data.py:56-92 | whatever exists after k1 months still exists after any later month |
| RunProperties.RepeatedMonthIsCached | taxi_data.py:50-61 | repeated months are not deduplicated: without forcing, a later month with the same path is a cache hit once an earlier one returned its path |
| RunProperties.ForcedRunRequestsEveryMonth | taxi_etl/get_data.py:64-71 | with `force_download` every month's URL is requested, in order, existing files or not |
| RunProperties.InterruptedDownloadIsLaterCached | taxi_etl/get_data.py:78-90 | a stream that breaks leaves its partial file: the month is left out, but a repeat of it is a cache hit on that partial file |
| RunProperties.FinishShape | taxi_etl/get_data.py:56-92 | a batch without an OSError returns an in-order subsequence of the planned paths, no longer than the months, each on disk |
| Loader.ConcatPlacesRows | taxi_etl/get_data.py:118 | `pd.concat(dfs, ignore_index=True)` lays the tables end to end: row k of table t lands at k plus the number of rows of the earlier tables, and its index is that position whatever the table's own index was |
| Loader.Parsed | taxi_etl/get_data.py:105-113 | never more tables than paths |
| Loader.Load | taxi_etl/get_data.py:105-118 | the loading loop (identical in taxi_data.py) returns exactly `Loader.LoadResult`, which the lemmas below characterise |
| Loader.LoadFailsIffNothingRead | taxi_etl/get_data.py:105-118 | the load raises iff no path could be read (the empty list included), and the only error is that ValueError |
| Loader.LoadAppend | taxi_etl/get_data.py:105-118 | the rows of the earlier paths come first: nothing is reordered |
| Loader.UnreadableIsSkipped | taxi_etl/get_data.py:108-113 | a path that fails to read is skipped as if it were not in the list |
| Loader.LoadOne | taxi_etl/get_data.py:110-118 | a single readable file loads as its own rows, renumbered from zero |
| Loader.MissingIsSkipped | taxi_etl/get_data.py:108-113 | through `ReadFrom`, a path where nothing exists fails to read and is skipped as if it were not in the list |
| Loader.DirectoryIsLoaded | taxi_etl/get_data.py:108-118 | a directory that `pd.read_parquet` reads as a dataset is loaded, its rows in its place among the other tables' rows |
| TaxiEtlGetData.Download | taxi_etl/get_data.py:31-49 | mkdir comes first, so a file at the directory or above it raises the OSError before anything else; otherwise the directory and those above it exist afterwards whatever the arguments; invalid type and invalid month are raised exactly in that order, with no request and only the new directories left behind |
| TaxiEtlGetData.DownloadNycTaxiData | taxi_etl/get_data.py:11-92 | the routine returns exactly the specification's result, leaves exactly its disk and makes exactly its requests |
| TaxiEtlGetData.DownloadReturnsPlannedPaths | taxi_etl/get_data.py:54-92 | a call that succeeds had valid arguments and returns an in-order subsequence of the planned paths, no longer than the months, each on disk |
| TaxiEtlGetData.DownloadAllCached | taxi_etl/get_data.py:64-67 | with every planned file present and no forcing, a call makes no request, adds only the output directory and every directory above it, and returns every planned path |
| TaxiEtlGetData.GetData | taxi_etl/get_data.py:121-126 | `get_data` returns exactly its specification `TaxiEtlGetData.GetDataResult`: the download's error, the ValueError on an empty list, or the load of the downloaded paths |
| TaxiEtlGetData.GetDataNeverInvalid | taxi_etl/get_data.py:121-126 | the fixed arguments always validate, so `get_data` fails only with the OSError or for want of data |
| TaxiEtlGetData.GetDataNoDataIff | taxi_etl/get_data.py:121-126 | `get_data` reports no data exactly when the download returned paths none of which reads as a table |
| TaxiEtlGetData.GetDataFromCache | taxi_etl/get_data.py:121-124 | with January 2023 already cached (a file, or a directory read as a dataset), `get_data` makes no request and loads that one path |
| TaxiData.Download | taxi_data.py:30-43 | the data type is checked first and an explicit list next, `months=None` is not range-checked; a validation error leaves the disk untouched and makes no request; after validation mkdir fails exactly on a file at the directory or above it, and otherwise the directory and those above it exist |
| TaxiData.DownloadNycTaxiData | taxi_data.py:10-86 | the routine returns exactly the specification's result, leaves exactly its disk and makes exactly its requests |
| TaxiData.DownloadAllFresh | taxi_data.py:50-86 | with no planned file present, distinct months and every download complete, a call returns every planned path and requests every URL, in order |
| TaxiData.TwoMonthExample | taxi_data.py:114-118 | January and February 2023 of the yellow data, fresh and complete, return both paths in order after one request each |
| TaxiData.DefaultDirCreatable | taxi_data.py:14-43 | the default directory "data" has nothing above it, so only a file named "data" makes its mkdir fail |
| TaxiData.FreshAfterMkdir | taxi_data.py:42-55 | creating the output directory and those above it puts nothing at a month's path |
| Variants.CopiesAgreeOnValidInput | taxi_data.py:30-43 | on arguments that pass validation the two copies behave identically |
| Variants.CopiesDifferOnInvalidInput | taxi_etl/get_data.py:40-49 | on invalid arguments both raise the same ValueError with no request, but only `taxi_etl/get_data.py` leaves the directory behind |
| Variants.ErrorPrecedence | taxi_data.py:30-43 | with a file in the way and an invalid type, `taxi_etl/get_data.py` raises the OSError and `taxi_data.py` the type ValueError |
| Variants.FileAboveOutputDir | taxi_data.py:42-43 | a regular file "a" makes both copies raise the OSError for output directory "a/b", with the disk unchanged and no request |
| Variants.TaxiDataReturnsPlannedPaths | taxi_data.py:48-86 | a call of `taxi_data.py` that succeeds had valid arguments and returns an in-order subsequence of the planned paths, no longer than the months, each on disk |
| Variants.DownloadKeepsWellFormed | taxi_data.py:42-86 | neither copy ever leaves a path that is both a directory and a file |

## Left out

- HTTP is an oracle from URL to response: either a RequestException raised by the call, or a
  status code with the chunks the stream delivers and whether it then breaks. Headers,
  redirects and the 8192-byte chunk size are not modelled.
- tqdm progress bars, the content-length bookkeeping and all printing are presentation only.
  The model does not capture a malformed content-length header making `int()` raise.
- The default `output_dir=None` of `taxi_etl/get_data.py` resolves through
  `taxi_etl/paths.py`, which is not part of this model. The resolved directory is a parameter
  (`dataPath` for `get_data`).
- Paths are the directory, "/" and the file name. pathlib's normalisation (`.`, trailing
  separators, absolute names) is not modelled.
- Two OSErrors are modelled: `mkdir` with a regular file at the directory or above it, and
  `open` over a directory.
  Permissions, a full disk and other write failures are not. Both modelled errors end the
  batch.
- Status (cache hit, downloaded, skipped) is the model's own record of each month. The
  source keeps none: a failed month is simply missing from the returned list.
- `str.lower()` is ASCII lower-casing. Unicode case mapping is not modelled.
- A table is a row index plus rows. Column alignment and dtypes in `pd.concat`, and parquet
  decoding itself, are not modelled. `pd.read_parquet` is an oracle: one function decodes a
  file's contents, another reads a directory as a dataset. How pandas gathers a dataset from
  the parts under a directory is not modelled. Any exception either raises is a failed read.
- `months` is a sequence of integers. Arbitrary iterables and non-integer elements are not
  modelled.
- `view_data`, the `__main__` blocks' printing, `main.py`, `print_structure.py`,
  `taxi_etl/ui.py`, `taxi_etl/modal_app.py` and `ui_modal.py` are not part of this model.
