/** The month-by-month fetch-and-cache loop shared by both download routines.

    For each month, in input order: build the entry (name, URL, path); if the
    path exists and the download is not forced, record the path without any
    request (a cache hit); otherwise request the URL, and on success stream the
    non-empty chunks into the file and record the path. A RequestException
    (from the request, from raise_for_status or from the stream) is swallowed
    and the month is left out; an OSError on opening the file aborts the batch.

    RunEntries is the specification of the loop over the months' entries,
    FetchMonths the loop itself. */
module Fetcher {
  import opened Common
  import opened Naming
  import opened Environment

  /** The arguments the loop holds fixed. */
  datatype Job = Job(dataType: string, year: int, dir: Path, force: bool)

  function EntryOf(job: Job, month: int): (e: Entry) {
    EntryFor(job.dataType, job.year, month, job.dir)
  }

  /** The template for the months of one call. */
  function Namer(job: Job): (entryOf: int -> Entry) {
    month => EntryOf(job, month)
  }

  /** The entry of each month, in input order. */
  function Entries(entryOf: int -> Entry, months: seq<int>): (es: seq<Entry>)
    ensures |es| == |months|
    ensures forall i :: 0 <= i < |months| ==> es[i] == entryOf(months[i])
    decreases |months|
  {
    if months == [] then [] else Entries(entryOf, months[..|months| - 1]) + [entryOf(months[|months| - 1])]
  }

  /** The names, URLs and paths the loop works through for one call. */
  function Plan(job: Job, months: seq<int>): (es: seq<Entry>)
    ensures |es| == |months|
    ensures forall i :: 0 <= i < |months| ==> es[i] == EntryOf(job, months[i])
  {
    Entries(Namer(job), months)
  }

  /** What became of one month (a cache hit, a completed download, or a
      swallowed RequestException). The source keeps no such record; it is
      the model's account of which months made it into the result. */
  datatype Status = Cached | Downloaded | Skipped

  /** One month: either it finishes with a status and a new disk, or opening
      the file raises an OSError that ends the batch. */
  datatype Step = Done(status: Status, disk: Disk) | OsError

  /** The body of the loop for the month whose entry is e. */
  function FetchStep(d: Disk, net: Network, e: Entry, force: bool): (s: Step)
    // a cache hit exactly when the file exists and the download is not forced; it changes nothing
    ensures s.Done? && s.status == Cached <==> OnDisk(d, e.path) && !force
    ensures s.Done? && s.status == Cached ==> s.disk == d
    // no request failure and no error status lets a file be created
    ensures (!OnDisk(d, e.path) || force) && (net(e.url).RequestFailed? || RaisesForStatus(net(e.url).status))
            ==> s == Done(Skipped, d)
    // a completed download holds exactly the concatenated chunks
    ensures s.Done? && s.status == Downloaded ==>
              var resp := net(e.url);
              resp.Response? && !RaisesForStatus(resp.status) && resp.complete &&
              s.disk == d.(files := d.files[e.path := Flatten(resp.chunks)])
    // only a directory in the way of the file aborts
    ensures s.OsError? ==> e.path in d.dirs
    // a recorded path exists
    ensures s.Done? && s.status != Skipped ==> OnDisk(s.disk, e.path)
  {
    if OnDisk(d, e.path) && !force then Done(Cached, d)
    else
      match net(e.url)
      case RequestFailed => Done(Skipped, d)
      case Response(status, chunks, complete) =>
        if RaisesForStatus(status) then Done(Skipped, d)
        else if e.path in d.dirs then OsError
        else
          FlattenNonEmpty(chunks);
          var written := d.(files := d.files[e.path := Flatten(NonEmpty(chunks))]);
          Done(if complete then Downloaded else Skipped, written)
  }

  /** The frame of one month: directories are untouched, nothing
      disappears, the month's file is the only one that can appear, and a
      well-formed disk stays well formed. */
  lemma FetchStepFrame(d: Disk, net: Network, e: Entry, force: bool)
    ensures var s := FetchStep(d, net, e, force);
      s.Done? ==>
        && s.disk.dirs == d.dirs
        && (forall p :: OnDisk(d, p) ==> OnDisk(s.disk, p))
        && (forall p :: p in s.disk.files ==> p in d.files || p == e.path)
        && (WellFormed(d) ==> WellFormed(s.disk))
  {
  }

  /** The state of the loop after some months: the disk, the URLs requested,
      the paths appended to `downloaded_files`, the status of each month
      processed, and whether an OSError ended the batch. */
  datatype Run = Run(disk: Disk, requested: seq<Url>, paths: seq<Path>, statuses: seq<Status>, aborted: bool)

  /** The run after a month that ended with step s, for entry e. */
  function Apply(r: Run, e: Entry, s: Step): (r': Run) {
    match s
    case OsError => r.(requested := r.requested + [e.url], aborted := true)
    case Done(st, d) =>
      Run(d,
          if st == Cached then r.requested else r.requested + [e.url],
          if st == Skipped then r.paths else r.paths + [e.path],
          r.statuses + [st],
          false)
  }

  /** One more month of the loop. */
  function Advance(r: Run, net: Network, e: Entry, force: bool): (r': Run)
    ensures r.aborted ==> r' == r
    ensures |r'.statuses| == |r.statuses| + (if r'.aborted then 0 else 1)
  {
    if r.aborted then r
    else Apply(r, e, FetchStep(r.disk, net, e, force))
  }

  /** The loop over the entries es, starting from disk d0. */
  function RunEntries(d0: Disk, net: Network, force: bool, es: seq<Entry>): (r: Run)
    ensures |r.statuses| <= |es|
    ensures !r.aborted <==> |r.statuses| == |es|
    decreases |es|
  {
    if es == [] then Run(d0, [], [], [], false)
    else Advance(RunEntries(d0, net, force, es[..|es| - 1]), net, es[|es| - 1], force)
  }

  /** The loop over `months`: the entries of the plan, in order. */
  function RunMonths(d0: Disk, net: Network, job: Job, months: seq<int>): (r: Run) {
    RunEntries(d0, net, job.force, Plan(job, months))
  }

  lemma RunSnoc(d0: Disk, net: Network, force: bool, es: seq<Entry>, e: Entry)
    ensures RunEntries(d0, net, force, es + [e]) == Advance(RunEntries(d0, net, force, es), net, e, force)
  {
    assert (es + [e])[..|es|] == es;
  }

  lemma RunPrefixStep(d0: Disk, net: Network, force: bool, es: seq<Entry>, i: nat)
    requires i < |es|
    ensures RunEntries(d0, net, force, es[..i + 1]) == Advance(RunEntries(d0, net, force, es[..i]), net, es[i], force)
  {
    assert es[..i + 1] == es[..i] + [es[i]];
    RunSnoc(d0, net, force, es[..i], es[i]);
  }

  /** Once the batch is aborted, later months change nothing. */
  lemma {:induction false} RunAfterAbort(d0: Disk, net: Network, force: bool, es: seq<Entry>, k: nat)
    requires k <= |es| && RunEntries(d0, net, force, es[..k]).aborted
    ensures RunEntries(d0, net, force, es) == RunEntries(d0, net, force, es[..k])
    decreases |es|
  {
    if k < |es| {
      var init := es[..|es| - 1];
      assert init[..k] == es[..k];
      RunAfterAbort(d0, net, force, init, k);
    } else {
      assert es[..k] == es;
    }
  }

  // One lemma per way a month can end, each giving the next run outright.

  lemma AdvanceCacheHit(r: Run, net: Network, e: Entry, force: bool)
    requires !r.aborted && OnDisk(r.disk, e.path) && !force
    ensures Advance(r, net, e, force) == r.(paths := r.paths + [e.path], statuses := r.statuses + [Cached])
  {
  }

  lemma AdvanceRequestError(r: Run, net: Network, e: Entry, force: bool)
    requires !r.aborted && !(OnDisk(r.disk, e.path) && !force)
    requires net(e.url).RequestFailed? || RaisesForStatus(net(e.url).status)
    ensures Advance(r, net, e, force) == r.(requested := r.requested + [e.url], statuses := r.statuses + [Skipped])
  {
  }

  lemma AdvanceDirectoryInTheWay(r: Run, net: Network, e: Entry, force: bool)
    requires !r.aborted && !(OnDisk(r.disk, e.path) && !force)
    requires net(e.url).Response? && !RaisesForStatus(net(e.url).status)
    requires e.path in r.disk.dirs
    ensures Advance(r, net, e, force) == r.(requested := r.requested + [e.url], aborted := true)
  {
  }

  lemma AdvanceWrite(r: Run, net: Network, e: Entry, force: bool)
    requires !r.aborted && !(OnDisk(r.disk, e.path) && !force)
    requires net(e.url).Response? && !RaisesForStatus(net(e.url).status)
    requires e.path !in r.disk.dirs
    ensures var resp := net(e.url);
      Advance(r, net, e, force)
      == Run(r.disk.(files := r.disk.files[e.path := Flatten(NonEmpty(resp.chunks))]),
             r.requested + [e.url],
             if resp.complete then r.paths + [e.path] else r.paths,
             r.statuses + [if resp.complete then Downloaded else Skipped],
             false)
  {
  }

  // ---------------------------------------------------------------------
  // The loop itself

  /** The `for chunk in response.iter_content(...)` loop: only non-empty
      chunks are written. */
  method StreamChunks(fs: FileSystem, p: Path, chunks: seq<Bytes>)
    requires p in fs.files && fs.files[p] == []
    modifies fs
    ensures fs.dirs == old(fs.dirs)
    ensures fs.files == old(fs.files)[p := Flatten(NonEmpty(chunks))]
  {
    for k := 0 to |chunks|
      invariant fs.dirs == old(fs.dirs)
      invariant fs.files == old(fs.files)[p := Flatten(NonEmpty(chunks[..k]))]
    {
      assert chunks[..k + 1][..k] == chunks[..k];
      assert NonEmpty(chunks[..k + 1]) == NonEmpty(chunks[..k]) + (if chunks[k] == [] then [] else [chunks[k]]);
      ghost var before := Flatten(NonEmpty(chunks[..k]));
      if |chunks[k]| > 0 {
        fs.Write(p, chunks[k]);
        FlattenSnoc(NonEmpty(chunks[..k]), chunks[k]);
        assert fs.files == old(fs.files)[p := before + chunks[k]];
      } else {
        assert NonEmpty(chunks[..k + 1]) == NonEmpty(chunks[..k]);
      }
    }
    assert chunks[..|chunks|] == chunks;
  }

  /** The body of the month loop for the month whose entry is e: the cache
      check, then the request. It takes the loop from run r to the next
      run; `appended` tells whether the path goes into the result, `failed`
      whether an OSError ends the batch. */
  method FetchEntry(fs: FileSystem, server: Server, e: Entry, force: bool, ghost r: Run, ghost log0: seq<Url>)
    returns (appended: bool, failed: bool)
    requires !r.aborted && fs.Snapshot() == r.disk && server.log == log0 + r.requested
    modifies fs, server
    ensures var r' := Advance(r, server.responses, e, force);
      && failed == r'.aborted
      && server.log == log0 + r'.requested
      && fs.Snapshot() == r'.disk
      && r'.paths == r.paths + (if appended then [e.path] else [])
  {
    if fs.Exists(e.path) && !force {
      AdvanceCacheHit(r, server.responses, e, force);
      return true, false;
    }
    appended, failed := Retrieve(fs, server, e, force, r, log0);
  }

  /** The `try` block: the request, the status check and the streamed
      write, with a RequestException swallowed. */
  method Retrieve(fs: FileSystem, server: Server, e: Entry, force: bool, ghost r: Run, ghost log0: seq<Url>)
    returns (appended: bool, failed: bool)
    requires !r.aborted && fs.Snapshot() == r.disk && server.log == log0 + r.requested
    requires !(OnDisk(r.disk, e.path) && !force)
    modifies fs, server
    ensures var r' := Advance(r, server.responses, e, force);
      && failed == r'.aborted
      && server.log == log0 + r'.requested
      && fs.Snapshot() == r'.disk
      && r'.paths == r.paths + (if appended then [e.path] else [])
  {
    var response := server.Get(e.url);
    if response.RequestFailed? || RaisesForStatus(response.status) {
      AdvanceRequestError(r, server.responses, e, force);
      return false, false;
    }
    ghost var files0 := fs.files;
    var writable := fs.OpenForWrite(e.path);
    if !writable {
      AdvanceDirectoryInTheWay(r, server.responses, e, force);
      return false, true;
    }
    StreamChunks(fs, e.path, response.chunks);
    ghost var written := Flatten(NonEmpty(response.chunks));
    assert fs.files == files0[e.path := written] by {
      assert files0[e.path := []][e.path := written] == files0[e.path := written];
    }
    AdvanceWrite(r, server.responses, e, force);
    return response.complete, false;
  }

  /** The month loop of `download_nyc_taxi_data`, after validation: build
      each month's entry with `entryOf`, then fetch it. */
  method FetchMonths(fs: FileSystem, server: Server, entryOf: int -> Entry, force: bool, months: seq<int>)
    returns (paths: seq<Path>, aborted: bool)
    modifies fs, server
    ensures var r := RunEntries(old(fs.Snapshot()), server.responses, force, Entries(entryOf, months));
      && paths == r.paths && aborted == r.aborted
      && fs.Snapshot() == r.disk
      && server.log == old(server.log) + r.requested
  {
    ghost var d0, log0, net := fs.Snapshot(), server.log, server.responses;
    ghost var plan := Entries(entryOf, months);
    ghost var run := RunEntries(d0, net, force, []);
    paths, aborted := [], false;
    var i := 0;
    // an OSError leaves the loop at once; the other months go on
    while i < |months| && !aborted
      invariant 0 <= i <= |months|
      invariant run == RunEntries(d0, net, force, plan[..i])
      invariant aborted == run.aborted && paths == run.paths
      invariant fs.Snapshot() == run.disk && server.log == log0 + run.requested
    {
      var e := entryOf(months[i]);
      RunPrefixStep(d0, net, force, plan, i);
      var appended, failed := FetchEntry(fs, server, e, force, run, log0);
      run := Advance(run, net, e, force);
      if appended {
        paths := paths + [e.path];
      }
      aborted := failed;
      i := i + 1;
    }
    if aborted {
      RunAfterAbort(d0, net, force, plan, i);
    } else {
      assert plan[..i] == plan;
    }
  }

  // ---------------------------------------------------------------------
  // Validation of the months

  predicate AllValidMonths(months: seq<int>) {
    forall i :: 0 <= i < |months| ==> ValidMonth(months[i])
  }

  /** `for month in months: if month < 1 or month > 12: raise ValueError`:
      true when no month raises. */
  method CheckMonths(months: seq<int>) returns (ok: bool)
    ensures ok <==> AllValidMonths(months)
    ensures !ok ==> exists i :: 0 <= i < |months| && (months[i] < 1 || months[i] > 12)
  {
    for i := 0 to |months|
      invariant forall j :: 0 <= j < i ==> ValidMonth(months[j])
    {
      if months[i] < 1 || months[i] > 12 {
        return false;
      }
    }
    return true;
  }

  /** `list(range(lo, hi))` */
  function Range(lo: int, hi: int): (r: seq<int>)
    ensures |r| == if lo <= hi then hi - lo else 0
    ensures forall i :: 0 <= i < |r| ==> r[i] == lo + i
  {
    if lo < hi then seq(hi - lo, i requires 0 <= i < hi - lo => lo + i) else []
  }

  /** `list(range(1, 13))`: every month, each once, in ascending order. */
  function AllMonths(): (ms: seq<int>)
    ensures |ms| == 12 && AllValidMonths(ms)
    ensures forall m :: ValidMonth(m) <==> m in ms
    ensures forall i, j :: 0 <= i < j < |ms| ==> ms[i] < ms[j]
  {
    var ms := Range(1, 13);
    assert forall m :: ValidMonth(m) ==> ms[m - 1] == m;
    ms
  }

  /** The months a call processes: the list given, or all twelve when
      `months` is None. */
  function MonthsOf(months: Option<seq<int>>): (ms: seq<int>)
    ensures months.Some? ==> ms == months.value
    ensures months.None? ==> |ms| == 12 && forall i :: 0 <= i < 12 ==> ms[i] == i + 1
  {
    if months.None? then AllMonths() else months.value
  }

  /** What a download routine reports, with its effects. */
  datatype Outcome = Outcome(result: Result<seq<Path>>, disk: Disk, requested: seq<Url>)

  /** The end of a run: the paths, or the OSError that aborted it. */
  function Finish(r: Run): (o: Outcome) {
    Outcome(if r.aborted then Err(OSError) else Ok(r.paths), r.disk, r.requested)
  }
}
