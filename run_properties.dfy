/** Properties of the month loop, stated over its specification RunEntries
    (and so, through FetchMonths' postcondition, over the loop itself). The
    entries are arbitrary here: whatever names the months get, the loop
    behaves as stated. */
module RunProperties {
  import opened Common
  import opened Naming
  import opened Environment
  import opened Fetcher

  /** The cache path of each entry, in order. */
  function Paths(es: seq<Entry>): (ps: seq<Path>)
    ensures |ps| == |es| && forall i :: 0 <= i < |es| ==> ps[i] == es[i].path
  {
    seq(|es|, i requires 0 <= i < |es| => es[i].path)
  }

  /** The URL of each entry, in order. */
  function Urls(es: seq<Entry>): (us: seq<Url>)
    ensures |us| == |es| && forall i :: 0 <= i < |es| ==> us[i] == es[i].url
  {
    seq(|es|, i requires 0 <= i < |es| => es[i].url)
  }

  lemma PlannedSnoc(es: seq<Entry>, e: Entry)
    ensures Paths(es + [e]) == Paths(es) + [e.path]
    ensures Urls(es + [e]) == Urls(es) + [e.url]
  {
  }

  /** The elements of xs whose flag is set, in their original order. */
  function Where<T>(xs: seq<T>, keep: seq<bool>): (r: seq<T>)
    requires |xs| == |keep|
    ensures |r| <= |xs|
    ensures (forall i :: 0 <= i < |keep| ==> keep[i]) ==> r == xs
    decreases |xs|
  {
    if xs == [] then []
    else
      assert xs == xs[..|xs| - 1] + [xs[|xs| - 1]];
      Where(xs[..|xs| - 1], keep[..|keep| - 1]) + (if keep[|keep| - 1] then [xs[|xs| - 1]] else [])
  }

  lemma WhereSnoc<T>(xs: seq<T>, keep: seq<bool>, x: T, b: bool)
    requires |xs| == |keep|
    ensures Where(xs + [x], keep + [b]) == Where(xs, keep) + (if b then [x] else [])
  {
    assert (xs + [x])[..|xs|] == xs;
    assert (keep + [b])[..|keep|] == keep;
  }

  /** Months whose path went into the result. */
  function Returned(st: seq<Status>): (k: seq<bool>)
    ensures |k| == |st|
    ensures forall i :: 0 <= i < |st| ==> k[i] == (st[i] != Skipped)
  {
    seq(|st|, i requires 0 <= i < |st| => st[i] != Skipped)
  }

  /** Months for which a request was made. */
  function Contacted(st: seq<Status>): (k: seq<bool>)
    ensures |k| == |st|
    ensures forall i :: 0 <= i < |st| ==> k[i] == (st[i] != Cached)
  {
    seq(|st|, i requires 0 <= i < |st| => st[i] != Cached)
  }

  lemma FlagsSnoc(st: seq<Status>, x: Status)
    ensures Returned(st + [x]) == Returned(st) + [x != Skipped]
    ensures Contacted(st + [x]) == Contacted(st) + [x != Cached]
  {
  }

  function AllCached(n: nat): (st: seq<Status>)
    ensures |st| == n && forall i :: 0 <= i < n ==> st[i] == Cached
  {
    seq(n, _ => Cached)
  }

  /** The shape of a run over es: the result is the paths of exactly the
      months that did not fail, in input order; a request was made for
      exactly the months that were not cache hits; if an OSError aborted the
      batch, this holds for the months before it, and the aborting month's
      URL was the last request. */
  ghost predicate Shaped(r: Run, es: seq<Entry>) {
    && |r.statuses| <= |es|
    && r.paths == Where(Paths(es[..|r.statuses|]), Returned(r.statuses))
    && (!r.aborted ==> |r.statuses| == |es| && r.requested == Where(Urls(es), Contacted(r.statuses)))
    && (r.aborted ==> |r.statuses| < |es| &&
                      r.requested == Where(Urls(es[..|r.statuses|]), Contacted(r.statuses)) + [es[|r.statuses|].url])
  }

  /** An aborted run keeps its shape when the plan grows. */
  lemma ShapeAfterAbort(r: Run, es: seq<Entry>, e: Entry)
    requires r.aborted && Shaped(r, es)
    ensures Shaped(r, es + [e])
  {
    var k := |r.statuses|;
    assert (es + [e])[..k] == es[..k];
    assert (es + [e])[k] == es[k];
  }

  /** One month keeps the shape: what Apply adds to the result and to the
      requests is the month's path and URL, as its status says. */
  lemma ApplyShape(r: Run, e: Entry, s: Step, es: seq<Entry>)
    requires !r.aborted && Shaped(r, es)
    ensures Shaped(Apply(r, e, s), es + [e])
  {
    match s
    case OsError => AbortShape(r, e, es);
    case Done(st, d) => DoneShape(r, e, st, d, es);
  }

  /** An OSError adds only its URL to the requests. */
  lemma AbortShape(r: Run, e: Entry, es: seq<Entry>)
    requires !r.aborted && Shaped(r, es)
    ensures Shaped(Apply(r, e, OsError), es + [e])
  {
    var es' := es + [e];
    assert es'[..|es|] == es && es'[|es|] == e;
    assert es[..|es|] == es;
  }

  /** A month that ends adds its path when it was not skipped and its URL
      when it was not cached. */
  lemma DoneShape(r: Run, e: Entry, st: Status, d: Disk, es: seq<Entry>)
    requires !r.aborted && Shaped(r, es)
    ensures Shaped(Apply(r, e, Done(st, d)), es + [e])
  {
    var es' := es + [e];
    assert es[..|es|] == es && es'[..|es'|] == es';
    PlannedSnoc(es, e);
    FlagsSnoc(r.statuses, st);
    WhereSnoc(Paths(es), Returned(r.statuses), e.path, st != Skipped);
    WhereSnoc(Urls(es), Contacted(r.statuses), e.url, st != Cached);
  }

  /** A month that does not abort is the step FetchStep computes for it. */
  lemma AdvanceStep(r: Run, net: Network, e: Entry, force: bool)
    requires !r.aborted && !Advance(r, net, e, force).aborted
    ensures var r' := Advance(r, net, e, force);
      && r'.statuses == r.statuses + [r'.statuses[|r.statuses|]]
      && FetchStep(r.disk, net, e, force) == Done(r'.statuses[|r.statuses|], r'.disk)
  {
  }

  /** Every run has the shape of its plan (so its result is an in-order
      subsequence of the paths, no longer than the plan). */
  lemma {:induction false} RunShape(d0: Disk, net: Network, force: bool, es: seq<Entry>)
    ensures Shaped(RunEntries(d0, net, force, es), es)
    decreases |es|
  {
    if es == [] {
      assert es[..0] == [];
    } else {
      var init, e := es[..|es| - 1], es[|es| - 1];
      assert es == init + [e];
      RunShape(d0, net, force, init);
      var r0 := RunEntries(d0, net, force, init);
      if r0.aborted {
        ShapeAfterAbort(r0, init, e);
      } else {
        ApplyShape(r0, e, FetchStep(r0.disk, net, e, force), init);
      }
    }
  }

  /** One month leaves the directories alone, removes nothing, can add
      only its own file, and appends its path only when that path exists. */
  lemma AdvanceFrame(r: Run, net: Network, e: Entry, force: bool)
    ensures var r' := Advance(r, net, e, force);
      && r'.disk.dirs == r.disk.dirs
      && (forall p :: OnDisk(r.disk, p) ==> OnDisk(r'.disk, p))
      && (forall p :: p in r'.disk.files ==> p in r.disk.files || p == e.path)
      && (r'.paths == r.paths || (r'.paths == r.paths + [e.path] && OnDisk(r'.disk, e.path)))
      && (WellFormed(r.disk) ==> WellFormed(r'.disk))
  {
    FetchStepFrame(r.disk, net, e, force);
  }

  /** A run leaves the directories alone, never removes anything, and every
      path it returns exists afterwards; the only files it can create are
      the entries' paths, and a well-formed disk stays well formed. */
  lemma {:induction false} RunPreserves(d0: Disk, net: Network, force: bool, es: seq<Entry>)
    ensures var r := RunEntries(d0, net, force, es);
      && r.disk.dirs == d0.dirs
      && (forall p :: OnDisk(d0, p) ==> OnDisk(r.disk, p))
      && (forall i :: 0 <= i < |r.paths| ==> OnDisk(r.disk, r.paths[i]))
      && (forall p :: p in r.disk.files ==> p in d0.files || p in Paths(es))
      && (WellFormed(d0) ==> WellFormed(r.disk))
    decreases |es|
  {
    if es != [] {
      var init, e := es[..|es| - 1], es[|es| - 1];
      RunPreserves(d0, net, force, init);
      AdvanceFrame(RunEntries(d0, net, force, init), net, e, force);
      PlannedSnoc(init, e);
      assert es == init + [e];
    }
  }

  /** With every file already present and no forcing, the run makes no
      request, changes nothing, and returns every path. */
  lemma {:induction false} AllCachedRun(d0: Disk, net: Network, es: seq<Entry>)
    requires forall i :: 0 <= i < |es| ==> OnDisk(d0, es[i].path)
    ensures RunEntries(d0, net, false, es) == Run(d0, [], Paths(es), AllCached(|es|), false)
    decreases |es|
  {
    if es != [] {
      var init, e := es[..|es| - 1], es[|es| - 1];
      AllCachedRun(d0, net, init);
      AdvanceCacheHit(RunEntries(d0, net, false, init), net, e, false);
      PlannedSnoc(init, e);
      assert es == init + [e];
      assert AllCached(|es|) == AllCached(|init|) + [Cached];
    }
  }

  /** A month whose file is absent and whose download completes. */
  predicate FreshDownload(d: Disk, net: Network, e: Entry) {
    && !OnDisk(d, e.path)
    && net(e.url).Response? && !RaisesForStatus(net(e.url).status) && net(e.url).complete
  }

  /** When no file exists yet, every download completes and the entries
      have distinct paths, the run requests every URL and returns every
      path, in order. */
  lemma {:induction false} AllFreshRun(d0: Disk, net: Network, force: bool, es: seq<Entry>)
    requires forall i :: 0 <= i < |es| ==> FreshDownload(d0, net, es[i])
    requires forall i, j :: 0 <= i < j < |es| ==> es[i].path != es[j].path
    ensures var r := RunEntries(d0, net, force, es);
      && !r.aborted
      && r.paths == Paths(es)
      && r.requested == Urls(es)
    decreases |es|
  {
    if es != [] {
      var init, e := es[..|es| - 1], es[|es| - 1];
      assert es == init + [e];
      AllFreshRun(d0, net, force, init);
      var r0 := RunEntries(d0, net, force, init);
      RunPreserves(d0, net, force, init);
      assert e.path !in Paths(init);
      PlannedSnoc(init, e);
      AdvanceWrite(r0, net, e, force);
    }
  }

  /** Idempotence: after a run in which no month failed, running the same
      entries again without forcing makes no request at all (whatever the
      network would answer), changes nothing, and returns the same paths,
      every month a cache hit. */
  lemma RerunIsCached(d0: Disk, net: Network, net2: Network, force: bool, es: seq<Entry>)
    requires var r := RunEntries(d0, net, force, es);
      !r.aborted && forall i :: 0 <= i < |r.statuses| ==> r.statuses[i] != Skipped
    ensures var r := RunEntries(d0, net, force, es);
      RunEntries(r.disk, net2, false, es) == Run(r.disk, [], r.paths, AllCached(|es|), false)
  {
    var r := RunEntries(d0, net, force, es);
    RunShape(d0, net, force, es);
    RunPreserves(d0, net, force, es);
    assert es[..|r.statuses|] == es;
    assert r.paths == Paths(es);
    AllCachedRun(r.disk, net2, es);
  }

  /** The run over a prefix of the entries is the beginning of the whole run. */
  lemma {:induction false} PrefixRun(d0: Disk, net: Network, force: bool, es: seq<Entry>, k: nat)
    requires k <= |es| && !RunEntries(d0, net, force, es).aborted
    ensures var rk := RunEntries(d0, net, force, es[..k]);
      !rk.aborted && rk.statuses == RunEntries(d0, net, force, es).statuses[..k]
    decreases |es| - k
  {
    if k < |es| {
      var all := RunEntries(d0, net, force, es).statuses;
      var pre, next := es[..k], es[..k + 1];
      PrefixRun(d0, net, force, es, k + 1);
      RunPrefixStep(d0, net, force, es, k);
      var r := RunEntries(d0, net, force, pre);
      assert RunEntries(d0, net, force, next) == Advance(r, net, es[k], force);
      StepBack(r, net, es[k], force, all, k);
    } else {
      assert es[..k] == es;
    }
  }

  lemma StepBack(r: Run, net: Network, e: Entry, force: bool, all: seq<Status>, k: nat)
    requires k < |all|
    requires !Advance(r, net, e, force).aborted && Advance(r, net, e, force).statuses == all[..k + 1]
    ensures !r.aborted && r.statuses == all[..k]
  {
    AdvanceStep(r, net, e, force);
    assert all[..k + 1][..k] == all[..k];
  }

  /** Month k is fetched against the disk left by the months before it. */
  lemma StatusAt(d0: Disk, net: Network, force: bool, es: seq<Entry>, k: nat)
    requires k < |es| && !RunEntries(d0, net, force, es).aborted
    ensures var r := RunEntries(d0, net, force, es);
      FetchStep(RunEntries(d0, net, force, es[..k]).disk, net, es[k], force)
      == Done(r.statuses[k], RunEntries(d0, net, force, es[..k + 1]).disk)
  {
    PrefixRun(d0, net, force, es, k);
    PrefixRun(d0, net, force, es, k + 1);
    RunPrefixStep(d0, net, force, es, k);
    AdvanceStep(RunEntries(d0, net, force, es[..k]), net, es[k], force);
  }

  /** What is on disk after k1 months is still there after k2 >= k1 months. */
  lemma {:induction false} DiskGrows(d0: Disk, net: Network, force: bool, es: seq<Entry>, k1: nat, k2: nat, p: Path)
    requires k1 <= k2 <= |es|
    requires OnDisk(RunEntries(d0, net, force, es[..k1]).disk, p)
    ensures OnDisk(RunEntries(d0, net, force, es[..k2]).disk, p)
    decreases k2
  {
    if k1 < k2 {
      DiskGrows(d0, net, force, es, k1, k2 - 1, p);
      RunPrefixStep(d0, net, force, es, k2 - 1);
      AdvanceFrame(RunEntries(d0, net, force, es[..k2 - 1]), net, es[k2 - 1], force);
    }
  }

  /** Repeated months are not deduplicated: without forcing, a later month
      with the same path (the same month again) is a cache hit, with no
      request, once an earlier one returned its path. */
  lemma RepeatedMonthIsCached(d0: Disk, net: Network, es: seq<Entry>, i: nat, j: nat)
    requires i < j < |es| && es[i].path == es[j].path
    requires !RunEntries(d0, net, false, es).aborted
    requires RunEntries(d0, net, false, es).statuses[i] != Skipped
    ensures RunEntries(d0, net, false, es).statuses[j] == Cached
  {
    StatusAt(d0, net, false, es, i);
    DiskGrows(d0, net, false, es, i + 1, j, es[i].path);
    StatusAt(d0, net, false, es, j);
  }

  /** With force_download, every month is requested, existing files or not. */
  lemma ForcedRunRequestsEveryMonth(d0: Disk, net: Network, es: seq<Entry>)
    requires !RunEntries(d0, net, true, es).aborted
    ensures RunEntries(d0, net, true, es).requested == Urls(es)
  {
    var r := RunEntries(d0, net, true, es);
    RunShape(d0, net, true, es);
    forall k | 0 <= k < |es|
      ensures Contacted(r.statuses)[k]
    {
      StatusAt(d0, net, true, es, k);
    }
  }

  /** A stream that breaks after some chunks leaves that partial file at the
      cache path: the month is left out of the result, but a repeat of the
      same month later in the batch (and any later run without forcing)
      takes the partial file as a cache hit. */
  lemma InterruptedDownloadIsLaterCached(d0: Disk, net: Network, e: Entry)
    requires !OnDisk(d0, e.path)
    requires net(e.url).Response? && !RaisesForStatus(net(e.url).status) && !net(e.url).complete
    ensures var r := RunEntries(d0, net, false, [e, e]);
      && r.statuses == [Skipped, Cached]
      && r.paths == [e.path]
      && r.requested == [e.url]
      && e.path in r.disk.files && r.disk.files[e.path] == Flatten(net(e.url).chunks)
  {
    RunSnoc(d0, net, false, [], e);
    assert [] + [e] == [e];
    var r1 := RunEntries(d0, net, false, [e]);
    AdvanceWrite(Run(d0, [], [], [], false), net, e, false);
    FlattenNonEmpty(net(e.url).chunks);
    RunSnoc(d0, net, false, [e], e);
    assert [e] + [e] == [e, e];
    AdvanceCacheHit(r1, net, e, false);
  }

  /** xs keeps some of the elements of ys, in their order. */
  ghost predicate IsSubsequence<T>(xs: seq<T>, ys: seq<T>) {
    exists keep: seq<bool> :: |keep| == |ys| && xs == Where(ys, keep)
  }

  /** A batch that ends without an OSError returns an in-order subsequence
      of the paths, no longer than the list of entries, and every path it
      returns is on disk afterwards. */
  lemma FinishShape(d0: Disk, net: Network, force: bool, es: seq<Entry>)
    ensures var o := Finish(RunEntries(d0, net, force, es));
      o.result.Ok? ==>
        && IsSubsequence(o.result.value, Paths(es))
        && |o.result.value| <= |es|
        && forall i :: 0 <= i < |o.result.value| ==> OnDisk(o.disk, o.result.value[i])
  {
    var r := RunEntries(d0, net, force, es);
    RunShape(d0, net, force, es);
    RunPreserves(d0, net, force, es);
    if !r.aborted {
      assert es[..|r.statuses|] == es;
    }
  }
}
