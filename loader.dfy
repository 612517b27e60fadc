/** `load_taxi_data`, identical in both copies: read each path as a table,
    skipping (and reporting) any path that fails to read, fail when no table
    was read, and otherwise concatenate the tables with a fresh row index.

    A table is a DataFrame reduced to its row index and its rows; reading is
    an oracle from a path to a table or a failure (any exception). On a disk,
    a file is read from its bytes and a directory as a partitioned dataset. */
module Loader {
  import opened Common
  import opened Environment

  datatype Frame<R> = Frame(index: seq<int>, rows: seq<R>)

  type Read<R> = Path -> Option<Frame<R>>

  /** How `pd.read_parquet` reads what it finds: `file` parses the contents
      of a regular file, and `dataset` reads a directory as a dataset of the
      parquet parts under it; either fails on what is not a table. */
  datatype Reader<R> = Reader(file: Bytes -> Option<Frame<R>>, dataset: Path -> Option<Frame<R>>)

  /** `pd.read_parquet` over a disk: a file is read from its contents, a
      directory as a dataset, and a missing path fails. */
  function ReadFrom<R>(d: Disk, reader: Reader<R>): (read: Read<R>)
    ensures forall p :: !OnDisk(d, p) ==> read(p).None?
  {
    p => if p in d.files then reader.file(d.files[p]) else if p in d.dirs then reader.dataset(p) else None
  }

  /** The tables that were read, in path order (the list `dfs`). */
  function Parsed<R>(paths: seq<Path>, read: Read<R>): (frames: seq<Frame<R>>)
    ensures |frames| <= |paths|
    decreases |paths|
  {
    if paths == [] then []
    else
      var frames := Parsed(paths[..|paths| - 1], read);
      match read(paths[|paths| - 1])
      case None => frames
      case Some(f) => frames + [f]
  }

  /** The rows of the tables, one table after the other. */
  function Rows<R>(frames: seq<Frame<R>>): (rows: seq<R>)
    decreases |frames|
  {
    if frames == [] then [] else Rows(frames[..|frames| - 1]) + frames[|frames| - 1].rows
  }

  /** 0, 1, ..., n - 1 */
  function FreshIndex(n: nat): (ix: seq<int>)
    ensures |ix| == n && forall i :: 0 <= i < n ==> ix[i] == i
  {
    seq(n, i => i)
  }

  /** `pd.concat(dfs, ignore_index=True)`: the rows in order, and an index
      that numbers them from zero whatever the tables' own indexes were. */
  function Concat<R>(frames: seq<Frame<R>>): (f: Frame<R>)
    ensures f.rows == Rows(frames)
    ensures |f.index| == |f.rows| && forall i :: 0 <= i < |f.index| ==> f.index[i] == i
  {
    Frame(FreshIndex(|Rows(frames)|), Rows(frames))
  }

  /** What `load_taxi_data` returns or raises. */
  function LoadResult<R>(paths: seq<Path>, read: Read<R>): (res: Result<Frame<R>>) {
    var frames := Parsed(paths, read);
    if frames == [] then Err(NoDataLoaded) else Ok(Concat(frames))
  }

  /** The loop of `load_taxi_data`. */
  method Load<R>(paths: seq<Path>, read: Read<R>) returns (res: Result<Frame<R>>)
    ensures res == LoadResult(paths, read)
  {
    var frames: seq<Frame<R>> := [];
    for i := 0 to |paths|
      invariant frames == Parsed(paths[..i], read)
    {
      assert paths[..i + 1][..i] == paths[..i];
      match read(paths[i]) {
        case Some(f) =>
          frames := frames + [f];
        case None =>
      }
    }
    assert paths[..|paths|] == paths;
    if frames == [] {
      res := Err(NoDataLoaded);
    } else {
      res := Ok(Concat(frames));
    }
  }

  // ---------------------------------------------------------------------
  // Properties

  lemma {:induction false} ParsedEmpty<R>(paths: seq<Path>, read: Read<R>)
    ensures Parsed(paths, read) == [] <==> forall i :: 0 <= i < |paths| ==> read(paths[i]).None?
    decreases |paths|
  {
    if paths != [] {
      var init := paths[..|paths| - 1];
      ParsedEmpty(init, read);
      assert forall i :: 0 <= i < |init| ==> init[i] == paths[i];
    }
  }

  /** The load fails exactly when no path could be read, which includes the
      empty list of paths. */
  lemma LoadFailsIffNothingRead<R>(paths: seq<Path>, read: Read<R>)
    ensures LoadResult(paths, read) == Err(NoDataLoaded) <==> forall i :: 0 <= i < |paths| ==> read(paths[i]).None?
    ensures LoadResult(paths, read).Err? ==> LoadResult(paths, read).error == NoDataLoaded
  {
    ParsedEmpty(paths, read);
  }

  lemma {:induction false} ParsedAppend<R>(p1: seq<Path>, p2: seq<Path>, read: Read<R>)
    ensures Parsed(p1 + p2, read) == Parsed(p1, read) + Parsed(p2, read)
    decreases |p2|
  {
    if p2 == [] {
      assert p1 + p2 == p1;
    } else {
      var init := p2[..|p2| - 1];
      ParsedAppend(p1, init, read);
      assert (p1 + p2)[..|p1 + p2| - 1] == p1 + init;
    }
  }

  lemma {:induction false} RowsAppend<R>(f1: seq<Frame<R>>, f2: seq<Frame<R>>)
    ensures Rows(f1 + f2) == Rows(f1) + Rows(f2)
    decreases |f2|
  {
    if f2 == [] {
      assert f1 + f2 == f1;
    } else {
      var init := f2[..|f2| - 1];
      RowsAppend(f1, init);
      assert (f1 + f2)[..|f1 + f2| - 1] == f1 + init;
    }
  }

  /** The tables are laid end to end: row k of table t becomes the row at
      position k plus the number of rows of the tables before t, and its
      index is that position, whatever index the table had. */
  lemma ConcatPlacesRows<R>(frames: seq<Frame<R>>, t: nat, k: nat)
    requires t < |frames| && k < |frames[t].rows|
    ensures var f, at := Concat(frames), |Rows(frames[..t])| + k;
      at < |f.rows| && f.rows[at] == frames[t].rows[k] && f.index[at] == at
  {
    var ft := frames[t];
    RowsAppend(frames[..t], frames[t..]);
    assert frames[..t] + frames[t..] == frames;
    RowsAppend([ft], frames[t + 1..]);
    assert [ft] + frames[t + 1..] == frames[t..];
    assert [ft][..0] == [];
    assert Rows([ft]) == ft.rows;
  }

  /** Loading a list is loading its two halves one after the other: the
      rows of the first part come first, and nothing is reordered. */
  lemma LoadAppend<R>(p1: seq<Path>, p2: seq<Path>, read: Read<R>)
    requires LoadResult(p1 + p2, read).Ok?
    ensures LoadResult(p1 + p2, read).value.rows == Rows(Parsed(p1, read)) + Rows(Parsed(p2, read))
  {
    ParsedAppend(p1, p2, read);
    RowsAppend(Parsed(p1, read), Parsed(p2, read));
  }

  /** A path that fails to read is skipped as if it were not in the list. */
  lemma UnreadableIsSkipped<R>(p1: seq<Path>, p: Path, p2: seq<Path>, read: Read<R>)
    requires read(p).None?
    ensures LoadResult(p1 + [p] + p2, read) == LoadResult(p1 + p2, read)
  {
    ParsedAppend(p1, [p], read);
    ParsedAppend(p1 + [p], p2, read);
    ParsedAppend(p1, p2, read);
    assert Parsed([p], read) == [] by {
      assert [p][..0] == [];
    }
  }

  /** A single readable file loads as its own rows, renumbered from zero. */
  lemma LoadOne<R>(p: Path, read: Read<R>)
    requires read(p).Some?
    ensures LoadResult([p], read) == Ok(Frame(FreshIndex(|read(p).value.rows|), read(p).value.rows))
  {
    assert [p][..0] == [];
    var f := read(p).value;
    assert Parsed([p], read) == [f];
    assert [f][..0] == [];
    assert Rows([f]) == f.rows;
  }

  /** On a disk, a path where nothing exists is skipped. */
  lemma MissingIsSkipped<R>(d: Disk, reader: Reader<R>, p1: seq<Path>, p: Path, p2: seq<Path>)
    requires !OnDisk(d, p)
    ensures LoadResult(p1 + [p] + p2, ReadFrom(d, reader)) == LoadResult(p1 + p2, ReadFrom(d, reader))
  {
    UnreadableIsSkipped(p1, p, p2, ReadFrom(d, reader));
  }

  /** On a disk, a directory in the list is loaded as a dataset when it
      reads as one: its rows come in its place among the others. */
  lemma DirectoryIsLoaded<R>(d: Disk, reader: Reader<R>, p1: seq<Path>, p: Path, p2: seq<Path>)
    requires p in d.dirs && p !in d.files && reader.dataset(p).Some?
    ensures var read := ReadFrom(d, reader);
      LoadResult(p1 + [p] + p2, read).Ok?
      && LoadResult(p1 + [p] + p2, read).value.rows
         == Rows(Parsed(p1, read)) + reader.dataset(p).value.rows + Rows(Parsed(p2, read))
  {
    var read := ReadFrom(d, reader);
    var f := reader.dataset(p).value;
    ParsedAppend(p1, [p], read);
    ParsedAppend(p1 + [p], p2, read);
    assert [p][..0] == [];
    assert Parsed([p], read) == [f];
    RowsAppend(Parsed(p1, read), [f]);
    RowsAppend(Parsed(p1, read) + [f], Parsed(p2, read));
    assert [f][..0] == [];
    assert Rows([f]) == f.rows;
  }
}
