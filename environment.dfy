/** The outside world the download routine touches: the local filesystem
    (a set of directories and a map from file paths to contents) and the
    network (a fixed response per URL, with a log of the requests made). */
module Environment {
  import opened Common

  /** The filesystem as a value. */
  datatype Disk = Disk(dirs: set<Path>, files: map<Path, Bytes>)

  /** A real filesystem never has a path that is both a directory and a file. */
  predicate WellFormed(d: Disk) {
    d.dirs !! d.files.Keys
  }

  /** `Path(p).exists()`: true for a file and for a directory alike. */
  predicate OnDisk(d: Disk, p: Path) {
    p in d.dirs || p in d.files
  }

  /** `q` names a directory above `p`: a non-empty part of `p` that ends
      just before one of its separators. */
  predicate IsAncestor(q: Path, p: Path) {
    0 < |q| < |p| && p[..|q|] == q && p[|q|] == '/'
  }

  /** The directories above `dir`, which `mkdir(parents=True)` creates when
      they are missing. */
  function Ancestors(dir: Path): (a: set<Path>)
    ensures forall q :: q in a <==> IsAncestor(q, dir)
  {
    set i | 0 < i < |dir| && dir[i] == '/' :: dir[..i]
  }

  /** `mkdir(parents=True, exist_ok=True)` raises: a regular file sits at the
      directory itself (FileExistsError) or at one of the directories above
      it (NotADirectoryError). */
  predicate MkdirFails(d: Disk, dir: Path) {
    dir in d.files || exists q :: q in Ancestors(dir) && q in d.files
  }

  /** The disk after a successful `mkdir(parents=True, exist_ok=True)`: the
      directory and every directory above it exist. */
  function WithDirs(d: Disk, dir: Path): (d': Disk)
    ensures d'.files == d.files
    ensures d'.dirs == d.dirs + {dir} + Ancestors(dir)
  {
    d.(dirs := d.dirs + {dir} + Ancestors(dir))
  }

  /** What `requests.get(url, stream=True)` yields. RequestFailed is a
      RequestException raised by the call itself (connection error, timeout,
      invalid URL). A Response carries the status code and the chunks that
      `iter_content` delivers; when `complete` is false the stream raises a
      RequestException after the last of those chunks. */
  datatype Response = RequestFailed | Response(status: int, chunks: seq<Bytes>, complete: bool)

  type Network = Url -> Response

  /** `raise_for_status()` raises for client and server error codes. */
  predicate RaisesForStatus(status: int) {
    400 <= status < 600
  }

  /** A successful mkdir keeps a well-formed disk well formed: nothing it
      creates is a file. */
  lemma MkdirKeepsWellFormed(d: Disk, dir: Path)
    requires WellFormed(d) && !MkdirFails(d, dir)
    ensures WellFormed(WithDirs(d, dir))
  {
  }

  /** A name without a separator has no directory above it. */
  lemma NoSeparatorNoAncestors(dir: Path)
    requires forall i :: 0 <= i < |dir| ==> dir[i] != '/'
    ensures Ancestors(dir) == {}
  {
    assert forall q :: IsAncestor(q, dir) ==> dir[|q|] == '/';
  }

  /** A regular file "a" stops `mkdir -p a/b`, though "a/b" itself is free. */
  lemma FileAboveBlocksMkdir()
    ensures MkdirFails(Disk({}, map["a" := []]), "a/b")
  {
    assert "a/b"[..1] == "a";
    assert IsAncestor("a", "a/b");
    var d := Disk({}, map["a" := []]);
    assert "a" in Ancestors("a/b") && "a" in d.files;
  }

  /** The local filesystem, updated in place. */
  class FileSystem {
    var dirs: set<Path>
    var files: map<Path, Bytes>

    constructor (d: Disk)
      ensures Snapshot() == d
    {
      dirs := d.dirs;
      files := d.files;
    }

    function Snapshot(): (d: Disk)
      reads this
    {
      Disk(dirs, files)
    }

    function Exists(p: Path): (b: bool)
      reads this
      ensures b <==> OnDisk(Snapshot(), p)
    {
      p in dirs || p in files
    }

    /** `mkdir(parents=True, exist_ok=True)`: succeeds unless a file is in
        the way of the directory or of a directory above it; on success it
        creates whichever of them are missing. */
    method MakeDirs(dir: Path) returns (ok: bool)
      modifies this
      ensures ok <==> !MkdirFails(old(Snapshot()), dir)
      ensures files == old(files)
      ensures dirs == if ok then old(dirs) + {dir} + Ancestors(dir) else old(dirs)
    {
      var above := Ancestors(dir);
      ok := dir !in files && forall q | q in above :: q !in files;
      if ok {
        dirs := dirs + {dir} + above;
      }
    }

    /** `open(p, 'wb')`: creates or truncates the file; fails on a directory
        (IsADirectoryError). */
    method OpenForWrite(p: Path) returns (ok: bool)
      modifies this
      ensures ok <==> p !in old(dirs)
      ensures dirs == old(dirs)
      ensures files == if ok then old(files)[p := []] else old(files)
    {
      ok := p !in dirs;
      if ok {
        files := files[p := []];
      }
    }

    /** `f.write(chunk)` on an open file. */
    method Write(p: Path, chunk: Bytes)
      requires p in files
      modifies this
      ensures dirs == old(dirs)
      ensures files == old(files)[p := old(files)[p] + chunk]
    {
      files := files[p := files[p] + chunk];
    }
  }

  /** The network: each URL has one response; every request is logged. */
  class Server {
    const responses: Network
    var log: seq<Url>

    constructor (net: Network)
      ensures responses == net && log == []
    {
      responses := net;
      log := [];
    }

    method Get(url: Url) returns (r: Response)
      modifies this
      ensures r == responses(url)
      ensures log == old(log) + [url]
    {
      r := responses(url);
      log := log + [url];
    }
  }
}
