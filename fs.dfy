/** An in-memory stand-in for the part of the operating system the cache talks to:
    a map from file paths to their bytes and a set of directories. A path is a sequence
    of segments; the empty path is the directory the cache's folder is relative to
    (the process's working directory, or the filesystem root), which always exists and
    is never created or removed. */
module Fs {

  newtype Byte = b: int | 0 <= b < 256
  type Bytes = seq<Byte>
  type Path = seq<string>

  /** The exceptions the cache sees: IOError from `open` and OSError from the `os` and
      `shutil` calls, plus the cache's own KeyError from a failed lookup (fscache.py:61).
      They share one type because the cache's operations pass the operating system's
      errors on to their caller unchanged, in the same result type as their own. */
  datatype Error = KeyError | IOError | OSError

  datatype Result<T> = Ok(value: T) | Err(error: Error)

  /** The directory a path lives in (`os.path.dirname`). */
  function Parent(p: Path): Path
  {
    if p == [] then [] else p[..|p| - 1]
  }

  /** `d` and every non-empty prefix of it: the directory chain `os.makedirs(d)` leaves behind. */
  function Lineage(d: Path): set<Path>
  {
    set j | 1 <= j <= |d| :: d[..j]
  }

  /** The directories of `d`'s chain strictly deeper than depth `m`. */
  function Below(d: Path, m: nat): set<Path>
  {
    set j | m < j <= |d| :: d[..j]
  }

  datatype FsState = FsState(files: map<Path, Bytes>, dirs: set<Path>) {

    predicate IsDir(p: Path)
    {
      p == [] || p in dirs
    }

    /** `os.path.exists`: a file or a directory is there. */
    predicate Exists(p: Path)
    {
      p in files || p in dirs
    }

    /** A well-formed tree: nothing is both a file and a directory, and whatever exists
        sits in a directory that exists. */
    ghost predicate Valid()
    {
      && [] !in files && [] !in dirs
      && (forall p :: p in files ==> p !in dirs)
      && (forall p :: p in files ==> IsDir(Parent(p)))
      && (forall d :: d in dirs ==> IsDir(Parent(d)))
    }

    /** A directory with no entries, the only kind `os.rmdir` removes. */
    predicate IsEmptyDir(d: Path)
    {
      && d in dirs
      && (forall p :: p in files ==> Parent(p) != d)
      && (forall q :: q in dirs ==> Parent(q) != d)
    }

    /** `open(p, 'rb').read()`: fails when there is no regular file at `p`. */
    function Read(p: Path): Result<Bytes>
    {
      if p in files then Ok(files[p]) else Err(IOError)
    }

    /** `open(p, 'wb').write(v)`: replaces the whole content; fails when the parent is not
        a directory or `p` is one. */
    function Write(p: Path, v: Bytes): Result<FsState>
    {
      if p != [] && IsDir(Parent(p)) && p !in dirs then Ok(FsState(files[p := v], dirs))
      else Err(IOError)
    }

    /** `os.remove(p)`: removes a file, fails on anything else. */
    function Remove(p: Path): Result<FsState>
    {
      if p in files then Ok(FsState(files - {p}, dirs)) else Err(OSError)
    }

    /** `os.rmdir(d)`: removes an empty directory, fails on anything else. */
    function Rmdir(d: Path): Result<FsState>
    {
      if IsEmptyDir(d) then Ok(FsState(files, dirs - {d})) else Err(OSError)
    }

    /** `os.makedirs(d)`: creates `d` with every missing ancestor; fails when `d` already
        exists or some ancestor of it is a file. */
    function MakeDirs(d: Path): Result<FsState>
    {
      if d == [] || Exists(d) || !(Lineage(Parent(d)) !! files.Keys) then Err(OSError)
      else Ok(FsState(files, dirs + Lineage(d)))
    }

    /** The loop of `os.removedirs` after its first `rmdir`: walk up from `d`, removing
        each empty directory, and stop at the first removal that fails. */
    function PruneUp(d: Path): (t: FsState)
      ensures t.files == files && t.dirs <= dirs
      ensures d != [] && IsEmptyDir(d) ==> d !in t.dirs
      decreases |d|
    {
      if d != [] && IsEmptyDir(d) then FsState(files, dirs - {d}).PruneUp(Parent(d)) else this
    }

    /** The depth at which `PruneUp(d)` stops: the length of the deepest prefix of `d`
        it leaves in place. */
    function PruneDepth(d: Path): nat
      decreases |d|
    {
      if d != [] && IsEmptyDir(d) then FsState(files, dirs - {d}).PruneDepth(Parent(d)) else |d|
    }

    /** `os.removedirs(d)`: the first `rmdir` may fail and raise; the upward walk never does. */
    function RemoveDirs(d: Path): (r: Result<FsState>)
      ensures r.Ok? <==> IsEmptyDir(d)
      ensures r.Ok? ==> r.value.files == files && r.value.dirs <= dirs - {d}
    {
      match Rmdir(d)
      case Err(e) => Err(e)
      case Ok(t) => Ok(t.PruneUp(Parent(d)))
    }

    /** `shutil.rmtree(d)`: removes the directory `d` and everything beneath it;
        fails when `d` is not a directory. */
    function RmTree(d: Path): Result<FsState>
    {
      if d in dirs then
        Ok(FsState(map p | p in files && !(d <= p) :: files[p], set q | q in dirs && !(d <= q)))
      else Err(OSError)
    }
  }

  /** How a state-changing call relates to the function that specifies it: on success the
      new state is the function's, on failure the call raises its error and changes nothing. */
  ghost predicate Applied(before: FsState, res: Result<FsState>, after: FsState, r: Result<()>)
  {
    match res
    case Ok(t) => r == Ok(()) && after == t
    case Err(e) => r == Err(e) && after == before
  }

  /** Everything that exists in a well-formed tree has all its ancestors as directories. */
  lemma {:induction false} AncestorsAreDirs(s: FsState, p: Path)
    requires s.Valid() && s.Exists(p)
    ensures Lineage(Parent(p)) <= s.dirs
    decreases |p|
  {
    var q := Parent(p);
    if q == [] {
      assert Lineage(q) == {};
    } else {
      AncestorsAreDirs(s, q);
      LineageStep(q);
    }
  }

  /** Adding a directory under an existing one keeps the tree well formed. */
  lemma AddDirKeepsValid(s: FsState, x: Path)
    requires s.Valid() && x != [] && x !in s.files && s.IsDir(Parent(x))
    ensures FsState(s.files, s.dirs + {x}).Valid()
  {
  }

  /** Removing an empty directory keeps the tree well formed. */
  lemma RmdirKeepsValid(s: FsState, d: Path)
    requires s.Valid() && s.IsEmptyDir(d)
    ensures FsState(s.files, s.dirs - {d}).Valid()
  {
  }

  lemma BelowStep(d: Path, m: nat)
    requires d != [] && m < |d|
    ensures Below(d, m) == Below(Parent(d), m) + {d}
  {
    var e := Parent(d);
    forall x | x in Below(d, m)
      ensures x in Below(e, m) + {d}
    {
      var j :| m < j <= |d| && x == d[..j];
      if j < |d| {
        assert x == e[..j];
      }
    }
    forall x | x in Below(e, m) + {d}
      ensures x in Below(d, m)
    {
      if x == d {
        assert x == d[..|d|];
      } else {
        var j :| m < j <= |e| && x == e[..j];
        assert x == d[..j];
      }
    }
  }

  /** The upward walk of `os.removedirs`: it touches no file, keeps the tree well formed,
      and removes exactly the chain of `d` below the depth where it stops, which is the
      root or a prefix of `d` that is not an empty directory once the deeper ones are gone. */
  lemma {:induction false} PruneUpFacts(s: FsState, d: Path)
    requires s.Valid()
    ensures var t, m := s.PruneUp(d), s.PruneDepth(d);
      && t.Valid()
      && t.files == s.files
      && m <= |d|
      && Below(d, m) <= s.dirs
      && t.dirs == s.dirs - Below(d, m)
      && (m == 0 || !t.IsEmptyDir(d[..m]))
    decreases |d|
  {
    if d != [] && s.IsEmptyDir(d) {
      var s' := FsState(s.files, s.dirs - {d});
      RmdirKeepsValid(s, d);
      PruneUpFacts(s', Parent(d));
      var m := s'.PruneDepth(Parent(d));
      BelowStep(d, m);
      assert d[..m] == Parent(d)[..m];
    } else {
      assert d[..|d|] == d;
      assert Below(d, |d|) == {};
    }
  }

  lemma LineageStep(d: Path)
    requires d != []
    ensures Lineage(d) == Lineage(Parent(d)) + {d}
  {
    assert Lineage(d) == Below(d, 0);
    assert Lineage(Parent(d)) == Below(Parent(d), 0);
    BelowStep(d, 0);
  }

  /** A bare directory chain with no file in it is pruned away entirely, root-ward
      until nothing of it is left. */
  lemma {:induction false} PruneBareChain(d: Path)
    ensures FsState(map[], Lineage(d)).PruneUp(d) == FsState(map[], {})
    decreases |d|
  {
    var s := FsState(map[], Lineage(d));
    if d == [] {
      assert Lineage(d) == {};
    } else {
      assert d == d[..|d|];
      forall q | q in s.dirs
        ensures Parent(q) != d
      {
        var j :| 1 <= j <= |d| && q == d[..j];
      }
      assert s.IsEmptyDir(d);
      LineageStep(d);
      assert s.dirs - {d} == Lineage(Parent(d)) by {
        forall x | x in Lineage(Parent(d))
          ensures x != d
        {
          var j :| 1 <= j <= |Parent(d)| && x == Parent(d)[..j];
        }
      }
      PruneBareChain(Parent(d));
    }
  }

  /** `os.makedirs` keeps the tree well formed, and when it succeeds `d` and all its
      ancestors are directories. */
  lemma {:induction false} MakeDirsFacts(s: FsState, d: Path)
    requires s.Valid()
    ensures s.MakeDirs(d).Ok? ==>
      var t := s.MakeDirs(d).value;
      t.Valid() && t.files == s.files && t.dirs == s.dirs + Lineage(d) && d in t.dirs
    decreases |d|
  {
    if s.MakeDirs(d).Ok? {
      var e := Parent(d);
      LineageStep(d);
      if e == [] {
        assert Lineage(e) == {};
        AddDirKeepsValid(s, d);
      } else if e in s.dirs {
        AncestorsAreDirs(s, e);
        LineageStep(e);
        assert s.dirs + Lineage(d) == s.dirs + {d};
        AddDirKeepsValid(s, d);
      } else {
        LineageStep(e);
        assert e !in s.files;
        MakeDirsFacts(s, e);
        var t := s.MakeDirs(e).value;
        AddDirKeepsValid(t, d);
      }
    }
  }

  /** `os.makedirs(d)` in the recursive form of its implementation: make the parent
      when it is missing, then make `d` itself. */
  lemma MakeDirsUnfold(s: FsState, d: Path)
    requires s.Valid() && d != [] && !s.Exists(d)
    ensures var e := Parent(d);
      && (e == [] || e in s.dirs ==> s.MakeDirs(d) == Ok(FsState(s.files, s.dirs + {d})))
      && (e in s.files ==> s.MakeDirs(d) == Err(OSError))
      && (e != [] && !s.Exists(e) ==>
            s.MakeDirs(d) == match s.MakeDirs(e)
              case Err(err) => Err(err)
              case Ok(t) => Ok(FsState(t.files, t.dirs + {d})))
  {
    var e := Parent(d);
    LineageStep(d);
    if e == [] {
      assert Lineage(e) == {};
      assert Lineage(d) == {d};
    } else if e in s.dirs {
      AncestorsAreDirs(s, e);
      LineageStep(e);
      assert Lineage(e) <= s.dirs;
      assert Lineage(e) !! s.files.Keys;
      assert s.dirs + Lineage(d) == s.dirs + {d};
    } else if e in s.files {
      LineageStep(e);
      assert e in Lineage(e);
    } else {
      LineageStep(e);
      assert (Lineage(e) !! s.files.Keys) <==> (Lineage(Parent(e)) !! s.files.Keys);
      assert s.dirs + Lineage(e) + {d} == s.dirs + Lineage(d);
    }
  }

  /** `shutil.rmtree(d)` keeps the tree well formed, leaves nothing at or beneath `d`,
      and leaves everything else as it was. */
  lemma RmTreeFacts(s: FsState, d: Path)
    requires s.Valid() && d in s.dirs
    ensures var t := s.RmTree(d).value;
      && t.Valid()
      && (forall q :: d <= q ==> !t.Exists(q))
      && (forall q :: !(d <= q) ==> (q in t.files <==> q in s.files) && (q in t.dirs <==> q in s.dirs))
      && (forall q :: q in t.files ==> t.files[q] == s.files[q])
  {
    var t := s.RmTree(d).value;
    forall p | p in t.files
      ensures t.IsDir(Parent(p))
    {
      assert Parent(p) <= p;
    }
    forall q | q in t.dirs
      ensures t.IsDir(Parent(q))
    {
      assert Parent(q) <= q;
    }
  }

  /** The filesystem the cache works on, updated in place by the `os` primitives. */
  class FileSystem {
    var files: map<Path, Bytes>
    var dirs: set<Path>

    function State(): FsState
      reads this
    {
      FsState(files, dirs)
    }

    ghost predicate Valid()
      reads this
    {
      State().Valid()
    }

    constructor (s: FsState)
      requires s.Valid()
      ensures Valid() && State() == s
    {
      files := s.files;
      dirs := s.dirs;
    }

    method Write(p: Path, v: Bytes) returns (r: Result<()>)
      requires Valid()
      modifies this
      ensures Valid()
      ensures Applied(old(State()), old(State()).Write(p, v), State(), r)
    {
      if p != [] && State().IsDir(Parent(p)) && p !in dirs {
        files := files[p := v];
        r := Ok(());
      } else {
        r := Err(IOError);
      }
    }

    method Remove(p: Path) returns (r: Result<()>)
      requires Valid()
      modifies this
      ensures Valid()
      ensures Applied(old(State()), old(State()).Remove(p), State(), r)
    {
      if p in files {
        files := files - {p};
        r := Ok(());
      } else {
        r := Err(OSError);
      }
    }

    method Rmdir(d: Path) returns (r: Result<()>)
      requires Valid()
      modifies this
      ensures Valid()
      ensures Applied(old(State()), old(State()).Rmdir(d), State(), r)
    {
      if State().IsEmptyDir(d) {
        RmdirKeepsValid(State(), d);
        dirs := dirs - {d};
        r := Ok(());
      } else {
        r := Err(OSError);
      }
    }

    /** `os.makedirs(d)`: make the parent first when it is missing, then `d`. */
    method MakeDirs(d: Path) returns (r: Result<()>)
      requires Valid()
      modifies this
      ensures Valid()
      ensures Applied(old(State()), old(State()).MakeDirs(d), State(), r)
      decreases |d|
    {
      if d == [] || d in files || d in dirs {
        return Err(OSError);
      }
      ghost var s0 := State();
      MakeDirsUnfold(s0, d);
      MakeDirsFacts(s0, d);
      var e := Parent(d);
      if e != [] && e !in files && e !in dirs {
        r := MakeDirs(e);
        if r.Err? {
          return;
        }
      }
      if e in files {
        return Err(OSError);
      }
      dirs := dirs + {d};
      r := Ok(());
    }

    /** `os.removedirs(d)`: remove `d`, then each parent in turn until a removal fails
        or the root is reached. */
    method RemoveDirs(d: Path) returns (r: Result<()>)
      requires Valid()
      modifies this
      ensures Valid()
      ensures Applied(old(State()), old(State()).RemoveDirs(d), State(), r)
    {
      r := Rmdir(d);
      if r.Err? {
        return;
      }
      var head := Parent(d);
      while head != []
        invariant Valid()
        invariant State().PruneUp(head) == old(State()).RemoveDirs(d).value
        decreases |head|
      {
        var step := Rmdir(head);
        if step.Err? {
          break;
        }
        head := Parent(head);
      }
    }

    method RmTree(d: Path) returns (r: Result<()>)
      requires Valid()
      modifies this
      ensures Valid()
      ensures Applied(old(State()), old(State()).RmTree(d), State(), r)
    {
      if d in dirs {
        RmTreeFacts(State(), d);
        files, dirs := map p | p in files && !(d <= p) :: files[p], set q | q in dirs && !(d <= q);
        r := Ok(());
      } else {
        r := Err(OSError);
      }
    }
  }
}
