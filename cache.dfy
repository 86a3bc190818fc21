/** The `fscache` class: a dictionary whose entries are files. A key is hashed; each
    character of the hex digest names one nested directory under `<folder>/.fscache`, and
    the value is the whole content of the file `index.html` at the bottom. The hash is a
    parameter of the cache (in the system it is MD5 of the key's UTF-8 bytes); the model
    assumes of it only that it yields 32 lowercase hex digits. */
module Cache {
  import opened Fs

  /** The namespace directory created under the user's folder. */
  const ParentDir: string := ".fscache"
  /** The name of every entry file. */
  const FileName: string := "index.html"
  /** A lowercase hexadecimal digit. */
  predicate IsHexDigit(c: char)
  {
    '0' <= c <= '9' || 'a' <= c <= 'f'
  }

  predicate IsHexDigest(h: string)
  {
    |h| == 32 && forall i :: 0 <= i < |h| ==> IsHexDigit(h[i])
  }

  /** What `md5(key).hexdigest()` returns: 32 lowercase hex digits. */
  type HexDigest = h: string | IsHexDigest(h) witness "00000000000000000000000000000000"

  /** The UTF-8 encoding of a string of ASCII characters, one byte per character. */
  function AsciiBytes(s: string): Bytes
    requires forall i :: 0 <= i < |s| ==> s[i] as int < 128
  {
    seq(|s|, i requires 0 <= i < |s| => s[i] as int as Byte)
  }

  /** The cache's folder: the user's folder joined with the namespace directory. */
  function CacheFolder(base: Path): Path
  {
    base + [ParentDir]
  }

  /** One single-character path segment per digit of the digest. */
  function DigitDirs(h: string): Path
  {
    seq(|h|, i requires 0 <= i < |h| => [h[i]])
  }

  /** Where the value of a key with digest `h` is stored. */
  function EntryPath(folder: Path, h: HexDigest): (p: Path)
    ensures |p| == |folder| + 33 && p[..|folder|] == folder && p[|p| - 1] == FileName
  {
    folder + DigitDirs(h) + [FileName]
  }

  /** `__setitem__`: create the directory chain when the entry's directory is missing,
      then write the file. */
  function SetEntry(s: FsState, p: Path, v: Bytes): (r: Result<FsState>)
    ensures r.Ok? ==> r.value.files == s.files[p := v] && Parent(p) in r.value.dirs + {[]}
  {
    var dir := Parent(p);
    if s.Exists(dir) then s.Write(p, v)
    else match s.MakeDirs(dir)
      case Err(e) => Err(e)
      case Ok(t) => t.Write(p, v)
  }

  /** `__delitem__`: remove the file, then its empty ancestors; every failure is swallowed,
      leaving the state reached so far. */
  function DeleteEntry(s: FsState, p: Path): (t: FsState)
    ensures t.files == s.files - {p} && t.dirs <= s.dirs
    ensures p !in s.files ==> t == s
  {
    match s.Remove(p)
    case Err(_) => s
    case Ok(t) =>
      match t.RemoveDirs(Parent(p))
      case Err(_) => t
      case Ok(u) => u
  }

  /** `clear`: remove the whole cache folder when something is there. */
  function ClearFolder(s: FsState, folder: Path): (r: Result<FsState>)
    ensures r.Err? ==> folder in s.files
    ensures r.Ok? ==> !r.value.Exists(folder) && r.value.dirs <= s.dirs
  {
    if s.Exists(folder) then s.RmTree(folder) else Ok(s)
  }

  /** Entry paths have the fixed layout: the folder, 32 one-digit directories spelling the
      digest in order, then `index.html`. */
  lemma EntryPathLayout(folder: Path, h: HexDigest)
    ensures var p := EntryPath(folder, h);
      && |p| == |folder| + 33
      && p[..|folder|] == folder
      && (forall i :: 0 <= i < 32 ==> p[|folder| + i] == [h[i]] && IsHexDigit(h[i]))
      && p[|p| - 1] == FileName
      && Parent(p) == folder + DigitDirs(h)
  {
  }

  /** Two entry paths coincide exactly when the folders and the digests do; in particular
      keys with different digests never share a file. */
  lemma EntryPathInjective(folder: Path, h: HexDigest, folder': Path, h': HexDigest)
    ensures EntryPath(folder, h) == EntryPath(folder', h') <==> folder == folder' && h == h'
  {
    var p, p' := EntryPath(folder, h), EntryPath(folder', h');
    if p == p' {
      assert |folder| == |folder'|;
      assert folder == p[..|folder|] == p'[..|folder'|] == folder';
      forall i | 0 <= i < 32
        ensures h[i] == h'[i]
      {
        assert p[|folder| + i] == [h[i]];
        assert p'[|folder| + i] == [h'[i]];
      }
    }
  }

  /** The doctest's key: with the default folder, if MD5 gives the recorded digest then the
      entry is the recorded path `.fscache/c/1/3/.../a/c/index.html`, segment by segment. */
  lemma DoctestKeyPath(digest: Bytes -> HexDigest)
    requires digest(AsciiBytes("http://google.com/abc")) == "c1393bd203426f3c3f4755b030a1dbac"
    ensures EntryPath(CacheFolder([]), digest(AsciiBytes("http://google.com/abc"))) ==
      [".fscache"]
      + ["c", "1", "3", "9", "3", "b", "d", "2", "0", "3", "4", "2", "6", "f", "3", "c",
         "3", "f", "4", "7", "5", "5", "b", "0", "3", "0", "a", "1", "d", "b", "a", "c"]
      + ["index.html"]
  {
    DoctestDigitDirs(digest(AsciiBytes("http://google.com/abc")));
    assert CacheFolder([]) == [ParentDir];
  }

  lemma DoctestDigitDirs(h: HexDigest)
    requires h == "c1393bd203426f3c3f4755b030a1dbac"
    ensures DigitDirs(h) ==
      ["c", "1", "3", "9", "3", "b", "d", "2", "0", "3", "4", "2", "6", "f", "3", "c",
       "3", "f", "4", "7", "5", "5", "b", "0", "3", "0", "a", "1", "d", "b", "a", "c"]
  {
  }

  /** A cache whose folder does not exist holds no entry. */
  lemma AbsentFolderHoldsNoEntry(s: FsState, base: Path, h: HexDigest)
    requires s.Valid() && !s.Exists(CacheFolder(base))
    ensures !s.Exists(EntryPath(CacheFolder(base), h)) && s.Read(EntryPath(CacheFolder(base), h)).Err?
  {
    var folder := CacheFolder(base);
    var p := EntryPath(folder, h);
    assert folder == Parent(p)[..|folder|];
    assert folder in Lineage(Parent(p));
    if s.Exists(p) {
      AncestorsAreDirs(s, p);
      assert false;
    }
  }

  /** Setting an entry succeeds exactly when no ancestor of the entry file is a file and
      the entry is not a directory; then the file holds the value, every ancestor is a
      directory, and nothing else changed. */
  lemma SetEntryEffect(s: FsState, folder: Path, h: HexDigest, v: Bytes)
    requires s.Valid()
    ensures var p := EntryPath(folder, h); var r := SetEntry(s, p, v);
      && (r.Ok? <==> Lineage(Parent(p)) !! s.files.Keys && p !in s.dirs)
      && (r.Ok? ==>
            && r.value.Valid()
            && r.value.files == s.files[p := v]
            && r.value.dirs == s.dirs + Lineage(Parent(p)))
  {
    SetPathEffect(s, EntryPath(folder, h), v);
  }

  /** `SetEntryEffect` for any path with a non-root parent. */
  lemma SetPathEffect(s: FsState, p: Path, v: Bytes)
    requires s.Valid() && |p| >= 2
    ensures var r := SetEntry(s, p, v);
      && (r.Ok? <==> Lineage(Parent(p)) !! s.files.Keys && p !in s.dirs)
      && (r.Ok? ==>
            && r.value.Valid()
            && r.value.files == s.files[p := v]
            && r.value.dirs == s.dirs + Lineage(Parent(p)))
  {
    var dir := Parent(p);
    LineageStep(dir);
    if dir in s.dirs {
      SetUnderDir(s, p, v);
    } else if dir in s.files {
      assert SetEntry(s, p, v) == s.Write(p, v);
    } else {
      SetUnderMissingDir(s, p, v);
    }
  }

  /** Setting under an existing directory: every ancestor is already a directory. */
  lemma SetUnderDir(s: FsState, p: Path, v: Bytes)
    requires s.Valid() && |p| >= 2 && Parent(p) in s.dirs
    ensures Lineage(Parent(p)) <= s.dirs
    ensures SetEntry(s, p, v) == s.Write(p, v)
    ensures s.Write(p, v).Ok? <==> p !in s.dirs
    ensures s.Write(p, v).Ok? ==> s.Write(p, v).value.Valid()
  {
    var dir := Parent(p);
    AncestorsAreDirs(s, dir);
    LineageStep(dir);
  }

  /** Setting under a missing directory: `os.makedirs` runs first. */
  lemma SetUnderMissingDir(s: FsState, p: Path, v: Bytes)
    requires s.Valid() && |p| >= 2 && !s.Exists(Parent(p))
    ensures p !in s.dirs
    ensures SetEntry(s, p, v).Ok? <==> Lineage(Parent(p)) !! s.files.Keys
    ensures SetEntry(s, p, v).Ok? ==>
      SetEntry(s, p, v).value == FsState(s.files[p := v], s.dirs + Lineage(Parent(p)))
      && SetEntry(s, p, v).value.Valid()
  {
    var dir := Parent(p);
    LineageStep(dir);
    MakeDirsFacts(s, dir);
    var made := s.MakeDirs(dir);
    if made.Ok? {
      var t := made.value;
      assert forall x :: x in Lineage(dir) ==> |x| < |p|;
      assert p !in t.dirs;
      assert t.Write(p, v) == Ok(FsState(s.files[p := v], s.dirs + Lineage(dir)));
    }
  }

  /** Round trip: after a successful set the key is present and reads back the value. */
  lemma SetThenGet(s: FsState, folder: Path, h: HexDigest, v: Bytes)
    requires s.Valid() && SetEntry(s, EntryPath(folder, h), v).Ok?
    ensures var t := SetEntry(s, EntryPath(folder, h), v).value;
      t.Exists(EntryPath(folder, h)) && t.Read(EntryPath(folder, h)) == Ok(v)
  {
    SetEntryEffect(s, folder, h, v);
  }

  /** Overwrite: a second set of the same key gives the state a single set of the second
      value gives, so the first value is gone; with equal values, setting is idempotent. */
  lemma SetOverwrites(s: FsState, folder: Path, h: HexDigest, v1: Bytes, v2: Bytes)
    requires s.Valid() && SetEntry(s, EntryPath(folder, h), v1).Ok?
    ensures var p := EntryPath(folder, h);
      && SetEntry(SetEntry(s, p, v1).value, p, v2) == SetEntry(s, p, v2)
      && SetEntry(s, p, v2).Ok?
      && SetEntry(s, p, v2).value.Read(p) == Ok(v2)
  {
    SetPathOverwrites(s, EntryPath(folder, h), v1, v2);
  }

  /** `SetOverwrites` for any path with a non-root parent. */
  lemma SetPathOverwrites(s: FsState, p: Path, v1: Bytes, v2: Bytes)
    requires s.Valid() && |p| >= 2 && SetEntry(s, p, v1).Ok?
    ensures SetEntry(SetEntry(s, p, v1).value, p, v2) == SetEntry(s, p, v2)
    ensures SetEntry(s, p, v2).Ok? && SetEntry(s, p, v2).value.Read(p) == Ok(v2)
  {
    SetPathSameOutcome(s, p, v1, v2);
    SetPathResult(s, p, v1);
    SetPathResult(s, p, v2);
    var t := SetEntry(s, p, v1).value;
    SetUnderDir(t, p, v2);
    assert t.Write(p, v2) == Ok(FsState(t.files[p := v2], t.dirs));
    assert t.files[p := v2] == s.files[p := v2];
  }

  /** Whether setting succeeds does not depend on the value. */
  lemma SetPathSameOutcome(s: FsState, p: Path, v1: Bytes, v2: Bytes)
    ensures SetEntry(s, p, v1).Ok? == SetEntry(s, p, v2).Ok?
  {
  }

  /** The state a successful set of a path with a non-root parent leaves behind. */
  lemma SetPathResult(s: FsState, p: Path, v: Bytes)
    requires s.Valid() && |p| >= 2 && SetEntry(s, p, v).Ok?
    ensures SetEntry(s, p, v) == Ok(FsState(s.files[p := v], s.dirs + Lineage(Parent(p))))
    ensures SetEntry(s, p, v).value.Valid()
    ensures p !in s.dirs + Lineage(Parent(p)) && Parent(p) in s.dirs + Lineage(Parent(p))
  {
    var dir := Parent(p);
    SetPathEffect(s, p, v);
    assert dir in Lineage(dir) by {
      assert dir == dir[..|dir|];
    }
    assert forall x :: x in Lineage(dir) ==> |x| < |p|;
  }

  /** Setting one key leaves what is stored at, and whether there is anything at, the entry
      of every key with another digest as it was. */
  lemma SetLeavesOtherEntries(s: FsState, folder: Path, h: HexDigest, h': HexDigest, v: Bytes)
    requires s.Valid() && h != h' && SetEntry(s, EntryPath(folder, h), v).Ok?
    ensures var t, q := SetEntry(s, EntryPath(folder, h), v).value, EntryPath(folder, h');
      t.Read(q) == s.Read(q) && (t.Exists(q) <==> s.Exists(q))
  {
    SetEntryEffect(s, folder, h, v);
    EntryPathInjective(folder, h, folder, h');
    var p := EntryPath(folder, h);
    forall x | x in Lineage(Parent(p))
      ensures |x| < |EntryPath(folder, h')|
    {
    }
  }

  /** Deleting an entry: when there is no file at the entry nothing changes; otherwise the
      file goes, and so do exactly the directories of its chain below the depth where the
      upward walk stops, which is the root or a directory that is not empty. No other file
      is touched and the tree stays well formed. The walk is not bounded by the cache
      folder: it may remove the cache folder and the user's folder above it. */
  lemma DeleteEntryEffect(s: FsState, folder: Path, h: HexDigest)
    requires s.Valid()
    ensures var p := EntryPath(folder, h); var t := DeleteEntry(s, p);
      && t.Valid()
      && t.files == s.files - {p}
      && (p !in s.files ==> t == s)
      && (p in s.files ==>
            var m := FsState(s.files - {p}, s.dirs).PruneDepth(Parent(p));
            && m < |p|
            && t.dirs == s.dirs - Below(Parent(p), m)
            && (m == 0 || !t.IsEmptyDir(p[..m])))
      && (t.Exists(p) <==> p in s.dirs)
  {
    DeletePathEffect(s, EntryPath(folder, h));
  }

  lemma DeletePathEffect(s: FsState, p: Path)
    requires s.Valid() && p != []
    ensures var t := DeleteEntry(s, p);
      && t.Valid()
      && t.files == s.files - {p}
      && (p !in s.files ==> t == s)
      && (p in s.files ==>
            var m := FsState(s.files - {p}, s.dirs).PruneDepth(Parent(p));
            && m < |p|
            && t.dirs == s.dirs - Below(Parent(p), m)
            && (m == 0 || !t.IsEmptyDir(p[..m])))
      && (t.Exists(p) <==> p in s.dirs)
  {
    if p in s.files {
      var u := FsState(s.files - {p}, s.dirs);
      var d := Parent(p);
      assert u.Valid();
      PruneUpFacts(u, d);
      if u.IsEmptyDir(d) {
        assert d != [];
        RmdirKeepsValid(u, d);
        var u' := FsState(u.files, u.dirs - {d});
        PruneUpFacts(u', Parent(d));
        assert u.PruneUp(d) == u'.PruneUp(Parent(d));
      }
      var m := u.PruneDepth(d);
      assert d[..m] == p[..m];
    }
  }

  /** Deleting twice is the same as deleting once. */
  lemma DeleteIdempotent(s: FsState, folder: Path, h: HexDigest)
    requires s.Valid()
    ensures var p := EntryPath(folder, h);
      DeleteEntry(DeleteEntry(s, p), p) == DeleteEntry(s, p)
  {
    DeleteEntryEffect(s, folder, h);
  }

  /** After a successful set, deleting the key leaves it absent and every other file as it
      was before the set. */
  lemma SetThenDelete(s: FsState, folder: Path, h: HexDigest, v: Bytes)
    requires s.Valid() && SetEntry(s, EntryPath(folder, h), v).Ok?
    ensures var p := EntryPath(folder, h); var t := DeleteEntry(SetEntry(s, p, v).value, p);
      !t.Exists(p) && t.Read(p).Err? && t.files == s.files - {p}
  {
    var p := EntryPath(folder, h);
    SetEntryEffect(s, folder, h, v);
    var t := SetEntry(s, p, v).value;
    DeleteEntryEffect(t, folder, h);
  }

  /** Deleting one key leaves what is stored at, and whether there is anything at, the
      entry of every key with another digest as it was. */
  lemma DeleteLeavesOtherEntries(s: FsState, folder: Path, h: HexDigest, h': HexDigest)
    requires s.Valid() && h != h'
    ensures var t, q := DeleteEntry(s, EntryPath(folder, h)), EntryPath(folder, h');
      t.Read(q) == s.Read(q) && (t.Exists(q) <==> s.Exists(q))
  {
    DeleteEntryEffect(s, folder, h);
    EntryPathInjective(folder, h, folder, h');
    var p, q := EntryPath(folder, h), EntryPath(folder, h');
    forall x | x in Below(Parent(p), 0)
      ensures |x| < |q|
    {
    }
  }

  /** The upward walk does not stop at the cache folder: when a single entry is all there
      is, deleting it removes the cache folder and every directory of the user's folder. */
  lemma DeleteSoleEntryRemovesFolder(base: Path, h: HexDigest, v: Bytes)
    ensures var p := EntryPath(CacheFolder(base), h);
      var s := FsState(map[p := v], Lineage(Parent(p)));
      && s.Valid()
      && s.Exists(CacheFolder(base))
      && DeleteEntry(s, p) == FsState(map[], {})
  {
    var p := EntryPath(CacheFolder(base), h);
    var d := Parent(p);
    var s := FsState(map[p := v], Lineage(d));
    assert d != [] && d == p[..|p| - 1];
    forall x | x in Lineage(d)
      ensures x != [] && x != p && s.IsDir(Parent(x))
    {
      var j :| 1 <= j <= |d| && x == d[..j];
      if j > 1 {
        assert Parent(x) == d[..j - 1];
      }
    }
    assert d in Lineage(d) by {
      assert d == d[..|d|];
    }
    assert s.Valid();
    assert CacheFolder(base) in Lineage(d) by {
      assert CacheFolder(base) == d[..|base| + 1];
    }
    var u := FsState(map[], Lineage(d));
    assert s.Remove(p) == Ok(u);
    forall q | q in u.dirs
      ensures Parent(q) != d
    {
      var j :| 1 <= j <= |d| && q == d[..j];
    }
    assert u.IsEmptyDir(d);
    PruneBareChain(d);
    var u' := FsState(map[], Lineage(d) - {d});
    assert u.PruneUp(d) == u'.PruneUp(Parent(d));
  }

  /** Clearing fails only when the cache folder is a file. Otherwise nothing at or below
      the cache folder remains (so no key is present), everything outside it is as it was,
      and when the folder was absent nothing changed. */
  lemma ClearFolderEffect(s: FsState, base: Path)
    requires s.Valid()
    ensures var folder := CacheFolder(base); var r := ClearFolder(s, folder);
      && (r.Err? <==> folder in s.files)
      && (!s.Exists(folder) ==> r == Ok(s))
      && (r.Ok? ==>
            && r.value.Valid()
            && !r.value.Exists(folder)
            && (forall h: HexDigest :: !r.value.Exists(EntryPath(folder, h)))
            && (forall q :: q in r.value.files ==> r.value.files[q] == s.files[q])
            && (forall q :: !(folder <= q) ==>
                  (q in r.value.files <==> q in s.files) && (q in r.value.dirs <==> q in s.dirs)))
  {
    var folder := CacheFolder(base);
    if !s.Exists(folder) {
      forall h: HexDigest
        ensures !s.Exists(EntryPath(folder, h))
      {
        AbsentFolderHoldsNoEntry(s, base, h);
      }
    } else if folder in s.dirs {
      RmTreeFacts(s, folder);
      forall h: HexDigest
        ensures folder <= EntryPath(folder, h)
      {
      }
    }
  }

  /** An `fscache` instance: its folder, the hash it files keys under, and the filesystem
      it stores them in. */
  class FsCache {
    const folder: Path
    const digest: Bytes -> HexDigest
    const fs: FileSystem

    ghost predicate Valid()
      reads fs
    {
      fs.Valid()
    }

    /** `__init__`: records the folder; touches nothing on disk. */
    constructor (digest: Bytes -> HexDigest, fs: FileSystem, base: Path := [])
      ensures folder == CacheFolder(base) && this.digest == digest && this.fs == fs
    {
      folder := CacheFolder(base);
      this.digest := digest;
      this.fs := fs;
    }

    /** `_key_path`. */
    function KeyPath(key: Bytes): (p: Path)
      ensures |p| == |folder| + 33 && p[..|folder|] == folder && p[|p| - 1] == FileName
    {
      EntryPath(folder, digest(key))
    }

    /** `__contains__`: is anything at the key's entry path. */
    method Contains(key: Bytes) returns (b: bool)
      ensures b <==> KeyPath(key) in fs.files || KeyPath(key) in fs.dirs
    {
      b := fs.State().Exists(KeyPath(key));
    }

    /** `__getitem__`: the file's content, or KeyError when it cannot be opened. */
    method Get(key: Bytes) returns (r: Result<Bytes>)
      ensures r.Ok? <==> KeyPath(key) in fs.files
      ensures r.Ok? ==> r.value == fs.files[KeyPath(key)]
      ensures r.Err? ==> r.error == KeyError
    {
      match fs.State().Read(KeyPath(key))
      case Ok(v) => r := Ok(v);
      case Err(_) => r := Err(KeyError);
    }

    /** `get`: the stored value, or `default` when the key is missing. */
    method GetOr(key: Bytes, default: Bytes := []) returns (v: Bytes)
      ensures KeyPath(key) in fs.files ==> v == fs.files[KeyPath(key)]
      ensures KeyPath(key) !in fs.files ==> v == default
    {
      var r := Get(key);
      v := if r.Ok? then r.value else default;
    }

    /** `__setitem__`. */
    method Set(key: Bytes, value: Bytes) returns (r: Result<()>)
      requires Valid()
      modifies fs
      ensures Valid()
      ensures Applied(old(fs.State()), SetEntry(old(fs.State()), KeyPath(key), value), fs.State(), r)
    {
      var path := KeyPath(key);
      var dir := Parent(path);
      if !fs.State().Exists(dir) {
        assert path !in fs.dirs;
        MakeDirsFacts(fs.State(), dir);
        r := fs.MakeDirs(dir);
        assert forall x :: x in Lineage(dir) ==> |x| < |path|;
        if r.Err? {
          return;
        }
      }
      r := fs.Write(path, value);
    }

    /** `__delitem__`: never raises. */
    method Delete(key: Bytes)
      requires Valid()
      modifies fs
      ensures Valid()
      ensures fs.State() == DeleteEntry(old(fs.State()), KeyPath(key))
    {
      var path := KeyPath(key);
      var removed := fs.Remove(path);
      if removed.Ok? {
        var pruned := fs.RemoveDirs(Parent(path));
      }
    }

    /** `clear`. */
    method Clear() returns (r: Result<()>)
      requires Valid()
      modifies fs
      ensures Valid()
      ensures Applied(old(fs.State()), ClearFolder(old(fs.State()), folder), fs.State(), r)
    {
      if fs.State().Exists(folder) {
        r := fs.RmTree(folder);
      } else {
        r := Ok(());
      }
    }
  }
}
