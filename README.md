# fscache in Dafny

`fscache` is a dictionary whose values live on disk rather than in memory. A key is
hashed with MD5; each of the 32 hex digits of the digest names one nested directory under
`<folder>/.fscache`, and the value is the whole content of the file `index.html` at the
bottom of that chain. Membership asks whether anything is at that path. Lookup reads the
file and turns a failed `open` into `KeyError`; `get` turns `KeyError` into a default.
Assignment creates the directory chain when it is missing and overwrites the file.
Deletion removes the file and then every directory above it that has become empty,
swallowing every `OSError`. `clear` removes the cache folder with everything in it.

The project has two modules.

- `Fs` (`fs.dfy`) stands in for the operating system.
  - `FsState` is a value: a map from file paths to their bytes, plus a set of
    directories. A path is a sequence of segments, and the empty path is the folder
    everything is relative to.
  - `FsState.Valid` states what a real tree guarantees: nothing is both a file and a
    directory, and everything sits in a directory that exists.
  - Functions on `FsState` specify the calls the cache makes: `open` for reading,
    `open` for writing, `os.remove`, `os.rmdir`, `os.makedirs`, `os.removedirs` and
    `shutil.rmtree`.
  - The class `FileSystem` holds the mutable state. Its methods update that state in
    place, and each is proved against the function that specifies it. `MakeDirs` is
    recursive, like the library's own implementation. `RemoveDirs` is a loop that walks
    upward.
- `Cache` (`cache.dfy`) is the `fscache` class.
  - The path layout is `EntryPath`.
  - The effect of each operation on a filesystem state is given by `SetEntry`,
    `DeleteEntry` and `ClearFolder`.
  - The class `FsCache` has the methods `Contains`, `Get`, `GetOr`, `Set`, `Delete` and
    `Clear`. Each is proved against those functions.
  - The lemmas state what the cache promises: the layout, round trips, overwrites,
    independence of keys, deletion with pruning, and clearing.

The hash is a parameter of the cache, a function from key bytes to a `HexDigest`
(32 lowercase hex digits). MD5 itself is not modelled. The doctest's path is proved on
the hypothesis that MD5 of `http://google.com/abc` is the digest the doctest records.

## Model

| member | source | states |
|---|---|---|
| Cache.EntryPath | fscache.py:95-97 | The definition of `_key_path`'s layout: the folder, one segment per digest digit, then `index.html`. Its contract gives the length (folder plus 33), the folder prefix and the final `index.html`; `EntryPathLayout` and `EntryPathInjective` characterise it fully. |
| Cache.FsCache.KeyPath | fscache.py:87-98 | The definition of `_key_path`: the entry path of the key's digest under the cache's folder. Its contract gives the length, the folder prefix and the final `index.html`. |
| Cache.SetEntry | fscache.py:67-74 | The definition of `__setitem__` on a filesystem state: `makedirs` when the entry's directory is missing, then the write. Its contract says a success stores the value at the entry and changes no other file, and leaves the entry's directory in place. `SetEntryEffect` characterises it fully. |
| Cache.DeleteEntry | fscache.py:77-85 | The definition of `__delitem__`: `os.remove`, then `os.removedirs` on the parent, with every `OSError` swallowed. Its contract says only the entry's file goes, no directory is added, and nothing changes when no file was there. `DeleteEntryEffect` characterises it fully. |
| Cache.ClearFolder | fscache.py:111-115 | The definition of `clear`: `rmtree` of the cache folder when it exists. Its contract says it fails only when the folder is a file, and that after a success the folder is gone and no directory was added. `ClearFolderEffect` characterises it fully. |
| Fs.FsState.PruneUp | fscache.py:83 | The definition of the upward walk of `os.removedirs`. Its contract says it keeps every file, only removes directories, and removes its start directory when that is empty. `PruneUpFacts` gives the exact stop depth. |
| Fs.FsState.RemoveDirs | fscache.py:83 | The definition of `os.removedirs`. Its contract says it succeeds if and only if the first directory is empty, and that a success keeps every file and removes that directory, possibly with more. |
| Cache.EntryPathLayout | fscache.py:87-98 | The key path has 33 segments after the folder, starts with the folder, has one segment per digest digit in order (each a lowercase hex digit), and ends with `index.html`. Its parent is the folder followed by the digit directories. |
| Cache.EntryPathInjective | fscache.py:95-97 | Two entry paths are equal if and only if their folders and their digests are equal, so keys with different digests never share a file. |
| Cache.DoctestKeyPath | fscache.py:33-35 | With the default folder, a hash that maps `http://google.com/abc` to `c1393bd2…1dbac` gives the path `.fscache/c/1/3/9/…/a/c/index.html`, segment by segment. |
| Cache.AbsentFolderHoldsNoEntry | fscache.py:49-52 | In a well-formed tree whose cache folder does not exist, no key is present and no key can be read. |
| Cache.SetEntryEffect | fscache.py:67-74 | Assignment succeeds if and only if no ancestor of the entry is a file and the entry is not a directory. On success the tree stays well formed, the entry holds the value, all other files are unchanged, and the entry's ancestors have been added as directories. |
| Cache.SetUnderDir | fscache.py:72-74 | When the entry's directory exists, assignment is exactly the `open(path, 'wb')` write. That write succeeds if and only if the entry is not a directory. |
| Cache.SetUnderMissingDir | fscache.py:71-74 | When the entry's directory is missing, assignment succeeds if and only if no ancestor is a file. It then adds the file and the whole directory chain. |
| Cache.SetThenGet | fscache.py:26-32 | After a successful assignment, the key is present and reads back the assigned value. |
| Cache.SetOverwrites | fscache.py:67-74 | Assigning a key twice yields the same state as assigning only the second value, and that state reads back the second value. |
| Cache.SetLeavesOtherEntries | fscache.py:67-74 | Assigning one key leaves the content and the presence of every key with another digest unchanged. |
| Cache.DeleteEntryEffect | fscache.py:77-85 | Deletion never fails and keeps the tree well formed. It removes only the entry's file. If no file was there, nothing changes. Otherwise it removes exactly the directories on the entry's chain below the depth where the upward walk stops, which is the root or a directory that is not empty. |
| Cache.DeleteIdempotent | fscache.py:77-85 | Deleting a key twice gives the same state as deleting it once. |
| Cache.SetThenDelete | fscache.py:77-85 | After a successful assignment, deleting the key leaves it absent and unreadable, and leaves every other file as it was before the assignment. |
| Cache.DeleteLeavesOtherEntries | fscache.py:77-85 | Deleting one key leaves the readable value and the presence of every key with another digest unchanged. |
| Cache.DeleteSoleEntryRemovesFolder | fscache.py:83 | Take a tree that holds only one entry and its directory chain. Deleting that entry leaves the tree empty, so the `.fscache` folder and the user's folder above it are removed too. |
| Cache.ClearFolderEffect | fscache.py:111-115 | Clearing fails if and only if the cache folder is a file. If the folder is absent, nothing changes. Otherwise nothing at or below the folder remains, so no key is present. Everything outside the folder and every remaining file's content are unchanged. |
| Cache.FsCache.constructor | fscache.py:45-46 | The cache folder is the user's folder, by default the empty path as in `fscache()`, joined with `.fscache`; nothing on disk is touched. |
| Cache.FsCache.Contains | fscache.py:49-52 | True if and only if a file or a directory is at the key's path. |
| Cache.FsCache.Get | fscache.py:55-64 | Succeeds if and only if a file is at the key's path, and returns that file's content. Otherwise it fails with `KeyError`. |
| Cache.FsCache.GetOr | fscache.py:101-108 | Returns the stored value when the key's file exists and the default otherwise; the default defaults to the empty byte string, the model of `''`. |
| Cache.FsCache.Set | fscache.py:67-74 | Changes the filesystem exactly as `SetEntry` says. On failure the state is unchanged and the error is returned. The tree stays well formed. |
| Cache.FsCache.Delete | fscache.py:77-85 | Changes the filesystem exactly as `DeleteEntry` says, and the tree stays well formed. |
| Cache.FsCache.Clear | fscache.py:111-115 | Changes the filesystem exactly as `ClearFolder` says. A failure is returned, and the tree stays well formed. |
| Fs.MakeDirsFacts | fscache.py:72-73 | A successful `os.makedirs(d)` keeps the tree well formed, touches no file, and adds exactly `d` and its ancestors as directories. |
| Fs.MakeDirsUnfold | fscache.py:72-73 | `os.makedirs(d)` in recursive form. If the parent is a directory, it adds `d`. If the parent is a file, it fails. If the parent is missing, it first makes the parent, and any failure there is its own. |
| Fs.PruneUpFacts | fscache.py:83 | The upward walk of `os.removedirs` touches no file and keeps the tree well formed. It removes exactly the chain below the depth where it stops, which is the root or a prefix that is not an empty directory. |
| Fs.PruneBareChain | fscache.py:83 | A chain of directories holding nothing is pruned away completely, up to the root. |
| Fs.RmTreeFacts | fscache.py:115 | `shutil.rmtree(d)` keeps the tree well formed and leaves nothing at or below `d`. Every path outside `d` and every remaining file's content are unchanged. |
| Fs.FileSystem.Write | fscache.py:74 | Updates the state as `FsState.Write` says (the write replaces the file's content) and keeps it well formed. |
| Fs.FileSystem.Remove | fscache.py:82 | Updates the state as `FsState.Remove` says and keeps it well formed. |
| Fs.FileSystem.Rmdir | fscache.py:83 | Updates the state as `FsState.Rmdir` says and keeps it well formed. |
| Fs.FileSystem.MakeDirs | fscache.py:73 | The recursive `os.makedirs` updates the state as `FsState.MakeDirs` says and keeps it well formed. |
| Fs.FileSystem.RemoveDirs | fscache.py:83 | The `rmdir` loop that walks upward updates the state as `FsState.RemoveDirs` says and keeps it well formed. |
| Fs.FileSystem.RmTree | fscache.py:115 | Updates the state as `FsState.RmTree` says and keeps it well formed. |

## Left out

- MD5 is not computed. The hash is a parameter of the cache, and only its output shape is assumed: 32 lowercase hex digits. Collisions between different keys are therefore not excluded. Because of that, "other keys" in the lemmas means keys with another digest.
- Keys are modelled as byte strings. The `key.encode('utf-8')` step and its `UnicodeDecodeError` fallback (fscache.py:91-94) are not modelled; `AsciiBytes` encodes only the doctest's ASCII key.
- `os.path.join` is modelled as the concatenation of path segments. The string form of the path, with its `/` separators, is not built. The doctest's path is stated segment by segment.
- Permissions, disk-full errors, symbolic links, other processes changing the tree, and open file handles are not modelled. The only errors that arise are the structural ones: a missing path, a file where a directory is needed or the reverse, and a directory that is not empty.
- `os.makedirs` is one recursive call that raises on its first failure. The `EEXIST` tolerance for an ancestor created by another process is left out, because the model has no other process.
- `shutil.rmtree` is a single step that removes a whole subtree. The order of its removals, and its partial failures, are not modelled.
- The module imports `sys` and `datetime` but never uses them. The doctest's own steps that go beyond the key path are covered by `SetThenGet` and `ClearFolderEffect`, not replayed.

The `__delitem__` docstring speaks of removing the key's empty parent sub-directories,
which reads as stopping at the cache folder. The code calls `os.removedirs` on the entry's directory (fscache.py:83), and that call
keeps climbing past `.fscache` into the user's folder as long as each directory is empty.
The model follows the code. `DeleteSoleEntryRemovesFolder` states the consequence:
deleting the only entry removes the cache folder and every now-empty directory above it.
