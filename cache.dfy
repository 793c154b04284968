/** The gdls cache: resolved paths (kept until cleared) and computed folder
    sizes (trusted for one hour), held in memory and written through to a
    backing file after every change. */
module Cache {
  import opened Core

  datatype PathEntry = PathEntry(id: string, name: string, timestamp: int)
  datatype SizeEntry = SizeEntry(size: int, timestamp: int)

  /** What the backing file holds when the cache is created: nothing, text
      that does not parse, or a document with either key possibly absent. */
  datatype StoredFile =
    | Missing
    | Corrupt
    | Stored(paths: Option<map<string, PathEntry>>, folderSizes: Option<map<string, SizeEntry>>)

  /** Size entries are keyed by the folder id behind a fixed prefix. */
  function SizeKey(folderId: string): string {
    "size_" + folderId
  }

  lemma SizeKeyInjective(a: string, b: string)
    ensures SizeKey(a) == SizeKey(b) ==> a == b
  {
    if SizeKey(a) == SizeKey(b) {
      assert a == SizeKey(a)[5..] && b == SizeKey(b)[5..];
    }
  }

  /** `_load_cache`: a missing or unreadable file gives two empty maps; a
      document lacking a key gets that key as an empty map. */
  function LoadCache(f: StoredFile): (r: (map<string, PathEntry>, map<string, SizeEntry>))
    ensures (f.Missing? || f.Corrupt?) ==> r.0 == map[] && r.1 == map[]
    ensures f.Stored? && f.paths.Some? ==> r.0 == f.paths.value
    ensures f.Stored? && f.paths.None? ==> r.0 == map[]
    ensures f.Stored? && f.folderSizes.Some? ==> r.1 == f.folderSizes.value
    ensures f.Stored? && f.folderSizes.None? ==> r.1 == map[]
  {
    match f
    case Missing => (map[], map[])
    case Corrupt => (map[], map[])
    case Stored(p, s) =>
      (if p.Some? then p.value else map[], if s.Some? then s.value else map[])
  }

  /** The file `_save_cache` writes for the given maps. */
  function Persisted(paths: map<string, PathEntry>, sizes: map<string, SizeEntry>): StoredFile {
    Stored(Some(paths), Some(sizes))
  }

  /** Write-through is lossless: loading what was saved gives back the maps. */
  lemma LoadPersisted(paths: map<string, PathEntry>, sizes: map<string, SizeEntry>)
    ensures LoadCache(Persisted(paths, sizes)) == (paths, sizes)
  {
  }

  /** `get_path`: no entry gives `None`; an entry gives a `PathInfo` with the
      stored id and name and the path asked for, or the `ValueError` that
      building it raises when the stored id or name is empty. No age check. */
  function LookupPath(paths: map<string, PathEntry>, path: string): (r: Result<Option<PathInfo>, Error>)
    ensures r == Ok(None) <==> path !in paths
    ensures r.Ok? && r.value.Some? ==>
      path in paths && r.value.value == PathInfo(paths[path].id, paths[path].name, path)
    ensures path in paths ==> (r.Ok? <==> paths[path].id != "" && paths[path].name != "")
  {
    if path !in paths then Ok(None)
    else
      match MakePathInfo(paths[path].id, paths[path].name, path)
      case Ok(info) => Ok(Some(info))
      case Err(e) => Err(e)
  }

  /** `get_folder_size`: the stored size while its age is at most the TTL
      (the boundary included), else `None`. */
  function LookupFolderSize(sizes: map<string, SizeEntry>, folderId: string, now: int): (r: Option<int>)
    ensures r.Some? <==> SizeKey(folderId) in sizes && now - sizes[SizeKey(folderId)].timestamp <= CacheTtlSeconds
    ensures r.Some? ==> r.value == sizes[SizeKey(folderId)].size
  {
    var key := SizeKey(folderId);
    if key !in sizes then None
    else if now - sizes[key].timestamp > CacheTtlSeconds then None
    else Some(sizes[key].size)
  }

  /** A size stored at `t0` is returned up to and including `t0 + TTL` and
      not after, whatever it is (0 included). */
  lemma SizeExpiry(sizes: map<string, SizeEntry>, folderId: string, size: int, t0: int, now: int)
    ensures var stored := sizes[SizeKey(folderId) := SizeEntry(size, t0)];
      LookupFolderSize(stored, folderId, now) == if now <= t0 + CacheTtlSeconds then Some(size) else None
  {
  }

  /** A path entry, once stored, is found whatever the clock says. */
  lemma PathNeverExpires(paths: map<string, PathEntry>, path: string, info: PathInfo, t0: int)
    requires info.id != "" && info.name != ""
    ensures LookupPath(paths[path := PathEntry(info.id, info.name, t0)], path)
         == Ok(Some(PathInfo(info.id, info.name, path)))
  {
  }

  class DriveCache {
    var paths: map<string, PathEntry>
    var folderSizes: map<string, SizeEntry>
    /** The backing file's contents. */
    var file: StoredFile
    /** Whether writing the backing file succeeds; the methods do not change it. */
    var writable: bool
    /** Whether a failing save fails after opening the file for writing,
        which has already emptied it (a full disk, say), rather than at the
        open itself. The methods do not change it. */
    var truncates: bool

    constructor (stored: StoredFile, canWrite: bool, emptiesOnFailure: bool)
      ensures (paths, folderSizes) == LoadCache(stored)
      ensures file == stored && writable == canWrite && truncates == emptiesOnFailure
    {
      var loaded := LoadCache(stored);
      paths, folderSizes := loaded.0, loaded.1;
      file, writable, truncates := stored, canWrite, emptiesOnFailure;
    }

    function GetPath(path: string): Result<Option<PathInfo>, Error>
      reads this
    {
      LookupPath(paths, path)
    }

    function GetFolderSize(folderId: string, now: int): Option<int>
      reads this
    {
      LookupFolderSize(folderSizes, folderId, now)
    }

    /** Whether `o` is what saving the current maps yields: on success the
        file holds them; on failure `DriveCacheError`, with the file as it
        was or, when the open had emptied it, a file the next load reads as
        corrupt. */
    ghost predicate SavedAs(o: Outcome<Error>, oldFile: StoredFile)
      reads this
    {
      if writable then o == Pass && file == Persisted(paths, folderSizes)
      else o == Fail(CacheSaveFailed) && file == (if truncates then Corrupt else oldFile)
    }

    /** `_save_cache`. */
    method Save() returns (o: Outcome<Error>)
      modifies this`file
      ensures SavedAs(o, old(file))
    {
      if writable {
        file := Persisted(paths, folderSizes);
        o := Pass;
      } else {
        if truncates {
          file := Corrupt;
        }
        o := Fail(CacheSaveFailed);
      }
    }

    /** `set_path`: the entry is stored with timestamp `now` in memory first,
        then saved; a failed save still leaves the new entry in memory. */
    method SetPath(path: string, info: PathInfo, now: int) returns (o: Outcome<Error>)
      modifies this
      ensures paths == old(paths)[path := PathEntry(info.id, info.name, now)]
      ensures folderSizes == old(folderSizes) && writable == old(writable) && truncates == old(truncates)
      ensures SavedAs(o, old(file))
      ensures info.id != "" && info.name != "" ==> GetPath(path) == Ok(Some(PathInfo(info.id, info.name, path)))
      ensures forall p :: p != path ==> GetPath(p) == old(GetPath(p))
    {
      paths := paths[path := PathEntry(info.id, info.name, now)];
      o := Save();
    }

    /** `set_folder_size`: stores `size` under `"size_" + folderId` with
        timestamp `now`, then saves. */
    method SetFolderSize(folderId: string, size: int, now: int) returns (o: Outcome<Error>)
      modifies this
      ensures folderSizes == old(folderSizes)[SizeKey(folderId) := SizeEntry(size, now)]
      ensures paths == old(paths) && writable == old(writable) && truncates == old(truncates)
      ensures SavedAs(o, old(file))
      ensures GetFolderSize(folderId, now) == Some(size)
      ensures forall id, t :: id != folderId ==> GetFolderSize(id, t) == old(GetFolderSize(id, t))
    {
      folderSizes := folderSizes[SizeKey(folderId) := SizeEntry(size, now)];
      o := Save();
      forall id, t | id != folderId ensures GetFolderSize(id, t) == old(GetFolderSize(id, t)) {
        SizeKeyInjective(id, folderId);
      }
    }

    /** `clear`: both maps emptied, then saved. */
    method Clear() returns (o: Outcome<Error>)
      modifies this
      ensures paths == map[] && folderSizes == map[] && writable == old(writable) && truncates == old(truncates)
      ensures SavedAs(o, old(file))
      ensures forall p :: GetPath(p) == Ok(None)
      ensures forall id, t :: GetFolderSize(id, t) == None
    {
      paths, folderSizes := map[], map[];
      o := Save();
    }
  }
}
