/** The older single-class `ls` for Google Drive: a path cache kept in a
    JSON document, path resolution one segment at a time, the type letter of
    the long format, one folder's listing sorted by a key and the path of a
    child folder in a recursive listing. Listed entries stay raw records. */
module LegacyLs {
  import opened Strings
  import opened Sorting
  import opened Core
  import opened Remote
  import opened Paths

  /** The cache file as the constructor finds it. `Parsed` holds the
      document's `paths` entry, absent when the document has none. */
  datatype LegacyFile = Missing | Unreadable | Parsed(paths: Option<map<string, FolderRef>>)

  /** The failures `list_files` does not turn into an empty listing are a
      cache document without `paths` (`KeyError`) and a failed save. The
      other two are the `ValueError`s of path resolution. */
  datatype LsError =
    | FolderNotFound(segment: string, path: string)
    | ResolveFailed(path: string)
    | MissingPathsKey
    | SaveFailed

  /** `_load_cache`: a missing or unreadable file gives `{'paths': {}}`;
      a readable one is taken as it is. */
  function LoadLegacyCache(f: LegacyFile): (r: Option<map<string, FolderRef>>)
    ensures f.Missing? || f.Unreadable? ==> r == Some(map[])
    ensures f.Parsed? ==> r == f.paths
  {
    match f
    case Parsed(paths) => paths
    case _ => Some(map[])
  }

  /** `_get_file_type_char`. */
  function FileTypeChar(mimeType: string): (r: char)
    ensures r == 'd' <==> mimeType == FolderMime
    ensures r == 'g' <==> mimeType != FolderMime && Contains(mimeType, "google-apps")
    ensures r == '-' <==> mimeType != FolderMime && !Contains(mimeType, "google-apps")
  {
    if mimeType == FolderMime then 'd'
    else if Contains(mimeType, "google-apps") then 'g'
    else '-'
  }

  /** The letter agrees with the newer item predicates: folders are `d`,
      other Google-native documents `g`, everything else `-`. */
  lemma FileTypeCharOfItem(item: DriveItem)
    ensures FileTypeChar(item.mimeType) == if IsFolder(item) then 'd' else if IsGoogleDoc(item) then 'g' else '-'
  {
  }

  // ---------------------------------------------------------------------
  // Sorting the raw entries

  /** `int(x.get('size', '0'))`. */
  function SizeOrZero(f: RemoteFile): nat {
    if f.size.Some? then f.size.value else 0
  }

  /** `x.get('modifiedTime', '')`. */
  function TimeText(f: RemoteFile): string {
    if f.modifiedTime.Some? then f.modifiedTime.value.text else ""
  }

  /** `(mimeType, name)` compared as a tuple, case-sensitively. */
  predicate RawTypeLess(a: RemoteFile, b: RemoteFile) {
    LexLess(a.mimeType, b.mimeType) || (a.mimeType == b.mimeType && LexLess(a.name, b.name))
  }

  /** The "comes before" relation of each sort key: size descending with a
      missing size as 0, the time text descending with a missing one as "",
      type ascending, and otherwise the lower-cased name ascending. */
  function RawBefore(sortBy: string): (RemoteFile, RemoteFile) -> bool {
    if sortBy == "size" then (a: RemoteFile, b: RemoteFile) => SizeOrZero(a) > SizeOrZero(b)
    else if sortBy == "date" then (a: RemoteFile, b: RemoteFile) => LexLess(TimeText(b), TimeText(a))
    else if sortBy == "type" then (a: RemoteFile, b: RemoteFile) => RawTypeLess(a, b)
    else (a: RemoteFile, b: RemoteFile) => LexLess(Lower(a.name), Lower(b.name))
  }

  lemma RawTypeLessTransitive(a: RemoteFile, b: RemoteFile, c: RemoteFile)
    requires RawTypeLess(a, b) && RawTypeLess(b, c)
    ensures RawTypeLess(a, c)
  {
    LexLessIrreflexive(a.mimeType);
    LexLessIrreflexive(b.mimeType);
    if LexLess(a.mimeType, b.mimeType) && LexLess(b.mimeType, c.mimeType) {
      LexLessTransitive(a.mimeType, b.mimeType, c.mimeType);
    }
    if a.mimeType == b.mimeType == c.mimeType {
      LexLessTransitive(a.name, b.name, c.name);
    }
  }

  lemma RawTypeLessSplit(a: RemoteFile, b: RemoteFile, c: RemoteFile)
    requires RawTypeLess(a, c)
    ensures RawTypeLess(a, b) || RawTypeLess(b, c)
  {
    LexLessIrreflexive(a.mimeType);
    LexLessIrreflexive(b.mimeType);
    LexLessTotal(a.mimeType, b.mimeType);
    if LexLess(b.mimeType, a.mimeType) && LexLess(a.mimeType, c.mimeType) {
      LexLessTransitive(b.mimeType, a.mimeType, c.mimeType);
    }
    if !RawTypeLess(a, b) && !RawTypeLess(b, c) && !LexLess(a.mimeType, c.mimeType) {
      LexLessNegTransitive(a.name, b.name, c.name);
    }
  }

  lemma RawBeforeIsStrictWeakOrder(sortBy: string)
    ensures StrictWeakOrder(RawBefore(sortBy))
  {
    var less := RawBefore(sortBy);
    if sortBy == "date" {
      forall a: RemoteFile ensures !less(a, a) {
        LexLessIrreflexive(TimeText(a));
      }
      forall a: RemoteFile, b: RemoteFile, c: RemoteFile | less(a, b) && less(b, c) ensures less(a, c) {
        LexLessTransitive(TimeText(c), TimeText(b), TimeText(a));
      }
      forall a: RemoteFile, b: RemoteFile, c: RemoteFile | !less(a, b) && !less(b, c) ensures !less(a, c) {
        LexLessNegTransitive(TimeText(c), TimeText(b), TimeText(a));
      }
    } else if sortBy == "type" {
      forall a: RemoteFile ensures !less(a, a) {
        LexLessIrreflexive(a.mimeType);
        LexLessIrreflexive(a.name);
      }
      forall a: RemoteFile, b: RemoteFile, c: RemoteFile | less(a, b) && less(b, c) ensures less(a, c) {
        RawTypeLessTransitive(a, b, c);
      }
      forall a: RemoteFile, b: RemoteFile, c: RemoteFile | !less(a, b) && !less(b, c) ensures !less(a, c) {
        if less(a, c) { RawTypeLessSplit(a, b, c); }
      }
    } else if sortBy != "size" {
      forall a: RemoteFile ensures !less(a, a) {
        LexLessIrreflexive(Lower(a.name));
      }
      forall a: RemoteFile, b: RemoteFile, c: RemoteFile | less(a, b) && less(b, c) ensures less(a, c) {
        LexLessTransitive(Lower(a.name), Lower(b.name), Lower(c.name));
      }
      forall a: RemoteFile, b: RemoteFile, c: RemoteFile | !less(a, b) && !less(b, c) ensures !less(a, c) {
        LexLessNegTransitive(Lower(a.name), Lower(b.name), Lower(c.name));
      }
    }
  }

  /** The sort of `list_files`, then `reverse()` with `-r`. */
  function SortListing(items: seq<RemoteFile>, sortBy: string, reverseSort: bool): seq<RemoteFile> {
    var sorted := Sort(items, RawBefore(sortBy));
    if reverseSort then Reverse(sorted) else sorted
  }

  /** A permutation of the listing, sorted by the key with ties in listing
      order, and exactly reversed with `-r`. */
  lemma SortListingSpec(items: seq<RemoteFile>, sortBy: string, reverseSort: bool)
    ensures multiset(SortListing(items, sortBy, reverseSort)) == multiset(items)
    ensures !reverseSort ==> Sorted(SortListing(items, sortBy, reverseSort), RawBefore(sortBy))
    ensures !reverseSort ==> forall x :: TiedWith(SortListing(items, sortBy, reverseSort), x, RawBefore(sortBy))
                                      == TiedWith(items, x, RawBefore(sortBy))
    ensures forall i :: 0 <= i < |items| ==>
              SortListing(items, sortBy, true)[i] == SortListing(items, sortBy, false)[|items| - 1 - i]
  {
    var less := RawBefore(sortBy);
    RawBeforeIsStrictWeakOrder(sortBy);
    SortSorted(items, less);
    forall x ensures TiedWith(Sort(items, less), x, less) == TiedWith(items, x, less) {
      SortStable(items, x, less);
    }
    ReversePermutes(Sort(items, less));
  }

  /** Under `size`, an entry without a size ties with an entry of size 0. */
  lemma MissingSizeIsZero(a: RemoteFile, b: RemoteFile)
    requires a.size.None? && b.size == Some(0)
    ensures Tied(a, b, RawBefore("size"))
  {
  }

  /** The `type` key is case-sensitive: of two plain files named "B" and
      "a", "B" comes first (the newer explorer lower-cases and puts "a" first). */
  lemma TypeKeyIsCaseSensitive(a: RemoteFile, b: RemoteFile)
    requires a.mimeType == b.mimeType && a.name == "B" && b.name == "a"
    ensures RawBefore("type")(a, b)
  {
    assert 'B' < 'a';
  }

  // ---------------------------------------------------------------------
  // Child paths of a recursive listing

  /** `path.rstrip('/') + '/' + name`. */
  function ChildPath(path: string, name: string): string {
    StripRight(path) + "/" + name
  }

  /** The join is a slash right after the parent with its trailing slashes
      cut off, and resolving the child path walks the parent's segments and
      then the name's, whatever the name holds. */
  lemma ChildPathSpec(path: string, name: string)
    ensures var head := StripRight(path);
      ChildPath(path, name)[|head|] == '/' && (head == [] || head[|head| - 1] != '/')
    ensures Segments(ChildPath(path, name)) == Segments(path) + Segments(name)
  {
    var head := StripRight(path);
    SegmentsUnstripped(ChildPath(path, name));
    SplitConcat(head, name);
    NonEmptyAppend(Split(head), Split(name));
    StripRightKeepsPieces(path);
    SegmentsUnstripped(path);
    SegmentsUnstripped(name);
  }

  /** A folder name without a slash is one more segment, so the child path
      has exactly one slash at the join. */
  lemma ChildPathOfSegment(path: string, name: string)
    requires IsSegment(name)
    ensures Segments(ChildPath(path, name)) == Segments(path) + [name]
    ensures forall i :: |StripRight(path)| < i < |ChildPath(path, name)| ==> ChildPath(path, name)[i] != '/'
  {
    ChildPathSpec(path, name);
    SegmentsUnstripped(name);
    SplitNoSlash(name);
    assert NonEmpty([name]) == [name];
    ChildPathTail(path, name);
  }

  /** After the join come the name's own characters. */
  lemma ChildPathTail(path: string, name: string)
    requires '/' !in name
    ensures forall i :: |StripRight(path)| < i < |ChildPath(path, name)| ==> ChildPath(path, name)[i] != '/'
  {
    var c := ChildPath(path, name);
    forall i | |StripRight(path)| < i < |c| ensures c[i] != '/' {
      assert c[i] == name[i - |StripRight(path)| - 1];
    }
  }

  // ---------------------------------------------------------------------
  // The object

  /** `files` in front of a listing that was read to the end. */
  function AfterFiles(files: seq<RemoteFile>, o: Option<seq<RemoteFile>>): Option<seq<RemoteFile>> {
    if o.Some? then Some(files + o.value) else None
  }

  lemma AfterNothing(o: Option<seq<RemoteFile>>)
    ensures AfterFiles([], o) == o
  {
    if o.Some? { assert [] + o.value == o.value; }
  }

  lemma AfterFilesAfter(a: seq<RemoteFile>, b: seq<RemoteFile>, o: Option<seq<RemoteFile>>)
    ensures AfterFiles(a, AfterFiles(b, o)) == AfterFiles(a + b, o)
  {
    if o.Some? { assert a + (b + o.value) == (a + b) + o.value; }
  }

  /** Reading page `p` of a listing whose first `p` pages gave `all`. */
  lemma CollectAdvance(pages: seq<Page>, p: nat, all: seq<RemoteFile>, showHidden: bool)
    requires p < |pages|
    requires Collect(pages, showHidden) == AfterFiles(all, Collect(pages[p..], showHidden))
    ensures pages[p].Failed? ==> Collect(pages, showHidden) == None
    ensures pages[p].Page? ==>
      Collect(pages, showHidden) == AfterFiles(all + Visible(pages[p].files, showHidden), Collect(pages[p + 1..], showHidden))
  {
    assert pages[p..][0] == pages[p] && pages[p..][1..] == pages[p + 1..];
    if pages[p].Page? {
      AfterFilesAfter(all, Visible(pages[p].files, showHidden), Collect(pages[p + 1..], showHidden));
    }
  }

  /** The listing of `folderId` after resolution: every page concatenated
      and sorted, or nothing as soon as a page fails. */
  function ListingOf(d: Drive, folderId: string, showHidden: bool, sortBy: string, reverseSort: bool): seq<RemoteFile> {
    var all := Collect(Pages(d, folderId), showHidden);
    if all.Some? then SortListing(all.value, sortBy, reverseSort) else []
  }

  /** An unfolding step of `ListingOf`, no more: it hands the body of the
      function to the method that computes the listing page by page. */
  lemma ListingOfCollected(d: Drive, folderId: string, showHidden: bool, sortBy: string, reverseSort: bool)
    ensures var all := Collect(Pages(d, folderId), showHidden);
      ListingOf(d, folderId, showHidden, sortBy, reverseSort) == if all.Some? then SortListing(all.value, sortBy, reverseSort) else []
  {
  }

  class GDriveLs {
    /** The `paths` entry of the cache document, `None` when absent. */
    var paths: Option<map<string, FolderRef>>
    var file: LegacyFile
    /** Whether writing the cache file succeeds. */
    var writable: bool
    /** Whether a failing save fails after the open has emptied the file. */
    var truncates: bool
    const drive: Drive

    constructor (d: Drive, stored: LegacyFile, canWrite: bool, emptiesOnFailure: bool)
      ensures paths == LoadLegacyCache(stored) && file == stored && drive == d
      ensures writable == canWrite && truncates == emptiesOnFailure
    {
      paths := LoadLegacyCache(stored);
      file, writable, truncates, drive := stored, canWrite, emptiesOnFailure, d;
    }

    /** The file a failed save leaves: as it was, or emptied by the open,
        which the next load cannot parse. */
    function FailedSave(oldFile: LegacyFile): LegacyFile
      reads this
    {
      if truncates then Unreadable else oldFile
    }

    /** `_save_cache`: the document written holds the current paths. */
    method SaveCache() returns (ok: bool)
      modifies this`file
      ensures ok == writable
      ensures ok ==> file == Parsed(paths)
      ensures !ok ==> file == FailedSave(old(file))
    {
      ok := writable;
      if ok {
        file := Parsed(paths);
      } else if truncates {
        file := Unreadable;
      }
    }

    /** `_resolve_path`: "" and "/" are the root with no lookup; a document
        without `paths` raises `KeyError`; a cached path is returned as
        stored; otherwise one query per segment, a missing folder or an HTTP
        error raising `ValueError`, and only a full success is cached (the
        entry stays in memory when the save fails). */
    method ResolvePath(path: string) returns (r: Result<FolderRef, LsError>, calls: seq<Query>)
      modifies this`paths, this`file
      ensures path == "" || path == "/" ==> r == Ok(RootRef) && calls == [] && unchanged(this)
      ensures path != "" && path != "/" && old(paths).None? ==> r == Err(MissingPathsKey) && calls == [] && unchanged(this)
      ensures path != "" && path != "/" && old(paths).Some? && path in old(paths).value ==>
        r == Ok(old(paths).value[path]) && calls == [] && unchanged(this)
      ensures path != "" && path != "/" && old(paths).Some? && path !in old(paths).value ==>
        var w := Walk(drive, Segments(path), RootRef);
        && calls == w.calls
        && (w.Stuck? && w.why.NoMatch? ==> r == Err(FolderNotFound(w.segment, path)) && unchanged(this))
        && (w.Stuck? && !w.why.NoMatch? ==> r == Err(ResolveFailed(path)) && unchanged(this))
        && (w.Reached? ==>
              && paths == Some(old(paths).value[path := w.folder])
              && (if writable then r == Ok(w.folder) && file == Parsed(paths)
                  else r == Err(SaveFailed) && file == FailedSave(old(file))))
    {
      if path == "/" || path == "" {
        return Ok(RootRef), [];
      }
      if paths.None? {
        return Err(MissingPathsKey), [];
      }
      if path in paths.value {
        return Ok(paths.value[path]), [];
      }
      var parts := Segments(path);
      var current := RootRef;
      calls := [];
      var i := 0;
      while i < |parts|
        invariant 0 <= i <= |parts|
        invariant Walk(drive, parts, RootRef) == After(calls, Walk(drive, parts[i..], current))
        invariant paths == old(paths) && file == old(file)
      {
        var query := Query(current.id, parts[i]);
        var found := FindFolder(drive, current.id, parts[i]);
        WalkStep(drive, parts[i..], current);
        assert parts[i..][0] == parts[i] && parts[i..][1..] == parts[i + 1..];
        var before := calls;
        calls := calls + [query];
        if !found.Found? {
          assert Walk(drive, parts, RootRef) == Stuck(parts[i], found, calls);
        }
        if found.NoMatch? {
          return Err(FolderNotFound(parts[i], path)), calls;
        } else if found.LookupFailed? {
          return Err(ResolveFailed(path)), calls;
        }
        current := found.folder;
        i := i + 1;
        AfterAfter(before, [query], Walk(drive, parts[i..], current));
      }
      paths := Some(paths.value[path := current]);
      var saved := SaveCache();
      if !saved {
        return Err(SaveFailed), calls;
      }
      r := Ok(current);
    }

    /** Lines 181-223 of `list_files`: every page of the folder's listing,
        trashed entries only with `show_hidden`, an HTTP error giving the
        empty listing; then the sort and the optional reverse. */
    method ListFolder(folderId: string, showHidden: bool, sortBy: string, reverseSort: bool)
      returns (items: seq<RemoteFile>)
      ensures items == ListingOf(drive, folderId, showHidden, sortBy, reverseSort)
    {
      var pages := Pages(drive, folderId);
      var all: seq<RemoteFile> := [];
      var p := 0;
      assert pages[p..] == pages;
      AfterNothing(Collect(pages, showHidden));
      while p < |pages|
        invariant 0 <= p <= |pages|
        invariant Collect(pages, showHidden) == AfterFiles(all, Collect(pages[p..], showHidden))
      {
        CollectAdvance(pages, p, all, showHidden);
        if pages[p].Failed? {
          ListingOfCollected(drive, folderId, showHidden, sortBy, reverseSort);
          return [];
        }
        all := all + Visible(pages[p].files, showHidden);
        p := p + 1;
      }
      assert pages[p..] == [] && all + [] == all;
      ListingOfCollected(drive, folderId, showHidden, sortBy, reverseSort);
      items := SortListing(all, sortBy, reverseSort);
    }

    /** `list_files`: a resolution `ValueError` is reported as the empty
        listing; the other failures propagate. */
    method ListFiles(path: string, showHidden: bool, sortBy: string, reverseSort: bool)
      returns (r: Result<seq<RemoteFile>, LsError>, calls: seq<Query>)
      modifies this`paths, this`file
      ensures path == "" || path == "/" ==>
        r == Ok(ListingOf(drive, RootId, showHidden, sortBy, reverseSort)) && calls == [] && unchanged(this)
      ensures path != "" && path != "/" && old(paths).None? ==> r == Err(MissingPathsKey) && calls == [] && unchanged(this)
      ensures path != "" && path != "/" && old(paths).Some? && path in old(paths).value ==>
        r == Ok(ListingOf(drive, old(paths).value[path].id, showHidden, sortBy, reverseSort)) && calls == [] && unchanged(this)
      ensures path != "" && path != "/" && old(paths).Some? && path !in old(paths).value ==>
        var w := Walk(drive, Segments(path), RootRef);
        && calls == w.calls
        && (w.Stuck? ==> r == Ok([]) && unchanged(this))
        && (w.Reached? ==>
              && paths == Some(old(paths).value[path := w.folder])
              && file == (if writable then Parsed(paths) else FailedSave(old(file)))
              && r == if writable then Ok(ListingOf(drive, w.folder.id, showHidden, sortBy, reverseSort))
                      else Err(SaveFailed))
    {
      var folder;
      folder, calls := ResolvePath(path);
      if folder.Err? {
        if folder.error.FolderNotFound? || folder.error.ResolveFailed? {
          return Ok([]), calls;
        }
        return Err(folder.error), calls;
      }
      var items := ListFolder(folder.value.id, showHidden, sortBy, reverseSort);
      r := Ok(items);
    }
  }
}
