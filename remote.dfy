/** The remote drive as the core sees it: a finite, read-only map from a
    folder id to the pages its child listing comes in, where any page may
    fail. Listing `'<id>' in parents` returns those pages in order (the
    next-page token is present on every page but the last); the query
    `trashed=false` drops trashed entries from each page. The by-name
    folder query of the path resolvers is answered from the same pages. */
module Remote {
  import opened Core

  /** A timestamp as the service sends it, with the instant (in seconds)
      its text denotes when it parses. */
  datatype TimeField = TimeField(text: string, seconds: Option<int>)

  /** One entry of a listing page. A missing `size` is `None`; a missing
      `mimeType` is the empty string and a missing `ownedByMe` is `true`,
      the defaults the callers use. */
  datatype RemoteFile = RemoteFile(
    id: string,
    name: string,
    mimeType: string,
    size: Option<nat>,
    modifiedTime: Option<TimeField>,
    ownedByMe: bool,
    shared: bool,
    trashed: bool)

  /** One answered page, or a request that raised an HTTP error. */
  datatype Page = Page(files: seq<RemoteFile>) | Failed

  datatype Drive = Drive(listings: map<string, seq<Page>>)

  /** The pages of `parent`'s listing; a folder the map does not list has
      one empty page. */
  function Pages(d: Drive, parent: string): (r: seq<Page>)
    ensures |r| >= 1
    ensures parent in d.listings && d.listings[parent] != [] ==> r == d.listings[parent]
  {
    if parent in d.listings && d.listings[parent] != [] then d.listings[parent] else [Page([])]
  }

  predicate Shown(f: RemoteFile, includeTrashed: bool) {
    includeTrashed || !f.trashed
  }

  /** The entries a page returns for the query: all of them when trashed
      entries are included, else the untrashed ones, in page order. */
  function Visible(files: seq<RemoteFile>, includeTrashed: bool): (r: seq<RemoteFile>)
    ensures |r| <= |files|
    ensures forall f :: f in r <==> f in files && Shown(f, includeTrashed)
    ensures includeTrashed ==> r == files
  {
    if files == [] then []
    else (if Shown(files[0], includeTrashed) then [files[0]] else []) + Visible(files[1..], includeTrashed)
  }

  /** The filter keeps page order: two runs of entries give their shown
      entries one after the other. */
  lemma {:induction false} VisibleAppend(a: seq<RemoteFile>, b: seq<RemoteFile>, includeTrashed: bool)
    ensures Visible(a + b, includeTrashed) == Visible(a, includeTrashed) + Visible(b, includeTrashed)
  {
    if a == [] {
      assert a + b == b;
    } else {
      assert (a + b)[0] == a[0] && (a + b)[1..] == a[1..] + b;
      VisibleAppend(a[1..], b, includeTrashed);
    }
  }

  /** A shown entry is kept as often as the page holds it, a hidden one
      never. */
  lemma {:induction false} VisibleCount(files: seq<RemoteFile>, includeTrashed: bool)
    ensures forall f :: multiset(Visible(files, includeTrashed))[f] == if Shown(f, includeTrashed) then multiset(files)[f] else 0
  {
    if files != [] {
      VisibleCount(files[1..], includeTrashed);
      assert files == [files[0]] + files[1..];
    }
  }

  /** All pages' entries concatenated in page order, or `None` as soon as a
      page fails. */
  function Collect(pages: seq<Page>, includeTrashed: bool): (r: Option<seq<RemoteFile>>)
  {
    if pages == [] then Some([])
    else match pages[0]
      case Failed => None
      case Page(files) =>
        match Collect(pages[1..], includeTrashed)
        case None => None
        case Some(rest) => Some(Visible(files, includeTrashed) + rest)
  }

  /** The listing fails exactly when one of its pages fails, and otherwise
      holds exactly the shown entries of every page. */
  lemma {:induction false} CollectSpec(pages: seq<Page>, includeTrashed: bool)
    ensures Collect(pages, includeTrashed).None? <==> Failed in pages
    ensures Collect(pages, includeTrashed).Some? ==>
      forall f :: f in Collect(pages, includeTrashed).value <==>
        exists i :: 0 <= i < |pages| && pages[i].Page? && f in pages[i].files && Shown(f, includeTrashed)
  {
    if pages != [] {
      CollectSpec(pages[1..], includeTrashed);
      assert pages == [pages[0]] + pages[1..];
      if pages[0].Page? && Collect(pages, includeTrashed).Some? {
        var all := Collect(pages, includeTrashed).value;
        forall f ensures f in all <==>
          exists i :: 0 <= i < |pages| && pages[i].Page? && f in pages[i].files && Shown(f, includeTrashed)
        {
          if f in all && f !in Visible(pages[0].files, includeTrashed) {
            var i :| 0 <= i < |pages[1..]| && pages[1..][i].Page? && f in pages[1..][i].files && Shown(f, includeTrashed);
            assert pages[i + 1] == pages[1..][i];
          }
          if exists i :: 0 <= i < |pages| && pages[i].Page? && f in pages[i].files && Shown(f, includeTrashed) {
            var i :| 0 <= i < |pages| && pages[i].Page? && f in pages[i].files && Shown(f, includeTrashed);
            if i > 0 {
              assert pages[1..][i - 1] == pages[i];
            }
          }
        }
      }
    }
  }

  /** The folder query: a non-trashed folder with exactly that name. */
  predicate Matches(f: RemoteFile, name: string) {
    !f.trashed && f.mimeType == FolderMime && f.name == name
  }

  /** The first entry of `files` that matches `name`. */
  function FirstMatch(files: seq<RemoteFile>, name: string): Option<RemoteFile> {
    if files == [] then None
    else if Matches(files[0], name) then Some(files[0])
    else FirstMatch(files[1..], name)
  }

  /** `FirstMatch` finds nothing exactly when nothing matches, and otherwise
      the matching entry that no other matching entry precedes. */
  lemma {:induction false} FirstMatchSpec(files: seq<RemoteFile>, name: string)
    ensures FirstMatch(files, name).None? <==> forall f :: f in files ==> !Matches(f, name)
    ensures FirstMatch(files, name).Some? ==>
      exists k :: 0 <= k < |files| && files[k] == FirstMatch(files, name).value && Matches(files[k], name)
                  && forall j :: 0 <= j < k ==> !Matches(files[j], name)
  {
    if files != [] && !Matches(files[0], name) {
      var r := FirstMatch(files[1..], name);
      FirstMatchSpec(files[1..], name);
      assert forall f :: f in files <==> f == files[0] || f in files[1..];
      if r.Some? {
        var k :| 0 <= k < |files[1..]| && files[1..][k] == r.value && Matches(files[1..][k], name)
                 && forall j :: 0 <= j < k ==> !Matches(files[1..][j], name);
        assert files[k + 1] == r.value;
        forall j | 0 <= j < k + 1 ensures !Matches(files[j], name) {
          if j > 0 { assert files[j] == files[1..][j - 1]; }
        }
      }
    } else if files != [] {
      assert files[0] in files;
    }
  }

  lemma {:induction false} FirstMatchAppend(a: seq<RemoteFile>, b: seq<RemoteFile>, name: string)
    ensures FirstMatch(a + b, name) == if FirstMatch(a, name).Some? then FirstMatch(a, name) else FirstMatch(b, name)
  {
    if a != [] {
      assert (a + b)[1..] == a[1..] + b;
      FirstMatchAppend(a[1..], b, name);
    } else {
      assert a + b == b;
    }
  }

  lemma {:induction false} FirstMatchVisible(files: seq<RemoteFile>, name: string)
    ensures FirstMatch(Visible(files, false), name) == FirstMatch(files, name)
  {
    if files != [] {
      FirstMatchVisible(files[1..], name);
      var v := Visible(files[1..], false);
      if Shown(files[0], false) {
        assert Visible(files, false) == [files[0]] + v;
        assert ([files[0]] + v)[1..] == v;
      } else {
        assert Visible(files, false) == v;
      }
    }
  }

  datatype FolderRef = FolderRef(id: string, name: string)

  /** Outcome of one by-name folder query. */
  datatype Lookup = Found(folder: FolderRef) | NoMatch | LookupFailed

  /** The by-name query reads the pages in order: a page that fails before
      a match is found makes the query fail. */
  function FindIn(pages: seq<Page>, name: string): Lookup {
    if pages == [] then NoMatch
    else match pages[0]
      case Failed => LookupFailed
      case Page(files) =>
        match FirstMatch(files, name)
        case Some(f) => Found(FolderRef(f.id, f.name))
        case None => FindIn(pages[1..], name)
  }

  /** `_find_folder_in_parent`: the child folder of `parent` named `name`. */
  function FindFolder(d: Drive, parent: string, name: string): Lookup {
    FindIn(Pages(d, parent), name)
  }

  /** When the parent's listing can be read in full, the query returns the
      first matching folder of that listing (the first one the service
      returns), or nothing when none matches. */
  lemma {:induction false} FindInIsFirstOfListing(pages: seq<Page>, name: string)
    requires Collect(pages, false).Some?
    ensures FindIn(pages, name) == match FirstMatch(Collect(pages, false).value, name)
                                   case Some(f) => Found(FolderRef(f.id, f.name))
                                   case None => NoMatch
  {
    if pages != [] {
      FindInIsFirstOfListing(pages[1..], name);
      var files := pages[0].files;
      FirstMatchAppend(Visible(files, false), Collect(pages[1..], false).value, name);
      FirstMatchVisible(files, name);
    }
  }

  /** One remote by-name query: the parent searched and the name sought. */
  datatype Query = Query(parent: string, name: string)

  /** Walking segments from a folder: the folder reached, or the segment at
      which the walk stopped and why; `calls` lists the queries made. */
  datatype Walked =
    | Reached(folder: FolderRef, calls: seq<Query>)
    | Stuck(segment: string, why: Lookup, calls: seq<Query>)

  /** Resolves `parts` one by one starting from `from`, each lookup using
      the folder the previous one found as parent. */
  function WalkWith(find: (string, string) -> Lookup, parts: seq<string>, from: FolderRef): Walked
    decreases |parts|
  {
    if parts == [] then Reached(from, [])
    else
      var q := Query(from.id, parts[0]);
      match find(from.id, parts[0])
      case Found(next) =>
        var w := WalkWith(find, parts[1..], next);
        w.(calls := [q] + w.calls)
      case other => Stuck(parts[0], other, [q])
  }

  /** The by-name folder query of `d`. */
  function Finder(d: Drive): (string, string) -> Lookup {
    (parent: string, name: string) => FindFolder(d, parent, name)
  }

  /** The segment walk over the drive's folder queries. */
  function Walk(d: Drive, parts: seq<string>, from: FolderRef): Walked {
    WalkWith(Finder(d), parts, from)
  }

  /** `WalkTrace` for any folder query. */
  lemma {:induction false} WalkWithTrace(find: (string, string) -> Lookup, parts: seq<string>, from: FolderRef)
    ensures var w := WalkWith(find, parts, from);
      && (w.Reached? ==> |w.calls| == |parts|)
      && (w.Stuck? ==> 1 <= |w.calls| <= |parts| && w.segment == parts[|w.calls| - 1]
                       && !w.why.Found?
                       && find(w.calls[|w.calls| - 1].parent, w.segment) == w.why)
      && (forall i :: 0 <= i < |w.calls| ==> w.calls[i].name == parts[i])
      && (|w.calls| > 0 ==> w.calls[0].parent == from.id)
    decreases |parts|
  {
    if parts != [] && find(from.id, parts[0]).Found? {
      var next := find(from.id, parts[0]).folder;
      var w' := WalkWith(find, parts[1..], next);
      var q := Query(from.id, parts[0]);
      WalkWithTrace(find, parts[1..], next);
      var calls := [q] + w'.calls;
      assert forall i :: 1 <= i < |calls| ==> calls[i] == w'.calls[i - 1] && parts[i] == parts[1..][i - 1];
      assert |w'.calls| >= 1 ==> calls[|calls| - 1] == w'.calls[|w'.calls| - 1];
    }
  }

  /** What the walk asks: exactly one query per segment on success, queries
      for the segments up to the failing one otherwise, the i-th query for
      the i-th segment and the first one under the start folder. */
  lemma WalkTrace(d: Drive, parts: seq<string>, from: FolderRef)
    ensures var w := Walk(d, parts, from);
      && (w.Reached? ==> |w.calls| == |parts|)
      && (w.Stuck? ==> 1 <= |w.calls| <= |parts| && w.segment == parts[|w.calls| - 1]
                       && !w.why.Found?
                       && FindFolder(d, w.calls[|w.calls| - 1].parent, w.segment) == w.why)
      && (forall i :: 0 <= i < |w.calls| ==> w.calls[i].name == parts[i])
      && (|w.calls| > 0 ==> w.calls[0].parent == from.id)
  {
    WalkWithTrace(Finder(d), parts, from);
  }

  /** `WalkChain` for any folder query. */
  lemma {:induction false} WalkWithChain(find: (string, string) -> Lookup, parts: seq<string>, from: FolderRef)
    ensures var w := WalkWith(find, parts, from);
      && (forall i :: 0 <= i < |w.calls| - 1 ==>
            find(w.calls[i].parent, w.calls[i].name).Found?
            && find(w.calls[i].parent, w.calls[i].name).folder.id == w.calls[i + 1].parent)
      && (w.Reached? && parts == [] ==> w.folder == from)
      && (w.Reached? && parts != [] ==>
            find(w.calls[|w.calls| - 1].parent, w.calls[|w.calls| - 1].name) == Found(w.folder))
    decreases |parts|
  {
    if parts != [] && find(from.id, parts[0]).Found? {
      var next := find(from.id, parts[0]).folder;
      WalkWithChain(find, parts[1..], next);
      WalkWithTrace(find, parts[1..], next);
      var w' := WalkWith(find, parts[1..], next);
      var w := WalkWith(find, parts, from);
      assert forall i :: 1 <= i < |w.calls| ==> w.calls[i] == w'.calls[i - 1];
      if w.Reached? && parts[1..] == [] {
        assert w.calls == [Query(from.id, parts[0])];
      }
    }
  }

  /** What the walk tells: each query but the last found a folder, and the
      next query was made under it; a successful walk ends in the folder the
      last query found (the start folder when there are no segments). */
  lemma WalkChain(d: Drive, parts: seq<string>, from: FolderRef)
    ensures var w := Walk(d, parts, from);
      && (forall i :: 0 <= i < |w.calls| - 1 ==>
            FindFolder(d, w.calls[i].parent, w.calls[i].name).Found?
            && FindFolder(d, w.calls[i].parent, w.calls[i].name).folder.id == w.calls[i + 1].parent)
      && (w.Reached? && parts == [] ==> w.folder == from)
      && (w.Reached? && parts != [] ==>
            FindFolder(d, w.calls[|w.calls| - 1].parent, w.calls[|w.calls| - 1].name) == Found(w.folder))
  {
    WalkWithChain(Finder(d), parts, from);
  }
}
