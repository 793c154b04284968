/** Path resolution of gdls: a slash-separated path is split into its
    non-empty segments, which are looked up one at a time from the root
    folder; successful resolutions are cached under the path as given. */
module Paths {
  import opened Core
  import opened Remote
  import opened Cache

  /** Index of the first '/' in `s`, or `|s|` when there is none. */
  function FirstSlash(s: string): (k: nat)
    ensures k <= |s|
    ensures forall i :: 0 <= i < k ==> s[i] != '/'
    ensures k < |s| ==> s[k] == '/'
  {
    if s == [] || s[0] == '/' then 0 else 1 + FirstSlash(s[1..])
  }

  /** `s.split('/')`: the pieces between slashes, empty ones included. */
  function Split(s: string): (r: seq<string>)
    ensures |r| >= 1
    ensures forall p :: p in r ==> '/' !in p
    decreases |s|
  {
    var k := FirstSlash(s);
    if k == |s| then [s] else [s[..k]] + Split(s[k + 1..])
  }

  /** `s.lstrip('/')`. */
  function StripLeft(s: string): string {
    if s != [] && s[0] == '/' then StripLeft(s[1..]) else s
  }

  /** `s.rstrip('/')`: a prefix that does not end in a slash, and only
      slashes are cut off. */
  function StripRight(s: string): (r: string)
    ensures r == [] || r[|r| - 1] != '/'
    ensures r <= s
    ensures forall i :: |r| <= i < |s| ==> s[i] == '/'
  {
    if s != [] && s[|s| - 1] == '/' then StripRight(s[..|s| - 1]) else s
  }

  /** The pieces that are not empty, in order. */
  function NonEmpty(pieces: seq<string>): (r: seq<string>)
    ensures forall p :: p in r <==> p in pieces && p != ""
  {
    if pieces == [] then []
    else (if pieces[0] != "" then [pieces[0]] else []) + NonEmpty(pieces[1..])
  }

  /** `[p for p in path.strip('/').split('/') if p]`: every segment is
      non-empty and holds no slash. */
  function Segments(path: string): (r: seq<string>)
    ensures forall p :: p in r ==> IsSegment(p)
  {
    NonEmpty(Split(StripRight(StripLeft(path))))
  }

  /** A valid segment: what `Segments` can produce. */
  predicate IsSegment(p: string) {
    p != "" && '/' !in p
  }

  lemma {:induction false} NonEmptyAppend(a: seq<string>, b: seq<string>)
    ensures NonEmpty(a + b) == NonEmpty(a) + NonEmpty(b)
  {
    if a != [] {
      assert (a + b)[1..] == a[1..] + b;
      NonEmptyAppend(a[1..], b);
    } else {
      assert a + b == b;
    }
  }

  lemma {:induction false} NonEmptyOfSegments(segs: seq<string>)
    requires forall p :: p in segs ==> p != ""
    ensures NonEmpty(segs) == segs
  {
    if segs != [] {
      assert segs[0] in segs;
      assert forall p :: p in segs[1..] ==> p in segs;
      NonEmptyOfSegments(segs[1..]);
      assert segs == [segs[0]] + segs[1..];
    }
  }

  lemma SplitNoSlash(n: string)
    requires '/' !in n
    ensures Split(n) == [n]
  {
    assert FirstSlash(n) == |n|;
  }

  /** Joining two texts with a slash joins their pieces. */
  lemma {:induction false} SplitConcat(a: string, b: string)
    ensures Split(a + "/" + b) == Split(a) + Split(b)
    decreases |a|
  {
    var s := a + "/" + b;
    var k := FirstSlash(a);
    if k == |a| {
      assert FirstSlash(s) == |a| by {
        assert s[|a|] == '/';
        assert forall i :: 0 <= i < |a| ==> s[i] == a[i];
      }
      assert s[..|a|] == a;
      assert s[|a| + 1..] == b;
    } else {
      assert FirstSlash(s) == k by {
        assert forall i :: 0 <= i < |a| ==> s[i] == a[i];
        assert s[k] == a[k];
      }
      assert s[..k] == a[..k];
      assert s[k + 1..] == a[k + 1..] + "/" + b;
      SplitConcat(a[k + 1..], b);
    }
  }

  /** Splitting `a + "/" + n` adds `n` as a last piece. */
  lemma SplitAppend(a: string, n: string)
    requires '/' !in n
    ensures Split(a + "/" + n) == Split(a) + [n]
  {
    SplitConcat(a, n);
    SplitNoSlash(n);
  }

  /** Leading slashes only add empty pieces. */
  lemma {:induction false} StripLeftKeepsPieces(s: string)
    ensures NonEmpty(Split(StripLeft(s))) == NonEmpty(Split(s))
    decreases |s|
  {
    if s != [] && s[0] == '/' {
      StripLeftKeepsPieces(s[1..]);
      assert FirstSlash(s) == 0;
      assert Split(s) == [""] + Split(s[1..]);
      NonEmptyAppend([""], Split(s[1..]));
    }
  }

  lemma NonEmptyDropsEmpty(pieces: seq<string>)
    ensures NonEmpty(pieces + [""]) == NonEmpty(pieces)
  {
    NonEmptyAppend(pieces, [""]);
    assert NonEmpty([""]) == [];
    assert NonEmpty(pieces) + [] == NonEmpty(pieces);
  }

  /** Trailing slashes only add empty pieces. */
  lemma {:induction false} StripRightKeepsPieces(s: string)
    ensures NonEmpty(Split(StripRight(s))) == NonEmpty(Split(s))
    decreases |s|
  {
    if s != [] && s[|s| - 1] == '/' {
      var init := s[..|s| - 1];
      assert Split(s) == Split(init) + [""] by {
        assert s == init + "/" + "";
        SplitAppend(init, "");
      }
      assert StripRight(s) == StripRight(init);
      StripRightKeepsPieces(init);
      NonEmptyDropsEmpty(Split(init));
    }
  }

  /** Stripping is irrelevant once empty pieces are dropped. */
  lemma SegmentsUnstripped(path: string)
    ensures Segments(path) == NonEmpty(Split(path))
  {
    StripRightKeepsPieces(StripLeft(path));
    StripLeftKeepsPieces(path);
  }

  /** The canonical path of a sequence of segments: "/a/b/c" ("" for none). */
  function Join(segs: seq<string>): string {
    if segs == [] then "" else Join(segs[..|segs| - 1]) + "/" + segs[|segs| - 1]
  }

  lemma {:induction false} SplitJoin(segs: seq<string>)
    requires forall p :: p in segs ==> IsSegment(p)
    ensures Split(Join(segs)) == [""] + segs
  {
    if segs != [] {
      var init := segs[..|segs| - 1];
      assert segs[|segs| - 1] in segs;
      assert forall p :: p in init ==> p in segs;
      var last := segs[|segs| - 1];
      SplitJoin(init);
      SplitAppend(Join(init), last);
      assert Join(segs) == Join(init) + "/" + last;
      assert segs == init + [last];
      assert Split(Join(segs)) == ([""] + init) + [last];
      assert ([""] + init) + [last] == [""] + (init + [last]);
    }
  }

  /** Splitting gives back the segments a canonical path was built from. */
  lemma SegmentsOfJoin(segs: seq<string>)
    requires forall p :: p in segs ==> IsSegment(p)
    ensures Segments(Join(segs)) == segs
  {
    SegmentsUnstripped(Join(segs));
    SplitJoin(segs);
    NonEmptyAppend([""], segs);
    NonEmptyOfSegments(segs);
  }

  /** "/A/B" has the two segments "A" and "B". */
  lemma SegmentsOfTwoFolders()
    ensures Segments("/A/B") == ["A", "B"]
  {
    assert Join(["A", "B"]) == "/A/B" by {
      assert ["A", "B"][..1] == ["A"];
      assert ["A"][..0] == [];
    }
    SegmentsOfJoin(["A", "B"]);
  }

  /** A path of slashes only (such as "//") has no segments. */
  lemma {:induction false} SlashesOnlyHaveNoSegments(path: string)
    requires forall i :: 0 <= i < |path| ==> path[i] == '/'
    ensures Segments(path) == []
    decreases |path|
  {
    SegmentsUnstripped(path);
    if path != [] {
      SlashesOnlyHaveNoSegments(path[1..]);
      SegmentsUnstripped(path[1..]);
      assert FirstSlash(path) == 0;
      assert Split(path) == [""] + Split(path[1..]);
      NonEmptyAppend([""], Split(path[1..]));
    }
  }

  const RootRef: FolderRef := FolderRef(RootId, RootName)

  /** A path of slashes only, such as "//", reaches the root with no query. */
  lemma SlashesOnlyReachRoot(d: Drive, path: string)
    requires forall i :: 0 <= i < |path| ==> path[i] == '/'
    ensures Walk(d, Segments(path), RootRef) == Reached(RootRef, [])
  {
    SlashesOnlyHaveNoSegments(path);
  }

  /** `w` with the queries `qs` made before it. */
  function After(qs: seq<Query>, w: Walked): Walked {
    w.(calls := qs + w.calls)
  }

  lemma AfterAfter(a: seq<Query>, b: seq<Query>, w: Walked)
    ensures After(a, After(b, w)) == After(a + b, w)
  {
    assert a + (b + w.calls) == (a + b) + w.calls;
  }

  /** One step of `Walk`. */
  lemma WalkStep(d: Drive, parts: seq<string>, from: FolderRef)
    requires parts != []
    ensures var found := FindFolder(d, from.id, parts[0]);
      found.Found? ==> Walk(d, parts, from) == After([Query(from.id, parts[0])], Walk(d, parts[1..], found.folder))
    ensures var found := FindFolder(d, from.id, parts[0]);
      !found.Found? ==> Walk(d, parts, from) == Stuck(parts[0], found, [Query(from.id, parts[0])])
  {
  }

  class PathResolver {
    const drive: Drive
    const cache: DriveCache

    constructor (d: Drive, c: DriveCache)
      ensures drive == d && cache == c
    {
      drive, cache := d, c;
    }

    /** `_resolve_path_components`: one query per segment from the root, a
        failed query (no match or HTTP error) raising `DrivePathNotFoundError`
        for that segment and the whole path. */
    method ResolveComponents(path: string) returns (r: Result<PathInfo, Error>, calls: seq<Query>)
      ensures var w := Walk(drive, Segments(path), RootRef);
        && calls == w.calls
        && (w.Stuck? ==> r == Err(PathNotFound(w.segment, path)))
        && (w.Reached? ==> r == MakePathInfo(w.folder.id, w.folder.name, path))
    {
      var parts := Segments(path);
      var current := RootRef;
      calls := [];
      var i := 0;
      while i < |parts|
        invariant 0 <= i <= |parts|
        invariant Walk(drive, parts, RootRef) == After(calls, Walk(drive, parts[i..], current))
      {
        var query := Query(current.id, parts[i]);
        var found := FindFolder(drive, current.id, parts[i]);
        WalkStep(drive, parts[i..], current);
        assert parts[i..][0] == parts[i] && parts[i..][1..] == parts[i + 1..];
        var before := calls;
        calls := calls + [query];
        if !found.Found? {
          r := Err(PathNotFound(parts[i], path));
          return;
        }
        current := found.folder;
        i := i + 1;
        AfterAfter(before, [query], Walk(drive, parts[i..], current));
      }
      r := MakePathInfo(current.id, current.name, path);
    }

    /** `resolve`: "" and "/" are the root with no lookup at all; a cached
        path is returned with no remote query; otherwise the segments are
        walked and only a full success is cached, under the path as given.
        A failed save raises `DriveCacheError` after the entry was stored. */
    method Resolve(path: string, now: int) returns (r: Result<PathInfo, Error>, calls: seq<Query>)
      modifies cache
      ensures path == "" || path == "/" ==> r == Ok(RootInfo()) && calls == [] && unchanged(cache)
      ensures path != "" && path != "/" && old(cache.GetPath(path)).Ok? && old(cache.GetPath(path)).value.Some? ==>
        r == Ok(old(cache.GetPath(path)).value.value) && calls == [] && unchanged(cache)
      ensures path != "" && path != "/" && old(cache.GetPath(path)).Err? ==>
        r == Err(old(cache.GetPath(path)).error) && calls == [] && unchanged(cache)
      ensures path != "" && path != "/" && old(cache.GetPath(path)) == Ok(None) ==>
        var w := Walk(drive, Segments(path), RootRef);
        && calls == w.calls
        && (w.Stuck? ==> r == Err(PathNotFound(w.segment, path)) && unchanged(cache))
        && (w.Reached? && MakePathInfo(w.folder.id, w.folder.name, path).Err? ==>
              r == MakePathInfo(w.folder.id, w.folder.name, path) && unchanged(cache))
        && (w.Reached? && MakePathInfo(w.folder.id, w.folder.name, path).Ok? ==>
              && cache.paths == old(cache.paths)[path := PathEntry(w.folder.id, w.folder.name, now)]
              && cache.folderSizes == old(cache.folderSizes)
              && cache.writable == old(cache.writable)
              && cache.truncates == old(cache.truncates)
              && cache.SavedAs(if old(cache.writable) then Pass else Fail(CacheSaveFailed), old(cache.file))
              && r == (if old(cache.writable) then MakePathInfo(w.folder.id, w.folder.name, path)
                       else Err(CacheSaveFailed)))
      ensures r.Ok? && path != "" && path != "/" ==> cache.GetPath(path) == Ok(Some(r.value))
    {
      if path == "" || path == "/" {
        return Ok(RootInfo()), [];
      }
      var cached := cache.GetPath(path);
      if cached.Err? {
        return Err(cached.error), [];
      }
      if cached.value.Some? {
        return Ok(cached.value.value), [];
      }
      var info;
      info, calls := ResolveComponents(path);
      if info.Err? {
        return info, calls;
      }
      var saved := cache.SetPath(path, info.value, now);
      if saved.Fail? {
        return Err(saved.error), calls;
      }
      r := info;
    }
  }

  /** Resolving the same path twice: the second time makes no remote query
      once the first succeeded. */
  method ResolveTwice(resolver: PathResolver, path: string, now: int, later: int)
    returns (first: Result<PathInfo, Error>, second: Result<PathInfo, Error>, secondCalls: seq<Query>)
    modifies resolver.cache
    ensures first.Ok? ==> second == first && secondCalls == []
  {
    var calls;
    first, calls := resolver.Resolve(path, now);
    second, secondCalls := resolver.Resolve(path, later);
  }
}
