/** The gdls explorer: listing one folder (fetch every page, keep the owned
    items, annotate folders with their sizes, sort) and computing a folder's
    total size by a recursive walk of the drive that carries, down each
    branch, the set of folders already on that branch. */
module Explorer {
  import opened Strings
  import opened Sorting
  import opened Core
  import opened Remote
  import opened Cache

  // ---------------------------------------------------------------------
  // Recursive size

  /** Entering a folder that the drive lists and that is not yet visited
      leaves fewer listed folders to visit. */
  lemma VisitShrinks(listed: set<string>, visited: set<string>, id: string)
    requires id in listed && id !in visited
    ensures |listed - (visited + {id})| < |listed - visited|
  {
    assert listed - visited == (listed - (visited + {id})) + {id};
  }

  /** `_recursive_folder_size(id, visited)`: 0 for a folder already on the
      branch; otherwise the total of its listing (trashed entries left out)
      with `id` added to the branch. A folder the drive does not list has one
      empty page, so it adds nothing either. */
  function FolderTotal(d: Drive, id: string, visited: set<string>): nat
    decreases |d.listings.Keys - visited|, 2, 0
  {
    if id in visited || id !in d.listings then 0
    else
      VisitShrinks(d.listings.Keys, visited, id);
      PagesTotal(d, Pages(d, id), visited + {id})
  }

  /** The pages in order; a failed page ends the listing and keeps what the
      earlier pages added. */
  function PagesTotal(d: Drive, pages: seq<Page>, visited: set<string>): nat
    decreases |d.listings.Keys - visited| + 1, 1, |pages|
  {
    if pages == [] then 0
    else match pages[0]
      case Failed => 0
      case Page(files) => FilesTotal(d, Visible(files, false), visited) + PagesTotal(d, pages[1..], visited)
  }

  /** An entry with a size adds it; a sizeless folder adds its own total,
      walked with the current branch. */
  function FilesTotal(d: Drive, files: seq<RemoteFile>, visited: set<string>): nat
    decreases |d.listings.Keys - visited| + 1, 0, |files|
  {
    if files == [] then 0
    else Contribution(d, files[0], visited) + FilesTotal(d, files[1..], visited)
  }

  function Contribution(d: Drive, f: RemoteFile, visited: set<string>): nat
    decreases |d.listings.Keys - visited| + 1, 0, 0
  {
    if f.size.Some? then f.size.value
    else if f.mimeType == FolderMime then FolderTotal(d, f.id, visited)
    else 0
  }

  /** An unfolding step of `Contribution`, no more: it hands the body of
      the function to the method that walks a listing. */
  lemma ContributionOf(d: Drive, f: RemoteFile, visited: set<string>)
    ensures Contribution(d, f, visited)
         == if f.size.Some? then f.size.value else if f.mimeType == FolderMime then FolderTotal(d, f.id, visited) else 0
  {
  }

  /** Page `p` of `PagesTotal`. */
  lemma PagesTotalStep(d: Drive, pages: seq<Page>, p: nat, visited: set<string>)
    requires p < |pages|
    ensures PagesTotal(d, pages[p..], visited)
         == if pages[p].Failed? then 0 else FilesTotal(d, Visible(pages[p].files, false), visited) + PagesTotal(d, pages[p + 1..], visited)
  {
    assert pages[p..][0] == pages[p] && pages[p..][1..] == pages[p + 1..];
  }

  /** Entry `j` of `FilesTotal`. */
  lemma FilesTotalStep(d: Drive, files: seq<RemoteFile>, j: nat, visited: set<string>)
    requires j < |files|
    ensures FilesTotal(d, files[j..], visited) == Contribution(d, files[j], visited) + FilesTotal(d, files[j + 1..], visited)
  {
    assert files[j..][0] == files[j] && files[j..][1..] == files[j + 1..];
  }

  /** Sibling entries add up independently. */
  lemma {:induction false} FilesTotalAppend(d: Drive, a: seq<RemoteFile>, b: seq<RemoteFile>, visited: set<string>)
    ensures FilesTotal(d, a + b, visited) == FilesTotal(d, a, visited) + FilesTotal(d, b, visited)
  {
    if a != [] {
      assert (a + b)[1..] == a[1..] + b;
      FilesTotalAppend(d, a[1..], b, visited);
    } else {
      assert a + b == b;
    }
  }

  /** A failed page keeps the partial total of the pages before it. */
  lemma {:induction false} PagesTotalStopsAtFailure(d: Drive, pages: seq<Page>, k: nat, visited: set<string>)
    requires k < |pages| && pages[k].Failed?
    ensures PagesTotal(d, pages, visited) == PagesTotal(d, pages[..k], visited)
  {
    if k > 0 {
      assert pages[1..][k - 1] == pages[k];
      PagesTotalStopsAtFailure(d, pages[1..], k - 1, visited);
      assert pages[..k][1..] == pages[1..][..k - 1];
    }
  }

  /** With no failed page, the total is that of the whole untrashed listing. */
  lemma {:induction false} PagesTotalOfListing(d: Drive, pages: seq<Page>, visited: set<string>)
    requires Failed !in pages
    ensures Collect(pages, false).Some?
    ensures PagesTotal(d, pages, visited) == FilesTotal(d, Collect(pages, false).value, visited)
  {
    CollectSpec(pages, false);
    if pages != [] {
      assert Failed !in pages[1..] by {
        assert forall p :: p in pages[1..] ==> p in pages;
      }
      PagesTotalOfListing(d, pages[1..], visited);
      FilesTotalAppend(d, Visible(pages[0].files, false), Collect(pages[1..], false).value, visited);
    }
  }

  /** Unfolding a folder whose listing is one page. */
  lemma FolderOfOnePage(d: Drive, id: string, visited: set<string>, files: seq<RemoteFile>)
    requires id in d.listings && id !in visited && d.listings[id] == [Page(files)]
    ensures FolderTotal(d, id, visited) == FilesTotal(d, Visible(files, false), visited + {id})
  {
    assert Pages(d, id) == [Page(files)];
    assert [Page(files)][1..] == [];
    assert PagesTotal(d, [Page(files)], visited + {id})
        == FilesTotal(d, Visible(files, false), visited + {id}) + PagesTotal(d, [], visited + {id});
  }

  lemma FilesTotalOne(d: Drive, f: RemoteFile, visited: set<string>)
    ensures FilesTotal(d, [f], visited) == Contribution(d, f, visited)
  {
    assert [f][1..] == [];
  }

  lemma FilesTotalTwo(d: Drive, f: RemoteFile, g: RemoteFile, visited: set<string>)
    ensures FilesTotal(d, [f, g], visited) == Contribution(d, f, visited) + Contribution(d, g, visited)
  {
    assert [f, g][1..] == [g];
    assert FilesTotal(d, [f, g], visited) == Contribution(d, f, visited) + FilesTotal(d, [g], visited);
    FilesTotalOne(d, g, visited);
  }

  /** A sizeless folder listed twice under a branch is counted once for each
      listing (the visited set is per branch, not global): two sibling
      folders X and Y both holding folder Z with one 7-byte file give 14. */
  lemma DiamondCountedTwice()
    ensures var z := RemoteFile("z", "Z", FolderMime, None, None, true, false, false);
      var d := Drive(map[
        "top" := [Page([RemoteFile("x", "X", FolderMime, None, None, true, false, false),
                        RemoteFile("y", "Y", FolderMime, None, None, true, false, false)])],
        "x" := [Page([z])],
        "y" := [Page([z])],
        "z" := [Page([RemoteFile("f", "F", "text/plain", Some(7), None, true, false, false)])]]);
      FolderTotal(d, "top", {}) == 14
  {
    var z := RemoteFile("z", "Z", FolderMime, None, None, true, false, false);
    var x := RemoteFile("x", "X", FolderMime, None, None, true, false, false);
    var y := RemoteFile("y", "Y", FolderMime, None, None, true, false, false);
    var f := RemoteFile("f", "F", "text/plain", Some(7), None, true, false, false);
    var d := Drive(map["top" := [Page([x, y])], "x" := [Page([z])], "y" := [Page([z])], "z" := [Page([f])]]);
    assert Visible([f], false) == [f];
    assert Visible([z], false) == [z];
    assert Visible([x, y], false) == [x, y];
    var top: set<string> := {} + {"top"};
    FolderOfOnePage(d, "top", {}, [x, y]);
    FilesTotalTwo(d, x, y, top);
    FolderOfOnePage(d, "x", top, [z]);
    FilesTotalOne(d, z, top + {"x"});
    FolderOfOnePage(d, "y", top, [z]);
    FilesTotalOne(d, z, top + {"y"});
    FolderOfOnePage(d, "z", top + {"x"}, [f]);
    FilesTotalOne(d, f, top + {"x"} + {"z"});
    FolderOfOnePage(d, "z", top + {"y"}, [f]);
    FilesTotalOne(d, f, top + {"y"} + {"z"});
  }

  /** A folder that lists itself is entered once: its own entry adds 0. */
  lemma SelfCycleEntersOnce()
    ensures var d := Drive(map["a" := [Page([RemoteFile("a", "A", FolderMime, None, None, true, false, false),
                                             RemoteFile("f", "F", "text/plain", Some(3), None, true, false, false)])]]);
      FolderTotal(d, "a", {}) == 3
  {
    var a := RemoteFile("a", "A", FolderMime, None, None, true, false, false);
    var f := RemoteFile("f", "F", "text/plain", Some(3), None, true, false, false);
    var d := Drive(map["a" := [Page([a, f])]]);
    assert Visible([a, f], false) == [a, f] by {
      assert [a, f][1..] == [f];
    }
    FolderOfOnePage(d, "a", {}, [a, f]);
    FilesTotalTwo(d, a, f, {} + {"a"});
  }

  /** Every sizeless folder among `files` has a rank below `r`. */
  ghost predicate FilesRanked(files: seq<RemoteFile>, rank: map<string, nat>, r: nat)
  {
    forall f :: f in files && f.size.None? && f.mimeType == FolderMime ==> f.id in rank && rank[f.id] < r
  }

  /** Every sizeless folder on the (untrashed part of the) pages has a rank below `r`. */
  ghost predicate PagesRanked(pages: seq<Page>, rank: map<string, nat>, r: nat)
  {
    forall k :: 0 <= k < |pages| && pages[k].Page? ==> FilesRanked(Visible(pages[k].files, false), rank, r)
  }

  /** `rank` shows that the walk below the ranked folders has no cycle:
      every folder a ranked folder descends into is ranked, and lower. */
  ghost predicate Acyclic(d: Drive, rank: map<string, nat>)
  {
    forall p :: p in rank ==> PagesRanked(Pages(d, p), rank, rank[p])
  }

  /** The ranked folders in `visited` all rank `r` or higher. */
  ghost predicate VisitedAbove(visited: set<string>, rank: map<string, nat>, r: nat)
  {
    forall v :: v in visited && v in rank ==> rank[v] >= r
  }

  lemma {:induction false} FolderTotalRanked(d: Drive, rank: map<string, nat>, id: string, v: set<string>, w: set<string>)
    requires Acyclic(d, rank) && id in rank
    requires VisitedAbove(v, rank, rank[id] + 1) && VisitedAbove(w, rank, rank[id] + 1)
    ensures FolderTotal(d, id, v) == FolderTotal(d, id, w)
    decreases rank[id], 2, 0
  {
    if id in d.listings {
      assert id !in v && id !in w;
      PagesTotalRanked(d, rank, rank[id], Pages(d, id), v + {id}, w + {id});
    }
  }

  lemma {:induction false} PagesTotalRanked(d: Drive, rank: map<string, nat>, r: nat, pages: seq<Page>, v: set<string>, w: set<string>)
    requires Acyclic(d, rank) && PagesRanked(pages, rank, r)
    requires VisitedAbove(v, rank, r) && VisitedAbove(w, rank, r)
    ensures PagesTotal(d, pages, v) == PagesTotal(d, pages, w)
    decreases r, 1, |pages|
  {
    if pages != [] && pages[0].Page? {
      FilesTotalRanked(d, rank, r, Visible(pages[0].files, false), v, w);
      assert PagesRanked(pages[1..], rank, r) by {
        forall k | 0 <= k < |pages| - 1 && pages[1..][k].Page?
          ensures FilesRanked(Visible(pages[1..][k].files, false), rank, r)
        {
          assert pages[1..][k] == pages[k + 1];
        }
      }
      PagesTotalRanked(d, rank, r, pages[1..], v, w);
    }
  }

  lemma {:induction false} FilesTotalRanked(d: Drive, rank: map<string, nat>, r: nat, files: seq<RemoteFile>, v: set<string>, w: set<string>)
    requires Acyclic(d, rank) && FilesRanked(files, rank, r)
    requires VisitedAbove(v, rank, r) && VisitedAbove(w, rank, r)
    ensures FilesTotal(d, files, v) == FilesTotal(d, files, w)
    decreases r, 0, |files|
  {
    if files != [] {
      var f := files[0];
      if f.size.None? && f.mimeType == FolderMime {
        assert f in files;
        FolderTotalRanked(d, rank, f.id, v, w);
      }
      assert FilesRanked(files[1..], rank, r) by {
        assert forall g :: g in files[1..] ==> g in files;
      }
      FilesTotalRanked(d, rank, r, files[1..], v, w);
    }
  }

  /** Where nothing below `id` leads back up (a ranking exists), the
      visited set only matters through the folders in it that the walk can
      reach: with none of those in `visited`, the total is the one a fresh
      walk from `id` finds. */
  lemma VisitedOnlyMattersOnCycles(d: Drive, rank: map<string, nat>, id: string, visited: set<string>)
    requires Acyclic(d, rank) && id in rank && VisitedAbove(visited, rank, rank[id] + 1)
    ensures FolderTotal(d, id, visited) == FolderTotal(d, id, {})
  {
    FolderTotalRanked(d, rank, id, visited, {});
  }

  // ---------------------------------------------------------------------
  // Fetching a listing

  /** The `DriveItem` built from one entry; a time that is absent, empty or
      unparsable is `None`. */
  function ToItem(f: RemoteFile): (r: DriveItem)
    ensures r.id == f.id && r.name == f.name && r.mimeType == f.mimeType
    ensures r.ownedByMe == f.ownedByMe && r.shared == f.shared
    ensures r.size.Some? <==> f.size.Some?
    ensures r.size.Some? ==> r.size.value == f.size.value
    ensures r.modifiedTime.None? <==> f.modifiedTime.None? || f.modifiedTime.value.text == "" || f.modifiedTime.value.seconds.None?
    ensures r.modifiedTime.Some? ==> r.modifiedTime == f.modifiedTime.value.seconds
    ensures r.calculatedSize.None?
  {
    DriveItem(f.id, f.name, f.mimeType,
              if f.size.Some? then Some(f.size.value) else None,
              if f.modifiedTime.Some? && f.modifiedTime.value.text != "" then f.modifiedTime.value.seconds else None,
              f.ownedByMe, f.shared, None)
  }

  /** `xs` in front of a successful result; an error stays as it is. */
  function Prepend<T>(xs: seq<T>, r: Result<seq<T>, Error>): Result<seq<T>, Error> {
    match r
    case Ok(ys) => Ok(xs + ys)
    case Err(e) => Err(e)
  }

  lemma PrependNothing<T>(r: Result<seq<T>, Error>)
    ensures Prepend([], r) == r
  {
    if r.Ok? {
      assert [] + r.value == r.value;
    }
  }

  lemma PrependPrepend<T>(xs: seq<T>, ys: seq<T>, r: Result<seq<T>, Error>)
    ensures Prepend(xs, Prepend(ys, r)) == Prepend(xs + ys, r)
  {
    if r.Ok? {
      assert xs + (ys + r.value) == (xs + ys) + r.value;
    }
  }

  /** The position of the first entry that `DriveItem` rejects, or the
      length when it accepts them all. */
  function FirstInvalid(files: seq<RemoteFile>): (k: nat)
    ensures k <= |files|
    ensures forall j :: 0 <= j < k ==> ValidItem(ToItem(files[j]))
    ensures k < |files| ==> !ValidItem(ToItem(files[k]))
  {
    if files == [] || !ValidItem(ToItem(files[0])) then 0
    else 1 + FirstInvalid(files[1..])
  }

  /** Building the items of a page: every entry converted, in order, or the
      error of the first one that `DriveItem` rejects. */
  function Converted(files: seq<RemoteFile>): Result<seq<DriveItem>, Error> {
    if files == [] then Ok([])
    else
      match CheckDriveItem(ToItem(files[0]))
      case Err(e) => Err(e)
      case Ok(item) => Prepend([item], Converted(files[1..]))
  }

  /** A page converts exactly when no entry is rejected, and then into its
      entries' items, one per entry and in order. */
  lemma {:induction false} ConvertedSpec(files: seq<RemoteFile>)
    ensures Converted(files).Ok? <==> FirstInvalid(files) == |files|
    ensures Converted(files).Ok? ==> |Converted(files).value| == |files|
    ensures Converted(files).Ok? ==>
      forall i {:trigger Converted(files).value[i]} :: 0 <= i < |files| ==> Converted(files).value[i] == ToItem(files[i])
  {
    if files != [] {
      ConvertedSpec(files[1..]);
      if Converted(files).Ok? {
        var r := Converted(files).value;
        assert r == [ToItem(files[0])] + Converted(files[1..]).value;
        forall i | 0 <= i < |files| ensures r[i] == ToItem(files[i]) {
          if i > 0 {
            assert r[i] == Converted(files[1..]).value[i - 1];
            assert files[i] == files[1..][i - 1];
          }
        }
      }
    }
  }

  /** A page that does not convert fails with the error of its first
      rejected entry. */
  lemma {:induction false} ConvertedFirstError(files: seq<RemoteFile>)
    ensures Converted(files).Err? ==>
      FirstInvalid(files) < |files| && Converted(files).error == CheckDriveItem(ToItem(files[FirstInvalid(files)])).error
  {
    ConvertedSpec(files);
    if files != [] && ValidItem(ToItem(files[0])) {
      ConvertedFirstError(files[1..]);
      if Converted(files).Err? {
        assert files[FirstInvalid(files)] == files[1..][FirstInvalid(files[1..])];
      }
    }
  }

  /** A page converts exactly when `DriveItem` accepts every entry on it. */
  lemma ConvertedOkIffAllValid(files: seq<RemoteFile>)
    ensures Converted(files).Ok? <==> forall f :: f in files ==> ValidItem(ToItem(f))
  {
    ConvertedSpec(files);
    if Converted(files).Err? {
      assert files[FirstInvalid(files)] in files;
    }
  }

  /** One step of `Converted`: the first entry is checked, then the rest. */
  lemma ConvertedStep(a: seq<RemoteFile>)
    requires a != []
    ensures !ValidItem(ToItem(a[0])) ==> Converted(a).Err?
    ensures ValidItem(ToItem(a[0])) ==> Converted(a) == Prepend([ToItem(a[0])], Converted(a[1..]))
  {
  }

  /** Two runs of entries convert together exactly when both convert. */
  lemma {:induction false} ConvertedAppendOk(a: seq<RemoteFile>, b: seq<RemoteFile>)
    ensures Converted(a + b).Ok? <==> Converted(a).Ok? && Converted(b).Ok?
  {
    if a == [] {
      assert a + b == b;
    } else {
      var ab := a + b;
      assert ab[0] == a[0] && ab[1..] == a[1..] + b;
      ConvertedAppendOk(a[1..], b);
      ConvertedStep(a);
      ConvertedStep(ab);
    }
  }

  /** Converting two runs of entries is converting their concatenation. */
  lemma ConvertedAppend(a: seq<RemoteFile>, b: seq<RemoteFile>)
    ensures Converted(a + b).Ok? <==> Converted(a).Ok? && Converted(b).Ok?
    ensures Converted(a + b).Ok? ==> Converted(a + b).value == Converted(a).value + Converted(b).value
  {
    ConvertedAppendOk(a, b);
    if Converted(a + b).Ok? {
      ConvertedSpec(a + b);
      ConvertedSpec(a);
      ConvertedSpec(b);
      var x, y := Converted(a).value, Converted(b).value;
      assert forall i :: 0 <= i < |a + b| ==> Converted(a + b).value[i] == (x + y)[i] by {
        forall i | 0 <= i < |a + b| ensures Converted(a + b).value[i] == (x + y)[i] {
          if i < |a| {
            assert (a + b)[i] == a[i];
          } else {
            assert (a + b)[i] == b[i - |a|];
          }
        }
      }
    }
  }

  /** `_fetch_items` over the pages of a listing: the items of every page
      in page order, `DriveError` at the first failed page, and a rejected
      entry ends the fetch with its error as soon as its page is read. */
  function FetchSpec(pages: seq<Page>, showHidden: bool): Result<seq<DriveItem>, Error> {
    if pages == [] then Ok([])
    else match pages[0]
      case Failed => Err(ListingFailed)
      case Page(files) =>
        match Converted(Visible(files, showHidden))
        case Err(e) => Err(e)
        case Ok(items) => Prepend(items, FetchSpec(pages[1..], showHidden))
  }

  /** Reading page `p` of a listing whose first `p` pages gave `all`. */
  lemma FetchAdvance(pages: seq<Page>, p: nat, all: seq<DriveItem>, showHidden: bool)
    requires p < |pages|
    requires FetchSpec(pages, showHidden) == Prepend(all, FetchSpec(pages[p..], showHidden))
    ensures pages[p].Failed? ==> FetchSpec(pages, showHidden) == Err(ListingFailed)
    ensures pages[p].Page? ==> var c := Converted(Visible(pages[p].files, showHidden));
      FetchSpec(pages, showHidden) == if c.Err? then Err(c.error) else Prepend(all + c.value, FetchSpec(pages[p + 1..], showHidden))
  {
    assert pages[p..][0] == pages[p] && pages[p..][1..] == pages[p + 1..];
    if pages[p].Page? {
      var c := Converted(Visible(pages[p].files, showHidden));
      if c.Ok? {
        PrependPrepend(all, c.value, FetchSpec(pages[p + 1..], showHidden));
      }
    }
  }

  /** The fetch succeeds exactly when no page fails and every entry of the
      whole listing is accepted, and then returns the whole listing
      converted; in particular a failed page never yields a partial list. */
  lemma {:induction false} FetchSpecIsListing(pages: seq<Page>, showHidden: bool)
    ensures FetchSpec(pages, showHidden).Ok? <==>
              Collect(pages, showHidden).Some? && Converted(Collect(pages, showHidden).value).Ok?
    ensures FetchSpec(pages, showHidden).Ok? ==>
              FetchSpec(pages, showHidden) == Converted(Collect(pages, showHidden).value)
    ensures Failed in pages ==> FetchSpec(pages, showHidden).Err?
  {
    CollectSpec(pages, showHidden);
    if pages != [] && pages[0].Page? {
      FetchSpecIsListing(pages[1..], showHidden);
      var here := Visible(pages[0].files, showHidden);
      if Collect(pages[1..], showHidden).Some? {
        ConvertedAppend(here, Collect(pages[1..], showHidden).value);
      }
    }
  }

  // ---------------------------------------------------------------------
  // Selecting, annotating and sorting

  /** `[item for item in items if item.owned_by_me]`. */
  function OwnedOnly(items: seq<DriveItem>): (r: seq<DriveItem>)
    ensures forall x :: multiset(r)[x] == if x.ownedByMe then multiset(items)[x] else 0
    ensures forall x :: x in r <==> x in items && x.ownedByMe
  {
    if items == [] then []
    else
      assert items == [items[0]] + items[1..];
      (if items[0].ownedByMe then [items[0]] else []) + OwnedOnly(items[1..])
  }

  /** The size `calculate_folder_size` reports: the fresh cached one if
      there is one, else the total of a walk from an empty visited set. */
  function ReportedSize(d: Drive, sizes: map<string, SizeEntry>, id: string, now: int): int {
    match LookupFolderSize(sizes, id, now)
    case Some(s) => s
    case None => FolderTotal(d, id, {})
  }

  /** `_calculate_folder_sizes` on one item: an owned folder gets its
      reported size, a folder owned by someone else 0, anything else is
      left as it is. */
  function Annotate(d: Drive, sizes: map<string, SizeEntry>, item: DriveItem, now: int): (r: DriveItem)
    ensures r.(calculatedSize := item.calculatedSize) == item
    ensures !IsFolder(item) ==> r == item
    ensures IsFolder(item) && item.ownedByMe ==> r.calculatedSize == Some(ReportedSize(d, sizes, item.id, now))
    ensures IsFolder(item) && !item.ownedByMe ==> r.calculatedSize == Some(0)
  {
    if !IsFolder(item) then item
    else if item.ownedByMe then item.(calculatedSize := Some(ReportedSize(d, sizes, item.id, now)))
    else item.(calculatedSize := Some(0))
  }

  /** `_calculate_folder_sizes` on a whole list. */
  function AnnotateAll(d: Drive, sizes: map<string, SizeEntry>, items: seq<DriveItem>, now: int): (r: seq<DriveItem>)
    ensures |r| == |items|
    ensures forall i :: 0 <= i < |items| ==> r[i] == Annotate(d, sizes, items[i], now)
  {
    seq(|items|, i requires 0 <= i < |items| => Annotate(d, sizes, items[i], now))
  }

  /** The items `list_files` keeps: the owned ones with `owned_only`. */
  function Selected(items: seq<DriveItem>, options: ListOptions): seq<DriveItem> {
    if options.ownedOnly then OwnedOnly(items) else items
  }

  lemma AnnotateAllSnoc(d: Drive, sizes: map<string, SizeEntry>, items: seq<DriveItem>, i: nat, now: int)
    requires i < |items|
    ensures AnnotateAll(d, sizes, items[..i + 1], now) == AnnotateAll(d, sizes, items[..i], now) + [Annotate(d, sizes, items[i], now)]
  {
    assert items[..i + 1][i] == items[i];
    assert forall k :: 0 <= k < i ==> items[..i + 1][k] == items[..i][k];
  }

  /** Whether annotating `item` raises: an owned folder with an empty id, or
      one with no fresh cached size when the cache cannot be saved. */
  predicate AnnotateFails(sizes: map<string, SizeEntry>, writable: bool, item: DriveItem, now: int) {
    IsFolder(item) && item.ownedByMe
    && (item.id == "" || (!writable && LookupFolderSize(sizes, item.id, now).None?))
  }

  /** The size map once `calculate_folder_size` has handled `item`: an
      owned folder with an id and no fresh size gets its walked total,
      stamped `now`; anything else leaves the map as it is. */
  function Refresh(d: Drive, sizes: map<string, SizeEntry>, item: DriveItem, now: int): map<string, SizeEntry> {
    if IsFolder(item) && item.ownedByMe && item.id != "" && LookupFolderSize(sizes, item.id, now).None?
    then sizes[SizeKey(item.id) := SizeEntry(FolderTotal(d, item.id, {}), now)]
    else sizes
  }

  /** The size map once `_calculate_folder_sizes` has handled `items`. */
  function SizesAfter(d: Drive, sizes: map<string, SizeEntry>, items: seq<DriveItem>, now: int): map<string, SizeEntry> {
    if items == [] then sizes
    else Refresh(d, SizesAfter(d, sizes, items[..|items| - 1], now), items[|items| - 1], now)
  }

  lemma SizesAfterSnoc(d: Drive, sizes: map<string, SizeEntry>, items: seq<DriveItem>, i: nat, now: int)
    requires i < |items|
    ensures SizesAfter(d, sizes, items[..i + 1], now) == Refresh(d, SizesAfter(d, sizes, items[..i], now), items[i], now)
  {
    assert items[..i + 1][..i] == items[..i];
  }

  /** A refresh changes no reported size, makes the item's size fresh and
      keeps every fresh size fresh. */
  lemma RefreshKeepsReports(d: Drive, sizes: map<string, SizeEntry>, item: DriveItem, now: int)
    ensures forall id :: ReportedSize(d, Refresh(d, sizes, item, now), id, now) == ReportedSize(d, sizes, id, now)
    ensures IsFolder(item) && item.ownedByMe && item.id != "" ==> LookupFolderSize(Refresh(d, sizes, item, now), item.id, now).Some?
    ensures forall id :: LookupFolderSize(sizes, id, now).Some? ==> LookupFolderSize(Refresh(d, sizes, item, now), id, now).Some?
  {
    forall id | id != item.id
      ensures LookupFolderSize(Refresh(d, sizes, item, now), id, now) == LookupFolderSize(sizes, id, now)
    {
      SizeKeyInjective(id, item.id);
    }
  }

  /** After `_calculate_folder_sizes` every owned folder it handled with an
      id has a fresh size, and no folder is reported a different size than
      before: a size stored on the way is the walk's total. */
  lemma {:induction false} SizesAfterSpec(d: Drive, sizes: map<string, SizeEntry>, items: seq<DriveItem>, now: int)
    ensures forall id :: ReportedSize(d, SizesAfter(d, sizes, items, now), id, now) == ReportedSize(d, sizes, id, now)
    ensures forall i :: 0 <= i < |items| && IsFolder(items[i]) && items[i].ownedByMe && items[i].id != "" ==>
      LookupFolderSize(SizesAfter(d, sizes, items, now), items[i].id, now).Some?
  {
    if items != [] {
      var n := |items| - 1;
      var init := items[..n];
      var before := SizesAfter(d, sizes, init, now);
      SizesAfterSpec(d, sizes, init, now);
      RefreshKeepsReports(d, before, items[n], now);
      forall i | 0 <= i < n && IsFolder(items[i]) && items[i].ownedByMe && items[i].id != ""
        ensures LookupFolderSize(SizesAfter(d, sizes, items, now), items[i].id, now).Some?
      {
        assert init[i] == items[i];
      }
    }
  }

  /** The position of the first item whose annotation raises, or the
      length when none does. */
  function FirstFailure(sizes: map<string, SizeEntry>, writable: bool, items: seq<DriveItem>, now: int): (k: nat)
    ensures k <= |items|
    ensures forall i :: 0 <= i < k ==> !AnnotateFails(sizes, writable, items[i], now)
    ensures k < |items| ==> AnnotateFails(sizes, writable, items[k], now)
  {
    if items == [] then 0
    else if AnnotateFails(sizes, writable, items[0], now) then 0
    else 1 + FirstFailure(sizes, writable, items[1..], now)
  }

  /** The error `_calculate_folder_sizes` raises: that of the first failing
      item, `ValueError` for an empty id, else the failed save. */
  function FailureError(sizes: map<string, SizeEntry>, writable: bool, items: seq<DriveItem>, now: int): (e: Error)
    ensures e == EmptyFolderId || e == CacheSaveFailed
  {
    var k := FirstFailure(sizes, writable, items, now);
    if k < |items| && items[k].id == "" then EmptyFolderId else CacheSaveFailed
  }

  /** How many items `_calculate_folder_sizes` handles: all of them, or up
      to and including the one that raises. */
  function Handled(sizes: map<string, SizeEntry>, writable: bool, items: seq<DriveItem>, now: int): (n: nat)
    ensures n <= |items|
  {
    var k := FirstFailure(sizes, writable, items, now);
    if k < |items| then k + 1 else k
  }

  /** One pass of the loop of `_calculate_folder_sizes`, with the sizes the
      earlier passes left: it annotates and fails as it would have with the
      sizes from before the loop, and the failing pass is the first one. */
  lemma HandleStep(d: Drive, sizes0: map<string, SizeEntry>, writable: bool, items: seq<DriveItem>, i: nat, now: int)
    requires i < |items| && FirstFailure(sizes0, writable, items, now) >= i
    ensures var sizes := SizesAfter(d, sizes0, items[..i], now);
      (!writable ==> sizes == sizes0) ==>
      && Annotate(d, sizes, items[i], now) == Annotate(d, sizes0, items[i], now)
      && AnnotateFails(sizes, writable, items[i], now) == AnnotateFails(sizes0, writable, items[i], now)
    ensures SizesAfter(d, sizes0, items[..i + 1], now) == Refresh(d, SizesAfter(d, sizes0, items[..i], now), items[i], now)
    ensures AnnotateAll(d, sizes0, items[..i + 1], now) == AnnotateAll(d, sizes0, items[..i], now) + [Annotate(d, sizes0, items[i], now)]
    ensures AnnotateFails(sizes0, writable, items[i], now) ==>
      FirstFailure(sizes0, writable, items, now) == i
      && Handled(sizes0, writable, items, now) == i + 1
      && FailureError(sizes0, writable, items, now) == if items[i].id == "" then EmptyFolderId else CacheSaveFailed
    ensures !AnnotateFails(sizes0, writable, items[i], now) ==> FirstFailure(sizes0, writable, items, now) >= i + 1
  {
    SizesAfterSnoc(d, sizes0, items, i, now);
    SizesAfterSpec(d, sizes0, items[..i], now);
    AnnotateAllSnoc(d, sizes0, items, i, now);
  }

  /** The backing file once the size map went from `before` to `after`:
      an unchanged map is not saved; a changed one is written through, or
      the save fails and leaves the file as it was or emptied. */
  function SaveIfChanged(before: map<string, SizeEntry>, after: map<string, SizeEntry>, paths: map<string, PathEntry>,
                         writable: bool, truncates: bool, file: StoredFile): StoredFile {
    if after == before then file
    else if writable then Persisted(paths, after)
    else if truncates then Corrupt
    else file
  }

  /** The backing file once `_calculate_folder_sizes` has handled `items`,
      starting from `file`. */
  function FileAfter(d: Drive, sizes: map<string, SizeEntry>, items: seq<DriveItem>, now: int,
                     paths: map<string, PathEntry>, writable: bool, truncates: bool, file: StoredFile): StoredFile {
    if items == [] then file
    else
      var init := items[..|items| - 1];
      SaveIfChanged(SizesAfter(d, sizes, init, now), SizesAfter(d, sizes, items, now), paths, writable, truncates,
                    FileAfter(d, sizes, init, now, paths, writable, truncates, file))
  }

  lemma FileAfterSnoc(d: Drive, sizes: map<string, SizeEntry>, items: seq<DriveItem>, i: nat, now: int,
                      paths: map<string, PathEntry>, writable: bool, truncates: bool, file: StoredFile)
    requires i < |items|
    ensures FileAfter(d, sizes, items[..i + 1], now, paths, writable, truncates, file)
         == SaveIfChanged(SizesAfter(d, sizes, items[..i], now), SizesAfter(d, sizes, items[..i + 1], now), paths, writable, truncates,
                          FileAfter(d, sizes, items[..i], now, paths, writable, truncates, file))
  {
    assert items[..i + 1][..i] == items[..i];
  }

  /** The file ends as it was or as the last save left it: holding the
      final maps when saves succeed, else possibly emptied. */
  lemma {:induction false} FileAfterIsSaved(d: Drive, sizes: map<string, SizeEntry>, items: seq<DriveItem>, now: int,
                                            paths: map<string, PathEntry>, writable: bool, truncates: bool, file: StoredFile)
    ensures var f := FileAfter(d, sizes, items, now, paths, writable, truncates, file);
      f == file || f == (if writable then Persisted(paths, SizesAfter(d, sizes, items, now)) else Corrupt)
    ensures !truncates && !writable ==> FileAfter(d, sizes, items, now, paths, writable, truncates, file) == file
  {
    if items != [] {
      FileAfterIsSaved(d, sizes, items[..|items| - 1], now, paths, writable, truncates, file);
    }
  }

  /** The "comes before" relation of a sort key, the direction included:
      `size` and `date` descending (a missing time as the earliest), `type`
      by mime type then lower-cased name, anything else by lower-cased name. */
  function Before(sortBy: string): (DriveItem, DriveItem) -> bool {
    if sortBy == "size" then (a: DriveItem, b: DriveItem) => DisplaySize(a) > DisplaySize(b)
    else if sortBy == "date" then (a: DriveItem, b: DriveItem) => Later(a.modifiedTime, b.modifiedTime)
    else if sortBy == "type" then (a: DriveItem, b: DriveItem) => TypeLess(a, b)
    else (a: DriveItem, b: DriveItem) => LexLess(Lower(a.name), Lower(b.name))
  }

  /** `x or datetime.min` compared descending. */
  predicate Later(x: Option<int>, y: Option<int>) {
    x.Some? && (y.None? || x.value > y.value)
  }

  /** The `date` key as written: a parsed time is timezone-aware, while the
      fallback `datetime.min` is naive. */
  datatype DateKey = Aware(seconds: int) | NaiveMin

  function DateKeyAsWritten(item: DriveItem): DateKey {
    if item.modifiedTime.Some? then Aware(item.modifiedTime.value) else NaiveMin
  }

  /** Python's `<` on two such keys: an aware and a naive datetime cannot be
      ordered, and comparing them raises `TypeError`. */
  function DateKeyLess(a: DateKey, b: DateKey): (r: Result<bool, Error>)
    ensures r.Err? <==> a.Aware? != b.Aware?
    ensures r.Err? ==> r.error == UnorderableDates
    ensures a.Aware? && b.Aware? ==> r == Ok(a.seconds < b.seconds)
    ensures a.NaiveMin? && b.NaiveMin? ==> r == Ok(false)
  {
    match (a, b)
    case (Aware(x), Aware(y)) => Ok(x < y)
    case (NaiveMin, NaiveMin) => Ok(false)
    case _ => Err(UnorderableDates)
  }

  /** Sorting by date an item with a time next to one without compares
      their keys, which raises either way round; the relation the model
      sorts with orders them, the one without a time last. */
  lemma MixedDatesRaise(a: DriveItem, b: DriveItem)
    requires a.modifiedTime.Some? && b.modifiedTime.None?
    ensures DateKeyLess(DateKeyAsWritten(a), DateKeyAsWritten(b)) == Err(UnorderableDates)
    ensures DateKeyLess(DateKeyAsWritten(b), DateKeyAsWritten(a)) == Err(UnorderableDates)
    ensures Before("date")(a, b) && !Before("date")(b, a)
  {
  }

  /** `(mime_type, name.lower())` compared as a tuple. */
  predicate TypeLess(a: DriveItem, b: DriveItem) {
    LexLess(a.mimeType, b.mimeType) || (a.mimeType == b.mimeType && LexLess(Lower(a.name), Lower(b.name)))
  }

  lemma TypeLessSplit(a: DriveItem, b: DriveItem, c: DriveItem)
    requires TypeLess(a, c)
    ensures TypeLess(a, b) || TypeLess(b, c)
  {
    LexLessIrreflexive(a.mimeType);
    LexLessIrreflexive(b.mimeType);
    LexLessTotal(a.mimeType, b.mimeType);
    if LexLess(b.mimeType, a.mimeType) && LexLess(a.mimeType, c.mimeType) {
      LexLessTransitive(b.mimeType, a.mimeType, c.mimeType);
    }
    if !TypeLess(a, b) && !TypeLess(b, c) && !LexLess(a.mimeType, c.mimeType) {
      LexLessNegTransitive(Lower(a.name), Lower(b.name), Lower(c.name));
    }
  }

  lemma TypeLessTransitive(a: DriveItem, b: DriveItem, c: DriveItem)
    requires TypeLess(a, b) && TypeLess(b, c)
    ensures TypeLess(a, c)
  {
    LexLessIrreflexive(a.mimeType);
    LexLessIrreflexive(b.mimeType);
    if LexLess(a.mimeType, b.mimeType) && LexLess(b.mimeType, c.mimeType) {
      LexLessTransitive(a.mimeType, b.mimeType, c.mimeType);
    }
    if a.mimeType == b.mimeType == c.mimeType {
      LexLessTransitive(Lower(a.name), Lower(b.name), Lower(c.name));
    }
  }

  /** Every sort key gives a strict weak order, so the sort below is a
      stable sort by that key. */
  lemma BeforeIsStrictWeakOrder(sortBy: string)
    ensures StrictWeakOrder(Before(sortBy))
  {
    var less := Before(sortBy);
    if sortBy == "type" {
      forall a: DriveItem ensures !less(a, a) {
        LexLessIrreflexive(a.mimeType);
        LexLessIrreflexive(Lower(a.name));
      }
      forall a: DriveItem, b: DriveItem, c: DriveItem | less(a, b) && less(b, c) ensures less(a, c) {
        TypeLessTransitive(a, b, c);
      }
      forall a: DriveItem, b: DriveItem, c: DriveItem | !less(a, b) && !less(b, c) ensures !less(a, c) {
        if less(a, c) { TypeLessSplit(a, b, c); }
      }
    } else if sortBy != "size" && sortBy != "date" {
      LexOrder();
      forall a: DriveItem ensures !less(a, a) {
        LexLessIrreflexive(Lower(a.name));
      }
      forall a: DriveItem, b: DriveItem, c: DriveItem | less(a, b) && less(b, c) ensures less(a, c) {
        LexLessTransitive(Lower(a.name), Lower(b.name), Lower(c.name));
      }
      forall a: DriveItem, b: DriveItem, c: DriveItem | !less(a, b) && !less(b, c) ensures !less(a, c) {
        LexLessNegTransitive(Lower(a.name), Lower(b.name), Lower(c.name));
      }
    }
  }

  /** `_sort_items`: a stable sort by the key, then `reverse()` on request. */
  function SortItems(items: seq<DriveItem>, options: ListOptions): seq<DriveItem> {
    var sorted := Sort(items, Before(options.sortBy));
    if options.reverseSort then Reverse(sorted) else sorted
  }

  lemma {:induction false} ReverseReverse<T>(s: seq<T>)
    ensures Reverse(Reverse(s)) == s
  {
    assert forall i :: 0 <= i < |s| ==> Reverse(Reverse(s))[i] == s[i];
  }

  /** The sorted listing is a permutation of the items; without `-r` it is
      sorted by the key and items the key ties keep their order; with `-r`
      it is exactly that listing backwards. */
  lemma SortItemsSpec(items: seq<DriveItem>, options: ListOptions)
    ensures multiset(SortItems(items, options)) == multiset(items)
    ensures !options.reverseSort ==> Sorted(SortItems(items, options), Before(options.sortBy))
    ensures !options.reverseSort ==> forall x :: TiedWith(SortItems(items, options), x, Before(options.sortBy))
                                               == TiedWith(items, x, Before(options.sortBy))
    ensures options.reverseSort ==> Reverse(SortItems(items, options)) == SortItems(items, options.(reverseSort := false))
  {
    var less := Before(options.sortBy);
    BeforeIsStrictWeakOrder(options.sortBy);
    SortSorted(items, less);
    forall x ensures TiedWith(Sort(items, less), x, less) == TiedWith(items, x, less) {
      SortStable(items, x, less);
    }
    ReversePermutes(Sort(items, less));
    ReverseReverse(Sort(items, less));
  }

  /** What each key means for neighbours in the sorted listing (without -r). */
  lemma SortKeyOrder(items: seq<DriveItem>, options: ListOptions)
    requires !options.reverseSort
    ensures var r := SortItems(items, options);
      && (options.sortBy == "size" ==> forall i, j :: 0 <= i < j < |r| ==> DisplaySize(r[i]) >= DisplaySize(r[j]))
      && (options.sortBy == "date" ==> forall i, j :: 0 <= i < j < |r| ==> !Later(r[j].modifiedTime, r[i].modifiedTime))
      && (options.sortBy == "type" ==> forall i, j :: 0 <= i < j < |r| ==> !LexLess(r[j].mimeType, r[i].mimeType))
      && (options.sortBy == "name" ==> forall i, j :: 0 <= i < j < |r| ==> !LexLess(Lower(r[j].name), Lower(r[i].name)))
  {
    SortItemsSpec(items, options);
  }

  /** Two files of 5 and 100 bytes listed by size come out as 100, 5, and
      as 5, 100 with -r. */
  lemma SizeSortExample(options: ListOptions)
    requires options.sortBy == "size"
    ensures var a := DriveItem("a", "a", "text/plain", Some(5), None, true, false, None);
      var b := DriveItem("b", "b", "text/plain", Some(100), None, true, false, None);
      SortItems([a, b], options) == if options.reverseSort then [a, b] else [b, a]
  {
    var a := DriveItem("a", "a", "text/plain", Some(5), None, true, false, None);
    var b := DriveItem("b", "b", "text/plain", Some(100), None, true, false, None);
    var less := Before("size");
    assert DisplaySize(a) == 5 && DisplaySize(b) == 100;
    assert less(b, a);
    SortTwo(a, b, less);
    assert Reverse([b, a]) == [a, b];
  }

  /** Sorting two elements of which the second comes first. */
  lemma SortTwo<T>(a: T, b: T, less: (T, T) -> bool)
    requires less(b, a)
    ensures Sort([a, b], less) == [b, a]
  {
    SortCons(b, [], less);
    assert [b] + [] == [b] && [a] + [b] == [a, b];
    assert Sort([b], less) == [b];
    SortCons(a, [b], less);
    InsertPast(a, b, [], less);
    assert [a] + [] == [a] && [b] + [a] == [b, a];
  }

  // ---------------------------------------------------------------------
  // The explorer

  class DriveExplorer {
    const drive: Drive
    const cache: DriveCache

    constructor (d: Drive, c: DriveCache)
      ensures drive == d && cache == c
    {
      drive, cache := d, c;
    }

    /** `_recursive_folder_size`: page by page, untrashed entries only; each
        sizeless folder is walked with a copy of the branch that includes
        this folder. The loop over one page's entries is `EntriesSize`. */
    method RecursiveFolderSize(folderId: string, visited: set<string>) returns (total: nat)
      ensures total == FolderTotal(drive, folderId, visited)
      decreases |drive.listings.Keys - visited|, 0
    {
      if folderId in visited {
        return 0;
      }
      if folderId !in drive.listings {
        // its listing is one empty page
        return 0;
      }
      VisitShrinks(drive.listings.Keys, visited, folderId);
      var branch := visited + {folderId};
      var pages := Pages(drive, folderId);
      total := 0;
      var p := 0;
      assert pages[p..] == pages;
      while p < |pages|
        invariant 0 <= p <= |pages|
        invariant total + PagesTotal(drive, pages[p..], branch) == PagesTotal(drive, pages, branch)
      {
        PagesTotalStep(drive, pages, p, branch);
        if pages[p].Failed? {
          break;
        }
        var sum := EntriesSize(Visible(pages[p].files, false), branch);
        total := total + sum;
        p := p + 1;
      }
      assert p < |pages| || pages[p..] == [];
    }

    /** The entries of one page of `_recursive_folder_size`, in order: a
        size adds itself, a sizeless folder its own walk. */
    method EntriesSize(items: seq<RemoteFile>, branch: set<string>) returns (total: nat)
      ensures total == FilesTotal(drive, items, branch)
      decreases |drive.listings.Keys - branch|, 1
    {
      total := 0;
      var j := 0;
      assert items[j..] == items;
      while j < |items|
        invariant 0 <= j <= |items|
        invariant total + FilesTotal(drive, items[j..], branch) == FilesTotal(drive, items, branch)
      {
        FilesTotalStep(drive, items, j, branch);
        var item := items[j];
        ContributionOf(drive, item, branch);
        if item.size.Some? {
          total := total + item.size.value;
        } else if item.mimeType == FolderMime {
          var sub := RecursiveFolderSize(item.id, branch);
          total := total + sub;
        }
        j := j + 1;
      }
      assert items[j..] == [];
    }

    /** `calculate_folder_size`: an empty id is rejected; a fresh cached
        size (0 included) is returned without a walk; otherwise the walk's
        total is stored with timestamp `now` and returned, unless saving
        raises `DriveCacheError` (the total then stays stored in memory). */
    method CalculateFolderSize(folderId: string, now: int) returns (r: Result<int, Error>)
      modifies cache
      ensures folderId == "" ==> r == Err(EmptyFolderId) && unchanged(cache)
      ensures folderId != "" && old(cache.GetFolderSize(folderId, now)).Some? ==>
        r == Ok(old(cache.GetFolderSize(folderId, now)).value) && unchanged(cache)
      ensures folderId != "" && old(cache.GetFolderSize(folderId, now)).None? ==>
        && cache.folderSizes == old(cache.folderSizes)[SizeKey(folderId) := SizeEntry(FolderTotal(drive, folderId, {}), now)]
        && cache.paths == old(cache.paths) && cache.writable == old(cache.writable)
        && cache.SavedAs(if old(cache.writable) then Pass else Fail(CacheSaveFailed), old(cache.file))
        && r == if old(cache.writable) then Ok(FolderTotal(drive, folderId, {})) else Err(CacheSaveFailed)
      ensures r.Ok? ==> r.value == ReportedSize(drive, old(cache.folderSizes), folderId, now)
      ensures forall id :: ReportedSize(drive, cache.folderSizes, id, now) == ReportedSize(drive, old(cache.folderSizes), id, now)
      ensures cache.truncates == old(cache.truncates)
    {
      if folderId == "" {
        return Err(EmptyFolderId);
      }
      var cached := cache.GetFolderSize(folderId, now);
      if cached.Some? {
        return Ok(cached.value);
      }
      var total := RecursiveFolderSize(folderId, {});
      var saved := cache.SetFolderSize(folderId, total, now);
      forall id ensures ReportedSize(drive, cache.folderSizes, id, now) == ReportedSize(drive, old(cache.folderSizes), id, now) {
        if id != folderId {
          assert cache.GetFolderSize(id, now) == old(cache.GetFolderSize(id, now));
        }
      }
      if saved.Fail? {
        return Err(saved.error);
      }
      r := Ok(total);
    }

    /** `_convert_to_drive_items`. */
    method ConvertToDriveItems(files: seq<RemoteFile>) returns (r: Result<seq<DriveItem>, Error>)
      ensures r == Converted(files)
    {
      var items: seq<DriveItem> := [];
      PrependNothing(Converted(files));
      for i := 0 to |files|
        invariant Converted(files) == Prepend(items, Converted(files[i..]))
      {
        assert files[i..][1..] == files[i + 1..];
        var item := ToItem(files[i]);
        var checked := CheckDriveItem(item);
        if checked.Err? {
          return Err(checked.error);
        }
        PrependPrepend(items, [item], Converted(files[i + 1..]));
        items := items + [item];
      }
      assert items + [] == items;
      r := Ok(items);
    }

    /** `_fetch_items`: the listing of `folderId`, trashed entries included
        only with `show_hidden`. */
    method FetchItems(folderId: string, options: ListOptions) returns (r: Result<seq<DriveItem>, Error>)
      ensures r == FetchSpec(Pages(drive, folderId), options.showHidden)
    {
      var pages := Pages(drive, folderId);
      var all: seq<DriveItem> := [];
      PrependNothing(FetchSpec(pages, options.showHidden));
      var p := 0;
      assert pages[p..] == pages;
      while p < |pages|
        invariant 0 <= p <= |pages|
        invariant FetchSpec(pages, options.showHidden) == Prepend(all, FetchSpec(pages[p..], options.showHidden))
      {
        FetchAdvance(pages, p, all, options.showHidden);
        match pages[p]
        case Failed =>
          return Err(ListingFailed);
        case Page(files) =>
          var converted := ConvertToDriveItems(Visible(files, options.showHidden));
          match converted
          case Err(e) =>
            return Err(e);
          case Ok(items) =>
            all := all + items;
            p := p + 1;
      }
      assert pages[p..] == [] && all + [] == all;
      r := Ok(all);
    }

    /** One pass of the loop of `_calculate_folder_sizes`: an owned folder
        gets the size `calculate_folder_size` reports, a folder owned by
        someone else 0, anything else is left as it is. */
    method AnnotateItem(item: DriveItem, now: int) returns (r: Result<DriveItem, Error>)
      modifies cache
      ensures r.Ok? <==> !AnnotateFails(old(cache.folderSizes), old(cache.writable), item, now)
      ensures r.Ok? ==> r.value == Annotate(drive, old(cache.folderSizes), item, now)
      ensures r.Err? ==> r.error == if item.id == "" then EmptyFolderId else CacheSaveFailed
      ensures cache.paths == old(cache.paths) && cache.writable == old(cache.writable) && cache.truncates == old(cache.truncates)
      ensures cache.folderSizes == Refresh(drive, old(cache.folderSizes), item, now)
      ensures cache.file == SaveIfChanged(old(cache.folderSizes), cache.folderSizes, cache.paths, cache.writable, cache.truncates, old(cache.file))
    {
      if !IsFolder(item) {
        return Ok(item);
      }
      if !item.ownedByMe {
        return Ok(item.(calculatedSize := Some(0)));
      }
      var size := CalculateFolderSize(item.id, now);
      if size.Err? {
        return Err(size.error);
      }
      r := Ok(item.(calculatedSize := Some(size.value)));
    }

    /** `_calculate_folder_sizes`, item by item. The result is every item
        annotated with the sizes the cache held before the call: a size
        stored during the loop is the walk's total, which is what a later
        item with the same id would have been given anyway. The cache ends
        with the sizes stored for the items handled, each store written
        through. */
    method CalculateFolderSizes(items: seq<DriveItem>, now: int) returns (r: Result<seq<DriveItem>, Error>)
      modifies cache
      ensures r.Ok? <==> forall i :: 0 <= i < |items| ==> !AnnotateFails(old(cache.folderSizes), old(cache.writable), items[i], now)
      ensures r.Ok? ==> r.value == AnnotateAll(drive, old(cache.folderSizes), items, now)
      ensures r.Err? ==> r.error == FailureError(old(cache.folderSizes), old(cache.writable), items, now)
      ensures cache.paths == old(cache.paths) && cache.writable == old(cache.writable) && cache.truncates == old(cache.truncates)
      ensures var n := Handled(old(cache.folderSizes), old(cache.writable), items, now);
        && cache.folderSizes == SizesAfter(drive, old(cache.folderSizes), items[..n], now)
        && cache.file == FileAfter(drive, old(cache.folderSizes), items[..n], now, cache.paths, cache.writable, cache.truncates, old(cache.file))
    {
      var out: seq<DriveItem> := [];
      for i := 0 to |items|
        invariant out == AnnotateAll(drive, old(cache.folderSizes), items[..i], now)
        invariant FirstFailure(old(cache.folderSizes), old(cache.writable), items, now) >= i
        invariant cache.paths == old(cache.paths) && cache.writable == old(cache.writable) && cache.truncates == old(cache.truncates)
        invariant !cache.writable ==> cache.folderSizes == old(cache.folderSizes)
        invariant cache.folderSizes == SizesAfter(drive, old(cache.folderSizes), items[..i], now)
        invariant cache.file == FileAfter(drive, old(cache.folderSizes), items[..i], now, cache.paths, cache.writable, cache.truncates, old(cache.file))
      {
        HandleStep(drive, old(cache.folderSizes), cache.writable, items, i, now);
        FileAfterSnoc(drive, old(cache.folderSizes), items, i, now, cache.paths, cache.writable, cache.truncates, old(cache.file));
        var item := AnnotateItem(items[i], now);
        if item.Err? {
          return Err(item.error);
        }
        out := out + [item.value];
      }
      assert items[..|items|] == items;
      assert Handled(old(cache.folderSizes), old(cache.writable), items, now) == |items|;
      r := Ok(out);
    }

    /** `list_files`: an empty folder id is rejected; otherwise the fetched
        listing, its owned items only with `owned_only`, annotated with sizes
        with `show_size`, then sorted. */
    method ListFiles(folderId: string, options: ListOptions, now: int) returns (r: Result<seq<DriveItem>, Error>)
      modifies cache
      ensures folderId == "" ==> r == Err(EmptyFolderId) && unchanged(cache)
      ensures folderId != "" && FetchSpec(Pages(drive, folderId), options.showHidden).Err? ==>
        r == FetchSpec(Pages(drive, folderId), options.showHidden) && unchanged(cache)
      ensures folderId != "" && FetchSpec(Pages(drive, folderId), options.showHidden).Ok? ==>
        var fetched := FetchSpec(Pages(drive, folderId), options.showHidden).value;
        var selected := Selected(fetched, options);
        && (!options.showSize ==> r == Ok(SortItems(selected, options)) && unchanged(cache))
        && (options.showSize ==>
              (r.Ok? <==> forall i :: 0 <= i < |selected| ==> !AnnotateFails(old(cache.folderSizes), old(cache.writable), selected[i], now)))
        && (options.showSize && r.Ok? ==>
              r.value == SortItems(AnnotateAll(drive, old(cache.folderSizes), selected, now), options))
        && (options.showSize && r.Err? ==>
              r.error == FailureError(old(cache.folderSizes), old(cache.writable), selected, now))
        && (options.showSize ==>
              var n := Handled(old(cache.folderSizes), old(cache.writable), selected, now);
              && cache.folderSizes == SizesAfter(drive, old(cache.folderSizes), selected[..n], now)
              && cache.file == FileAfter(drive, old(cache.folderSizes), selected[..n], now,
                                         cache.paths, cache.writable, cache.truncates, old(cache.file)))
      ensures cache.paths == old(cache.paths) && cache.writable == old(cache.writable) && cache.truncates == old(cache.truncates)
    {
      if folderId == "" {
        return Err(EmptyFolderId);
      }
      var fetched := FetchItems(folderId, options);
      if fetched.Err? {
        return fetched;
      }
      var items := fetched.value;
      if options.ownedOnly {
        items := OwnedOnly(items);
      }
      if options.showSize {
        var sized := CalculateFolderSizes(items, now);
        if sized.Err? {
          return sized;
        }
        items := sized.value;
      }
      r := Ok(SortItems(items, options));
    }
  }
}
