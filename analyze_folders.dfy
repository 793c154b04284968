/** The root-folder report of gdls's analysis script, once every untrashed
    file of the drive is in memory: a lookup table by id, the children of
    each parent id, the items at the root, a recursive size per folder
    (with a visited set copied down each branch) and the summary of the
    root sorted by size. */
module AnalyzeFolders {
  import opened Core
  import opened Sorting

  /** One file as listed: `mimeType`, `size` and `parents` may be absent. */
  datatype FileRecord = FileRecord(
    id: string,
    name: string,
    mimeType: Option<string>,
    size: Option<nat>,
    parents: Option<seq<string>>)

  predicate IsFolderRecord(f: FileRecord) {
    f.mimeType == Some(FolderMime)
  }

  // ---------------------------------------------------------------------
  // The tree

  /** `{f['id']: f for f in files}`. */
  function ById(files: seq<FileRecord>): map<string, FileRecord> {
    if files == [] then map[]
    else ById(files[..|files| - 1])[files[|files| - 1].id := files[|files| - 1]]
  }

  /** Every id of `files` is a key, and a key maps to a file with that id. */
  lemma {:induction false} ByIdSpec(files: seq<FileRecord>)
    ensures forall i :: 0 <= i < |files| ==> files[i].id in ById(files)
    ensures forall id :: id in ById(files) ==> ById(files)[id].id == id && ById(files)[id] in files
  {
    if files != [] {
      var n := |files| - 1;
      var init := files[..n];
      ByIdSpec(init);
      forall i | 0 <= i < |files| ensures files[i].id in ById(files) {
        if i < n { assert init[i] == files[i]; }
      }
      forall id | id in ById(files) ensures ById(files)[id].id == id && ById(files)[id] in files {
        if id != files[n].id {
          assert ById(init)[id] in init;
          assert forall f :: f in init ==> f in files;
        }
      }
    }
  }

  /** No later file has the id of `files[i]`. */
  predicate LastWithItsId(files: seq<FileRecord>, i: nat)
    requires i < |files|
  {
    forall j :: i < j < |files| ==> files[j].id != files[i].id
  }

  /** Where several files share an id, the last one wins. */
  lemma {:induction false} ByIdLastWins(files: seq<FileRecord>, i: nat)
    requires i < |files| && LastWithItsId(files, i)
    ensures files[i].id in ById(files) && ById(files)[files[i].id] == files[i]
  {
    var n := |files| - 1;
    if i < n {
      var init := files[..n];
      assert init[i] == files[i];
      assert files[n].id != files[i].id;
      assert LastWithItsId(init, i) by {
        forall j | i < j < |init| ensures init[j].id != init[i].id {
          assert init[j] == files[j];
        }
      }
      ByIdLastWins(init, i);
    }
  }

  /** `id` once for every occurrence of `p` in `parents`, in order. */
  function Occurrences(parents: seq<string>, p: string, id: string): (r: seq<string>)
    ensures forall x :: x in r <==> x == id && p in parents
  {
    if parents == [] then []
    else
      var init := parents[..|parents| - 1];
      assert parents == init + [parents[|parents| - 1]];
      Occurrences(init, p, id) + (if parents[|parents| - 1] == p then [id] else [])
  }

  /** `id` occurs once for every time `p` is listed among the parents. */
  lemma {:induction false} OccurrencesCount(parents: seq<string>, p: string, id: string)
    ensures |Occurrences(parents, p, id)| == multiset(parents)[p]
  {
    if parents != [] {
      var init := parents[..|parents| - 1];
      OccurrencesCount(init, p, id);
      assert parents == init + [parents[|parents| - 1]];
    }
  }

  /** What one file adds to the children list of `p`. */
  function ChildEntries(f: FileRecord, p: string): seq<string> {
    if f.parents.Some? then Occurrences(f.parents.value, p, f.id) else []
  }

  /** The children list of `p` built from `files`, in file order. */
  function ChildrenOf(files: seq<FileRecord>, p: string): seq<string> {
    if files == [] then []
    else ChildrenOf(files[..|files| - 1], p) + ChildEntries(files[|files| - 1], p)
  }

  lemma OccurrencesSnoc(parents: seq<string>, j: nat, p: string, id: string)
    requires j < |parents|
    ensures Occurrences(parents[..j + 1], p, id) == Occurrences(parents[..j], p, id) + (if parents[j] == p then [id] else [])
  {
    assert parents[..j + 1][..j] == parents[..j];
  }

  lemma ChildrenOfSnoc(files: seq<FileRecord>, i: nat, p: string)
    requires i < |files|
    ensures ChildrenOf(files[..i + 1], p) == ChildrenOf(files[..i], p) + ChildEntries(files[i], p)
  {
    assert files[..i + 1][..i] == files[..i];
  }

  /** `children_by_parent.get(p, [])`. */
  function Children(childrenByParent: map<string, seq<string>>, p: string): seq<string> {
    if p in childrenByParent then childrenByParent[p] else []
  }

  /** The children of `p` are exactly the ids of the files that name `p`
      among their parents. */
  lemma {:induction false} ChildrenOfSpec(files: seq<FileRecord>, p: string)
    ensures forall x :: x in ChildrenOf(files, p) <==>
      exists i :: 0 <= i < |files| && files[i].id == x && files[i].parents.Some? && p in files[i].parents.value
  {
    if files != [] {
      var init := files[..|files| - 1];
      ChildrenOfSpec(init, p);
      assert forall i :: 0 <= i < |init| ==> init[i] == files[i];
      forall x ensures x in ChildrenOf(files, p) <==>
        exists i :: 0 <= i < |files| && files[i].id == x && files[i].parents.Some? && p in files[i].parents.value
      {
        if exists i :: 0 <= i < |files| && files[i].id == x && files[i].parents.Some? && p in files[i].parents.value {
          var i :| 0 <= i < |files| && files[i].id == x && files[i].parents.Some? && p in files[i].parents.value;
          if i < |init| {
            assert init[i] == files[i];
          }
        }
      }
    }
  }

  /** Whether a file is at the root: no parents, an empty parent list, or
      `root` among its parents. */
  predicate IsRootItem(f: FileRecord) {
    f.parents.None? || f.parents.value == [] || RootId in f.parents.value
  }

  /** The root items in file order. */
  function RootItems(files: seq<FileRecord>): (r: seq<FileRecord>)
    ensures forall f :: f in r <==> f in files && IsRootItem(f)
  {
    if files == [] then []
    else
      var init := files[..|files| - 1];
      var last := files[|files| - 1];
      assert files == init + [last];
      RootItems(init) + (if IsRootItem(last) then [last] else [])
  }

  lemma RootItemsSnoc(files: seq<FileRecord>, i: nat)
    requires i < |files|
    ensures RootItems(files[..i + 1]) == RootItems(files[..i]) + if IsRootItem(files[i]) then [files[i]] else []
  {
    assert files[..i + 1][..i] == files[..i];
  }

  /** Appending `id` to the list of `parents[j]` extends the list of `p`
      by the occurrence of `p` at `j`. */
  lemma AddChild(childrenByParent: map<string, seq<string>>, parents: seq<string>, j: nat, id: string, p: string, base: seq<string>)
    requires j < |parents|
    requires Children(childrenByParent, p) == base + Occurrences(parents[..j], p, id)
    ensures Children(childrenByParent[parents[j] := Children(childrenByParent, parents[j]) + [id]], p)
         == base + Occurrences(parents[..j + 1], p, id)
  {
    OccurrencesSnoc(parents, j, p, id);
    var b := Occurrences(parents[..j], p, id);
    if parents[j] == p {
      assert base + b + [id] == base + (b + [id]);
    } else {
      assert b + [] == b;
    }
  }

  /** `build_folder_tree`. */
  method BuildFolderTree(files: seq<FileRecord>)
    returns (fileById: map<string, FileRecord>, childrenByParent: map<string, seq<string>>, rootItems: seq<FileRecord>)
    ensures fileById == ById(files)
    ensures forall p :: Children(childrenByParent, p) == ChildrenOf(files, p)
    ensures forall p :: p in childrenByParent ==> childrenByParent[p] != []
    ensures rootItems == RootItems(files)
  {
    fileById := ById(files);
    childrenByParent := map[];
    for i := 0 to |files|
      invariant forall p :: Children(childrenByParent, p) == ChildrenOf(files[..i], p)
      invariant forall p :: p in childrenByParent ==> childrenByParent[p] != []
    {
      var file := files[i];
      if file.parents.Some? {
        var parents := file.parents.value;
        for j := 0 to |parents|
          invariant forall p :: Children(childrenByParent, p) == ChildrenOf(files[..i], p) + Occurrences(parents[..j], p, file.id)
          invariant forall p :: p in childrenByParent ==> childrenByParent[p] != []
        {
          var parentId := parents[j];
          ghost var before := childrenByParent;
          childrenByParent := childrenByParent[parentId := Children(childrenByParent, parentId) + [file.id]];
          forall p ensures Children(childrenByParent, p) == ChildrenOf(files[..i], p) + Occurrences(parents[..j + 1], p, file.id) {
            AddChild(before, parents, j, file.id, p, ChildrenOf(files[..i], p));
          }
        }
        assert parents[..|parents|] == parents;
      }
      forall p ensures Children(childrenByParent, p) == ChildrenOf(files[..i + 1], p) {
        ChildrenOfSnoc(files, i, p);
        if file.parents.None? {
          assert ChildEntries(file, p) == [];
        }
      }
    }
    assert files[..|files|] == files;
    rootItems := [];
    for i := 0 to |files|
      invariant rootItems == RootItems(files[..i])
    {
      RootItemsSnoc(files, i);
      var file := files[i];
      if file.parents.None? || file.parents.value == [] {
        rootItems := rootItems + [file];
      } else if RootId in file.parents.value {
        rootItems := rootItems + [file];
      }
    }
  }

  // ---------------------------------------------------------------------
  // Folder sizes

  /** Entering `id` leaves fewer ids to enter, counting `id` itself. */
  lemma EnterShrinks(known: set<string>, visited: set<string>, id: string)
    requires id !in visited
    ensures |known - (visited + {id})| + 1 <= |(known + {id}) - visited|
  {
    var inner := known - (visited + {id});
    var outer := (known + {id}) - visited;
    assert inner + {id} <= outer;
    assert outer == (inner + {id}) + (outer - (inner + {id}));
  }

  /** `calculate_folder_size(id, ..., visited)`: 0 for an id already on the
      branch; otherwise the children of `id` walked with `id` added. */
  function FolderSize(byId: map<string, FileRecord>, childrenByParent: map<string, seq<string>>,
                      id: string, visited: set<string>): nat
    decreases |(byId.Keys + {id}) - visited|, 1, 0
  {
    if id in visited then 0
    else
      EnterShrinks(byId.Keys, visited, id);
      KidsTotal(byId, childrenByParent, Children(childrenByParent, id), visited + {id})
  }

  function KidsTotal(byId: map<string, FileRecord>, childrenByParent: map<string, seq<string>>,
                     kids: seq<string>, visited: set<string>): nat
    decreases |byId.Keys - visited| + 1, 0, |kids|
  {
    if kids == [] then 0
    else KidTotal(byId, childrenByParent, kids[0], visited) + KidsTotal(byId, childrenByParent, kids[1..], visited)
  }

  /** A child without a record adds nothing; otherwise its size, if it has
      one, and, separately, its own total if it is a folder. */
  function KidTotal(byId: map<string, FileRecord>, childrenByParent: map<string, seq<string>>,
                    kid: string, visited: set<string>): nat
    decreases |byId.Keys - visited| + 1, 0, 0
  {
    if kid !in byId then 0
    else
      assert byId.Keys + {kid} == byId.Keys;
      (if byId[kid].size.Some? then byId[kid].size.value else 0)
      + (if IsFolderRecord(byId[kid]) then FolderSize(byId, childrenByParent, kid, visited) else 0)
  }

  /** Children listed one after the other add up. */
  lemma {:induction false} KidsTotalAppend(byId: map<string, FileRecord>, childrenByParent: map<string, seq<string>>,
                                           a: seq<string>, b: seq<string>, visited: set<string>)
    ensures KidsTotal(byId, childrenByParent, a + b, visited)
         == KidsTotal(byId, childrenByParent, a, visited) + KidsTotal(byId, childrenByParent, b, visited)
  {
    if a != [] {
      assert (a + b)[1..] == a[1..] + b;
      KidsTotalAppend(byId, childrenByParent, a[1..], b, visited);
    } else {
      assert a + b == b;
    }
  }

  /** The children that have a record. */
  function Present(byId: map<string, FileRecord>, kids: seq<string>): (r: seq<string>)
    ensures forall k :: k in r <==> k in kids && k in byId
  {
    if kids == [] then []
    else
      assert kids == [kids[0]] + kids[1..];
      (if kids[0] in byId then [kids[0]] else []) + Present(byId, kids[1..])
  }

  /** Children without a record change nothing. */
  lemma {:induction false} MissingChildrenIgnored(byId: map<string, FileRecord>, childrenByParent: map<string, seq<string>>,
                                                  kids: seq<string>, visited: set<string>)
    ensures KidsTotal(byId, childrenByParent, kids, visited) == KidsTotal(byId, childrenByParent, Present(byId, kids), visited)
  {
    if kids != [] {
      MissingChildrenIgnored(byId, childrenByParent, kids[1..], visited);
      var p := Present(byId, kids);
      if kids[0] in byId {
        assert p == [kids[0]] + Present(byId, kids[1..]);
        assert p[0] == kids[0] && p[1..] == Present(byId, kids[1..]);
      } else {
        assert p == Present(byId, kids[1..]);
      }
    }
  }

  /** Leaving through `id` into a known child leaves fewer ids to enter. */
  lemma BranchShrinks(known: set<string>, visited: set<string>, id: string, child: string)
    requires id !in visited && child in known
    ensures |(known + {child}) - (visited + {id})| < |(known + {id}) - visited|
  {
    assert known + {child} == known;
    EnterShrinks(known, visited, id);
  }

  /** `calculate_folder_size`: a for-loop over the children of `folderId`,
      each child folder walked with a copy of the branch. */
  method CalculateFolderSize(folderId: string, fileById: map<string, FileRecord>,
                             childrenByParent: map<string, seq<string>>, visited: set<string>)
    returns (total: nat)
    ensures total == FolderSize(fileById, childrenByParent, folderId, visited)
    decreases |(fileById.Keys + {folderId}) - visited|
  {
    if folderId in visited {
      return 0;
    }
    var branch := visited + {folderId};
    var kids := Children(childrenByParent, folderId);
    total := 0;
    for k := 0 to |kids|
      invariant total + KidsTotal(fileById, childrenByParent, kids[k..], branch)
             == KidsTotal(fileById, childrenByParent, kids, branch)
    {
      assert kids[k..][1..] == kids[k + 1..];
      var childId := kids[k];
      if childId !in fileById {
        continue;
      }
      var child := fileById[childId];
      if child.size.Some? {
        total := total + child.size.value;
      }
      if child.mimeType == Some(FolderMime) {
        BranchShrinks(fileById.Keys, visited, folderId, childId);
        var sub := CalculateFolderSize(childId, fileById, childrenByParent, branch);
        total := total + sub;
      }
    }
  }

  /** A folder record that carries a size adds it and its contents too:
      folder F of 10 bytes holding a 5-byte file G contributes 15. */
  lemma SizedFolderCountsBoth()
    ensures var f := FileRecord("f", "F", Some(FolderMime), Some(10), Some(["top"]));
      var g := FileRecord("g", "G", Some("text/plain"), Some(5), Some(["f"]));
      KidTotal(map["f" := f, "g" := g], map["top" := ["f"], "f" := ["g"]], "f", {"top"}) == 15
  {
    var f := FileRecord("f", "F", Some(FolderMime), Some(10), Some(["top"]));
    var g := FileRecord("g", "G", Some("text/plain"), Some(5), Some(["f"]));
    var byId := map["f" := f, "g" := g];
    var kids := map["top" := ["f"], "f" := ["g"]];
    assert ["g"][1..] == [];
    assert KidsTotal(byId, kids, ["g"], {"top"} + {"f"}) == 5;
  }

  /** A folder with two parents is counted under each: X and Y under T both
      hold folder Z with one 7-byte file, and T totals 14. */
  lemma DiamondCountedTwice()
    ensures var byId := map[
        "x" := FileRecord("x", "X", Some(FolderMime), None, Some(["t"])),
        "y" := FileRecord("y", "Y", Some(FolderMime), None, Some(["t"])),
        "z" := FileRecord("z", "Z", Some(FolderMime), None, Some(["x", "y"])),
        "f" := FileRecord("f", "F", Some("text/plain"), Some(7), Some(["z"]))];
      var kids := map["t" := ["x", "y"], "x" := ["z"], "y" := ["z"], "z" := ["f"]];
      FolderSize(byId, kids, "t", {}) == 14
  {
    var byId := map[
      "x" := FileRecord("x", "X", Some(FolderMime), None, Some(["t"])),
      "y" := FileRecord("y", "Y", Some(FolderMime), None, Some(["t"])),
      "z" := FileRecord("z", "Z", Some(FolderMime), None, Some(["x", "y"])),
      "f" := FileRecord("f", "F", Some("text/plain"), Some(7), Some(["z"]))];
    var kids := map["t" := ["x", "y"], "x" := ["z"], "y" := ["z"], "z" := ["f"]];
    var t: set<string> := {} + {"t"};
    assert ["f"][1..] == [] && ["z"][1..] == [] && ["x", "y"][1..] == ["y"] && ["y"][1..] == [];
    assert FolderSize(byId, kids, "z", t + {"x"}) == 7 by {
      assert KidsTotal(byId, kids, ["f"], t + {"x"} + {"z"}) == 7;
    }
    assert FolderSize(byId, kids, "z", t + {"y"}) == 7 by {
      assert KidsTotal(byId, kids, ["f"], t + {"y"} + {"z"}) == 7;
    }
    assert FolderSize(byId, kids, "x", t) == 7 by {
      assert KidsTotal(byId, kids, ["z"], t + {"x"}) == KidTotal(byId, kids, "z", t + {"x"});
    }
    assert FolderSize(byId, kids, "y", t) == 7 by {
      assert KidsTotal(byId, kids, ["z"], t + {"y"}) == KidTotal(byId, kids, "z", t + {"y"});
    }
    assert KidsTotal(byId, kids, ["x", "y"], t) == 14 by {
      assert KidsTotal(byId, kids, ["y"], t) == KidTotal(byId, kids, "y", t);
    }
  }

  /** A folder that is its own child is entered once. */
  lemma SelfParentEnteredOnce()
    ensures var byId := map[
        "a" := FileRecord("a", "A", Some(FolderMime), None, Some(["a"])),
        "f" := FileRecord("f", "F", Some("text/plain"), Some(3), Some(["a"]))];
      FolderSize(byId, map["a" := ["a", "f"]], "a", {}) == 3
  {
    var byId := map[
      "a" := FileRecord("a", "A", Some(FolderMime), None, Some(["a"])),
      "f" := FileRecord("f", "F", Some("text/plain"), Some(3), Some(["a"]))];
    var kids := map["a" := ["a", "f"]];
    var seen: set<string> := {} + {"a"};
    assert ["a", "f"][1..] == ["f"] && ["f"][1..] == [];
    assert "a" in seen && FolderSize(byId, kids, "a", seen) == 0;
    assert KidTotal(byId, kids, "a", seen) == 0;
    assert KidsTotal(byId, kids, ["f"], seen) == KidTotal(byId, kids, "f", seen) + KidsTotal(byId, kids, [], seen);
    assert KidsTotal(byId, kids, ["a", "f"], seen) == KidTotal(byId, kids, "a", seen) + KidsTotal(byId, kids, ["f"], seen);
    assert KidTotal(byId, kids, "f", seen) == 3;
    assert FolderSize(byId, kids, "a", {}) == KidsTotal(byId, kids, ["a", "f"], seen);
  }

  // ---------------------------------------------------------------------
  // The root summary

  datatype FolderSizeEntry = FolderSizeEntry(name: string, size: nat, id: string)

  /** The root items that are folders, in order. */
  function FolderRoots(roots: seq<FileRecord>): (r: seq<FileRecord>)
    ensures forall f :: multiset(r)[f] == if IsFolderRecord(f) then multiset(roots)[f] else 0
  {
    if roots == [] then []
    else
      var init := roots[..|roots| - 1];
      var last := roots[|roots| - 1];
      assert roots == init + [last];
      FolderRoots(init) + (if IsFolderRecord(last) then [last] else [])
  }

  /** The report entry of a root folder, with its total from an empty
      visited set. */
  function EntryOf(byId: map<string, FileRecord>, childrenByParent: map<string, seq<string>>, f: FileRecord): FolderSizeEntry {
    FolderSizeEntry(f.name, FolderSize(byId, childrenByParent, f.id, {}), f.id)
  }

  function EntryFn(byId: map<string, FileRecord>, childrenByParent: map<string, seq<string>>): FileRecord -> FolderSizeEntry {
    (f: FileRecord) => EntryOf(byId, childrenByParent, f)
  }

  /** The entries `entry` gives the folders among `roots`, in order. */
  function FolderEntries(entry: FileRecord -> FolderSizeEntry, roots: seq<FileRecord>): seq<FolderSizeEntry> {
    if roots == [] then []
    else
      var last := roots[|roots| - 1];
      FolderEntries(entry, roots[..|roots| - 1]) + (if IsFolderRecord(last) then [entry(last)] else [])
  }

  /** One entry per root folder, in root-item order. */
  function RootFolderEntries(byId: map<string, FileRecord>, childrenByParent: map<string, seq<string>>,
                             roots: seq<FileRecord>): seq<FolderSizeEntry>
  {
    FolderEntries(EntryFn(byId, childrenByParent), roots)
  }

  /** One more root item, for the report's first loop. */
  lemma FolderEntriesSnoc(entry: FileRecord -> FolderSizeEntry, roots: seq<FileRecord>, i: nat)
    requires i < |roots|
    ensures FolderEntries(entry, roots[..i + 1])
         == FolderEntries(entry, roots[..i]) + (if IsFolderRecord(roots[i]) then [entry(roots[i])] else [])
  {
    assert roots[..i + 1][..i] == roots[..i];
  }

  /** `FolderEntries` maps `entry` over the folders among `roots`. */
  lemma {:induction false} FolderEntriesSpec(entry: FileRecord -> FolderSizeEntry, roots: seq<FileRecord>)
    ensures |FolderEntries(entry, roots)| == |FolderRoots(roots)|
    ensures forall k :: 0 <= k < |FolderRoots(roots)| ==> FolderEntries(entry, roots)[k] == entry(FolderRoots(roots)[k])
  {
    if roots != [] {
      var init := roots[..|roots| - 1];
      FolderEntriesSpec(entry, init);
    }
  }

  /** The k-th entry is that of the k-th folder among the root items, and
      there is one entry per such folder. */
  lemma RootFolderEntriesSpec(byId: map<string, FileRecord>, childrenByParent: map<string, seq<string>>, roots: seq<FileRecord>)
    ensures |RootFolderEntries(byId, childrenByParent, roots)| == |FolderRoots(roots)|
    ensures forall k :: 0 <= k < |FolderRoots(roots)| ==>
      RootFolderEntries(byId, childrenByParent, roots)[k] == EntryOf(byId, childrenByParent, FolderRoots(roots)[k])
  {
    FolderEntriesSpec(EntryFn(byId, childrenByParent), roots);
  }

  /** Root items that carry a size, in order: the report's count is their
      number and its total the sum of their sizes. */
  function SizedRootItems(roots: seq<FileRecord>): (r: seq<FileRecord>)
    ensures forall f :: f in r <==> f in roots && f.size.Some?
  {
    if roots == [] then []
    else
      var init := roots[..|roots| - 1];
      var last := roots[|roots| - 1];
      assert roots == init + [last];
      SizedRootItems(init) + (if last.size.Some? then [last] else [])
  }

  /** Each sized root item is kept as often as it occurs, so the report's
      count is the number of sized root items. */
  lemma {:induction false} SizedRootItemsCount(roots: seq<FileRecord>)
    ensures forall f :: multiset(SizedRootItems(roots))[f] == if f.size.Some? then multiset(roots)[f] else 0
  {
    if roots != [] {
      var init := roots[..|roots| - 1];
      SizedRootItemsCount(init);
      assert roots == init + [roots[|roots| - 1]];
    }
  }

  function SumSizes(items: seq<FileRecord>): nat {
    if items == [] then 0
    else SumSizes(items[..|items| - 1]) + (if items[|items| - 1].size.Some? then items[|items| - 1].size.value else 0)
  }

  /** One more root item, for the report's second loop. */
  lemma RootFilesSnoc(roots: seq<FileRecord>, i: nat)
    requires i < |roots|
    ensures |SizedRootItems(roots[..i + 1])| == |SizedRootItems(roots[..i])| + (if roots[i].size.Some? then 1 else 0)
    ensures SumSizes(roots[..i + 1]) == SumSizes(roots[..i]) + (if roots[i].size.Some? then roots[i].size.value else 0)
  {
    assert roots[..i + 1][..i] == roots[..i];
  }

  predicate LargerEntry(a: FolderSizeEntry, b: FolderSizeEntry) {
    a.size > b.size
  }

  /** `folder_sizes.sort(key=size, reverse=True)`. */
  function BySizeDescending(entries: seq<FolderSizeEntry>): seq<FolderSizeEntry> {
    Sort(entries, LargerEntry)
  }

  /** Lines 149-170 of the report, on the tree `build_folder_tree` gave:
      the root folders' totals sorted largest first, and the size and count
      of the root items that carry a size. */
  method SummarizeRoot(fileById: map<string, FileRecord>, childrenByParent: map<string, seq<string>>,
                       rootItems: seq<FileRecord>)
    returns (folderSizes: seq<FolderSizeEntry>, rootFilesSize: nat, rootFilesCount: nat)
    ensures folderSizes == BySizeDescending(RootFolderEntries(fileById, childrenByParent, rootItems))
    ensures rootFilesSize == SumSizes(rootItems)
    ensures rootFilesCount == |SizedRootItems(rootItems)|
  {
    folderSizes := [];
    for i := 0 to |rootItems|
      invariant folderSizes == RootFolderEntries(fileById, childrenByParent, rootItems[..i])
    {
      FolderEntriesSnoc(EntryFn(fileById, childrenByParent), rootItems, i);
      var item := rootItems[i];
      if item.mimeType == Some(FolderMime) {
        var size := CalculateFolderSize(item.id, fileById, childrenByParent, {});
        folderSizes := folderSizes + [FolderSizeEntry(item.name, size, item.id)];
      }
    }
    assert rootItems[..|rootItems|] == rootItems;
    rootFilesSize, rootFilesCount := 0, 0;
    for i := 0 to |rootItems|
      invariant rootFilesSize == SumSizes(rootItems[..i])
      invariant rootFilesCount == |SizedRootItems(rootItems[..i])|
    {
      RootFilesSnoc(rootItems, i);
      var item := rootItems[i];
      if item.size.Some? {
        rootFilesSize := rootFilesSize + item.size.value;
        rootFilesCount := rootFilesCount + 1;
      }
    }
    folderSizes := BySizeDescending(folderSizes);
  }

  /** The sorted summary holds the same entries, largest first, and equal
      sizes keep the order of the root items. */
  lemma BySizeDescendingSpec(entries: seq<FolderSizeEntry>)
    ensures multiset(BySizeDescending(entries)) == multiset(entries)
    ensures var r := BySizeDescending(entries);
      forall i, j :: 0 <= i < j < |r| ==> r[i].size >= r[j].size
    ensures forall x :: TiedWith(BySizeDescending(entries), x, LargerEntry) == TiedWith(entries, x, LargerEntry)
  {
    assert StrictWeakOrder(LargerEntry);
    SortSorted(entries, LargerEntry);
    forall x ensures TiedWith(BySizeDescending(entries), x, LargerEntry) == TiedWith(entries, x, LargerEntry) {
      SortStable(entries, x, LargerEntry);
    }
  }

  /** The root size counts each sized root item once: it is the sum over
      the sized ones, and the count is at most the number of root items. */
  lemma {:induction false} RootFilesSizeOfSized(roots: seq<FileRecord>)
    ensures SumSizes(roots) == SumSizes(SizedRootItems(roots))
    ensures |SizedRootItems(roots)| <= |roots|
  {
    if roots != [] {
      var init := roots[..|roots| - 1];
      var last := roots[|roots| - 1];
      RootFilesSizeOfSized(init);
      var s := SizedRootItems(init);
      if last.size.Some? {
        assert SizedRootItems(roots) == s + [last];
        assert (s + [last])[..|s + [last]| - 1] == s;
      } else {
        assert SizedRootItems(roots) == s + [];
        assert s + [] == s;
      }
    }
  }
}
