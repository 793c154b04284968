# gdls in Dafny

A verified model of the core of gdls, an `ls` for Google Drive. The model covers:

- **Data model** (`core.dfy`, module `Core`): the listing options and their
  sort-key check, the `DriveItem` and `PathInfo` records with the checks
  their constructors make, the folder and Google-document predicates, and
  the `display_size` fallback.
- **Cache** (`cache.dfy`, `Cache`): a class with a path map and a folder-size
  map. Paths never expire; sizes are trusted for one hour, the boundary
  included. Every change is written through to a backing file whose save may
  fail, after the in-memory update.
- **Remote drive** (`remote.dfy`, `Remote`): a finite, read-only map from a
  folder id to the pages of its child listing. Any page may fail. It also
  defines the by-name folder query and the segment walk that both path
  resolvers perform.
- **Path resolution** (`paths.dfy`, `Paths`): the path as a sequence of
  non-empty segments, the resolver class walking them one query per segment
  from the root, and caching only full successes under the path as given.
- **Explorer** (`explorer.dfy`, `Explorer`): the paged fetch and the item
  conversion, the owned-only filter, and annotation of folders with sizes.
  It also covers the stable sort by one of four keys with optional reverse,
  and the recursive folder size with a visited set copied down each branch.
- **Folder analysis** (`analyze_folders.dfy`, `AnalyzeFolders`): the
  in-memory tree (by-id map, children by parent, root items), the recursive
  size over it, and the root summary sorted by size.
- **Older single-class tool** (`gdrive_ls.dfy`, `LegacyLs`): the path cache,
  path resolution, the type letter, one folder's sorted listing, and the
  child path of a recursive listing.
- **Helpers**: `strings.dfy` (`Strings`: Python's string order, ASCII
  lower-casing, substring test) and `sorting.dfy` (`Sorting`: a stable
  insertion sort and `reverse` with their order, permutation and stability
  lemmas).

How the environment is modelled:

- The clock is an integer `now` parameter.
- Whether the backing file can be written is a `writable` field that the
  methods read and never change. A second field, `truncates`, says whether
  a failing save fails after `open(..., 'w')` has already emptied the file
  (a full disk, say) rather than at the open (no permission). The next
  load then finds an unreadable file.
- The remote queries a resolver makes are returned as a trace
  (`calls: seq<Query>`), so that lookups can be counted.
- Python's live list mutation (in-place sort, `calculated_size`
  assignment) becomes functions returning the new sequence.
- The cache, the resolvers and the explorers are classes whose methods
  update fields, with loops and invariants.

Each recursive walk has a specification function (`FolderTotal`,
`FolderSize`, `Walk`) and a method proved equal to it. Termination on a
cyclic parent graph is part of those proofs: the visited set grows on every
descent inside the finite set of listed ids.

`EntriesSize` is the inner loop over one page's entries of
`_recursive_folder_size`, split out as its own method so that the two
mutually recursive methods carry separate termination measures.

A failed cache save during `resolve` or `calculate_folder_size` raises
`DriveCacheError` to the caller. It does not return the freshly computed
result, although the new entry stays in memory.

## Model

| member | source | states |
|---|---|---|
| Core.CheckListOptions | gdls/core.py:52-56 | options are accepted exactly when `sort_by` is name, size, date or type, and are then unchanged; otherwise the error names the rejected key |
| Core.CheckDriveItem | gdls/core.py:74-81 | an item is accepted exactly when id and name are non-empty; an empty id is reported before an empty name |
| Core.FolderIsGoogleDoc | gdls/core.py:83-89 | `is_folder` is the folder type exactly, and every folder also counts as a Google document |
| Core.IsGoogleDoc | gdls/core.py:87-89 | an item is a Google document exactly when its type holds `google-apps` at some offset |
| Core.DisplaySize | gdls/core.py:91-94 | the result is 0 exactly when neither size is present and non-zero; a non-zero result is one of the two sizes, and a non-zero calculated size wins |
| Core.ZeroCalculatedSizeFallsBack | gdls/core.py:94 | a calculated size of 0 falls back to the item's own size |
| Core.MakePathInfo | gdls/core.py:104-111 | a path info is built exactly when id and name are non-empty, any path text included; an empty id is reported before an empty name |
| Strings.Lower | gdls/explorer.py:178 | lower-casing keeps the length and maps each character on its own |
| Strings.LexOrder | gdls/explorer.py:178 | Python's string order is a strict weak order |
| Strings.ContainsAt | gdls/core.py:89 | an occurrence at any offset makes `in` hold |
| Strings.ContainsIff | gdls/core.py:89 | `t in s` holds exactly when `t` occurs in `s` at some offset |
| Sorting.Sort | gdls/explorer.py:169-178 | the sort is a permutation of its input |
| Sorting.SortSorted | gdls/explorer.py:169-178 | under a strict weak order, no element of the result comes before an element to its left |
| Sorting.SortStable | gdls/explorer.py:169-178 | elements tied under the key keep their input order |
| Sorting.ReverseOfSorted | gdls/explorer.py:180-181 | reversing a sorted list gives the opposite order |
| Sorting.ReversePermutes | gdls/explorer.py:180-181 | reversing is a permutation |
| Cache.LoadCache | gdls/cache.py:82-98 | a missing or corrupt file gives two empty maps; a document lacking a key gets it empty; present keys are kept |
| Cache.LoadPersisted | gdls/cache.py:82-106 | loading what a save wrote gives back both maps |
| Cache.SizeKeyInjective | gdls/cache.py:52 | distinct folder ids use distinct size keys |
| Cache.LookupPath | gdls/cache.py:20-33 | an absent path gives nothing; a present one gives its stored id and name with the path asked for, or the `PathInfo` error when either is empty |
| Cache.LookupFolderSize | gdls/cache.py:47-63 | a size is returned exactly when its key is present and its age is at most the TTL, and it is the stored size |
| Cache.SizeExpiry | gdls/cache.py:58-63 | a size stored at `t0` is returned until `t0 + 3600` inclusive and not after, whatever it is |
| Cache.PathNeverExpires | gdls/cache.py:20-45 | a stored path is found at any time |
| Cache.DriveCache.constructor | gdls/cache.py:16-18 | the maps are those `_load_cache` gives for the file found |
| Cache.DriveCache.Save | gdls/cache.py:100-106 | on success the file holds both maps; on failure the error is `DriveCacheError`, and the file is as it was, or unreadable when the failure came after the open emptied it |
| Cache.DriveCache.SetPath | gdls/cache.py:35-45 | the entry is stored with timestamp `now` before the save; afterwards the path is found and every other path and all sizes are unchanged, also when the save fails |
| Cache.DriveCache.SetFolderSize | gdls/cache.py:65-75 | the size is stored under `size_<id>` before the save and found at once (0 included); paths and other ids are unchanged |
| Cache.DriveCache.Clear | gdls/cache.py:77-80 | afterwards no path and no size is found |
| Remote.Pages | gdls/explorer.py:70-92 | a listed folder gives its own pages; any folder has at least one page |
| Remote.Visible | gdls/explorer.py:63-66 | an entry is kept exactly when it is shown, and all entries are kept when trashed ones are included |
| Remote.VisibleAppend | gdls/explorer.py:63-66 | the query filters each page in place: filtering a concatenation is concatenating the filtered parts, so page order is kept |
| Remote.VisibleCount | gdls/explorer.py:63-66 | a shown entry is kept as often as it is listed, a hidden one never |
| Remote.CollectSpec | gdrive_ls.py:188-208 | the listing fails exactly when a page fails, and otherwise holds exactly the shown entries of every page |
| Remote.FirstMatchSpec | gdls/paths.py:80-84 | the query finds nothing exactly when no entry matches, and otherwise the first matching entry |
| Remote.FindInIsFirstOfListing | gdls/paths.py:64-87 | with a readable listing, the lookup returns the first matching folder of the whole listing, or no match |
| Remote.WalkTrace | gdls/paths.py:52-60 | a full walk makes one query per segment; a stuck walk stops at the first failing segment; query i is for segment i, and the first is under the start folder |
| Remote.WalkChain | gdls/paths.py:53-62 | each query but the last found a folder and the next query is under it; a full walk ends at the folder the last query found, or at the start when there are no segments |
| Paths.FirstSlash | gdls/paths.py:52 | the index is that of the first slash, or the length when there is none |
| Paths.Split | gdls/paths.py:52 | splitting gives at least one piece and no piece holds a slash |
| Paths.StripRight | gdrive_ls.py:281 | the result is a prefix that does not end in a slash, and everything cut off is a slash |
| Paths.NonEmpty | gdls/paths.py:52 | exactly the non-empty pieces are kept |
| Paths.Segments | gdls/paths.py:52 | every segment is non-empty and holds no slash |
| Paths.SplitConcat | gdls/paths.py:52 | splitting `a/b` gives the pieces of `a` followed by those of `b` |
| Paths.SegmentsUnstripped | gdls/paths.py:52 | stripping outer slashes does not change the segments |
| Paths.SegmentsOfJoin | gdls/paths.py:52 | the segments of `/a/b/...` are `a, b, ...` |
| Paths.SegmentsOfTwoFolders | gdls/paths.py:52 | "/A/B" has the segments "A" and "B" |
| Paths.SlashesOnlyHaveNoSegments | gdls/paths.py:52 | a path of slashes only has no segments |
| Paths.SlashesOnlyReachRoot | gdls/paths.py:52-62 | such a path reaches the root with no query |
| Paths.PathResolver.constructor | gdls/paths.py:13-15 | the resolver holds the drive and cache it is given |
| Paths.PathResolver.ResolveComponents | gdls/paths.py:50-62 | the queries made are the walk's; a stuck walk raises `DrivePathNotFoundError` naming the segment and the path; a full walk gives the path info of the folder reached |
| Paths.PathResolver.Resolve | gdls/paths.py:17-48 | "" and "/" give the root with no query and no cache change; a cached path (or its error) is returned with no query; a miss walks, stores only a full success under the given path, and reports a failed save |
| Paths.ResolveTwice | gdls/paths.py:37-48 | after a successful resolve, resolving the same text again gives the same result with no query |
| Explorer.VisitShrinks | gdls/explorer.py:136-139 | entering an unvisited listed folder leaves fewer folders to enter |
| Explorer.FilesTotalAppend | gdls/explorer.py:154-158 | sibling entries add up independently |
| Explorer.PagesTotalStopsAtFailure | gdls/explorer.py:143-165 | a failed page keeps the total of the pages before it |
| Explorer.PagesTotalOfListing | gdls/explorer.py:143-167 | with no failed page, the total is that of the whole untrashed listing |
| Explorer.DiamondCountedTwice | gdls/explorer.py:158 | a folder reached through two sibling branches is counted under each |
| Explorer.SelfCycleEntersOnce | gdls/explorer.py:136-139 | a folder listing itself is entered once, and its own entry adds 0 |
| Explorer.VisitedOnlyMattersOnCycles | gdls/explorer.py:136-158 | where the folders below a folder can be ranked so that every descent goes to a lower rank, a visited set holding none of them gives the same total as an empty one |
| Explorer.ToItem | gdls/explorer.py:98-110 | id, name, type, owner and sharing flags and the size are copied; the time is absent exactly when it is missing, empty or unparsable; nothing is calculated yet |
| Explorer.FirstInvalid | gdls/explorer.py:98-111 | the entries before the position are valid items, and the entry at it is not |
| Explorer.ConvertedSpec | gdls/explorer.py:94-113 | a page converts exactly when no entry is rejected, and then into one item per entry, in order |
| Explorer.ConvertedFirstError | gdls/explorer.py:98-111 | a failed conversion reports the error of the first rejected entry |
| Explorer.ConvertedOkIffAllValid | gdls/explorer.py:98-111 | a page converts exactly when every entry has a non-empty id and name |
| Explorer.ConvertedAppend | gdls/explorer.py:83 | converting two runs of entries is converting their concatenation |
| Explorer.FetchSpecIsListing | gdls/explorer.py:70-92 | the fetch succeeds exactly when no page fails and every entry converts, and is then the whole listing converted; a failed page never yields a partial list |
| Explorer.OwnedOnly | gdls/explorer.py:37-38 | exactly the owned items are kept, each as often as in the input |
| Explorer.Annotate | gdls/explorer.py:126-132 | only `calculated_size` may change; non-folders are unchanged, owned folders get their reported size and unowned folders 0 |
| Explorer.AnnotateAll | gdls/explorer.py:124-132 | every item is annotated in place by position |
| Explorer.RefreshKeepsReports | gdls/explorer.py:45-59 | one size store changes no folder's reported size, makes the handled folder's size fresh and keeps fresh sizes fresh |
| Explorer.SizesAfterSpec | gdls/explorer.py:124-132 | after the loop every owned folder handled with an id has a fresh size, and no folder's reported size has changed |
| Explorer.FirstFailure | gdls/explorer.py:124-132 | the position is at most the length; no item before it raises, and the item at it does |
| Explorer.FileAfterIsSaved | gdls/explorer.py:124-132 | after the loop the file is as before, or holds the final maps when saves succeed, or is unreadable when a save emptied it; with saves that fail at the open it is unchanged |
| Explorer.BeforeIsStrictWeakOrder | gdls/explorer.py:169-178 | each sort key is a strict weak order |
| Explorer.SortItemsSpec | gdls/explorer.py:169-183 | the result is a permutation; without reverse it is sorted and stable; with reverse it is exactly the unreversed result backwards |
| Explorer.SortKeyOrder | gdls/explorer.py:171-178 | size gives non-increasing `display_size`, date non-increasing time with a missing one last, type non-decreasing mime type, name non-decreasing lower-cased name |
| Explorer.SizeSortExample | gdls/explorer.py:171-181 | files of 5 and 100 bytes come out as 100, 5, and with reverse as 5, 100 |
| Explorer.DateKeyLess | gdls/explorer.py:174 | comparing a parsed time with `datetime.min` raises `TypeError`; two times compare by instant |
| Explorer.MixedDatesRaise | gdls/explorer.py:173-174 | an item with a time and one without cannot be compared under the key as written, either way round |
| Explorer.DriveExplorer.constructor | gdls/explorer.py:16-18 | the explorer holds the drive and cache it is given |
| Explorer.DriveExplorer.RecursiveFolderSize | gdls/explorer.py:134-167 | the result is the folder's total: 0 when already visited, else the pages' totals up to the first failed page, with the folder added to the branch |
| Explorer.DriveExplorer.EntriesSize | gdls/explorer.py:154-158 | the result is the entries' total: a size adds itself, a sizeless folder its own walk on the branch |
| Explorer.DriveExplorer.CalculateFolderSize | gdls/explorer.py:45-59 | an empty id is rejected; a fresh cached size is returned with no walk; otherwise the walk's total is stored at `now` and returned, or the save error raised; no folder's reported size changes |
| Explorer.DriveExplorer.ConvertToDriveItems | gdls/explorer.py:94-113 | the result is the page's conversion |
| Explorer.DriveExplorer.FetchItems | gdls/explorer.py:61-92 | the result is the fetch of the folder's pages, trashed entries only with `show_hidden` |
| Explorer.DriveExplorer.AnnotateItem | gdls/explorer.py:126-132 | one item is annotated as `Annotate` says, and raises exactly when it is an owned folder with an empty id (`ValueError`) or an unsavable cache miss (`DriveCacheError`); the size map gains the walked total only for such a miss, and the file is saved only when the map changed |
| Explorer.DriveExplorer.CalculateFolderSizes | gdls/explorer.py:124-132 | it succeeds exactly when no owned folder fails, and then annotates every item with the sizes reported before the call; a failure is the error of the first failing item, an empty id or a failed save; the size map and the file are those left by the items handled, up to and including the one that raised |
| Explorer.DriveExplorer.ListFiles | gdls/explorer.py:20-43 | an empty id is rejected; a failed fetch is returned; otherwise the owned filter, the annotation (with `show_size`) and the sort, in that order; a failed annotation reports the first failing item's error; with `show_size` the cache ends as the annotation leaves it, and otherwise is unchanged |
| AnalyzeFolders.ByIdSpec | analyze_folders.py:86 | every file id is a key, and each key maps to a file with that id |
| AnalyzeFolders.ByIdLastWins | analyze_folders.py:86 | among files sharing an id, the last one is kept |
| AnalyzeFolders.Occurrences | analyze_folders.py:92-93 | only the child's id is added, and only when `p` is among its parents |
| AnalyzeFolders.OccurrencesCount | analyze_folders.py:92-93 | the id is added once for each time `p` is listed among the parents |
| AnalyzeFolders.ChildrenOfSpec | analyze_folders.py:89-93 | the children of `p` are exactly the ids of files that have `p` among their parents |
| AnalyzeFolders.RootItems | analyze_folders.py:96-101 | exactly the files with no parents, an empty parent list, or `root` among their parents |
| AnalyzeFolders.BuildFolderTree | analyze_folders.py:83-103 | the three results equal the by-id map, the children lists (in file order, no empty list stored) and the root items |
| AnalyzeFolders.EnterShrinks | analyze_folders.py:111-113 | entering an unvisited id leaves fewer ids to enter |
| AnalyzeFolders.KidsTotalAppend | analyze_folders.py:118-130 | children add up independently |
| AnalyzeFolders.Present | analyze_folders.py:119-120 | exactly the children that have a record are kept |
| AnalyzeFolders.MissingChildrenIgnored | analyze_folders.py:118-120 | children without a record add nothing |
| AnalyzeFolders.BranchShrinks | analyze_folders.py:130 | descending into a known child leaves fewer ids to enter |
| AnalyzeFolders.CalculateFolderSize | analyze_folders.py:105-132 | the result is the folder's total over the tree |
| AnalyzeFolders.SizedFolderCountsBoth | analyze_folders.py:125-130 | a folder record with a size adds that size and its contents |
| AnalyzeFolders.DiamondCountedTwice | analyze_folders.py:130 | a folder with two parents under the same root is counted under each |
| AnalyzeFolders.SelfParentEnteredOnce | analyze_folders.py:111-113 | a folder that is its own child is entered once |
| AnalyzeFolders.FolderRoots | analyze_folders.py:150-151 | each root folder is kept as often as it occurs among the root items, and nothing else is kept |
| AnalyzeFolders.FolderEntriesSpec | analyze_folders.py:149-159 | there is one entry per root folder, and the k-th entry is that of the k-th root folder |
| AnalyzeFolders.RootFolderEntriesSpec | analyze_folders.py:149-159 | there is one entry per root folder, and the k-th has that folder's name, id and total from an empty visited set |
| AnalyzeFolders.SizedRootItems | analyze_folders.py:162-167 | an item is kept exactly when it is a root item that carries a size |
| AnalyzeFolders.SizedRootItemsCount | analyze_folders.py:162-167 | each sized root item is kept as often as it occurs, so the report counts every sized root item occurrence |
| AnalyzeFolders.SummarizeRoot | analyze_folders.py:149-170 | the folder entries are sorted by size; the root file total and count are those of the sized root items |
| AnalyzeFolders.BySizeDescendingSpec | analyze_folders.py:170 | the sorted summary is a permutation, largest first, with ties in root-item order |
| AnalyzeFolders.RootFilesSizeOfSized | analyze_folders.py:162-167 | the root total is the sum over the sized root items, and the count is at most the number of root items |
| LegacyLs.LoadLegacyCache | gdrive_ls.py:52-60 | a missing or unreadable file gives an empty path map; a readable one is taken as it is |
| LegacyLs.FileTypeChar | gdrive_ls.py:144-151 | the letter is `d` exactly for the folder type, `g` exactly for other types containing `google-apps`, and `-` exactly otherwise |
| LegacyLs.FileTypeCharOfItem | gdrive_ls.py:144-151 | the letter agrees with the newer folder and Google-document predicates |
| LegacyLs.RawBeforeIsStrictWeakOrder | gdrive_ls.py:211-218 | each sort key of the older tool is a strict weak order |
| LegacyLs.SortListingSpec | gdrive_ls.py:210-223 | the result is a permutation; without reverse it is sorted and stable; with reverse it is the unreversed result backwards |
| LegacyLs.MissingSizeIsZero | gdrive_ls.py:212 | under `size`, a missing size ties with size 0 |
| LegacyLs.TypeKeyIsCaseSensitive | gdrive_ls.py:216 | the `type` key compares names case-sensitively: "B" comes before "a" |
| LegacyLs.ChildPathSpec | gdrive_ls.py:281 | the join is one slash right after the parent with its trailing slashes cut off; for any name, the child path has the parent's segments followed by the name's |
| LegacyLs.ChildPathOfSegment | gdrive_ls.py:281 | for a name without a slash, the child path has the parent's segments plus the name, and no slash after the join |
| LegacyLs.GDriveLs.constructor | gdrive_ls.py:25-27 | the path cache is what `_load_cache` gives for the file found |
| LegacyLs.GDriveLs.SaveCache | gdrive_ls.py:62-65 | a successful save writes the current paths; a failed one leaves the file as it was, or unreadable when the failure came after the open emptied it |
| LegacyLs.GDriveLs.ResolvePath | gdrive_ls.py:67-108 | "" and "/" give the root with no query; a document without `paths` raises `KeyError`; a cached path is returned with no query; otherwise one query per segment; a missing folder or HTTP error raises `ValueError` with nothing cached; a success is cached under the given path |
| LegacyLs.GDriveLs.ListFolder | gdrive_ls.py:181-223 | the result is every page concatenated and sorted, or empty as soon as a page fails |
| LegacyLs.GDriveLs.ListFiles | gdrive_ls.py:153-223 | a resolution `ValueError` gives the empty listing; a missing `paths` key propagates with no query; a walked path is cached and saved, and a failed save propagates; otherwise the resolved folder's sorted listing |

## Left out

- Authentication, the API client and its query strings, JSON encoding and file-system calls are not modelled. The service is an abstract paged map from folder id to listing pages, and the backing file is a value whose save may fail.
- The page size (`API_PAGE_SIZE`) and the next-page token: the pages are given by the drive model.
- Remote.FindIn: the by-name query with `pageSize=1` is answered by scanning the parent's listing pages in order for the first untrashed folder with that name. The service's own ordering and its query parsing (including the missing quote escaping) are not modelled.
- Date parsing and formatting (`_parse_datetime`, `_format_date`, `datetime.now`): times are integer seconds, and an unparsable time is `None`.
- `format_size`, the display module, `display_items`, the command-line entry points and all printing, including the report layout and the top-30 cut of the folder report.
- `get_all_files` of the analysis script: the report starts from the list of files it returns.
- `recursive_list` of the older tool: only the child path it builds is modelled. Its recursion is left out because it has no visited set and need not terminate on a cyclic folder graph.
- `isinstance` checks: Dafny's types make them hold.
- Cache records with missing keys: a stored path entry always has an id and a name, and a stored size entry a size and a timestamp. The `KeyError` and the `.get` defaults for malformed entries are not modelled.
- Entries missing `id` or `name` in a listing page: every remote entry has both (possibly empty) strings. The `KeyError` for a missing key is not modelled.
- The clock: `datetime.now()` is read anew at every cache get and set (gdls/cache.py:43, 59, 73). The model reads one `now` per call, so `CalculateFolderSizes` and its lemmas assume the clock does not move while the call runs; an entry that expires during the loop is not modelled.
- The shared cache file: gdls and the older tool both use `.gdrive_cache.json` in the working directory (gdls/core.py:15, gdrive_ls.py:22). gdls stores each path as a `{id, name, timestamp}` record (gdls/cache.py:40-44), while the older tool expects an `(id, name)` pair. Unpacking such a record raises `ValueError`, so the older `list_files` returns `[]` for a path gdls cached (gdrive_ls.py:176). The model gives each tool its own file format and does not model this cross-tool case.
- Explorer.ToItem: `created_time`, `owners` and `web_view_link` (gdls/explorer.py:105-110) are not part of the modelled item, because nothing in the listing, sizing or sorting reads them.
- Strings.Lower: lower-cases ASCII letters only, because full Unicode case mapping is not modelled.
- Explorer.DriveExplorer.CalculateFolderSizes: returns the annotated items as a new sequence rather than assigning `calculated_size` on the shared objects. So aliasing of the items between the caller and the listing is not captured.
- Explorer.SortItems and LegacyLs.SortListing: the in-place `sort` and `reverse` are functions returning the new sequence.
- Explorer.SortItems: the `date` key is modelled as the corrected order under Findings. The listing that raises `TypeError` is described there, not by the sort.

## Findings

| source | as written | input that shows it | evidently intended | confidence | as-written member | corrected member |
|---|---|---|---|---|---|---|
| gdls/explorer.py:173-174 | the date key is `modified_time or datetime.min`; parsed times are timezone-aware while `datetime.min` is naive, and `<` between the two raises `TypeError` | listing a folder by date that holds one item with a modification time and one without | items without a time sort as the oldest | medium, not executed | Explorer.MixedDatesRaise | Explorer.SortKeyOrder |
