/** Data model of gdls: constants, the error kinds, the listing options and
    the two records (a listed item and a resolved path) with the checks
    their constructors make. */
module Core {
  import opened Strings

  /** Size entries of the cache are trusted for one hour. */
  const CacheTtlSeconds: int := 60 * 60

  const FolderMime: string := "application/vnd.google-apps.folder"
  const RootId: string := "root"
  const RootName: string := "My Drive"

  datatype Option<T> = None | Some(value: T)

  datatype Result<T, E> = Ok(value: T) | Err(error: E)

  /** The outcome of an operation that returns nothing but may raise. */
  datatype Outcome<E> = Pass | Fail(error: E)

  /** The exceptions the core raises. The five `Empty...` and `InvalidSortBy`
      are `ValueError`s with different messages. */
  datatype Error =
    | InvalidSortBy(sortBy: string)
    | EmptyItemId
    | EmptyItemName
    | EmptyPathId
    | EmptyPathName
    | EmptyFolderId
    | ListingFailed                                // DriveError
    | PathNotFound(segment: string, path: string)  // DrivePathNotFoundError
    | CacheSaveFailed                              // DriveCacheError
    | UnorderableDates                             // TypeError

  /** Options of one listing. `sortBy` is kept as the text that was given. */
  datatype ListOptions = ListOptions(
    longFormat: bool,
    humanReadable: bool,
    showHidden: bool,
    recursive: bool,
    sortBy: string,
    reverseSort: bool,
    showSize: bool,
    ownedOnly: bool,
    showOwnership: bool)

  const ValidSorts: seq<string> := ["name", "size", "date", "type"]

  /** The check `ListOptions` makes once its fields are set. */
  function CheckListOptions(o: ListOptions): (r: Result<ListOptions, Error>)
    ensures r.Ok? <==> (o.sortBy == "name" || o.sortBy == "size" || o.sortBy == "date" || o.sortBy == "type")
    ensures r.Ok? ==> r.value == o
    ensures r.Err? ==> r.error == InvalidSortBy(o.sortBy)
  {
    if o.sortBy in ValidSorts then Ok(o) else Err(InvalidSortBy(o.sortBy))
  }

  /** A listed file or folder. Times are seconds; `calculatedSize` is filled
      in for folders when sizes are requested. */
  datatype DriveItem = DriveItem(
    id: string,
    name: string,
    mimeType: string,
    size: Option<int>,
    modifiedTime: Option<int>,
    ownedByMe: bool,
    shared: bool,
    calculatedSize: Option<int>)

  predicate ValidItem(item: DriveItem) {
    item.id != "" && item.name != ""
  }

  /** The check `DriveItem` makes once its fields are set: the id is checked
      before the name. */
  function CheckDriveItem(item: DriveItem): (r: Result<DriveItem, Error>)
    ensures r.Ok? <==> ValidItem(item)
    ensures r.Ok? ==> r.value == item
    ensures item.id == "" ==> r == Err(EmptyItemId)
    ensures item.id != "" && item.name == "" ==> r == Err(EmptyItemName)
  {
    if item.id == "" then Err(EmptyItemId)
    else if item.name == "" then Err(EmptyItemName)
    else Ok(item)
  }

  /** `is_folder`: the folder type exactly. */
  predicate IsFolder(item: DriveItem) {
    item.mimeType == FolderMime
  }

  /** `is_google_doc`: the type holds `google-apps` at some offset. */
  predicate IsGoogleDoc(item: DriveItem): (r: bool)
    ensures r <==> exists i: nat :: OccursAt(item.mimeType, "google-apps", i)
  {
    ContainsIff(item.mimeType, "google-apps");
    Contains(item.mimeType, "google-apps")
  }

  /** Every folder is also a Google-native document. */
  lemma FolderIsGoogleDoc(item: DriveItem)
    ensures IsFolder(item) ==> IsGoogleDoc(item)
  {
    if IsFolder(item) {
      assert FolderMime[16..16 + |"google-apps"|] == "google-apps";
      ContainsAt(FolderMime, "google-apps", 16);
    }
  }

  /** `calculated_size or size or 0`: the first of the two that is present
      and non-zero, else 0. */
  function DisplaySize(item: DriveItem): (r: int)
    ensures r != 0 ==> (item.calculatedSize == Some(r) || item.size == Some(r))
    ensures r == 0 <==> (item.calculatedSize in {None, Some(0)} && item.size in {None, Some(0)})
    ensures item.calculatedSize.Some? && item.calculatedSize.value != 0 ==> r == item.calculatedSize.value
  {
    if item.calculatedSize.Some? && item.calculatedSize.value != 0 then item.calculatedSize.value
    else if item.size.Some? && item.size.value != 0 then item.size.value
    else 0
  }

  /** A calculated size of 0 does not hide the item's own size. */
  lemma ZeroCalculatedSizeFallsBack(item: DriveItem)
    requires item.calculatedSize == Some(0) && item.size.Some?
    ensures DisplaySize(item) == item.size.value
  {
  }

  /** A resolved path: the folder's id and name and the path text. */
  datatype PathInfo = PathInfo(id: string, name: string, path: string)

  /** The check `PathInfo` makes: id and name must be non-empty, the path
      may be any text, the empty one included. */
  function MakePathInfo(id: string, name: string, path: string): (r: Result<PathInfo, Error>)
    ensures r.Ok? <==> id != "" && name != ""
    ensures r.Ok? ==> r.value == PathInfo(id, name, path)
    ensures id == "" ==> r == Err(EmptyPathId)
    ensures id != "" && name == "" ==> r == Err(EmptyPathName)
  {
    if id == "" then Err(EmptyPathId)
    else if name == "" then Err(EmptyPathName)
    else Ok(PathInfo(id, name, path))
  }

  function RootInfo(): PathInfo {
    PathInfo(RootId, RootName, "/")
  }
}
