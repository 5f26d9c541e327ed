/**
 * The records shared by the scanner and the file operations, with their
 * defaults and the `min_length` constraints the request models enforce.
 * Timestamps are abstract instants (`int`, larger is later); a float duration
 * is a `real`.
 */
module Models {
  import opened Wrappers
  import Json

  type Instant = int

  /** The `czkawka_cli` subcommands a scan can run. */
  datatype ScanType =
    | Duplicates | SimilarImages | SimilarVideos | SimilarMusic | EmptyDirs
    | EmptyFiles | Temporary | Symlinks | BadExtensions | Broken
  {
    /** The enum's string value, which is also the subcommand name. */
    function Value(): string {
      match this
      case Duplicates => "dup"
      case SimilarImages => "image"
      case SimilarVideos => "video"
      case SimilarMusic => "music"
      case EmptyDirs => "empty-folders"
      case EmptyFiles => "empty-files"
      case Temporary => "temp"
      case Symlinks => "symlinks"
      case BadExtensions => "ext"
      case Broken => "broken"
    }
  }

  const AllScanTypes: seq<ScanType> :=
    [Duplicates, SimilarImages, SimilarVideos, SimilarMusic, EmptyDirs,
     EmptyFiles, Temporary, Symlinks, BadExtensions, Broken]

  /** `ScanType(s)`: the member whose value is `s`, or a validation error. */
  function ParseScanType(s: string): (r: Option<ScanType>)
    ensures r.Some? ==> r.value.Value() == s
  {
    if s == "dup" then Some(Duplicates)
    else if s == "image" then Some(SimilarImages)
    else if s == "video" then Some(SimilarVideos)
    else if s == "music" then Some(SimilarMusic)
    else if s == "empty-folders" then Some(EmptyDirs)
    else if s == "empty-files" then Some(EmptyFiles)
    else if s == "temp" then Some(Temporary)
    else if s == "symlinks" then Some(Symlinks)
    else if s == "ext" then Some(BadExtensions)
    else if s == "broken" then Some(Broken)
    else None
  }

  /** Every value parses back to its member, so no two members share a value. */
  lemma ScanTypeValueRoundTrip(t: ScanType)
    ensures ParseScanType(t.Value()) == Some(t)
  {
  }

  lemma ScanTypeValuesDistinct(t: ScanType, u: ScanType)
    requires t.Value() == u.Value()
    ensures t == u
  {
    ScanTypeValueRoundTrip(t);
    ScanTypeValueRoundTrip(u);
  }

  /** The ten members, listed in declaration order, have exactly these distinct values. */
  lemma ScanTypeValues()
    ensures forall t: ScanType :: t in AllScanTypes
    ensures seq(|AllScanTypes|, i requires 0 <= i < |AllScanTypes| => AllScanTypes[i].Value())
         == ["dup", "image", "video", "music", "empty-folders", "empty-files", "temp", "symlinks", "ext", "broken"]
    ensures forall i, j :: 0 <= i < j < |AllScanTypes| ==> AllScanTypes[i].Value() != AllScanTypes[j].Value()
  {
    forall t: ScanType ensures t in AllScanTypes {
      match t
      case Duplicates => assert AllScanTypes[0] == t;
      case SimilarImages => assert AllScanTypes[1] == t;
      case SimilarVideos => assert AllScanTypes[2] == t;
      case SimilarMusic => assert AllScanTypes[3] == t;
      case EmptyDirs => assert AllScanTypes[4] == t;
      case EmptyFiles => assert AllScanTypes[5] == t;
      case Temporary => assert AllScanTypes[6] == t;
      case Symlinks => assert AllScanTypes[7] == t;
      case BadExtensions => assert AllScanTypes[8] == t;
      case Broken => assert AllScanTypes[9] == t;
    }
  }

  /** The types whose text output lists one item per line rather than groups. */
  predicate IsSimpleType(t: ScanType) {
    t in {EmptyDirs, EmptyFiles, Temporary, Symlinks, BadExtensions, Broken}
  }

  datatype ScanStatus = Pending | Running | Completed | Failed | Cancelled
  {
    function Value(): string {
      match this
      case Pending => "pending"
      case Running => "running"
      case Completed => "completed"
      case Failed => "failed"
      case Cancelled => "cancelled"
    }
  }

  /** `ScanStatus(s)`. */
  function ParseScanStatus(s: string): (r: Option<ScanStatus>)
    ensures r.Some? ==> r.value.Value() == s
  {
    if s == "pending" then Some(Pending)
    else if s == "running" then Some(Running)
    else if s == "completed" then Some(Completed)
    else if s == "failed" then Some(Failed)
    else if s == "cancelled" then Some(Cancelled)
    else None
  }

  /** Exactly five statuses, with five distinct values. */
  lemma ScanStatusValues(st: ScanStatus)
    ensures ParseScanStatus(st.Value()) == Some(st)
    ensures st.Value() in {"pending", "running", "completed", "failed", "cancelled"}
    ensures st in {Pending, Running, Completed, Failed, Cancelled}
  {
  }

  /** Type-specific options; every one is optional. */
  datatype ScanOptions = ScanOptions(
    searchMethod: Option<string>,
    minSize: Option<int>,
    similarityPreset: Option<string>,
    tolerance: Option<int>,
    musicSimilarity: Option<string>,
    checkedTypes: Option<seq<string>>)

  const DefaultOptions: ScanOptions := ScanOptions(None, None, None, None, None, None)

  datatype ScanRequest = ScanRequest(
    scanType: ScanType,
    directories: seq<string>,
    excludedDirectories: seq<string>,
    options: ScanOptions)

  /** The message pydantic gives for a list below its `min_length` of 1. */
  const TooShort := "List should have at least 1 item after validation, not 0"

  /** Validation of a scan request: `directories` needs at least one entry. */
  function NewScanRequest(scanType: ScanType, directories: seq<string>, excluded: seq<string>, options: ScanOptions): (r: Result<ScanRequest>)
    ensures r.Ok? <==> directories != []
    ensures r.Ok? ==> r.value == ScanRequest(scanType, directories, excluded, options)
    ensures r.Err? ==> r.error == TooShort
  {
    if |directories| < 1 then Err(TooShort) else Ok(ScanRequest(scanType, directories, excluded, options))
  }

  /** The request with `excluded_directories` and `options` left at their defaults. */
  function DefaultScanRequest(scanType: ScanType, directories: seq<string>): (r: Result<ScanRequest>)
    ensures r.Ok? <==> directories != []
    ensures r.Ok? ==> r.value.excludedDirectories == [] && r.value.options == DefaultOptions
  {
    NewScanRequest(scanType, directories, [], DefaultOptions)
  }

  datatype ScanProgress = ScanProgress(
    kind: string,
    currentStage: string,
    currentFile: string,
    filesProcessed: int,
    elapsedSeconds: real)

  const DefaultProgress: ScanProgress := ScanProgress("progress", "", "", 0, 0.0)

  datatype ScanResult = ScanResult(
    id: string,
    scanType: ScanType,
    status: ScanStatus,
    directories: seq<string>,
    excludedDirectories: seq<string>,
    options: ScanOptions,
    progress: ScanProgress,
    results: Json.Value,
    findingsCount: int,
    totalSize: int,
    createdAt: Instant,
    startedAt: Option<Instant>,
    completedAt: Option<Instant>,
    error: Option<string>)

  /** A record built from its required fields; everything else takes its default. */
  function NewScanResult(id: string, scanType: ScanType, status: ScanStatus, directories: seq<string>,
                         excluded: seq<string>, options: ScanOptions, createdAt: Instant): (r: ScanResult)
    ensures r.findingsCount == 0 && r.totalSize == 0
    ensures r.results == Json.Null && r.error.None? && r.startedAt.None? && r.completedAt.None?
    ensures r.progress.kind == "progress" && r.progress.filesProcessed == 0
    ensures r.id == id && r.scanType == scanType && r.status == status && r.createdAt == createdAt
  {
    ScanResult(id, scanType, status, directories, excluded, options, DefaultProgress,
               Json.Null, 0, 0, createdAt, None, None, None)
  }

  /** The body of `FileDeleteRequest` and `FileTrashRequest`. */
  datatype PathsRequest = PathsRequest(paths: seq<string>)

  /** Validation of a delete or trash request: `paths` needs at least one entry. */
  function NewPathsRequest(paths: seq<string>): (r: Result<PathsRequest>)
    ensures r.Ok? <==> paths != []
    ensures r.Ok? ==> r.value.paths == paths
  {
    if |paths| < 1 then Err(TooShort) else Ok(PathsRequest(paths))
  }

  /** One `{"path": ..., "error": ...}` entry of a failure list. */
  datatype Failure = Failure(path: string, error: string)

  datatype FileOperationResult = FileOperationResult(success: seq<string>, failed: seq<Failure>)

  const EmptyOperationResult: FileOperationResult := FileOperationResult([], [])

  datatype TrashItem = TrashItem(
    trashId: string,
    originalPath: string,
    trashedAt: Instant,
    filename: string,
    size: int)

  datatype TrashRestoreRequest = TrashRestoreRequest(trashId: string)

  datatype AppConfig = AppConfig(
    defaultDirectories: seq<string>,
    defaultExcludedDirectories: seq<string>,
    trashDir: string,
    thumbnailCacheDir: string,
    maxThumbnailSize: (int, int),
    theme: string)

  const DefaultConfig: AppConfig := AppConfig(
    ["/storage"],
    ["@eaDir", ".Trash-*", "#recycle", ".DS_Store", "Thumbs.db", "node_modules"],
    "/config/trash",
    "/config/thumbnails",
    (300, 300),
    "dark")

  /** The defaults the configuration tests pin down. */
  lemma DefaultConfigValues()
    ensures DefaultConfig.defaultDirectories == ["/storage"]
    ensures |DefaultConfig.defaultExcludedDirectories| == 6
    ensures "node_modules" in DefaultConfig.defaultExcludedDirectories
    ensures DefaultConfig.trashDir == "/config/trash"
  {
  }
}
