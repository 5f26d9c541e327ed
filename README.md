# czkawka web backend: scan manager and file operations in Dafny

This project models the backend of a web front end for the `czkawka_cli` duplicate finder, and proves properties of that model. It covers three parts.

- **The scanner** (`backend/scanner.py`):
  - the command line built for a scan, and its text-mode variant without `--json`;
  - the parser for the CLI's plain-text output;
  - the progress extractor that reads stderr lines;
  - the two result summarisers, which count findings and sum sizes;
  - the registry of scans (`ScanManager`): starting, looking up, listing and cancelling scans, and the step that settles a finished process's record.
- **The file operations** (`backend/file_ops.py`):
  - the storage-root check;
  - permanent deletion and moving to trash, each recording one success or failure per path;
  - listing the trash;
  - restoring from the trash under a collision-free name.
- **The shared records** (`backend/models.py`): enums, requests, scan records, trash records and the configuration, with their defaults and `min_length` checks.

Imperative code stays imperative. Each method is proved against a specification function, and the properties are proved as lemmas about that function:

- the loops of `parse_text_output`, `_build_command`, `_count_findings`, `_calc_total_size`, `_read_progress`, `delete_files`, `get_trash` and the restore counter;
- the mutations of the `_scans` dict and of the filesystem.

The scan registry is the class `Scanner.ScanManager`. Its fields are the map of records and their insertion order. The filesystem is the class `FileOps.FileSystem`, whose field maps each resolved path to a file (size and text) or a directory.

Outside effects are parameters:

- **Process result.** The subprocess's exit code and stdout, or the exception its launch raised, are a `Scanner.Launch` value. The stderr lines and their elapsed times are sequences.
- **Randomness and clocks.** The UUID-derived id, `datetime.now`, `time.time() * 1000` and its ISO time, and the rounded `time.monotonic` differences are values passed in.
- **Path resolution.** `Path.resolve()` is a function `string -> string`.
- **JSON.** `json.loads` and `json.dumps` are functions as well.
- **`datetime.fromisoformat`.** This is a table from the strings it accepts to instants.

## Module layout

| module | models |
|---|---|
| `Wrappers` | `Option` and `Result`, and the list of present values of a list of options |
| `Text` | the `str` methods the source uses: `strip`, `splitlines`, `startswith`, `in`, `lower`, `str(int)`, `int(str)` and Python's string order |
| `Json` | the result documents: null, int, string, list and object; dict lookup, truthiness and `len` |
| `Models` | `backend/models.py` |
| `TextOutput` | `parse_text_output` |
| `Command` | `_build_command` and the text-mode command |
| `Progress` | the per-line progress update in `_read_progress` |
| `Findings` | `_count_findings` and `_calc_total_size` |
| `Sorting` | the descending sort behind `list_scans` |
| `Scanner` | `ScanManager` and the outcome logic of `_run_scan` and `_run_scan_text_mode` |
| `Paths` | `Path.name`, `.parent`, `.stem`, `.suffix` and `/`, and `_validate_path` |
| `FileOps` | `delete_files`, `trash_files`, `get_trash` and `restore_from_trash` |

## Model

| member | source | states |
|---|---|---|
| Models.ParseScanType | backend/models.py:16-27 | a string that parses names the member whose value it is |
| Models.ScanTypeValueRoundTrip | backend/models.py:16-27 | each scan type's value parses back to that scan type |
| Models.ScanTypeValuesDistinct | backend/models.py:16-27 | two scan types with the same value are the same type |
| Models.ScanTypeValues | backend/models.py:16-27 | there are exactly ten types; in declaration order their values are dup, image, video, music, empty-folders, empty-files, temp, symlinks, ext, broken; all are distinct |
| Models.ParseScanStatus | backend/models.py:30-35 | a string that parses names the status whose value it is |
| Models.ScanStatusValues | backend/models.py:30-35 | there are five statuses; each value is one of pending, running, completed, failed, cancelled and parses back to its status |
| Models.NewScanRequest | backend/models.py:52-56 | a request is accepted exactly when `directories` is non-empty; the rejection carries the `min_length` message |
| Models.DefaultScanRequest | backend/models.py:52-56 | a request without them gets no excluded directories and all options unset |
| Models.NewScanResult | backend/models.py:59-81 | a fresh record has findings_count 0, total_size 0, no results, no error, no start or completion time, and progress of type "progress" with 0 files |
| Models.NewPathsRequest | backend/models.py:88-93 | a delete or trash request is accepted exactly when `paths` is non-empty, and keeps its paths |
| Models.DefaultConfigValues | backend/models.py:130-140 | the default directories are ["/storage"], there are six excluded patterns including node_modules, and the trash dir is "/config/trash" |
| Json.Get | backend/scanner.py:349-350 | a dict lookup succeeds exactly when the key is present, and returns a value stored under that key |
| Json.Len | backend/scanner.py:350 | `len` succeeds exactly on lists, strings and dicts; a list's length is its number of items |
| Text.Strip | backend/scanner.py:31-34 | the result has no surrounding whitespace, is no longer than the input, and is empty exactly when the input is all whitespace |
| Text.SplitLines | backend/scanner.py:34 | no line holds a line boundary; the list is empty exactly when the text is |
| Text.ParseInt | backend/scanner.py:79 | `int()` accepts every all-digit string with its decimal value, and accepts nothing without a digit |
| Text.ParseIntUnsigned | backend/scanner.py:79 | a string that starts with a digit is accepted exactly when it is a decimal body: digits with single underscores between them |
| Text.IntToStringParses | backend/scanner.py:193 | `int(str(n)) == n` for every integer |
| Text.NatToStringInjective | backend/scanner.py:193 | different naturals print differently |
| Text.LexLessTotal | backend/file_ops.py:92 | Python's string order ranks any two different strings |
| Text.LexLessTransitive | backend/file_ops.py:92 | the order is transitive |
| Text.LexLessIrreflexive | backend/file_ops.py:92 | no string is below itself |
| Text.LowerJoin | backend/scanner.py:277-278 | lower-casing a newline-joined text lower-cases each line |
| Text.ContainsJoin | backend/scanner.py:277-278 | a needle without newlines occurs in the joined text exactly when it occurs in one line |
| TextOutput.ParseTextOutput | backend/scanner.py:20-92 | the parser's loops compute `ParseText` |
| TextOutput.ParseSimple | backend/scanner.py:46-53 | the simple-type loop yields the path items of the stripped lines |
| TextOutput.ParseGroups | backend/scanner.py:57-92 | the group loop yields the wrapped groups of the stripped lines |
| TextOutput.ParseFileInfo | backend/scanner.py:71-86 | one group line becomes its entry |
| TextOutput.BlankTextParsesEmpty | backend/scanner.py:31-32 | blank or whitespace-only text parses to [] for every type |
| TextOutput.SimpleItemsAreKept | backend/scanner.py:46-53 | simple types give one {"path": line} per kept line, in input order |
| TextOutput.KeptMembers | backend/scanner.py:50 | a line is kept exactly when it occurs and is not blank or a "----", "Found" or "Searching" line |
| TextOutput.GroupsNonEmpty | backend/scanner.py:64-67 | no emitted group is empty |
| TextOutput.GroupsFlatten | backend/scanner.py:57-92 | the groups' files, concatenated, are the entries of the kept lines in input order |
| TextOutput.SkippedLineSplits | backend/scanner.py:64-68 | a skipped line closes the current group: the groups of the lines around it are concatenated |
| TextOutput.KeptRunIsOneGroup | backend/scanner.py:86-90 | a run of kept lines forms a single group |
| TextOutput.FoldInvariant | backend/scanner.py:60-86 | the loop keeps its closed groups non-empty, and the closed groups plus the current one flatten to the entries so far |
| TextOutput.MatchSizePath | backend/scanner.py:73 | a match splits the line into a size token, a dash between whitespace, and a non-empty path that reaches the end of the line |
| TextOutput.SizeEnd | backend/scanner.py:73 | the size group ends at a size token, and is empty exactly when the line does not start with a digit |
| TextOutput.PlainSizeLineMatches | backend/scanner.py:73-76 | "digits ws - ws path" matches with those digits as the size and that path |
| TextOutput.SizeTokenParses | backend/scanner.py:75-81 | a size token is already stripped, and `int()` accepts it exactly when it is all digits, with their value |
| TextOutput.EntryShape | backend/scanner.py:71-86 | a matching line gets `size` when its token is all digits and `size_str` otherwise, plus the stripped path; any other line becomes {"path": line} |
| TextOutput.ParseCount | backend/scanner.py:20-92 | counting parsed text always succeeds, with one finding per kept line |
| TextOutput.ParseSize | backend/scanner.py:20-92 | simple types sum to 0; group types sum the integer sizes of the kept lines' entries |
| Command.BuildCommand | backend/scanner.py:172-215 | the builder's appends produce `CommandLine` |
| Command.TypeSpecificArgs | backend/scanner.py:187-209 | the type-specific branch produces `TypeArgs` |
| Command.CommandHead | backend/scanner.py:172-185 | the binary is at index 0; the scan type's value is at index 1; "--json" follows the directory pairs |
| Command.JsonOnce | backend/scanner.py:185 | "--json" occurs exactly once |
| Command.JsonDirectoryCounterexample | backend/scanner.py:177-185 | a directory list of ["--json"] makes "--json" occur twice |
| Command.FlagCount | backend/scanner.py:176-213 | every other flag occurs once when its option applies to the scan's type and is set, and not at all otherwise; so "--min-size" occurs once exactly when min_size is not None, whatever the type |
| Command.FlagPlacement | backend/scanner.py:176-213 | a flag that does not apply is absent; one that applies is followed, wherever it occurs, by its value |
| Command.FlagValueAt | backend/scanner.py:176-213 | every flag that applies occurs somewhere directly followed by its value |
| Command.RemoveProperties | backend/scanner.py:299 | the filtered list has no occurrence left, and filtering an absent string changes nothing |
| Command.TextModeCommand | backend/scanner.py:299 | the text-mode command is the command with every "--json" filtered out |
| Command.Filter | backend/scanner.py:299 | the comprehension keeps every element except the dropped one, in order (`Remove`) |
| Command.TextCommandShape | backend/scanner.py:299 | the text-mode command has no "--json", and is the command with its one "--json" cut out |
| Progress.MatchSplitIsUnique | backend/scanner.py:246 | whatever split of digits and whitespace matches, it is the maximal digit run followed by all the whitespace |
| Progress.Search | backend/scanner.py:246 | `re.search` reports a position where the pattern matches, and no earlier position matches |
| Progress.FilesInLineIsFirstRun | backend/scanner.py:246-248 | a line without a match gives nothing; otherwise the count is the value of the leftmost match's whole digit run, with no match anywhere before it |
| Progress.ApplyLine | backend/scanner.py:239-248 | a blank line changes nothing; no line changes the record's type or current file |
| Progress.ApplyNonBlankLine | backend/scanner.py:239-248 | a non-blank line sets the stage to its stripped text and the elapsed time; the file count is the match's count, or unchanged without a match |
| Progress.ApplyLineStripped | backend/scanner.py:239 | applying an already-stripped line does the same as applying the raw line |
| Progress.FilesExample | backend/scanner.py:246-248 | "12 files" sets the count to 12 |
| Findings.CountFindings | backend/scanner.py:340-360 | the loop computes `FindingsCount`: 0 for falsy results, and otherwise a non-negative count or the `len` error |
| Findings.FindingsCount | backend/scanner.py:340-360 | falsy results count 0; a successful count is never negative |
| Findings.FlatListCount | backend/scanner.py:345-353 | a list without any "files" dict counts one per item |
| Findings.GroupListCount | backend/scanner.py:345-353 | a list of {"files": list} groups counts the total number of files |
| Findings.CountItemsAppend | backend/scanner.py:348-352 | counting a concatenation adds the counts, and the first part's error wins |
| Findings.CalcTotalSize | backend/scanner.py:362-392 | the loops compute `TotalSize` |
| Findings.SumListSizes | backend/scanner.py:368-381 | the loop over a list of results computes `SumItemSizes`, stopping at the first item whose files are not iterable |
| Findings.ItemSize | backend/scanner.py:370-381 | one item adds its files' sizes, its own size, or raises for an int or None under "files" |
| Findings.SumDictListSizes | backend/scanner.py:382-391 | the loop over a dict's values computes `SumDictSizes` |
| Findings.SumSizes | backend/scanner.py:372-377 | the inner loop sums each entry's convertible size |
| Findings.TotalSize | backend/scanner.py:362-366 | falsy results sum to 0 |
| Findings.CountOkThenSizeOk | backend/scanner.py:340-392 | when counting succeeds, so does summing, because both reject the same `files` values |
| Findings.SumEntrySizesAppend | backend/scanner.py:372-377 | sizes of a concatenation add up |
| Sorting.Sort | backend/scanner.py:142 | sorting keeps the same multiset of records |
| Sorting.SortDescending | backend/scanner.py:142 | for a total transitive order, the sorted list is descending |
| Scanner.ExitMessageNamesCode | backend/scanner.py:283 | the failure message starts "czkawka_cli exited with code " and the rest parses back to the code |
| Scanner.ExitMessageInjective | backend/scanner.py:283 | different exit codes give different messages |
| Scanner.WantsTextModePerLine | backend/scanner.py:277-278 | the retry test holds exactly when some stderr line contains "--json", or "unknown" in lower case |
| Scanner.Settle | backend/scanner.py:271-274 | settling changes only results, the count, the size, the status and the error |
| Scanner.Stamp | backend/scanner.py:291-293 | the `finally` block sets the completion time and the elapsed time, and nothing else |
| Scanner.Complete | backend/scanner.py:271-274 | storing, counting and sizing compute the exit-0 settlement |
| Scanner.JsonRunResult | backend/scanner.py:257-290 | `_run_scan`'s try block asks for a retry exactly when the outcome is a text-mode retry; otherwise it settles the record by that outcome |
| Scanner.TextRunResult | backend/scanner.py:309-326 | `_run_scan_text_mode`'s try block settles the record by the text-mode outcome |
| Scanner.CancelledStaysCancelled | backend/scanner.py:257-258 | a scan cancelled while its process ran is left untouched in both modes |
| Scanner.ExitZeroCompletes | backend/scanner.py:260-274 | exit 0 stores the results; a countable result completes with its count and size; a `len` error fails the scan with that error |
| Scanner.EmptyOutputCompletes | backend/scanner.py:262-274 | empty stdout with exit 0 completes with no results, 0 findings and size 0 |
| Scanner.InvalidJsonFallsBack | backend/scanner.py:264-274 | stdout that is not JSON is parsed as text, and the scan completes with one finding per kept line |
| Scanner.TextModeCompletes | backend/scanner.py:314-320 | a text-mode exit 0 completes with the text parse and one finding per kept line |
| Scanner.NonZeroExit | backend/scanner.py:275-283 | a non-zero exit retries exactly when stderr asks for it; otherwise the scan fails with the exit message |
| Scanner.TextModeNeverRetries | backend/scanner.py:309-323 | the text-mode run never retries; a non-zero exit fails it with the exit message |
| Scanner.LaunchErrorFails | backend/scanner.py:285-290 | a launch that raises fails the scan: the fixed not-found message in JSON mode, the exception text otherwise |
| Scanner.Collected | backend/scanner.py:239-241 | the collected stderr lines are non-blank and no more than the raw lines |
| Scanner.StageIsLastLine | backend/scanner.py:238-243 | after reading stderr, the stage is the last non-blank line, or unchanged without one |
| Scanner.NewerIsTotalOrder | backend/scanner.py:142 | ordering by creation time is total and transitive |
| Scanner.Records | backend/scanner.py:142 | the records of the keys, in key order |
| Scanner.ScanManager.constructor | backend/scanner.py:98-99 | a new manager holds no scans |
| Scanner.ScanManager.StartScan | backend/scanner.py:112-136 | refused with the running message, changing nothing, while any scan runs; otherwise stores one new pending record under the id and returns it |
| Scanner.ScanManager.GetScan | backend/scanner.py:138-139 | a record is returned exactly when its id is stored, and it is the stored record |
| Scanner.ScanManager.ListScans | backend/scanner.py:141-142 | the stored records, newest first, as a permutation of the records in insertion order |
| Scanner.ScanManager.ListScansHoldsEveryRecord | backend/scanner.py:141-142 | every stored record is listed, exactly as many as are stored, and nothing else is |
| Scanner.ScanManager.OrderHoldsKeys | backend/scanner.py:99 | the insertion order lists each stored id once |
| Scanner.ScanManager.CancelScan | backend/scanner.py:144-158 | an unknown id gives None and changes nothing; a known one is marked cancelled with a completion time from any status, and nothing else changes |
| Scanner.ScanManager.BeginRun | backend/scanner.py:219-220 | the record becomes running with its start time, from any status |
| Scanner.ScanManager.ReadStderr | backend/scanner.py:236-248 | the lines are the collected stderr lines, and the record's progress is every line applied in order |
| Scanner.ScanManager.FinishJsonRun | backend/scanner.py:257-295 | the record is settled and stamped, or left for the text-mode rerun when a retry is asked for |
| Scanner.ScanManager.FinishTextRun | backend/scanner.py:297-331 | the record is settled by the text-mode outcome and stamped |
| Scanner.ScanManager.Finalize | backend/scanner.py:291-293 | the outer `finally` stamps the record again after a rerun |
| Paths.Name | backend/file_ops.py:64 | a name holds no `/` |
| Paths.StemSuffix | backend/file_ops.py:137-138 | a name is its stem followed by its suffix |
| Paths.ValidatePath | backend/file_ops.py:22-27 | a path passes exactly when its resolved string starts with the root string, and yields that resolved string; otherwise the error contains "outside storage root" |
| Paths.UnderRootPasses | backend/file_ops.py:22-27 | every path beneath the root passes |
| Paths.SiblingPasses | backend/file_ops.py:25 | the test is a string prefix: "/storage-other/file.txt" passes for root "/storage" without being beneath it |
| FileOps.RemoveTree | backend/file_ops.py:40 | `rmtree` removes the directory and everything beneath it, and nothing else |
| FileOps.RemoveRootTree | backend/file_ops.py:18-40 | with a storage root of "/", `rmtree("/")` leaves no absolute path behind |
| FileOps.MoveTreeEffect | backend/file_ops.py:66 | after a move the destination holds the source's node, the source is gone unless it lies beneath the destination, and paths outside both trees are unchanged |
| FileOps.Ledger | backend/file_ops.py:32-46 | every path is recorded once, as a success or a failure |
| FileOps.LedgerPartition | backend/file_ops.py:32-46 | the successes and the failed paths together are exactly the input paths, as a multiset |
| FileOps.LedgerEntries | backend/file_ops.py:32-46 | each path is in the list its outcome names; a failure carries its own error |
| FileOps.LedgerAppend | backend/file_ops.py:33-45 | processing a path never affects how earlier paths were recorded |
| FileOps.DeleteOneEffect | backend/file_ops.py:34-45 | a refused or missing path changes nothing and fails with its message; an existing file or directory is removed, with everything beneath a directory, and nothing outside it changes |
| FileOps.DeleteRunEffect | backend/file_ops.py:30-46 | the filesystem only loses paths; every successful path is gone; every failure is "Not found" or the outside-root message |
| FileOps.FileSystem.DeleteFiles | backend/file_ops.py:30-46 | the loop leaves the filesystem and the result of `DeleteRun` and its ledger |
| FileOps.TrashOneEffect | backend/file_ops.py:57-79 | a trashed path that none of the failures of `TrashOneFailure` stops succeeds; its node sits at trash_dir/"{ts}_{name}"; the metadata beside it holds trash id, original path, time, name, and a size that is 0 for directories; the source is gone; nothing else changes |
| FileOps.TrashOneFailure | backend/file_ops.py:57-81 | a path fails exactly when it is refused, missing, a directory whose trash destination lies beneath it (the `shutil.Error` text), a directory whose destination holds a file (`FileExistsError`), or when a directory stands at its metadata path (`IsADirectoryError`), each with its message; nothing changes in the first four cases, and in the last the move has already happened |
| FileOps.MetaSurvivesMove | backend/file_ops.py:66-77 | after the move a directory stands at the metadata path exactly when one stood there before, outside the moved tree |
| FileOps.MoveTreeLeaves | backend/file_ops.py:66 | a path inside the moved tree and outside the destination is gone after the move |
| FileOps.MetaOutsideItem | backend/file_ops.py:65-76 | the metadata file never lies inside the trashed item |
| FileOps.TrashAncestorFails | backend/file_ops.py:63-81 | trashing a directory that holds the trash directory is recorded as a failure and moves nothing |
| FileOps.TrashIdInjective | backend/file_ops.py:63-64 | two trash ids are equal exactly when their milliseconds and names are |
| FileOps.MetaBesideItem | backend/file_ops.py:64-76 | for an id `trash_files` makes, the metadata file is the trashed item's path plus ".meta.json" |
| FileOps.TrashIdPlain | backend/file_ops.py:64-76 | an id `trash_files` makes is neither empty, nor ".", nor absolute, so both joins put it directly inside the trash dir |
| FileOps.FileSystem.TrashFiles | backend/file_ops.py:49-82 | a file at the trash dir fails `mkdir` and changes nothing; otherwise the trash dir exists, every path is trashed in turn and the ledger records each |
| FileOps.FileSystem.TrashPath | backend/file_ops.py:56-81 | one iteration computes `TrashOne` |
| FileOps.LargestExists | backend/file_ops.py:92 | a non-empty set of names has a largest member |
| FileOps.LargestUnique | backend/file_ops.py:92 | the largest member is unique |
| FileOps.SortedDownSpec | backend/file_ops.py:92 | the names sorted in reverse: the same names, each once, in strictly descending order |
| FileOps.SortDown | backend/file_ops.py:92 | the selection loop produces the reverse-sorted names |
| FileOps.ReadEntries | backend/file_ops.py:92-106 | the loop keeps the parsed entries of the sorted names in order and skips those that raise |
| FileOps.ParsedMembers | backend/file_ops.py:92-106 | an item is listed exactly when some metadata file parses to it |
| FileOps.Parsed | backend/file_ops.py:92-106 | no more items than metadata files |
| FileOps.FileSystem.GetTrash | backend/file_ops.py:85-108 | [] without a trash dir; otherwise the readable entries in descending order of metadata file name |
| FileOps.ReadableIsListed | backend/file_ops.py:92-104 | every metadata file in the trash dir that parses is listed |
| FileOps.MetaDocReads | backend/file_ops.py:69-104 | the metadata `trash_files` writes reads back as the record with those fields |
| FileOps.TrashThenListed | backend/file_ops.py:49-108 | a trashed item appears in the trash listing with its id, original path, time, name and size |
| FileOps.RestorePlan | backend/file_ops.py:116-132 | a restore that gets past the checks moves to the parent of the recorded original path, and that parent is not a file |
| FileOps.RestorePlanStops | backend/file_ops.py:116-129 | with the item and its metadata at `trash_dir / trash_id` and `trash_dir / f"{trash_id}.meta.json"` under pathlib's joining: missing trashed file, then missing metadata, then a metadata directory, then bad JSON, then a missing key: each stops with its message, in that order |
| FileOps.OddTrashIds | backend/file_ops.py:116-117 | an empty or "." id names the trash dir itself; an absolute id names itself, with its metadata beside it |
| FileOps.RestoreEmptyIdStops | backend/file_ops.py:116-124 | an empty id finds the trash dir as the item and stops at the missing metadata, "Trash metadata not found" |
| FileOps.RestoreAbsoluteIdGo | backend/file_ops.py:116-132 | an absolute id with readable metadata beside it goes ahead, wherever it points |
| FileOps.RestorePlanGo | backend/file_ops.py:127-132 | readable metadata with a string original path goes ahead to that path's parent |
| FileOps.MakeDir | backend/file_ops.py:132 | the directory exists afterwards; nothing else changes; an existing directory is left alone |
| FileOps.CandidateInjective | backend/file_ops.py:141 | different counters give different candidate names |
| FileOps.ChosenDestUnique | backend/file_ops.py:134-142 | the destination rule picks one path, and it did not exist beforehand |
| FileOps.CandidatesTaken | backend/file_ops.py:140-142 | no more candidates can be taken than the filesystem has paths, which bounds the loop |
| FileOps.FreeDestination | backend/file_ops.py:134-142 | the loop ends at the original path if free, otherwise at `{stem}_restored_{k}{suffix}` for the least free k >= 1 |
| FileOps.MovedBack | backend/file_ops.py:144-145 | after the move and the unlink, the destination holds the trashed node |
| FileOps.FileSystem.RestoreFromTrash | backend/file_ops.py:111-151 | a stop records one failure under the trash id and changes nothing; otherwise the parent is made and, for the chosen destination, either a trashed directory lying above it fails with the `shutil.Error` text, or the tree moves there and then either the metadata is gone (moved along with it) and the unlink's `FileNotFoundError` is the failure, or a directory stands there and its `IsADirectoryError` is, or the metadata is removed and success is [dest] |
| FileOps.RestoreMoveSucceeds | backend/file_ops.py:144-146 | with the metadata outside the moved tree and its destination, the restore moves the item, removes the metadata and reports [dest] |
| FileOps.RestoreMetaInsideItemFails | backend/file_ops.py:144-149 | metadata inside the trashed item moves along with it, so the unlink fails with "No such file or directory", the tree stays moved and nothing is reported restored |
| FileOps.RestoreEmptyIdLosesMeta | backend/file_ops.py:116-149 | restoring the id "" moves the whole trash dir and reports the missing `.meta.json` as the failure |
| FileOps.RestoreBeneathItemFails | backend/file_ops.py:144-149 | a trashed directory whose recorded original lies beneath it is not moved, and nothing is reported restored |
| FileOps.TrashThenRestored | backend/file_ops.py:49-151 | restoring a trashed item whose place is still free succeeds with [original] and puts the same node back at its original path |

## Left out

- **Subprocess and concurrency.** `asyncio.create_subprocess_exec`, `communicate`, the background task, the `_processes` dict and terminate/kill with its 5 s timeout are not modelled. Their results are parameters. Steps that run concurrently are separate methods, so an interleaving at an `await` is a sequence of calls.
- **JSON codec.** `json.loads` and `json.dumps` are oracles. They are functions from text to a document or an error, in both directions.
- **Persistence.** `_persist`, `_load_history` and the `SCANS_DIR` setup are disk I/O. Their errors are not modelled either.
- **Outside the core.** Progress callbacks, `_notify_progress`, the WebSocket loop, HTTP routing, `storage.py` and `config.py` sit outside this core.
- **`generate_thumbnail`.** It depends on PIL decoding and an MD5 cache key.
- **Floats and booleans in results.** `Json.Value` has none of them, so `int()` of a float size and `True` as a size are not modelled.
- **Pydantic coercion.** A metadata field of an unexpected JSON type makes the trash entry invalid, and `get_trash` then skips it. Pydantic's lax mode would coerce some of these: a numeric-string size such as `"12"` becomes 12, and the source lists that entry, where `SizeOr` skips it.
- **Path normalisation.** Paths are already-resolved strings with `/` separators. `Path.resolve()` is a parameter, and the original path read back from metadata is taken as it is stored.
- **Filesystem simplifications.**
  - Directories carry a size instead of contents. A directory's contents are the paths beneath it.
  - The map does not insist that a path's parent exists.
  - `shutil.move` onto an existing directory (moving inside it; a directory or file trashed onto a directory standing at its destination) and `mkdir(parents=True)` through a file ancestor (`NotADirectoryError`) are not modelled. Nor is a move onto "/" itself, whose moved paths the model writes with a doubled slash.
  - Of the OS errors, only "File exists", "Is a directory", "No such file or directory" and "Not found" carry their texts. `RestorePlan` covers `TypeError`s as Python 3.12 words them.
- **Clock values.** The trash timestamp, its ISO text and the elapsed seconds (already rounded to 0.1) are given per call. `datetime.fromisoformat` is a table.
- **Aliasing and sort stability.** `ScanManager` stores records by value, so a caller holding the returned record does not see later changes. `list_scans` is specified as a descending permutation; the ties that Python's stable sort orders by insertion are not pinned down.
- **Unicode digits.** `\d` and `int()` are taken to know only the ASCII digits, while Python also accepts every other Unicode decimal digit (so "١٢ - /x" matches and `int("١٢")` is 12). The members below therefore accept fewer strings than the source does.
- Text.ParseInt: rejects a string holding a non-ASCII decimal digit, which `int()` at scanner.py:79 converts; `Findings.SizeOf`, and with it the size sums, inherit this.
- TextOutput.MatchSizePath: a size written in non-ASCII decimal digits does not match, where the `\d` of scanner.py:73 does; such a line becomes a plain `{"path": line}` entry.
- TextOutput.SizeEnd: the size group ends at the first character that is not an ASCII digit, so it is empty for a line that starts with another decimal digit.
- Progress.FilesInLineIsFirstRun: the digit run of `(\d+)\s*files?` is ASCII only, as for `MatchSplitIsUnique`.
- Command.JsonOnce: holds only when no option value, directory list or binary path itself starts with "--". `Command.JsonDirectoryCounterexample` shows a directory named "--json" giving two.
- Command.FlagCount: under the same hypothesis as JsonOnce, since a value equal to a flag would be counted as that flag.
- Command.FlagPlacement: under the same hypothesis as JsonOnce.
- Command.TextCommandShape: the cut-out form assumes the same hypothesis. Removing every "--json" holds unconditionally.
- Scanner.ScanManager.StartScan: the id comes from outside and is not assumed fresh. A colliding id replaces the stored record, as the dict assignment would.
- FileOps.RestorePlan: joins the trash id with pathlib's rules for an empty, "." or absolute id only. A ".." component, a "." inside the id, and repeated or trailing slashes are kept as written, where pathlib drops "." components and collapses repeated and trailing slashes, and the OS resolves "..". `ItemOf` and `FileSystem.RestoreFromTrash` use the same join.
- FileOps.TrashOneEffect: states the successful case only. It requires `TrashClear`: the item is not a directory holding its own destination, not a directory moved onto a file at its destination, and no directory stands at its metadata path. Those are the failures `TrashOneFailure` states. "The source is gone" also needs the source to lie outside its own trash destination and metadata path.
- FileOps.TrashThenListed: assumes that `json.loads` reads back what `json.dumps` wrote, that `datetime.fromisoformat` accepts the ISO time written, that the trash dir is non-empty and still present, and that `TrashClear` holds, so that the trash step succeeds.
- FileOps.TrashThenRestored: assumes the same round trip. It also requires that `TrashClear` holds, that the original path is not beneath its trash destination nor holds the metadata file, is not the root, and has a parent that is not a file. It states the node's return for a destination that the chosen-destination rule picks.
