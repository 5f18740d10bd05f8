# StegVerse SCW core in Dafny

This project models the core of the StegVerse self-correcting workflow
(SCW) tooling and proves properties of the model. It covers six source
files.

- **svmeta** (`scw/svmeta.py`): every tracked file carries a metadata block.
  It sits between `=== STEGVERSE FILE METADATA ===` and
  `=== END STEGVERSE FILE METADATA ===` and holds `sv_*` key/value lines.
  The module parses the block into an `SvMeta` record. It orders two records
  by epoch, then by strict semantic version, then by build id. It also
  removes the block before content hashing.
- **risk** (`scw/risk.py`): the weighted risk score of a fix-queue item.
- **org health** (`scw/org_health.py`): this is the scanner.
  - It lists each organisation's repositories, up to ten pages.
  - For every repository not excluded, it checks every required file of the
    policy.
  - A file is checked through the repository's file index when a signed
    index is present and index-first scanning is on. Otherwise it is
    checked through the file's own metadata block.
  - A missing file or a stale file becomes a queue item. Items are routed by
    path glob to the structure queue or the logic queue.
  - The queues of all scanned repositories are flattened into one fix
    queue. Logic items are queued for triage only.
- **state engine** (`scripts/state_engine.py`): turns a first-aid summary
  (`fixed`, `added_dispatch`, `still_broken`) into `repair` events. The
  events are appended to an append-only event log.
- **state reader** (`scripts/state_reader.py`): reads the event log and keeps
  the SCW `workflow_first_aid` events. It takes each workflow's latest event
  by timestamp. The snapshot is four bucket counts, a total and one row per
  workflow in name order.
- **review stub** (`scripts/ci/ai_reviewer_stub.py`): flags commit subjects
  that are not conventional commits. It notes changed documentation and
  changed scripts.

Layout, one module per file:

| module | file | role |
|---|---|---|
| `Wrappers` | `wrappers.dfy` | `Option` and `Result`. |
| `Sequences` | `sequences.dfy` | List comprehensions and the "loop that may raise" (`ConcatResults`), with their lemmas. |
| `Maps` | `maps.dfy` | Dictionaries built from key/value pairs, last write wins. Also insertion-ordered dictionaries. |
| `Strings` | `strings.dfy` | The Python `str` operations the core uses. |
| `Svmeta`, `Risk`, `OrgHealth`, `StateEngine`, `StateReader`, `AiReviewer` | one file each | The six source files. |
| `EventRoundTrip` | `event_roundtrip.dfy` | Events the engine writes, as the reader reads them back. |

Where the code changes state step by step, the model is imperative. Each
such method is proved equal to a specification function, and the
properties are proved about that function. This applies to:

- the loops of `scan_repo`, `scan_org`, `list_org_repos`, `_load_events`,
  `_filter_scw_workflow_events`, `_build_latest_by_workflow` and
  `_render_markdown`;
- the event log the state engine appends to.

The event log is a class, `StateEngine.EventLog`. Its `events` field only
grows.

External inputs are parameters or plain data:

- The GitHub API is a `RepoSource` per repository and an `OrgSource` per
  organisation. An `OrgSource` is the listing pages the API returns.
- `fnmatch`, `json.loads` and the file checksum are function parameters.
- The clock and the run context are parameters.
- The git command outputs are parameters.

Where the repository's own documentation and the code disagree, the model
follows the code:

- `parse_semver("4.0")` is `(0, 0, 0)`. A version needs three integer
  components, and a shorter one falls into the `except` branch.
  `staleness` pads with zeros, so it reads the same string as `(4, 0, 0)`.
  `OrgHealth.FourDotZeroTwoWays` states both.
- `scan_org` does not isolate failures per repository. The first exception
  escapes and ends the whole scan. `OrgHealth.ScanOrgErrIff` states when
  that happens.
- A non-integer `sv_epoch` makes `SvMeta.from_text` raise; it does not
  degrade to the default record. The model uses the `Err` of
  `Svmeta.FromFields`.
- The fix queue is not deduplicated. It holds one item per queue entry of
  each scanned report, in scan order (`OrgHealth.FixQueueCount`). Within
  one report, each path appears at most once (`OrgHealth.ScanRepoOnePerPath`).

## Model

| member | source | states |
|---|---|---|
| Svmeta.ParseSemverExact | scw/svmeta.py:35-40 | A version of three digit-run components, optionally followed by more `.`-parts, parses to the three decimal values. |
| Svmeta.ParseSemverTwoComponents | scw/svmeta.py:35-40 | A version with only two components falls back to (0, 0, 0). |
| Svmeta.ParseSemverBadComponent | scw/svmeta.py:35-40 | A first, second or third component that is not an integer makes the version (0, 0, 0). |
| Svmeta.ParseSemverFourDotZero | scw/svmeta.py:35-40 | `"4.0"` parses to (0, 0, 0), not (4, 0, 0). |
| Svmeta.FindMarker | scw/svmeta.py:27-31 | The marker found is the first marker line with that title at or after the start line, and none comes earlier. |
| Svmeta.FindBlock | scw/svmeta.py:27-31 | A found block's begin line comes strictly before its end line, both inside the text. |
| Svmeta.FindBlockLeftmost | scw/svmeta.py:27-31 | The block found runs from the first begin marker line to the first end marker line after it. No block is found iff no begin marker line is followed by an end marker line. |
| Svmeta.ParseKeyValueOf | scw/svmeta.py:33 | A line `sv_key: value` reads back as the lower-cased key and the whitespace-stripped value. |
| Svmeta.LinePairOf | scw/svmeta.py:60 | A line contributes a pair exactly when it matches the key/value pattern. The value is then stripped of whitespace and then of double quotes. |
| Svmeta.BlockValueIsLast | scw/svmeta.py:60 | When a key appears on several lines of the block, the value of the last such line wins. |
| Svmeta.BlockKeyAbsent | scw/svmeta.py:60 | A key on no line of the block is absent from the block's dictionary. |
| Svmeta.EpochOf | scw/svmeta.py:67 | `int(value or 0)`: an absent or empty epoch is 0, an integer text is its value, and anything else has no value. |
| Svmeta.FromFields | scw/svmeta.py:61-71 | The record fails exactly when `sv_epoch` is present, non-empty and not an integer. Otherwise each of the nine fields is the block's value or the dataclass default: "0.0.0" for the version, `00000000-000000Z` for the build id, 0 for the epoch (also for an empty value) and "" for the other six. |
| Svmeta.FromTextWithoutBlock | scw/svmeta.py:55-58 | Text where no begin marker line is followed by an end marker line gives the default record: epoch 0, version "0.0.0". |
| Svmeta.FromTextVersionAbsent | scw/svmeta.py:59-65 | A block without an `sv_version` line gives version "0.0.0". |
| Svmeta.FromTextVersionLast | scw/svmeta.py:59-65 | The version is the cleaned value of the block's last `sv_version` line. |
| Svmeta.KeyLessTrichotomy | scw/svmeta.py:73-74 | The tuple order on ordering keys is a strict total order: exactly one of less, equal, greater. |
| Svmeta.KeyLessTransitive | scw/svmeta.py:73-74 | The tuple order on ordering keys is transitive. |
| Svmeta.Compare | scw/svmeta.py:76-81 | The result is -1, 0 or 1. It is 1 iff a's key is greater, -1 iff a's key is smaller, 0 iff the keys are equal. |
| Svmeta.CompareAntisymmetric | scw/svmeta.py:76-81 | Swapping the arguments negates the result. |
| Svmeta.CompareIgnoresOtherFields | scw/svmeta.py:73-81 | Records that agree on epoch, parsed version and build id compare equal, whatever their other fields. |
| Svmeta.CompareTotalPreorder | scw/svmeta.py:76-81 | "Newer or same" is reflexive, total and transitive, and "newer" is transitive. |
| Svmeta.CutRangesShorter | scw/svmeta.py:83-85 | Cutting blocks out never adds lines or characters. |
| Svmeta.StripMetadataNoBlock | scw/svmeta.py:83-85 | Text without a block is returned unchanged. |
| Svmeta.StripMetadataShorter | scw/svmeta.py:83-85 | The stripped text is never longer than the original. |
| Strings.ParseInt | scw/svmeta.py:38 | `int()` of a digit run is its decimal value, and any text that parses holds a digit. |
| Strings.LessTotal | scripts/state_reader.py:81 | Any two timestamps are equal or one is strictly smaller. |
| Strings.LessTransitive | scripts/state_reader.py:148 | The string order used for timestamps and for sorting names is transitive. |
| Maps.LastWinsAt | scw/svmeta.py:60 | In a dictionary built from pairs, a key's value is the value of its last pair. |
| Maps.InsertAll | scw/org_health.py:118 | A dictionary comprehension keeps keys in first-occurrence order and binds each key to its last value. |
| Risk.StaleItemScore | scw/org_health.py:175 | The score of `RiskInputs(freshness_risk=1.0)` under the default weights is 1.5. |
| Risk.ScoreZeroProximal | scw/risk.py:30-37 | A proximity multiplier of 0 gives score 0. |
| Risk.ScoreMonotone | scw/risk.py:30-37 | With non-negative weights and multiplier, raising any risk input never lowers the score. |
| Risk.ScoreNonNegative | scw/risk.py:30-37 | Non-negative inputs, weights and multiplier give a non-negative score. |
| Risk.ScoreUnclamped | scw/risk.py:22-28 | Inputs documented as 0..1 are not clamped: freshness 2 scores twice freshness 1. |
| Risk.DepVolatilityWeightOne | scw/risk.py:30-37 | Dependency volatility always has weight 1, whatever weights are passed. |
| OrgHealth.BuildRequiredMap | scw/org_health.py:117-118 | Keys are the required paths in first-occurrence order, each once. Each path is bound to the last entry with that path. |
| OrgHealth.RequiredMapLastSpec | scw/org_health.py:117-118 | An entry no later entry shadows is in the map with its own spec. |
| OrgHealth.ReadIndex | scw/org_health.py:100-106 | The index is used iff the file has text and parses to an object signed `fileindex:v1`; its file list is then returned. A truthy non-object raises. |
| OrgHealth.ScanIndex | scw/org_health.py:126 | With index-first scanning off, no index is read. |
| OrgHealth.BuildFileStates | scw/org_health.py:153-156 | The loop builds the last-wins map from path to index entry. |
| OrgHealth.FileStatesLast | scw/org_health.py:153-156 | A path's state is its last index entry. |
| OrgHealth.IndexMeta | scw/org_health.py:165-173 | The record from an index entry fails iff its `sv_epoch` is not convertible by `int()`. Otherwise it carries the path, the entry's kind, module and hash (default ""), version (default "0.0.0") and build id (default ""). Its epoch is the number given, the integer of the text given, or 0 when absent. Parent build and signature are "". |
| OrgHealth.StaleBelowEpoch | scw/org_health.py:108-109 | An epoch below the policy epoch is stale whatever the version. |
| OrgHealth.StalenessAtEpoch | scw/org_health.py:108-115 | At or above the policy epoch, a file is stale iff its padded version tuple is below the minimum. |
| OrgHealth.SemverTupleThree | scw/org_health.py:111-113 | The version tuple takes the first three `.`-parts; a non-digit part counts 0. |
| OrgHealth.SemverTupleTwo | scw/org_health.py:111-113 | A two-part version is padded with a 0 patch. |
| OrgHealth.SemverTupleOne | scw/org_health.py:111-113 | A one-part version is padded with 0 minor and 0 patch. |
| OrgHealth.FourDotZeroTwoWays | scw/org_health.py:111-114 | `"4.0"` is (4, 0, 0) for staleness but (0, 0, 0) for `parse_semver`. |
| OrgHealth.SemverTupleOf400 | scw/org_health.py:111-113 | `"4.0.0"` is (4, 0, 0). |
| OrgHealth.SemverTupleOf399 | scw/org_health.py:111-113 | `"3.9.9"` is (3, 9, 9). |
| OrgHealth.StalenessExamples | scw/org_health.py:108-115 | Against epoch 9 and minimum "4.0.0": epoch 8 is stale, version 3.9.9 is stale, versions 4.0.0 and 4.0 are not. |
| OrgHealth.EvalPath | scw/org_health.py:159-187 | A queued item carries the policy epoch and wanted version, its path's secrets and risk 1.5. It is `add` iff missing iff without metadata, never triage, and replaced only when stale. A path neither indexed nor fetched is always queued as a missing `add`. |
| OrgHealth.IndexHitIgnoresFiles | scw/org_health.py:163-176 | A path found in the index is judged without looking at the fetched files. |
| OrgHealth.IndexEntryQueuedIffStale | scw/org_health.py:163-176 | An index entry is queued as an index-stale `replace` exactly when its metadata is stale, else not at all. An epoch that is not an integer stops the scan with that entry's error. |
| OrgHealth.TreeFileQueuedIffStale | scw/org_health.py:177-187 | A fetched file is queued as a tree-stale `replace` exactly when its metadata is stale, else not at all. A block whose `sv_epoch` is not an integer stops the scan with that path's error. |
| OrgHealth.PathStepShape | scw/org_health.py:159-187 | One required path queues at most one item, for that path. |
| OrgHealth.ItemsFollowKeys | scw/org_health.py:159-187 | The queued items' paths follow the required map's order. |
| OrgHealth.QueueRequired | scw/org_health.py:138-187 | The loop fails with the first failing check. Otherwise its two queues are the checked items whose path matches a structure glob, and the rest, each in loop order. |
| OrgHealth.ScanRepo | scw/org_health.py:120-189 | The imperative scan equals the scan specification. |
| OrgHealth.ScanRepoItems | scw/org_health.py:120-189 | A successful scan has a two-part name and a known branch. Its queues split the required-file items by glob. |
| OrgHealth.ItemOrigin | scw/org_health.py:159-187 | Every queued item comes from the check of some required path. |
| OrgHealth.ScanRepoRouting | scw/org_health.py:149-150 | Structure items match a structure glob and logic items do not. Together they are all the items, with none lost or duplicated. |
| OrgHealth.ScanRepoOnePerPath | scw/org_health.py:159-187 | Each queue lists each required path at most once, in policy order. No path is in both queues. |
| OrgHealth.ScanRepoItemFields | scw/org_health.py:138-148 | Every queued item has the policy epoch, the wanted version, risk 1.5 and its path's secrets. It is `add` iff missing iff without metadata, and never triage. |
| OrgHealth.ScanRepoMissing | scw/org_health.py:179-183 | A required path neither indexed nor fetched is queued as a missing `add`. |
| OrgHealth.ScanRepoIndexPresent | scw/org_health.py:126-156 | `index_present` holds iff index-first is on and the index file has text, is an object and is signed. Otherwise no file state is used. |
| OrgHealth.ListOrgRepos | scw/org_health.py:64-72 | The paging loop equals the listing specification: pages from 1 until an empty page or page 10, and the first failing page raises. |
| OrgHealth.ListFromBounded | scw/org_health.py:64-72 | With at most `per` repositories per page, the listing holds at most `per` times the pages left. |
| OrgHealth.ListingAtMostThousand | scw/org_health.py:68-71 | With 100 per page, a listing holds at most 1000 repositories. |
| OrgHealth.ListFromMembers | scw/org_health.py:64-72 | Every listed repository is on some page read. |
| OrgHealth.ListFromStopsAtEmpty | scw/org_health.py:69 | Pages after the first empty one are never read. |
| OrgHealth.AppendFixItems | scw/org_health.py:211-234 | The two appending loops add the report's fix items: structure items as pending, then logic items as triage. |
| OrgHealth.RepoTurn | scw/org_health.py:204-207 | An excluded repository contributes nothing. Any other contributes its report or raises its scan's exception. |
| OrgHealth.AppendTurnItems | scw/org_health.py:208-234 | Appending a turn's items keeps the fix queue equal to the flattening of the reports so far. |
| OrgHealth.ScanRepos | scw/org_health.py:203-234 | The repository loop raises the first exception. Otherwise it gives the reports of the repositories not excluded, in listing order, with their fix items. |
| OrgHealth.ScanOrg | scw/org_health.py:191-236 | The imperative org scan equals the specification: signatures, policy epoch, reports in order and the flattened fix queue. |
| OrgHealth.RepoStepCases | scw/org_health.py:203-207 | A repository's turn is empty when excluded, its report when the scan succeeds, and fails iff not excluded and its scan fails. |
| OrgHealth.ScanOrgErrIff | scw/org_health.py:200-207 | The org scan fails iff some organisation's listing fails or one of its non-excluded repositories fails to scan. There is no per-repository isolation. |
| OrgHealth.ScanOrgCovers | scw/org_health.py:200-208 | In a successful scan, every listed, non-excluded repository's report is among the reports. |
| OrgHealth.ScanOrgReportOrigin | scw/org_health.py:200-208 | Every report comes from a listed, non-excluded repository of some organisation. |
| OrgHealth.FixQueueCount | scw/org_health.py:210-234 | The fix queue has exactly as many items as all reports' queues together: nothing is deduplicated. |
| OrgHealth.FixItemOrigin | scw/org_health.py:210-234 | Every fix item is the pending or triage form of a queue item of some report. |
| OrgHealth.ScanOrgFixItems | scw/org_health.py:210-234 | Every fix item has no last attempt, the policy epoch and version, and risk 1.5. Its status is triage iff its action is triage. Its repository is one of the scanned reports'. |
| OrgHealth.ScannedItemFix | scw/org_health.py:210-234 | A fix item made from a scanned report's queue item has the fields above and that report's repository. |
| StateEngine.EventLog.constructor | scripts/state_engine.py:24-26 | The log starts with the events already in the file. |
| StateEngine.EventLog.WriteEvent | scripts/state_engine.py:62-66 | Writing appends exactly one event at the end and changes nothing else. |
| StateEngine.LogFixed | scripts/state_engine.py:97-117 | One `fixed` event per fixed name is appended, in order. |
| StateEngine.LogDispatchOnly | scripts/state_engine.py:119-139 | One `dispatch_added_only` event is appended per name of the set difference. It returns its visiting order, which holds each such name once. |
| StateEngine.LogBroken | scripts/state_engine.py:141-171 | One `still_broken` event per truthy entry is appended, in order. |
| StateEngine.FirstAid | scripts/state_engine.py:71-171 | A missing summary raises and leaves the log unchanged. Otherwise the log grows by the fixed, then the dispatch-only, then the broken events, and nothing else. |
| StateEngine.FirstAidEventsStamped | scripts/state_engine.py:98-171 | Every event has the run's time and context, namespace SCW, kind `workflow_first_aid`, and the workflow's path and checksum. Its first label is `first_aid`. |
| StateEngine.FirstAidNames | scripts/state_engine.py:98-171 | The events name the fixed workflows, then the dispatch-only ones, then the truthy broken entries' names, in that order. |
| StateEngine.FirstAidStatuses | scripts/state_engine.py:98-171 | There is one event per fixed name, dispatch-only name and truthy broken entry, and each block carries its status. |
| StateEngine.FixedEventLabel | scripts/state_engine.py:110-114 | A fixed event's third label is `dispatch_injected` iff the name was also in `added_dispatch`. |
| StateEngine.DispatchOnlyNotFixed | scripts/state_engine.py:93-121 | A name is dispatch-only iff it was added a dispatch and is not fixed. |
| StateEngine.BrokenEventsSkipFalsy | scripts/state_engine.py:144-145 | A falsy `still_broken` entry writes no event. |
| StateEngine.BrokenEventOrigin | scripts/state_engine.py:142-171 | Every broken event comes from a truthy entry. A list of two or more gives name and error type; anything else is named by its text with `UnknownError`. |
| StateReader.LoadEvents | scripts/state_reader.py:27-42 | A missing file gives no events. Otherwise the loop keeps the JSON objects of the non-blank lines, in order. |
| StateReader.LoadSkipsLine | scripts/state_reader.py:32-39 | A blank, unparsable or non-object line contributes nothing. |
| StateReader.LoadKeepsObject | scripts/state_reader.py:40-41 | An object line contributes exactly its object, in its place. |
| StateReader.LoadedMembers | scripts/state_reader.py:27-42 | An event is loaded iff some line parses to it. |
| StateReader.FilterScwWorkflowEvents | scripts/state_reader.py:45-53 | The loop keeps exactly the events of namespace SCW and kind `workflow_first_aid`. |
| StateReader.FilterScwKeepsExactly | scripts/state_reader.py:45-53 | The kept events are a subsequence of the input, and an event is kept iff it is an SCW workflow event. |
| StateReader.BuildLatestByWorkflow | scripts/state_reader.py:64-83 | The loop builds the per-workflow map of latest events. |
| StateReader.LatestKeys | scripts/state_reader.py:64-83 | The map has one key per non-empty workflow name among the events. |
| StateReader.LatestIsFirstLatest | scripts/state_reader.py:64-83 | Each workflow's entry is an event with the greatest timestamp, and the earliest of those on ties. |
| StateReader.LaterReplaces | scripts/state_reader.py:80-82 | A strictly later event of the same name takes over. |
| StateReader.FirstOfName | scripts/state_reader.py:75-78 | The first event of a name is taken as it is. |
| StateReader.NotLaterKeeps | scripts/state_reader.py:80-82 | An event that is not strictly later keeps the earlier choice. |
| StateReader.SummaryMatchesBucket | scripts/state_reader.py:86-108 | The status cell and the bucket agree. A missing or empty status is `unknown` and counts as other. A broken cell names the error type iff it is non-empty. |
| StateReader.BucketsPartition | scripts/state_reader.py:113-123 | The four buckets together count every visited workflow once. |
| StateReader.CountAlongVisit | scripts/state_reader.py:113-125 | Visiting every workflow once counts exactly the workflows in each bucket. |
| StateReader.TallyCountsBuckets | scripts/state_reader.py:113-123 | Each counter is the number of visited workflows in its bucket. |
| StateReader.CountBuckets | scripts/state_reader.py:113-123 | The counting loop gives each bucket's number of workflows. Together they sum to the number of workflows. |
| StateReader.CountsFromVisit | scripts/state_reader.py:113-125 | Counters along any visiting order of the map are the bucket sizes. |
| StateReader.SortNames | scripts/state_reader.py:148 | `sorted(latest.keys())`: strictly ascending, holding exactly the keys. |
| StateReader.SortedRows | scripts/state_reader.py:145-159 | One row per workflow, in ascending name order, each from that workflow's latest event. |
| StateReader.RenderSnapshot | scripts/state_reader.py:111-165 | The counts are the bucket sizes and the total is the number of workflows. There is no table iff the total is 0; otherwise the rows are as above. |
| StateReader.SortedDistinct | scripts/state_reader.py:148 | Sorted names are distinct. |
| StateReader.SortedUnique | scripts/state_reader.py:148 | Two sorted name lists with the same members are equal: the table order is determined. |
| StateReader.SnapshotTotal | scripts/state_reader.py:125 | The total equals the number of distinct workflow names among the events. |
| StateReader.TakeSnapshot | scripts/state_reader.py:193-196 | Load, filter, pick latest and render. The total is the number of distinct names among the kept events, and the counts and rows are those of their latest events. |
| EventRoundTrip.StampedReadBack | scripts/state_reader.py:45-108 | An event the engine writes passes the reader's filter and lands in the bucket its status names. |
| EventRoundTrip.FirstAidEventsReadBack | scripts/state_engine.py:97-171 | The reader keeps every event of a first-aid run. Fixed events count as fixed, dispatch-only as dispatch-only, broken as broken. |
| AiReviewer.SplitLines | scripts/ci/ai_reviewer_stub.py:11 | No line holds a line break. |
| AiReviewer.SplitLinesRoundTrip | scripts/ci/ai_reviewer_stub.py:7 | The lines are the text's pieces: joined with line breaks, plus the final line break that `splitlines` drops, they give the text back. |
| AiReviewer.TypeOf | scripts/ci/ai_reviewer_stub.py:11 | The type found is an accepted type the message starts with. None found means it starts with none of them. |
| AiReviewer.ScopeClosesSpec | scripts/ci/ai_reviewer_stub.py:11 | The scope scan succeeds iff a `): ` follows a non-empty scope without a line break. |
| AiReviewer.TypesByFirstTwo | scripts/ci/ai_reviewer_stub.py:11 | The accepted types differ in their first two characters. |
| AiReviewer.TypesPrefixFree | scripts/ci/ai_reviewer_stub.py:11 | A message starts with at most one accepted type. |
| AiReviewer.IsConventionalIff | scripts/ci/ai_reviewer_stub.py:11 | The scanning check accepts a subject iff the conventional-commit pattern, with its backtracking scope, matches it. |
| AiReviewer.BadMessagesExactly | scripts/ci/ai_reviewer_stub.py:8-12 | The flagged subjects are the log lines the pattern rejects, in log order. |
| AiReviewer.StrippedLinesStripped | scripts/ci/ai_reviewer_stub.py:4-7 | Every changed file name is non-empty and has no surrounding whitespace. |
| AiReviewer.StrippedLinesComplete | scripts/ci/ai_reviewer_stub.py:4-7 | The changed files keep line order, and every non-blank line gives one. |
| AiReviewer.ScanDocs | scripts/ci/ai_reviewer_stub.py:18 | The scan finds a Markdown file iff some changed file ends in `.md`. |
| AiReviewer.ScanScripts | scripts/ci/ai_reviewer_stub.py:19 | The scan finds a script iff some changed file starts with `scripts/`. |
| AiReviewer.CollectNotes | scripts/ci/ai_reviewer_stub.py:16-19 | The notes appended are the specified ones in the specified order. |
| AiReviewer.RunReview | scripts/ci/ai_reviewer_stub.py:13-20 | The review of the two git outputs is that of their changed files and flagged subjects. |
| AiReviewer.ReviewShape | scripts/ci/ai_reviewer_stub.py:16-19 | The review looks good iff nothing is flagged and no docs or scripts changed. The commit note lists the first ten flagged subjects, or all of them when fewer. Each note appears iff its condition holds, in the order commits, docs, scripts. |

## Left out

- GitHub API calls (`gh_get`, `gh_put`), HTTP status handling, authentication and base64 decoding: a repository is the data the API would return (`RepoSource`), and an organisation's listing is its sequence of page responses (`OrgSource`).
- `fnmatch` glob matching is a function parameter; its pattern language is not modelled.
- YAML and JSON parsing: the policy, the index and the summary are already-parsed values, and `json.loads` of an event line is a parameter. Non-string JSON values where the code expects strings are not modelled.
- `content_hash` (SHA-256) and `_checksum` are not modelled. The checksum is a parameter of the event environment.
- Regex details of `META_RE`: the model finds a block line by line, and takes as a marker only a line that starts with `#` or `"` and, once surrounding whitespace is stripped, ends with `===`. The pattern accepts more, and these cases are among those not modelled:
  - an end marker after other text on its line;
  - text after a marker's closing `===`, such as `# === END STEGVERSE FILE METADATA === x`. Python ends the block there, but the model sees no marker. If that is the only end marker, `from_text` parses the block where `FromText` gives the default record, and `strip_metadata` differs the same way;
  - a marker whose `\s*` spans a line break, such as `#` on one line and `=== STEGVERSE FILE METADATA ===` on the next.
- Regex details of `KV_RE`: a key/value line whose `\s*` spans a line break is not modelled. This covers an empty value that takes the next line as its value, and a key whose `:` is on the next line.
- StripMetadata: cuts each block's lines, from its begin marker line to its end marker line, and keeps the line breaks around them. `sub` also removes the line break before the begin marker and all whitespace after the end marker, so a line `a`, a block and a line `b` become `ab`, where the model gives `a` and `b` on two lines.
- StripMetadata: a block that follows the previous block with only whitespace between is cut by the model, but stays in Python's result, because the previous match's trailing whitespace takes the line break the next match must start with.
- Only ASCII is modelled for `str.isdigit`, `str.strip` whitespace and `str.lower`. `int()` does not accept underscores between digits.
- `splitlines` is modelled for `\n` only; other line boundaries (`\r`, form feed, …) are not.
- Python floats are exact reals, so the risk score has no rounding.
- Python's set iteration order for `added_dispatch_set - fixed_set` is unspecified. `StateEngine.LogDispatchOnly` returns the order it used, and the properties hold for any order.
- `sorted` is modelled by a selection loop; only its result (ascending, every key once) is stated.
- WorkflowPath: `pathlib` normalisation of `.github/workflows/<name>` is modelled for empty and absolute names only. Repeated slashes, `.` parts and a trailing slash, which `pathlib` collapses, are kept; `..` is kept by both.
- `str()` of an odd `still_broken` entry is part of the input; Python's `repr` formatting is not modelled.
- The Markdown and emoji text of the snapshot and of the review notes: the snapshot is its counts and rows, and the review is a list of note values.
- Timestamps (`utcnow`), the GitHub run context and `GITHUB_BASE_REF` are inputs.
- File writing and directory creation other than the event log itself, `print`/`log` output and `argparse` are not modelled.
- `main` of `org_health.py` (reading the environment and the organisation list) is not modelled; `OrgHealth.ScanOrg` takes the list.
- `scw/scw_core.py` and `scripts/status/*` are not part of this model.
