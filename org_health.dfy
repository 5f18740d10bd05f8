/**
 * The org health scanner (scw/org_health.py): for each repository of each
 * organisation, every required file is checked against the policy's epoch
 * and minimum version, from the repository's file index when it has a
 * usable one and from the file's own svmeta block otherwise. Missing and
 * stale files become queue items, routed to the structure queue or the
 * logic queue by path glob, and the queues of all scanned repositories are
 * flattened into one fix queue.
 *
 * The GitHub side is plain data: a `RepoSource` holds what the API returns
 * for one repository, and an `OrgSource` the pages the repository listing
 * of one organisation returns. `fnmatch` is a parameter.
 */
module OrgHealth {
  import opened Wrappers
  import opened Strings
  import opened Sequences
  import Maps
  import Svmeta
  import Risk

  /** `fnmatch.fnmatch(name, pattern)`, which the model leaves abstract. */
  type Matcher = (string, string) -> bool

  /** `glob_any`: some pattern matches the name. */
  predicate GlobAny(fnmatch: Matcher, name: string, patterns: seq<string>) {
    exists i :: 0 <= i < |patterns| && fnmatch(name, patterns[i])
  }

  // ---------------------------------------------------------------- policy

  /** One entry of `required_files`; `None` is an absent or null `depends_on_secrets`. */
  datatype RequiredFile = RequiredFile(path: string, dependsOnSecrets: Option<seq<string>>)

  /** The parts of `scw/policy.yml` the scanner reads. */
  datatype Policy = Policy(
    policyEpoch: int,
    requiredFiles: seq<RequiredFile>,
    minVersions: map<string, string>,
    structureGlobs: seq<string>,
    excludeRepoGlobs: seq<string>,
    indexFirst: bool)

  /** `min_versions.get("workflow", "0.0.0")`: the category is always "workflow". */
  function WantedVersion(p: Policy): string {
    if "workflow" in p.minVersions then p.minVersions["workflow"] else "0.0.0"
  }

  function Depends(spec: RequiredFile): seq<string> {
    spec.dependsOnSecrets.GetOr([])
  }

  function RequiredPair(f: RequiredFile): (string, RequiredFile) {
    (f.path, f)
  }

  function RequiredPairs(p: Policy): seq<(string, RequiredFile)> {
    Map(p.requiredFiles, RequiredPair)
  }

  /**
   * `build_required_map`: an insertion-ordered dictionary from path to spec.
   * Paths keep the order of their first occurrence; each is bound to the
   * spec the plain last-wins map gives it.
   */
  function BuildRequiredMap(p: Policy): (r: seq<(string, RequiredFile)>)
    ensures Maps.Keys(r) == Maps.FirstOccurrences(Maps.Keys(RequiredPairs(p)))
    ensures Distinct(Maps.Keys(r))
    ensures forall j :: 0 <= j < |r| ==> r[j].0 in Maps.LastWins(RequiredPairs(p)) && r[j].1 == Maps.LastWins(RequiredPairs(p))[r[j].0]
  {
    Maps.InsertAll(RequiredPairs(p))
  }

  /** A duplicated path is checked once, with the spec of its last occurrence. */
  lemma RequiredMapLastSpec(p: Policy, i: nat)
    requires i < |p.requiredFiles|
    requires forall k :: i < k < |p.requiredFiles| ==> p.requiredFiles[k].path != p.requiredFiles[i].path
    ensures exists j :: 0 <= j < |BuildRequiredMap(p)| && BuildRequiredMap(p)[j] == (p.requiredFiles[i].path, p.requiredFiles[i])
  {
    var pairs, r := RequiredPairs(p), BuildRequiredMap(p);
    Maps.LastWinsAt(pairs, i);
    assert Maps.Keys(pairs)[i] == p.requiredFiles[i].path;
    var j :| 0 <= j < |Maps.Keys(r)| && Maps.Keys(r)[j] == p.requiredFiles[i].path;
    assert r[j].0 == p.requiredFiles[i].path;
  }

  // ---------------------------------------------------------------- index

  const IndexPath := "scw/file_index.json"
  const IndexSig := "fileindex:v1"

  /** An index entry's `sv_epoch` as JSON gives it to `int()`. */
  datatype EpochField =
    | EpochAbsent
    | EpochNumber(n: int)
    | EpochText(text: string)
    | EpochUnconvertible   // null, a list, an object: `int()` raises

  /** One entry of the index's `files`; `None` is an absent key. */
  datatype IndexEntry = IndexEntry(
    path: string,
    kind: Option<string>,
    moduleName: Option<string>,
    version: Option<string>,
    buildId: Option<string>,
    epoch: EpochField,
    hash: Option<string>)

  /** `json.loads` of the index file, as far as the scanner looks at it. */
  datatype IndexJson =
    | Unparsable
    | Falsy          // null, false, 0, "", [] and the like
    | OtherValue     // a non-empty list, string or number: `.get` raises
    | Object(sig: Option<string>, files: seq<IndexEntry>)

  /** What the GitHub API answers about the default branch. */
  datatype BranchLookup = LookupFailed | BranchInfo(defaultBranch: Option<string>)

  /**
   * One repository as the API presents it: the default-branch lookup, the
   * text of every path `get_file` returns text for at that branch (a path
   * it returns `None` for, because the fetch failed or the path is not a
   * file, is absent), the parsed index file and the scan time.
   */
  datatype RepoSource = RepoSource(
    fullName: string,
    branch: BranchLookup,
    files: map<string, string>,
    indexJson: IndexJson,
    scannedUtc: string)

  /** The exceptions a scan lets escape. */
  datatype ScanError =
    | BadRepoName(fullName: string)          // `full_name.split("/")` does not give two parts
    | BranchLookupFailed(fullName: string)
    | OrgListingFailed(org: string)
    | IndexNotObject(fullName: string)
    | IndexEpochInvalid(path: string)
    | MetaEpochInvalid(path: string, text: string)

  /** Whether `get_file` gives non-empty text for a path. */
  predicate HasText(src: RepoSource, path: string) {
    path in src.files && src.files[path] != ""
  }

  /** `read_index_if_present`: the index's file list, if it carries the index signature. */
  function ReadIndex(src: RepoSource): (r: Result<Option<seq<IndexEntry>>, ScanError>)
    ensures r.Err? <==> HasText(src, IndexPath) && src.indexJson.OtherValue?
    ensures r.Ok? && r.value.Some? <==> HasText(src, IndexPath) && src.indexJson.Object? && src.indexJson.sig == Some(IndexSig)
    ensures r.Ok? && r.value.Some? ==> r.value.value == src.indexJson.files
  {
    if !HasText(src, IndexPath) then Ok(None)
    else
      match src.indexJson
      case Unparsable => Ok(None)
      case Falsy => Ok(None)
      case OtherValue => Err(IndexNotObject(src.fullName))
      case Object(sig, files) => if sig == Some(IndexSig) then Ok(Some(files)) else Ok(None)
  }

  /** The index is read only when the policy asks for index-first scans. */
  function ScanIndex(src: RepoSource, p: Policy): (r: Result<Option<seq<IndexEntry>>, ScanError>)
    ensures !p.indexFirst ==> r == Ok(None)
  {
    if p.indexFirst then ReadIndex(src) else Ok(None)
  }

  function EntryPair(e: IndexEntry): (string, IndexEntry) {
    (e.path, e)
  }

  /** `file_states`: path to index entry, the last entry of a path winning. */
  function FileStates(entries: seq<IndexEntry>): map<string, IndexEntry> {
    Maps.LastWins(Map(entries, EntryPair))
  }

  /** The loop that fills `file_states`. */
  method BuildFileStates(entries: seq<IndexEntry>) returns (states: map<string, IndexEntry>)
    ensures states == FileStates(entries)
  {
    ghost var pairs := Map(entries, EntryPair);
    states := map[];
    for i := 0 to |entries|
      invariant states == Maps.LastWins(pairs[..i])
    {
      Maps.LastWinsSnoc(pairs[..i], pairs[i]);
      assert pairs[..i + 1] == pairs[..i] + [pairs[i]];
      states := states[entries[i].path := entries[i]];
    }
    assert pairs[..|entries|] == pairs;
  }

  /** A path's state is its last index entry. */
  lemma FileStatesLast(entries: seq<IndexEntry>, i: nat)
    requires i < |entries|
    requires forall k :: i < k < |entries| ==> entries[k].path != entries[i].path
    ensures entries[i].path in FileStates(entries) && FileStates(entries)[entries[i].path] == entries[i]
  {
    Maps.LastWinsAt(Map(entries, EntryPair), i);
  }

  /** The record the scanner builds from an index entry, `int()` applied to its epoch. */
  function IndexMeta(path: string, e: IndexEntry): (r: Result<Svmeta.SvMeta, ScanError>)
    ensures r.Err? <==> e.epoch.EpochUnconvertible? || (e.epoch.EpochText? && ParseInt(e.epoch.text).None?)
    ensures r.Ok? ==> r.value.file == path && r.value.version == e.version.GetOr("0.0.0") && r.value.buildId == e.buildId.GetOr("")
    ensures r.Ok? && e.epoch.EpochAbsent? ==> r.value.epoch == 0
    ensures r.Ok? ==> r.value.epoch == match e.epoch
      case EpochNumber(n) => n
      case EpochText(t) => ParseInt(t).value
      case _ => 0
    ensures r.Ok? ==>
      && r.value.kind == e.kind.GetOr("") && r.value.moduleName == e.moduleName.GetOr("")
      && r.value.hash == e.hash.GetOr("") && r.value.parentBuild == "" && r.value.sig == ""
  {
    var epoch := match e.epoch
      case EpochAbsent => Some(0)
      case EpochNumber(n) => Some(n)
      case EpochText(t) => ParseInt(t)
      case EpochUnconvertible => None;
    if epoch.None? then Err(IndexEpochInvalid(path))
    else Ok(Svmeta.SvMeta(path, e.kind.GetOr(""), e.moduleName.GetOr(""), e.version.GetOr("0.0.0"),
      e.buildId.GetOr(""), epoch.value, "", e.hash.GetOr(""), ""))
  }

  // ---------------------------------------------------------------- staleness

  /** `int(x) if x.isdigit() else 0`. */
  function SemverComponent(x: string): nat {
    if IsDigits(x) then DigitsValue(x) else 0
  }

  /** `semver_tuple`: the first three `.`-parts, padded with "0", non-digit parts as 0. */
  function SemverTuple(v: string): Svmeta.Semver {
    var parts := Split(v, '.') + ["0", "0", "0"];
    (SemverComponent(parts[0]), SemverComponent(parts[1]), SemverComponent(parts[2]))
  }

  /** `staleness`: an epoch below the policy's, or a version tuple below the minimum. */
  function Staleness(policyEpoch: int, minVer: string, meta: Svmeta.SvMeta): bool {
    meta.epoch < policyEpoch || Svmeta.SemverLess(SemverTuple(meta.version), SemverTuple(minVer))
  }

  /** Below the policy epoch a file is stale whatever its version. */
  lemma StaleBelowEpoch(policyEpoch: int, minVer: string, meta: Svmeta.SvMeta)
    requires meta.epoch < policyEpoch
    ensures Staleness(policyEpoch, minVer, meta)
  {
  }

  /** At or above the policy epoch only the version tuples decide. */
  lemma StalenessAtEpoch(policyEpoch: int, minVer: string, meta: Svmeta.SvMeta)
    requires meta.epoch >= policyEpoch
    ensures Staleness(policyEpoch, minVer, meta) <==> Svmeta.SemverLess(SemverTuple(meta.version), SemverTuple(minVer))
  {
  }

  /** `a.b.c` followed by more `.`-parts reads as its first three components. */
  lemma SemverTupleThree(a: string, b: string, c: string, rest: string)
    requires '.' !in a && '.' !in b && '.' !in c
    requires rest == [] || rest[0] == '.'
    ensures SemverTuple(a + "." + b + "." + c + rest) == (SemverComponent(a), SemverComponent(b), SemverComponent(c))
  {
    Svmeta.SplitThree(a, b, c, rest);
  }

  /** `a.b` is padded: its third component is 0. */
  lemma SemverTupleTwo(a: string, b: string)
    requires '.' !in a && '.' !in b
    ensures SemverTuple(a + "." + b) == (SemverComponent(a), SemverComponent(b), 0)
  {
    assert a + "." + b == a + ['.'] + b;
    SplitAfterFirst(a, b, '.');
    SplitNoSeparator(b, '.');
  }

  /** A version without a dot is its major component, padded with two zeros. */
  lemma SemverTupleOne(a: string)
    requires '.' !in a
    ensures SemverTuple(a) == (SemverComponent(a), 0, 0)
  {
    SplitNoSeparator(a, '.');
  }

  /** "4.0" is 4.0.0 to the scanner, but (0, 0, 0) to `parse_semver`. */
  lemma FourDotZeroTwoWays()
    ensures SemverTuple("4.0") == (4, 0, 0)
    ensures Svmeta.ParseSemver("4.0") == (0, 0, 0)
  {
    SemverTupleTwo("4", "0");
    assert "4" + "." + "0" == "4.0";
    assert DigitsValue("4") == 4 by { assert "4"[..0] == ""; }
    assert DigitsValue("0") == 0 by { assert "0"[..0] == ""; }
    Svmeta.ParseSemverFourDotZero();
  }

  lemma SemverTupleOf400()
    ensures SemverTuple("4.0.0") == (4, 0, 0)
  {
    assert "4.0.0" == "4" + "." + "0" + "." + "0" + "";
    SemverTupleThree("4", "0", "0", "");
    assert DigitsValue("4") == 4 by { assert "4"[..0] == ""; }
    assert DigitsValue("0") == 0 by { assert "0"[..0] == ""; }
  }

  lemma SemverTupleOf399()
    ensures SemverTuple("3.9.9") == (3, 9, 9)
  {
    assert "3.9.9" == "3" + "." + "9" + "." + "9" + "";
    SemverTupleThree("3", "9", "9", "");
    assert DigitsValue("3") == 3 by { assert "3"[..0] == ""; }
    assert DigitsValue("9") == 9 by { assert "9"[..0] == ""; }
  }

  /** The policy this repository ships with, epoch 9 and minimum 4.0.0, on a few records. */
  lemma StalenessExamples(m: Svmeta.SvMeta)
    ensures Staleness(9, "4.0.0", m.(epoch := 8, version := "4.0.0"))
    ensures Staleness(9, "4.0.0", m.(epoch := 9, version := "3.9.9"))
    ensures !Staleness(9, "4.0.0", m.(epoch := 9, version := "4.0.0"))
    ensures !Staleness(9, "4.0.0", m.(epoch := 9, version := "4.0"))
  {
    SemverTupleOf400();
    SemverTupleOf399();
    FourDotZeroTwoWays();
  }

  // ---------------------------------------------------------------- scan_repo

  datatype Action = Add | Replace | Triage
  datatype Reason = MissingRequired | StaleIndex | StaleTree

  /** An entry of `structure_queue` or `logic_queue`; `metaFound` `None` is the empty dict. */
  datatype QueueItem = QueueItem(
    path: string,
    action: Action,
    reason: Reason,
    wantedEpoch: int,
    wantedVersion: string,
    metaFound: Option<Svmeta.SvMeta>,
    dependsOnSecrets: seq<string>,
    riskScore: real)

  /** The report `scan_repo` returns; `notes` is never filled. */
  datatype ScanReport = ScanReport(
    repo: string,
    ref: string,
    scannedUtc: string,
    structureQueue: seq<QueueItem>,
    logicQueue: seq<QueueItem>,
    notes: seq<string>,
    indexPresent: bool)

  /** The `queue_item` closure's record. */
  function MakeItem(p: Policy, path: string, action: Action, reason: Reason, meta: Option<Svmeta.SvMeta>, depends: seq<string>): QueueItem {
    QueueItem(path, action, reason, p.policyEpoch, WantedVersion(p), meta, depends, Risk.StaleItemScore())
  }

  /**
   * One turn of the required-files loop: the item it queues for `path`, if
   * any. An index entry decides without a fetch; otherwise missing or
   * empty text is an `add`, and fetched text is read for its svmeta block.
   */
  function EvalPath(p: Policy, states: map<string, IndexEntry>, files: map<string, string>, path: string, spec: RequiredFile): (r: Result<Option<QueueItem>, ScanError>)
    ensures r.Ok? && r.value.Some? ==> var it := r.value.value;
      && it.path == path && it.wantedEpoch == p.policyEpoch && it.wantedVersion == WantedVersion(p)
      && it.dependsOnSecrets == Depends(spec) && it.riskScore == 1.5
      && (it.action == Add <==> it.reason == MissingRequired)
      && (it.action == Add <==> it.metaFound.None?)
      && it.action != Triage
      && (it.reason == StaleIndex <==> path in states)
      && (it.action == Replace ==> Staleness(p.policyEpoch, WantedVersion(p), it.metaFound.value))
    ensures r.Ok? && r.value.None? ==> path in states || (path in files && files[path] != "")
    ensures path !in states && (path !in files || files[path] == "") ==>
      r == Ok(Some(MakeItem(p, path, Add, MissingRequired, None, Depends(spec))))
  {
    var depends := Depends(spec);
    var minVer := WantedVersion(p);
    if path in states then
      match IndexMeta(path, states[path])
      case Err(e) => Err(e)
      case Ok(meta) =>
        Ok(if Staleness(p.policyEpoch, minVer, meta) then Some(MakeItem(p, path, Replace, StaleIndex, Some(meta), depends)) else None)
    else if path !in files || files[path] == "" then
      Ok(Some(MakeItem(p, path, Add, MissingRequired, None, depends)))
    else
      match Svmeta.FromText(files[path])
      case Err(e) => Err(MetaEpochInvalid(path, e.text))
      case Ok(meta) =>
        Ok(if Staleness(p.policyEpoch, minVer, meta) then Some(MakeItem(p, path, Replace, StaleTree, Some(meta), depends)) else None)
  }

  /** A path the index knows is never fetched: its text makes no difference. */
  lemma IndexHitIgnoresFiles(p: Policy, states: map<string, IndexEntry>, files1: map<string, string>, files2: map<string, string>, path: string, spec: RequiredFile)
    requires path in states
    ensures EvalPath(p, states, files1, path, spec) == EvalPath(p, states, files2, path, spec)
  {
  }

  /**
   * An index entry is queued exactly when its metadata is stale, as `replace`
   * for `stale_metadata(index)`; an entry whose epoch is not an integer stops
   * the scan.
   */
  lemma IndexEntryQueuedIffStale(p: Policy, states: map<string, IndexEntry>, files: map<string, string>, path: string, spec: RequiredFile)
    requires path in states
    ensures IndexMeta(path, states[path]).Err? ==> EvalPath(p, states, files, path, spec) == Err(IndexMeta(path, states[path]).error)
    ensures IndexMeta(path, states[path]).Ok? ==> var meta := IndexMeta(path, states[path]).value;
      EvalPath(p, states, files, path, spec) ==
        if Staleness(p.policyEpoch, WantedVersion(p), meta)
        then Ok(Some(MakeItem(p, path, Replace, StaleIndex, Some(meta), Depends(spec))))
        else Ok(None)
  {
  }

  /**
   * A fetched file is queued exactly when it is stale, as `replace` for
   * `stale_metadata(tree)`; a block whose `sv_epoch` is not an integer stops
   * the scan.
   */
  lemma TreeFileQueuedIffStale(p: Policy, states: map<string, IndexEntry>, files: map<string, string>, path: string, spec: RequiredFile)
    requires path !in states && path in files && files[path] != ""
    ensures Svmeta.FromText(files[path]).Err? ==>
      EvalPath(p, states, files, path, spec) == Err(MetaEpochInvalid(path, Svmeta.FromText(files[path]).error.text))
    ensures Svmeta.FromText(files[path]).Ok? ==> var meta := Svmeta.FromText(files[path]).value;
      EvalPath(p, states, files, path, spec) ==
        if Staleness(p.policyEpoch, WantedVersion(p), meta)
        then Ok(Some(MakeItem(p, path, Replace, StaleTree, Some(meta), Depends(spec))))
        else Ok(None)
  {
  }

  type Evaluator = ((string, RequiredFile)) -> Result<Option<QueueItem>, ScanError>

  /** The loop body's check of one required-map entry, as a function value. */
  function EvalWith(p: Policy, states: map<string, IndexEntry>, files: map<string, string>): Evaluator {
    (kv: (string, RequiredFile)) => EvalPath(p, states, files, kv.0, kv.1)
  }

  /** The same check as a step of a loop that may raise: no item or one. */
  function AsStep(eval: Evaluator): ((string, RequiredFile)) -> Result<seq<QueueItem>, ScanError> {
    (kv: (string, RequiredFile)) =>
      match eval(kv)
      case Err(e) => Err(e)
      case Ok(o) => Ok(if o.Some? then [o.value] else [])
  }

  function PathStep(p: Policy, states: map<string, IndexEntry>, files: map<string, string>): ((string, RequiredFile)) -> Result<seq<QueueItem>, ScanError> {
    AsStep(EvalWith(p, states, files))
  }

  /** All items the required-files loop queues, in loop order, before routing. */
  function RequiredItems(p: Policy, states: map<string, IndexEntry>, files: map<string, string>): Result<seq<QueueItem>, ScanError> {
    ConcatResults(BuildRequiredMap(p), PathStep(p, states, files))
  }

  function PathOf(it: QueueItem): string {
    it.path
  }

  function PairPath(kv: (string, RequiredFile)): string {
    kv.0
  }

  lemma PathStepShape(p: Policy, states: map<string, IndexEntry>, files: map<string, string>, kv: (string, RequiredFile))
    requires PathStep(p, states, files)(kv).Ok?
    ensures var out := PathStep(p, states, files)(kv).value;
      |out| <= 1 && forall y :: y in out ==> PathOf(y) == PairPath(kv)
  {
    var r := EvalPath(p, states, files, kv.0, kv.1);
    assert r.Ok?;
    if r.value.Some? {
      assert PathStep(p, states, files)(kv).value == [r.value.value];
    }
  }

  /** Items come in the order of their paths in the required map, one per path at most. */
  lemma ItemsFollowKeys(req: seq<(string, RequiredFile)>, p: Policy, states: map<string, IndexEntry>, files: map<string, string>)
    requires ConcatResults(req, PathStep(p, states, files)).Ok?
    ensures IsSubsequence(Map(ConcatResults(req, PathStep(p, states, files)).value, PathOf), Maps.Keys(req))
  {
    var step := PathStep(p, states, files);
    forall kv | step(kv).Ok?
      ensures |step(kv).value| <= 1 && forall y :: y in step(kv).value ==> PathOf(y) == PairPath(kv)
    {
      PathStepShape(p, states, files, kv);
    }
    ConcatResultsFollowKeys(req, step, PairPath, PathOf);
    assert Map(req, PairPath) == Maps.Keys(req);
  }

  function IsStructure(fnmatch: Matcher, globs: seq<string>): QueueItem -> bool {
    (it: QueueItem) => GlobAny(fnmatch, it.path, globs)
  }

  function IsLogic(fnmatch: Matcher, globs: seq<string>): QueueItem -> bool {
    (it: QueueItem) => !GlobAny(fnmatch, it.path, globs)
  }

  predicate ValidRepoName(fullName: string) {
    |Split(fullName, '/')| == 2
  }

  /** `scan_repo`, as a value: the report, or the exception that escapes. */
  function ScanRepoSpec(src: RepoSource, p: Policy, fnmatch: Matcher): Result<ScanReport, ScanError> {
    if !ValidRepoName(src.fullName) then Err(BadRepoName(src.fullName))
    else if src.branch.LookupFailed? then Err(BranchLookupFailed(src.fullName))
    else
      match ScanIndex(src, p)
      case Err(e) => Err(e)
      case Ok(index) =>
        match RequiredItems(p, FileStates(index.GetOr([])), src.files)
        case Err(e) => Err(e)
        case Ok(items) =>
          Ok(ScanReport(src.fullName, src.branch.defaultBranch.GetOr("main"), src.scannedUtc,
            Filter(items, IsStructure(fnmatch, p.structureGlobs)),
            Filter(items, IsLogic(fnmatch, p.structureGlobs)),
            [], index.Some?))
  }

  /**
   * The required-files loop of `scan_repo`, with the check of one entry
   * passed in as `eval`: each entry's item, if any, is appended to the
   * structure queue or the logic queue by its path alone.
   */
  method QueueRequired(required: seq<(string, RequiredFile)>, eval: Evaluator, fnmatch: Matcher, globs: seq<string>)
    returns (r: Result<(seq<QueueItem>, seq<QueueItem>), ScanError>)
    ensures r == match ConcatResults(required, AsStep(eval))
      case Err(e) => Err(e)
      case Ok(items) => Ok((Filter(items, IsStructure(fnmatch, globs)), Filter(items, IsLogic(fnmatch, globs))))
  {
    ghost var step := AsStep(eval);
    var structure: seq<QueueItem>, logic: seq<QueueItem> := [], [];
    for i := 0 to |required|
      invariant ConcatResults(required[..i], step).Ok?
      invariant structure == Filter(ConcatResults(required[..i], step).value, IsStructure(fnmatch, globs))
      invariant logic == Filter(ConcatResults(required[..i], step).value, IsLogic(fnmatch, globs))
    {
      var found := eval(required[i]);
      ConcatResultsStep(required, i, step);
      if found.Err? {
        ConcatResultsErrStays(required, i + 1, step);
        return Err(found.error);
      }
      ghost var acc := ConcatResults(required[..i], step).value;
      if found.value.Some? {
        var item := found.value.value;
        assert (acc + [item])[..|acc|] == acc;
        if GlobAny(fnmatch, item.path, globs) {
          structure := structure + [item];
        } else {
          logic := logic + [item];
        }
      } else {
        assert acc + [] == acc;
      }
    }
    assert required[..|required|] == required;
    return Ok((structure, logic));
  }

  /** `scan_repo`: the branch, the index, then the required-files loop. */
  method ScanRepo(src: RepoSource, p: Policy, fnmatch: Matcher) returns (r: Result<ScanReport, ScanError>)
    ensures r == ScanRepoSpec(src, p, fnmatch)
  {
    if |Split(src.fullName, '/')| != 2 {
      return Err(BadRepoName(src.fullName));
    }
    if src.branch.LookupFailed? {
      return Err(BranchLookupFailed(src.fullName));
    }
    var ref := src.branch.defaultBranch.GetOr("main");
    var required := BuildRequiredMap(p);
    var index := ScanIndex(src, p);
    if index.Err? {
      return Err(index.error);
    }
    var states := BuildFileStates(index.value.GetOr([]));
    var queues := QueueRequired(required, EvalWith(p, states, src.files), fnmatch, p.structureGlobs);
    if queues.Err? {
      return Err(queues.error);
    }
    return Ok(ScanReport(src.fullName, ref, src.scannedUtc, queues.value.0, queues.value.1, [], index.value.Some?));
  }

  // ---------------------------------------------------------------- scan_repo facts

  /** The index states a successful scan of `src` works from. */
  function ScanStates(src: RepoSource, p: Policy): map<string, IndexEntry>
    requires ScanIndex(src, p).Ok?
  {
    FileStates(ScanIndex(src, p).value.GetOr([]))
  }

  lemma ScanRepoItems(src: RepoSource, p: Policy, fnmatch: Matcher)
    requires ScanRepoSpec(src, p, fnmatch).Ok?
    ensures ValidRepoName(src.fullName) && src.branch.BranchInfo? && ScanIndex(src, p).Ok?
    ensures RequiredItems(p, ScanStates(src, p), src.files).Ok?
    ensures var items := RequiredItems(p, ScanStates(src, p), src.files).value;
      var rep := ScanRepoSpec(src, p, fnmatch).value;
      rep.structureQueue == Filter(items, IsStructure(fnmatch, p.structureGlobs))
      && rep.logicQueue == Filter(items, IsLogic(fnmatch, p.structureGlobs))
  {
  }

  /** A step's output is the check's item, when the check gives one. */
  lemma AsStepOrigin(eval: Evaluator, kv: (string, RequiredFile), y: QueueItem)
    requires AsStep(eval)(kv).Ok? && y in AsStep(eval)(kv).value
    ensures eval(kv) == Ok(Some(y))
  {
  }

  /** Each item is the check's result for an entry of the required map. */
  lemma ItemOrigin(p: Policy, states: map<string, IndexEntry>, files: map<string, string>, y: QueueItem)
    requires RequiredItems(p, states, files).Ok? && y in RequiredItems(p, states, files).value
    ensures exists kv :: kv in BuildRequiredMap(p) && EvalPath(p, states, files, kv.0, kv.1) == Ok(Some(y))
  {
    var req := BuildRequiredMap(p);
    var eval := EvalWith(p, states, files);
    ConcatResultsFrom(req, AsStep(eval), y);
    var i :| 0 <= i < |req| && AsStep(eval)(req[i]).Ok? && y in AsStep(eval)(req[i]).value;
    AsStepOrigin(eval, req[i], y);
    assert req[i] in req;
  }

  /**
   * Routing depends on the path alone: the structure queue holds the items
   * whose path matches a structure glob, the logic queue the others, and
   * no item is lost or put in both.
   */
  lemma ScanRepoRouting(src: RepoSource, p: Policy, fnmatch: Matcher)
    requires ScanRepoSpec(src, p, fnmatch).Ok?
    ensures var rep := ScanRepoSpec(src, p, fnmatch).value;
      && (forall j :: 0 <= j < |rep.structureQueue| ==> GlobAny(fnmatch, rep.structureQueue[j].path, p.structureGlobs))
      && (forall j :: 0 <= j < |rep.logicQueue| ==> !GlobAny(fnmatch, rep.logicQueue[j].path, p.structureGlobs))
      && |rep.structureQueue| + |rep.logicQueue| == |RequiredItems(p, ScanStates(src, p), src.files).value|
    ensures var rep := ScanRepoSpec(src, p, fnmatch).value;
      forall y :: y in RequiredItems(p, ScanStates(src, p), src.files).value ==>
        (y in rep.structureQueue <==> GlobAny(fnmatch, y.path, p.structureGlobs))
        && (y in rep.logicQueue <==> !GlobAny(fnmatch, y.path, p.structureGlobs))
  {
    ScanRepoItems(src, p, fnmatch);
    var items := RequiredItems(p, ScanStates(src, p), src.files).value;
    FilterPartition(items, IsStructure(fnmatch, p.structureGlobs), IsLogic(fnmatch, p.structureGlobs));
    forall y | y in items
      ensures y in Filter(items, IsStructure(fnmatch, p.structureGlobs)) <==> GlobAny(fnmatch, y.path, p.structureGlobs)
      ensures y in Filter(items, IsLogic(fnmatch, p.structureGlobs)) <==> !GlobAny(fnmatch, y.path, p.structureGlobs)
    {
      FilterMembers(items, IsStructure(fnmatch, p.structureGlobs), y);
      FilterMembers(items, IsLogic(fnmatch, p.structureGlobs), y);
    }
  }

  /**
   * Each required path yields at most one item: the paths in each queue
   * follow the order of the required map without repeats, and no path is
   * in both queues.
   */
  lemma ScanRepoOnePerPath(src: RepoSource, p: Policy, fnmatch: Matcher)
    requires ScanRepoSpec(src, p, fnmatch).Ok?
    ensures var rep := ScanRepoSpec(src, p, fnmatch).value;
      && IsSubsequence(Map(rep.structureQueue, PathOf), Maps.Keys(BuildRequiredMap(p)))
      && IsSubsequence(Map(rep.logicQueue, PathOf), Maps.Keys(BuildRequiredMap(p)))
      && Distinct(Map(rep.structureQueue, PathOf)) && Distinct(Map(rep.logicQueue, PathOf))
      && forall j, k :: 0 <= j < |rep.structureQueue| && 0 <= k < |rep.logicQueue| ==> rep.structureQueue[j].path != rep.logicQueue[k].path
  {
    ScanRepoItems(src, p, fnmatch);
    ScanRepoRouting(src, p, fnmatch);
    var states := ScanStates(src, p);
    var items := RequiredItems(p, states, src.files).value;
    var keys := Maps.Keys(BuildRequiredMap(p));
    ItemsFollowKeys(BuildRequiredMap(p), p, states, src.files);
    SubsequenceDistinct(Map(items, PathOf), keys);
    var routes := [IsStructure(fnmatch, p.structureGlobs), IsLogic(fnmatch, p.structureGlobs)];
    forall q | q in routes
      ensures IsSubsequence(Map(Filter(items, q), PathOf), keys) && Distinct(Map(Filter(items, q), PathOf))
    {
      FilterMapSubsequence(items, q, PathOf);
      SubsequenceDistinct(Map(Filter(items, q), PathOf), Map(items, PathOf));
      SubsequenceTransitive(Map(Filter(items, q), PathOf), Map(items, PathOf), keys);
    }
    assert routes[0] in routes && routes[1] in routes;
  }

  /** Every queued item carries the policy's targets, the spec's secrets and risk 1.5. */
  lemma ScanRepoItemFields(src: RepoSource, p: Policy, fnmatch: Matcher, y: QueueItem)
    requires ScanRepoSpec(src, p, fnmatch).Ok?
    requires y in ScanRepoSpec(src, p, fnmatch).value.structureQueue || y in ScanRepoSpec(src, p, fnmatch).value.logicQueue
    ensures y.wantedEpoch == p.policyEpoch && y.wantedVersion == WantedVersion(p) && y.riskScore == 1.5
    ensures y.action != Triage && (y.action == Add <==> y.reason == MissingRequired) && (y.action == Add <==> y.metaFound.None?)
    ensures exists kv :: kv in BuildRequiredMap(p) && kv.0 == y.path && y.dependsOnSecrets == Depends(kv.1)
  {
    ScanRepoItems(src, p, fnmatch);
    var states := ScanStates(src, p);
    var items := RequiredItems(p, states, src.files).value;
    FilterMembers(items, IsStructure(fnmatch, p.structureGlobs), y);
    FilterMembers(items, IsLogic(fnmatch, p.structureGlobs), y);
    ItemOrigin(p, states, src.files, y);
  }

  /**
   * A required path that is neither in the index nor fetchable as non-empty
   * text is queued as an `add` for `missing_required`, with no meta.
   */
  lemma ScanRepoMissing(src: RepoSource, p: Policy, fnmatch: Matcher, i: nat)
    requires ScanRepoSpec(src, p, fnmatch).Ok?
    requires i < |BuildRequiredMap(p)|
    requires BuildRequiredMap(p)[i].0 !in ScanStates(src, p) && !HasText(src, BuildRequiredMap(p)[i].0)
    ensures var kv := BuildRequiredMap(p)[i];
      var rep := ScanRepoSpec(src, p, fnmatch).value;
      var y := MakeItem(p, kv.0, Add, MissingRequired, None, Depends(kv.1));
      y in rep.structureQueue + rep.logicQueue
  {
    ScanRepoItems(src, p, fnmatch);
    var states := ScanStates(src, p);
    var req := BuildRequiredMap(p);
    var step := PathStep(p, states, src.files);
    ConcatResultsContains(req, step, i);
    var y := MakeItem(p, req[i].0, Add, MissingRequired, None, Depends(req[i].1));
    assert step(req[i]).value == [y];
    ScanRepoRouting(src, p, fnmatch);
  }

  /** `index_present` is set exactly when an index-first scan finds a signed index. */
  lemma ScanRepoIndexPresent(src: RepoSource, p: Policy, fnmatch: Matcher)
    requires ScanRepoSpec(src, p, fnmatch).Ok?
    ensures ScanRepoSpec(src, p, fnmatch).value.indexPresent <==>
      p.indexFirst && HasText(src, IndexPath) && src.indexJson.Object? && src.indexJson.sig == Some(IndexSig)
    ensures !ScanRepoSpec(src, p, fnmatch).value.indexPresent ==> ScanStates(src, p) == map[]
  {
    ScanRepoItems(src, p, fnmatch);
  }

  // ---------------------------------------------------------------- list_org_repos

  /** One page of `/orgs/{org}/repos`; `Page([])` is an empty answer. */
  datatype PageResponse = PageFailed | Page(repos: seq<RepoSource>)

  /** The listing pages of an organisation, page 1 first; pages past the end answer empty. */
  datatype OrgSource = OrgSource(name: string, pages: seq<PageResponse>)

  /** `list_org_repos` stops after this many pages. */
  const MaxPages := 10

  function PageAt(o: OrgSource, page: nat): PageResponse {
    if 1 <= page <= |o.pages| then o.pages[page - 1] else Page([])
  }

  /** Prefixes the repositories already collected to the outcome of the remaining pages. */
  function Prepend(acc: seq<RepoSource>, rest: Result<seq<RepoSource>, ScanError>): Result<seq<RepoSource>, ScanError> {
    match rest
    case Err(e) => Err(e)
    case Ok(rs) => Ok(acc + rs)
  }

  /** The repositories of pages `page` onwards, up to page 10 or the first empty page. */
  function ListFrom(o: OrgSource, page: nat): Result<seq<RepoSource>, ScanError>
    requires 1 <= page <= MaxPages
    decreases MaxPages - page
  {
    match PageAt(o, page)
    case PageFailed => Err(OrgListingFailed(o.name))
    case Page(batch) =>
      if batch == [] then Ok([])
      else if page == MaxPages then Ok(batch)
      else Prepend(batch, ListFrom(o, page + 1))
  }

  function ListOrgReposSpec(o: OrgSource): Result<seq<RepoSource>, ScanError> {
    ListFrom(o, 1)
  }

  /** `list_org_repos`: fetches page after page until one is empty or ten have been read. */
  method ListOrgRepos(o: OrgSource) returns (r: Result<seq<RepoSource>, ScanError>)
    ensures r == ListOrgReposSpec(o)
  {
    var repos: seq<RepoSource> := [];
    var page: nat := 1;
    assert Prepend(repos, ListFrom(o, page)) == ListFrom(o, page) by {
      if ListFrom(o, page).Ok? {
        assert [] + ListFrom(o, page).value == ListFrom(o, page).value;
      }
    }
    while true
      invariant 1 <= page <= MaxPages
      invariant ListOrgReposSpec(o) == Prepend(repos, ListFrom(o, page))
      decreases MaxPages - page
    {
      var batch := PageAt(o, page);
      if batch.PageFailed? {
        return Err(OrgListingFailed(o.name));
      }
      if batch.repos == [] {
        assert repos + [] == repos;
        return Ok(repos);
      }
      var rest := if page == MaxPages then Ok([]) else ListFrom(o, page + 1);
      assert ListFrom(o, page) == Prepend(batch.repos, rest) by {
        assert batch.repos + [] == batch.repos;
      }
      PrependTwice(repos, batch.repos, rest);
      repos := repos + batch.repos;
      page := page + 1;
      if page > MaxPages {
        assert ListOrgReposSpec(o) == Prepend(repos, Ok([]));
        assert repos + [] == repos;
        return Ok(repos);
      }
    }
  }

  lemma PrependTwice(a: seq<RepoSource>, b: seq<RepoSource>, rest: Result<seq<RepoSource>, ScanError>)
    ensures Prepend(a, Prepend(b, rest)) == Prepend(a + b, rest)
  {
    if rest.Ok? {
      assert a + (b + rest.value) == (a + b) + rest.value;
    }
  }

  /** Pages that each hold at most `per` repositories give at most `per` per page read. */
  lemma {:induction false} ListFromBounded(o: OrgSource, page: nat, per: nat)
    requires 1 <= page <= MaxPages
    requires forall i :: 0 <= i < |o.pages| && o.pages[i].Page? ==> |o.pages[i].repos| <= per
    requires ListFrom(o, page).Ok?
    ensures |ListFrom(o, page).value| <= (MaxPages + 1 - page) * per
    decreases MaxPages - page
  {
    var batch := PageAt(o, page).repos;
    assert |batch| <= per;
    if batch != [] && page < MaxPages {
      ListFromBounded(o, page + 1, per);
      var k := MaxPages - page;
      assert (k + 1) * per == per + k * per;
    } else {
      var k := MaxPages - page;
      assert (k + 1) * per == per + k * per;
    }
  }

  /** With the 100 repositories a page holds, a listing never exceeds 1000 repositories. */
  lemma ListingAtMostThousand(o: OrgSource)
    requires forall i :: 0 <= i < |o.pages| && o.pages[i].Page? ==> |o.pages[i].repos| <= 100
    requires ListOrgReposSpec(o).Ok?
    ensures |ListOrgReposSpec(o).value| <= 1000
  {
    ListFromBounded(o, 1, 100);
  }

  /** Every listed repository is on one of the first ten pages. */
  lemma {:induction false} ListFromMembers(o: OrgSource, page: nat, src: RepoSource)
    requires 1 <= page <= MaxPages
    requires ListFrom(o, page).Ok? && src in ListFrom(o, page).value
    ensures exists k :: page <= k <= MaxPages && PageAt(o, k).Page? && src in PageAt(o, k).repos
    decreases MaxPages - page
  {
    if src !in PageAt(o, page).repos {
      ListFromMembers(o, page + 1, src);
    }
  }

  /**
   * The listing stops at the first empty page: two organisations whose pages
   * agree up to an empty page list the same repositories.
   */
  lemma {:induction false} ListFromStopsAtEmpty(o1: OrgSource, o2: OrgSource, page: nat, last: nat)
    requires 1 <= page <= last <= MaxPages && o1.name == o2.name
    requires forall k :: page <= k <= last ==> PageAt(o1, k) == PageAt(o2, k)
    requires PageAt(o1, last) == Page([])
    ensures ListFrom(o1, page) == ListFrom(o2, page)
    decreases MaxPages - page
  {
    if page < last {
      ListFromStopsAtEmpty(o1, o2, page + 1, last);
    }
  }

  // ---------------------------------------------------------------- scan_org

  datatype Status = Pending | TriageStatus

  /** An entry of the fix queue. */
  datatype FixItem = FixItem(
    repo: string,
    path: string,
    action: Action,
    reason: Reason,
    wantedEpoch: int,
    wantedVersion: string,
    status: Status,
    lastAttemptUtc: Option<string>,
    riskScore: real)

  const FixQueueSig := "fixqueue:v1"
  const OrgScanSig := "orgscan:v4"

  datatype FixQueue = FixQueue(sig: string, items: seq<FixItem>)

  /** The report `scan_org` returns. */
  datatype OrgReport = OrgReport(
    sig: string,
    generatedUtc: string,
    policyEpoch: int,
    repos: seq<ScanReport>,
    fixQueue: FixQueue)

  /** A structure-queue item keeps its action and waits as `pending`. */
  function StructureFix(repo: string, it: QueueItem): FixItem {
    FixItem(repo, it.path, it.action, it.reason, it.wantedEpoch, it.wantedVersion, Pending, None, it.riskScore)
  }

  /** A logic-queue item is only ever queued for triage. */
  function LogicFix(repo: string, it: QueueItem): FixItem {
    FixItem(repo, it.path, Triage, it.reason, it.wantedEpoch, it.wantedVersion, TriageStatus, None, it.riskScore)
  }

  /** The fix items one repository report contributes: its structure queue, then its logic queue. */
  function FixItemsOf(rep: ScanReport): seq<FixItem> {
    Map(rep.structureQueue, (it: QueueItem) => StructureFix(rep.repo, it))
      + Map(rep.logicQueue, (it: QueueItem) => LogicFix(rep.repo, it))
  }

  function AllFixItems(reps: seq<ScanReport>): seq<FixItem> {
    if reps == [] then [] else AllFixItems(reps[..|reps| - 1]) + FixItemsOf(reps[|reps| - 1])
  }

  /** The number of items in the queues of the reports. */
  function QueuedCount(reps: seq<ScanReport>): nat {
    if reps == [] then 0
    else QueuedCount(reps[..|reps| - 1]) + |reps[|reps| - 1].structureQueue| + |reps[|reps| - 1].logicQueue|
  }

  /** The two appending loops of one repository. */
  method AppendFixItems(items: seq<FixItem>, rep: ScanReport) returns (r: seq<FixItem>)
    ensures r == items + FixItemsOf(rep)
  {
    r := items;
    for j := 0 to |rep.structureQueue|
      invariant r == items + Map(rep.structureQueue[..j], (it: QueueItem) => StructureFix(rep.repo, it))
    {
      r := r + [StructureFix(rep.repo, rep.structureQueue[j])];
    }
    assert rep.structureQueue[..|rep.structureQueue|] == rep.structureQueue;
    var mid := r;
    for j := 0 to |rep.logicQueue|
      invariant r == mid + Map(rep.logicQueue[..j], (it: QueueItem) => LogicFix(rep.repo, it))
    {
      r := r + [LogicFix(rep.repo, rep.logicQueue[j])];
    }
    assert rep.logicQueue[..|rep.logicQueue|] == rep.logicQueue;
  }

  /** An excluded repository is skipped; any other is scanned, or its exception escapes. */
  function RepoStep(p: Policy, fnmatch: Matcher): RepoSource -> Result<seq<ScanReport>, ScanError> {
    (src: RepoSource) =>
      if GlobAny(fnmatch, src.fullName, p.excludeRepoGlobs) then Ok([])
      else
        match ScanRepoSpec(src, p, fnmatch)
        case Err(e) => Err(e)
        case Ok(rep) => Ok([rep])
  }

  /** One organisation: its listing, then its repositories in listing order. */
  function OrgStep(p: Policy, fnmatch: Matcher): OrgSource -> Result<seq<ScanReport>, ScanError> {
    (o: OrgSource) =>
      match ListOrgReposSpec(o)
      case Err(e) => Err(e)
      case Ok(repos) => ConcatResults(repos, RepoStep(p, fnmatch))
  }

  /** `scan_org`, as a value: the report, or the exception that escapes. */
  function ScanOrgSpec(orgs: seq<OrgSource>, p: Policy, fnmatch: Matcher, now: string): Result<OrgReport, ScanError> {
    match ConcatResults(orgs, OrgStep(p, fnmatch))
    case Err(e) => Err(e)
    case Ok(reps) => Ok(OrgReport(OrgScanSig, now, p.policyEpoch, reps, FixQueue(FixQueueSig, AllFixItems(reps))))
  }

  lemma AllFixItemsSnoc(reps: seq<ScanReport>, rep: ScanReport)
    ensures AllFixItems(reps + [rep]) == AllFixItems(reps) + FixItemsOf(rep)
  {
    assert (reps + [rep])[..|reps|] == reps;
  }

  /** One turn of the repository loop: skipped when excluded, scanned otherwise. */
  method RepoTurn(src: RepoSource, p: Policy, fnmatch: Matcher) returns (r: Result<seq<ScanReport>, ScanError>)
    ensures r == RepoStep(p, fnmatch)(src)
    ensures r.Ok? ==> |r.value| <= 1
  {
    if GlobAny(fnmatch, src.fullName, p.excludeRepoGlobs) {
      return Ok([]);
    }
    var rep := ScanRepo(src, p, fnmatch);
    if rep.Err? {
      return Err(rep.error);
    }
    return Ok([rep.value]);
  }

  /** The fix items of a turn's reports appended to those of the reports before it. */
  method AppendTurnItems(reps: seq<ScanReport>, items: seq<FixItem>, turn: seq<ScanReport>) returns (r: seq<FixItem>)
    requires items == AllFixItems(reps) && |turn| <= 1
    ensures r == AllFixItems(reps + turn)
  {
    if turn == [] {
      assert reps + turn == reps;
      return items;
    }
    AllFixItemsSnoc(reps, turn[0]);
    assert reps + turn == reps + [turn[0]];
    r := AppendFixItems(items, turn[0]);
  }

  /** The repository loop of one organisation: its reports, and the fix items they append. */
  method ScanRepos(repos: seq<RepoSource>, p: Policy, fnmatch: Matcher)
    returns (r: Result<(seq<ScanReport>, seq<FixItem>), ScanError>)
    ensures r == match ConcatResults(repos, RepoStep(p, fnmatch))
      case Err(e) => Err(e)
      case Ok(reps) => Ok((reps, AllFixItems(reps)))
  {
    ghost var step := RepoStep(p, fnmatch);
    var reps: seq<ScanReport> := [];
    var items: seq<FixItem> := [];
    for j := 0 to |repos|
      invariant ConcatResults(repos[..j], step) == Ok(reps)
      invariant items == AllFixItems(reps)
    {
      ConcatResultsStep(repos, j, step);
      var turn := RepoTurn(repos[j], p, fnmatch);
      if turn.Err? {
        ConcatResultsErrStays(repos, j + 1, step);
        return Err(turn.error);
      }
      items := AppendTurnItems(reps, items, turn.value);
      reps := reps + turn.value;
    }
    assert repos[..|repos|] == repos;
    return Ok((reps, items));
  }

  lemma {:induction false} AllFixItemsAppend(a: seq<ScanReport>, b: seq<ScanReport>)
    ensures AllFixItems(a + b) == AllFixItems(a) + AllFixItems(b)
    decreases |b|
  {
    if b == [] {
      assert a + b == a;
    } else {
      var init, last := b[..|b| - 1], b[|b| - 1];
      assert (a + b)[..|a + b| - 1] == a + init;
      assert (a + b)[|a + b| - 1] == last;
      AllFixItemsAppend(a, init);
      assert AllFixItems(a + b) == AllFixItems(a + init) + FixItemsOf(last);
      assert AllFixItems(b) == AllFixItems(init) + FixItemsOf(last);
    }
  }

  /** `scan_org`: every organisation's listing, then every repository not excluded, in order. */
  method ScanOrg(orgs: seq<OrgSource>, p: Policy, fnmatch: Matcher, now: string) returns (r: Result<OrgReport, ScanError>)
    ensures r == ScanOrgSpec(orgs, p, fnmatch, now)
  {
    var step := OrgStep(p, fnmatch);
    var reps: seq<ScanReport> := [];
    var items: seq<FixItem> := [];
    for i := 0 to |orgs|
      invariant ConcatResults(orgs[..i], step) == Ok(reps)
      invariant items == AllFixItems(reps)
    {
      ConcatResultsStep(orgs, i, step);
      var repos := ListOrgRepos(orgs[i]);
      if repos.Err? {
        ConcatResultsErrStays(orgs, i + 1, step);
        return Err(repos.error);
      }
      var scanned := ScanRepos(repos.value, p, fnmatch);
      if scanned.Err? {
        ConcatResultsErrStays(orgs, i + 1, step);
        return Err(scanned.error);
      }
      AllFixItemsAppend(reps, scanned.value.0);
      reps, items := reps + scanned.value.0, items + scanned.value.1;
    }
    assert orgs[..|orgs|] == orgs;
    return Ok(OrgReport(OrgScanSig, now, p.policyEpoch, reps, FixQueue(FixQueueSig, items)));
  }

  // ---------------------------------------------------------------- scan_org facts

  /** What one repository's turn of the loop gives. */
  lemma RepoStepCases(p: Policy, fnmatch: Matcher, src: RepoSource)
    ensures GlobAny(fnmatch, src.fullName, p.excludeRepoGlobs) ==> RepoStep(p, fnmatch)(src) == Ok([])
    ensures !GlobAny(fnmatch, src.fullName, p.excludeRepoGlobs) && ScanRepoSpec(src, p, fnmatch).Ok? ==>
      RepoStep(p, fnmatch)(src) == Ok([ScanRepoSpec(src, p, fnmatch).value])
    ensures RepoStep(p, fnmatch)(src).Err? <==>
      !GlobAny(fnmatch, src.fullName, p.excludeRepoGlobs) && ScanRepoSpec(src, p, fnmatch).Err?
  {
  }

  /** Whether an organisation's turn raises: its listing fails, or the scan of a repository it does not exclude. */
  predicate OrgFails(o: OrgSource, p: Policy, fnmatch: Matcher) {
    match ListOrgReposSpec(o)
    case Err(_) => true
    case Ok(repos) =>
      exists j :: 0 <= j < |repos| && !GlobAny(fnmatch, repos[j].fullName, p.excludeRepoGlobs)
        && ScanRepoSpec(repos[j], p, fnmatch).Err?
  }

  /**
   * There is no isolation of failures: the whole scan raises exactly when
   * some organisation's listing fails or some repository it does not
   * exclude fails to scan.
   */
  lemma ScanOrgErrIff(orgs: seq<OrgSource>, p: Policy, fnmatch: Matcher, now: string)
    ensures ScanOrgSpec(orgs, p, fnmatch, now).Err? <==> exists i :: 0 <= i < |orgs| && OrgFails(orgs[i], p, fnmatch)
  {
    var step := OrgStep(p, fnmatch);
    ConcatResultsErrIff(orgs, step);
    forall o: OrgSource
      ensures step(o).Err? <==> OrgFails(o, p, fnmatch)
    {
      var listing := ListOrgReposSpec(o);
      if listing.Ok? {
        ConcatResultsErrIff(listing.value, RepoStep(p, fnmatch));
        forall src | src in listing.value {
          RepoStepCases(p, fnmatch, src);
        }
      }
    }
  }

  /** Every repository that a successful scan lists and does not exclude has its report in the result. */
  lemma ScanOrgCovers(orgs: seq<OrgSource>, p: Policy, fnmatch: Matcher, now: string, i: nat, j: nat)
    requires ScanOrgSpec(orgs, p, fnmatch, now).Ok? && i < |orgs|
    ensures ListOrgReposSpec(orgs[i]).Ok?
    ensures j < |ListOrgReposSpec(orgs[i]).value| && !GlobAny(fnmatch, ListOrgReposSpec(orgs[i]).value[j].fullName, p.excludeRepoGlobs) ==>
      var src := ListOrgReposSpec(orgs[i]).value[j];
      ScanRepoSpec(src, p, fnmatch).Ok? && ScanRepoSpec(src, p, fnmatch).value in ScanOrgSpec(orgs, p, fnmatch, now).value.repos
  {
    var step := OrgStep(p, fnmatch);
    ConcatResultsContains(orgs, step, i);
    var listing := ListOrgReposSpec(orgs[i]);
    assert listing.Ok?;
    if j < |listing.value| && !GlobAny(fnmatch, listing.value[j].fullName, p.excludeRepoGlobs) {
      var src := listing.value[j];
      ConcatResultsContains(listing.value, RepoStep(p, fnmatch), j);
      RepoStepCases(p, fnmatch, src);
      var rep := ScanRepoSpec(src, p, fnmatch).value;
      assert rep in RepoStep(p, fnmatch)(src).value;
    }
  }

  /** `rep` is the report of `src`, a repository `o` lists and the policy does not exclude. */
  predicate ScannedFrom(o: OrgSource, src: RepoSource, p: Policy, fnmatch: Matcher, rep: ScanReport) {
    ListOrgReposSpec(o).Ok? && src in ListOrgReposSpec(o).value
    && !GlobAny(fnmatch, src.fullName, p.excludeRepoGlobs) && ScanRepoSpec(src, p, fnmatch) == Ok(rep)
  }

  /** Every report comes from a listed repository that is not excluded. */
  lemma ScanOrgReportOrigin(orgs: seq<OrgSource>, p: Policy, fnmatch: Matcher, now: string, rep: ScanReport)
    requires ScanOrgSpec(orgs, p, fnmatch, now).Ok? && rep in ScanOrgSpec(orgs, p, fnmatch, now).value.repos
    ensures exists i, src :: 0 <= i < |orgs| && ScannedFrom(orgs[i], src, p, fnmatch, rep)
  {
    var step := OrgStep(p, fnmatch);
    ConcatResultsFrom(orgs, step, rep);
    var i :| 0 <= i < |orgs| && step(orgs[i]).Ok? && rep in step(orgs[i]).value;
    var listing := ListOrgReposSpec(orgs[i]).value;
    ConcatResultsFrom(listing, RepoStep(p, fnmatch), rep);
    var j :| 0 <= j < |listing| && RepoStep(p, fnmatch)(listing[j]).Ok? && rep in RepoStep(p, fnmatch)(listing[j]).value;
    RepoStepCases(p, fnmatch, listing[j]);
    assert ScannedFrom(orgs[i], listing[j], p, fnmatch, rep);
  }

  /** The fix queue holds one item per queued item of every report. */
  lemma {:induction false} FixQueueCount(reps: seq<ScanReport>)
    ensures |AllFixItems(reps)| == QueuedCount(reps)
  {
    if reps != [] {
      FixQueueCount(reps[..|reps| - 1]);
    }
  }

  /** `f` is the fix item of `it`, an item of one of `rep`'s queues. */
  predicate FixFrom(rep: ScanReport, it: QueueItem, f: FixItem) {
    (it in rep.structureQueue && f == StructureFix(rep.repo, it))
    || (it in rep.logicQueue && f == LogicFix(rep.repo, it))
  }

  /** Every fix item comes from a queue item of some report. */
  lemma {:induction false} FixItemOrigin(reps: seq<ScanReport>, f: FixItem)
    requires f in AllFixItems(reps)
    ensures exists k, it :: 0 <= k < |reps| && FixFrom(reps[k], it, f)
  {
    var n := |reps| - 1;
    if f in AllFixItems(reps[..n]) {
      FixItemOrigin(reps[..n], f);
      var k, it :| 0 <= k < n && FixFrom(reps[..n][k], it, f);
      assert reps[..n][k] == reps[k];
    } else {
      var rep := reps[n];
      var sq := Map(rep.structureQueue, (it: QueueItem) => StructureFix(rep.repo, it));
      if f in sq {
        var j :| 0 <= j < |sq| && sq[j] == f;
        assert FixFrom(reps[n], rep.structureQueue[j], f);
      } else {
        var lq := Map(rep.logicQueue, (it: QueueItem) => LogicFix(rep.repo, it));
        var j :| 0 <= j < |lq| && lq[j] == f;
        assert FixFrom(reps[n], rep.logicQueue[j], f);
      }
    }
  }

  /**
   * Every fix item of a successful scan waits untried, is for triage exactly
   * when its status is `triage`, and carries the policy's targets and the
   * stale-item risk; each names a scanned repository.
   */
  lemma ScanOrgFixItems(orgs: seq<OrgSource>, p: Policy, fnmatch: Matcher, now: string, f: FixItem)
    requires ScanOrgSpec(orgs, p, fnmatch, now).Ok? && f in ScanOrgSpec(orgs, p, fnmatch, now).value.fixQueue.items
    ensures f.lastAttemptUtc.None? && (f.status == TriageStatus <==> f.action == Triage)
    ensures f.wantedEpoch == p.policyEpoch && f.wantedVersion == WantedVersion(p) && f.riskScore == 1.5
    ensures exists rep :: rep in ScanOrgSpec(orgs, p, fnmatch, now).value.repos && rep.repo == f.repo
  {
    var reps := ScanOrgSpec(orgs, p, fnmatch, now).value.repos;
    FixItemOrigin(reps, f);
    var k, it :| 0 <= k < |reps| && FixFrom(reps[k], it, f);
    ScanOrgReportOrigin(orgs, p, fnmatch, now, reps[k]);
    var i, src :| 0 <= i < |orgs| && ScannedFrom(orgs[i], src, p, fnmatch, reps[k]);
    ScannedItemFix(orgs[i], src, p, fnmatch, reps[k], it, f);
  }

  lemma ScannedItemFix(o: OrgSource, src: RepoSource, p: Policy, fnmatch: Matcher, rep: ScanReport, it: QueueItem, f: FixItem)
    requires ScannedFrom(o, src, p, fnmatch, rep) && FixFrom(rep, it, f)
    ensures f.lastAttemptUtc.None? && (f.status == TriageStatus <==> f.action == Triage)
    ensures f.wantedEpoch == p.policyEpoch && f.wantedVersion == WantedVersion(p) && f.riskScore == 1.5
    ensures f.repo == rep.repo
  {
    ScanRepoItemFields(src, p, fnmatch, it);
  }
}
