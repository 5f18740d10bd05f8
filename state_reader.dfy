/**
 * The state snapshot reader (scripts/state_reader.py): reads the event log,
 * keeps the first-aid events of the SCW namespace, keeps the latest event
 * of each workflow, and summarises them as four bucket counts and one table
 * row per workflow, in name order.
 *
 * The log file is its lines; `json.loads` is a parameter. Only the fields
 * the reader looks at are part of an event. The Markdown text itself is
 * not modelled: the snapshot is its counts and its rows.
 */
module StateReader {
  import opened Wrappers
  import opened Strings
  import opened Sequences

  /** One event object; `None` is a key that is absent or null. */
  datatype Record = Record(
    ts: Option<string>,
    namespace: Option<string>,
    kind: Option<string>,
    status: Option<string>,
    errorType: Option<string>,
    resourceName: Option<string>,
    postChecksum: Option<string>,
    labels: seq<string>,
    runId: Option<string>)   // `meta.run_id`

  /** `json.loads` of one stripped line. */
  datatype Parsed = NotJson | NotObject | Object(rec: Record)

  datatype EventFile = Missing | Lines(lines: seq<string>)

  // ---------------------------------------------------------------- _load_events

  /** The event one line contributes: none for a blank line, bad JSON or a non-object. */
  function LoadLine(parse: string -> Parsed, line: string): Option<Record> {
    var t := Strip(line);
    if t == "" then None
    else
      match parse(t)
      case Object(r) => Some(r)
      case _ => None
  }

  function Loader(parse: string -> Parsed): string -> Option<Record> {
    (line: string) => LoadLine(parse, line)
  }

  function LoadEventsSpec(file: EventFile, parse: string -> Parsed): seq<Record> {
    match file
    case Missing => []
    case Lines(lines) => Somes(lines, Loader(parse))
  }

  /** `_load_events`. */
  method LoadEvents(file: EventFile, parse: string -> Parsed) returns (events: seq<Record>)
    ensures events == LoadEventsSpec(file, parse)
  {
    if file.Missing? {
      return [];
    }
    var lines := file.lines;
    events := [];
    for i := 0 to |lines|
      invariant events == Somes(lines[..i], Loader(parse))
    {
      assert lines[..i + 1][..i] == lines[..i];
      var line := Strip(lines[i]);
      if line == "" {
        continue;
      }
      var obj := parse(line);
      if obj.Object? {
        events := events + [obj.rec];
      }
    }
    assert lines[..|lines|] == lines;
  }

  /** A blank, unparsable or non-object line is skipped wherever it stands. */
  lemma LoadSkipsLine(a: seq<string>, line: string, b: seq<string>, parse: string -> Parsed)
    requires LoadLine(parse, line).None?
    ensures LoadEventsSpec(Lines(a + [line] + b), parse) == LoadEventsSpec(Lines(a + b), parse)
  {
    var f := Loader(parse);
    SomesAppend(a + [line], b, f);
    SomesAppend(a, [line], f);
    SomesAppend(a, b, f);
    assert Somes([line], f) == [] by {
      assert [line][..0] == [];
    }
  }

  /** An object line is kept, after what the lines before it gave and before what the lines after it give. */
  lemma LoadKeepsObject(a: seq<string>, line: string, b: seq<string>, parse: string -> Parsed)
    requires LoadLine(parse, line).Some?
    ensures LoadEventsSpec(Lines(a + [line] + b), parse)
      == LoadEventsSpec(Lines(a), parse) + [LoadLine(parse, line).value] + LoadEventsSpec(Lines(b), parse)
  {
    var f := Loader(parse);
    SomesAppend(a + [line], b, f);
    SomesAppend(a, [line], f);
    assert Somes([line], f) == [LoadLine(parse, line).value] by {
      assert [line][..0] == [];
    }
  }

  /** Every loaded event is the object of some line, and every object line's event is loaded. */
  lemma LoadedMembers(lines: seq<string>, parse: string -> Parsed, r: Record)
    ensures r in LoadEventsSpec(Lines(lines), parse) <==> exists i :: 0 <= i < |lines| && LoadLine(parse, lines[i]) == Some(r)
  {
    SomesMembers(lines, Loader(parse), r);
  }

  // ---------------------------------------------------------------- _filter_scw_workflow_events

  predicate IsScwWorkflow(ev: Record) {
    ev.namespace == Some("SCW") && ev.kind == Some("workflow_first_aid")
  }

  /** `_filter_scw_workflow_events`. */
  method FilterScwWorkflowEvents(events: seq<Record>) returns (out: seq<Record>)
    ensures out == Filter(events, IsScwWorkflow)
  {
    out := [];
    for i := 0 to |events|
      invariant out == Filter(events[..i], IsScwWorkflow)
    {
      assert events[..i + 1][..i] == events[..i];
      if events[i].namespace != Some("SCW") {
        continue;
      }
      if events[i].kind != Some("workflow_first_aid") {
        continue;
      }
      out := out + [events[i]];
    }
    assert events[..|events|] == events;
  }

  /** The filter keeps exactly the SCW first-aid events, in their order. */
  lemma FilterScwKeepsExactly(events: seq<Record>)
    ensures IsSubsequence(Filter(events, IsScwWorkflow), events)
    ensures forall ev :: ev in Filter(events, IsScwWorkflow) <==> ev in events && IsScwWorkflow(ev)
  {
    FilterIsSubsequence(events, IsScwWorkflow);
    forall ev {
      FilterMembers(events, IsScwWorkflow, ev);
    }
  }

  // ---------------------------------------------------------------- _build_latest_by_workflow

  /** `_parse_ts(ev.get("ts"))`. */
  function TsOf(ev: Record): string {
    ev.ts.GetOr("")
  }

  /** Events whose `resource_name` is missing or empty are ignored. */
  predicate Named(ev: Record) {
    ev.resourceName.Some? && ev.resourceName.value != ""
  }

  /** One turn of the loop: a new name is taken, a known one replaced only by a strictly later `ts`. */
  function Observe(latest: map<string, Record>, ev: Record): map<string, Record> {
    if !Named(ev) then latest
    else
      var name := ev.resourceName.value;
      if name !in latest then latest[name := ev]
      else if Less(TsOf(latest[name]), TsOf(ev)) then latest[name := ev]
      else latest
  }

  function Latest(events: seq<Record>): map<string, Record> {
    if events == [] then map[] else Observe(Latest(events[..|events| - 1]), events[|events| - 1])
  }

  /** `_build_latest_by_workflow`. */
  method BuildLatestByWorkflow(events: seq<Record>) returns (latest: map<string, Record>)
    ensures latest == Latest(events)
  {
    latest := map[];
    for i := 0 to |events|
      invariant latest == Latest(events[..i])
    {
      assert events[..i + 1][..i] == events[..i];
      var ev := events[i];
      var name := ev.resourceName;
      if name.None? || name.value == "" {
        continue;
      }
      var ts := TsOf(ev);
      if name.value !in latest {
        latest := latest[name.value := ev];
        continue;
      }
      var oldTs := TsOf(latest[name.value]);
      if Less(oldTs, ts) {
        latest := latest[name.value := ev];
      }
    }
    assert events[..|events|] == events;
  }

  /** The names of the events that are not ignored. */
  function NamesIn(events: seq<Record>): set<string> {
    set i | 0 <= i < |events| && Named(events[i]) :: events[i].resourceName.value
  }

  /** The map's keys are exactly the names that appear. */
  lemma {:induction false} LatestKeys(events: seq<Record>)
    ensures Latest(events).Keys == NamesIn(events)
  {
    if events != [] {
      var init := events[..|events| - 1];
      LatestKeys(init);
      assert forall i :: 0 <= i < |init| ==> init[i] == events[i];
      var last := events[|events| - 1];
      if Named(last) {
        assert NamesIn(events) == NamesIn(init) + {last.resourceName.value};
      } else {
        assert NamesIn(events) == NamesIn(init);
      }
    }
  }

  /**
   * The kept event of a name is, among the events of that name, the first
   * whose `ts` is greatest: no event of the name has a later `ts`, and every
   * earlier one has a strictly earlier `ts`.
   */
  predicate FirstLatest(events: seq<Record>, name: string, j: nat) {
    j < |events| && events[j].resourceName == Some(name)
    && (forall i :: 0 <= i < |events| && events[i].resourceName == Some(name) ==> !Less(TsOf(events[j]), TsOf(events[i])))
    && (forall i :: 0 <= i < j && events[i].resourceName == Some(name) ==> Less(TsOf(events[i]), TsOf(events[j])))
  }

  lemma {:induction false} LatestIsFirstLatest(events: seq<Record>, name: string)
    requires name in Latest(events)
    ensures exists j: nat :: FirstLatest(events, name, j) && Latest(events)[name] == events[j]
  {
    assert events != [];
    var n := |events| - 1;
    var init, last := events[..n], events[n];
    var before := Latest(init);
    if Named(last) && last.resourceName.value == name && (name !in before || Less(TsOf(before[name]), TsOf(last))) {
      if name in before {
        LatestIsFirstLatest(init, name);
        var j: nat :| FirstLatest(init, name, j) && before[name] == init[j];
        LaterReplaces(events, name, j);
      } else {
        FirstOfName(events, name);
      }
    } else {
      assert Latest(events) == Observe(before, last);
      LatestKeys(events);
      assert name != "";
      assert name in before;
      LatestIsFirstLatest(init, name);
      var j: nat :| FirstLatest(init, name, j) && before[name] == init[j];
      assert init[j] == events[j];
      NotLaterKeeps(events, name, j);
    }
  }

  lemma NamedIn(events: seq<Record>, i: nat)
    requires i < |events| && Named(events[i])
    ensures events[i].resourceName.value in NamesIn(events)
  {
  }

  /** A last event of the name with a strictly later `ts` than the earlier first latest one becomes the first latest. */
  lemma LaterReplaces(events: seq<Record>, name: string, j: nat)
    requires events != [] && FirstLatest(events[..|events| - 1], name, j)
    requires events[|events| - 1].resourceName == Some(name) && Less(TsOf(events[j]), TsOf(events[|events| - 1]))
    ensures FirstLatest(events, name, |events| - 1)
  {
    var n := |events| - 1;
    var init, last := events[..n], events[n];
    assert init[j] == events[j];
    forall i | 0 <= i < |events| && events[i].resourceName == Some(name)
      ensures !Less(TsOf(last), TsOf(events[i]))
      ensures i < n ==> Less(TsOf(events[i]), TsOf(last))
    {
      if i < n {
        assert init[i] == events[i];
        LessTotal(TsOf(init[j]), TsOf(events[i]));
        if TsOf(events[i]) != TsOf(init[j]) {
          LessTransitive(TsOf(events[i]), TsOf(init[j]), TsOf(last));
        }
        LessAsymmetric(TsOf(events[i]), TsOf(last));
      } else {
        LessIrreflexive(TsOf(last));
      }
    }
  }

  /** The first event of a name is its first latest among the events so far. */
  lemma FirstOfName(events: seq<Record>, name: string)
    requires events != [] && Named(events[|events| - 1]) && events[|events| - 1].resourceName.value == name
    requires name !in Latest(events[..|events| - 1])
    ensures FirstLatest(events, name, |events| - 1)
  {
    var n := |events| - 1;
    var init := events[..n];
    LatestKeys(init);
    forall i | 0 <= i < n
      ensures events[i].resourceName != Some(name)
    {
      assert init[i] == events[i];
      if Named(init[i]) {
        NamedIn(init, i);
      }
    }
    LessIrreflexive(TsOf(events[n]));
  }

  /** A last event that is not strictly later leaves the first latest where it was. */
  lemma NotLaterKeeps(events: seq<Record>, name: string, j: nat)
    requires events != [] && FirstLatest(events[..|events| - 1], name, j)
    requires events[|events| - 1].resourceName == Some(name) ==> !Less(TsOf(events[j]), TsOf(events[|events| - 1]))
    ensures FirstLatest(events, name, j)
  {
    var n := |events| - 1;
    var init := events[..n];
    assert forall i :: 0 <= i < n ==> init[i] == events[i];
  }

  // ---------------------------------------------------------------- _status_bucket, _summarize_status

  datatype Bucket = FixedBucket | BrokenBucket | DispatchOnlyBucket | OtherBucket

  /** `ev.get("status") or "unknown"`. */
  function StatusText(ev: Record): string {
    if ev.status.Some? && ev.status.value != "" then ev.status.value else "unknown"
  }

  /** `_status_bucket`. */
  function StatusBucket(ev: Record): Bucket {
    var status := StatusText(ev);
    if status == "fixed" then FixedBucket
    else if status == "still_broken" then BrokenBucket
    else if status == "dispatch_added_only" then DispatchOnlyBucket
    else OtherBucket
  }

  /** The table's status cell, without its emoji and Markdown. */
  datatype StatusSummary =
    | FixedSummary
    | DispatchOnlySummary
    | BrokenSummary(errorType: Option<string>)
    | OtherSummary(status: string)

  /** `_summarize_status`: a `still_broken` cell names the error type when it is non-empty. */
  function SummarizeStatus(ev: Record): StatusSummary {
    var status := StatusText(ev);
    if status == "fixed" then FixedSummary
    else if status == "dispatch_added_only" then DispatchOnlySummary
    else if status == "still_broken" then
      BrokenSummary(if ev.errorType.Some? && ev.errorType.value != "" then ev.errorType else None)
    else OtherSummary(status)
  }

  /** The status cell and the bucket count agree; a missing or empty status counts as `unknown`, an other state. */
  lemma SummaryMatchesBucket(ev: Record)
    ensures SummarizeStatus(ev).FixedSummary? <==> StatusBucket(ev) == FixedBucket
    ensures SummarizeStatus(ev).BrokenSummary? <==> StatusBucket(ev) == BrokenBucket
    ensures SummarizeStatus(ev).DispatchOnlySummary? <==> StatusBucket(ev) == DispatchOnlyBucket
    ensures SummarizeStatus(ev).OtherSummary? <==> StatusBucket(ev) == OtherBucket
    ensures SummarizeStatus(ev).OtherSummary? ==> SummarizeStatus(ev).status == StatusText(ev)
    ensures (ev.status.None? || ev.status == Some("")) ==> SummarizeStatus(ev) == OtherSummary("unknown")
    ensures SummarizeStatus(ev).BrokenSummary? ==>
      (SummarizeStatus(ev).errorType.Some? <==> ev.errorType.Some? && ev.errorType.value != "")
  {
  }

  // ---------------------------------------------------------------- _render_markdown

  /** One table row: the cells that come from the event. */
  datatype Row = Row(name: string, status: StatusSummary, checksum: string, labels: seq<string>, runId: string, ts: string)

  function RowOf(name: string, ev: Record): Row {
    Row(name, SummarizeStatus(ev), ev.postChecksum.GetOr(""), ev.labels, ev.runId.GetOr(""), ev.ts.GetOr(""))
  }

  function RowName(r: Row): string {
    r.name
  }

  /** The snapshot: the four bucket counts, the total, and the table (`None` when no table is written). */
  datatype Snapshot = Snapshot(fixed: nat, broken: nat, dispatchOnly: nat, other: nat, total: nat, table: Option<seq<Row>>)

  /** The number of workflows whose latest event falls in a bucket. */
  function CountOf(latest: map<string, Record>, b: Bucket): nat {
    |set n | n in latest && StatusBucket(latest[n]) == b|
  }

  function InBucket(latest: map<string, Record>, b: Bucket): string -> bool {
    (n: string) => n in latest && StatusBucket(latest[n]) == b
  }

  predicate StrictlySorted(s: seq<string>) {
    forall i, j :: 0 <= i < j < |s| ==> Less(s[i], s[j])
  }

  /** One row per workflow, in ascending name order, each from that workflow's latest event. */
  ghost predicate RowsFor(latest: map<string, Record>, rows: seq<Row>) {
    StrictlySorted(Map(rows, RowName))
    && (forall n :: n in Map(rows, RowName) <==> n in latest)
    && forall k :: 0 <= k < |rows| ==> rows[k].name in latest && rows[k] == RowOf(rows[k].name, latest[rows[k].name])
  }

  predicate IsLeast(m: string, s: set<string>) {
    forall y :: y in s ==> y == m || Less(m, y)
  }

  /** Every non-empty set of names has a least one. */
  lemma {:induction false} MinExists(s: set<string>)
    requires s != {}
    ensures exists m :: m in s && IsLeast(m, s)
    decreases |s|
  {
    var x :| x in s;
    if y :| y in s && y != x {
      var rest := s - {x};
      assert y in rest;
      MinExists(rest);
      var m :| m in rest && IsLeast(m, rest);
      LessTotal(x, m);
      if Less(x, m) {
        forall z | z in s
          ensures z == x || Less(x, z)
        {
          if z != x && z != m {
            assert z in rest;
            LessTransitive(x, m, z);
          }
        }
        assert IsLeast(x, s);
      } else {
        forall z | z in s
          ensures z == m || Less(m, z)
        {
          if z != x {
            assert z in rest;
          }
        }
        assert IsLeast(m, s);
      }
    } else {
      assert IsLeast(x, s);
    }
  }

  /** The four bucket counts of any names sum to the number of names. */
  lemma {:induction false} BucketsPartition(names: seq<string>, latest: map<string, Record>)
    requires forall n :: n in names ==> n in latest
    ensures |Filter(names, InBucket(latest, FixedBucket))| + |Filter(names, InBucket(latest, BrokenBucket))|
      + |Filter(names, InBucket(latest, DispatchOnlyBucket))| + |Filter(names, InBucket(latest, OtherBucket))| == |names|
  {
    if names != [] {
      BucketsPartition(names[..|names| - 1], latest);
      assert names[|names| - 1] in names;
    }
  }

  /** Counting the buckets along any order that visits every workflow once gives the set counts. */
  lemma CountAlongVisit(visit: seq<string>, latest: map<string, Record>, b: Bucket)
    requires Distinct(visit) && forall n :: n in visit <==> n in latest
    ensures |Filter(visit, InBucket(latest, b))| == CountOf(latest, b)
  {
    var kept := Filter(visit, InBucket(latest, b));
    FilterIsSubsequence(visit, InBucket(latest, b));
    SubsequenceDistinct(kept, visit);
    DistinctCard(kept);
    forall n
      ensures n in kept <==> n in latest && StatusBucket(latest[n]) == b
    {
      FilterMembers(visit, InBucket(latest, b), n);
    }
    assert SetOf(kept) == set n | n in latest && StatusBucket(latest[n]) == b;
  }

  /** The four counters of `_render_markdown`. */
  datatype Tally = Tally(fixed: nat, broken: nat, dispatchOnly: nat, other: nat)

  function Bump(t: Tally, b: Bucket): Tally {
    match b
    case FixedBucket => t.(fixed := t.fixed + 1)
    case BrokenBucket => t.(broken := t.broken + 1)
    case DispatchOnlyBucket => t.(dispatchOnly := t.dispatchOnly + 1)
    case OtherBucket => t.(other := t.other + 1)
  }

  function BucketOf(latest: map<string, Record>, name: string): Bucket {
    if name in latest then StatusBucket(latest[name]) else OtherBucket
  }

  /** The counters after visiting `names` in order. */
  function TallyAlong(names: seq<string>, latest: map<string, Record>): Tally {
    if names == [] then Tally(0, 0, 0, 0)
    else Bump(TallyAlong(names[..|names| - 1], latest), BucketOf(latest, names[|names| - 1]))
  }

  /** Each counter is the number of visited names in its bucket. */
  lemma {:induction false} TallyCountsBuckets(names: seq<string>, latest: map<string, Record>)
    requires forall n :: n in names ==> n in latest
    ensures var t := TallyAlong(names, latest);
      t.fixed == |Filter(names, InBucket(latest, FixedBucket))|
      && t.broken == |Filter(names, InBucket(latest, BrokenBucket))|
      && t.dispatchOnly == |Filter(names, InBucket(latest, DispatchOnlyBucket))|
      && t.other == |Filter(names, InBucket(latest, OtherBucket))|
  {
    if names != [] {
      TallyCountsBuckets(names[..|names| - 1], latest);
      assert names[|names| - 1] in names;
    }
  }

  /** Counting the buckets: one increment per workflow, in the map's own order. */
  method CountBuckets(latest: map<string, Record>) returns (t: Tally)
    ensures t.fixed == CountOf(latest, FixedBucket) && t.broken == CountOf(latest, BrokenBucket)
    ensures t.dispatchOnly == CountOf(latest, DispatchOnlyBucket) && t.other == CountOf(latest, OtherBucket)
    ensures t.fixed + t.broken + t.dispatchOnly + t.other == |latest|
  {
    t := Tally(0, 0, 0, 0);
    var remaining := latest.Keys;
    ghost var visit: seq<string> := [];
    while remaining != {}
      invariant Visiting(latest, remaining, visit)
      invariant t == TallyAlong(visit, latest)
      decreases |remaining|
    {
      var name :| name in remaining;
      ghost var before := t;
      var bucket := StatusBucket(latest[name]);
      if bucket == FixedBucket {
        t := t.(fixed := t.fixed + 1);
      } else if bucket == BrokenBucket {
        t := t.(broken := t.broken + 1);
      } else if bucket == DispatchOnlyBucket {
        t := t.(dispatchOnly := t.dispatchOnly + 1);
      } else {
        t := t.(other := t.other + 1);
      }
      assert t == Bump(before, BucketOf(latest, name));
      VisitStep(latest, remaining, visit, name);
      visit := visit + [name];
      remaining := remaining - {name};
    }
    CountsFromVisit(visit, latest);
  }

  /** The names visited so far, once each, and those still to visit make up the map's keys. */
  ghost predicate Visiting(latest: map<string, Record>, remaining: set<string>, visit: seq<string>) {
    Distinct(visit)
    && (forall n :: n in latest <==> n in remaining || n in visit)
    && (forall n :: n in remaining ==> n !in visit)
  }

  lemma VisitStep(latest: map<string, Record>, remaining: set<string>, visit: seq<string>, name: string)
    requires Visiting(latest, remaining, visit) && name in remaining
    ensures Visiting(latest, remaining - {name}, visit + [name])
    ensures TallyAlong(visit + [name], latest) == Bump(TallyAlong(visit, latest), BucketOf(latest, name))
  {
    assert (visit + [name])[..|visit|] == visit;
  }

  lemma CountsFromVisit(visit: seq<string>, latest: map<string, Record>)
    requires Distinct(visit) && forall n :: n in visit <==> n in latest
    ensures var t := TallyAlong(visit, latest);
      t.fixed == CountOf(latest, FixedBucket) && t.broken == CountOf(latest, BrokenBucket)
      && t.dispatchOnly == CountOf(latest, DispatchOnlyBucket) && t.other == CountOf(latest, OtherBucket)
      && t.fixed + t.broken + t.dispatchOnly + t.other == |latest|
  {
    TallyCountsBuckets(visit, latest);
    CountAlongVisit(visit, latest, FixedBucket);
    CountAlongVisit(visit, latest, BrokenBucket);
    CountAlongVisit(visit, latest, DispatchOnlyBucket);
    CountAlongVisit(visit, latest, OtherBucket);
    BucketsPartition(visit, latest);
    DistinctCard(visit);
    assert SetOf(visit) == latest.Keys;
  }

  /** `sorted(keys)`: takes the least remaining name each time. */
  method SortNames(keys: set<string>) returns (names: seq<string>)
    ensures StrictlySorted(names) && forall n :: n in names <==> n in keys
  {
    names := [];
    var remaining := keys;
    while remaining != {}
      invariant StrictlySorted(names)
      invariant forall n :: n in keys <==> n in remaining || n in names
      invariant forall k, y :: 0 <= k < |names| && y in remaining ==> Less(names[k], y)
      decreases |remaining|
    {
      MinExists(remaining);
      var name :| name in remaining && IsLeast(name, remaining);
      names := names + [name];
      remaining := remaining - {name};
    }
  }

  /** The table rows: `for name in sorted(latest.keys())`. */
  method SortedRows(latest: map<string, Record>) returns (rows: seq<Row>)
    ensures RowsFor(latest, rows)
  {
    var names := SortNames(latest.Keys);
    rows := [];
    for k := 0 to |names|
      invariant |rows| == k
      invariant forall i :: 0 <= i < k ==> rows[i] == RowOf(names[i], latest[names[i]])
    {
      rows := rows + [RowOf(names[k], latest[names[k]])];
    }
    assert Map(rows, RowName) == names;
  }

  /** `_render_markdown`: the counts, the total, and a table unless no workflow is tracked. */
  method RenderSnapshot(latest: map<string, Record>) returns (snap: Snapshot)
    ensures snap.fixed == CountOf(latest, FixedBucket) && snap.broken == CountOf(latest, BrokenBucket)
    ensures snap.dispatchOnly == CountOf(latest, DispatchOnlyBucket) && snap.other == CountOf(latest, OtherBucket)
    ensures snap.total == |latest| && snap.fixed + snap.broken + snap.dispatchOnly + snap.other == snap.total
    ensures snap.table.None? <==> snap.total == 0
    ensures snap.table.Some? ==> RowsFor(latest, snap.table.value)
  {
    var t := CountBuckets(latest);
    var total := |latest|;
    if total == 0 {
      return Snapshot(t.fixed, t.broken, t.dispatchOnly, t.other, total, None);
    }
    var rows := SortedRows(latest);
    return Snapshot(t.fixed, t.broken, t.dispatchOnly, t.other, total, Some(rows));
  }

  lemma LastIsGreatest(s: seq<string>, z: string)
    requires StrictlySorted(s) && z in s
    ensures z == s[|s| - 1] || Less(z, s[|s| - 1])
  {
  }

  lemma SortedDistinct(s: seq<string>)
    requires StrictlySorted(s)
    ensures Distinct(s)
  {
    forall i, j | 0 <= i < j < |s|
      ensures s[i] != s[j]
    {
      LessIrreflexive(s[i]);
    }
  }

  /** A sorted table has only one possible order: rows for the same names are the same rows. */
  lemma {:induction false} SortedUnique(a: seq<string>, b: seq<string>)
    requires StrictlySorted(a) && StrictlySorted(b)
    requires forall x :: x in a <==> x in b
    ensures a == b
    decreases |a|
  {
    if a == [] {
      SortedDistinct(b);
      DistinctCard(b);
      assert SetOf(b) == {};
    } else {
      var x := a[|a| - 1];
      assert x in a;
      var y := b[|b| - 1];
      assert y in b;
      LastIsGreatest(b, x);
      LastIsGreatest(a, y);
      if x != y {
        LessAsymmetric(x, y);
      }
      var a', b' := a[..|a| - 1], b[..|b| - 1];
      assert a == a' + [x] && b == b' + [y];
      assert x == y;
      forall z
        ensures z in a' <==> z in b'
      {
        if z in a' {
          var k :| 0 <= k < |a'| && a'[k] == z;
          assert Less(a[k], x);
          LessIrreflexive(z);
          assert z in b && z != y;
        }
        if z in b' {
          var k :| 0 <= k < |b'| && b'[k] == z;
          assert Less(b[k], y);
          LessIrreflexive(z);
          assert z in a && z != x;
        }
      }
      SortedUnique(a', b');
    }
  }

  /** The snapshot's total is the number of distinct workflow names among the events it is built from. */
  lemma SnapshotTotal(events: seq<Record>)
    ensures |Latest(events)| == |NamesIn(events)|
  {
    LatestKeys(events);
  }

  /**
   * The `snapshot` mode of `main`: load, keep the workflow first-aid events,
   * take each workflow's latest event, and render. The total is the number
   * of distinct workflow names among the kept events.
   */
  method TakeSnapshot(file: EventFile, parse: string -> Parsed) returns (snap: Snapshot)
    ensures var kept := Filter(LoadEventsSpec(file, parse), IsScwWorkflow);
      snap.total == |NamesIn(kept)|
      && snap.fixed == CountOf(Latest(kept), FixedBucket) && snap.broken == CountOf(Latest(kept), BrokenBucket)
      && snap.dispatchOnly == CountOf(Latest(kept), DispatchOnlyBucket) && snap.other == CountOf(Latest(kept), OtherBucket)
      && (snap.table.None? <==> NamesIn(kept) == {})
      && (snap.table.Some? ==> RowsFor(Latest(kept), snap.table.value))
  {
    var events := LoadEvents(file, parse);
    var kept := FilterScwWorkflowEvents(events);
    var latest := BuildLatestByWorkflow(kept);
    snap := RenderSnapshot(latest);
    SnapshotTotal(kept);
  }
}
