/**
 * The first-aid event logger (scripts/state_engine.py): a first-aid summary
 * (`fixed`, `added_dispatch`, `still_broken`) becomes a run of `repair`
 * events appended to an append-only event log.
 *
 * The log file is an `EventLog` object whose `events` field only grows.
 * The clock, the GitHub run context and the file checksum are inputs.
 */
module StateEngine {
  import opened Wrappers
  import opened Sequences

  /** `_base_context()`: the run's environment values, opaque to the logger. */
  datatype Context = Context(fields: map<string, Option<string>>)

  /** What every event takes from outside: the time, the run context, the checksum of a path. */
  datatype Env = Env(now: string, ctx: Context, checksum: string -> Option<string>)

  /**
   * One entry of `still_broken` as JSON gives it: a falsy value, a list (with
   * `str()` of it), or another truthy value (with its `str()`).
   */
  datatype BrokenEntry =
    | Falsy
    | ListEntry(elems: seq<string>, text: string)
    | ScalarEntry(text: string)

  /** The summary file; `None` is a key that is absent or whose value is falsy. */
  datatype Summary = Summary(
    fixed: Option<seq<string>>,
    addedDispatch: Option<seq<string>>,
    stillBroken: Option<seq<BrokenEntry>>)

  /** One line of `events.jsonl` as the logger writes it. */
  datatype Event = Event(
    ts: string,
    namespace: string,
    kind: string,
    eventType: string,
    status: string,
    errorType: Option<string>,   // only `still_broken` events have the key
    resourceType: string,
    resourceName: string,
    path: string,
    postChecksum: Option<string>,
    labels: seq<string>,
    meta: Context)

  const Namespace := "SCW"
  const Kind := "workflow_first_aid"
  const WorkflowsDir := ".github/workflows"

  /** `str(Path(".github") / "workflows" / name)`: an absolute name replaces the directory. */
  function WorkflowPath(name: string): string {
    if name == "" then WorkflowsDir
    else if name[0] == '/' then name
    else WorkflowsDir + "/" + name
  }

  function NewEvent(env: Env, status: string, errorType: Option<string>, name: string, labels: seq<string>): Event {
    Event(env.now, Namespace, Kind, "repair", status, errorType, "workflow", name,
      WorkflowPath(name), env.checksum(WorkflowPath(name)), labels, env.ctx)
  }

  /** The third label records whether the name was also in `added_dispatch`. */
  function FixedEvent(env: Env, added: seq<string>, name: string): Event {
    NewEvent(env, "fixed", None, name,
      ["first_aid", "repair", if name in added then "dispatch_injected" else "no_dispatch_change"])
  }

  function DispatchOnlyEvent(env: Env, name: string): Event {
    NewEvent(env, "dispatch_added_only", None, name, ["first_aid", "dispatch_only"])
  }

  predicate Truthy(item: BrokenEntry) {
    match item
    case Falsy => false
    case ListEntry(elems, _) => elems != []
    case ScalarEntry(_) => true
  }

  /** A list of two or more gives name and error type; anything else is named by its `str()`. */
  function BrokenShape(item: BrokenEntry): (string, string) {
    match item
    case ListEntry(elems, text) => if |elems| >= 2 then (elems[0], elems[1]) else (text, "UnknownError")
    case ScalarEntry(text) => (text, "UnknownError")
    case Falsy => ("", "UnknownError")
  }

  function BrokenEvent(env: Env, item: BrokenEntry): Event {
    var (name, errType) := BrokenShape(item);
    NewEvent(env, "still_broken", Some(errType), name, ["first_aid", "broken"])
  }

  function FixedEvents(env: Env, fixed: seq<string>, added: seq<string>): seq<Event> {
    Map(fixed, (name: string) => FixedEvent(env, added, name))
  }

  /** `added_dispatch_set - fixed_set`. */
  function DispatchOnlyNames(fixed: seq<string>, added: seq<string>): set<string> {
    (set n | n in added) - (set n | n in fixed)
  }

  function DispatchEvents(env: Env, order: seq<string>): seq<Event> {
    Map(order, (name: string) => DispatchOnlyEvent(env, name))
  }

  function BrokenEvents(env: Env, items: seq<BrokenEntry>): seq<Event> {
    Map(Filter(items, Truthy), (item: BrokenEntry) => BrokenEvent(env, item))
  }

  /** The events of one first-aid run, given the order its set loop visits the dispatch-only names in. */
  function FirstAidEvents(env: Env, s: Summary, order: seq<string>): seq<Event> {
    FixedEvents(env, s.fixed.GetOr([]), s.addedDispatch.GetOr([]))
      + DispatchEvents(env, order)
      + BrokenEvents(env, s.stillBroken.GetOr([]))
  }

  /** The event log file `.steg/state/events.jsonl`. */
  class EventLog {
    var events: seq<Event>

    constructor (initial: seq<Event>)
      ensures events == initial
    {
      events := initial;
    }

    /** `_write_event`: appends one line. */
    method WriteEvent(e: Event)
      modifies this
      ensures events == old(events) + [e]
    {
      events := events + [e];
    }
  }

  datatype FirstAidError = SummaryNotFound(path: string)

  /** Loop 1: one `fixed` event per entry of `fixed`, in order. */
  method LogFixed(log: EventLog, env: Env, fixed: seq<string>, added: seq<string>)
    modifies log
    ensures log.events == old(log.events) + FixedEvents(env, fixed, added)
  {
    for i := 0 to |fixed|
      invariant log.events == old(log.events) + FixedEvents(env, fixed[..i], added)
    {
      log.WriteEvent(FixedEvent(env, added, fixed[i]));
      assert FixedEvents(env, fixed[..i + 1], added) == FixedEvents(env, fixed[..i], added) + [FixedEvent(env, added, fixed[i])];
    }
    assert fixed[..|fixed|] == fixed;
  }

  /** Loop 2: one `dispatch_added_only` event per name of the set difference, in the order visited. */
  method LogDispatchOnly(log: EventLog, env: Env, names: set<string>) returns (order: seq<string>)
    modifies log
    ensures Distinct(order) && forall n :: n in order <==> n in names
    ensures log.events == old(log.events) + DispatchEvents(env, order)
  {
    var remaining := names;
    order := [];
    while remaining != {}
      invariant Distinct(order)
      invariant forall n :: n in names <==> n in remaining || n in order
      invariant forall n :: n in remaining ==> n !in order
      invariant log.events == old(log.events) + DispatchEvents(env, order)
      decreases |remaining|
    {
      var name :| name in remaining;
      log.WriteEvent(DispatchOnlyEvent(env, name));
      assert DispatchEvents(env, order + [name]) == DispatchEvents(env, order) + [DispatchOnlyEvent(env, name)];
      order := order + [name];
      remaining := remaining - {name};
    }
  }

  /** Loop 3: one `still_broken` event per truthy entry, in order. */
  method LogBroken(log: EventLog, env: Env, broken: seq<BrokenEntry>)
    modifies log
    ensures log.events == old(log.events) + BrokenEvents(env, broken)
  {
    for i := 0 to |broken|
      invariant log.events == old(log.events) + BrokenEvents(env, broken[..i])
    {
      assert broken[..i + 1] == broken[..i] + [broken[i]];
      FilterAppend(broken[..i], [broken[i]], Truthy);
      if !Truthy(broken[i]) {
        continue;
      }
      log.WriteEvent(BrokenEvent(env, broken[i]));
    }
    assert broken[..|broken|] == broken;
  }

  /**
   * `_cmd_first_aid`. `summary` is `None` when the file does not exist. The
   * result is the order in which the dispatch-only names were logged; Python
   * iterates its set difference in an order it does not specify.
   */
  method FirstAid(log: EventLog, summaryPath: string, summary: Option<Summary>, env: Env)
    returns (r: Result<seq<string>, FirstAidError>)
    modifies log
    ensures summary.None? ==> r == Err(SummaryNotFound(summaryPath)) && log.events == old(log.events)
    ensures summary.Some? ==> r.Ok?
    ensures summary.Some? ==>
      var names := DispatchOnlyNames(summary.value.fixed.GetOr([]), summary.value.addedDispatch.GetOr([]));
      Distinct(r.value) && (forall n :: n in r.value <==> n in names)
      && log.events == old(log.events) + FirstAidEvents(env, summary.value, r.value)
  {
    if summary.None? {
      return Err(SummaryNotFound(summaryPath));
    }
    var fixed := summary.value.fixed.GetOr([]);
    var added := summary.value.addedDispatch.GetOr([]);
    var broken := summary.value.stillBroken.GetOr([]);
    LogFixed(log, env, fixed, added);
    var order := LogDispatchOnly(log, env, DispatchOnlyNames(fixed, added));
    LogBroken(log, env, broken);
    return Ok(order);
  }

  // ---------------------------------------------------------------- facts about one run

  function NameOf(e: Event): string {
    e.resourceName
  }

  function StatusOf(e: Event): string {
    e.status
  }

  function BrokenName(item: BrokenEntry): string {
    BrokenShape(item).0
  }

  /** The fields every first-aid event shares: one time, one context, one kind, and the workflow's path. */
  predicate Stamped(env: Env, e: Event) {
    e.ts == env.now && e.meta == env.ctx
    && e.namespace == Namespace && e.kind == Kind && e.eventType == "repair" && e.resourceType == "workflow"
    && e.path == WorkflowPath(e.resourceName) && e.postChecksum == env.checksum(e.path)
    && |e.labels| >= 2 && e.labels[0] == "first_aid"
  }

  lemma FirstAidEventsStamped(env: Env, s: Summary, order: seq<string>)
    ensures forall k :: 0 <= k < |FirstAidEvents(env, s, order)| ==> Stamped(env, FirstAidEvents(env, s, order)[k])
  {
    var a := FixedEvents(env, s.fixed.GetOr([]), s.addedDispatch.GetOr([]));
    var b := DispatchEvents(env, order);
    var c := BrokenEvents(env, s.stillBroken.GetOr([]));
    assert forall k :: 0 <= k < |a| ==> Stamped(env, a[k]);
    assert forall k :: 0 <= k < |b| ==> Stamped(env, b[k]);
    assert forall k :: 0 <= k < |c| ==> Stamped(env, c[k]);
    assert FirstAidEvents(env, s, order) == a + b + c;
  }

  /**
   * The run logs the names of `fixed` in list order with duplicates, then
   * the dispatch-only names in the order visited, then the names of the
   * truthy `still_broken` entries in order.
   */
  lemma FirstAidNames(env: Env, s: Summary, order: seq<string>)
    ensures Map(FirstAidEvents(env, s, order), NameOf)
      == s.fixed.GetOr([]) + order + Map(Filter(s.stillBroken.GetOr([]), Truthy), BrokenName)
  {
    var fixed, broken := s.fixed.GetOr([]), s.stillBroken.GetOr([]);
    var a := FixedEvents(env, fixed, s.addedDispatch.GetOr([]));
    var b := DispatchEvents(env, order);
    var c := BrokenEvents(env, broken);
    assert Map(a, NameOf) == fixed;
    assert Map(b, NameOf) == order;
    assert Map(c, NameOf) == Map(Filter(broken, Truthy), BrokenName);
    MapAppend(a, b, NameOf);
    MapAppend(a + b, c, NameOf);
  }

  /** All `fixed` events come first, then all `dispatch_added_only` events, then all `still_broken` ones. */
  lemma FirstAidStatuses(env: Env, s: Summary, order: seq<string>)
    ensures var f, d := |s.fixed.GetOr([])|, |order|;
      var events := FirstAidEvents(env, s, order);
      |events| == f + d + |Filter(s.stillBroken.GetOr([]), Truthy)|
      && forall k :: 0 <= k < |events| ==>
        events[k].status == (if k < f then "fixed" else if k < f + d then "dispatch_added_only" else "still_broken")
  {
    var a := FixedEvents(env, s.fixed.GetOr([]), s.addedDispatch.GetOr([]));
    var b := DispatchEvents(env, order);
    var c := BrokenEvents(env, s.stillBroken.GetOr([]));
    assert FirstAidEvents(env, s, order) == a + b + c;
  }

  /** A fixed event is labelled `dispatch_injected` exactly when its name is also in `added_dispatch`. */
  lemma FixedEventLabel(env: Env, fixed: seq<string>, added: seq<string>, k: nat)
    requires k < |fixed|
    ensures var e := FixedEvents(env, fixed, added)[k];
      e.labels[..2] == ["first_aid", "repair"] && |e.labels| == 3
      && (e.labels[2] == "dispatch_injected" <==> fixed[k] in added)
      && (e.labels[2] == "no_dispatch_change" <==> fixed[k] !in added)
  {
  }

  /** No name gets both a `fixed` and a `dispatch_added_only` event. */
  lemma DispatchOnlyNotFixed(fixed: seq<string>, added: seq<string>, name: string)
    ensures name in DispatchOnlyNames(fixed, added) <==> name in added && name !in fixed
  {
  }

  /** A falsy `still_broken` entry is skipped wherever it stands. */
  lemma BrokenEventsSkipFalsy(env: Env, a: seq<BrokenEntry>, item: BrokenEntry, b: seq<BrokenEntry>)
    requires !Truthy(item)
    ensures BrokenEvents(env, a + [item] + b) == BrokenEvents(env, a + b)
  {
    FilterAppend(a + [item], b, Truthy);
    FilterAppend(a, [item], Truthy);
    FilterAppend(a, b, Truthy);
    assert Filter([item], Truthy) == [];
  }

  /**
   * Every `still_broken` event comes from a truthy entry: a list of two or
   * more names the workflow and the error type; any other entry is named by
   * its `str()` and typed `UnknownError`.
   */
  lemma BrokenEventOrigin(env: Env, items: seq<BrokenEntry>, e: Event)
    requires e in BrokenEvents(env, items)
    ensures e.status == "still_broken" && e.labels == ["first_aid", "broken"] && e.errorType.Some?
    ensures exists item :: item in items && Truthy(item) && e == BrokenEvent(env, item) && ShapedBy(e, item)
  {
    var kept := Filter(items, Truthy);
    var k :| 0 <= k < |kept| && BrokenEvents(env, items)[k] == e;
    FilterMembers(items, Truthy, kept[k]);
    assert ShapedBy(e, kept[k]);
  }

  /** How a truthy entry names its event. */
  predicate ShapedBy(e: Event, item: BrokenEntry) {
    if item.ListEntry? && |item.elems| >= 2 then e.resourceName == item.elems[0] && e.errorType == Some(item.elems[1])
    else !item.Falsy? && e.resourceName == item.text && e.errorType == Some("UnknownError")
  }
}
