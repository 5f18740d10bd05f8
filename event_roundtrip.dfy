/**
 * The state engine's event log read back by the state reader: each event
 * written by the first-aid logger, once serialised and parsed again, is a
 * workflow first-aid event in the bucket its status names.
 */
module EventRoundTrip {
  import opened Wrappers
  import opened Sequences
  import StateEngine
  import StateReader

  /** One written event as the reader parses it back from its JSON line. */
  function AsRecord(e: StateEngine.Event): StateReader.Record {
    StateReader.Record(
      Some(e.ts), Some(e.namespace), Some(e.kind), Some(e.status), e.errorType,
      Some(e.resourceName), e.postChecksum, e.labels,
      if "run_id" in e.meta.fields then e.meta.fields["run_id"] else None)
  }

  /** The bucket the reader files a status under. */
  function BucketOfStatus(status: string): StateReader.Bucket {
    if status == "fixed" then StateReader.FixedBucket
    else if status == "still_broken" then StateReader.BrokenBucket
    else if status == "dispatch_added_only" then StateReader.DispatchOnlyBucket
    else StateReader.OtherBucket
  }

  /** A stamped event reads back as a workflow first-aid event in its status's bucket. */
  lemma StampedReadBack(env: StateEngine.Env, e: StateEngine.Event)
    requires StateEngine.Stamped(env, e) && e.status != ""
    ensures StateReader.IsScwWorkflow(AsRecord(e))
    ensures StateReader.StatusBucket(AsRecord(e)) == BucketOfStatus(e.status)
  {
  }

  /**
   * The reader's filter keeps every event the first-aid logger writes, and
   * files fixed, dispatch-only and still-broken events under their buckets.
   */
  lemma {:induction false} FirstAidEventsReadBack(env: StateEngine.Env, s: StateEngine.Summary, order: seq<string>)
    ensures var events := Map(StateEngine.FirstAidEvents(env, s, order), AsRecord);
      Filter(events, StateReader.IsScwWorkflow) == events
    ensures var f, d := |s.fixed.GetOr([])|, |order|;
      var events := Map(StateEngine.FirstAidEvents(env, s, order), AsRecord);
      forall k :: 0 <= k < |events| ==>
        StateReader.StatusBucket(events[k])
          == (if k < f then StateReader.FixedBucket
              else if k < f + d then StateReader.DispatchOnlyBucket
              else StateReader.BrokenBucket)
  {
    var f, d := |s.fixed.GetOr([])|, |order|;
    var written := StateEngine.FirstAidEvents(env, s, order);
    StateEngine.FirstAidEventsStamped(env, s, order);
    StateEngine.FirstAidStatuses(env, s, order);
    var events := Map(written, AsRecord);
    forall k | 0 <= k < |events|
      ensures StateReader.IsScwWorkflow(events[k])
      ensures StateReader.StatusBucket(events[k])
        == (if k < f then StateReader.FixedBucket
            else if k < f + d then StateReader.DispatchOnlyBucket
            else StateReader.BrokenBucket)
    {
      StampedReadBack(env, written[k]);
    }
    FilterAllPass(events, StateReader.IsScwWorkflow);
  }
}
