/**
 * The write pipeline `send`: read the clock, stamp the batch, apply the
 * stamped messages to the merkle tree, persist the new clock, post the batch
 * to the sync worker and re-run the caller's queries. Every call into a
 * collaborator is recorded as an event; the first failure ends the pipeline.
 */
module SendPipeline {
  import opened Crdt
  import opened Stamping

  /** A call the pipeline makes into one of its collaborators. */
  datatype Event =
    | ReadClock
    | Apply(merkleTree: MerkleTree, messages: seq<CrdtMessage>)
    | UpdateClock(clock: CrdtClock)
    | Sync(input: SyncWorkerInput)
    | Query(queries: seq<SqlQueryString>, onCompleteIds: seq<OnCompleteId>)
  {
    /** The position of this call in the pipeline. */
    function Step(): nat
    {
      match this
      case ReadClock => 0
      case Apply(_, _) => 1
      case UpdateClock(_) => 2
      case Sync(_) => 3
      case Query(_, _) => 4
    }
  }

  /**
   * The request `callSync` posts to the sync worker: the stamped batch and
   * the new clock for the configured server and owner, with no diff hint.
   */
  function CallSync(env: Env, messages: seq<CrdtMessage>, clock: CrdtClock): SyncWorkerInput
  {
    SyncWorkerInput(env.config.syncUrl, Some(messages), clock, env.owner, None)
  }

  /** The pipeline, returning its outcome and the calls it made, in order. */
  method Send(env: Env, messages: seq<NewCrdtMessage>, onCompleteIds: seq<OnCompleteId>, queries: seq<SqlQueryString>)
    returns (r: Result<(), SendError>, trace: seq<Event>)
    requires |messages| > 0
    // Steps run in pipeline order, each at most once, starting with reading the clock.
    ensures 1 <= |trace| <= 5 && trace[0] == ReadClock
    ensures forall i :: 0 <= i < |trace| ==> trace[i].Step() == i
    // A clock that cannot be read ends the pipeline with that error.
    ensures env.readClock.Failure? ==> r == Failure(env.readClock.error) && trace == [ReadClock]
    // A failed timestamp ends the pipeline with that error before anything is applied.
    ensures env.readClock.Success? && Stamp(env, env.readClock.value.timestamp, messages, 0).Failure? ==>
      r == Failure(Stamp(env, env.readClock.value.timestamp, messages, 0).error) && trace == [ReadClock]
    ensures r.Failure? && !r.error.UnknownError? ==> trace == [ReadClock]
    // Otherwise every later step receives what the earlier ones produced.
    ensures env.readClock.Success? && Stamp(env, env.readClock.value.timestamp, messages, 0).Success? ==>
      var loaded := env.readClock.value;
      var stamped := Stamp(env, loaded.timestamp, messages, 0).value;
      var applied := env.applyMessages(loaded.merkleTree, stamped.messages);
      |trace| >= 2 && trace[1] == Apply(loaded.merkleTree, stamped.messages) &&
      (applied.Failure? ==> r == Failure(applied.error) && |trace| == 2) &&
      (applied.Success? ==>
        var clock := CrdtClock(stamped.timestamp, applied.value);
        |trace| >= 3 && trace[2] == UpdateClock(clock) &&
        (env.updateClock(clock).Failure? ==> r == Failure(env.updateClock(clock).error) && |trace| == 3) &&
        (env.updateClock(clock).Success? ==>
          trace == [ReadClock, Apply(loaded.merkleTree, stamped.messages), UpdateClock(clock),
                    Sync(SyncWorkerInput(env.config.syncUrl, Some(stamped.messages), clock, env.owner, None)),
                    Query(queries, onCompleteIds)] &&
          r == env.query(queries, onCompleteIds)))
    // The applied batch has one message per input, and the persisted clock
    // holds the timestamp the last of them carries.
    ensures |trace| >= 2 ==> |trace[1].messages| == |messages|
    ensures |trace| >= 3 ==>
      env.timestampToString(trace[2].clock.timestamp) == trace[1].messages[|messages| - 1].timestamp
    // The sync worker is only reached after the clock was persisted.
    ensures |trace| >= 4 ==> env.updateClock(trace[2].clock).Success? && trace[3].input.clock == trace[2].clock
    ensures r.Success? ==> |trace| == 5
  {
    trace := [ReadClock];
    var loaded := env.readClock;
    if loaded.Failure? {
      return Failure(loaded.error), trace;
    }
    var clock := loaded.value;
    var stamping := SendMessages(env, clock.timestamp, messages);
    if stamping.Failure? {
      return Failure(stamping.error), trace;
    }
    var stamped := stamping.value;
    StampLastTimestamp(env, clock.timestamp, messages);
    trace := trace + [Apply(clock.merkleTree, stamped.messages)];
    var applied := env.applyMessages(clock.merkleTree, stamped.messages);
    if applied.Failure? {
      return Failure(applied.error), trace;
    }
    var newClock := CrdtClock(stamped.timestamp, applied.value);
    trace := trace + [UpdateClock(newClock)];
    var updated := env.updateClock(newClock);
    if updated.Failure? {
      return Failure(updated.error), trace;
    }
    trace := trace + [Sync(CallSync(env, stamped.messages, newClock))];
    trace := trace + [Query(queries, onCompleteIds)];
    r := env.query(queries, onCompleteIds);
  }
}
