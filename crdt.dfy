/**
 * The values the write pipeline of the CRDT store passes around, and the
 * environment it runs in.
 *
 * The types whose definitions live in files this model does not cover
 * (the merkle tree, a cell value, the owner, the sync worker's diff hint)
 * are opaque: the pipeline only moves them from one collaborator to the next.
 */
module Crdt {

  datatype Option<+T> = None | Some(value: T)

  datatype Result<+T, +E> = Success(value: T) | Failure(error: E)

  /** Wall-clock milliseconds. */
  type Millis = nat

  type NodeId = string

  /** A hybrid logical clock timestamp. */
  datatype Timestamp = Timestamp(millis: Millis, counter: nat, node: NodeId)

  /**
   * Strictly earlier in (millis, counter) order, the order in which one
   * replica issues its timestamps.
   */
  predicate Before(a: Timestamp, b: Timestamp)
  {
    a.millis < b.millis || (a.millis == b.millis && a.counter < b.counter)
  }

  /** The sortable string form of a timestamp carried by a stamped message. */
  type TimestampString = string

  /** Opaque types defined outside the write pipeline. */
  type CrdtValue(==)
  type MerkleTree(==)
  type Owner(==)
  type SyncDiff(==)

  type SqlQueryString = string
  type OnCompleteId = string

  /** Every failure `send` can report: the union of the three error records. */
  datatype SendError =
    | TimestampDriftError(next: Millis, now: Millis)
    | TimestampCounterOverflowError
    | UnknownError(error: string)

  /** The failures of issuing a timestamp. */
  type TimestampError = e: SendError | !e.UnknownError? witness TimestampCounterOverflowError

  /** The failures of the database collaborators. */
  type UnknownErr = e: SendError | e.UnknownError? witness UnknownError("")

  /** A pending write: a cell and its new value, not yet timestamped. */
  datatype NewCrdtMessage = NewCrdtMessage(table: string, row: string, column: string, value: CrdtValue)

  /** A write stamped with the string form of its timestamp. */
  datatype CrdtMessage = CrdtMessage(
    timestamp: TimestampString,
    table: string,
    row: string,
    column: string,
    value: CrdtValue)

  /** The per-replica clock: the last timestamp issued and the merkle tree of applied messages. */
  datatype CrdtClock = CrdtClock(timestamp: Timestamp, merkleTree: MerkleTree)

  /** What the sync worker is asked to do. */
  datatype SyncWorkerInput = SyncWorkerInput(
    syncUrl: string,
    messages: Option<seq<CrdtMessage>>,
    clock: CrdtClock,
    owner: Owner,
    previousDiff: Option<SyncDiff>)

  datatype Config = Config(syncUrl: string, maxDrift: Millis)

  /**
   * The environment of the pipeline: the configuration, the owner, the wall
   * clock and the operations imported from other files, taken as given.
   *
   * `now(k)` is what the wall clock reads when the k-th timestamp of a batch
   * is issued (k counts from 0). `sendTimestamp(t, now, maxDrift)` issues the
   * timestamp that follows `t`. `readClock` is the outcome of loading the
   * clock; `applyMessages`, `updateClock` and `query` give the outcome of the
   * database operation on the arguments they receive.
   */
  datatype Env = Env(
    config: Config,
    owner: Owner,
    now: nat -> Millis,
    sendTimestamp: (Timestamp, Millis, Millis) -> Result<Timestamp, TimestampError>,
    timestampToString: Timestamp -> TimestampString,
    readClock: Result<CrdtClock, UnknownErr>,
    applyMessages: (MerkleTree, seq<CrdtMessage>) -> Result<MerkleTree, UnknownErr>,
    updateClock: CrdtClock -> Result<(), UnknownErr>,
    query: (seq<SqlQueryString>, seq<OnCompleteId>) -> Result<(), UnknownErr>)
}
