/**
 * Stamping a batch of pending writes (`sendMessages`): one timestamp is
 * issued per message, in batch order, each from the one issued before it,
 * starting from the clock's timestamp. The first failure decides the outcome.
 */
module Stamping {
  import opened Crdt

  /** A stamped batch and the last timestamp issued for it. */
  datatype Stamped = Stamped(messages: seq<CrdtMessage>, timestamp: Timestamp)

  /** A pending write with the given timestamp string attached. */
  function Attach(m: NewCrdtMessage, ts: TimestampString): CrdtMessage
  {
    CrdtMessage(ts, m.table, m.row, m.column, m.value)
  }

  /**
   * Reference definition: the k-th timestamp issued from `t0`, that is
   * `sendTimestamp` applied k times, the i-th call reading `now(i)`; the
   * first failing call decides the outcome.
   */
  function Issue(env: Env, t0: Timestamp, k: nat): Result<Timestamp, TimestampError>
  {
    if k == 0 then Success(t0)
    else match Issue(env, t0, k - 1)
      case Failure(e) => Failure(e)
      case Success(t) => env.sendTimestamp(t, env.now(k - 1), env.config.maxDrift)
  }

  /** Puts `prefix` in front of the messages of a successful stamping. */
  function Prepend(prefix: seq<CrdtMessage>, r: Result<Stamped, TimestampError>): Result<Stamped, TimestampError>
  {
    match r
    case Failure(e) => Failure(e)
    case Success(s) => Success(Stamped(prefix + s.messages, s.timestamp))
  }

  /** Prepending nothing leaves a stamping unchanged. */
  lemma PrependNothing(r: Result<Stamped, TimestampError>)
    ensures Prepend([], r) == r
  {
    if r.Success? {
      assert [] + r.value.messages == r.value.messages;
    }
  }

  /** Prepending twice is prepending the concatenation. */
  lemma PrependTwice(a: seq<CrdtMessage>, b: seq<CrdtMessage>, r: Result<Stamped, TimestampError>)
    ensures Prepend(a, Prepend(b, r)) == Prepend(a + b, r)
  {
    if r.Success? {
      assert a + (b + r.value.messages) == (a + b) + r.value.messages;
    }
  }

  /**
   * Specification of `sendMessages`: stamps `messages` starting from
   * timestamp `t`, where `k` timestamps of the batch have already been issued.
   */
  function Stamp(env: Env, t: Timestamp, messages: seq<NewCrdtMessage>, k: nat): Result<Stamped, TimestampError>
    decreases |messages|
  {
    if messages == [] then Success(Stamped([], t))
    else match env.sendTimestamp(t, env.now(k), env.config.maxDrift)
      case Failure(e) => Failure(e)
      case Success(next) =>
        Prepend([Attach(messages[0], env.timestampToString(next))], Stamp(env, next, messages[1..], k + 1))
  }

  /**
   * The stamping loop: walks the batch in order, reassigning the running
   * timestamp after every call, and returns the stamped messages with the
   * last timestamp issued, or the first drift or counter-overflow error.
   */
  method SendMessages(env: Env, timestamp: Timestamp, messages: seq<NewCrdtMessage>)
    returns (r: Result<Stamped, TimestampError>)
    requires |messages| > 0
    ensures r == Stamp(env, timestamp, messages, 0)
    ensures r.Success? ==> |r.value.messages| == |messages|
  {
    var t := timestamp;
    var out: seq<CrdtMessage> := [];
    var i := 0;
    assert messages[0..] == messages;
    PrependNothing(Stamp(env, timestamp, messages, 0));
    while i < |messages|
      invariant 0 <= i <= |messages|
      invariant Stamp(env, timestamp, messages, 0) == Prepend(out, Stamp(env, t, messages[i..], i))
    {
      assert messages[i..][1..] == messages[i + 1..];
      assert messages[i..][0] == messages[i];
      var next := env.sendTimestamp(t, env.now(i), env.config.maxDrift);
      if next.Failure? {
        assert Stamp(env, t, messages[i..], i) == Failure(next.error);
        return Failure(next.error);
      }
      t := next.value;
      PrependTwice(out, [Attach(messages[i], env.timestampToString(t))], Stamp(env, t, messages[i + 1..], i + 1));
      out := out + [Attach(messages[i], env.timestampToString(t))];
      i := i + 1;
    }
    assert messages[i..] == [];
    assert out + [] == out;
    r := Success(Stamped(out, t));
    StampLength(env, timestamp, messages, 0);
  }

  /** Stamping succeeds with exactly one stamped message per input message. */
  lemma {:induction false} StampLength(env: Env, t: Timestamp, messages: seq<NewCrdtMessage>, k: nat)
    requires Stamp(env, t, messages, k).Success?
    ensures |Stamp(env, t, messages, k).value.messages| == |messages|
    decreases |messages|
  {
    if messages != [] {
      var next := env.sendTimestamp(t, env.now(k), env.config.maxDrift).value;
      StampLength(env, next, messages[1..], k + 1);
    }
  }

  /** Each stamped message keeps the table, row, column and value of its input. */
  lemma {:induction false} StampCopiesFields(env: Env, t: Timestamp, messages: seq<NewCrdtMessage>, k: nat)
    requires Stamp(env, t, messages, k).Success?
    ensures |Stamp(env, t, messages, k).value.messages| == |messages|
    ensures forall i :: 0 <= i < |messages| ==>
      var m := Stamp(env, t, messages, k).value.messages[i];
      m.table == messages[i].table && m.row == messages[i].row &&
      m.column == messages[i].column && m.value == messages[i].value
    decreases |messages|
  {
    if messages != [] {
      var next := env.sendTimestamp(t, env.now(k), env.config.maxDrift).value;
      StampCopiesFields(env, next, messages[1..], k + 1);
    }
  }

  /** Once an issue fails, every later iterate fails with the same error. */
  lemma {:induction false} IssueFailurePersists(env: Env, t0: Timestamp, j: nat, k: nat)
    requires j <= k && Issue(env, t0, j).Failure?
    ensures Issue(env, t0, k) == Issue(env, t0, j)
    decreases k
  {
    if j < k {
      IssueFailurePersists(env, t0, j, k - 1);
    }
  }

  /**
   * Stamping the rest of a batch after k timestamps agrees with the
   * reference iterates on its outcome: it succeeds exactly when the last
   * iterate does, fails with that iterate's error, and on success returns
   * the last iterate as its timestamp.
   */
  lemma {:induction false} StampOutcome(env: Env, t0: Timestamp, k: nat, t: Timestamp, messages: seq<NewCrdtMessage>)
    requires Issue(env, t0, k) == Success(t)
    ensures Stamp(env, t, messages, k).Success? <==> Issue(env, t0, k + |messages|).Success?
    ensures Stamp(env, t, messages, k).Failure? ==>
      Stamp(env, t, messages, k).error == Issue(env, t0, k + |messages|).error
    ensures Stamp(env, t, messages, k).Success? ==>
      Issue(env, t0, k + |messages|) == Success(Stamp(env, t, messages, k).value.timestamp)
    decreases |messages|
  {
    if messages != [] {
      var call := env.sendTimestamp(t, env.now(k), env.config.maxDrift);
      assert Issue(env, t0, k + 1) == call;
      if call.Failure? {
        IssueFailurePersists(env, t0, k + 1, k + |messages|);
      } else {
        StampOutcome(env, t0, k + 1, call.value, messages[1..]);
      }
    }
  }

  /**
   * Stamping the rest of a batch after k timestamps gives the message at
   * position j - k - 1 the j-th iterate.
   */
  lemma {:induction false} StampAt(env: Env, t0: Timestamp, k: nat, t: Timestamp, messages: seq<NewCrdtMessage>)
    requires Issue(env, t0, k) == Success(t)
    requires Stamp(env, t, messages, k).Success?
    ensures |Stamp(env, t, messages, k).value.messages| == |messages|
    ensures forall j :: k < j <= k + |messages| ==>
      Issue(env, t0, j).Success? &&
      Stamp(env, t, messages, k).value.messages[j - k - 1]
        == Attach(messages[j - k - 1], env.timestampToString(Issue(env, t0, j).value))
    decreases |messages|
  {
    if messages != [] {
      var next := env.sendTimestamp(t, env.now(k), env.config.maxDrift).value;
      assert Issue(env, t0, k + 1) == Success(next);
      StampAt(env, t0, k + 1, next, messages[1..]);
      var s := Stamp(env, t, messages, k).value.messages;
      var rest := Stamp(env, next, messages[1..], k + 1).value.messages;
      assert s == [Attach(messages[0], env.timestampToString(next))] + rest;
    }
  }

  /**
   * The j-th stamped message (counting from 1) carries the string form of
   * the j-th iterate of `sendTimestamp` from the clock's timestamp.
   */
  lemma {:induction false} StampTimestamps(env: Env, t0: Timestamp, messages: seq<NewCrdtMessage>)
    requires Stamp(env, t0, messages, 0).Success?
    ensures |Stamp(env, t0, messages, 0).value.messages| == |messages|
    ensures forall j :: 0 < j <= |messages| ==>
      Issue(env, t0, j).Success? &&
      Stamp(env, t0, messages, 0).value.messages[j - 1].timestamp == env.timestampToString(Issue(env, t0, j).value)
  {
    StampAt(env, t0, 0, t0, messages);
  }

  /**
   * The timestamp returned beside the stamped messages is the last one
   * issued, the one whose string form the final message carries.
   */
  lemma {:induction false} StampLastTimestamp(env: Env, t0: Timestamp, messages: seq<NewCrdtMessage>)
    requires |messages| > 0
    requires Stamp(env, t0, messages, 0).Success?
    ensures var s := Stamp(env, t0, messages, 0).value;
      |s.messages| == |messages| &&
      Issue(env, t0, |messages|) == Success(s.timestamp) &&
      s.messages[|messages| - 1].timestamp == env.timestampToString(s.timestamp)
  {
    StampOutcome(env, t0, 0, t0, messages);
    StampAt(env, t0, 0, t0, messages);
  }

  /**
   * Stamping fails exactly when some call of `sendTimestamp` fails, and then
   * with the error of the first failing call: every call before it succeeded.
   */
  lemma {:induction false} StampFailure(env: Env, t0: Timestamp, messages: seq<NewCrdtMessage>)
    ensures Stamp(env, t0, messages, 0).Failure? <==> Issue(env, t0, |messages|).Failure?
    ensures Stamp(env, t0, messages, 0).Failure? ==>
      exists j :: 0 <= j < |messages| && Issue(env, t0, j).Success? &&
        env.sendTimestamp(Issue(env, t0, j).value, env.now(j), env.config.maxDrift)
          == Failure(Stamp(env, t0, messages, 0).error)
  {
    StampOutcome(env, t0, 0, t0, messages);
    if Stamp(env, t0, messages, 0).Failure? {
      var j := FirstFailure(env, t0, |messages|);
      assert Issue(env, t0, j + 1) == env.sendTimestamp(Issue(env, t0, j).value, env.now(j), env.config.maxDrift);
    }
  }

  /** Finds the call that made the k-th iterate fail. */
  lemma {:induction false} FirstFailure(env: Env, t0: Timestamp, k: nat) returns (j: nat)
    requires Issue(env, t0, k).Failure?
    ensures j < k && Issue(env, t0, j).Success?
    ensures Issue(env, t0, j + 1) == Issue(env, t0, k)
  {
    if Issue(env, t0, k - 1).Failure? {
      j := FirstFailure(env, t0, k - 1);
    } else {
      j := k - 1;
    }
  }

  /** Under an increasing `sendTimestamp`, the iterates up to k increase. */
  lemma {:induction false} IssueIncreasing(env: Env, t0: Timestamp, i: nat, j: nat)
    requires forall t, now, drift :: env.sendTimestamp(t, now, drift).Success? ==>
      Before(t, env.sendTimestamp(t, now, drift).value)
    requires i < j && Issue(env, t0, j).Success?
    ensures Issue(env, t0, i).Success? && Before(Issue(env, t0, i).value, Issue(env, t0, j).value)
    decreases j
  {
    if Issue(env, t0, j - 1).Failure? {
      IssueFailurePersists(env, t0, j - 1, j);
    }
    if i < j - 1 {
      IssueIncreasing(env, t0, i, j - 1);
    }
  }

  /**
   * If `sendTimestamp` always issues a later timestamp than it is given,
   * the timestamps of a stamped batch are strictly increasing and all later
   * than the clock's timestamp.
   */
  lemma {:induction false} StampIncreasing(env: Env, t0: Timestamp, messages: seq<NewCrdtMessage>)
    requires forall t, now, drift :: env.sendTimestamp(t, now, drift).Success? ==>
      Before(t, env.sendTimestamp(t, now, drift).value)
    requires Stamp(env, t0, messages, 0).Success?
    ensures forall i, j :: 0 <= i < j <= |messages| ==>
      Issue(env, t0, i).Success? && Issue(env, t0, j).Success? &&
      Before(Issue(env, t0, i).value, Issue(env, t0, j).value)
  {
    StampOutcome(env, t0, 0, t0, messages);
    forall i, j | 0 <= i < j <= |messages|
      ensures Issue(env, t0, i).Success? && Issue(env, t0, j).Success?
      ensures Before(Issue(env, t0, i).value, Issue(env, t0, j).value)
    {
      if Issue(env, t0, j).Failure? {
        IssueFailurePersists(env, t0, j, |messages|);
      }
      IssueIncreasing(env, t0, i, j);
    }
  }

  /**
   * If moreover the string form is injective, no two messages of a stamped
   * batch carry the same timestamp string.
   */
  lemma {:induction false} StampDistinctTimestamps(env: Env, t0: Timestamp, messages: seq<NewCrdtMessage>)
    requires forall t, now, drift :: env.sendTimestamp(t, now, drift).Success? ==>
      Before(t, env.sendTimestamp(t, now, drift).value)
    requires forall a, b :: env.timestampToString(a) == env.timestampToString(b) ==> a == b
    requires Stamp(env, t0, messages, 0).Success?
    ensures |Stamp(env, t0, messages, 0).value.messages| == |messages|
    ensures forall i, j :: 0 <= i < j < |messages| ==>
      Stamp(env, t0, messages, 0).value.messages[i].timestamp != Stamp(env, t0, messages, 0).value.messages[j].timestamp
  {
    StampTimestamps(env, t0, messages);
    StampIncreasing(env, t0, messages);
    var s := Stamp(env, t0, messages, 0).value.messages;
    forall i, j | 0 <= i < j < |messages|
      ensures s[i].timestamp != s[j].timestamp
    {
      var a, b := Issue(env, t0, i + 1), Issue(env, t0, j + 1);
      assert s[i].timestamp == env.timestampToString(a.value);
      assert s[j].timestamp == env.timestampToString(b.value);
      assert Before(a.value, b.value);
    }
  }
}
