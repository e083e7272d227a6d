/**
  The worker loop over the table: one `RunOnce` without interference is exactly one path of the
  lease protocol, so what the protocol guarantees covers the loop as written.
 */
module OutboxWorker {
  import opened Common
  import opened OutboxTable
  import opened OutboxProtocol

  /** What the environment answers while one message is processed. */
  datatype Attempt = Attempt(checkedAt: Time, decrypts: bool, sendCompletes: bool, settledAt: Time, digest: nat)

  /** One turn of the loop: a stop signal that may have arrived, the monotonic clock, and the attempt. */
  datatype Turn = Turn(signal: Option<int>, monotonic: int, attempt: Attempt)

  function Stopped(stop: Option<int>, signal: Option<int>): Option<int> {
    if stop.Some? then stop else signal
  }

  predicate GraceExpired(stop: Option<int>, grace: int, monotonic: int) {
    stop.Some? && monotonic - stop.value >= grace
  }

  function MessageEvents(w: Owner, m: ClaimedMessage, t: Attempt): seq<Event> {
    if m.payloadExpiresAt <= t.checkedAt then [FindExpired(w, t.checkedAt), Fail(w, t.settledAt, t.digest)]
    else if !t.decrypts then [FindInvalid(w, t.checkedAt), Fail(w, t.settledAt, t.digest)]
    else if !t.sendCompletes then [Send(w, t.checkedAt, false), Fail(w, t.settledAt, t.digest)]
    else [Send(w, t.checkedAt, true), Succeed(w, t.settledAt)]
  }

  function BatchEvents(w: Owner, stop: Option<int>, grace: int, batch: seq<ClaimedMessage>, turns: seq<Turn>): seq<Event>
    requires |batch| == |turns|
    decreases |batch|
  {
    if batch == [] then []
    else
      var stop' := Stopped(stop, turns[0].signal);
      if GraceExpired(stop', grace, turns[0].monotonic) then [LetGo(w)]
      else MessageEvents(w, batch[0], turns[0].attempt) + BatchEvents(w, stop', grace, batch[1..], turns[1..])
  }

  /** How processing one message settles it. */
  function MessageValues(cfg: Settings, m: ClaimedMessage, t: Attempt): Values
    requires cfg.Valid() && m.attemptCount >= 1
  {
    if m.payloadExpiresAt <= t.checkedAt then FailureValues(cfg, m, Expired, false, t.settledAt, t.digest)
    else if !t.decrypts then FailureValues(cfg, m, InvalidPayload, false, t.settledAt, t.digest)
    else if !t.sendCompletes then FailureValues(cfg, m, Smtp, true, t.settledAt, t.digest)
    else SucceededValues(t.settledAt)
  }

  /** How one message is settled, told by what the worker met on the way. */
  lemma SettlementExactly(cfg: Settings, row: Row, m: ClaimedMessage, t: Attempt)
    requires cfg.Valid() && m.attemptCount >= 1
    ensures var after := ApplyValues(row, MessageValues(cfg, m, t));
            && (after.status == Succeeded <==> t.checkedAt < m.payloadExpiresAt && t.decrypts && t.sendCompletes)
            && (after.status == Pending <==>
                t.checkedAt < m.payloadExpiresAt && t.decrypts && !t.sendCompletes
                && m.attemptCount < cfg.maxAttempts && t.settledAt < m.payloadExpiresAt)
            && (after.status == Succeeded || after.status == Pending || after.status == DeadLetter)
            && after.failureCategory == (if m.payloadExpiresAt <= t.checkedAt then Some(Expired)
                                         else if !t.decrypts then Some(InvalidPayload)
                                         else if !t.sendCompletes then Some(Smtp)
                                         else None)
            && after.leaseOwner == None && (after.payload == None <==> after.status != Pending || row.payload == None)
  {
  }

  /** The rows after the loop over a claimed batch, which ends early once the shutdown grace is over. */
  function ProcessBatch(cfg: Settings, rows: map<MessageId, Row>, w: Owner, stop: Option<int>, grace: int,
                        batch: seq<ClaimedMessage>, turns: seq<Turn>): map<MessageId, Row>
    requires cfg.Valid() && |batch| == |turns|
    requires forall i :: 0 <= i < |batch| ==> batch[i].attemptCount >= 1
    decreases |batch|
  {
    if batch == [] then rows
    else
      var stop' := Stopped(stop, turns[0].signal);
      if GraceExpired(stop', grace, turns[0].monotonic) then rows
      else ProcessBatch(cfg, OwnedUpdate(rows, batch[0].id, w, MessageValues(cfg, batch[0], turns[0].attempt)),
                        w, stop', grace, batch[1..], turns[1..])
  }

  predicate Starting(sys: System, w: Owner, m: ClaimedMessage) {
    AtWork(sys, w) && WorkerOf(sys, w).phase == Ready && Current(sys, w) == m
  }

  lemma HeldIsClaimed(cfg: Settings, sys: System, w: Owner)
    requires cfg.Valid() && Inv(cfg, sys) && AtWork(sys, w)
    ensures Current(sys, w).attemptCount >= 1 && Current(sys, w).id in sys.audits
  {
    assert HandOk(sys, w);
  }

  /** A check that ends in failure, and the settlement of that failure. */
  lemma FailurePath(cfg: Settings, sys: System, w: Owner, m: ClaimedMessage, check: Event, settledAt: Time, digest: nat)
    requires cfg.Valid() && Starting(sys, w, m) && m.attemptCount >= 1 && Enabled(cfg, sys, check)
    requires check.FindExpired? || check.FindInvalid? || (check.Send? && !check.completed)
    requires check.worker == w
    ensures var (category, retryable) := if check.FindExpired? then (Expired, false)
                                         else if check.FindInvalid? then (InvalidPayload, false) else (Smtp, true);
            var after := Next(cfg, Next(cfg, sys, check), Fail(w, settledAt, digest));
            && after.rows == OwnedUpdate(sys.rows, m.id, w, FailureValues(cfg, m, category, retryable, settledAt, digest))
            && WorkerOf(after, w) == NextMessage(sys, w)
  {
  }

  lemma DeliveryPath(cfg: Settings, sys: System, w: Owner, m: ClaimedMessage, checkedAt: Time, settledAt: Time)
    requires cfg.Valid() && Starting(sys, w, m) && Enabled(cfg, sys, Send(w, checkedAt, true))
    ensures var after := Next(cfg, Next(cfg, sys, Send(w, checkedAt, true)), Succeed(w, settledAt));
            && after.rows == OwnedUpdate(sys.rows, m.id, w, SucceededValues(settledAt))
            && WorkerOf(after, w) == NextMessage(sys, w)
  {
  }

  lemma MessagePath(cfg: Settings, sys: System, w: Owner, m: ClaimedMessage, t: Attempt)
    requires cfg.Valid() && Starting(sys, w, m)
    requires m.attemptCount >= 1 && m.id in sys.audits
    ensures var after := Run(cfg, sys, MessageEvents(w, m, t));
            && after.rows == OwnedUpdate(sys.rows, m.id, w, MessageValues(cfg, m, t))
            && WorkerOf(after, w) == NextMessage(sys, w)
  {
    var events := MessageEvents(w, m, t);
    RunTwo(cfg, sys, events[0], events[1]);
    if events[0].Send? && events[0].completed {
      DeliveryPath(cfg, sys, w, m, t.checkedAt, t.settledAt);
    } else {
      FailurePath(cfg, sys, w, m, events[0], t.settledAt, t.digest);
    }
  }

  lemma {:induction false} RunKeepsInvFrom(cfg: Settings, sys: System, events: seq<Event>)
    requires cfg.Valid() && Inv(cfg, sys)
    ensures Inv(cfg, Run(cfg, sys, events))
  {
    if events != [] {
      RunKeepsInvFrom(cfg, sys, events[..|events| - 1]);
      NextKeepsInv(cfg, Run(cfg, sys, events[..|events| - 1]), events[|events| - 1]);
    }
  }

  lemma {:induction false} RunConcat(cfg: Settings, sys: System, a: seq<Event>, b: seq<Event>)
    requires cfg.Valid()
    ensures Run(cfg, sys, a + b) == Run(cfg, Run(cfg, sys, a), b)
  {
    if b == [] {
      assert a + b == a;
    } else {
      assert (a + b)[..|a + b| - 1] == a + b[..|b| - 1];
      RunConcat(cfg, sys, a, b[..|b| - 1]);
    }
  }

  lemma RunTwo(cfg: Settings, sys: System, e: Event, f: Event)
    requires cfg.Valid()
    ensures Run(cfg, sys, [e, f]) == Next(cfg, Next(cfg, sys, e), f)
  {
    RunOne(cfg, sys, e);
    assert [e, f][..1] == [e];
  }

  lemma RunOne(cfg: Settings, sys: System, e: Event)
    requires cfg.Valid()
    ensures Run(cfg, sys, [e]) == Next(cfg, sys, e)
  {
    assert [e][..0] == [];
    assert Run(cfg, sys, []) == sys;
  }

  /** The head of a batch, processed: the invariant holds and the rest of the batch is next. */
  lemma HeadPath(cfg: Settings, sys: System, w: Owner, batch: seq<ClaimedMessage>, t: Attempt)
    requires cfg.Valid() && Inv(cfg, sys) && batch != [] && WorkerOf(sys, w) == Busy(batch, Ready) && batch[0].attemptCount >= 1
    ensures var after := Run(cfg, sys, MessageEvents(w, batch[0], t));
            && Inv(cfg, after)
            && after.rows == OwnedUpdate(sys.rows, batch[0].id, w, MessageValues(cfg, batch[0], t))
            && WorkerOf(after, w) == if batch[1..] == [] then Idle else Busy(batch[1..], Ready)
  {
    HeldIsClaimed(cfg, sys, w);
    MessagePath(cfg, sys, w, batch[0], t);
    RunKeepsInvFrom(cfg, sys, MessageEvents(w, batch[0], t));
  }

  lemma {:induction false} BatchPath(cfg: Settings, sys: System, w: Owner, stop: Option<int>, grace: int,
                                     batch: seq<ClaimedMessage>, turns: seq<Turn>)
    requires cfg.Valid() && Inv(cfg, sys) && |batch| == |turns|
    requires WorkerOf(sys, w) == if batch == [] then Idle else Busy(batch, Ready)
    requires forall i :: 0 <= i < |batch| ==> batch[i].attemptCount >= 1
    ensures Run(cfg, sys, BatchEvents(w, stop, grace, batch, turns)).rows
         == ProcessBatch(cfg, sys.rows, w, stop, grace, batch, turns)
    decreases |batch|
  {
    if batch != [] {
      var stop' := Stopped(stop, turns[0].signal);
      if GraceExpired(stop', grace, turns[0].monotonic) {
        RunOne(cfg, sys, LetGo(w));
      } else {
        var step := MessageEvents(w, batch[0], turns[0].attempt);
        HeadPath(cfg, sys, w, batch, turns[0].attempt);
        RunConcat(cfg, sys, step, BatchEvents(w, stop', grace, batch[1..], turns[1..]));
        BatchPath(cfg, Run(cfg, sys, step), w, stop', grace, batch[1..], turns[1..]);
      }
    }
  }

  function RunOnceRows(cfg: Settings, rows: map<MessageId, Row>, w: Owner, grace: int, now: Time,
                       batch: seq<MessageId>, turns: seq<Turn>): map<MessageId, Row>
    requires cfg.Valid() && |batch| == |turns| && forall i :: 0 <= i < |batch| ==> batch[i] in rows
  {
    ProcessBatch(cfg, ClaimRows(cfg, rows, batch, w, now), w, None, grace, Snapshots(rows, batch), turns)
  }

  lemma ClaimedBatch(cfg: Settings, sys: System, w: Owner, now: Time, locked: set<MessageId>, batch: seq<MessageId>)
    requires cfg.Valid() && WorkerOf(sys, w).Idle? && IsBatch(cfg, sys.rows, locked, now, batch)
    ensures var next := Next(cfg, sys, Claim(w, now, locked, batch));
            && next.rows == ClaimRows(cfg, sys.rows, batch, w, now)
            && WorkerOf(next, w) == if Snapshots(sys.rows, batch) == [] then Idle else Busy(Snapshots(sys.rows, batch), Ready)
  {
  }

  /** An undisturbed `RunOnce` takes the rows where one path of the protocol takes them. */
  lemma RunOnceIsAPath(cfg: Settings, sys: System, w: Owner, grace: int, now: Time, locked: set<MessageId>,
                       batch: seq<MessageId>, turns: seq<Turn>)
    requires cfg.Valid() && Inv(cfg, sys) && WorkerOf(sys, w).Idle?
    requires IsBatch(cfg, sys.rows, locked, now, batch) && |turns| == |batch|
    ensures RunOnceRows(cfg, sys.rows, w, grace, now, batch, turns)
         == Run(cfg, sys, [Claim(w, now, locked, batch)]
                          + BatchEvents(w, None, grace, Snapshots(sys.rows, batch), turns)).rows
  {
    var claim, claimed := Claim(w, now, locked, batch), Snapshots(sys.rows, batch);
    NextKeepsInv(cfg, sys, claim);
    ClaimedBatch(cfg, sys, w, now, locked, batch);
    RunOne(cfg, sys, claim);
    RunConcat(cfg, sys, [claim], BatchEvents(w, None, grace, claimed, turns));
    BatchPath(cfg, Next(cfg, sys, claim), w, None, grace, claimed, turns);
  }

  // ---- The end of the grace period ----

  /** Turn `j` starts when the grace that began with the stop request, earlier or by then, is over. */
  ghost predicate OutOfTime(stop: Option<int>, turns: seq<Turn>, grace: int, j: nat)
    requires j < |turns|
  {
    if stop.Some? then grace <= turns[j].monotonic - stop.value
    else exists i :: 0 <= i <= j && turns[i].signal.Some? && (forall h :: 0 <= h < i ==> turns[h].signal == None)
                     && grace <= turns[j].monotonic - turns[i].signal.value
  }

  /** Every message of the batch settled in turn. */
  function SettleAll(cfg: Settings, rows: map<MessageId, Row>, w: Owner, batch: seq<ClaimedMessage>, turns: seq<Turn>)
    : map<MessageId, Row>
    requires cfg.Valid() && |batch| == |turns|
    requires forall i :: 0 <= i < |batch| ==> batch[i].attemptCount >= 1
    decreases |batch|
  {
    if batch == [] then rows
    else SettleAll(cfg, OwnedUpdate(rows, batch[0].id, w, MessageValues(cfg, batch[0], turns[0].attempt)), w, batch[1..], turns[1..])
  }

  lemma OutOfTimeShift(stop: Option<int>, turns: seq<Turn>, grace: int, j: nat)
    requires j + 1 < |turns|
    ensures OutOfTime(stop, turns, grace, j + 1) <==> OutOfTime(Stopped(stop, turns[0].signal), turns[1..], grace, j)
  {
    var rest := turns[1..];
    assert rest[j] == turns[j + 1];
    if stop == None && turns[0].signal == None {
      if i :| 0 <= i <= j + 1 && turns[i].signal.Some? && (forall h :: 0 <= h < i ==> turns[h].signal == None)
              && grace <= turns[j + 1].monotonic - turns[i].signal.value
      {
        assert rest[i - 1] == turns[i];
      }
      if i :| 0 <= i <= j && rest[i].signal.Some? && (forall h :: 0 <= h < i ==> rest[h].signal == None)
              && grace <= rest[j].monotonic - rest[i].signal.value
      {
        assert turns[i + 1] == rest[i];
        assert forall h :: 0 < h < i + 1 ==> turns[h] == rest[h - 1];
      }
    }
  }

  /** The loop settles exactly the messages before the first turn that is out of time. */
  lemma {:induction false} GraceEndsTheBatch(cfg: Settings, rows: map<MessageId, Row>, w: Owner, stop: Option<int>, grace: int,
                                             batch: seq<ClaimedMessage>, turns: seq<Turn>, n: nat)
    requires cfg.Valid() && |batch| == |turns| && n <= |batch|
    requires forall i :: 0 <= i < |batch| ==> batch[i].attemptCount >= 1
    requires forall j :: 0 <= j < n ==> !OutOfTime(stop, turns, grace, j)
    requires n < |batch| ==> OutOfTime(stop, turns, grace, n)
    ensures ProcessBatch(cfg, rows, w, stop, grace, batch, turns) == SettleAll(cfg, rows, w, batch[..n], turns[..n])
    decreases |batch|
  {
    if batch != [] {
      assert OutOfTime(stop, turns, grace, 0) <==> GraceExpired(Stopped(stop, turns[0].signal), grace, turns[0].monotonic);
      if n > 0 {
        forall j | 0 <= j < |turns| - 1
          ensures OutOfTime(stop, turns, grace, j + 1) <==> OutOfTime(Stopped(stop, turns[0].signal), turns[1..], grace, j)
        {
          OutOfTimeShift(stop, turns, grace, j);
        }
        var settled := OwnedUpdate(rows, batch[0].id, w, MessageValues(cfg, batch[0], turns[0].attempt));
        GraceEndsTheBatch(cfg, settled, w, Stopped(stop, turns[0].signal), grace, batch[1..], turns[1..], n - 1);
        assert batch[..n][1..] == batch[1..][..n - 1] && turns[..n][1..] == turns[1..][..n - 1];
      }
    }
  }

  class Worker {
    const table: MessageTable
    const owner: Owner
    const graceSeconds: int
    var stopRequestedAt: Option<int>

    constructor (table: MessageTable, owner: Owner, graceSeconds: int)
      ensures this.table == table && this.owner == owner && this.graceSeconds == graceSeconds
      ensures stopRequestedAt == None
    {
      this.table, this.owner, this.graceSeconds := table, owner, graceSeconds;
      stopRequestedAt := None;
    }

    method RequestStop(now: int)
      modifies this
      ensures stopRequestedAt == if old(stopRequestedAt).Some? then old(stopRequestedAt) else Some(now)
    {
      if stopRequestedAt == None {
        stopRequestedAt := Some(now);
      }
    }

    /** Checks, sends and settles one message. */
    method ProcessMessage(cfg: Settings, m: ClaimedMessage, t: Attempt) returns (outcome: Outcome)
      requires cfg.Valid() && m.attemptCount >= 1
      modifies table
      ensures table.rows == OwnedUpdate(old(table.rows), m.id, owner, MessageValues(cfg, m, t))
      ensures outcome == OutcomeOf(Owns(old(table.rows), m.id, owner), MessageValues(cfg, m, t))
      ensures outcome == StaleOwner <==> !Owns(old(table.rows), m.id, owner)
      ensures outcome == SucceededOutcome <==>
        Owns(old(table.rows), m.id, owner) && t.checkedAt < m.payloadExpiresAt && t.decrypts && t.sendCompletes
      ensures outcome == Retried <==>
        Owns(old(table.rows), m.id, owner) && t.checkedAt < m.payloadExpiresAt && t.decrypts && !t.sendCompletes
        && m.attemptCount < cfg.maxAttempts && t.settledAt < m.payloadExpiresAt
      ensures outcome == DeadLettered <==>
        Owns(old(table.rows), m.id, owner)
        && (m.payloadExpiresAt <= t.checkedAt || !t.decrypts
            || (!t.sendCompletes && (cfg.maxAttempts <= m.attemptCount || m.payloadExpiresAt <= t.settledAt)))
    {
      if m.payloadExpiresAt <= t.checkedAt {
        outcome := table.MarkFailed(cfg, m, owner, Expired, false, t.settledAt, t.digest);
      } else if !t.decrypts {
        outcome := table.MarkFailed(cfg, m, owner, InvalidPayload, false, t.settledAt, t.digest);
      } else if !t.sendCompletes {
        outcome := table.MarkFailed(cfg, m, owner, Smtp, true, t.settledAt, t.digest);
      } else {
        var updated := table.MarkSucceeded(m, owner, t.settledAt);
        outcome := if updated then SucceededOutcome else StaleOwner;
      }
    }

    method RunOnce(cfg: Settings, now: Time, ghost locked: set<MessageId>, batch: seq<MessageId>, turns: seq<Turn>)
      returns (processed: nat)
      requires cfg.Valid() && IsBatch(cfg, table.rows, locked, now, batch) && |turns| == |batch|
      modifies this, table
      ensures old(stopRequestedAt).Some? ==> processed == 0 && table.rows == old(table.rows)
      ensures old(stopRequestedAt).None? ==>
        processed == |batch| && table.rows == RunOnceRows(cfg, old(table.rows), owner, graceSeconds, now, batch, turns)
    {
      if stopRequestedAt.Some? {
        return 0;
      }
      ghost var result := RunOnceRows(cfg, table.rows, owner, graceSeconds, now, batch, turns);
      var messages := table.ClaimMessages(cfg, owner, now, locked, batch);
      processed := |messages|;
      assert messages[0..] == messages && turns[0..] == turns;
      for i := 0 to |messages|
        invariant ProcessBatch(cfg, table.rows, owner, stopRequestedAt, graceSeconds, messages[i..], turns[i..]) == result
      {
        var turn := turns[i];
        assert messages[i..][1..] == messages[i + 1..] && turns[i..][1..] == turns[i + 1..];
        if turn.signal.Some? {
          RequestStop(turn.signal.value);
        }
        if GraceExpired(stopRequestedAt, graceSeconds, turn.monotonic) {
          return;
        }
        var _ := ProcessMessage(cfg, messages[i], turn.attempt);
      }
    }
  }
}
