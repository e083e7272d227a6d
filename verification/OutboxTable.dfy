/** The outbox table, the rows a worker claims, and the updates that settle a claim. */
module OutboxTable {
  import opened Common
  import opened RetryBackoff

  type MessageId = nat
  type Owner = nat

  /** The worker settings, in the ranges that settings validation enforces. */
  datatype Settings = Settings(
    leaseSeconds: int,
    batchSize: nat,
    maxAttempts: nat,
    backoffBase: int,
    backoffMax: int)
  {
    predicate Valid() {
      && 0 < leaseSeconds <= 3600
      && 0 < batchSize <= 100
      && 0 < maxAttempts <= 100
      && 0 < backoffBase <= 3600
      && backoffBase <= backoffMax <= 86400
    }
  }

  datatype Status = Pending | Processing | Succeeded | DeadLetter
  datatype Category = Expired | InvalidPayload | Smtp

  datatype Row = Row(
    status: Status,
    attemptCount: nat,
    availableAt: Time,
    createdAt: Time,
    leaseOwner: Option<Owner>,
    leaseExpiresAt: Option<Time>,
    payload: Option<nat>,
    payloadExpiresAt: Time,
    failureCategory: Option<Category>,
    terminalAt: Option<Time>)
  {
    predicate Terminal() { status == Succeeded || status == DeadLetter }
  }

  /** The check constraints of the table: lease columns and terminal columns follow the status. */
  predicate RowConstraints(row: Row) {
    && (row.status == Processing <==> row.leaseOwner.Some?)
    && (row.status == Processing <==> row.leaseExpiresAt.Some?)
    && (row.Terminal() <==> row.terminalAt.Some?)
    && (row.Terminal() <==> row.payload.None?)
  }

  /** What a worker remembers of a row it claimed. */
  datatype ClaimedMessage = ClaimedMessage(
    id: MessageId,
    payload: Option<nat>,
    payloadExpiresAt: Time,
    attemptCount: nat,
    leaseRecovered: bool)

  function NewRow(now: Time, payload: nat, expiresAt: Time): Row {
    Row(Pending, 0, now, now, None, None, Some(payload), expiresAt, None, None)
  }

  // ---- Claiming ----

  predicate Claimable(row: Row, now: Time) {
    || (row.status == Pending && row.availableAt <= now)
    || (row.status == Processing && row.leaseExpiresAt.Some? && row.leaseExpiresAt.value <= now)
  }

  predicate Before(a: Row, b: Row) {
    a.availableAt < b.availableAt || (a.availableAt == b.availableAt && a.createdAt < b.createdAt)
  }

  /**
    The answer of the claim query: claimable rows that no other transaction has locked, in order of
    availability and creation, cut off at the batch size.
   */
  ghost predicate IsBatch(cfg: Settings, rows: map<MessageId, Row>, locked: set<MessageId>, now: Time,
                          batch: seq<MessageId>)
  {
    && Distinct(batch)
    && |batch| <= cfg.batchSize
    && (forall i :: 0 <= i < |batch| ==>
          batch[i] in rows && Claimable(rows[batch[i]], now) && batch[i] !in locked)
    && (forall i, j :: 0 <= i < j < |batch| ==> !Before(rows[batch[j]], rows[batch[i]]))
    && (forall id :: id in rows && Claimable(rows[id], now) && id !in locked && id !in batch ==>
          |batch| == cfg.batchSize && forall i :: 0 <= i < |batch| ==> !Before(rows[id], rows[batch[i]]))
  }

  function ClaimRow(cfg: Settings, row: Row, owner: Owner, now: Time): Row {
    row.(status := Processing,
         leaseOwner := Some(owner),
         leaseExpiresAt := Some(now + cfg.leaseSeconds * SECOND),
         attemptCount := row.attemptCount + 1)
  }

  function Snapshot(id: MessageId, row: Row): ClaimedMessage {
    ClaimedMessage(id, row.payload, row.payloadExpiresAt, row.attemptCount + 1, row.status == Processing)
  }

  function ClaimRows(cfg: Settings, rows: map<MessageId, Row>, batch: seq<MessageId>, owner: Owner, now: Time)
    : map<MessageId, Row>
  {
    map id | id in rows :: if id in batch then ClaimRow(cfg, rows[id], owner, now) else rows[id]
  }

  function Snapshots(rows: map<MessageId, Row>, batch: seq<MessageId>): seq<ClaimedMessage>
    requires forall i :: 0 <= i < |batch| ==> batch[i] in rows
  {
    seq(|batch|, i requires 0 <= i < |batch| => Snapshot(batch[i], rows[batch[i]]))
  }

  // ---- Settling ----

  datatype Values =
    | SucceededValues(at: Time)
    | DeadLetterValues(at: Time, category: Category)
    | RetryValues(availableAt: Time, category: Category)

  function ApplyValues(row: Row, values: Values): Row {
    match values
    case SucceededValues(at) =>
      row.(status := Succeeded, payload := None, leaseOwner := None, leaseExpiresAt := None,
           failureCategory := None, terminalAt := Some(at))
    case DeadLetterValues(at, category) =>
      row.(status := DeadLetter, payload := None, availableAt := at, leaseOwner := None,
           leaseExpiresAt := None, failureCategory := Some(category), terminalAt := Some(at))
    case RetryValues(availableAt, category) =>
      row.(status := Pending, availableAt := availableAt, leaseOwner := None,
           leaseExpiresAt := None, failureCategory := Some(category))
  }

  predicate Owns(rows: map<MessageId, Row>, id: MessageId, owner: Owner) {
    id in rows && rows[id].status == Processing && rows[id].leaseOwner == Some(owner)
  }

  function OwnedUpdate(rows: map<MessageId, Row>, id: MessageId, owner: Owner, values: Values): map<MessageId, Row> {
    if Owns(rows, id, owner) then rows[id := ApplyValues(rows[id], values)] else rows
  }

  /** Dead letter when the failure is final, the attempts are used up or the payload has expired. */
  function FailureValues(cfg: Settings, m: ClaimedMessage, category: Category, retryable: bool, now: Time,
                         digest: nat): Values
    requires cfg.Valid() && m.attemptCount >= 1
  {
    if !retryable || m.attemptCount >= cfg.maxAttempts || m.payloadExpiresAt <= now then
      DeadLetterValues(now, category)
    else
      RetryValues(now + RetryDelay(cfg.backoffBase, cfg.backoffMax, m.attemptCount, digest) * SECOND, category)
  }

  datatype Outcome = SucceededOutcome | DeadLettered | Retried | StaleOwner

  function OutcomeOf(updated: bool, values: Values): Outcome {
    if !updated then StaleOwner
    else match values
         case SucceededValues(_) => SucceededOutcome
         case DeadLetterValues(_, _) => DeadLettered
         case RetryValues(_, _) => Retried
  }

  /** The rows of the table and the transactions of the worker, each committed as one step. */
  class MessageTable {
    var rows: map<MessageId, Row>

    constructor ()
      ensures rows == map[]
    {
      rows := map[];
    }

    method ClaimMessages(cfg: Settings, owner: Owner, now: Time, ghost locked: set<MessageId>, batch: seq<MessageId>)
      returns (claimed: seq<ClaimedMessage>)
      requires cfg.Valid() && IsBatch(cfg, rows, locked, now, batch)
      modifies this
      ensures rows == ClaimRows(cfg, old(rows), batch, owner, now)
      ensures claimed == Snapshots(old(rows), batch)
    {
      var leaseExpiresAt := now + cfg.leaseSeconds * SECOND;
      claimed := [];
      for i := 0 to |batch|
        invariant rows.Keys == old(rows).Keys
        invariant forall id :: id in rows ==>
          rows[id] == if id in batch[..i] then ClaimRow(cfg, old(rows)[id], owner, now) else old(rows)[id]
        invariant |claimed| == i
        invariant forall k :: 0 <= k < i ==> claimed[k] == Snapshot(batch[k], old(rows)[batch[k]])
      {
        var id := batch[i];
        assert id !in batch[..i];
        var message := rows[id];
        var recovered := message.status == Processing;
        message := message.(status := Processing, leaseOwner := Some(owner), leaseExpiresAt := Some(leaseExpiresAt));
        message := message.(attemptCount := message.attemptCount + 1);
        rows := rows[id := message];
        claimed := claimed +
          [ClaimedMessage(id, message.payload, message.payloadExpiresAt, message.attemptCount, recovered)];
        assert batch[..i + 1] == batch[..i] + [id];
      }
      assert batch[..|batch|] == batch;
    }

    method UpdateOwned(id: MessageId, owner: Owner, values: Values) returns (updated: bool)
      modifies this
      ensures updated <==> Owns(old(rows), id, owner)
      ensures rows == OwnedUpdate(old(rows), id, owner, values)
    {
      updated := id in rows && rows[id].status == Processing && rows[id].leaseOwner == Some(owner);
      if updated {
        rows := rows[id := ApplyValues(rows[id], values)];
      }
    }

    method MarkSucceeded(m: ClaimedMessage, owner: Owner, now: Time) returns (updated: bool)
      modifies this
      ensures updated <==> Owns(old(rows), m.id, owner)
      ensures rows == OwnedUpdate(old(rows), m.id, owner, SucceededValues(now))
    {
      updated := UpdateOwned(m.id, owner, SucceededValues(now));
    }

    method MarkFailed(cfg: Settings, m: ClaimedMessage, owner: Owner, category: Category, retryable: bool, now: Time,
                      digest: nat)
      returns (outcome: Outcome)
      requires cfg.Valid() && m.attemptCount >= 1
      modifies this
      ensures rows == OwnedUpdate(old(rows), m.id, owner, FailureValues(cfg, m, category, retryable, now, digest))
      ensures outcome ==
        OutcomeOf(Owns(old(rows), m.id, owner), FailureValues(cfg, m, category, retryable, now, digest))
      ensures outcome == StaleOwner <==> !Owns(old(rows), m.id, owner)
      ensures outcome == Retried <==>
        Owns(old(rows), m.id, owner) && retryable && m.attemptCount < cfg.maxAttempts && now < m.payloadExpiresAt
    {
      var terminal := !retryable || m.attemptCount >= cfg.maxAttempts || m.payloadExpiresAt <= now;
      var values;
      if terminal {
        outcome := DeadLettered;
        values := DeadLetterValues(now, category);
      } else {
        outcome := Retried;
        var delay := RetryDelay(cfg.backoffBase, cfg.backoffMax, m.attemptCount, digest);
        values := RetryValues(now + delay * SECOND, category);
      }
      var updated := UpdateOwned(m.id, owner, values);
      if !updated {
        outcome := StaleOwner;
      }
    }
  }

  /**
    A failure is retried exactly when it is retryable, attempts are left and the payload is still in
    time; either way the lease ends and the category is recorded, and a retry keeps payload and count.
   */
  lemma FailureExactly(cfg: Settings, row: Row, m: ClaimedMessage, category: Category, retryable: bool, now: Time, digest: nat)
    requires cfg.Valid() && m.attemptCount >= 1
    ensures var after := ApplyValues(row, FailureValues(cfg, m, category, retryable, now, digest));
            && (after.status == Pending <==> retryable && m.attemptCount < cfg.maxAttempts && now < m.payloadExpiresAt)
            && (after.status != Pending ==> after.status == DeadLetter && after.payload == None && after.terminalAt == Some(now))
            && (after.status == Pending ==> after.payload == row.payload && after.terminalAt == row.terminalAt)
            && after.leaseOwner == None && after.leaseExpiresAt == None && after.failureCategory == Some(category)
            && after.attemptCount == row.attemptCount && after.payloadExpiresAt == row.payloadExpiresAt
            && after.createdAt == row.createdAt
  {
  }

  /** A failed message becomes claimable again exactly when its backoff has passed, and no earlier than the base. */
  lemma RetryWaitsForBackoff(cfg: Settings, row: Row, m: ClaimedMessage, category: Category, now: Time, digest: nat,
                             later: Time)
    requires cfg.Valid() && m.attemptCount >= 1
    requires FailureValues(cfg, m, category, true, now, digest).RetryValues?
    ensures var retried := ApplyValues(row, FailureValues(cfg, m, category, true, now, digest));
            && (Claimable(retried, later) <==>
                later >= now + RetryDelay(cfg.backoffBase, cfg.backoffMax, m.attemptCount, digest) * SECOND)
            && (later < now + cfg.backoffBase * SECOND ==> !Claimable(retried, later))
            && (later >= now + cfg.backoffMax * SECOND ==> Claimable(retried, later))
  {
    DelayBounds(cfg.backoffBase, cfg.backoffMax, m.attemptCount, digest);
  }

  /** A claimed row is out of every other worker's reach until its lease runs out. */
  lemma LeaseProtects(cfg: Settings, row: Row, owner: Owner, now: Time, later: Time)
    requires cfg.Valid()
    ensures Claimable(ClaimRow(cfg, row, owner, now), later) <==> later >= now + cfg.leaseSeconds * SECOND
    ensures !Claimable(ClaimRow(cfg, row, owner, now), now)
  {
    assert cfg.leaseSeconds * SECOND > 0;
  }

  /** A claimed row has been available longest, then exists longest, among the claimable rows that others have not locked. */
  lemma ClaimOrder(cfg: Settings, rows: map<MessageId, Row>, locked: set<MessageId>, now: Time, batch: seq<MessageId>,
                   i: nat, id: MessageId)
    requires IsBatch(cfg, rows, locked, now, batch) && i < |batch|
    requires id in rows && id !in locked && (id in batch ==> id in batch[i + 1..])
    requires (rows[id].status == Pending && rows[id].availableAt <= now)
          || (rows[id].status == Processing && rows[id].leaseExpiresAt.Some? && rows[id].leaseExpiresAt.value <= now)
    ensures id !in batch ==> |batch| == cfg.batchSize
    ensures rows[batch[i]].availableAt < rows[id].availableAt
         || (rows[batch[i]].availableAt == rows[id].availableAt && rows[batch[i]].createdAt <= rows[id].createdAt)
  {
    if id in batch {
      var j :| 0 <= j < |batch[i + 1..]| && batch[i + 1..][j] == id;
      assert batch[i + 1 + j] == id;
    }
  }

  /** Whatever rows are locked, the claim query has an answer. */
  lemma BatchExists(cfg: Settings, rows: map<MessageId, Row>, locked: set<MessageId>, now: Time)
    returns (batch: seq<MessageId>)
    ensures IsBatch(cfg, rows, locked, now, batch)
  {
    var eligible := set id | id in rows && Claimable(rows[id], now) && id !in locked;
    batch := [];
    while |batch| < cfg.batchSize && eligible != {}
      invariant Distinct(batch) && |batch| <= cfg.batchSize
      invariant forall i :: 0 <= i < |batch| ==>
        batch[i] in rows && Claimable(rows[batch[i]], now) && batch[i] !in locked
      invariant forall id :: id in eligible ==> id in rows && id !in batch && Claimable(rows[id], now) && id !in locked
      invariant forall id :: id in rows && Claimable(rows[id], now) && id !in locked && id !in batch ==> id in eligible
      invariant forall i, j :: 0 <= i < j < |batch| ==> !Before(rows[batch[j]], rows[batch[i]])
      invariant forall id, i :: id in eligible && 0 <= i < |batch| ==> !Before(rows[id], rows[batch[i]])
      decreases |eligible|
    {
      var next := FirstOf(rows, eligible);
      eligible := eligible - {next};
      DistinctAppend(batch, next);
      batch := batch + [next];
    }
  }

  lemma {:induction false} FirstOf(rows: map<MessageId, Row>, ids: set<MessageId>) returns (first: MessageId)
    requires ids != {} && forall id :: id in ids ==> id in rows
    ensures first in ids && forall id :: id in ids ==> !Before(rows[id], rows[first])
    decreases |ids|
  {
    var id :| id in ids;
    if ids == {id} {
      first := id;
    } else {
      var rest := ids - {id};
      assert rest != {};
      first := FirstOf(rows, rest);
      if Before(rows[id], rows[first]) {
        first := id;
      }
    }
  }
}
