/**
  The lease protocol as a state machine: any number of workers, every interleaving of their committed
  transactions, crashes at any point, and clocks that need not agree or even move forward.

  An event that is not enabled leaves the system unchanged, so `Run` is total and a theorem about
  `Run(cfg, Start(), events)` speaks about every interleaving.
 */
module OutboxProtocol {
  import opened Common
  import opened OutboxTable

  /** Where a worker is with the first message of its batch. */
  datatype Phase = Ready | Sent | Failing(category: Category, retryable: bool)

  /** `run_once` is sequential: a worker holds one batch and claims again only after letting go of it. */
  datatype Worker = Idle | Busy(batch: seq<ClaimedMessage>, phase: Phase)

  /** The life of one message, kept beside the table to state what the protocol promises. */
  datatype Audit = Audit(
    claims: seq<Owner>,     // who claimed it, in order; claim number k is claims[k - 1]
    recoveries: nat,        // claims that took over an expired lease
    retries: nat,           // times it went back to pending
    sends: seq<nat>,        // claim numbers under which it was handed to the mail server, in order
    delivered: set<nat>,    // claim numbers whose send completed
    settled: seq<nat>,      // claim numbers that settled the row, in order
    retried: seq<nat>)      // those among them that sent it back to pending

  datatype System = System(rows: map<MessageId, Row>, audits: map<MessageId, Audit>, workers: map<Owner, Worker>)

  datatype Event =
    | Enqueue(id: MessageId, now: Time, payload: nat, expiresAt: Time)
    | Claim(worker: Owner, now: Time, locked: set<MessageId>, batch: seq<MessageId>)
    | FindExpired(worker: Owner, now: Time)
    | FindInvalid(worker: Owner, now: Time)
    | Send(worker: Owner, now: Time, completed: bool)
    | Succeed(worker: Owner, now: Time)
    | Fail(worker: Owner, now: Time, digest: nat)
    | LetGo(worker: Owner)  // crash, unexpected exception, or shutdown grace over: the batch is dropped

  function Start(): System { System(map[], map[], map[]) }

  function WorkerOf(sys: System, w: Owner): Worker {
    if w in sys.workers then sys.workers[w] else Idle
  }

  predicate AtWork(sys: System, w: Owner) {
    WorkerOf(sys, w).Busy? && WorkerOf(sys, w).batch != []
  }

  function Current(sys: System, w: Owner): ClaimedMessage
    requires AtWork(sys, w)
  {
    WorkerOf(sys, w).batch[0]
  }

  function SetPhase(sys: System, w: Owner, phase: Phase): System
    requires AtWork(sys, w)
  {
    sys.(workers := sys.workers[w := Busy(WorkerOf(sys, w).batch, phase)])
  }

  function NextMessage(sys: System, w: Owner): Worker
    requires AtWork(sys, w)
  {
    var rest := WorkerOf(sys, w).batch[1..];
    if rest == [] then Idle else Busy(rest, Ready)
  }

  function AuditClaim(a: Audit, w: Owner, recovered: bool): Audit {
    a.(claims := a.claims + [w], recoveries := a.recoveries + if recovered then 1 else 0)
  }

  function AuditSend(a: Audit, attempt: nat, completed: bool): Audit {
    a.(sends := a.sends + [attempt], delivered := a.delivered + if completed then {attempt} else {})
  }

  function AuditSettle(a: Audit, attempt: nat, values: Values): Audit {
    a.(settled := a.settled + [attempt], retries := a.retries + (if values.RetryValues? then 1 else 0),
       retried := if values.RetryValues? then a.retried + [attempt] else a.retried)
  }

  /** One settlement transaction, after which the worker moves on whether or not a row changed. */
  function Settle(sys: System, w: Owner, values: Values): System
    requires AtWork(sys, w)
  {
    var m := Current(sys, w);
    var audits := if Owns(sys.rows, m.id, w) && m.id in sys.audits
                  then sys.audits[m.id := AuditSettle(sys.audits[m.id], m.attemptCount, values)]
                  else sys.audits;
    System(OwnedUpdate(sys.rows, m.id, w, values), audits, sys.workers[w := NextMessage(sys, w)])
  }

  ghost predicate Enabled(cfg: Settings, sys: System, e: Event) {
    match e
    case Enqueue(id, _, _, _) => id !in sys.rows
    case Claim(w, now, locked, batch) => WorkerOf(sys, w).Idle? && IsBatch(cfg, sys.rows, locked, now, batch)
    case FindExpired(w, now) => AtWork(sys, w) && WorkerOf(sys, w).phase.Ready? && Current(sys, w).payloadExpiresAt <= now
    case FindInvalid(w, now) => AtWork(sys, w) && WorkerOf(sys, w).phase.Ready? && Current(sys, w).payloadExpiresAt > now
    case Send(w, now, _) =>
      AtWork(sys, w) && WorkerOf(sys, w).phase.Ready? && Current(sys, w).payloadExpiresAt > now
      && Current(sys, w).id in sys.audits
    case Succeed(w, _) => AtWork(sys, w) && WorkerOf(sys, w).phase.Sent?
    case Fail(w, _, _) => AtWork(sys, w) && WorkerOf(sys, w).phase.Failing? && Current(sys, w).attemptCount >= 1
    case LetGo(w) => true
  }

  ghost function Next(cfg: Settings, sys: System, e: Event): System
    requires cfg.Valid()
  {
    if !Enabled(cfg, sys, e) then sys else
    match e
    case Enqueue(id, now, payload, expiresAt) =>
      sys.(rows := sys.rows[id := NewRow(now, payload, expiresAt)],
           audits := sys.audits[id := Audit([], 0, 0, [], {}, [], [])])
    case Claim(w, now, _, batch) =>
      System(ClaimRows(cfg, sys.rows, batch, w, now),
             map id | id in sys.audits ::
               if id in batch && id in sys.rows
               then AuditClaim(sys.audits[id], w, sys.rows[id].status == Processing)
               else sys.audits[id],
             sys.workers[w := if batch == [] then Idle else Busy(Snapshots(sys.rows, batch), Ready)])
    case FindExpired(w, _) => SetPhase(sys, w, Failing(Expired, false))
    case FindInvalid(w, _) => SetPhase(sys, w, Failing(InvalidPayload, false))
    case Send(w, _, completed) =>
      var m := Current(sys, w);
      SetPhase(sys, w, if completed then Sent else Failing(Smtp, true))
        .(audits := sys.audits[m.id := AuditSend(sys.audits[m.id], m.attemptCount, completed)])
    case Succeed(w, now) => Settle(sys, w, SucceededValues(now))
    case Fail(w, now, digest) =>
      var phase := WorkerOf(sys, w).phase;
      Settle(sys, w, FailureValues(cfg, Current(sys, w), phase.category, phase.retryable, now, digest))
    case LetGo(w) => sys.(workers := sys.workers[w := Idle])
  }

  ghost function Run(cfg: Settings, sys: System, events: seq<Event>): System
    requires cfg.Valid()
  {
    if events == [] then sys
    else Next(cfg, Run(cfg, sys, events[..|events| - 1]), events[|events| - 1])
  }

  // ---- The invariant ----

  ghost predicate MessageOk(cfg: Settings, row: Row, a: Audit) {
    && RowConstraints(row)
    && |a.claims| == row.attemptCount
    && (row.status == Processing ==> row.attemptCount > 0 && row.leaseOwner == Some(a.claims[row.attemptCount - 1]))
    && row.attemptCount == a.retries + a.recoveries + (if row.status == Pending then 0 else 1)
    && a.retries < cfg.maxAttempts
    && Distinct(a.sends) && (forall k :: k in a.sends ==> 1 <= k <= row.attemptCount)
    && (forall k :: k in a.delivered ==> k in a.sends)
    && Distinct(a.settled) && (forall k :: k in a.settled ==> 1 <= k <= row.attemptCount)
    && (row.status == Processing ==> row.attemptCount !in a.settled)
    && (row.status == Succeeded ==> row.attemptCount in a.delivered)
    && |a.retried| == a.retries
    && (forall k :: k in a.retried ==> k in a.sends && k !in a.delivered && k in a.settled)
  }

  /** `m` is worker w's most recent claim of its message, not settled, and not sent before its turn. */
  ghost predicate HeldOk(w: Owner, m: ClaimedMessage, row: Row, a: Audit, started: bool, phase: Phase) {
    && 1 <= m.attemptCount <= |a.claims|
    && a.claims[m.attemptCount - 1] == w
    && (forall k :: m.attemptCount <= k < |a.claims| ==> a.claims[k] != w)
    && m.attemptCount !in a.settled
    && (!started || phase.Ready? ==> m.attemptCount !in a.sends)
    && (started && phase.Sent? ==> m.attemptCount in a.delivered)
    && (started && phase.Failing? && phase.retryable ==> m.attemptCount in a.sends && m.attemptCount !in a.delivered)
    && m.payloadExpiresAt == row.payloadExpiresAt
  }

  ghost predicate HandOk(sys: System, w: Owner) {
    WorkerOf(sys, w).Busy? ==>
      var batch := WorkerOf(sys, w).batch;
      && (forall i, j :: 0 <= i < j < |batch| ==> batch[i].id != batch[j].id)
      && (forall i :: 0 <= i < |batch| ==>
            && batch[i].id in sys.rows && batch[i].id in sys.audits
            && HeldOk(w, batch[i], sys.rows[batch[i].id], sys.audits[batch[i].id], i == 0, WorkerOf(sys, w).phase))
  }

  ghost predicate Inv(cfg: Settings, sys: System) {
    && sys.rows.Keys == sys.audits.Keys
    && (forall id :: id in sys.rows ==> MessageOk(cfg, sys.rows[id], sys.audits[id]))
    && (forall w :: HandOk(sys, w))
  }

  lemma ClaimedRowOk(cfg: Settings, row: Row, a: Audit, w: Owner, now: Time)
    requires MessageOk(cfg, row, a) && Claimable(row, now)
    ensures MessageOk(cfg, ClaimRow(cfg, row, w, now), AuditClaim(a, w, row.status == Processing))
  {
  }

  lemma SettledRowOk(cfg: Settings, row: Row, a: Audit, w: Owner, m: ClaimedMessage, phase: Phase, values: Values)
    requires MessageOk(cfg, row, a) && HeldOk(w, m, row, a, true, phase)
    requires row.status == Processing && row.leaseOwner == Some(w)
    requires values.SucceededValues? ==> phase.Sent?
    requires values.RetryValues? ==> m.attemptCount < cfg.maxAttempts && phase.Failing? && phase.retryable
    ensures MessageOk(cfg, ApplyValues(row, values), AuditSettle(a, m.attemptCount, values))
  {
    assert m.attemptCount == row.attemptCount;
    DistinctAppend(a.settled, m.attemptCount);
  }

  /** Nothing another worker does to a message disturbs the claim that `v` still holds on it. */
  lemma HeldThroughOthers(v: Owner, m: ClaimedMessage, row: Row, a: Audit, started: bool, phase: Phase,
                          w: Owner, attempt: nat, row': Row, a': Audit)
    requires HeldOk(v, m, row, a, started, phase) && v != w
    requires row'.payloadExpiresAt == row.payloadExpiresAt
    requires || (a'.claims == a.claims + [w] && a'.sends == a.sends && a'.settled == a.settled && a'.delivered == a.delivered)
             || (a'.claims == a.claims && 1 <= attempt <= |a.claims| && a.claims[attempt - 1] == w
                 && a.delivered <= a'.delivered <= a.delivered + {attempt} && (forall k :: k in a.sends ==> k in a'.sends)
                 && (forall k :: k in a'.sends ==> k in a.sends || k == attempt)
                 && (forall k :: k in a'.settled ==> k in a.settled || k == attempt))
    ensures HeldOk(v, m, row', a', started, phase)
  {
  }

  /** A fresh claim is held by the worker that made it. */
  lemma ClaimHeld(cfg: Settings, row: Row, a: Audit, w: Owner, id: MessageId, now: Time, first: bool)
    requires MessageOk(cfg, row, a) && Claimable(row, now)
    ensures HeldOk(w, Snapshot(id, row), ClaimRow(cfg, row, w, now), AuditClaim(a, w, row.status == Processing), first, Ready)
  {
  }

  lemma ClaimedHeld(cfg: Settings, sys: System, e: Event, i: nat)
    requires cfg.Valid() && e.Claim? && Enabled(cfg, sys, e) && i < |e.batch| && e.batch[i] in sys.audits
    requires MessageOk(cfg, sys.rows[e.batch[i]], sys.audits[e.batch[i]])
    ensures var next := Next(cfg, sys, e);
            && e.batch[i] in next.rows && e.batch[i] in next.audits
            && HeldOk(e.worker, Snapshot(e.batch[i], sys.rows[e.batch[i]]), next.rows[e.batch[i]], next.audits[e.batch[i]], i == 0, Ready)
  {
    var id := e.batch[i];
    ClaimHeld(cfg, sys.rows[id], sys.audits[id], e.worker, id, e.now, i == 0);
  }

  lemma ClaimerKeepsHand(cfg: Settings, sys: System, e: Event)
    requires cfg.Valid() && sys.rows.Keys == sys.audits.Keys && e.Claim? && Enabled(cfg, sys, e)
    requires forall id :: id in sys.rows ==> MessageOk(cfg, sys.rows[id], sys.audits[id])
    ensures HandOk(Next(cfg, sys, e), e.worker)
  {
    var next, w := Next(cfg, sys, e), e.worker;
    if WorkerOf(next, w).Busy? {
      assert WorkerOf(next, w) == Busy(Snapshots(sys.rows, e.batch), Ready);
      forall i | 0 <= i < |e.batch|
        ensures e.batch[i] in next.rows && e.batch[i] in next.audits
        ensures HeldOk(w, Snapshot(e.batch[i], sys.rows[e.batch[i]]), next.rows[e.batch[i]], next.audits[e.batch[i]], i == 0, Ready)
      {
        ClaimedHeld(cfg, sys, e, i);
      }
    }
  }

  lemma ClaimKeepsOther(cfg: Settings, sys: System, e: Event, v: Owner)
    requires cfg.Valid() && Inv(cfg, sys) && e.Claim? && Enabled(cfg, sys, e) && v != e.worker
    ensures HandOk(Next(cfg, sys, e), v)
  {
    var next := Next(cfg, sys, e);
    assert HandOk(sys, v);
    if WorkerOf(sys, v).Busy? {
      var batch, phase := WorkerOf(sys, v).batch, WorkerOf(sys, v).phase;
      forall i | 0 <= i < |batch|
        ensures HeldOk(v, batch[i], next.rows[batch[i].id], next.audits[batch[i].id], i == 0, phase)
      {
        var id := batch[i].id;
        if id in e.batch {
          HeldThroughOthers(v, batch[i], sys.rows[id], sys.audits[id], i == 0, phase, e.worker, 0,
                            next.rows[id], next.audits[id]);
        }
      }
    }
  }

  lemma ClaimKeepsInv(cfg: Settings, sys: System, e: Event)
    requires cfg.Valid() && Inv(cfg, sys) && e.Claim? && Enabled(cfg, sys, e)
    ensures Inv(cfg, Next(cfg, sys, e))
  {
    var next := Next(cfg, sys, e);
    forall id | id in next.rows ensures MessageOk(cfg, next.rows[id], next.audits[id]) {
      assert MessageOk(cfg, sys.rows[id], sys.audits[id]);
      if id in e.batch {
        ClaimedRowOk(cfg, sys.rows[id], sys.audits[id], e.worker, e.now);
      }
    }
    ClaimerKeepsHand(cfg, sys, e);
    forall v | v != e.worker ensures HandOk(next, v) {
      ClaimKeepsOther(cfg, sys, e, v);
    }
  }

  /** The settling worker goes on to the rest of its batch, which the settlement did not touch. */
  lemma SettlerKeepsHand(cfg: Settings, sys: System, w: Owner, values: Values)
    requires cfg.Valid() && Inv(cfg, sys) && AtWork(sys, w)
    ensures HandOk(Settle(sys, w, values), w)
  {
    var next := Settle(sys, w, values);
    assert HandOk(sys, w);
    var batch := WorkerOf(sys, w).batch;
    forall i | 1 <= i < |batch|
      ensures HeldOk(w, batch[i], next.rows[batch[i].id], next.audits[batch[i].id], i == 1, Ready)
    {
      assert batch[0].id != batch[i].id;
    }
  }

  lemma SettleKeepsHand(sys: System, w: Owner, values: Values, v: Owner)
    requires HandOk(sys, v) && HandOk(sys, w) && AtWork(sys, w) && v != w
    ensures HandOk(Settle(sys, w, values), v)
  {
    var m := Current(sys, w);
    var next := Settle(sys, w, values);
    if WorkerOf(sys, v).Busy? {
      assert HeldOk(w, m, sys.rows[m.id], sys.audits[m.id], true, WorkerOf(sys, w).phase);
      var batch, phase := WorkerOf(sys, v).batch, WorkerOf(sys, v).phase;
      forall i | 0 <= i < |batch|
        ensures HeldOk(v, batch[i], next.rows[batch[i].id], next.audits[batch[i].id], i == 0, phase)
      {
        var id := batch[i].id;
        if id == m.id && Owns(sys.rows, m.id, w) {
          HeldThroughOthers(v, batch[i], sys.rows[id], sys.audits[id], i == 0, phase, w, m.attemptCount,
                            next.rows[id], next.audits[id]);
        }
      }
    }
  }

  lemma SettleKeepsInv(cfg: Settings, sys: System, w: Owner, values: Values)
    requires cfg.Valid() && Inv(cfg, sys) && AtWork(sys, w)
    requires values.SucceededValues? ==> WorkerOf(sys, w).phase.Sent?
    requires values.RetryValues? ==>
      Current(sys, w).attemptCount < cfg.maxAttempts && WorkerOf(sys, w).phase.Failing? && WorkerOf(sys, w).phase.retryable
    ensures Inv(cfg, Settle(sys, w, values))
  {
    var m := Current(sys, w);
    var next := Settle(sys, w, values);
    assert HandOk(sys, w);
    forall id | id in next.rows ensures MessageOk(cfg, next.rows[id], next.audits[id]) {
      assert MessageOk(cfg, sys.rows[id], sys.audits[id]);
      if id == m.id && Owns(sys.rows, m.id, w) {
        SettledRowOk(cfg, sys.rows[id], sys.audits[id], w, m, WorkerOf(sys, w).phase, values);
      }
    }
    SettlerKeepsHand(cfg, sys, w, values);
    forall v | v != w ensures HandOk(next, v) {
      assert HandOk(sys, v);
      SettleKeepsHand(sys, w, values, v);
    }
  }

  lemma SentRowOk(cfg: Settings, row: Row, a: Audit, w: Owner, m: ClaimedMessage, completed: bool)
    requires MessageOk(cfg, row, a) && HeldOk(w, m, row, a, true, Ready)
    ensures MessageOk(cfg, row, AuditSend(a, m.attemptCount, completed))
    ensures HeldOk(w, m, row, AuditSend(a, m.attemptCount, completed), true, if completed then Sent else Failing(Smtp, true))
  {
    DistinctAppend(a.sends, m.attemptCount);
  }

  /** The sender's own message moves on; the rest of its batch waits untouched. */
  lemma SenderKeepsHand(cfg: Settings, sys: System, e: Event)
    requires cfg.Valid() && Inv(cfg, sys) && e.Send? && Enabled(cfg, sys, e)
    ensures HandOk(Next(cfg, sys, e), e.worker)
  {
    var next, w, m := Next(cfg, sys, e), e.worker, Current(sys, e.worker);
    assert HandOk(sys, w);
    var batch, phase := WorkerOf(next, w).batch, WorkerOf(next, w).phase;
    forall i | 0 <= i < |batch|
      ensures HeldOk(w, batch[i], next.rows[batch[i].id], next.audits[batch[i].id], i == 0, phase)
    {
      if i == 0 {
        assert MessageOk(cfg, sys.rows[m.id], sys.audits[m.id]);
        SentRowOk(cfg, sys.rows[m.id], sys.audits[m.id], w, m, e.completed);
      } else {
        assert batch[0].id != batch[i].id;
      }
    }
  }

  lemma HeldThroughSend(cfg: Settings, sys: System, e: Event, v: Owner, i: nat)
    requires cfg.Valid() && e.Send? && Enabled(cfg, sys, e) && HandOk(sys, v) && HandOk(sys, e.worker) && v != e.worker
    requires WorkerOf(sys, v).Busy? && i < |WorkerOf(sys, v).batch|
    ensures var next, m := Next(cfg, sys, e), WorkerOf(sys, v).batch[i];
            && m.id in next.rows && m.id in next.audits
            && HeldOk(v, m, next.rows[m.id], next.audits[m.id], i == 0, WorkerOf(sys, v).phase)
  {
    var next, sent, held := Next(cfg, sys, e), Current(sys, e.worker), WorkerOf(sys, v).batch[i];
    var id := held.id;
    assert HeldOk(v, held, sys.rows[id], sys.audits[id], i == 0, WorkerOf(sys, v).phase);
    if id == sent.id {
      assert HeldOk(e.worker, sent, sys.rows[id], sys.audits[id], true, Ready);
      HeldThroughOthers(v, held, sys.rows[id], sys.audits[id], i == 0, WorkerOf(sys, v).phase, e.worker, sent.attemptCount,
                        next.rows[id], next.audits[id]);
    }
  }

  lemma SendKeepsHand(cfg: Settings, sys: System, e: Event, v: Owner)
    requires cfg.Valid() && e.Send? && Enabled(cfg, sys, e) && HandOk(sys, v) && HandOk(sys, e.worker) && v != e.worker
    ensures HandOk(Next(cfg, sys, e), v)
  {
    if WorkerOf(sys, v).Busy? {
      var next, batch := Next(cfg, sys, e), WorkerOf(sys, v).batch;
      assert WorkerOf(next, v) == WorkerOf(sys, v);
      forall i | 0 <= i < |batch|
        ensures batch[i].id in next.rows && batch[i].id in next.audits
        ensures HeldOk(v, batch[i], next.rows[batch[i].id], next.audits[batch[i].id], i == 0, WorkerOf(sys, v).phase)
      {
        HeldThroughSend(cfg, sys, e, v, i);
      }
    }
  }

  lemma SendKeepsInv(cfg: Settings, sys: System, e: Event)
    requires cfg.Valid() && Inv(cfg, sys) && e.Send? && Enabled(cfg, sys, e)
    ensures Inv(cfg, Next(cfg, sys, e))
  {
    var next := Next(cfg, sys, e);
    var m := Current(sys, e.worker);
    assert HandOk(sys, e.worker);
    forall id | id in next.rows ensures MessageOk(cfg, next.rows[id], next.audits[id]) {
      assert MessageOk(cfg, sys.rows[id], sys.audits[id]);
      if id == m.id {
        SentRowOk(cfg, sys.rows[id], sys.audits[id], e.worker, m, e.completed);
      }
    }
    SenderKeepsHand(cfg, sys, e);
    forall v | v != e.worker ensures HandOk(next, v) {
      assert HandOk(sys, v);
      SendKeepsHand(cfg, sys, e, v);
    }
  }

  lemma QuietKeepsHand(cfg: Settings, sys: System, e: Event, v: Owner)
    requires cfg.Valid() && HandOk(sys, v) && Enabled(cfg, sys, e)
    requires e.Enqueue? || e.FindExpired? || e.FindInvalid? || e.LetGo?
    ensures HandOk(Next(cfg, sys, e), v)
  {
  }

  lemma QuietKeepsRows(cfg: Settings, sys: System, e: Event, id: MessageId)
    requires cfg.Valid() && Inv(cfg, sys) && Enabled(cfg, sys, e)
    requires e.Enqueue? || e.FindExpired? || e.FindInvalid? || e.LetGo?
    ensures Next(cfg, sys, e).rows.Keys == Next(cfg, sys, e).audits.Keys
    ensures id in Next(cfg, sys, e).rows ==> MessageOk(cfg, Next(cfg, sys, e).rows[id], Next(cfg, sys, e).audits[id])
  {
    assert id in sys.rows ==> MessageOk(cfg, sys.rows[id], sys.audits[id]);
  }

  lemma QuietKeepsInv(cfg: Settings, sys: System, e: Event)
    requires cfg.Valid() && Inv(cfg, sys) && Enabled(cfg, sys, e)
    requires e.Enqueue? || e.FindExpired? || e.FindInvalid? || e.LetGo?
    ensures Inv(cfg, Next(cfg, sys, e))
  {
    var next := Next(cfg, sys, e);
    QuietKeepsRows(cfg, sys, e, 0);
    forall id | id in next.rows ensures MessageOk(cfg, next.rows[id], next.audits[id]) {
      QuietKeepsRows(cfg, sys, e, id);
    }
    forall v ensures HandOk(next, v) {
      assert HandOk(sys, v);
      QuietKeepsHand(cfg, sys, e, v);
    }
  }

  lemma NextKeepsInv(cfg: Settings, sys: System, e: Event)
    requires cfg.Valid() && Inv(cfg, sys)
    ensures Inv(cfg, Next(cfg, sys, e))
  {
    if Enabled(cfg, sys, e) {
      match e
      case Claim(_, _, _, _) => ClaimKeepsInv(cfg, sys, e);
      case Send(_, _, _) => SendKeepsInv(cfg, sys, e);
      case Succeed(w, now) => SettleKeepsInv(cfg, sys, w, SucceededValues(now));
      case Fail(w, now, digest) =>
        var phase := WorkerOf(sys, w).phase;
        SettleKeepsInv(cfg, sys, w, FailureValues(cfg, Current(sys, w), phase.category, phase.retryable, now, digest));
      case _ => QuietKeepsInv(cfg, sys, e);
    }
  }

  lemma {:induction false} RunKeepsInv(cfg: Settings, events: seq<Event>)
    requires cfg.Valid()
    ensures Inv(cfg, Run(cfg, Start(), events))
  {
    if events != [] {
      RunKeepsInv(cfg, events[..|events| - 1]);
      NextKeepsInv(cfg, Run(cfg, Start(), events[..|events| - 1]), events[|events| - 1]);
    }
  }

  lemma SettlesOwnLatestClaim(cfg: Settings, sys: System, w: Owner)
    requires cfg.Valid() && Inv(cfg, sys) && AtWork(sys, w)
    ensures var m := Current(sys, w);
            && m.id in sys.rows && m.id in sys.audits
            && (Owns(sys.rows, m.id, w) <==>
                sys.rows[m.id].status == Processing && m.attemptCount == |sys.audits[m.id].claims|)
            && (Owns(sys.rows, m.id, w) ==>
                && 1 <= m.attemptCount == sys.rows[m.id].attemptCount
                && sys.audits[m.id].claims[m.attemptCount - 1] == w
                && m.attemptCount !in sys.audits[m.id].settled)
  {
    var m := Current(sys, w);
    assert HandOk(sys, w);
    assert m == WorkerOf(sys, w).batch[0];
    assert MessageOk(cfg, sys.rows[m.id], sys.audits[m.id]);
  }

  // ---- What every run guarantees ----

  /** A settlement changes the row it is for, if the worker still owns it, and no other. */
  lemma SettlementReach(cfg: Settings, sys: System, e: Event, id: MessageId)
    requires cfg.Valid() && Inv(cfg, sys) && id in sys.rows
    requires (e.Succeed? || e.Fail?) && Enabled(cfg, sys, e)
    ensures id in Next(cfg, sys, e).rows
    ensures Next(cfg, sys, e).rows[id] != sys.rows[id] <==> id == Current(sys, e.worker).id && Owns(sys.rows, id, e.worker)
  {
  }

  lemma OnlySettlementsAndClaims(cfg: Settings, sys: System, e: Event, id: MessageId)
    requires cfg.Valid() && id in sys.rows && Enabled(cfg, sys, e) && !e.Succeed? && !e.Fail?
    ensures id in Next(cfg, sys, e).rows
    ensures Next(cfg, sys, e).rows[id] != sys.rows[id] ==> e.Claim? && id in e.batch && Claimable(sys.rows[id], e.now)
  {
  }

  /**
    Fencing. Whatever happened before, an event changes an existing row in only two ways: a claim of a
    claimable row, or a settlement, and that by the worker whose claim is the latest one, whose
    snapshot carries the row's own attempt count and whose claim has not settled yet. A stale worker
    changes nothing.
   */
  lemma Fencing(cfg: Settings, events: seq<Event>, e: Event, id: MessageId)
    requires cfg.Valid() && id in Run(cfg, Start(), events).rows && Enabled(cfg, Run(cfg, Start(), events), e)
    ensures var sys := Run(cfg, Start(), events);
            var next := Next(cfg, sys, e);
            && id in sys.audits && id in next.rows
            && (next.rows[id] != sys.rows[id] && !e.Succeed? && !e.Fail? ==>
                  e.Claim? && id in e.batch && Claimable(sys.rows[id], e.now))
            && (e.Succeed? || e.Fail? ==>
                  var m := Current(sys, e.worker);
                  && (next.rows[id] != sys.rows[id] <==>
                        id == m.id && sys.rows[id].status == Processing && m.attemptCount == |sys.audits[id].claims|)
                  && (next.rows[id] != sys.rows[id] ==>
                        && 1 <= m.attemptCount == sys.rows[id].attemptCount == |sys.audits[id].claims|
                        && sys.audits[id].claims[m.attemptCount - 1] == e.worker
                        && m.attemptCount !in sys.audits[id].settled))
  {
    RunKeepsInv(cfg, events);
    var sys := Run(cfg, Start(), events);
    if e.Succeed? || e.Fail? {
      SettlementReach(cfg, sys, e, id);
      SettlesOwnLatestClaim(cfg, sys, e.worker);
    } else {
      OnlySettlementsAndClaims(cfg, sys, e, id);
    }
  }

  /**
    The books of one message balance in every run: each claim settles and is sent at most once, the
    attempt count is exactly retries plus recovered leases plus the claim still open or final, and a
    claim that went back to pending was sent and not delivered.
   */
  lemma MessageAccounts(cfg: Settings, events: seq<Event>, id: MessageId)
    requires cfg.Valid() && id in Run(cfg, Start(), events).rows
    ensures var sys := Run(cfg, Start(), events);
            id in sys.audits &&
            var row, a := sys.rows[id], sys.audits[id];
            && RowConstraints(row)
            && |a.claims| == row.attemptCount == a.retries + a.recoveries + (if row.status == Pending then 0 else 1)
            && a.retries <= cfg.maxAttempts - 1
            && row.attemptCount <= cfg.maxAttempts + a.recoveries
            && Distinct(a.settled) && |a.settled| <= row.attemptCount
            && Distinct(a.sends) && |a.sends| <= row.attemptCount
            && (row.status == Succeeded ==> row.attemptCount in a.delivered)
            && |a.retried| == a.retries
            && (forall k :: k in a.retried ==> k in a.settled && k in a.sends && k !in a.delivered)
  {
    RunKeepsInv(cfg, events);
    var sys := Run(cfg, Start(), events);
    var row, a := sys.rows[id], sys.audits[id];
    assert MessageOk(cfg, row, a);
    UpToSize(row.attemptCount);
    DistinctFits(a.sends, UpTo(row.attemptCount));
    DistinctFits(a.settled, UpTo(row.attemptCount));
  }

  /** Succeeded and dead-letter rows are final: no event of any kind touches them again. */
  lemma {:induction false} TerminalIsFinal(cfg: Settings, sys: System, events: seq<Event>, id: MessageId)
    requires cfg.Valid() && id in sys.rows && sys.rows[id].Terminal()
    ensures id in Run(cfg, sys, events).rows && Run(cfg, sys, events).rows[id] == sys.rows[id]
  {
    if events != [] {
      TerminalIsFinal(cfg, sys, events[..|events| - 1], id);
    }
  }

  /** The schedule on which worker 0 claims message 0 and dies, n times over. */
  function CrashLoop(cfg: Settings, n: nat): seq<Event> {
    if n == 0 then [Enqueue(0, 0, 0, 0)]
    else CrashLoop(cfg, n - 1) + [Claim(0, (n - 1) * cfg.leaseSeconds * SECOND, {}, [0]), LetGo(0)]
  }

  /** Message 0 has been claimed `n` times by worker 0, which is gone, and its last lease is known. */
  predicate CrashedTo(cfg: Settings, sys: System, n: nat) {
    && sys.rows.Keys == {0} && WorkerOf(sys, 0).Idle?
    && sys.rows[0].attemptCount == n
    && (n == 0 ==> sys.rows[0] == NewRow(0, 0, 0))
    && (n > 0 ==> sys.rows[0].status == Processing && sys.rows[0].leaseExpiresAt == Some(n * cfg.leaseSeconds * SECOND))
  }

  /** One turn of the loop: the message is claimed when its lease ends, and left again. */
  lemma CrashTurn(cfg: Settings, sys: System, n: nat)
    requires cfg.Valid() && n > 0 && CrashedTo(cfg, sys, n - 1)
    ensures CrashedTo(cfg, Next(cfg, Next(cfg, sys, Claim(0, (n - 1) * cfg.leaseSeconds * SECOND, {}, [0])), LetGo(0)), n)
  {
    var now := (n - 1) * cfg.leaseSeconds * SECOND;
    assert IsBatch(cfg, sys.rows, {}, now, [0]);
    assert Enabled(cfg, sys, Claim(0, now, {}, [0]));
    assert 0 in [0];
    assert now + cfg.leaseSeconds * SECOND == n * cfg.leaseSeconds * SECOND;
  }

  lemma CrashLoopStep(cfg: Settings, n: nat)
    requires cfg.Valid() && n > 0
    ensures Run(cfg, Start(), CrashLoop(cfg, n))
         == Next(cfg, Next(cfg, Run(cfg, Start(), CrashLoop(cfg, n - 1)),
                           Claim(0, (n - 1) * cfg.leaseSeconds * SECOND, {}, [0])), LetGo(0))
  {
    var before, claim := CrashLoop(cfg, n - 1), Claim(0, (n - 1) * cfg.leaseSeconds * SECOND, {}, [0]);
    assert CrashLoop(cfg, n)[..|before| + 1] == before + [claim];
    assert (before + [claim])[..|before|] == before;
  }

  /**
    The claim does not look at the attempt limit, so recovery alone takes the count past any bound:
    the limit of `MessageAccounts` cannot be sharpened to `maxAttempts`.
   */
  lemma {:induction false} RecoveryPassesAnyLimit(cfg: Settings, n: nat)
    requires cfg.Valid()
    ensures CrashedTo(cfg, Run(cfg, Start(), CrashLoop(cfg, n)), n)
  {
    if n == 0 {
      assert CrashLoop(cfg, 0)[..0] == [];
      assert Run(cfg, Start(), []) == Start();
    } else {
      RecoveryPassesAnyLimit(cfg, n - 1);
      CrashLoopStep(cfg, n);
      CrashTurn(cfg, Run(cfg, Start(), CrashLoop(cfg, n - 1)), n);
    }
  }
}
