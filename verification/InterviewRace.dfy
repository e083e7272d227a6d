/**
  Interview scheduling with the overlap check and the commit as separate steps, so that transactions
  interleave between them. The table's constraints are what the last step is checked against.
 */
module InterviewRace {
  import opened Common
  import opened Tracker
  import opened TrackerRuns

  type TxId = nat

  /** A transaction that passed its checks: the row to insert, or the row it loaded and what it wants it to be. */
  datatype Pending =
    | Creating(row: Interview)
    | Updating(id: Id, loaded: Interview, target: Interview)

  datatype State = State(rows: map<Id, Interview>, pending: map<TxId, Pending>)

  datatype Event =
    | CheckCreate(tx: TxId, owner: OwnerId, applicationId: Id, at: Time, duration: int, notes: string)
    | CheckUpdate(tx: TxId, owner: OwnerId, id: Id, patch: InterviewPatch)
    | Commit(tx: TxId, newId: Id)
    | Rollback(tx: TxId)
    | Delete(id: Id)

  function Start(): State { State(map[], map[]) }

  /** Only the columns a transaction changed are written; the others keep what is in the table by then. */
  function Merge(current: Interview, loaded: Interview, target: Interview): Interview {
    current.(status := if target.status != loaded.status then target.status else current.status,
             scheduledAt := if target.scheduledAt != loaded.scheduledAt then target.scheduledAt else current.scheduledAt,
             duration := if target.duration != loaded.duration then target.duration else current.duration,
             scheduledEnd := if target.scheduledEnd != loaded.scheduledEnd then target.scheduledEnd else current.scheduledEnd,
             notes := if target.notes != loaded.notes then target.notes else current.notes,
             feedback := if target.feedback != loaded.feedback then target.feedback else current.feedback)
  }

  /** The check constraints on duration and window, and the exclusion constraint. */
  predicate Accepts(rows: map<Id, Interview>, id: Id, row: Interview) {
    && ValidDuration(row.duration)
    && row.scheduledEnd == ScheduledEnd(row.scheduledAt, row.duration)
    && forall v :: v in rows && v != id ==> !Clash(rows[v], row)
  }

  datatype Outcome = Written(id: Id) | ConstraintViolated | RowGone | NothingPending

  function CommitTx(s: State, tx: TxId, newId: Id): (State, Outcome) {
    if tx !in s.pending then (s, NothingPending)
    else
      var done := s.(pending := s.pending - {tx});
      match s.pending[tx]
      case Creating(row) =>
        if Accepts(s.rows, newId, row) then (done.(rows := s.rows[newId := row]), Written(newId))
        else (done, ConstraintViolated)
      case Updating(id, loaded, target) =>
        if id !in s.rows then (done, RowGone)
        else
          var row := Merge(s.rows[id], loaded, target);
          if Accepts(s.rows, id, row) then (done.(rows := s.rows[id := row]), Written(id))
          else (done, ConstraintViolated)
  }

  function NewRow(owner: OwnerId, applicationId: Id, at: Time, duration: int, notes: string): Interview {
    Interview(owner, applicationId, Scheduled, at, duration, ScheduledEnd(at, duration), notes, None)
  }

  function Next(s: State, e: Event): State {
    match e
    case CheckCreate(tx, owner, applicationId, at, duration, notes) =>
      if tx !in s.pending && ValidDuration(duration) && !HasOverlap(s.rows, owner, at, duration, None)
      then s.(pending := s.pending[tx := Creating(NewRow(owner, applicationId, at, duration, notes))])
      else s
    case CheckUpdate(tx, owner, id, patch) =>
      if tx !in s.pending && id in s.rows && s.rows[id].owner == owner
         && (patch.duration.Set? ==> ValidDuration(patch.duration.value))
         && InterviewProblem(s.rows, owner, id, s.rows[id], patch).None?
      then s.(pending := s.pending[tx := Updating(id, s.rows[id], Patched(s.rows[id], patch))])
      else s
    case Commit(tx, newId) => if newId in s.rows then s else CommitTx(s, tx, newId).0
    case Rollback(tx) => s.(pending := s.pending - {tx})
    case Delete(id) => s.(rows := s.rows - {id})
  }

  function Run(s: State, events: seq<Event>): State {
    if events == [] then s else Next(Run(s, events[..|events| - 1]), events[|events| - 1])
  }

  ghost predicate Inv(s: State) {
    WindowsOk(s.rows) && Disjoint(s.rows)
  }

  lemma {:induction false} RunKeepsInv(events: seq<Event>)
    ensures Inv(Run(Start(), events))
  {
    if events != [] {
      RunKeepsInv(events[..|events| - 1]);
      NextKeepsInv(Run(Start(), events[..|events| - 1]), events[|events| - 1]);
    }
  }

  lemma NextKeepsInv(s: State, e: Event)
    requires Inv(s)
    ensures Inv(Next(s, e))
  {
    if e.Commit? && e.newId !in s.rows && CommitTx(s, e.tx, e.newId).1.Written? {
      var (s', outcome) := CommitTx(s, e.tx, e.newId);
      var row := s'.rows[outcome.id];
      assert s'.rows == s.rows[outcome.id := row] && Accepts(s.rows, outcome.id, row);
    }
  }

  /**
    In every reachable state of every interleaving one owner's scheduled interviews are pairwise
    disjoint, and there the bounded search, a full scan and the exclusion constraint agree.
   */
  lemma ChecksAgree(events: seq<Event>, id: Id, row: Interview, v: Id, w: Id)
    requires row.status == Scheduled && ValidDuration(row.duration)
    requires row.scheduledEnd == ScheduledEnd(row.scheduledAt, row.duration)
    ensures var rows := Run(Start(), events).rows;
            && (v in rows && w in rows && v != w ==> !Clash(rows[v], rows[w]))
            && (HasOverlap(rows, row.owner, row.scheduledAt, row.duration, Some(id))
                <==> FullScan(rows, row.owner, row.scheduledAt, row.duration, Some(id)))
            && (HasOverlap(rows, row.owner, row.scheduledAt, row.duration, Some(id)) <==> !Accepts(rows, id, row))
  {
    RunKeepsInv(events);
    var rows := Run(Start(), events).rows;
    BoundedSearchIsExact(rows, row.owner, row.scheduledAt, row.duration, Some(id));
    if !Accepts(rows, id, row) {
      var u :| u in rows && u != id && Clash(rows[u], row);
      assert Some(u) != Some(id);
    }
  }

  /** A transaction whose commit follows its clean check with nothing in between never trips a constraint. */
  lemma SerialCommitSucceeds(events: seq<Event>, check: Event, newId: Id)
    requires check.CheckCreate? || check.CheckUpdate?
    requires var s := Run(Start(), events); check.tx !in s.pending && check.tx in Next(s, check).pending && newId !in s.rows
    ensures CommitTx(Next(Run(Start(), events), check), check.tx, newId).1.Written?
  {
    RunKeepsInv(events);
    var s := Run(Start(), events);
    match Next(s, check).pending[check.tx]
    case Creating(row) =>
      BoundedSearchIsExact(s.rows, row.owner, row.scheduledAt, row.duration, None);
    case Updating(id, loaded, target) =>
      assert Merge(s.rows[id], loaded, target) == target;
      BoundedSearchIsExact(s.rows, target.owner, target.scheduledAt, target.duration, Some(id));
  }

  /** Two transactions that both checked before either committed: both checks are clean, one commit fails. */
  lemma CheckAloneIsNotEnough()
    ensures var both := Run(Start(), [CheckCreate(1, 0, 0, 0, 60, ""), CheckCreate(2, 0, 0, 0, 60, "")]);
            && 1 in both.pending && 2 in both.pending
            && CommitTx(both, 1, 10).1 == Written(10)
            && CommitTx(CommitTx(both, 1, 10).0, 2, 11).1 == ConstraintViolated
  {
    var first, second := CheckCreate(1, 0, 0, 0, 60, ""), CheckCreate(2, 0, 0, 0, 60, "");
    assert [first, second][..1] == [first] && [first][..0] == [];
    var row := NewRow(0, 0, 0, 60, "");
    assert Run(Start(), [first]) == State(map[], map[1 := Creating(row)]) by {
      assert Run(Start(), []) == Start();
    }
    var both := Run(Start(), [first, second]);
    assert both == State(map[], map[1 := Creating(row), 2 := Creating(row)]);
    var s := CommitTx(both, 1, 10).0;
    assert s.rows == map[10 := row] && 2 in s.pending;
    assert Clash(s.rows[10], row);
  }

  /**
    A transaction that changed only the duration writes an end computed from the start it loaded. If
    another one moved the start meanwhile, the window constraint refuses the stale end, whatever the values.
   */
  lemma StaleEndIsRefused(s: State, tx: TxId, newId: Id, id: Id, loaded: Interview, duration: int)
    requires id in s.rows && tx in s.pending
    requires s.pending[tx] == Updating(id, loaded, Patched(loaded, InterviewPatch(Unset, Unset, Set(duration), Unset, Unset)))
    requires loaded.scheduledEnd == ScheduledEnd(loaded.scheduledAt, loaded.duration) && duration != loaded.duration
    ensures CommitTx(s, tx, newId).1.Written? ==> s.rows[id].scheduledAt == loaded.scheduledAt
    ensures s.rows[id].scheduledAt != loaded.scheduledAt ==> CommitTx(s, tx, newId).1 == ConstraintViolated
  {
    var row := Merge(s.rows[id], loaded, s.pending[tx].target);
    assert row.scheduledEnd == ScheduledEnd(loaded.scheduledAt, duration) && row.duration == duration;
  }

  // ---- The feedback rule has no constraint behind it ----

  predicate FeedbackOk(v: Interview) {
    v.feedback.Some? ==> v.status == Completed
  }

  predicate ChecksPassed(p: Pending) {
    match p
    case Creating(row) => row.feedback.None?
    case Updating(_, _, target) => FeedbackOk(target)
  }

  lemma {:induction false} PendingPassedChecks(events: seq<Event>)
    ensures forall tx :: tx in Run(Start(), events).pending ==> ChecksPassed(Run(Start(), events).pending[tx])
  {
    if events != [] {
      var before, e := Run(Start(), events[..|events| - 1]), events[|events| - 1];
      PendingPassedChecks(events[..|events| - 1]);
      forall tx | tx in Next(before, e).pending ensures ChecksPassed(Next(before, e).pending[tx]) {
        assert tx in before.pending ==> ChecksPassed(before.pending[tx]);
      }
    }
  }

  /** The feedback comes from one transaction and the status from another that did not complete the interview. */
  predicate Mixed(current: Interview, loaded: Interview, target: Interview) {
    || (&& target.feedback == loaded.feedback && current.feedback.Some?
        && target.status != loaded.status && target.status != Completed)
    || (&& target.feedback != loaded.feedback && target.feedback.Some?
        && target.status == loaded.status && current.status != Completed)
  }

  predicate FeedbackInPlace(rows: map<Id, Interview>) {
    forall v :: v in rows ==> FeedbackOk(rows[v])
  }

  /** The event commits an update that mixes feedback and status of two transactions, and the constraints let it. */
  predicate Mixes(s: State, e: Event) {
    && e.Commit? && e.newId !in s.rows && e.tx in s.pending && s.pending[e.tx].Updating?
    && CommitTx(s, e.tx, e.newId).1.Written?
    && s.pending[e.tx].id in s.rows
    && Mixed(s.rows[s.pending[e.tx].id], s.pending[e.tx].loaded, s.pending[e.tx].target)
  }

  /** New interviews have no feedback, and only a commit that mixes two transactions misplaces it. */
  lemma StepMisplacesExactly(s: State, e: Event)
    requires FeedbackInPlace(s.rows) && forall tx :: tx in s.pending ==> ChecksPassed(s.pending[tx])
    ensures FeedbackInPlace(Next(s, e).rows) <==> !Mixes(s, e)
  {
    if e.Commit? && e.newId !in s.rows && e.tx in s.pending && CommitTx(s, e.tx, e.newId).1.Written? {
      var p, s' := s.pending[e.tx], Next(s, e);
      assert ChecksPassed(p);
      match p
      case Creating(row) => assert s'.rows == s.rows[e.newId := row];
      case Updating(id, loaded, target) =>
        var row := Merge(s.rows[id], loaded, target);
        assert FeedbackOk(row) <==> !Mixed(s.rows[id], loaded, target);
        assert s'.rows == s.rows[id := row];
        assert s'.rows[id] == row;
    }
  }

  /** Every state the run passes through has feedback on completed interviews only. */
  ghost predicate StaysInPlace(events: seq<Event>) {
    forall n :: 0 <= n <= |events| ==> FeedbackInPlace(Run(Start(), events[..n]).rows)
  }

  ghost predicate NeverMixes(events: seq<Event>) {
    forall n :: 0 <= n < |events| ==> !Mixes(Run(Start(), events[..n]), events[n])
  }

  lemma StaysOneMore(before: seq<Event>, e: Event)
    ensures StaysInPlace(before + [e]) <==> StaysInPlace(before) && FeedbackInPlace(Run(Start(), before + [e]).rows)
  {
    var events := before + [e];
    assert forall n :: 0 <= n <= |before| ==> events[..n] == before[..n];
    assert events[..|events|] == events;
  }

  lemma MixesOneMore(before: seq<Event>, e: Event)
    ensures NeverMixes(before + [e]) <==> NeverMixes(before) && !Mixes(Run(Start(), before), e)
  {
    var events := before + [e];
    assert forall n :: 0 <= n <= |before| ==> events[..n] == before[..n];
    assert before[..|before|] == before && events[|before|] == e;
  }

  /**
    A run keeps feedback on completed interviews only, in every state it passes through, if and only if
    none of its commits mixes the feedback of one transaction with the status of another.
   */
  lemma {:induction false} FeedbackBreaksExactly(events: seq<Event>)
    ensures StaysInPlace(events) <==> NeverMixes(events)
  {
    if events != [] {
      var before, e := events[..|events| - 1], events[|events| - 1];
      assert events == before + [e];
      FeedbackBreaksExactly(before);
      StaysOneMore(before, e);
      MixesOneMore(before, e);
      var s := Run(Start(), before);
      assert before[..|before|] == before;
      assert StaysInPlace(before) ==> FeedbackInPlace(s.rows);
      if FeedbackInPlace(s.rows) {
        PendingPassedChecks(before);
        StepMisplacesExactly(s, e);
      }
    }
  }

  const BOOKED: Interview := NewRow(0, 0, 0, 60, "")
  const COMPLETE: InterviewPatch := InterviewPatch(Set(Completed), Unset, Unset, Unset, Set(Some("good")))
  const CANCEL: InterviewPatch := InterviewPatch(Set(Cancelled), Unset, Unset, Unset, Unset)

  /** Both updates load the scheduled interview; the completion commits first, the cancellation second. */
  lemma FeedbackCanBreak()
    ensures var both := Run(Start(), [CheckCreate(0, 0, 0, 0, 60, ""), Commit(0, 9),
                                      CheckUpdate(1, 0, 9, COMPLETE), CheckUpdate(2, 0, 9, CANCEL)]);
            var completed := CommitTx(both, 1, 10);
            var last := CommitTx(completed.0, 2, 10);
            && completed.1 == Written(9) && 9 in completed.0.rows && completed.0.rows[9].status == Completed
            && last.1 == Written(9) && 9 in last.0.rows
            && last.0.rows[9].status == Cancelled && last.0.rows[9].feedback == Some("good")
  {
    var events := [CheckCreate(0, 0, 0, 0, 60, ""), Commit(0, 9), CheckUpdate(1, 0, 9, COMPLETE), CheckUpdate(2, 0, 9, CANCEL)];
    assert events[..4] == events && events[..0] == [];
    forall n | 0 < n <= 4 ensures Run(Start(), events[..n]) == Next(Run(Start(), events[..n - 1]), events[n - 1]) {
      assert events[..n][..n - 1] == events[..n - 1];
    }
    assert Run(Start(), events[..1]) == State(map[], map[0 := Creating(BOOKED)]);
    assert Run(Start(), events[..2]) == State(map[9 := BOOKED], map[]);
    var done, gone := Updating(9, BOOKED, Patched(BOOKED, COMPLETE)), Updating(9, BOOKED, Patched(BOOKED, CANCEL));
    assert Run(Start(), events[..3]) == State(map[9 := BOOKED], map[1 := done]);
    assert Run(Start(), events[..4]) == State(map[9 := BOOKED], map[1 := done, 2 := gone]);
  }
}
