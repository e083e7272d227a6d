/**
  Application updates read the row without a lock, so other transactions may commit between the checks
  of an update and its own commit. No table constraint guards the dates.
 */
module ApplicationRace {
  import opened Common
  import opened Tracker
  import opened TrackerRuns

  type TxId = nat

  /** An update that passed its checks: the row as loaded, and as it is to be. */
  datatype Pending = Pending(id: Id, loaded: Application, target: Application)

  /** `issued` holds every application id ever used; the database hands each out once. */
  datatype State = State(db: Db, pending: map<TxId, Pending>, issued: set<Id>)

  datatype Event =
    | Act(call: Call)
    | Load(tx: TxId, owner: OwnerId, id: Id, patch: ApplicationPatch)
    | Commit(tx: TxId)
    | Rollback(tx: TxId)

  function Start(): State { State(Empty(), map[], {}) }

  /** Only the columns the update changed are written. */
  function Merge(current: Application, loaded: Application, target: Application): Application {
    current.(priority := if target.priority != loaded.priority then target.priority else current.priority,
             appliedAt := if target.appliedAt != loaded.appliedAt then target.appliedAt else current.appliedAt,
             deadline := if target.deadline != loaded.deadline then target.deadline else current.deadline,
             nextActionAt := if target.nextActionAt != loaded.nextActionAt then target.nextActionAt else current.nextActionAt,
             notes := if target.notes != loaded.notes then target.notes else current.notes)
  }

  function CommitTx(s: State, tx: TxId): State
    requires tx in s.pending
  {
    var p := s.pending[tx];
    var done := s.(pending := s.pending - {tx});
    if p.id !in s.db.applications then done
    else done.(db := s.db.(applications := s.db.applications[p.id := Merge(s.db.applications[p.id], p.loaded, p.target)]))
  }

  predicate Enabled(s: State, e: Event) {
    match e
    case Act(c) =>
      && !c.request.PatchApplication? && FreshId(s.db, c.request) && Valid(c.request)
      && (c.request.NewApplication? ==> c.request.id !in s.issued)
    case Load(tx, owner, id, patch) => tx !in s.pending && UpdateApplication(s.db, owner, id, patch).1.ApplicationRow?
    case Commit(tx) => tx in s.pending
    case Rollback(_) => true
  }

  function Next(s: State, k: NameKeys, e: Event): State {
    if !Enabled(s, e) then s else
    match e
    case Act(c) =>
      s.(db := Exec(s.db, k, c.owner, c.request).0,
         issued := s.issued + if c.request.NewApplication? then {c.request.id} else {})
    case Load(tx, owner, id, patch) =>
      s.(pending := s.pending[tx := Pending(id, s.db.applications[id], UpdateApplication(s.db, owner, id, patch).1.application)])
    case Commit(tx) => CommitTx(s, tx)
    case Rollback(tx) => s.(pending := s.pending - {tx})
  }

  function Run(s: State, k: NameKeys, events: seq<Event>): State {
    if events == [] then s else Next(Run(s, k, events[..|events| - 1]), k, events[|events| - 1])
  }

  // ---- What survives every interleaving ----

  /** The applied date fits the status. */
  predicate StatusDates(a: Application) {
    && (a.status == Saved ==> a.appliedAt.None?)
    && (a.status in {Applied, Screening, Interviewing, Offer, Rejected} ==> a.appliedAt.Some?)
  }

  predicate PendingOk(p: Pending, applications: map<Id, Application>) {
    && p.target.status == p.loaded.status
    && !DatesClash(p.target.appliedAt, p.target.deadline)
    && (if p.loaded.status == Saved then p.loaded.appliedAt == p.target.appliedAt == None
        else p.target.appliedAt.Some? && (p.id in applications ==> applications[p.id].status != Saved))
  }

  predicate Inv(s: State) {
    && (forall a :: a in s.db.applications ==> a in s.issued && StatusDates(s.db.applications[a]))
    && (forall tx :: tx in s.pending ==> s.pending[tx].id in s.issued && PendingOk(s.pending[tx], s.db.applications))
  }

  /** What a request other than an update can do to one application. */
  lemma RowAfterRequest(db: Db, k: NameKeys, c: Call, id: Id)
    requires !c.request.PatchApplication? && FreshId(db, c.request) && Valid(c.request)
    requires id in db.applications ==> StatusDates(db.applications[id])
    requires id in Exec(db, k, c.owner, c.request).0.applications
    ensures var row := Exec(db, k, c.owner, c.request).0.applications[id];
            && StatusDates(row)
            && (id in db.applications && db.applications[id].status != Saved ==> row.status != Saved)
            && (id !in db.applications ==> c.request.NewApplication? && c.request.id == id)
  {
    if !TouchesApplication(c.request) {
      OthersLeaveApplications(db, k, c);
    } else if c.request.MoveApplication? {
      RowAfterMove(db, c.owner, c.request.id, c.request.target, c.request.now, c.request.today, id);
    }
  }

  lemma RowAfterMove(db: Db, owner: OwnerId, moved: Id, target: Status, now: Time, today: Date, id: Id)
    requires id in db.applications && StatusDates(db.applications[id])
    ensures var row := ChangeStatus(db, owner, moved, target, now, today).0.applications[id];
            StatusDates(row) && (db.applications[id].status != Saved ==> row.status != Saved)
  {
  }

  lemma ActKeepsInv(s: State, k: NameKeys, c: Call)
    requires Inv(s) && Enabled(s, Act(c))
    ensures Inv(Next(s, k, Act(c)))
  {
    var s' := Next(s, k, Act(c));
    forall a | a in s'.db.applications
      ensures a in s'.issued && StatusDates(s'.db.applications[a])
      ensures a in s.issued && a in s.db.applications && s.db.applications[a].status != Saved ==> s'.db.applications[a].status != Saved
      ensures a in s.issued ==> a in s.db.applications
    {
      RowAfterRequest(s.db, k, c, a);
    }
    forall tx | tx in s'.pending ensures PendingOk(s'.pending[tx], s'.db.applications) {
      assert PendingOk(s.pending[tx], s.db.applications);
    }
  }

  lemma NextKeepsInv(s: State, k: NameKeys, e: Event)
    requires Inv(s)
    ensures Inv(Next(s, k, e))
  {
    if e.Act? && Enabled(s, e) {
      ActKeepsInv(s, k, e.call);
    } else if e.Commit? && Enabled(s, e) {
      assert PendingOk(s.pending[e.tx], s.db.applications);
    }
  }

  lemma {:induction false} RunKeepsInv(k: NameKeys, events: seq<Event>)
    ensures Inv(Run(Start(), k, events))
  {
    if events != [] {
      RunKeepsInv(k, events[..|events| - 1]);
      NextKeepsInv(Run(Start(), k, events[..|events| - 1]), k, events[|events| - 1]);
    }
  }

  /** Under every interleaving the applied date fits the status. */
  lemma StatusDatesSurvive(k: NameKeys, events: seq<Event>, id: Id)
    ensures var db := Run(Start(), k, events).db; id in db.applications ==> StatusDates(db.applications[id])
  {
    RunKeepsInv(k, events);
  }

  // ---- What does not ----

  /** One of the two dates comes from the update, the other was moved past it in the meantime. */
  predicate Crossed(current: Application, p: Pending) {
    || (&& p.target.deadline != p.loaded.deadline && p.target.appliedAt == p.loaded.appliedAt != current.appliedAt
        && DatesClash(current.appliedAt, p.target.deadline))
    || (&& p.target.appliedAt != p.loaded.appliedAt && p.target.deadline == p.loaded.deadline != current.deadline
        && DatesClash(p.target.appliedAt, current.deadline))
  }

  predicate InOrder(applications: map<Id, Application>) {
    forall a :: a in applications ==> !DatesClash(applications[a].appliedAt, applications[a].deadline)
  }

  /** The event commits an update whose two dates have been crossed. */
  predicate Crosses(s: State, e: Event) {
    e.Commit? && e.tx in s.pending && s.pending[e.tx].id in s.db.applications
    && Crossed(s.db.applications[s.pending[e.tx].id], s.pending[e.tx])
  }

  /**
    Committing an update breaks the order of the dates exactly when it wrote one date and another
    transaction moved the other one across it after the update's checks.
   */
  lemma CommitBreaksExactly(s: State, tx: TxId)
    requires Inv(s) && tx in s.pending && InOrder(s.db.applications)
    ensures InOrder(CommitTx(s, tx).db.applications) <==> !Crosses(s, Commit(tx))
  {
    var p, applications := s.pending[tx], s.db.applications;
    assert PendingOk(p, applications);
    if p.id in applications {
      var row := Merge(applications[p.id], p.loaded, p.target);
      assert DatesClash(row.appliedAt, row.deadline) <==> Crossed(applications[p.id], p);
      assert CommitTx(s, tx).db.applications[p.id] == row;
    }
  }

  lemma RowKeepsOrder(db: Db, k: NameKeys, c: Call, id: Id)
    requires !c.request.PatchApplication? && FreshId(db, c.request) && Valid(c.request)
    requires id in db.applications ==> !DatesClash(db.applications[id].appliedAt, db.applications[id].deadline)
    requires id in Exec(db, k, c.owner, c.request).0.applications
    ensures var row := Exec(db, k, c.owner, c.request).0.applications[id]; !DatesClash(row.appliedAt, row.deadline)
  {
    if !TouchesApplication(c.request) {
      OthersLeaveApplications(db, k, c);
    }
  }

  /** Creations, status changes, deletions and every other request keep all rows in order. */
  lemma ActKeepsOrder(s: State, k: NameKeys, c: Call)
    requires InOrder(s.db.applications) && Enabled(s, Act(c))
    ensures InOrder(Next(s, k, Act(c)).db.applications)
  {
    var s' := Next(s, k, Act(c));
    forall a | a in s'.db.applications ensures !DatesClash(s'.db.applications[a].appliedAt, s'.db.applications[a].deadline) {
      RowKeepsOrder(s.db, k, c, a);
    }
  }

  lemma StepBreaksExactly(s: State, k: NameKeys, e: Event)
    requires Inv(s) && InOrder(s.db.applications)
    ensures InOrder(Next(s, k, e).db.applications) <==> !Crosses(s, e)
  {
    if e.Act? && Enabled(s, e) {
      ActKeepsOrder(s, k, e.call);
    } else if e.Commit? && Enabled(s, e) {
      CommitBreaksExactly(s, e.tx);
    }
  }

  /** Every state the run passes through has its dates in order. */
  ghost predicate StaysInOrder(k: NameKeys, events: seq<Event>) {
    forall n :: 0 <= n <= |events| ==> InOrder(Run(Start(), k, events[..n]).db.applications)
  }

  ghost predicate NeverCrosses(k: NameKeys, events: seq<Event>) {
    forall n :: 0 <= n < |events| ==> !Crosses(Run(Start(), k, events[..n]), events[n])
  }

  lemma StaysOneMore(k: NameKeys, before: seq<Event>, e: Event)
    ensures StaysInOrder(k, before + [e]) <==>
            StaysInOrder(k, before) && InOrder(Run(Start(), k, before + [e]).db.applications)
  {
    var events := before + [e];
    assert forall n :: 0 <= n <= |before| ==> events[..n] == before[..n];
    assert events[..|events|] == events;
  }

  lemma CrossesOneMore(k: NameKeys, before: seq<Event>, e: Event)
    ensures NeverCrosses(k, before + [e]) <==> NeverCrosses(k, before) && !Crosses(Run(Start(), k, before), e)
  {
    var events := before + [e];
    assert forall n :: 0 <= n <= |before| ==> events[..n] == before[..n];
    assert before[..|before|] == before && events[|before|] == e;
  }

  /**
    A run keeps every deadline on or after its applied date, in every state it passes through, if and
    only if none of its commits crosses the dates of the state it finds.
   */
  lemma {:induction false} OrderBreaksExactly(k: NameKeys, events: seq<Event>)
    ensures StaysInOrder(k, events) <==> NeverCrosses(k, events)
  {
    if events != [] {
      var before, e := events[..|events| - 1], events[|events| - 1];
      assert events == before + [e];
      OrderBreaksExactly(k, before);
      StaysOneMore(k, before, e);
      CrossesOneMore(k, before, e);
      var s := Run(Start(), k, before);
      assert before[..|before|] == before;
      assert StaysInOrder(k, before) ==> InOrder(s.db.applications);
      if InOrder(s.db.applications) {
        RunKeepsInv(k, before);
        StepBreaksExactly(s, k, e);
      }
    }
  }

  // ---- A run that breaks the order ----

  const SAVED: Application := Application(1, 3, Saved, 3, None, None, None, "", 0)

  /** A saved application, and an update of its deadline to day 5 that has passed its checks. */
  function Loaded(): State {
    State(Empty().(companies := map[2 := Company(1, "Acme", "")],
                   jobs := map[3 := Job(1, 2, "Engineer", None, None)],
                   applications := map[4 := SAVED]),
          map[0 := Pending(4, SAVED, SAVED.(deadline := Some(5)))], {4})
  }

  const SETUP: seq<Event> := [
    Act(Call(1, NewCompany(2, "Acme", ""))),
    Act(Call(1, NewJob(3, 2, "Engineer", None, None))),
    Act(Call(1, NewApplication(4, ApplicationData(3, Saved, 3, None, None, None, ""), 0, 0))),
    Load(0, 1, 4, ApplicationPatch(Unset, Unset, Set(Some(5)), Unset, Unset))]

  function SetupDb(n: nat): Db {
    if n == 0 then Empty()
    else if n == 1 then Empty().(companies := map[2 := Company(1, "Acme", "")])
    else if n == 2 then Empty().(companies := map[2 := Company(1, "Acme", "")], jobs := map[3 := Job(1, 2, "Engineer", None, None)])
    else Loaded().db
  }

  lemma SetupStep(k: NameKeys, n: nat)
    requires n < 3
    ensures Next(State(SetupDb(n), map[], {}), k, SETUP[n]) == State(SetupDb(n + 1), map[], if n == 2 then {4} else {})
  {
  }

  lemma SetupReachesLoaded(k: NameKeys)
    ensures Run(Start(), k, SETUP) == Loaded()
  {
    assert SETUP[..4] == SETUP && SETUP[..0] == [];
    forall n | 0 < n <= 4 ensures Run(Start(), k, SETUP[..n]) == Next(Run(Start(), k, SETUP[..n - 1]), k, SETUP[n - 1]) {
      assert SETUP[..n][..n - 1] == SETUP[..n - 1];
    }
    SetupStep(k, 0);
    SetupStep(k, 1);
    SetupStep(k, 2);
    assert Run(Start(), k, SETUP[..3]) == State(SetupDb(3), map[], {4});
    LoadStep(k);
  }

  lemma LoadStep(k: NameKeys)
    ensures Next(State(SetupDb(3), map[], {4}), k, SETUP[3]) == Loaded()
  {
  }

  /** The application is applied for on day 9, and then the update with deadline day 5 commits. */
  lemma OrderCanBreak(k: NameKeys)
    ensures var move := Act(Call(1, MoveApplication(4, Applied, 0, 9)));
            var db := Run(Start(), k, SETUP + [move, Commit(0)]).db;
            && 4 in db.applications
            && db.applications[4].appliedAt == Some(9) && db.applications[4].deadline == Some(5)
  {
    var move := Act(Call(1, MoveApplication(4, Applied, 0, 9)));
    SetupReachesLoaded(k);
    var all := SETUP + [move, Commit(0)];
    assert all[..5] == SETUP + [move] && (SETUP + [move])[..4] == SETUP;
    var moved := Next(Loaded(), k, move);
    assert moved.db.applications[4] == SAVED.(status := Applied, appliedAt := Some(9));
    assert moved.pending == Loaded().pending;
    assert Run(Start(), k, all) == Next(moved, k, Commit(0));
  }
}
