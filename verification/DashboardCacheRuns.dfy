/** Runs of the cached dashboard: requests one after another, and the two ways to a stale answer. */
module DashboardCacheRuns {
  import opened Common
  import opened Tracker
  import opened Dashboard
  import opened DashboardCache
  import TrackerRuns

  // ---- Requests that do not overlap ----

  /** One request after another, with Redis working. */
  datatype Op = Get(owner: OwnerId) | Change(call: TrackerRuns.Call) | Wait(elapsed: Time)

  function Steps(op: Op, id: nat): seq<Event> {
    match op
    case Get(owner) => [LookUp(id, owner, Answered), Compute(id), Finish(id, true)]
    case Change(call) => [Commit(call), Dropped(call.owner, true)]
    case Wait(elapsed) => [Tick(elapsed)]
  }

  function Serial(ops: seq<Op>): seq<Event> {
    if ops == [] then [] else Serial(ops[..|ops| - 1]) + Steps(ops[|ops| - 1], |ops|)
  }

  lemma {:induction false} RunAppend(s: System, agg: Aggregator, k: NameKeys, ttl: Time, xs: seq<Event>, ys: seq<Event>)
    ensures Run(s, agg, k, ttl, xs + ys) == Run(Run(s, agg, k, ttl, xs), agg, k, ttl, ys)
  {
    if ys == [] {
      assert xs + ys == xs;
    } else {
      var n := |ys| - 1;
      assert (xs + ys)[..|xs| + n] == xs + ys[..n];
      RunAppend(s, agg, k, ttl, xs, ys[..n]);
    }
  }

  lemma TwoSteps(s: System, agg: Aggregator, k: NameKeys, ttl: Time, a: Event, b: Event)
    ensures Run(s, agg, k, ttl, [a, b]) == Next(Next(s, agg, k, ttl, a), agg, k, ttl, b)
  {
    assert [a, b][..1] == [a] && [a][..0] == [];
    assert Run(s, agg, k, ttl, [a]) == Next(Run(s, agg, k, ttl, []), agg, k, ttl, a);
  }

  lemma ThreeSteps(s: System, agg: Aggregator, k: NameKeys, ttl: Time, a: Event, b: Event, c: Event)
    ensures Run(s, agg, k, ttl, [a, b, c]) == Next(Next(Next(s, agg, k, ttl, a), agg, k, ttl, b), agg, k, ttl, c)
  {
    assert [a, b, c][..2] == [a, b];
    TwoSteps(s, agg, k, ttl, a, b);
  }

  predicate Quiet(s: System, owner: OwnerId, i: nat, j: nat) {
    |s.dbs| == |s.past| + 1 && j <= |s.past| && forall p :: i <= p < j ==> !Took(s.past, s.dbs, owner, p)
  }

  /** Between requests: no read is on its way, and no commit follows the aggregation of an entry or precedes its answer. */
  predicate Settled(s: System) {
    && |s.dbs| == |s.past| + 1 && s.dbs[|s.past|] == s.db && s.flights == map[]
    && (forall o :: o in s.cache ==> o in s.marks && Quiet(s, o, s.marks[o].computedAt, |s.past|))
    && (forall i :: 0 <= i < |s.served| ==> Quiet(s, s.served[i].owner, s.served[i].mark.computedAt, s.served[i].servedAt))
  }

  /** An event that is no commit keeps every stretch quiet and lets it go on. */
  lemma QuietStep(s: System, agg: Aggregator, k: NameKeys, ttl: Time, e: Event, owner: OwnerId, i: nat, j: nat)
    requires Quiet(s, owner, i, j)
    ensures Quiet(Next(s, agg, k, ttl, e), owner, i, j)
    ensures j == |s.past| && (!e.Commit? || e.call.owner != owner) ==> Quiet(Next(s, agg, k, ttl, e), owner, i, j + 1)
  {
    var s' := Next(s, agg, k, ttl, e);
    assert forall p :: i <= p < j ==> Took(s'.past, s'.dbs, owner, p) == Took(s.past, s.dbs, owner, p);
  }

  lemma ServedStaysQuiet(s: System, agg: Aggregator, k: NameKeys, ttl: Time, e: Event, i: nat)
    requires i < |s.served| && Quiet(s, s.served[i].owner, s.served[i].mark.computedAt, s.served[i].servedAt)
    ensures var s' := Next(s, agg, k, ttl, e);
            && i < |s'.served| && s'.served[i] == s.served[i]
            && Quiet(s', s'.served[i].owner, s'.served[i].mark.computedAt, s'.served[i].servedAt)
  {
    QuietStep(s, agg, k, ttl, e, s.served[i].owner, s.served[i].mark.computedAt, s.served[i].servedAt);
  }

  /** The first step of a read: a hit settles, a miss is the only read on its way. */
  lemma LookUpSettles(s: System, agg: Aggregator, k: NameKeys, ttl: Time, id: nat, owner: OwnerId)
    requires Settled(s)
    ensures var s' := Next(s, agg, k, ttl, LookUp(id, owner, Answered));
            && Settled(s'.(flights := map[]))
            && (s'.flights == map[] || s'.flights == map[id := Missed(owner)])
  {
    var e := LookUp(id, owner, Answered);
    var s' := Next(s, agg, k, ttl, e);
    forall o | o in s'.cache ensures Quiet(s', o, s'.marks[o].computedAt, |s'.past|) {
      QuietStep(s, agg, k, ttl, e, o, s.marks[o].computedAt, |s.past|);
    }
    forall i | 0 <= i < |s'.served|
      ensures Quiet(s', s'.served[i].owner, s'.served[i].mark.computedAt, s'.served[i].servedAt)
    {
      if i < |s.served| {
        ServedStaysQuiet(s, agg, k, ttl, e, i);
      } else {
        QuietStep(s, agg, k, ttl, e, owner, s.marks[owner].computedAt, |s.past|);
      }
    }
  }

  /** A step that is neither a commit nor an answer keeps what is settled. */
  lemma OtherSettles(s: System, agg: Aggregator, k: NameKeys, ttl: Time, e: Event)
    requires Settled(s.(flights := map[])) && (e.Compute? || e.Tick? || e.Dropped?)
    ensures Settled(Next(s, agg, k, ttl, e).(flights := map[]))
  {
    var s' := Next(s, agg, k, ttl, e);
    forall o | o in s'.cache ensures Quiet(s', o, s'.marks[o].computedAt, |s'.past|) {
      QuietStep(s, agg, k, ttl, e, o, s.marks[o].computedAt, |s.past|);
    }
    forall i | 0 <= i < |s'.served|
      ensures Quiet(s', s'.served[i].owner, s'.served[i].mark.computedAt, s'.served[i].servedAt)
    {
      ServedStaysQuiet(s, agg, k, ttl, e, i);
    }
  }

  /** The store right after the aggregation. */
  lemma FinishSettles(s: System, agg: Aggregator, k: NameKeys, ttl: Time, id: nat)
    requires Settled(s.(flights := map[])) && id in s.flights && s.flights.Keys == {id} && s.flights[id].Ready?
    requires s.flights[id].computedAt + 1 == |s.past| && s.past[|s.past| - 1].Compute?
    ensures Settled(Next(s, agg, k, ttl, Finish(id, true)))
  {
    var e := Finish(id, true);
    var s' := Next(s, agg, k, ttl, e);
    var f := s.flights[id];
    assert Quiet(s, f.owner, f.computedAt, |s.past|);
    QuietStep(s, agg, k, ttl, e, f.owner, f.computedAt, |s.past|);
    forall o | o in s'.cache ensures o in s'.marks && Quiet(s', o, s'.marks[o].computedAt, |s'.past|) {
      if o != f.owner {
        QuietStep(s, agg, k, ttl, e, o, s.marks[o].computedAt, |s.past|);
      }
    }
    forall i | 0 <= i < |s'.served|
      ensures Quiet(s', s'.served[i].owner, s'.served[i].mark.computedAt, s'.served[i].servedAt)
    {
      if i < |s.served| {
        ServedStaysQuiet(s, agg, k, ttl, e, i);
      }
    }
    assert s'.flights == map[];
  }

  lemma GetSettles(s: System, agg: Aggregator, k: NameKeys, ttl: Time, owner: OwnerId, id: nat)
    requires Settled(s)
    ensures Settled(Next(Next(Next(s, agg, k, ttl, LookUp(id, owner, Answered)), agg, k, ttl, Compute(id)),
                         agg, k, ttl, Finish(id, true)))
  {
    LookUpSettles(s, agg, k, ttl, id, owner);
    var s1 := Next(s, agg, k, ttl, LookUp(id, owner, Answered));
    OtherSettles(s1, agg, k, ttl, Compute(id));
    var s2 := Next(s1, agg, k, ttl, Compute(id));
    if s1.flights == map[] {
      assert s2.(flights := map[]) == s2;
      SkippedFinishSettles(s2, agg, k, ttl, id);
    } else {
      assert s2.flights.Keys == {id};
      FinishSettles(s2, agg, k, ttl, id);
    }
  }

  lemma SkippedFinishSettles(s: System, agg: Aggregator, k: NameKeys, ttl: Time, id: nat)
    requires Settled(s)
    ensures Settled(Next(s, agg, k, ttl, Finish(id, true)))
  {
    var e := Finish(id, true);
    var s' := Next(s, agg, k, ttl, e);
    forall o | o in s'.cache ensures Quiet(s', o, s'.marks[o].computedAt, |s'.past|) {
      QuietStep(s, agg, k, ttl, e, o, s.marks[o].computedAt, |s.past|);
    }
    forall i | 0 <= i < |s'.served|
      ensures Quiet(s', s'.served[i].owner, s'.served[i].mark.computedAt, s'.served[i].servedAt)
    {
      ServedStaysQuiet(s, agg, k, ttl, e, i);
    }
  }

  /** After a commit only its owner's entry is out of date, and the invalidation that follows removes it. */
  lemma ChangeSettles(s: System, agg: Aggregator, k: NameKeys, ttl: Time, c: TrackerRuns.Call)
    requires Settled(s)
    ensures Settled(Next(Next(s, agg, k, ttl, Commit(c)), agg, k, ttl, Dropped(c.owner, true)))
  {
    var s1 := Next(s, agg, k, ttl, Commit(c));
    forall o | o in s1.cache && o != c.owner ensures Quiet(s1, o, s1.marks[o].computedAt, |s1.past|) {
      QuietStep(s, agg, k, ttl, Commit(c), o, s.marks[o].computedAt, |s.past|);
    }
    forall i | 0 <= i < |s1.served|
      ensures Quiet(s1, s1.served[i].owner, s1.served[i].mark.computedAt, s1.served[i].servedAt)
    {
      ServedStaysQuiet(s, agg, k, ttl, Commit(c), i);
    }
    var dropped := s1.(cache := s1.cache - {c.owner});
    assert Settled(dropped);
    OtherSettles(dropped, agg, k, ttl, Dropped(c.owner, true));
    assert dropped.cache - {c.owner} == dropped.cache;
    assert Next(s1, agg, k, ttl, Dropped(c.owner, true)) == Next(dropped, agg, k, ttl, Dropped(c.owner, true));
  }

  lemma SerialStep(s: System, agg: Aggregator, k: NameKeys, ttl: Time, op: Op, id: nat)
    requires Settled(s)
    ensures Settled(Run(s, agg, k, ttl, Steps(op, id)))
  {
    match op
    case Get(owner) =>
      ThreeSteps(s, agg, k, ttl, LookUp(id, owner, Answered), Compute(id), Finish(id, true));
      GetSettles(s, agg, k, ttl, owner, id);
    case Change(c) =>
      TwoSteps(s, agg, k, ttl, Commit(c), Dropped(c.owner, true));
      ChangeSettles(s, agg, k, ttl, c);
    case Wait(elapsed) =>
      assert [Tick(elapsed)][..0] == [];
      assert Run(s, agg, k, ttl, [Tick(elapsed)]) == Next(Run(s, agg, k, ttl, []), agg, k, ttl, Tick(elapsed));
      assert s.(flights := map[]) == s;
      OtherSettles(s, agg, k, ttl, Tick(elapsed));
  }

  lemma {:induction false} SerialStaysSettled(agg: Aggregator, k: NameKeys, ttl: Time, ops: seq<Op>)
    ensures Settled(Run(Start(), agg, k, ttl, Serial(ops)))
  {
    if ops != [] {
      var n := |ops| - 1;
      SerialStaysSettled(agg, k, ttl, ops[..n]);
      RunAppend(Start(), agg, k, ttl, Serial(ops[..n]), Steps(ops[n], |ops|));
      SerialStep(Run(Start(), agg, k, ttl, Serial(ops[..n])), agg, k, ttl, ops[n], |ops|);
    }
  }

  lemma SettledMissesNothing(s: System, i: nat)
    requires Settled(s) && i < |s.served|
    requires s.served[i].mark.computedAt <= s.served[i].servedAt <= |s.past|
    ensures MissedBy(s, s.served[i]) == []
  {
    NoneMissed(s.past, s.dbs, s.served[i].owner, s.served[i].mark.computedAt, s.served[i].servedAt);
  }

  /** When requests do not overlap and Redis works, every answer is current. */
  lemma SerialAnswersAreCurrent(k: NameKeys, ttl: Time, ops: seq<Op>, i: nat)
    requires i < |Run(Start(), Aggregate, k, ttl, Serial(ops)).served|
    ensures var r := Run(Start(), Aggregate, k, ttl, Serial(ops)).served[i];
            r.servedAt <= |Serial(ops)| && Current(k, ttl, Serial(ops), r)
  {
    var events := Serial(ops);
    SerialStaysSettled(Aggregate, k, ttl, ops);
    CurrentExactly(k, ttl, events, i);
    SettledMissesNothing(Run(Start(), Aggregate, k, ttl, events), i);
  }

  // ---- Both causes occur ----

  const FIRST_COMPANY: TrackerRuns.Call := TrackerRuns.Call(1, NewCompany(5, "Acme", ""))

  /** A read aggregates, the owner commits and invalidates, and only then the read stores what it has. */
  const OVERLAPPING: seq<Event> :=
    [LookUp(0, 1, Answered), Compute(0), Commit(FIRST_COMPANY), Dropped(1, true), Finish(0, true), LookUp(1, 1, Answered)]

  /** A read completes, the owner commits, and the invalidation fails. */
  const UNINVALIDATED: seq<Event> :=
    [LookUp(0, 1, Answered), Compute(0), Finish(0, true), Commit(FIRST_COMPANY), Dropped(1, false), LookUp(1, 1, Answered)]

  function FirstDb(): Db { Empty().(companies := map[5 := Company(1, "Acme", "")]) }

  lemma FirstCompany(k: NameKeys)
    ensures TrackerRuns.Next(Empty(), k, FIRST_COMPANY) == FirstDb()
  {
  }

  /** At time 0 after `n` events: the database, what is cached for owner 1, the read on its way, the answers. */
  ghost predicate At(s: System, n: nat, db: Db, cached: Option<Summary>, flights: map<nat, Flight>, hits: seq<bool>, value: Summary) {
    && |s.past| == n && s.now == 0 && s.db == db && s.flights == flights
    && s.cache == (if cached.Some? then map[1 := Entry(cached.value, 0)] else map[])
    && |s.served| == |hits|
    && forall i :: 0 <= i < |hits| ==> s.served[i].hit == hits[i] && s.served[i].value == value && s.served[i].owner == 1
  }

  lemma Prefix(agg: Aggregator, k: NameKeys, ttl: Time, events: seq<Event>, n: nat)
    requires n < |events|
    ensures Run(Start(), agg, k, ttl, events[..n + 1]) == Next(Run(Start(), agg, k, ttl, events[..n]), agg, k, ttl, events[n])
  {
    assert events[..n + 1][..n] == events[..n];
  }

  lemma BothStart(agg: Aggregator, k: NameKeys, ttl: Time, events: seq<Event>)
    requires |events| >= 2 && events[0] == LookUp(0, 1, Answered) && events[1] == Compute(0)
    ensures var value := agg(Empty(), 1, 0);
            At(Run(Start(), agg, k, ttl, events[..2]), 2, Empty(), None, map[0 := Ready(1, value, 1)], [], value)
  {
    Prefix(agg, k, ttl, events, 0);
    Prefix(agg, k, ttl, events, 1);
    assert Run(Start(), agg, k, ttl, events[..0]) == Start();
  }

  lemma CommitAt(s: System, agg: Aggregator, k: NameKeys, ttl: Time, n: nat, cached: Option<Summary>,
                 flights: map<nat, Flight>, hits: seq<bool>, value: Summary)
    requires At(s, n, Empty(), cached, flights, hits, value)
    ensures At(Next(s, agg, k, ttl, Commit(FIRST_COMPANY)), n + 1, FirstDb(), cached, flights, hits, value)
  {
    FirstCompany(k);
  }

  lemma FinishAt(s: System, agg: Aggregator, k: NameKeys, ttl: Time, n: nat, db: Db, value: Summary)
    requires At(s, n, db, None, map[0 := Ready(1, value, 1)], [], value)
    ensures At(Next(s, agg, k, ttl, Finish(0, true)), n + 1, db, Some(value), map[], [false], value)
  {
  }

  lemma HitAt(s: System, agg: Aggregator, k: NameKeys, ttl: Time, n: nat, db: Db, value: Summary)
    requires ttl > 0 && At(s, n, db, Some(value), map[], [false], value)
    ensures var s' := Next(s, agg, k, ttl, LookUp(1, 1, Answered));
            At(s', n + 1, db, Some(value), map[], [false, true], value) && s'.served[1].servedAt == n
  {
  }

  lemma DropAt(s: System, agg: Aggregator, k: NameKeys, ttl: Time, n: nat, cached: Option<Summary>,
               flights: map<nat, Flight>, hits: seq<bool>, value: Summary, ok: bool)
    requires At(s, n, FirstDb(), cached, flights, hits, value) && (ok ==> cached == None)
    ensures At(Next(s, agg, k, ttl, Dropped(1, ok)), n + 1, FirstDb(), cached, flights, hits, value)
  {
  }

  lemma OverlappingCommitted(agg: Aggregator, k: NameKeys, ttl: Time, value: Summary)
    requires value == agg(Empty(), 1, 0)
    ensures At(Run(Start(), agg, k, ttl, OVERLAPPING[..3]), 3, FirstDb(), None, map[0 := Ready(1, value, 1)], [], value)
  {
    BothStart(agg, k, ttl, OVERLAPPING);
    var s := Run(Start(), agg, k, ttl, OVERLAPPING[..2]);
    CommitAt(s, agg, k, ttl, 2, None, map[0 := Ready(1, value, 1)], [], value);
    Prefix(agg, k, ttl, OVERLAPPING, 2);
  }

  lemma OverlappingDropped(agg: Aggregator, k: NameKeys, ttl: Time, value: Summary)
    requires value == agg(Empty(), 1, 0)
    ensures At(Run(Start(), agg, k, ttl, OVERLAPPING[..4]), 4, FirstDb(), None, map[0 := Ready(1, value, 1)], [], value)
  {
    OverlappingCommitted(agg, k, ttl, value);
    var s := Run(Start(), agg, k, ttl, OVERLAPPING[..3]);
    DropAt(s, agg, k, ttl, 3, None, map[0 := Ready(1, value, 1)], [], value, true);
    Prefix(agg, k, ttl, OVERLAPPING, 3);
  }

  lemma OverlappingStored(agg: Aggregator, k: NameKeys, ttl: Time, value: Summary)
    requires value == agg(Empty(), 1, 0)
    ensures At(Run(Start(), agg, k, ttl, OVERLAPPING[..5]), 5, FirstDb(), Some(value), map[], [false], value)
  {
    OverlappingDropped(agg, k, ttl, value);
    var s := Run(Start(), agg, k, ttl, OVERLAPPING[..4]);
    FinishAt(s, agg, k, ttl, 4, FirstDb(), value);
    Prefix(agg, k, ttl, OVERLAPPING, 4);
  }

  lemma UninvalidatedStored(agg: Aggregator, k: NameKeys, ttl: Time, value: Summary)
    requires value == agg(Empty(), 1, 0)
    ensures At(Run(Start(), agg, k, ttl, UNINVALIDATED[..5]), 5, FirstDb(), Some(value), map[], [false], value)
  {
    BothStart(agg, k, ttl, UNINVALIDATED);
    var s := Run(Start(), agg, k, ttl, UNINVALIDATED[..2]);
    FinishAt(s, agg, k, ttl, 2, Empty(), value);
    Prefix(agg, k, ttl, UNINVALIDATED, 2);
    s := Run(Start(), agg, k, ttl, UNINVALIDATED[..3]);
    CommitAt(s, agg, k, ttl, 3, Some(value), map[], [false], value);
    Prefix(agg, k, ttl, UNINVALIDATED, 3);
    s := Run(Start(), agg, k, ttl, UNINVALIDATED[..4]);
    DropAt(s, agg, k, ttl, 4, Some(value), map[], [false], value, false);
    Prefix(agg, k, ttl, UNINVALIDATED, 4);
  }

  /** With a stale entry cached, the last lookup of either run serves it. */
  lemma LastLookup(agg: Aggregator, k: NameKeys, ttl: Time, events: seq<Event>, value: Summary)
    requires ttl > 0 && |events| == 6 && events[5] == LookUp(1, 1, Answered)
    requires At(Run(Start(), agg, k, ttl, events[..5]), 5, FirstDb(), Some(value), map[], [false], value)
    ensures var s := Run(Start(), agg, k, ttl, events);
            |s.served| == 2 && s.served[1].hit && s.served[1].servedAt == 5 && s.served[1].value == value && s.served[1].owner == 1
  {
    HitAt(Run(Start(), agg, k, ttl, events[..5]), agg, k, ttl, 5, FirstDb(), value);
    Prefix(agg, k, ttl, events, 5);
    assert events[..6] == events;
  }

  lemma CompanyCounts()
    ensures Aggregate(Empty(), 1, 0).companies == 0 && Aggregate(FirstDb(), 1, 0).companies == 1
    ensures Aggregate(Empty(), 1, 0).generatedAt == 0
  {
    var db := FirstDb();
    assert (set c | c in db.companies && db.companies[c].owner == 1) == {5};
  }

  /** With Redis working throughout, an overlapped read leaves an entry that misses the new company. */
  lemma OverlapServesStale(k: NameKeys, ttl: Time)
    requires ttl > 0
    ensures var s := Run(Start(), Aggregate, k, ttl, OVERLAPPING);
            |s.served| == 2 && s.served[1].hit && s.served[1].servedAt == 5 && !Current(k, ttl, OVERLAPPING, s.served[1])
  {
    var value := Aggregate(Empty(), 1, 0);
    OverlappingStored(Aggregate, k, ttl, value);
    LastLookup(Aggregate, k, ttl, OVERLAPPING, value);
    CompanyCounts();
  }

  /** Without any overlap, a failed invalidation does the same. */
  lemma FailedInvalidationServesStale(k: NameKeys, ttl: Time)
    requires ttl > 0
    ensures var s := Run(Start(), Aggregate, k, ttl, UNINVALIDATED);
            |s.served| == 2 && s.served[1].hit && s.served[1].servedAt == 5 && !Current(k, ttl, UNINVALIDATED, s.served[1])
  {
    var value := Aggregate(Empty(), 1, 0);
    UninvalidatedStored(Aggregate, k, ttl, value);
    LastLookup(Aggregate, k, ttl, UNINVALIDATED, value);
    CompanyCounts();
  }
}
