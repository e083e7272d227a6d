/**
  The dashboard behind its cache. A read takes three steps, the lookup, the aggregation and the store;
  a write takes two, the commit and the invalidation. Steps of different requests interleave freely and
  Redis may fail at any of them.
 */
module DashboardCache {
  import opened Common
  import opened Tracker
  import opened OwnerIsolation
  import opened Dashboard
  import TrackerRuns

  datatype Entry = Entry(value: Summary, writtenAt: Time)

  type Cache = map<OwnerId, Entry>

  /** Redis answers, fails, or returns a payload that is too long or does not parse. */
  datatype Lookup = Answered | Failed | Corrupt(discarded: bool)

  predicate Live(cache: Cache, ttl: Time, owner: OwnerId, now: Time) {
    owner in cache && now < cache[owner].writtenAt + ttl
  }

  function Read(cache: Cache, ttl: Time, owner: OwnerId, now: Time, lookup: Lookup): (Cache, Option<Entry>) {
    if !Live(cache, ttl, owner, now) || lookup.Failed? then (cache, None)
    else if lookup.Corrupt? then (if lookup.discarded then cache - {owner} else cache, None)
    else (cache, Some(cache[owner]))
  }

  function Write(cache: Cache, owner: OwnerId, value: Summary, now: Time, ok: bool): Cache {
    if ok then cache[owner := Entry(value, now)] else cache
  }

  function Invalidate(cache: Cache, owner: OwnerId, ok: bool): Cache {
    if ok then cache - {owner} else cache
  }

  class CacheStore {
    const ttl: Time
    var entries: Cache

    constructor (ttl: Time)
      ensures this.ttl == ttl && entries == map[]
    {
      this.ttl := ttl;
      entries := map[];
    }

    method Lookup(owner: OwnerId, now: Time, lookup: Lookup) returns (found: Option<Entry>)
      modifies this`entries
      ensures (entries, found) == Read(old(entries), ttl, owner, now, lookup)
    {
      if lookup.Failed? || owner !in entries || now >= entries[owner].writtenAt + ttl {
        return None;
      }
      if lookup.Corrupt? {
        if lookup.discarded { entries := entries - {owner}; }
        return None;
      }
      return Some(entries[owner]);
    }

    method Store(owner: OwnerId, value: Summary, now: Time, ok: bool)
      modifies this`entries
      ensures entries == Write(old(entries), owner, value, now, ok)
    {
      if ok { entries := entries[owner := Entry(value, now)]; }
    }

    method Drop(owner: OwnerId, ok: bool)
      modifies this`entries
      ensures entries == Invalidate(old(entries), owner, ok)
    {
      if ok { entries := entries - {owner}; }
    }

    /** The cache-aside read, with the clock read for each step. */
    method Get(db: Db, owner: OwnerId, lookedUp: Time, aggregated: Time, stored: Time, lookup: Lookup, ok: bool)
      returns (value: Summary)
      modifies this`entries
      ensures var (cache, found) := Read(old(entries), ttl, owner, lookedUp, lookup);
              if found.Some? then value == found.value.value && entries == cache
              else value == Aggregate(db, owner, aggregated) && entries == Write(cache, owner, value, stored, ok)
    {
      var found := Lookup(owner, lookedUp, lookup);
      if found.Some? {
        return found.value.value;
      }
      value := ComputeSummary(db, owner, aggregated);
      Store(owner, value, stored, ok);
    }
  }

  // ---- The cache against the log of its operations ----

  datatype CacheOp =
    | Stored(owner: OwnerId, value: Summary, now: Time, ok: bool)
    | Deleted(owner: OwnerId, ok: bool)
    | LookedUp(owner: OwnerId, now: Time, lookup: Lookup)

  function Apply(cache: Cache, ttl: Time, op: CacheOp): Cache {
    match op
    case Stored(owner, value, now, ok) => Write(cache, owner, value, now, ok)
    case Deleted(owner, ok) => Invalidate(cache, owner, ok)
    case LookedUp(owner, now, lookup) => Read(cache, ttl, owner, now, lookup).0
  }

  function After(ttl: Time, ops: seq<CacheOp>): Cache {
    if ops == [] then map[] else Apply(After(ttl, ops[..|ops| - 1]), ttl, ops[|ops| - 1])
  }

  /** An operation that ends what a store of the owner at `storedAt` left behind. */
  predicate Ends(op: CacheOp, owner: OwnerId, storedAt: Time, ttl: Time) {
    op.owner == owner && match op
                         case Stored(_, _, _, ok) => ok
                         case Deleted(_, ok) => ok
                         case LookedUp(_, now, lookup) => lookup == Corrupt(true) && now < storedAt + ttl
  }

  /** Operation `i` is a successful store of the owner, and nothing since has ended it. */
  predicate Stands(ops: seq<CacheOp>, ttl: Time, owner: OwnerId, i: nat)
    requires i < |ops|
  {
    && ops[i].Stored? && ops[i].ok && ops[i].owner == owner
    && forall j :: i < j < |ops| ==> !Ends(ops[j], owner, ops[i].now, ttl)
  }

  lemma {:induction false} EntryStands(ttl: Time, ops: seq<CacheOp>, owner: OwnerId)
    ensures owner in After(ttl, ops) ==>
      exists i :: 0 <= i < |ops| && Stands(ops, ttl, owner, i) && After(ttl, ops)[owner] == Entry(ops[i].value, ops[i].now)
    ensures forall i :: 0 <= i < |ops| && Stands(ops, ttl, owner, i) ==>
      owner in After(ttl, ops) && After(ttl, ops)[owner] == Entry(ops[i].value, ops[i].now)
  {
    if ops != [] {
      var n := |ops| - 1;
      EntryStands(ttl, ops[..n], owner);
      forall i | 0 <= i < n && Stands(ops, ttl, owner, i) ensures Stands(ops[..n], ttl, owner, i) {
      }
      if owner in After(ttl, ops) && !(ops[n].Stored? && ops[n].ok && ops[n].owner == owner) {
        var i :| 0 <= i < n && Stands(ops[..n], ttl, owner, i)
              && After(ttl, ops[..n])[owner] == Entry(ops[..n][i].value, ops[..n][i].now);
        assert Stands(ops, ttl, owner, i);
      } else if owner in After(ttl, ops) {
        assert Stands(ops, ttl, owner, n);
      }
    }
  }

  /**
    After any operations of any owners, a lookup that Redis answers finds exactly the value of the
    owner's last successful store, if its time to live is not over and neither a successful
    invalidation nor a discarded payload came after it.
   */
  lemma LookupFindsLastStore(ttl: Time, ops: seq<CacheOp>, owner: OwnerId, now: Time, value: Summary)
    ensures (exists e :: Read(After(ttl, ops), ttl, owner, now, Answered).1 == Some(e) && e.value == value) <==>
            (exists i :: 0 <= i < |ops| && Stands(ops, ttl, owner, i) && ops[i].value == value && now < ops[i].now + ttl)
  {
    EntryStands(ttl, ops, owner);
    var found := Read(After(ttl, ops), ttl, owner, now, Answered).1;
    if found.Some? && found.value.value == value {
      var i :| 0 <= i < |ops| && Stands(ops, ttl, owner, i) && After(ttl, ops)[owner] == Entry(ops[i].value, ops[i].now);
      assert ops[i].value == value && now < ops[i].now + ttl;
    }
    if i :| 0 <= i < |ops| && Stands(ops, ttl, owner, i) && ops[i].value == value && now < ops[i].now + ttl {
      assert found == Some(Entry(value, ops[i].now));
    }
  }

  // ---- Interleaved requests ----

  type Aggregator = (Db, OwnerId, Time) -> Summary

  /** A read on its way: missed, or aggregated at step `computedAt`. */
  datatype Flight = Missed(owner: OwnerId) | Ready(owner: OwnerId, value: Summary, computedAt: nat)

  /** The steps at which a cached value was computed and stored. */
  datatype Mark = Mark(computedAt: nat, storedAt: nat)

  /** An answer, with the steps at which it was computed, stored and given. */
  datatype Served = Served(owner: OwnerId, value: Summary, at: Time, writtenAt: Time, hit: bool, mark: Mark, servedAt: nat)

  /** `past` and `dbs` are the events so far and the databases between them; with `marks` they serve the proofs. */
  datatype System = System(
    db: Db,
    now: Time,
    cache: Cache,
    flights: map<nat, Flight>,
    served: seq<Served>,
    marks: map<OwnerId, Mark>,
    past: seq<Event>,
    dbs: seq<Db>)

  datatype Event =
    | Tick(elapsed: Time)
    | Commit(call: TrackerRuns.Call)
    | Dropped(owner: OwnerId, ok: bool)
    | LookUp(id: nat, owner: OwnerId, lookup: Lookup)
    | Compute(id: nat)
    | Finish(id: nat, ok: bool)
    | Evict(owner: OwnerId)

  function Start(): System { System(Empty(), 0, map[], map[], [], map[], [], [Empty()]) }

  predicate Enabled(s: System, e: Event) {
    match e
    case Tick(elapsed) => elapsed >= 0
    case LookUp(id, _, _) => id !in s.flights
    case Compute(id) => id in s.flights && s.flights[id].Missed?
    case Finish(id, _) => id in s.flights && s.flights[id].Ready?
    case _ => true
  }

  function Step(s: System, agg: Aggregator, k: NameKeys, ttl: Time, e: Event): System {
    if !Enabled(s, e) then s else
    match e
    case Tick(elapsed) => s.(now := s.now + elapsed)
    case Commit(c) => s.(db := TrackerRuns.Next(s.db, k, c))
    case Dropped(owner, ok) => s.(cache := Invalidate(s.cache, owner, ok))
    case LookUp(id, owner, lookup) =>
      var (cache, found) := Read(s.cache, ttl, owner, s.now, lookup);
      var mark := if owner in s.marks then s.marks[owner] else Mark(0, 0);
      if found.Some? then
        s.(served := s.served + [Served(owner, found.value.value, s.now, found.value.writtenAt, true, mark, |s.past|)])
      else s.(cache := cache, flights := s.flights[id := Missed(owner)])
    case Compute(id) =>
      var owner := s.flights[id].owner;
      s.(flights := s.flights[id := Ready(owner, agg(s.db, owner, s.now), |s.past|)])
    case Finish(id, ok) =>
      var f := s.flights[id];
      var mark := Mark(f.computedAt, |s.past|);
      s.(cache := Write(s.cache, f.owner, f.value, s.now, ok),
         marks := if ok then s.marks[f.owner := mark] else s.marks,
         flights := s.flights - {id},
         served := s.served + [Served(f.owner, f.value, s.now, s.now, false, mark, |s.past|)])
    case Evict(owner) => s.(cache := s.cache - {owner})
  }

  function Next(s: System, agg: Aggregator, k: NameKeys, ttl: Time, e: Event): System {
    var s' := Step(s, agg, k, ttl, e);
    s'.(past := s.past + [e], dbs := s.dbs + [s'.db])
  }

  function Run(s: System, agg: Aggregator, k: NameKeys, ttl: Time, events: seq<Event>): System {
    if events == [] then s else Next(Run(s, agg, k, ttl, events[..|events| - 1]), agg, k, ttl, events[|events| - 1])
  }

  /** Event `p` is a commit of the owner that changed the database. */
  predicate Took(events: seq<Event>, dbs: seq<Db>, owner: OwnerId, p: nat)
    requires p < |events| && |dbs| == |events| + 1
  {
    events[p].Commit? && events[p].call.owner == owner && dbs[p + 1] != dbs[p]
  }

  /** The owner's commits that took effect from event `i` up to event `j`. */
  function MissedCommits(events: seq<Event>, dbs: seq<Db>, owner: OwnerId, i: nat, j: nat): seq<TrackerRuns.Call>
    requires i <= j <= |events| && |dbs| == |events| + 1
    decreases j
  {
    if i == j then []
    else MissedCommits(events, dbs, owner, i, j - 1) + if Took(events, dbs, owner, j - 1) then [events[j - 1].call] else []
  }

  lemma {:induction false} NoneMissed(events: seq<Event>, dbs: seq<Db>, owner: OwnerId, i: nat, j: nat)
    requires i <= j <= |events| && |dbs| == |events| + 1
    ensures MissedCommits(events, dbs, owner, i, j) == [] <==> forall p :: i <= p < j ==> !Took(events, dbs, owner, p)
    decreases j
  {
    if i < j {
      NoneMissed(events, dbs, owner, i, j - 1);
    }
  }

  lemma MissedInTwoStretches(events: seq<Event>, dbs: seq<Db>, owner: OwnerId, a: nat, b: nat, c: nat)
    requires a < b <= c < |events| && |dbs| == |events| + 1 && !events[a].Commit? && !events[b].Commit?
    ensures MissedCommits(events, dbs, owner, a, c) != [] <==>
            || (exists p :: a < p < b && Took(events, dbs, owner, p))
            || (exists p :: b < p < c && Took(events, dbs, owner, p))
  {
    NoneMissed(events, dbs, owner, a, c);
    assert !Took(events, dbs, owner, a) && !Took(events, dbs, owner, b);
  }

  // ---- The invariant ----

  /** The books are the events and databases of the run. */
  ghost predicate Books(s: System, k: NameKeys) {
    && |s.dbs| == |s.past| + 1 && s.dbs[|s.past|] == s.db && s.dbs[0] == Empty()
    && forall p :: 0 <= p < |s.past| ==>
         s.dbs[p + 1] == if s.past[p].Commit? then TrackerRuns.Next(s.dbs[p], k, s.past[p].call) else s.dbs[p]
  }

  /** An event that removes or replaces the owner's entry. */
  predicate Clears(e: Event, owner: OwnerId) {
    (e.Dropped? && e.owner == owner && e.ok) || (e.Evict? && e.owner == owner)
  }

  predicate ComputedFrom(s: System, agg: Aggregator, owner: OwnerId, value: Summary, p: nat) {
    p < |s.past| && p < |s.dbs| && s.past[p].Compute? && value == agg(s.dbs[p], owner, value.generatedAt)
  }

  ghost predicate EntryOk(s: System, agg: Aggregator, owner: OwnerId) {
    owner in s.cache ==>
      && owner in s.marks && s.marks[owner].computedAt < s.marks[owner].storedAt < |s.past|
      && ComputedFrom(s, agg, owner, s.cache[owner].value, s.marks[owner].computedAt)
      && s.past[s.marks[owner].storedAt].Finish?
      && (forall p :: s.marks[owner].storedAt < p < |s.past| ==> !Clears(s.past[p], owner))
      && s.cache[owner].value.generatedAt <= s.cache[owner].writtenAt <= s.now
  }

  predicate FlightOk(s: System, agg: Aggregator, f: Flight) {
    f.Ready? ==> ComputedFrom(s, agg, f.owner, f.value, f.computedAt) && f.value.generatedAt <= s.now
  }

  ghost predicate ServedOk(s: System, agg: Aggregator, ttl: Time, r: Served) {
    && r.mark.computedAt < r.mark.storedAt <= r.servedAt < |s.past|
    && ComputedFrom(s, agg, r.owner, r.value, r.mark.computedAt)
    && s.past[r.mark.storedAt].Finish?
    && (if r.hit then r.mark.storedAt < r.servedAt else r.mark.storedAt == r.servedAt)
    && (forall p :: r.mark.storedAt < p < r.servedAt ==> !Clears(s.past[p], r.owner))
    && r.value.generatedAt <= r.writtenAt <= r.at <= s.now
    && (if r.hit then r.at < r.writtenAt + ttl else r.at == r.writtenAt)
  }

  ghost predicate Inv(s: System, agg: Aggregator, k: NameKeys, ttl: Time) {
    && Books(s, k)
    && (forall o :: EntryOk(s, agg, o))
    && (forall id :: id in s.flights ==> FlightOk(s, agg, s.flights[id]))
    && (forall i :: 0 <= i < |s.served| ==> ServedOk(s, agg, ttl, s.served[i]))
  }

  /** What the proofs need of the aggregation: it stamps its time. */
  ghost predicate Stamps(agg: Aggregator) {
    forall db, owner, t :: agg(db, owner, t).generatedAt == t
  }

  lemma AggregateStamps()
    ensures Stamps(Aggregate)
  {
  }

  /** An event that leaves the owner's entry and mark alone and does not clear it. */
  lemma EntryKept(s: System, s': System, agg: Aggregator, e: Event, o: OwnerId)
    requires EntryOk(s, agg, o) && o in s.cache && |s.dbs| == |s.past| + 1 && !Clears(e, o) && s.now <= s'.now
    requires o in s'.cache && s'.cache[o] == s.cache[o] && o in s'.marks && s'.marks[o] == s.marks[o]
    requires s'.past == s.past + [e] && |s'.dbs| == |s.dbs| + 1 && s'.dbs[..|s.dbs|] == s.dbs
    ensures EntryOk(s', agg, o)
  {
    assert forall p :: 0 <= p < |s.dbs| ==> s'.dbs[p] == s.dbs[p];
  }

  lemma EntryStored(s: System, agg: Aggregator, k: NameKeys, ttl: Time, e: Event)
    requires Inv(s, agg, k, ttl) && e.Finish? && e.ok && Enabled(s, e)
    ensures EntryOk(Next(s, agg, k, ttl, e), agg, s.flights[e.id].owner)
  {
    assert FlightOk(s, agg, s.flights[e.id]);
  }

  lemma EntryStep(s: System, agg: Aggregator, k: NameKeys, ttl: Time, e: Event, o: OwnerId)
    requires Inv(s, agg, k, ttl)
    ensures EntryOk(Next(s, agg, k, ttl, e), agg, o)
  {
    assert EntryOk(s, agg, o);
    var s' := Next(s, agg, k, ttl, e);
    if o in s'.cache {
      if e.Finish? && e.ok && Enabled(s, e) && s.flights[e.id].owner == o {
        EntryStored(s, agg, k, ttl, e);
      } else {
        EntryKept(s, s', agg, e, o);
      }
    }
  }

  lemma FlightStep(s: System, agg: Aggregator, k: NameKeys, ttl: Time, e: Event, id: nat)
    requires Inv(s, agg, k, ttl) && Stamps(agg) && id in Next(s, agg, k, ttl, e).flights
    ensures FlightOk(Next(s, agg, k, ttl, e), agg, Next(s, agg, k, ttl, e).flights[id])
  {
    if id in s.flights {
      assert FlightOk(s, agg, s.flights[id]);
    }
  }

  lemma HitServed(s: System, agg: Aggregator, k: NameKeys, ttl: Time, e: Event)
    requires Inv(s, agg, k, ttl) && e.LookUp? && |Next(s, agg, k, ttl, e).served| == |s.served| + 1
    ensures ServedOk(Next(s, agg, k, ttl, e), agg, ttl, Next(s, agg, k, ttl, e).served[|s.served|])
  {
    assert EntryOk(s, agg, e.owner);
  }

  lemma MissServed(s: System, agg: Aggregator, k: NameKeys, ttl: Time, e: Event)
    requires Inv(s, agg, k, ttl) && e.Finish? && |Next(s, agg, k, ttl, e).served| == |s.served| + 1
    ensures ServedOk(Next(s, agg, k, ttl, e), agg, ttl, Next(s, agg, k, ttl, e).served[|s.served|])
  {
    assert FlightOk(s, agg, s.flights[e.id]);
  }

  lemma ServedStep(s: System, agg: Aggregator, k: NameKeys, ttl: Time, e: Event, i: nat)
    requires Inv(s, agg, k, ttl) && i < |Next(s, agg, k, ttl, e).served|
    ensures ServedOk(Next(s, agg, k, ttl, e), agg, ttl, Next(s, agg, k, ttl, e).served[i])
  {
    if i < |s.served| {
      assert ServedOk(s, agg, ttl, s.served[i]);
    } else if e.LookUp? {
      HitServed(s, agg, k, ttl, e);
    } else {
      MissServed(s, agg, k, ttl, e);
    }
  }

  lemma NextKeepsInv(s: System, agg: Aggregator, k: NameKeys, ttl: Time, e: Event)
    requires Inv(s, agg, k, ttl) && Stamps(agg)
    ensures Inv(Next(s, agg, k, ttl, e), agg, k, ttl)
  {
    var s' := Next(s, agg, k, ttl, e);
    forall o ensures EntryOk(s', agg, o) {
      EntryStep(s, agg, k, ttl, e, o);
    }
    forall id | id in s'.flights ensures FlightOk(s', agg, s'.flights[id]) {
      FlightStep(s, agg, k, ttl, e, id);
    }
    forall i | 0 <= i < |s'.served| ensures ServedOk(s', agg, ttl, s'.served[i]) {
      ServedStep(s, agg, k, ttl, e, i);
    }
  }

  lemma {:induction false} RunKeepsInv(agg: Aggregator, k: NameKeys, ttl: Time, events: seq<Event>)
    requires Stamps(agg)
    ensures Inv(Run(Start(), agg, k, ttl, events), agg, k, ttl)
    ensures Run(Start(), agg, k, ttl, events).past == events
  {
    if events != [] {
      RunKeepsInv(agg, k, ttl, events[..|events| - 1]);
      NextKeepsInv(Run(Start(), agg, k, ttl, events[..|events| - 1]), agg, k, ttl, events[|events| - 1]);
    }
  }

  // ---- What the databases between two events have in common ----

  lemma {:induction false} DbsAreReachable(s: System, k: NameKeys, p: nat)
    requires Books(s, k) && p < |s.dbs|
    ensures TrackerRuns.Inv(s.dbs[p], k)
  {
    if p == 0 {
      TrackerRuns.RunKeepsInv(k, []);
    } else {
      DbsAreReachable(s, k, p - 1);
      if s.past[p - 1].Commit? {
        TrackerRuns.NextKeepsInv(s.dbs[p - 1], k, s.past[p - 1].call);
      }
    }
  }

  /** A commit that takes effect acts on its owner's rows alone, and only its owner sees it. */
  lemma CommitOnView(db: Db, k: NameKeys, c: TrackerRuns.Call, owner: OwnerId)
    requires TrackerRuns.Inv(db, k)
    ensures View(TrackerRuns.Next(db, k, c), owner)
         == if c.owner == owner && TrackerRuns.Next(db, k, c) != db then TrackerRuns.Next(View(db, owner), k, c)
            else View(db, owner)
  {
    if FreshId(db, c.request) && Valid(c.request) {
      if c.owner == owner {
        InvLinks(db, k);
        ExecOnView(db, k, owner, c.request);
      } else {
        OthersUntouched(db, k, c.owner, c.request, owner);
      }
    }
  }

  lemma RunOneMore(db: Db, k: NameKeys, calls: seq<TrackerRuns.Call>, c: TrackerRuns.Call)
    ensures TrackerRuns.Run(db, k, calls + [c]) == TrackerRuns.Next(TrackerRuns.Run(db, k, calls), k, c)
  {
    assert (calls + [c])[..|calls|] == calls;
  }

  /** The owner's rows at step `j` are those at step `i` with the missed commits replayed on them. */
  lemma {:induction false} MissedReplayed(s: System, k: NameKeys, owner: OwnerId, i: nat, j: nat)
    requires Books(s, k) && i <= j <= |s.past|
    ensures View(s.dbs[j], owner) == TrackerRuns.Run(View(s.dbs[i], owner), k, MissedCommits(s.past, s.dbs, owner, i, j))
    decreases j
  {
    if i < j {
      MissedReplayed(s, k, owner, i, j - 1);
      DbsAreReachable(s, k, j - 1);
      var earlier := MissedCommits(s.past, s.dbs, owner, i, j - 1);
      assert earlier + [] == earlier;
      if s.past[j - 1].Commit? {
        CommitOnView(s.dbs[j - 1], k, s.past[j - 1].call, owner);
        if Took(s.past, s.dbs, owner, j - 1) {
          RunOneMore(View(s.dbs[i], owner), k, earlier, s.past[j - 1].call);
        }
      }
    }
  }

  lemma {:induction false} DbsOfRun(agg: Aggregator, k: NameKeys, ttl: Time, events: seq<Event>, n: nat)
    requires n <= |events| && Stamps(agg)
    ensures var s := Run(Start(), agg, k, ttl, events);
            |s.dbs| == |events| + 1 && s.dbs[n] == Run(Start(), agg, k, ttl, events[..n]).db
    decreases |events|
  {
    RunKeepsInv(agg, k, ttl, events);
    if n == |events| {
      assert events[..n] == events;
    } else {
      DbsOfRun(agg, k, ttl, events[..|events| - 1], n);
      assert events[..|events| - 1][..n] == events[..n];
    }
  }

  // ---- Main results ----

  /**
    Under any interleaving and any failure of Redis, a served dashboard is the aggregate of a database
    of the run at the time it carries, and no older than the time to live plus the gap between its
    aggregation and its store.
   */
  lemma ServedAgeIsBounded(k: NameKeys, ttl: Time, events: seq<Event>, i: nat)
    requires ttl > 0 && i < |Run(Start(), Aggregate, k, ttl, events).served|
    ensures var r := Run(Start(), Aggregate, k, ttl, events).served[i];
            && r.mark.computedAt < r.servedAt < |events|
            && r.value == Aggregate(Run(Start(), Aggregate, k, ttl, events[..r.mark.computedAt]).db, r.owner, r.value.generatedAt)
            && 0 <= r.at - r.value.generatedAt < ttl + (r.writtenAt - r.value.generatedAt)
            && (!r.hit ==> r.at == r.writtenAt)
  {
    AggregateStamps();
    RunKeepsInv(Aggregate, k, ttl, events);
    var s := Run(Start(), Aggregate, k, ttl, events);
    assert ServedOk(s, Aggregate, ttl, s.served[i]);
    DbsOfRun(Aggregate, k, ttl, events, s.served[i].mark.computedAt);
  }

  /** The answer equals the aggregate of the rows its owner has when it is given. */
  ghost predicate Current(k: NameKeys, ttl: Time, events: seq<Event>, r: Served)
    requires r.servedAt <= |events|
  {
    r.value == Aggregate(Run(Start(), Aggregate, k, ttl, events[..r.servedAt]).db, r.owner, r.value.generatedAt)
  }

  /** The commits of its owner that an answer does not reflect: those between its aggregation and itself. */
  function MissedBy(s: System, r: Served): seq<TrackerRuns.Call>
    requires r.mark.computedAt <= r.servedAt <= |s.past| && |s.dbs| == |s.past| + 1
  {
    MissedCommits(s.past, s.dbs, r.owner, r.mark.computedAt, r.servedAt)
  }

  /**
    Exactly when an answer is current: the commits of its owner that took effect between its
    aggregation and itself leave the dashboard of the rows it was computed from as it is. In
    particular it is current whenever there was no such commit.
   */
  lemma CurrentExactly(k: NameKeys, ttl: Time, events: seq<Event>, i: nat)
    requires i < |Run(Start(), Aggregate, k, ttl, events).served|
    ensures var s := Run(Start(), Aggregate, k, ttl, events);
            var r := s.served[i];
            && s.past == events && |s.dbs| == |events| + 1 && r.mark.computedAt < r.servedAt < |events|
            && var rows := View(Run(Start(), Aggregate, k, ttl, events[..r.mark.computedAt]).db, r.owner);
               && (Current(k, ttl, events, r) <==>
                   Aggregate(TrackerRuns.Run(rows, k, MissedBy(s, r)), r.owner, r.value.generatedAt)
                   == Aggregate(rows, r.owner, r.value.generatedAt))
               && (MissedBy(s, r) == [] ==> Current(k, ttl, events, r))
  {
    AggregateStamps();
    RunKeepsInv(Aggregate, k, ttl, events);
    var s := Run(Start(), Aggregate, k, ttl, events);
    var r := s.served[i];
    assert ServedOk(s, Aggregate, ttl, r);
    DbsOfRun(Aggregate, k, ttl, events, r.mark.computedAt);
    DbsOfRun(Aggregate, k, ttl, events, r.servedAt);
    MissedReplayed(s, k, r.owner, r.mark.computedAt, r.servedAt);
    DashboardIsolated(s.dbs[r.mark.computedAt], r.owner, r.value.generatedAt);
    DashboardIsolated(s.dbs[r.servedAt], r.owner, r.value.generatedAt);
  }

  /**
    The two causes, read off the events alone: an answer misses a commit of its owner if and only if
    one took effect while its read was on the way, or after its value was stored; and between the
    store and a hit no invalidation of the owner succeeded.
   */
  lemma MissedCommitCauses(k: NameKeys, ttl: Time, events: seq<Event>, i: nat)
    requires i < |Run(Start(), Aggregate, k, ttl, events).served|
    ensures var s := Run(Start(), Aggregate, k, ttl, events);
            var r := s.served[i];
            && s.past == events && |s.dbs| == |events| + 1
            && r.mark.computedAt < r.mark.storedAt <= r.servedAt < |events|
            && events[r.mark.computedAt].Compute? && events[r.mark.storedAt].Finish?
            && (MissedBy(s, r) != [] <==>
                || (exists p :: r.mark.computedAt < p < r.mark.storedAt && Took(events, s.dbs, r.owner, p))
                || (exists p :: r.mark.storedAt < p < r.servedAt && Took(events, s.dbs, r.owner, p)))
            && (forall p :: r.mark.storedAt < p < r.servedAt ==> !Clears(events[p], r.owner))
  {
    AggregateStamps();
    RunKeepsInv(Aggregate, k, ttl, events);
    var s := Run(Start(), Aggregate, k, ttl, events);
    var r := s.served[i];
    assert ServedOk(s, Aggregate, ttl, r);
    MissedInTwoStretches(events, s.dbs, r.owner, r.mark.computedAt, r.mark.storedAt, r.servedAt);
  }
}
