/** The dashboard aggregate: counts per status, offer conversion and the lists inside their time windows. */
module Dashboard {
  import opened Common
  import opened Tracker
  import opened TrackerRuns
  import opened OwnerIsolation

  const WEEK: int := 7 * 24 * 60 * MINUTE

  const STATUSES: seq<Status> := [Saved, Applied, Screening, Interviewing, Offer, Rejected, Withdrawn, Archived]

  const LIST_LIMIT: nat := 20

  datatype Summary = Summary(
    companies: nat,
    jobs: nat,
    statusCounts: map<Status, nat>,
    recent: nat,
    conversion: real,
    upcomingInterviews: seq<(Id, Interview)>,
    overdue: seq<(Id, Application)>,
    upcoming: seq<(Id, Application)>,
    generatedAt: Time)

  function Applications(db: Db, owner: OwnerId): set<Id> {
    set a | a in db.applications && db.applications[a].owner == owner
  }

  function WithStatus(db: Db, owner: OwnerId, s: Status): set<Id> {
    set a | a in Applications(db, owner) && db.applications[a].status == s
  }

  /** The GROUP BY answers one row per status that occurs. */
  function StatusRows(db: Db, owner: OwnerId): map<Status, nat> {
    map s: Status | s in STATUSES && WithStatus(db, owner, s) != {} :: |WithStatus(db, owner, s)|
  }

  function StatusCounts(db: Db, owner: OwnerId): map<Status, nat> {
    map s: Status | s in STATUSES :: |WithStatus(db, owner, s)|
  }

  function Recent(db: Db, owner: OwnerId, now: Time): set<Id> {
    set a | a in Applications(db, owner) && db.applications[a].createdAt >= now - WEEK
  }

  function AppliedSet(db: Db, owner: OwnerId): set<Id> {
    set a | a in Applications(db, owner) && db.applications[a].appliedAt.Some?
  }

  /** The outer join: one row per application and transition, or one row without a transition. */
  function JoinRows(db: Db, owner: OwnerId): set<(Id, Option<Transition>)> {
    (set a, i: int | a in Applications(db, owner) && 0 <= i < |History(db.history, a)| :: (a, Some(History(db.history, a)[i])))
    + (set a | a in Applications(db, owner) && History(db.history, a) == [] :: (a, None))
  }

  /** The distinct application ids among the joined rows that pass the filter. */
  function OfferSet(db: Db, owner: OwnerId): set<Id> {
    set row | row in JoinRows(db, owner) && row.0 in db.applications && db.applications[row.0].appliedAt.Some?
           && (db.applications[row.0].status == Offer || (row.1.Some? && row.1.value.to == Offer)) :: row.0
  }

  /** Rounds to the nearest whole number, halves to the even one. */
  function RoundHalfEven(x: real): int {
    var down := x.Floor;
    var rest := x - down as real;
    if rest < 0.5 then down
    else if rest > 0.5 then down + 1
    else if down % 2 == 0 then down else down + 1
  }

  function Round4(x: real): real { RoundHalfEven(x * 10000.0) as real / 10000.0 }

  function Conversion(offers: nat, applied: nat): real {
    if applied == 0 then 0.0 else Round4(offers as real / applied as real)
  }

  predicate Actionable(s: Status) {
    s == Saved || s == Applied || s == Screening || s == Interviewing || s == Offer
  }

  function UpcomingInterviews(db: Db, owner: OwnerId, now: Time): map<Id, Interview> {
    map v | v in db.interviews && db.interviews[v].owner == owner && db.interviews[v].status == Scheduled
         && now <= db.interviews[v].scheduledAt <= now + WEEK :: db.interviews[v]
  }

  function Actions(db: Db, owner: OwnerId, from: Option<Time>, before: Option<Time>, until: Option<Time>): map<Id, Application> {
    map a | a in db.applications && db.applications[a].owner == owner && Actionable(db.applications[a].status)
         && db.applications[a].nextActionAt.Some?
         && (from.Some? ==> from.value <= db.applications[a].nextActionAt.value)
         && (before.Some? ==> db.applications[a].nextActionAt.value < before.value)
         && (until.Some? ==> db.applications[a].nextActionAt.value <= until.value) :: db.applications[a]
  }

  // ---- Ordered lists ----

  /** Ascending by time, ties by id. */
  predicate Before<T>(rows: map<Id, T>, at: T -> Time, a: Id, b: Id)
    requires a in rows && b in rows
  {
    at(rows[a]) < at(rows[b]) || (at(rows[a]) == at(rows[b]) && a < b)
  }

  predicate IsEarliest<T>(rows: map<Id, T>, at: T -> Time, id: Id) {
    id in rows && forall x :: x in rows && x != id ==> Before(rows, at, id, x)
  }

  lemma {:induction false} EarliestExists<T>(rows: map<Id, T>, at: T -> Time)
    requires rows != map[]
    ensures exists id :: IsEarliest(rows, at, id)
    decreases |rows|
  {
    var x :| x in rows;
    var rest := rows - {x};
    if rest == map[] {
      assert forall y :: y in rows && y != x ==> y in rest;
      assert IsEarliest(rows, at, x);
    } else {
      EarliestExists(rest, at);
      var id :| IsEarliest(rest, at, id);
      var first := if Before(rows, at, x, id) then x else id;
      forall y | y in rows && y != first ensures Before(rows, at, first, y) {
        assert y != x ==> y in rest;
        assert y != x && y != id ==> Before(rest, at, id, y);
      }
      assert IsEarliest(rows, at, first);
    }
  }

  /** The query answer: the first `limit` rows in order. */
  function First<T>(rows: map<Id, T>, at: T -> Time, limit: nat): seq<(Id, T)>
    decreases limit
  {
    if limit == 0 || rows == map[] then []
    else
      EarliestExists(rows, at);
      var id: Id :| IsEarliest(rows, at, id);
      [(id, rows[id])] + First(rows - {id}, at, limit - 1)
  }

  function StartOf(v: Interview): Time { v.scheduledAt }

  function DueAt(a: Application): Time { if a.nextActionAt.Some? then a.nextActionAt.value else 0 }

  function Aggregate(db: Db, owner: OwnerId, now: Time): Summary {
    Summary(
      |set c | c in db.companies && db.companies[c].owner == owner|,
      |set j | j in db.jobs && db.jobs[j].owner == owner|,
      StatusCounts(db, owner),
      |Recent(db, owner, now)|,
      Conversion(|OfferSet(db, owner)|, |AppliedSet(db, owner)|),
      First(UpcomingInterviews(db, owner, now), StartOf, LIST_LIMIT),
      First(Actions(db, owner, None, Some(now), None), DueAt, LIST_LIMIT),
      First(Actions(db, owner, Some(now), None, Some(now + WEEK)), DueAt, LIST_LIMIT),
      now)
  }

  lemma AllStatuses(s: Status)
    ensures s in STATUSES
  {
    assert STATUSES[0] == Saved && STATUSES[1] == Applied && STATUSES[2] == Screening && STATUSES[3] == Interviewing;
    assert STATUSES[4] == Offer && STATUSES[5] == Rejected && STATUSES[6] == Withdrawn && STATUSES[7] == Archived;
  }

  /** The counts as the code builds them: zero for every status, then overwritten by the grouped rows. */
  method BuildStatusCounts(rows: map<Status, nat>) returns (counts: map<Status, nat>)
    ensures forall s :: s in counts && counts[s] == if s in rows then rows[s] else 0
  {
    counts := map[];
    for i := 0 to |STATUSES|
      invariant forall k :: 0 <= k < i ==> STATUSES[k] in counts
      invariant forall s :: s in counts ==> counts[s] == 0
    {
      counts := counts[STATUSES[i] := 0];
    }
    forall s: Status ensures s in counts {
      AllStatuses(s);
    }
    var pending := rows.Keys;
    while pending != {}
      invariant pending <= rows.Keys
      invariant forall s :: s in counts && counts[s] == if s in rows && s !in pending then rows[s] else 0
      decreases |pending|
    {
      var s :| s in pending;
      counts := counts[s := rows[s]];
      pending := pending - {s};
    }
  }

  /** The aggregate as computed from the query answers. */
  method ComputeSummary(db: Db, owner: OwnerId, now: Time) returns (summary: Summary)
    ensures summary == Aggregate(db, owner, now)
  {
    var statusCounts := BuildStatusCounts(StatusRows(db, owner));
    forall s: Status ensures s in STATUSES {
      AllStatuses(s);
    }
    assert statusCounts == StatusCounts(db, owner);
    var applied := |AppliedSet(db, owner)|;
    var conversion := if applied != 0 then Round4(|OfferSet(db, owner)| as real / applied as real) else 0.0;
    summary := Summary(
      |set c | c in db.companies && db.companies[c].owner == owner|,
      |set j | j in db.jobs && db.jobs[j].owner == owner|,
      statusCounts,
      |Recent(db, owner, now)|,
      conversion,
      First(UpcomingInterviews(db, owner, now), StartOf, LIST_LIMIT),
      First(Actions(db, owner, None, Some(now), None), DueAt, LIST_LIMIT),
      First(Actions(db, owner, Some(now), None, Some(now + WEEK)), DueAt, LIST_LIMIT),
      now);
  }

  // ---- The numbers mean what they say ----

  function SumCounts(counts: map<Status, nat>, statuses: seq<Status>): nat
    requires forall s :: s in statuses ==> s in counts
  {
    if statuses == [] then 0 else SumCounts(counts, statuses[..|statuses| - 1]) + counts[statuses[|statuses| - 1]]
  }

  function WithStatusIn(db: Db, owner: OwnerId, statuses: seq<Status>): set<Id> {
    set a | a in Applications(db, owner) && db.applications[a].status in statuses
  }

  lemma {:induction false} PartialSum(db: Db, owner: OwnerId, counts: map<Status, nat>, statuses: seq<Status>)
    requires Distinct(statuses)
    requires forall s :: s in statuses ==> s in counts && counts[s] == |WithStatus(db, owner, s)|
    ensures SumCounts(counts, statuses) == |WithStatusIn(db, owner, statuses)|
  {
    if statuses == [] {
      assert WithStatusIn(db, owner, statuses) == {};
    } else {
      var n := |statuses| - 1;
      var rest, last := statuses[..n], statuses[n];
      assert statuses == rest + [last];
      PartialSum(db, owner, counts, rest);
      assert last !in rest;
      assert WithStatusIn(db, owner, statuses) == WithStatusIn(db, owner, rest) + WithStatus(db, owner, last);
      assert WithStatusIn(db, owner, rest) !! WithStatus(db, owner, last);
    }
  }

  lemma StatusCountsAddUp(db: Db, owner: OwnerId)
    ensures forall s :: s in StatusCounts(db, owner)
    ensures SumCounts(StatusCounts(db, owner), STATUSES) == |Applications(db, owner)|
  {
    forall s: Status ensures s in STATUSES && s in StatusCounts(db, owner) {
      AllStatuses(s);
    }
    PartialSum(db, owner, StatusCounts(db, owner), STATUSES);
    assert WithStatusIn(db, owner, STATUSES) == Applications(db, owner);
  }

  /** The per-status counts add up to the number of the owner's applications. */
  lemma CountsPartition(db: Db, owner: OwnerId, now: Time)
    ensures var counts := Aggregate(db, owner, now).statusCounts;
            && (forall s :: s in counts)
            && SumCounts(counts, STATUSES) == |Applications(db, owner)|
  {
    StatusCountsAddUp(db, owner);
  }

  function EverOffered(db: Db, owner: OwnerId): set<Id> {
    set a | a in Applications(db, owner) && Reached(History(db.history, a), Offer)
  }

  lemma OfferedIsJoined(db: Db, owner: OwnerId, a: Id)
    requires ApplicationsOk(db.applications, db.history) && a in EverOffered(db, owner)
    ensures a in OfferSet(db, owner)
  {
    var h := History(db.history, a);
    OfferIsScreened(h, db.applications[a].status);
    var i :| 0 <= i < |h| && h[i].to == Offer;
    assert (a, Some(h[i])) in JoinRows(db, owner);
  }

  lemma JoinedIsOffered(db: Db, owner: OwnerId, a: Id)
    requires ApplicationsOk(db.applications, db.history) && a in OfferSet(db, owner)
    ensures a in EverOffered(db, owner)
  {
    var row :| row in JoinRows(db, owner) && row.0 == a && row.0 in db.applications
            && (db.applications[a].status == Offer || (row.1.Some? && row.1.value.to == Offer));
    var h := History(db.history, a);
    assert ApplicationOk(db.applications[a], h);
    if db.applications[a].status == Offer {
      assert h[|h| - 1].to == Offer;
    } else {
      var i :| 0 <= i < |h| && row.1 == Some(h[i]);
      assert h[i].to == Offer;
    }
  }

  /**
    On reachable databases the distinct count over the outer join is the number of applications that
    ever reached `offer`, none is lost to the applied-date filter, and the rate is a rate.
   */
  lemma OffersAreCounted(k: NameKeys, calls: seq<Call>, owner: OwnerId, now: Time)
    ensures var db := Run(Empty(), k, calls);
            && OfferSet(db, owner) == EverOffered(db, owner) <= AppliedSet(db, owner)
            && var rate := Aggregate(db, owner, now).conversion;
               && 0.0 <= rate <= 1.0
               && (EverOffered(db, owner) == {} ==> rate == 0.0)
               && (AppliedSet(db, owner) != {} ==>
                     var exact := |EverOffered(db, owner)| as real / |AppliedSet(db, owner)| as real;
                     -0.00005 <= rate - exact <= 0.00005)
  {
    RunKeepsInv(k, calls);
    var db := Run(Empty(), k, calls);
    OfferSets(db, k, owner);
    Subset(EverOffered(db, owner), AppliedSet(db, owner));
    RateInRange(|OfferSet(db, owner)|, |AppliedSet(db, owner)|);
  }

  lemma OfferSets(db: Db, k: NameKeys, owner: OwnerId)
    requires Inv(db, k)
    ensures OfferSet(db, owner) == EverOffered(db, owner) <= AppliedSet(db, owner)
  {
    forall a | a in OfferSet(db, owner) ensures a in EverOffered(db, owner) {
      JoinedIsOffered(db, owner, a);
    }
    forall a | a in EverOffered(db, owner) ensures a in OfferSet(db, owner) && a in AppliedSet(db, owner) {
      OfferedIsJoined(db, owner, a);
      OfferIsScreened(History(db.history, a), db.applications[a].status);
    }
  }

  lemma {:induction false} Subset(a: set<Id>, b: set<Id>)
    requires a <= b
    ensures |a| <= |b|
  {
    assert b == a + (b - a);
  }

  lemma RateInRange(offers: nat, applied: nat)
    requires offers <= applied
    ensures 0.0 <= Conversion(offers, applied) <= 1.0
    ensures offers == 0 ==> Conversion(offers, applied) == 0.0
    ensures applied > 0 && offers == applied ==> Conversion(offers, applied) == 1.0
    ensures applied > 0 ==>
      var exact := offers as real / applied as real;
      -0.00005 <= Conversion(offers, applied) - exact <= 0.00005
  {
    if applied > 0 {
      var exact := offers as real / applied as real;
      assert 0.0 <= exact <= 1.0;
      assert offers == applied ==> exact == 1.0;
      var scaled := exact * 10000.0;
      assert 0.0 <= scaled <= 10000.0;
      assert RoundHalfEven(scaled) as real - 0.5 <= scaled <= RoundHalfEven(scaled) as real + 0.5;
    }
  }

  /** Rounding lands on a nearest whole number, and from the middle of two on the even one. */
  lemma HalvesGoToEven(x: real)
    ensures var r := RoundHalfEven(x);
            && -0.5 <= r as real - x <= 0.5
            && (r as real - x == 0.5 || x - r as real == 0.5 ==> r % 2 == 0)
  {
  }

  lemma Complement(part: set<Id>, rest: set<Id>, all: set<Id>)
    requires part + rest == all && part !! rest
    ensures |part| + |rest| == |all|
  {
  }

  /** Applications of the owner that are not counted under `s`, and those not counted as recent. */
  function WithoutStatus(db: Db, owner: OwnerId, s: Status): set<Id> {
    set a | a in db.applications && db.applications[a].owner == owner && db.applications[a].status != s
  }

  function Older(db: Db, owner: OwnerId, now: Time): set<Id> {
    set a | a in db.applications && db.applications[a].owner == owner && db.applications[a].createdAt < now - 604_800_000_000
  }

  lemma StatusComplement(db: Db, owner: OwnerId, s: Status)
    ensures s in StatusCounts(db, owner)
    ensures StatusCounts(db, owner)[s] + |WithoutStatus(db, owner, s)| == |Applications(db, owner)|
  {
    AllStatuses(s);
    Complement(WithStatus(db, owner, s), WithoutStatus(db, owner, s), Applications(db, owner));
  }

  lemma RecentComplement(db: Db, owner: OwnerId, now: Time)
    ensures |Recent(db, owner, now)| + |Older(db, owner, now)|
            == |Applications(db, owner)|
  {
    Complement(Recent(db, owner, now), Older(db, owner, now), Applications(db, owner));
  }

  /** The counts of companies and jobs, of each status, and of the applications of the last seven days are the owner's. */
  lemma CountsExactly(db: Db, owner: OwnerId, now: Time, s: Status)
    ensures var summary, view := Aggregate(db, owner, now), View(db, owner);
            && summary.companies == |view.companies| && summary.jobs == |view.jobs|
            && s in summary.statusCounts
            && summary.statusCounts[s] + |WithoutStatus(db, owner, s)| == |view.applications|
            && summary.recent + |Older(db, owner, now)| == |view.applications|
  {
    OwnRowsAreTheView(db, owner);
    StatusComplement(db, owner, s);
    RecentComplement(db, owner, now);
  }

  lemma OwnRowsAreTheView(db: Db, owner: OwnerId)
    ensures var view := View(db, owner);
            && (set c | c in db.companies && db.companies[c].owner == owner) == view.companies.Keys
            && (set j | j in db.jobs && db.jobs[j].owner == owner) == view.jobs.Keys
            && Applications(db, owner) == view.applications.Keys
            && |view.companies.Keys| == |view.companies| && |view.jobs.Keys| == |view.jobs|
            && |view.applications.Keys| == |view.applications|
  {
  }

  predicate Shown<T>(list: seq<(Id, T)>, id: Id) {
    exists i :: 0 <= i < |list| && list[i].0 == id
  }

  ghost predicate Ordered<T>(rows: map<Id, T>, at: T -> Time, list: seq<(Id, T)>) {
    && (forall i :: 0 <= i < |list| ==> list[i].0 in rows && list[i].1 == rows[list[i].0])
    && (forall i, j :: 0 <= i < j < |list| ==> Before(rows, at, list[i].0, list[j].0))
  }

  /** Rows that are not shown come after all that are. */
  ghost predicate NothingEarlier<T>(rows: map<Id, T>, at: T -> Time, list: seq<(Id, T)>)
    requires Ordered(rows, at, list)
  {
    forall id, i :: id in rows && !Shown(list, id) && 0 <= i < |list| ==> Before(rows, at, list[i].0, id)
  }

  lemma OrderedStep<T>(rows: map<Id, T>, at: T -> Time, first: Id, tail: seq<(Id, T)>)
    requires IsEarliest(rows, at, first) && Ordered(rows - {first}, at, tail)
    ensures Ordered(rows, at, [(first, rows[first])] + tail)
  {
    var list, rest := [(first, rows[first])] + tail, rows - {first};
    forall i, j | 0 <= i < j < |list| ensures list[i].0 in rows && list[j].0 in rows && Before(rows, at, list[i].0, list[j].0) {
      assert list[j] == tail[j - 1] && tail[j - 1].0 in rest;
      if i > 0 {
        assert list[i] == tail[i - 1] && Before(rest, at, tail[i - 1].0, tail[j - 1].0);
      }
    }
  }

  lemma NothingEarlierStep<T>(rows: map<Id, T>, at: T -> Time, first: Id, tail: seq<(Id, T)>)
    requires IsEarliest(rows, at, first) && Ordered(rows - {first}, at, tail)
    requires NothingEarlier(rows - {first}, at, tail)
    ensures Ordered(rows, at, [(first, rows[first])] + tail)
    ensures NothingEarlier(rows, at, [(first, rows[first])] + tail)
  {
    OrderedStep(rows, at, first, tail);
    var list, rest := [(first, rows[first])] + tail, rows - {first};
    ShownShift(list, first);
    assert list[1..] == tail;
    forall id, i | id in rows && !Shown(list, id) && 0 <= i < |list| ensures Before(rows, at, list[i].0, id) {
      if i > 0 {
        assert list[i] == tail[i - 1] && Before(rest, at, tail[i - 1].0, id);
      }
    }
  }

  /** A list holds qualifying rows in strict order of time and id, as many as fit, and nothing earlier is left out. */
  lemma {:induction false} FirstInOrder<T>(rows: map<Id, T>, at: T -> Time, limit: nat)
    ensures var list := First(rows, at, limit);
            && |list| == (if |rows| < limit then |rows| else limit)
            && Ordered(rows, at, list) && NothingEarlier(rows, at, list)
    decreases limit
  {
    if limit > 0 && rows != map[] {
      EarliestExists(rows, at);
      var list := First(rows, at, limit);
      var first := list[0].0;
      var rest := rows - {first};
      assert rows.Keys == rest.Keys + {first};
      FirstInOrder(rest, at, limit - 1);
      NothingEarlierStep(rows, at, first, First(rest, at, limit - 1));
    }
  }

  /** While all rows fit, all are shown. */
  lemma AllShown<T>(rows: map<Id, T>, at: T -> Time, limit: nat, id: Id)
    ensures Shown(First(rows, at, limit), id) ==> id in rows
    ensures |rows| <= limit && id in rows ==> Shown(First(rows, at, limit), id)
  {
    FirstInOrder(rows, at, limit);
    var list := First(rows, at, limit);
    if |rows| <= limit && id in rows && !Shown(list, id) {
      var ids := seq(|list|, i requires 0 <= i < |list| => list[i].0) + [id];
      forall i, j | 0 <= i < j < |ids| ensures ids[i] != ids[j] {
        assert j < |list| ==> Before(rows, at, list[i].0, list[j].0);
      }
      DistinctFits(ids, rows.Keys);
    }
  }

  lemma ShownShift<T>(list: seq<(Id, T)>, first: Id)
    requires list != [] && list[0].0 == first
    ensures Shown(list, first)
    ensures forall id :: id != first ==> (Shown(list, id) <==> Shown(list[1..], id))
  {
    forall id | id != first ensures Shown(list, id) <==> Shown(list[1..], id) {
      if Shown(list, id) {
        var i :| 0 <= i < |list| && list[i].0 == id;
        assert list[1..][i - 1].0 == id;
      }
      if Shown(list[1..], id) {
        var i :| 0 <= i < |list[1..]| && list[1..][i].0 == id;
        assert list[i + 1].0 == id;
      }
    }
  }

  /** Not closed, with a next action. */
  predicate AwaitsAction(row: Application) {
    row.status != Rejected && row.status != Withdrawn && row.status != Archived && row.nextActionAt.Some?
  }

  lemma ActionsAwait(db: Db, owner: OwnerId, now: Time, a: Id)
    requires OwnsApplication(db, owner, a)
    ensures var row := db.applications[a];
            && (a in Actions(db, owner, None, Some(now), None) <==> AwaitsAction(row) && row.nextActionAt.value < now)
            && (a in Actions(db, owner, Some(now), None, Some(now + WEEK)) <==>
                AwaitsAction(row) && now <= row.nextActionAt.value <= now + 604_800_000_000)
  {
  }

  lemma ListsOf(db: Db, owner: OwnerId, now: Time)
    ensures var summary := Aggregate(db, owner, now);
            && summary.upcomingInterviews == First(UpcomingInterviews(db, owner, now), StartOf, 20)
            && summary.overdue == First(Actions(db, owner, None, Some(now), None), DueAt, 20)
            && summary.upcoming == First(Actions(db, owner, Some(now), None, Some(now + WEEK)), DueAt, 20)
  {
  }

  /**
    No application is listed as overdue and as upcoming; every listed one awaits an action due within
    seven days; and while at most twenty qualify for a list, it shows all of them.
   */
  lemma ActionsSplit(db: Db, owner: OwnerId, now: Time, a: Id)
    requires OwnsApplication(db, owner, a)
    ensures var summary := Aggregate(db, owner, now);
            var row := db.applications[a];
            && !(Shown(summary.overdue, a) && Shown(summary.upcoming, a))
            && (Shown(summary.overdue, a) || Shown(summary.upcoming, a) ==>
                  AwaitsAction(row) && row.nextActionAt.value <= now + 604_800_000_000)
            && (|Actions(db, owner, None, Some(now), None)| <= 20 ==>
                  (Shown(summary.overdue, a) <==> AwaitsAction(row) && row.nextActionAt.value < now))
            && (|Actions(db, owner, Some(now), None, Some(now + WEEK))| <= 20 ==>
                  (Shown(summary.upcoming, a) <==>
                   AwaitsAction(row) && now <= row.nextActionAt.value <= now + 604_800_000_000))
  {
    var overdue, upcoming := Actions(db, owner, None, Some(now), None), Actions(db, owner, Some(now), None, Some(now + WEEK));
    ActionsAwait(db, owner, now, a);
    AllShown(overdue, DueAt, LIST_LIMIT, a);
    AllShown(upcoming, DueAt, LIST_LIMIT, a);
    ListsOf(db, owner, now);
  }

  /** Only scheduled interviews of the owner that start within seven days are listed, and while at most twenty do, all are. */
  lemma InterviewsListed(db: Db, owner: OwnerId, now: Time, v: Id)
    ensures var list := Aggregate(db, owner, now).upcomingInterviews;
            var due := v in db.interviews && db.interviews[v].owner == owner && db.interviews[v].status == Scheduled
                       && now <= db.interviews[v].scheduledAt <= now + 604_800_000_000;
            && |list| <= 20
            && (Shown(list, v) ==> due)
            && (|UpcomingInterviews(db, owner, now)| <= 20 && due ==> Shown(list, v))
  {
    var rows := UpcomingInterviews(db, owner, now);
    assert v in rows <==> v in db.interviews && db.interviews[v].owner == owner && db.interviews[v].status == Scheduled
                          && now <= db.interviews[v].scheduledAt <= now + 604_800_000_000;
    FirstInOrder(rows, StartOf, LIST_LIMIT);
    AllShown(rows, StartOf, LIST_LIMIT, v);
    ListsOf(db, owner, now);
  }

  lemma OwnApplicationsSeen(db: Db, owner: OwnerId)
    ensures Applications(View(db, owner), owner) == Applications(db, owner)
    ensures forall a :: a in Applications(db, owner) ==>
      && a in View(db, owner).applications && View(db, owner).applications[a] == db.applications[a]
      && History(View(db, owner).history, a) == History(db.history, a)
  {
    assert Applications(View(db, owner), owner) == Applications(db, owner);
  }

  lemma OffersIsolated(db: Db, owner: OwnerId)
    ensures AppliedSet(View(db, owner), owner) == AppliedSet(db, owner)
    ensures OfferSet(View(db, owner), owner) == OfferSet(db, owner)
  {
    var v := View(db, owner);
    OwnApplicationsSeen(db, owner);
    assert AppliedSet(v, owner) == AppliedSet(db, owner);
    assert JoinRows(v, owner) == JoinRows(db, owner);
    JoinedAreOwn(db, owner);
    assert OfferSet(v, owner) == OfferSet(db, owner);
  }

  lemma JoinedAreOwn(db: Db, owner: OwnerId)
    ensures forall row :: row in JoinRows(db, owner) ==> row.0 in Applications(db, owner)
  {
  }

  lemma CountsIsolated(db: Db, owner: OwnerId, now: Time)
    ensures var v := View(db, owner);
            && (forall s :: WithStatus(v, owner, s) == WithStatus(db, owner, s))
            && (set c | c in v.companies && v.companies[c].owner == owner) == (set c | c in db.companies && db.companies[c].owner == owner)
            && (set j | j in v.jobs && v.jobs[j].owner == owner) == (set j | j in db.jobs && db.jobs[j].owner == owner)
            && Recent(v, owner, now) == Recent(db, owner, now)
  {
    OwnApplicationsSeen(db, owner);
  }

  lemma ListsIsolated(db: Db, owner: OwnerId, now: Time)
    ensures var v := View(db, owner);
            && UpcomingInterviews(v, owner, now) == UpcomingInterviews(db, owner, now)
            && Actions(v, owner, None, Some(now), None) == Actions(db, owner, None, Some(now), None)
            && Actions(v, owner, Some(now), None, Some(now + WEEK)) == Actions(db, owner, Some(now), None, Some(now + WEEK))
  {
  }

  /** The dashboard of A is computed from A's rows alone. */
  lemma DashboardIsolated(db: Db, owner: OwnerId, now: Time)
    ensures Aggregate(View(db, owner), owner, now) == Aggregate(db, owner, now)
  {
    OffersIsolated(db, owner);
    CountsIsolated(db, owner, now);
    ListsIsolated(db, owner, now);
    assert StatusCounts(View(db, owner), owner) == StatusCounts(db, owner);
  }
}
