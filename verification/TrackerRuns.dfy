/** What holds in every database that any sequence of requests by any owners can reach. */
module TrackerRuns {
  import opened Common
  import opened Tracker

  datatype Call = Call(owner: OwnerId, request: Request)

  function Next(db: Db, k: NameKeys, c: Call): Db {
    if FreshId(db, c.request) && Valid(c.request) then Exec(db, k, c.owner, c.request).0 else db
  }

  function Run(db: Db, k: NameKeys, calls: seq<Call>): Db {
    if calls == [] then db else Next(Run(db, k, calls[..|calls| - 1]), k, calls[|calls| - 1])
  }

  // ---- The invariant ----

  /** Every child row names a parent row of the same owner. */
  predicate JobParents(jobs: map<Id, Job>, companies: map<Id, Company>) {
    forall j :: j in jobs ==> jobs[j].companyId in companies && companies[jobs[j].companyId].owner == jobs[j].owner
  }

  predicate ApplicationParents(applications: map<Id, Application>, jobs: map<Id, Job>) {
    forall a :: a in applications ==> applications[a].jobId in jobs && jobs[applications[a].jobId].owner == applications[a].owner
  }

  predicate InterviewParents(interviews: map<Id, Interview>, applications: map<Id, Application>) {
    forall v :: v in interviews ==>
      interviews[v].applicationId in applications && applications[interviews[v].applicationId].owner == interviews[v].owner
  }

  /** The unique constraints: one application per job, one company per normalized name and owner. */
  predicate OnePerJob(applications: map<Id, Application>) {
    forall a, b :: a in applications && b in applications && a != b ==>
      applications[a].jobId != applications[b].jobId || applications[a].owner != applications[b].owner
  }

  predicate OnePerName(companies: map<Id, Company>, k: NameKeys) {
    forall c, d :: c in companies && d in companies && c != d && companies[c].owner == companies[d].owner ==>
      k.sql(companies[c].name) != k.sql(companies[d].name)
  }

  predicate DatesOk(a: Application) {
    && (a.status == Saved ==> a.appliedAt.None?)
    && (a.status in {Applied, Screening, Interviewing, Offer, Rejected} ==> a.appliedAt.Some?)
    && !DatesClash(a.appliedAt, a.deadline)
  }

  /** `h` is a walk through the transition graph from `saved` or `applied` to `status`. */
  predicate IsPath(h: seq<Transition>, status: Status) {
    if h == [] then status == Saved || status == Applied
    else
      var last := h[|h| - 1];
      last.to == status && Allowed(last.from, last.to) && IsPath(h[..|h| - 1], last.from)
  }

  predicate Reached(h: seq<Transition>, status: Status) {
    exists i :: 0 <= i < |h| && h[i].to == status
  }

  /** The row constraints, feedback only once completed, and an application that has been screened. */
  predicate InterviewOk(v: Interview, h: seq<Transition>) {
    && ValidDuration(v.duration)
    && v.scheduledEnd == ScheduledEnd(v.scheduledAt, v.duration)
    && (v.feedback.Some? ==> v.status == Completed)
    && Reached(h, Screening)
  }

  /** Half-open intervals, as in the exclusion constraint. */
  predicate Overlap(aStart: Time, aEnd: Time, bStart: Time, bEnd: Time) {
    aStart < bEnd && bStart < aEnd
  }

  predicate Clash(a: Interview, b: Interview) {
    && a.owner == b.owner && a.status == Scheduled && b.status == Scheduled
    && Overlap(a.scheduledAt, a.scheduledEnd, b.scheduledAt, b.scheduledEnd)
  }

  predicate Disjoint(interviews: map<Id, Interview>) {
    forall v, w :: v in interviews && w in interviews && v != w ==> !Clash(interviews[v], interviews[w])
  }

  /** Consistent dates, a history that leads to the status, and an applied date kept since screening. */
  predicate ApplicationOk(a: Application, h: seq<Transition>) {
    DatesOk(a) && IsPath(h, a.status) && (Reached(h, Screening) ==> a.appliedAt.Some?)
  }

  predicate ApplicationsOk(applications: map<Id, Application>, history: map<Id, seq<Transition>>) {
    && (forall a :: a in applications ==> ApplicationOk(applications[a], History(history, a)))
    && (forall h :: h in history ==> h in applications)
  }

  predicate InterviewsOk(interviews: map<Id, Interview>, history: map<Id, seq<Transition>>) {
    forall v :: v in interviews ==> InterviewOk(interviews[v], History(history, interviews[v].applicationId))
  }

  ghost predicate Inv(db: Db, k: NameKeys) {
    && OnePerName(db.companies, k)
    && JobParents(db.jobs, db.companies)
    && ApplicationParents(db.applications, db.jobs)
    && InterviewParents(db.interviews, db.applications)
    && OnePerJob(db.applications)
    && ApplicationsOk(db.applications, db.history)
    && InterviewsOk(db.interviews, db.history)
    && Disjoint(db.interviews)
  }

  // ---- Paths ----

  function Rank(s: Status): nat {
    match s
    case Saved => 0
    case Applied => 1
    case Screening => 2
    case Interviewing => 3
    case Offer => 4
    case Rejected => 4
    case Withdrawn => 4
    case Archived => 5
  }

  lemma {:induction false} PathClimbs(h: seq<Transition>, status: Status, i: nat)
    requires IsPath(h, status)
    ensures |h| <= Rank(status)
    ensures i < |h| ==> Allowed(h[i].from, h[i].to) && Rank(h[i].from) < Rank(h[i].to) <= Rank(status)
    ensures 0 < i < |h| ==> h[i].from == h[i - 1].to
    ensures h != [] ==> h[0].from == Saved || h[0].from == Applied
  {
    if h != [] {
      var n := |h| - 1;
      PathClimbs(h[..n], h[n].from, if i < n then i else 0);
      if i == n && n > 0 {
        assert h[..n][n - 1] == h[n - 1];
      }
    }
  }

  /** The statuses a path visits, start included. */
  function Visited(h: seq<Transition>, status: Status): seq<Status> {
    if h == [] then [status] else Visited(h[..|h| - 1], h[|h| - 1].from) + [status]
  }

  lemma {:induction false} VisitedClimbs(h: seq<Transition>, status: Status, i: nat, j: nat)
    requires IsPath(h, status) && i < j <= |h|
    ensures |Visited(h, status)| == |h| + 1
    ensures Rank(Visited(h, status)[i]) < Rank(Visited(h, status)[j]) <= Rank(status)
  {
    var n := |h| - 1;
    VisitedEnds(h[..n], h[n].from);
    if j <= n {
      VisitedClimbs(h[..n], h[n].from, i, j);
    } else if i < n {
      VisitedClimbs(h[..n], h[n].from, i, n);
    }
  }

  lemma {:induction false} VisitedEnds(h: seq<Transition>, status: Status)
    ensures |Visited(h, status)| == |h| + 1
    ensures Visited(h, status)[|h|] == status
  {
    if h != [] {
      VisitedEnds(h[..|h| - 1], h[|h| - 1].from);
    }
  }

  /** Screening lies on every path to an interview-eligible status. */
  lemma {:induction false} ScreenedOnTheWay(h: seq<Transition>, status: Status)
    requires IsPath(h, status) && Eligible(status)
    ensures Reached(h, Screening)
  {
    var n := |h| - 1;
    if status == Screening {
      assert h[n].to == Screening;
    } else {
      ScreenedOnTheWay(h[..n], h[n].from);
      var i :| 0 <= i < n && h[..n][i].to == Screening;
      assert h[i].to == Screening;
    }
  }

  lemma SavedIsUnscreened(h: seq<Transition>, status: Status)
    requires IsPath(h, status)
    ensures status == Saved ==> h == []
    ensures status == Saved || status == Applied ==> !Reached(h, Screening)
  {
    forall i | 0 <= i < |h| ensures status == Saved || status == Applied ==> h[i].to != Screening {
      PathClimbs(h, status, i);
    }
    PathClimbs(h, status, 0);
  }

  /** Offer is reached only through screening. */
  lemma {:induction false} OfferIsScreened(h: seq<Transition>, status: Status)
    requires IsPath(h, status) && Reached(h, Offer)
    ensures Reached(h, Screening)
  {
    var i :| 0 <= i < |h| && h[i].to == Offer;
    var n := |h| - 1;
    if i == n {
      ScreenedOnTheWay(h, status);
    } else {
      assert h[..n][i].to == Offer;
      OfferIsScreened(h[..n], h[n].from);
      ReachedGrows(h[..n], h, Screening);
    }
  }

  lemma PathExtends(h: seq<Transition>, status: Status, t: Transition)
    requires IsPath(h, status) && t.from == status && Allowed(t.from, t.to)
    ensures IsPath(h + [t], t.to)
    ensures forall s :: Reached(h + [t], s) ==> Reached(h, s) || t.to == s
  {
    assert (h + [t])[..|h|] == h;
    forall s | Reached(h + [t], s) ensures Reached(h, s) || t.to == s {
      var i :| 0 <= i < |h + [t]| && (h + [t])[i].to == s;
      assert i < |h| ==> h[i].to == s;
    }
  }

  // ---- The overlap search ----

  /** The search without the lower bound on the start. */
  predicate FullScan(interviews: map<Id, Interview>, owner: OwnerId, at: Time, duration: int, exclude: Option<Id>) {
    exists v :: v in interviews && Some(v) != exclude
             && interviews[v].owner == owner && interviews[v].status == Scheduled
             && Overlap(interviews[v].scheduledAt, interviews[v].scheduledEnd, at, ScheduledEnd(at, duration))
  }

  predicate WindowsOk(interviews: map<Id, Interview>) {
    forall v :: v in interviews ==>
      && ValidDuration(interviews[v].duration)
      && interviews[v].scheduledEnd == ScheduledEnd(interviews[v].scheduledAt, interviews[v].duration)
  }

  /** Because no interview lasts longer than 480 minutes, the bounded search misses nothing. */
  lemma BoundedSearchIsExact(rows: map<Id, Interview>, owner: OwnerId, at: Time, duration: int, exclude: Option<Id>)
    requires WindowsOk(rows)
    ensures HasOverlap(rows, owner, at, duration, exclude) <==> FullScan(rows, owner, at, duration, exclude)
  {
    if FullScan(rows, owner, at, duration, exclude) {
      var v :| v in rows && Some(v) != exclude && rows[v].owner == owner && rows[v].status == Scheduled
            && Overlap(rows[v].scheduledAt, rows[v].scheduledEnd, at, ScheduledEnd(at, duration));
      assert rows[v].scheduledAt > at - MAX_DURATION;
    }
  }

  /** A row that passed the check (or is not scheduled) can be written: the exclusion constraint holds. */
  lemma CheckedRowFits(rows: map<Id, Interview>, id: Id, row: Interview, exclude: Option<Id>)
    requires WindowsOk(rows) && Disjoint(rows)
    requires row.scheduledEnd == ScheduledEnd(row.scheduledAt, row.duration)
    requires exclude == Some(id) || (exclude == None && id !in rows)
    requires row.status == Scheduled ==> !HasOverlap(rows, row.owner, row.scheduledAt, row.duration, exclude)
    ensures Disjoint(rows[id := row])
  {
    BoundedSearchIsExact(rows, row.owner, row.scheduledAt, row.duration, exclude);
    forall v | v in rows && v != id ensures !Clash(rows[v], row) && !Clash(row, rows[v]) {
      assert Some(v) != exclude;
    }
  }

  // ---- Preservation ----

  /** Writes an application row and, when `steps` is not empty, appends to its history. */
  function WriteApplication(db: Db, id: Id, row: Application, steps: seq<Transition>): Db {
    db.(applications := db.applications[id := row],
        history := if steps == [] then db.history else db.history[id := History(db.history, id) + steps])
  }

  lemma ApplicationRowsStay(applications: map<Id, Application>, history: map<Id, seq<Transition>>, id: Id,
                            row: Application, history': map<Id, seq<Transition>>)
    requires ApplicationsOk(applications, history)
    requires forall a :: a != id ==> History(history', a) == History(history, a)
    requires forall h :: h in history' ==> h in history || h == id
    requires ApplicationOk(row, History(history', id))
    ensures ApplicationsOk(applications[id := row], history')
  {
    forall a | a in applications && a != id ensures ApplicationOk(applications[a], History(history', a)) {
      assert History(history', a) == History(history, a);
    }
  }

  lemma OnePerJobStays(applications: map<Id, Application>, id: Id, row: Application)
    requires OnePerJob(applications)
    requires forall a :: a in applications && a != id ==> applications[a].jobId != row.jobId || applications[a].owner != row.owner
    ensures OnePerJob(applications[id := row])
  {
  }

  lemma InterviewRowsStay(interviews: map<Id, Interview>, history: map<Id, seq<Transition>>,
                          history': map<Id, seq<Transition>>)
    requires InterviewsOk(interviews, history)
    requires forall v :: v in interviews ==>
      History(history, interviews[v].applicationId) <= History(history', interviews[v].applicationId)
    ensures InterviewsOk(interviews, history')
  {
    forall v | v in interviews ensures InterviewOk(interviews[v], History(history', interviews[v].applicationId)) {
      ReachedGrows(History(history, interviews[v].applicationId), History(history', interviews[v].applicationId), Screening);
    }
  }

  lemma ReachedGrows(h: seq<Transition>, h': seq<Transition>, s: Status)
    requires h <= h' && Reached(h, s)
    ensures Reached(h', s)
  {
    var i :| 0 <= i < |h| && h[i].to == s;
    assert h'[i].to == s;
  }

  lemma SameParents(interviews: map<Id, Interview>, applications: map<Id, Application>, id: Id, row: Application)
    requires InterviewParents(interviews, applications)
    requires id in applications ==> row.owner == applications[id].owner
    ensures InterviewParents(interviews, applications[id := row])
  {
  }

  lemma HistoryWrite(history: map<Id, seq<Transition>>, id: Id, steps: seq<Transition>, a: Id)
    ensures var history' := if steps == [] then history else history[id := History(history, id) + steps];
            History(history', a) == if a == id then History(history, id) + steps else History(history, a)
  {
    assert History(history, id) + [] == History(history, id);
  }

  lemma OtherJob(applications: map<Id, Application>, id: Id, row: Application, a: Id)
    requires OnePerJob(applications) && a in applications && a != id
    requires id in applications ==> row.owner == applications[id].owner && row.jobId == applications[id].jobId
    requires id !in applications ==>
      forall b :: b in applications ==> !(applications[b].jobId == row.jobId && applications[b].owner == row.owner)
    ensures applications[a].jobId != row.jobId || applications[a].owner != row.owner
  {
  }

  lemma PutKeys(applications: map<Id, Application>, jobs: map<Id, Job>, interviews: map<Id, Interview>, id: Id, row: Application)
    requires OnePerJob(applications) && ApplicationParents(applications, jobs) && InterviewParents(interviews, applications)
    requires row.jobId in jobs && jobs[row.jobId].owner == row.owner
    requires id in applications ==> row.owner == applications[id].owner && row.jobId == applications[id].jobId
    requires id !in applications ==>
      forall b :: b in applications ==> !(applications[b].jobId == row.jobId && applications[b].owner == row.owner)
    ensures OnePerJob(applications[id := row])
    ensures ApplicationParents(applications[id := row], jobs)
    ensures InterviewParents(interviews, applications[id := row])
  {
    forall a | a in applications && a != id
      ensures applications[a].jobId != row.jobId || applications[a].owner != row.owner
    {
      OtherJob(applications, id, row, a);
    }
    OnePerJobStays(applications, id, row);
    SameParents(interviews, applications, id, row);
    JobStays(applications, jobs, id, row);
  }

  lemma PutRows(applications: map<Id, Application>, interviews: map<Id, Interview>, history: map<Id, seq<Transition>>,
                id: Id, row: Application, steps: seq<Transition>)
    requires ApplicationsOk(applications, history) && InterviewsOk(interviews, history)
    requires ApplicationOk(row, History(history, id) + steps)
    ensures var history' := if steps == [] then history else history[id := History(history, id) + steps];
            ApplicationsOk(applications[id := row], history') && InterviewsOk(interviews, history')
  {
    var history' := if steps == [] then history else history[id := History(history, id) + steps];
    forall a ensures History(history', a) == if a == id then History(history, id) + steps else History(history, a) {
      HistoryWrite(history, id, steps, a);
    }
    ApplicationRowsStay(applications, history, id, row, history');
    InterviewRowsStay(interviews, history, history');
  }

  lemma PutApplication(db: Db, k: NameKeys, id: Id, row: Application, steps: seq<Transition>)
    requires Inv(db, k) && OwnsJob(db, row.owner, row.jobId)
    requires id in db.applications ==> row.owner == db.applications[id].owner && row.jobId == db.applications[id].jobId
    requires id !in db.applications ==> !JobInUse(db, row.owner, row.jobId)
    requires ApplicationOk(row, History(db.history, id) + steps)
    ensures Inv(WriteApplication(db, id, row, steps), k)
  {
    PutKeys(db.applications, db.jobs, db.interviews, id, row);
    PutRows(db.applications, db.interviews, db.history, id, row, steps);
  }

  lemma JobStays(applications: map<Id, Application>, jobs: map<Id, Job>, id: Id, row: Application)
    requires ApplicationParents(applications, jobs) && row.jobId in jobs && jobs[row.jobId].owner == row.owner
    ensures ApplicationParents(applications[id := row], jobs)
  {
  }

  lemma RemoveApplication(db: Db, k: NameKeys, id: Id)
    requires Inv(db, k) && id in db.applications && !ApplicationInUse(db, db.applications[id].owner, id)
    ensures Inv(db.(applications := db.applications - {id}, history := db.history - {id}), k)
  {
    ParentsElsewhere(db.interviews, db.applications, id);
    InterviewRowsStay(db.interviews, db.history, db.history - {id});
    RemovedRowsStay(db.applications, db.history, id);
    FewerRowsFit(db.applications, db.jobs, id);
  }

  lemma ParentsElsewhere(interviews: map<Id, Interview>, applications: map<Id, Application>, id: Id)
    requires InterviewParents(interviews, applications) && id in applications
    requires !exists v :: v in interviews && interviews[v].applicationId == id && interviews[v].owner == applications[id].owner
    ensures forall v :: v in interviews ==> interviews[v].applicationId != id
    ensures InterviewParents(interviews, applications - {id})
  {
  }

  lemma FewerRowsFit(applications: map<Id, Application>, jobs: map<Id, Job>, id: Id)
    requires ApplicationParents(applications, jobs) && OnePerJob(applications)
    ensures ApplicationParents(applications - {id}, jobs) && OnePerJob(applications - {id})
  {
  }

  lemma RemovedRowsStay(applications: map<Id, Application>, history: map<Id, seq<Transition>>, id: Id)
    requires ApplicationsOk(applications, history)
    ensures ApplicationsOk(applications - {id}, history - {id})
  {
    forall a | a in applications && a != id ensures ApplicationOk(applications[a], History(history - {id}, a)) {
      assert History(history - {id}, a) == History(history, a);
    }
  }

  lemma PutCompany(companies: map<Id, Company>, jobs: map<Id, Job>, k: NameKeys, id: Id, row: Company)
    requires OnePerName(companies, k) && JobParents(jobs, companies)
    requires id in companies ==> companies[id].owner == row.owner
    requires forall c :: c in companies && c != id && companies[c].owner == row.owner ==>
      k.sql(companies[c].name) != k.sql(row.name)
    ensures OnePerName(companies[id := row], k) && JobParents(jobs, companies[id := row])
  {
  }

  lemma RemoveCompany(companies: map<Id, Company>, jobs: map<Id, Job>, k: NameKeys, id: Id)
    requires OnePerName(companies, k) && JobParents(jobs, companies)
    requires forall j :: j in jobs ==> jobs[j].companyId != id
    ensures OnePerName(companies - {id}, k) && JobParents(jobs, companies - {id})
  {
  }

  lemma CompanyRequest(db: Db, k: NameKeys, c: Call)
    requires Inv(db, k) && FreshId(db, c.request)
    requires c.request.NewCompany? || c.request.PatchCompany? || c.request.DropCompany?
    ensures Inv(Exec(db, k, c.owner, c.request).0, k)
  {
    var id := c.request.id;
    var (db', answer) := Exec(db, k, c.owner, c.request);
    if answer.Deleted? {
      RemoveCompany(db.companies, db.jobs, k, id);
    } else if answer.CompanyRow? {
      PutCompany(db.companies, db.jobs, k, id, db'.companies[id]);
    }
  }

  lemma JobRequest(db: Db, k: NameKeys, c: Call)
    requires Inv(db, k) && FreshId(db, c.request)
    requires c.request.NewJob? || c.request.PatchJob? || c.request.DropJob?
    ensures Inv(Exec(db, k, c.owner, c.request).0, k)
  {
    var id := c.request.id;
    var db' := Exec(db, k, c.owner, c.request).0;
    if db' != db {
      if c.request.DropJob? {
        assert db'.jobs == db.jobs - {id};
        assert forall a :: a in db.applications ==> db.applications[a].jobId != id;
      } else {
        PutJob(db.jobs, db.companies, db.applications, id, db'.jobs[id]);
      }
    }
  }

  lemma PutJob(jobs: map<Id, Job>, companies: map<Id, Company>, applications: map<Id, Application>, id: Id, row: Job)
    requires JobParents(jobs, companies) && ApplicationParents(applications, jobs)
    requires row.companyId in companies && companies[row.companyId].owner == row.owner
    requires id in jobs ==> jobs[id].owner == row.owner
    ensures JobParents(jobs[id := row], companies) && ApplicationParents(applications, jobs[id := row])
  {
  }

  lemma ApplicationRequest(db: Db, k: NameKeys, c: Call)
    requires Inv(db, k) && FreshId(db, c.request) && Valid(c.request)
    requires c.request.NewApplication? || c.request.PatchApplication? || c.request.DropApplication?
    ensures Inv(Exec(db, k, c.owner, c.request).0, k)
  {
    var id := c.request.id;
    var db' := Exec(db, k, c.owner, c.request).0;
    if c.request.DropApplication? {
      if OwnsApplication(db, c.owner, id) && !ApplicationInUse(db, c.owner, id) {
        RemoveApplication(db, k, id);
      }
    } else if db' != db {
      assert History(db.history, id) + [] == History(db.history, id);
      var row := db'.applications[id];
      if id in db.applications {
        SavedIsUnscreened(History(db.history, id), row.status);
      }
      PutApplication(db, k, id, row, []);
    }
  }

  lemma MovedRowOk(was: Application, h: seq<Transition>, target: Status, now: Time, row: Application)
    requires ApplicationOk(was, h) && Allowed(was.status, target)
    requires row.status == target && row.deadline == was.deadline
    requires if target == Applied && was.appliedAt.None? then row.appliedAt.Some? else row.appliedAt == was.appliedAt
    requires !DatesClash(row.appliedAt, row.deadline)
    ensures ApplicationOk(row, h + [Transition(was.status, target, now)])
  {
    PathExtends(h, was.status, Transition(was.status, target, now));
  }

  lemma MoveRequest(db: Db, k: NameKeys, owner: OwnerId, id: Id, target: Status, now: Time, today: Date)
    requires Inv(db, k)
    ensures Inv(ChangeStatus(db, owner, id, target, now, today).0, k)
  {
    var (db', answer) := ChangeStatus(db, owner, id, target, now, today);
    if answer.ApplicationRow? {
      var was := db.applications[id];
      var row := answer.application;
      assert ApplicationOk(was, History(db.history, id));
      MovedRowOk(was, History(db.history, id), target, now, row);
      PutApplication(db, k, id, row, [Transition(was.status, target, now)]);
    }
  }

  lemma InterviewRowFits(interviews: map<Id, Interview>, history: map<Id, seq<Transition>>,
                         applications: map<Id, Application>, id: Id, row: Interview)
    requires InterviewsOk(interviews, history) && InterviewOk(row, History(history, row.applicationId))
    requires InterviewParents(interviews, applications)
    requires row.applicationId in applications && applications[row.applicationId].owner == row.owner
    ensures InterviewsOk(interviews[id := row], history) && InterviewParents(interviews[id := row], applications)
  {
  }

  lemma PutInterview(db: Db, k: NameKeys, id: Id, row: Interview)
    requires Inv(db, k) && OwnsApplication(db, row.owner, row.applicationId)
    requires InterviewOk(row, History(db.history, row.applicationId))
    requires Disjoint(db.interviews[id := row])
    ensures Inv(db.(interviews := db.interviews[id := row]), k)
  {
    InterviewRowFits(db.interviews, db.history, db.applications, id, row);
  }

  lemma NewInterviewRequest(db: Db, k: NameKeys, owner: OwnerId, id: Id, applicationId: Id, at: Time, duration: int,
                            notes: string)
    requires Inv(db, k) && id !in db.interviews && ValidDuration(duration)
    ensures Inv(CreateInterview(db, owner, id, applicationId, at, duration, notes).0, k)
  {
    if OwnsApplication(db, owner, applicationId) && Eligible(db.applications[applicationId].status)
       && !HasOverlap(db.interviews, owner, at, duration, None)
    {
      var row := Interview(owner, applicationId, Scheduled, at, duration, ScheduledEnd(at, duration), notes, None);
      ScreenedOnTheWay(History(db.history, applicationId), db.applications[applicationId].status);
      WindowsFollow(db.interviews, db.history);
      CheckedRowFits(db.interviews, id, row, None);
      PutInterview(db, k, id, row);
    }
  }

  lemma WindowsFollow(interviews: map<Id, Interview>, history: map<Id, seq<Transition>>)
    requires InterviewsOk(interviews, history)
    ensures WindowsOk(interviews)
  {
  }

  lemma PatchInterviewRequest(db: Db, k: NameKeys, owner: OwnerId, id: Id, p: InterviewPatch)
    requires Inv(db, k) && (p.duration.Set? ==> ValidDuration(p.duration.value))
    ensures Inv(UpdateInterview(db, owner, id, p).0, k)
  {
    if OwnsInterview(db, owner, id) && InterviewProblem(db.interviews, owner, id, db.interviews[id], p).None? {
      WindowsFollow(db.interviews, db.history);
      CheckedRowFits(db.interviews, id, Patched(db.interviews[id], p), Some(id));
      PutInterview(db, k, id, Patched(db.interviews[id], p));
    }
  }

  lemma NextKeepsInv(db: Db, k: NameKeys, c: Call)
    requires Inv(db, k)
    ensures Inv(Next(db, k, c), k)
  {
    var r := c.request;
    if FreshId(db, r) && Valid(r) {
      if r.NewCompany? || r.PatchCompany? || r.DropCompany? { CompanyRequest(db, k, c); }
      else if r.NewJob? || r.PatchJob? || r.DropJob? { JobRequest(db, k, c); }
      else if r.NewApplication? || r.PatchApplication? || r.DropApplication? { ApplicationRequest(db, k, c); }
      else if r.MoveApplication? { MoveRequest(db, k, c.owner, r.id, r.target, r.now, r.today); }
      else if r.NewInterview? { NewInterviewRequest(db, k, c.owner, r.id, r.applicationId, r.at, r.duration, r.notes); }
      else if r.PatchInterview? { PatchInterviewRequest(db, k, c.owner, r.id, r.change); }
    }
  }

  lemma {:induction false} RunKeepsInv(k: NameKeys, calls: seq<Call>)
    ensures Inv(Run(Empty(), k, calls), k)
  {
    if calls != [] {
      RunKeepsInv(k, calls[..|calls| - 1]);
      NextKeepsInv(Run(Empty(), k, calls[..|calls| - 1]), k, calls[|calls| - 1]);
    }
  }

  // ---- What every run guarantees ----

  /** History: a repetition-free path of at most five allowed steps from `saved` or `applied` to the status. */
  lemma HistoryIsAPath(k: NameKeys, calls: seq<Call>, id: Id)
    requires id in Run(Empty(), k, calls).applications
    ensures var db := Run(Empty(), k, calls);
            var h := History(db.history, id);
            var path := Visited(h, db.applications[id].status);
            && |h| <= 5 && |path| == |h| + 1
            && (path[0] == Saved || path[0] == Applied) && path[|h|] == db.applications[id].status
            && (forall i, j :: 0 <= i < j <= |h| ==> path[i] != path[j])
            && (forall i :: 0 <= i < |h| ==> Allowed(path[i], path[i + 1]) && h[i].from == path[i] && h[i].to == path[i + 1])
  {
    RunKeepsInv(k, calls);
    var db := Run(Empty(), k, calls);
    PathIsSimple(History(db.history, id), db.applications[id].status);
  }

  lemma PathIsSimple(h: seq<Transition>, status: Status)
    requires IsPath(h, status)
    ensures var path := Visited(h, status);
            && |h| <= 5 && |path| == |h| + 1
            && (path[0] == Saved || path[0] == Applied) && path[|h|] == status
            && (forall i, j :: 0 <= i < j <= |h| ==> path[i] != path[j])
            && (forall i :: 0 <= i < |h| ==> Allowed(path[i], path[i + 1]) && h[i].from == path[i] && h[i].to == path[i + 1])
  {
    VisitedEnds(h, status);
    forall i, j | 0 <= i < j <= |h| ensures Visited(h, status)[i] != Visited(h, status)[j] {
      VisitedClimbs(h, status, i, j);
    }
    forall i | 0 <= i < |h|
      ensures Allowed(Visited(h, status)[i], Visited(h, status)[i + 1])
      ensures h[i].from == Visited(h, status)[i] && h[i].to == Visited(h, status)[i + 1]
    {
      PathClimbs(h, status, i);
      VisitedSteps(h, status, i);
    }
    if h != [] {
      PathClimbs(h, status, |h| - 1);
    }
  }

  lemma {:induction false} VisitedSteps(h: seq<Transition>, status: Status, i: nat)
    requires IsPath(h, status) && i < |h|
    ensures |Visited(h, status)| == |h| + 1
    ensures Visited(h, status)[i] == h[i].from && Visited(h, status)[i + 1] == h[i].to
    ensures Visited(h, status)[0] == h[0].from
  {
    var n := |h| - 1;
    VisitedEnds(h[..n], h[n].from);
    if i < n {
      VisitedSteps(h[..n], h[n].from, i);
    } else if n > 0 {
      VisitedSteps(h[..n], h[n].from, 0);
    }
  }

  /**
    In every reachable database the applied date fits the status and the deadline; interviews belong to
    screened applications of their owner, end when their minutes are over and have feedback only once
    completed; and no two scheduled interviews of an owner share time.
   */
  lemma ReachableRows(k: NameKeys, calls: seq<Call>)
    ensures var db := Run(Empty(), k, calls);
            && (forall a :: a in db.applications ==>
                  var row := db.applications[a];
                  && (row.status == Saved ==> row.appliedAt.None?)
                  && (row.status in {Applied, Screening, Interviewing, Offer, Rejected} ==> row.appliedAt.Some?)
                  && (Reached(History(db.history, a), Screening) ==> row.appliedAt.Some?)
                  && (row.appliedAt.Some? && row.deadline.Some? ==> row.appliedAt.value <= row.deadline.value))
            && (forall v :: v in db.interviews ==>
                  var row := db.interviews[v];
                  && 15 <= row.duration <= 480 && row.scheduledEnd == row.scheduledAt + row.duration * 60_000_000
                  && (row.feedback.Some? ==> row.status == Completed)
                  && row.applicationId in db.applications && db.applications[row.applicationId].owner == row.owner
                  && Reached(History(db.history, row.applicationId), Screening))
            && (forall v, w :: v in db.interviews && w in db.interviews && v != w
                               && db.interviews[v].owner == db.interviews[w].owner
                               && db.interviews[v].status == Scheduled && db.interviews[w].status == Scheduled ==>
                  || db.interviews[v].scheduledEnd <= db.interviews[w].scheduledAt
                  || db.interviews[w].scheduledEnd <= db.interviews[v].scheduledAt)
  {
    RunKeepsInv(k, calls);
    var db := Run(Empty(), k, calls);
    assert forall a :: a in db.applications ==> ApplicationOk(db.applications[a], History(db.history, a));
    assert forall v :: v in db.interviews ==> InterviewOk(db.interviews[v], History(db.history, db.interviews[v].applicationId));
    assert forall v, w :: v in db.interviews && w in db.interviews && v != w ==> !Clash(db.interviews[v], db.interviews[w]);
  }

  ghost predicate AppliedKept(db: Db, db': Db, id: Id) {
    id in db.applications && id in db'.applications
    && (db.applications[id].appliedAt.Some? ==> db'.applications[id].appliedAt.Some?)
    && History(db.history, id) <= History(db'.history, id)
    && db'.applications[id].owner == db.applications[id].owner && db'.applications[id].jobId == db.applications[id].jobId
  }

  /** Only these requests write an application row or its history. */
  predicate TouchesApplication(r: Request) {
    r.NewApplication? || r.PatchApplication? || r.MoveApplication? || r.DropApplication?
  }

  predicate Drops(c: Call, id: Id) {
    c.request.DropApplication? && c.request.id == id
  }

  predicate TouchesParent(r: Request) {
    r.NewCompany? || r.PatchCompany? || r.DropCompany? || r.NewJob? || r.PatchJob? || r.DropJob?
  }

  lemma ParentsLeaveApplications(db: Db, k: NameKeys, owner: OwnerId, r: Request)
    requires TouchesParent(r)
    ensures Exec(db, k, owner, r).0.applications == db.applications && Exec(db, k, owner, r).0.history == db.history
  {
  }

  lemma OthersLeaveApplications(db: Db, k: NameKeys, c: Call)
    requires !TouchesApplication(c.request)
    ensures Next(db, k, c).applications == db.applications && Next(db, k, c).history == db.history
  {
    if TouchesParent(c.request) {
      ParentsLeaveApplications(db, k, c.owner, c.request);
    }
  }

  lemma MoveKeepsApplied(db: Db, owner: OwnerId, moved: Id, target: Status, now: Time, today: Date, id: Id)
    requires id in db.applications
    ensures AppliedKept(db, ChangeStatus(db, owner, moved, target, now, today).0, id)
  {
    assert moved != id ==>
      History(ChangeStatus(db, owner, moved, target, now, today).0.history, id) == History(db.history, id);
  }

  lemma PatchKeepsApplied(db: Db, owner: OwnerId, patched: Id, p: ApplicationPatch, id: Id)
    requires id in db.applications && DatesOk(db.applications[id])
    ensures AppliedKept(db, UpdateApplication(db, owner, patched, p).0, id)
  {
  }

  lemma AppliedKeptByNext(db: Db, k: NameKeys, c: Call, id: Id)
    requires id in db.applications && DatesOk(db.applications[id])
    requires !Drops(c, id)
    ensures AppliedKept(db, Next(db, k, c), id)
  {
    var r := c.request;
    if !TouchesApplication(r) {
      OthersLeaveApplications(db, k, c);
    } else if r.MoveApplication? {
      MoveKeepsApplied(db, c.owner, r.id, r.target, r.now, r.today, id);
    } else if r.PatchApplication? {
      PatchKeepsApplied(db, c.owner, r.id, r.patch, id);
    }
  }

  lemma AppliedKeptOneMore(db: Db, middle: Db, k: NameKeys, c: Call, id: Id)
    requires Inv(middle, k) && AppliedKept(db, middle, id) && !Drops(c, id)
    ensures AppliedKept(db, Next(middle, k, c), id)
  {
    assert ApplicationOk(middle.applications[id], History(middle.history, id));
    AppliedKeptByNext(middle, k, c, id);
  }

  lemma {:induction false} RunKeepsInvFrom(db: Db, k: NameKeys, calls: seq<Call>)
    requires Inv(db, k)
    ensures Inv(Run(db, k, calls), k)
  {
    if calls != [] {
      RunKeepsInvFrom(db, k, calls[..|calls| - 1]);
      NextKeepsInv(Run(db, k, calls[..|calls| - 1]), k, calls[|calls| - 1]);
    }
  }

  /** While an application exists, its applied date is never cleared and its history only grows. */
  lemma {:induction false} AppliedDateStays(start: seq<Call>, k: NameKeys, calls: seq<Call>, id: Id)
    requires id in Run(Empty(), k, start).applications
    requires forall i :: 0 <= i < |calls| ==> !Drops(calls[i], id)
    ensures AppliedKept(Run(Empty(), k, start), Run(Run(Empty(), k, start), k, calls), id)
  {
    var db := Run(Empty(), k, start);
    RunKeepsInv(k, start);
    if calls != [] {
      var n := |calls| - 1;
      AppliedDateStays(start, k, calls[..n], id);
      RunKeepsInvFrom(db, k, calls[..n]);
      AppliedKeptOneMore(db, Run(db, k, calls[..n]), k, calls[n], id);
    }
  }
}
