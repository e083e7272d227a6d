/**
  Owners cannot observe or disturb each other: everything a request by owner A answers and does is
  determined by A's own rows.
 */
module OwnerIsolation {
  import opened Common
  import opened Tracker
  import opened TrackerRuns

  function CompanyOwner(c: Company): OwnerId { c.owner }
  function JobOwner(j: Job): OwnerId { j.owner }
  function ApplicationOwner(a: Application): OwnerId { a.owner }
  function InterviewOwner(v: Interview): OwnerId { v.owner }

  function Own<T>(rows: map<Id, T>, ownerOf: T -> OwnerId, owner: OwnerId): map<Id, T> {
    map id | id in rows && ownerOf(rows[id]) == owner :: rows[id]
  }

  function OwnHistory(history: map<Id, seq<Transition>>, applications: map<Id, Application>, owner: OwnerId)
    : map<Id, seq<Transition>>
  {
    map id | id in history && id in applications && applications[id].owner == owner :: history[id]
  }

  /** The database as owner A could see it: A's rows and nothing else. */
  function View(db: Db, owner: OwnerId): Db {
    Db(Own(db.companies, CompanyOwner, owner),
       Own(db.jobs, JobOwner, owner),
       Own(db.applications, ApplicationOwner, owner),
       OwnHistory(db.history, db.applications, owner),
       Own(db.interviews, InterviewOwner, owner))
  }

  lemma OwnPut<T>(rows: map<Id, T>, ownerOf: T -> OwnerId, owner: OwnerId, id: Id, row: T)
    requires id in rows ==> ownerOf(rows[id]) == ownerOf(row)
    ensures Own(rows[id := row], ownerOf, owner)
         == if ownerOf(row) == owner then Own(rows, ownerOf, owner)[id := row] else Own(rows, ownerOf, owner)
  {
  }

  lemma OwnDrop<T>(rows: map<Id, T>, ownerOf: T -> OwnerId, owner: OwnerId, id: Id)
    ensures Own(rows - {id}, ownerOf, owner) == Own(rows, ownerOf, owner) - {id}
  {
  }

  ghost predicate Linked(db: Db) {
    JobParents(db.jobs, db.companies) && ApplicationParents(db.applications, db.jobs)
    && InterviewParents(db.interviews, db.applications)
    && forall h :: h in db.history ==> h in db.applications
  }

  /** A request by A on A's view answers the same and leads to A's view of the result. */
  ghost predicate Agrees(db: Db, owner: OwnerId, full: (Db, Response), viewed: (Db, Response)) {
    viewed == (View(full.0, owner), full.1)
  }

  // ---- Companies ----

  lemma SameNameTaken(db: Db, k: NameKeys, owner: OwnerId, name: string, exclude: Option<Id>)
    ensures NameTaken(View(db, owner), k, owner, name, exclude) == NameTaken(db, k, owner, name, exclude)
  {
    var v := View(db, owner);
    if NameTaken(db, k, owner, name, exclude) {
      var id :| id in db.companies && db.companies[id].owner == owner && Some(id) != exclude
             && (k.sql(db.companies[id].name) == k.py(name) || k.sql(db.companies[id].name) == k.sql(name));
      assert id in v.companies && v.companies[id] == db.companies[id];
    }
  }

  lemma CompanyView(db: Db, k: NameKeys, owner: OwnerId, r: Request)
    requires FreshId(db, r) && (r.NewCompany? || r.PatchCompany? || r.DropCompany? || r.GetCompany?)
    ensures Agrees(db, owner, Exec(db, k, owner, r), Exec(View(db, owner), k, owner, r))
  {
    var id := r.id;
    var (db', answer) := Exec(db, k, owner, r);
    match r
    case NewCompany(_, name, _) =>
      SameNameTaken(db, k, owner, name, None);
      if answer.CompanyRow? { OwnPut(db.companies, CompanyOwner, owner, id, db'.companies[id]); }
    case PatchCompany(_, name, _) =>
      if name.Set? { SameNameTaken(db, k, owner, name.value, Some(id)); }
      if answer.CompanyRow? { OwnPut(db.companies, CompanyOwner, owner, id, db'.companies[id]); }
    case DropCompany(_) =>
      assert CompanyInUse(View(db, owner), owner, id) == CompanyInUse(db, owner, id) by {
        forall j | j in db.jobs && db.jobs[j].owner == owner ensures j in View(db, owner).jobs { }
      }
      OwnDrop(db.companies, CompanyOwner, owner, id);
    case GetCompany(_) =>
  }

  // ---- Jobs ----

  lemma SameJobInUse(db: Db, owner: OwnerId, id: Id)
    ensures JobInUse(View(db, owner), owner, id) == JobInUse(db, owner, id)
  {
    forall a | a in db.applications && db.applications[a].owner == owner ensures a in View(db, owner).applications {
    }
  }

  lemma SameJobShown(db: Db, owner: OwnerId, id: Id, job: Job)
    requires OwnsCompany(db, owner, job.companyId)
    ensures ShowJob(View(db, owner), id, job) == ShowJob(db, id, job)
  {
  }

  lemma NewJobView(db: Db, owner: OwnerId, id: Id, companyId: Id, title: string, low: Option<int>, high: Option<int>)
    requires Linked(db) && id !in db.jobs
    ensures Agrees(db, owner, CreateJob(db, owner, id, companyId, title, low, high),
                   CreateJob(View(db, owner), owner, id, companyId, title, low, high))
  {
    if OwnsCompany(db, owner, companyId) {
      OwnPut(db.jobs, JobOwner, owner, id, Job(owner, companyId, title, low, high));
    }
  }

  lemma PatchJobView(db: Db, owner: OwnerId, id: Id, companyId: Field<Id>, title: Field<string>,
                     low: Field<Option<int>>, high: Field<Option<int>>)
    requires Linked(db)
    ensures Agrees(db, owner, UpdateJob(db, owner, id, companyId, title, low, high),
                   UpdateJob(View(db, owner), owner, id, companyId, title, low, high))
  {
    var (db', answer) := UpdateJob(db, owner, id, companyId, title, low, high);
    if answer.JobRow? {
      SameJobShown(db, owner, id, answer.job);
      OwnPut(db.jobs, JobOwner, owner, id, answer.job);
    }
  }

  lemma JobView(db: Db, k: NameKeys, owner: OwnerId, r: Request)
    requires FreshId(db, r) && Linked(db) && (r.NewJob? || r.PatchJob? || r.DropJob? || r.GetJob?)
    ensures Agrees(db, owner, Exec(db, k, owner, r), Exec(View(db, owner), k, owner, r))
  {
    match r
    case NewJob(id, companyId, title, low, high) => NewJobView(db, owner, id, companyId, title, low, high);
    case PatchJob(id, companyId, title, low, high) => PatchJobView(db, owner, id, companyId, title, low, high);
    case DropJob(id) =>
      SameJobInUse(db, owner, id);
      OwnDrop(db.jobs, JobOwner, owner, id);
    case GetJob(_) =>
  }

  // ---- Applications ----

  /** The parents shown beside a row belong to its owner, so they are in the owner's view. */
  lemma SameApplicationShown(db: Db, owner: OwnerId, id: Id, a: Application)
    requires Linked(db) && a.owner == owner && OwnsJob(db, owner, a.jobId)
    ensures ShowApplication(View(db, owner), id, a) == ShowApplication(db, id, a)
  {
    assert db.jobs[a.jobId].companyId in View(db, owner).companies;
  }

  lemma HistoryPut(db: Db, owner: OwnerId, id: Id, row: Application, h: seq<Transition>)
    requires OwnsApplication(db, row.owner, id)
    ensures OwnHistory(db.history[id := h], db.applications[id := row], owner)
         == if row.owner == owner then OwnHistory(db.history, db.applications, owner)[id := h]
            else OwnHistory(db.history, db.applications, owner)
  {
  }

  lemma HistoryKept(db: Db, owner: OwnerId, id: Id, row: Application)
    requires id in db.applications ==> db.applications[id].owner == row.owner
    requires id !in db.applications ==> id !in db.history
    ensures OwnHistory(db.history, db.applications[id := row], owner) == OwnHistory(db.history, db.applications, owner)
  {
  }

  lemma HistoryDropped(db: Db, owner: OwnerId, id: Id)
    ensures OwnHistory(db.history - {id}, db.applications - {id}, owner)
         == OwnHistory(db.history, db.applications, owner) - {id}
  {
  }

  lemma NewApplicationView(db: Db, owner: OwnerId, id: Id, d: ApplicationData, now: Time, today: Date)
    requires Linked(db) && id !in db.applications && id !in db.history
    ensures Agrees(db, owner, CreateApplication(db, owner, id, d, now, today),
                   CreateApplication(View(db, owner), owner, id, d, now, today))
  {
    SameJobInUse(db, owner, d.jobId);
    var answer := CreateApplication(db, owner, id, d, now, today).1;
    if answer.ApplicationRow? {
      OwnPut(db.applications, ApplicationOwner, owner, id, answer.application);
      HistoryKept(db, owner, id, answer.application);
      SameApplicationShown(db, owner, id, answer.application);
    }
  }

  lemma PatchApplicationView(db: Db, owner: OwnerId, id: Id, p: ApplicationPatch)
    requires Linked(db)
    ensures Agrees(db, owner, UpdateApplication(db, owner, id, p), UpdateApplication(View(db, owner), owner, id, p))
  {
    var answer := UpdateApplication(db, owner, id, p).1;
    if answer.ApplicationRow? {
      OwnPut(db.applications, ApplicationOwner, owner, id, answer.application);
      HistoryKept(db, owner, id, answer.application);
      SameApplicationShown(db, owner, id, answer.application);
    }
  }

  lemma MoveView(db: Db, owner: OwnerId, id: Id, target: Status, now: Time, today: Date)
    requires Linked(db)
    ensures Agrees(db, owner, ChangeStatus(db, owner, id, target, now, today),
                   ChangeStatus(View(db, owner), owner, id, target, now, today))
  {
    var (db', answer) := ChangeStatus(db, owner, id, target, now, today);
    if answer.ApplicationRow? {
      var row := db'.applications[id];
      assert History(View(db, owner).history, id) == History(db.history, id);
      OwnPut(db.applications, ApplicationOwner, owner, id, row);
      HistoryPut(db, owner, id, row, db'.history[id]);
      SameApplicationShown(db, owner, id, row);
    }
  }

  lemma DropView(db: Db, owner: OwnerId, id: Id)
    requires Linked(db)
    ensures Agrees(db, owner, DeleteApplication(db, owner, id), DeleteApplication(View(db, owner), owner, id))
  {
    assert ApplicationInUse(View(db, owner), owner, id) == ApplicationInUse(db, owner, id) by {
      forall v | v in db.interviews && db.interviews[v].owner == owner ensures v in View(db, owner).interviews { }
    }
    OwnDrop(db.applications, ApplicationOwner, owner, id);
    HistoryDropped(db, owner, id);
  }

  lemma ReadOrDropView(db: Db, k: NameKeys, owner: OwnerId, r: Request)
    requires Linked(db) && (r.DropApplication? || r.GetApplication? || r.GetHistory?)
    ensures Agrees(db, owner, Exec(db, k, owner, r), Exec(View(db, owner), k, owner, r))
  {
    match r
    case DropApplication(id) => DropView(db, owner, id);
    case GetApplication(id) =>
      if OwnsApplication(db, owner, id) { SameApplicationShown(db, owner, id, db.applications[id]); }
    case GetHistory(id) =>
      if OwnsApplication(db, owner, id) { assert History(View(db, owner).history, id) == History(db.history, id); }
  }

  // ---- Interviews ----

  lemma SameOverlap(db: Db, owner: OwnerId, at: Time, duration: int, exclude: Option<Id>)
    ensures HasOverlap(View(db, owner).interviews, owner, at, duration, exclude)
         == HasOverlap(db.interviews, owner, at, duration, exclude)
  {
    forall v | v in db.interviews && db.interviews[v].owner == owner
      ensures v in View(db, owner).interviews && View(db, owner).interviews[v] == db.interviews[v] {
    }
  }

  lemma SameInterviewShown(db: Db, owner: OwnerId, id: Id, v: Interview)
    requires Linked(db) && v.owner == owner && OwnsApplication(db, owner, v.applicationId)
    ensures ShowInterview(View(db, owner), id, v) == ShowInterview(db, id, v)
  {
    assert db.applications[v.applicationId].jobId in View(db, owner).jobs;
  }

  lemma NewInterviewView(db: Db, owner: OwnerId, id: Id, applicationId: Id, at: Time, duration: int, notes: string)
    requires Linked(db) && id !in db.interviews
    ensures Agrees(db, owner, CreateInterview(db, owner, id, applicationId, at, duration, notes),
                   CreateInterview(View(db, owner), owner, id, applicationId, at, duration, notes))
  {
    var answer := CreateInterview(db, owner, id, applicationId, at, duration, notes).1;
    SameOverlap(db, owner, at, duration, None);
    if answer.InterviewRow? {
      SameInterviewShown(db, owner, id, answer.interview);
      OwnPut(db.interviews, InterviewOwner, owner, id, answer.interview);
    }
  }

  lemma PatchInterviewView(db: Db, owner: OwnerId, id: Id, p: InterviewPatch)
    requires Linked(db)
    ensures Agrees(db, owner, UpdateInterview(db, owner, id, p), UpdateInterview(View(db, owner), owner, id, p))
  {
    if OwnsInterview(db, owner, id) {
      var row := Patched(db.interviews[id], p);
      SameOverlap(db, owner, row.scheduledAt, row.duration, Some(id));
      SameInterviewShown(db, owner, id, row);
      OwnPut(db.interviews, InterviewOwner, owner, id, row);
    }
  }

  lemma DropInterviewView(db: Db, owner: OwnerId, id: Id)
    ensures Agrees(db, owner, DeleteInterview(db, owner, id), DeleteInterview(View(db, owner), owner, id))
  {
    OwnDrop(db.interviews, InterviewOwner, owner, id);
  }

  lemma GetInterviewView(db: Db, k: NameKeys, owner: OwnerId, id: Id)
    requires Linked(db)
    ensures Agrees(db, owner, Exec(db, k, owner, GetInterview(id)), Exec(View(db, owner), k, owner, GetInterview(id)))
  {
    if OwnsInterview(db, owner, id) {
      SameInterviewShown(db, owner, id, db.interviews[id]);
    }
  }

  lemma InterviewView(db: Db, k: NameKeys, owner: OwnerId, r: Request)
    requires FreshId(db, r) && Linked(db)
    requires r.NewInterview? || r.PatchInterview? || r.DropInterview? || r.GetInterview?
    ensures Agrees(db, owner, Exec(db, k, owner, r), Exec(View(db, owner), k, owner, r))
  {
    match r
    case NewInterview(id, applicationId, at, duration, notes) =>
      NewInterviewView(db, owner, id, applicationId, at, duration, notes);
    case PatchInterview(id, change) => PatchInterviewView(db, owner, id, change);
    case DropInterview(id) => DropInterviewView(db, owner, id);
    case GetInterview(id) => GetInterviewView(db, k, owner, id);
  }

  // ---- Lists ----

  lemma ApplicationListView(db: Db, k: NameKeys, owner: OwnerId, r: Request)
    requires Linked(db) && r.ListApplications?
    ensures Exec(View(db, owner), k, owner, r).1 == Exec(db, k, owner, r).1
  {
    forall a | a in db.applications && db.applications[a].owner == owner
      ensures JobAtCompany(View(db, owner), db.applications[a].jobId, r.ofCompany)
           == JobAtCompany(db, db.applications[a].jobId, r.ofCompany)
    {
      assert db.applications[a].jobId in View(db, owner).jobs;
    }
    assert Exec(db, k, owner, r).1.applications == Exec(View(db, owner), k, owner, r).1.applications;
  }

  lemma CompanyListView(db: Db, k: NameKeys, owner: OwnerId, r: Request)
    requires r.ListCompanies?
    ensures Exec(View(db, owner), k, owner, r).1 == Exec(db, k, owner, r).1
  {
    assert Exec(db, k, owner, r).1.companies == Exec(View(db, owner), k, owner, r).1.companies;
  }

  lemma JobListView(db: Db, k: NameKeys, owner: OwnerId, r: Request)
    requires r.ListJobs?
    ensures Exec(View(db, owner), k, owner, r).1 == Exec(db, k, owner, r).1
  {
    assert Exec(db, k, owner, r).1.jobs == Exec(View(db, owner), k, owner, r).1.jobs;
  }

  lemma InterviewListView(db: Db, k: NameKeys, owner: OwnerId, r: Request)
    requires r.ListInterviews?
    ensures Exec(View(db, owner), k, owner, r).1 == Exec(db, k, owner, r).1
  {
    assert Exec(db, k, owner, r).1.interviews == Exec(View(db, owner), k, owner, r).1.interviews;
  }

  lemma ListView(db: Db, k: NameKeys, owner: OwnerId, r: Request)
    requires Linked(db) && (r.ListCompanies? || r.ListJobs? || r.ListApplications? || r.ListInterviews?)
    ensures Agrees(db, owner, Exec(db, k, owner, r), Exec(View(db, owner), k, owner, r))
  {
    match r
    case ListApplications(_, _) => ApplicationListView(db, k, owner, r);
    case ListCompanies(_) => CompanyListView(db, k, owner, r);
    case ListJobs(_) => JobListView(db, k, owner, r);
    case ListInterviews(_) => InterviewListView(db, k, owner, r);
  }

  // ---- The theorems ----

  lemma ExecOnView(db: Db, k: NameKeys, owner: OwnerId, r: Request)
    requires Linked(db) && FreshId(db, r)
    ensures Exec(View(db, owner), k, owner, r) == (View(Exec(db, k, owner, r).0, owner), Exec(db, k, owner, r).1)
  {
    if r.NewCompany? || r.PatchCompany? || r.DropCompany? || r.GetCompany? { CompanyView(db, k, owner, r); }
    else if r.NewJob? || r.PatchJob? || r.DropJob? || r.GetJob? { JobView(db, k, owner, r); }
    else if r.NewApplication? { NewApplicationView(db, owner, r.id, r.data, r.now, r.today); }
    else if r.PatchApplication? { PatchApplicationView(db, owner, r.id, r.patch); }
    else if r.MoveApplication? { MoveView(db, owner, r.id, r.target, r.now, r.today); }
    else if r.DropApplication? || r.GetApplication? || r.GetHistory? { ReadOrDropView(db, k, owner, r); }
    else if r.NewInterview? || r.PatchInterview? || r.DropInterview? || r.GetInterview? { InterviewView(db, k, owner, r); }
    else { ListView(db, k, owner, r); }
  }

  lemma InvLinks(db: Db, k: NameKeys)
    requires Inv(db, k)
    ensures Linked(db)
  {
  }

  /**
    Two databases that agree on A's rows answer any request of A alike and keep agreeing on A's rows,
    whatever else they hold.
   */
  lemma NonInterference(db1: Db, db2: Db, k: NameKeys, owner: OwnerId, r: Request)
    requires Inv(db1, k) && Inv(db2, k) && View(db1, owner) == View(db2, owner)
    requires FreshId(db1, r) && FreshId(db2, r)
    ensures Exec(db1, k, owner, r).1 == Exec(db2, k, owner, r).1
    ensures View(Exec(db1, k, owner, r).0, owner) == View(Exec(db2, k, owner, r).0, owner)
  {
    InvLinks(db1, k);
    InvLinks(db2, k);
    ExecOnView(db1, k, owner, r);
    ExecOnView(db2, k, owner, r);
  }

  lemma OtherCompanies(db: Db, k: NameKeys, owner: OwnerId, r: Request, other: OwnerId)
    requires FreshId(db, r) && owner != other && (r.NewCompany? || r.PatchCompany? || r.DropCompany?)
    ensures View(Exec(db, k, owner, r).0, other) == View(db, other)
  {
    var (db', answer) := Exec(db, k, owner, r);
    if answer.CompanyRow? {
      OwnPut(db.companies, CompanyOwner, other, r.id, db'.companies[r.id]);
    } else if answer.Deleted? {
      OwnDrop(db.companies, CompanyOwner, other, r.id);
    }
  }

  lemma OtherJobs(db: Db, k: NameKeys, owner: OwnerId, r: Request, other: OwnerId)
    requires FreshId(db, r) && owner != other && (r.NewJob? || r.PatchJob? || r.DropJob?)
    ensures View(Exec(db, k, owner, r).0, other) == View(db, other)
  {
    var (db', answer) := Exec(db, k, owner, r);
    if answer.JobRow? {
      OwnPut(db.jobs, JobOwner, other, r.id, db'.jobs[r.id]);
    } else if answer.Deleted? {
      OwnDrop(db.jobs, JobOwner, other, r.id);
    }
  }

  lemma OtherInterviews(db: Db, k: NameKeys, owner: OwnerId, r: Request, other: OwnerId)
    requires FreshId(db, r) && owner != other && (r.NewInterview? || r.PatchInterview? || r.DropInterview?)
    ensures View(Exec(db, k, owner, r).0, other) == View(db, other)
  {
    var (db', answer) := Exec(db, k, owner, r);
    if answer.InterviewRow? {
      OwnPut(db.interviews, InterviewOwner, other, r.id, db'.interviews[r.id]);
    } else if answer.Deleted? {
      OwnDrop(db.interviews, InterviewOwner, other, r.id);
    }
  }

  lemma OtherMoved(db: Db, owner: OwnerId, id: Id, target: Status, now: Time, today: Date, other: OwnerId)
    requires owner != other
    ensures View(ChangeStatus(db, owner, id, target, now, today).0, other) == View(db, other)
  {
    var (db', answer) := ChangeStatus(db, owner, id, target, now, today);
    if answer.ApplicationRow? {
      OwnPut(db.applications, ApplicationOwner, other, id, answer.application);
      HistoryPut(db, other, id, answer.application, db'.history[id]);
    }
  }

  lemma OtherWritten(db: Db, k: NameKeys, owner: OwnerId, r: Request, other: OwnerId)
    requires Linked(db) && FreshId(db, r) && owner != other && (r.NewApplication? || r.PatchApplication?)
    ensures View(Exec(db, k, owner, r).0, other) == View(db, other)
  {
    var answer := Exec(db, k, owner, r).1;
    if answer.ApplicationRow? {
      OwnPut(db.applications, ApplicationOwner, other, r.id, answer.application);
      HistoryKept(db, other, r.id, answer.application);
    }
  }

  lemma OtherDropped(db: Db, owner: OwnerId, id: Id, other: OwnerId)
    requires owner != other
    ensures View(DeleteApplication(db, owner, id).0, other) == View(db, other)
  {
    OwnDrop(db.applications, ApplicationOwner, other, id);
    HistoryDropped(db, other, id);
  }

  lemma OtherApplications(db: Db, k: NameKeys, owner: OwnerId, r: Request, other: OwnerId)
    requires Linked(db) && FreshId(db, r) && owner != other && TouchesApplication(r)
    ensures View(Exec(db, k, owner, r).0, other) == View(db, other)
  {
    if r.MoveApplication? {
      OtherMoved(db, owner, r.id, r.target, r.now, r.today, other);
    } else if r.DropApplication? {
      OtherDropped(db, owner, r.id, other);
    } else {
      OtherWritten(db, k, owner, r, other);
    }
  }

  /** No request of A changes what B can see. */
  lemma OthersUntouched(db: Db, k: NameKeys, owner: OwnerId, r: Request, other: OwnerId)
    requires Inv(db, k) && FreshId(db, r) && owner != other
    ensures View(Exec(db, k, owner, r).0, other) == View(db, other)
  {
    InvLinks(db, k);
    if TouchesApplication(r) {
      OtherApplications(db, k, owner, r, other);
    } else if r.NewCompany? || r.PatchCompany? || r.DropCompany? {
      OtherCompanies(db, k, owner, r, other);
    } else if r.NewJob? || r.PatchJob? || r.DropJob? {
      OtherJobs(db, k, owner, r, other);
    } else if r.NewInterview? || r.PatchInterview? || r.DropInterview? {
      OtherInterviews(db, k, owner, r, other);
    }
  }

  /** Database sequences hand out every id once, so no request collides with an existing row. */
  predicate IdsFresh(k: NameKeys, calls: seq<Call>) {
    calls != [] ==>
      && IdsFresh(k, calls[..|calls| - 1])
      && FreshId(Run(Empty(), k, calls[..|calls| - 1]), calls[|calls| - 1].request)
  }

  function Purge(calls: seq<Call>, owner: OwnerId): seq<Call> {
    if calls == [] then []
    else
      var rest := Purge(calls[..|calls| - 1], owner);
      if calls[|calls| - 1].owner == owner then rest + [calls[|calls| - 1]] else rest
  }

  /** Over whole runs: A's rows are those of the run in which only A's requests ever happened. */
  lemma {:induction false} OnlyOwnCallsMatter(k: NameKeys, calls: seq<Call>, owner: OwnerId)
    requires IdsFresh(k, calls)
    ensures View(Run(Empty(), k, calls), owner) == Run(Empty(), k, Purge(calls, owner))
  {
    if calls != [] {
      var n := |calls| - 1;
      var c := calls[n];
      OnlyOwnCallsMatter(k, calls[..n], owner);
      RunKeepsInv(k, calls[..n]);
      var db := Run(Empty(), k, calls[..n]);
      InvLinks(db, k);
      if c.owner == owner {
        ExecOnView(db, k, owner, c.request);
        var rest := Purge(calls[..n], owner);
        assert (rest + [c])[..|rest|] == rest;
      } else if Valid(c.request) {
        OthersUntouched(db, k, c.owner, c.request, owner);
      }
    }
  }

  /** A row that must exist already, the one the request is about or a parent it names, is not the owner's. */
  predicate Foreign(db: Db, owner: OwnerId, r: Request) {
    match r
    case PatchCompany(id, _, _) => !OwnsCompany(db, owner, id)
    case DropCompany(id) => !OwnsCompany(db, owner, id)
    case GetCompany(id) => !OwnsCompany(db, owner, id)
    case NewJob(_, companyId, _, _, _) => !OwnsCompany(db, owner, companyId)
    case PatchJob(id, companyId, _, _, _) =>
      !OwnsJob(db, owner, id) || (companyId.Set? && !OwnsCompany(db, owner, companyId.value))
    case DropJob(id) => !OwnsJob(db, owner, id)
    case GetJob(id) => !OwnsJob(db, owner, id)
    case NewApplication(_, data, _, _) => !OwnsJob(db, owner, data.jobId)
    case PatchApplication(id, _) => !OwnsApplication(db, owner, id)
    case MoveApplication(id, _, _, _) => !OwnsApplication(db, owner, id)
    case DropApplication(id) => !OwnsApplication(db, owner, id)
    case GetApplication(id) => !OwnsApplication(db, owner, id)
    case GetHistory(id) => !OwnsApplication(db, owner, id)
    case NewInterview(_, applicationId, _, _, _) => !OwnsApplication(db, owner, applicationId)
    case PatchInterview(id, _) => !OwnsInterview(db, owner, id)
    case DropInterview(id) => !OwnsInterview(db, owner, id)
    case GetInterview(id) => !OwnsInterview(db, owner, id)
    case _ => false
  }

  /** A row that must exist already is in no table at all. */
  predicate Absent(db: Db, r: Request) {
    match r
    case PatchCompany(id, _, _) => id !in db.companies
    case DropCompany(id) => id !in db.companies
    case GetCompany(id) => id !in db.companies
    case NewJob(_, companyId, _, _, _) => companyId !in db.companies
    case PatchJob(id, companyId, _, _, _) => id !in db.jobs || (companyId.Set? && companyId.value !in db.companies)
    case DropJob(id) => id !in db.jobs
    case GetJob(id) => id !in db.jobs
    case NewApplication(_, data, _, _) => data.jobId !in db.jobs
    case PatchApplication(id, _) => id !in db.applications
    case MoveApplication(id, _, _, _) => id !in db.applications
    case DropApplication(id) => id !in db.applications
    case GetApplication(id) => id !in db.applications
    case GetHistory(id) => id !in db.applications
    case NewInterview(_, applicationId, _, _, _) => applicationId !in db.applications
    case PatchInterview(id, _) => id !in db.interviews
    case DropInterview(id) => id !in db.interviews
    case GetInterview(id) => id !in db.interviews
    case _ => false
  }

  lemma ForeignIsAbsent(db: Db, owner: OwnerId, r: Request)
    requires Foreign(db, owner, r)
    ensures Absent(View(db, owner), r)
  {
  }

  /**
    A request is answered "not found" exactly when a row it needs is not the owner's; the answer is then
    the one given on a database in which that row is in no table, and nothing changes.
   */
  lemma ForeignLooksMissing(db: Db, k: NameKeys, owner: OwnerId, r: Request)
    requires Linked(db) && FreshId(db, r)
    ensures var (after, answer) := Exec(db, k, owner, r);
            && (answer.NotFound? <==> Foreign(db, owner, r))
            && (Foreign(db, owner, r) ==>
                  after == db && Absent(View(db, owner), r) && answer == Exec(View(db, owner), k, owner, r).1)
  {
    ExecOnView(db, k, owner, r);
    NotFoundExactly(db, k, owner, r);
    if Foreign(db, owner, r) {
      ForeignIsAbsent(db, owner, r);
    }
  }

  lemma NotFoundExactly(db: Db, k: NameKeys, owner: OwnerId, r: Request)
    ensures Exec(db, k, owner, r).1.NotFound? <==> Foreign(db, owner, r)
    ensures Foreign(db, owner, r) ==> Exec(db, k, owner, r).0 == db
  {
  }
}
