/** What single requests do, told by the table constraints and by what a later read answers. */
module TrackerRequests {
  import opened Common
  import opened Tracker
  import opened TrackerRuns

  // ---- Refusals are exactly the constraints ----

  /** Deletions are refused exactly when a foreign key would be left without its parent. */
  lemma DeletesRefusedExactly(db: Db, owner: OwnerId, id: Id)
    requires JobParents(db.jobs, db.companies) && ApplicationParents(db.applications, db.jobs)
    requires InterviewParents(db.interviews, db.applications)
    ensures OwnsCompany(db, owner, id) ==>
      (DeleteCompany(db, owner, id).1 == Refused(CompanyHasJobs) <==> !JobParents(db.jobs, db.companies - {id}))
    ensures OwnsJob(db, owner, id) ==>
      (DeleteJob(db, owner, id).1 == Refused(JobHasApplications) <==> !ApplicationParents(db.applications, db.jobs - {id}))
    ensures OwnsApplication(db, owner, id) ==>
      (DeleteApplication(db, owner, id).1 == Refused(ApplicationHasInterviews) <==>
       !InterviewParents(db.interviews, db.applications - {id}))
  {
    CompanyDeleteRefused(db, owner, id);
    JobDeleteRefused(db, owner, id);
    ApplicationDeleteRefused(db, owner, id);
  }

  lemma CompanyDeleteRefused(db: Db, owner: OwnerId, id: Id)
    requires JobParents(db.jobs, db.companies)
    ensures OwnsCompany(db, owner, id) ==> (CompanyInUse(db, owner, id) <==> !JobParents(db.jobs, db.companies - {id}))
  {
    if OwnsCompany(db, owner, id) && CompanyInUse(db, owner, id) {
      var j :| j in db.jobs && db.jobs[j].companyId == id && db.jobs[j].owner == owner;
      assert db.jobs[j].companyId !in db.companies - {id};
    }
  }

  lemma JobDeleteRefused(db: Db, owner: OwnerId, id: Id)
    requires ApplicationParents(db.applications, db.jobs)
    ensures OwnsJob(db, owner, id) ==> (JobInUse(db, owner, id) <==> !ApplicationParents(db.applications, db.jobs - {id}))
  {
    if OwnsJob(db, owner, id) && JobInUse(db, owner, id) {
      var a :| a in db.applications && db.applications[a].jobId == id && db.applications[a].owner == owner;
      assert db.applications[a].jobId !in db.jobs - {id};
    }
  }

  lemma ApplicationDeleteRefused(db: Db, owner: OwnerId, id: Id)
    requires InterviewParents(db.interviews, db.applications)
    ensures OwnsApplication(db, owner, id) ==>
      (ApplicationInUse(db, owner, id) <==> !InterviewParents(db.interviews, db.applications - {id}))
  {
    if OwnsApplication(db, owner, id) && ApplicationInUse(db, owner, id) {
      var v :| v in db.interviews && db.interviews[v].applicationId == id && db.interviews[v].owner == owner;
      assert db.interviews[v].applicationId !in db.applications - {id};
    }
  }

  /**
    Creations are refused exactly when the new row would break a unique, date or exclusion rule; for
    companies, when the two ways to normalise the new name agree.
   */
  lemma CompanyRefusedExactly(db: Db, k: NameKeys, owner: OwnerId, id: Id, name: string, details: string)
    requires Inv(db, k) && id !in db.companies && k.sql(name) == k.py(name)
    ensures Exec(db, k, owner, NewCompany(id, name, details)).1.Refused? <==>
            !OnePerName(db.companies[id := Company(owner, name, details)], k)
  {
    var after := db.companies[id := Company(owner, name, details)];
    if NameTaken(db, k, owner, name, None) {
      var c :| c in db.companies && db.companies[c].owner == owner && k.sql(db.companies[c].name) == k.sql(name);
      assert c in after && id in after && c != id && after[c].owner == after[id].owner;
    }
  }

  lemma ApplicationRefusedExactly(db: Db, k: NameKeys, owner: OwnerId, id: Id, d: ApplicationData, now: Time, today: Date)
    requires Inv(db, k) && id !in db.applications && OwnsJob(db, owner, d.jobId)
    ensures var appliedAt := if d.status == Applied && d.appliedAt.None? then Some(today) else d.appliedAt;
            var row := Application(owner, d.jobId, d.status, d.priority, appliedAt, d.deadline, d.nextActionAt, d.notes, now);
            Exec(db, k, owner, NewApplication(id, d, now, today)).1.Refused? <==>
            !OnePerJob(db.applications[id := row]) || DatesClash(appliedAt, d.deadline)
  {
    var appliedAt := if d.status == Applied && d.appliedAt.None? then Some(today) else d.appliedAt;
    var row := Application(owner, d.jobId, d.status, d.priority, appliedAt, d.deadline, d.nextActionAt, d.notes, now);
    var after := db.applications[id := row];
    if JobInUse(db, owner, d.jobId) {
      var a :| a in db.applications && db.applications[a].jobId == d.jobId && db.applications[a].owner == owner;
      assert a in after && id in after && a != id && after[a].jobId == after[id].jobId;
    }
  }

  lemma InterviewRefusedExactly(db: Db, k: NameKeys, owner: OwnerId, id: Id, applicationId: Id, at: Time, duration: int,
                                notes: string)
    requires Inv(db, k) && id !in db.interviews && ValidDuration(duration) && OwnsApplication(db, owner, applicationId)
    ensures var row := Interview(owner, applicationId, Scheduled, at, duration, ScheduledEnd(at, duration), notes, None);
            Exec(db, k, owner, NewInterview(id, applicationId, at, duration, notes)).1.Refused? <==>
            !Eligible(db.applications[applicationId].status) || !Disjoint(db.interviews[id := row])
  {
    var row := Interview(owner, applicationId, Scheduled, at, duration, ScheduledEnd(at, duration), notes, None);
    WindowsFollow(db.interviews, db.history);
    SearchIsConstraint(db.interviews, id, row);
  }

  /** For a new scheduled row the bounded search finds something exactly when the exclusion constraint would fail. */
  lemma SearchIsConstraint(rows: map<Id, Interview>, id: Id, row: Interview)
    requires WindowsOk(rows) && Disjoint(rows) && id !in rows
    requires row.status == Scheduled && ValidDuration(row.duration) && row.scheduledEnd == ScheduledEnd(row.scheduledAt, row.duration)
    ensures HasOverlap(rows, row.owner, row.scheduledAt, row.duration, None) <==> !Disjoint(rows[id := row])
  {
    if HasOverlap(rows, row.owner, row.scheduledAt, row.duration, None) {
      BoundedSearchIsExact(rows, row.owner, row.scheduledAt, row.duration, None);
      var v :| v in rows && rows[v].owner == row.owner && rows[v].status == Scheduled
            && Overlap(rows[v].scheduledAt, rows[v].scheduledEnd, row.scheduledAt, ScheduledEnd(row.scheduledAt, row.duration));
      assert Clash(rows[id := row][v], rows[id := row][id]);
    } else {
      CheckedRowFits(rows, id, row, None);
    }
  }

  // ---- Writes and reads ----

  /** The read of the row that a request is about. */
  function ReadOf(r: Request): Request {
    match r
    case NewCompany(id, _, _) => GetCompany(id)
    case PatchCompany(id, _, _) => GetCompany(id)
    case DropCompany(id) => GetCompany(id)
    case NewJob(id, _, _, _, _) => GetJob(id)
    case PatchJob(id, _, _, _, _) => GetJob(id)
    case DropJob(id) => GetJob(id)
    case NewApplication(id, _, _, _) => GetApplication(id)
    case PatchApplication(id, _) => GetApplication(id)
    case MoveApplication(id, _, _, _) => GetApplication(id)
    case DropApplication(id) => GetApplication(id)
    case NewInterview(id, _, _, _, _) => GetInterview(id)
    case PatchInterview(id, _) => GetInterview(id)
    case DropInterview(id) => GetInterview(id)
    case _ => r
  }

  predicate Unsuccessful(answer: Response) { answer.NotFound? || answer.Refused? }

  /** Round trip: after a write the owner reads back exactly what the write answered, and nothing after a deletion. */
  ghost predicate ReadsBack(k: NameKeys, owner: OwnerId, read: Request, db: Db, result: (Db, Response)) {
    if Unsuccessful(result.1) then result.0 == db
    else if result.1.Deleted? then Exec(result.0, k, owner, read).1.NotFound?
    else Exec(result.0, k, owner, read).1 == result.1
  }

  lemma CompanyReadsBack(db: Db, k: NameKeys, owner: OwnerId, r: Request)
    requires FreshId(db, r) && ReadOf(r).GetCompany?
    ensures ReadsBack(k, owner, ReadOf(r), db, Exec(db, k, owner, r))
  {
  }

  lemma JobReadsBack(db: Db, k: NameKeys, owner: OwnerId, r: Request)
    requires FreshId(db, r) && ReadOf(r).GetJob?
    ensures ReadsBack(k, owner, ReadOf(r), db, Exec(db, k, owner, r))
  {
  }

  lemma ApplicationReadsBack(db: Db, k: NameKeys, owner: OwnerId, r: Request)
    requires FreshId(db, r) && ReadOf(r).GetApplication?
    ensures ReadsBack(k, owner, ReadOf(r), db, Exec(db, k, owner, r))
  {
  }

  lemma InterviewReadsBack(db: Db, k: NameKeys, owner: OwnerId, r: Request)
    requires FreshId(db, r) && ReadOf(r).GetInterview?
    ensures ReadsBack(k, owner, ReadOf(r), db, Exec(db, k, owner, r))
  {
  }

  lemma WriteThenRead(db: Db, k: NameKeys, owner: OwnerId, r: Request)
    requires FreshId(db, r) && ReadOf(r) != r
    ensures ReadsBack(k, owner, ReadOf(r), db, Exec(db, k, owner, r))
  {
    match ReadOf(r)
    case GetCompany(_) => CompanyReadsBack(db, k, owner, r);
    case GetJob(_) => JobReadsBack(db, k, owner, r);
    case GetApplication(_) => ApplicationReadsBack(db, k, owner, r);
    case GetInterview(_) => InterviewReadsBack(db, k, owner, r);
  }

  /** Rows and histories under id `x`, except in the table `read` is about, if it is about `x`. */
  ghost predicate KeptAt(read: Request, x: Id, db: Db, db': Db) {
    && (!(read.GetCompany? && read.id == x) ==> Lookup(db'.companies, x) == Lookup(db.companies, x))
    && (!(read.GetJob? && read.id == x) ==> Lookup(db'.jobs, x) == Lookup(db.jobs, x))
    && (!(read.GetApplication? && read.id == x) ==>
          Lookup(db'.applications, x) == Lookup(db.applications, x) && History(db'.history, x) == History(db.history, x))
    && (!(read.GetInterview? && read.id == x) ==> Lookup(db'.interviews, x) == Lookup(db.interviews, x))
  }

  lemma ParentsKept(db: Db, k: NameKeys, owner: OwnerId, r: Request, x: Id)
    requires TouchesParent(r)
    ensures KeptAt(ReadOf(r), x, db, Exec(db, k, owner, r).0)
  {
  }

  lemma ApplicationsKept(db: Db, k: NameKeys, owner: OwnerId, r: Request, x: Id)
    requires TouchesApplication(r)
    ensures KeptAt(ReadOf(r), x, db, Exec(db, k, owner, r).0)
  {
  }

  lemma OtherTablesKept(db: Db, k: NameKeys, owner: OwnerId, r: Request, x: Id)
    requires !TouchesParent(r) && !TouchesApplication(r)
    ensures KeptAt(ReadOf(r), x, db, Exec(db, k, owner, r).0)
  {
  }

  /** A request leaves every row but the one it is about as it is, in all tables. */
  lemma OthersKept(db: Db, k: NameKeys, owner: OwnerId, r: Request, x: Id)
    ensures KeptAt(ReadOf(r), x, db, Exec(db, k, owner, r).0)
  {
    if TouchesParent(r) {
      ParentsKept(db, k, owner, r, x);
    } else if TouchesApplication(r) {
      ApplicationsKept(db, k, owner, r, x);
    } else {
      OtherTablesKept(db, k, owner, r, x);
    }
  }

  predicate Written<T(==)>(field: Field<T>, was: T, now: T) {
    if field.Set? then now == field.value else now == was
  }

  /** Owner and creation stay, each given field has its new value, and no other field changes. */
  predicate CompanyPatched(was: Company, r: Request, now: Company)
    requires r.PatchCompany?
  {
    now.owner == was.owner && Written(r.newName, was.name, now.name) && Written(r.newDetails, was.details, now.details)
  }

  predicate JobPatched(was: Job, r: Request, now: Job)
    requires r.PatchJob?
  {
    && now.owner == was.owner
    && Written(r.newCompany, was.companyId, now.companyId) && Written(r.newTitle, was.title, now.title)
    && Written(r.newMin, was.salaryMin, now.salaryMin) && Written(r.newMax, was.salaryMax, now.salaryMax)
  }

  /** An ordinary update cannot change the status. */
  predicate ApplicationPatched(was: Application, p: ApplicationPatch, now: Application) {
    && now.owner == was.owner && now.jobId == was.jobId && now.status == was.status && now.createdAt == was.createdAt
    && Written(p.priority, was.priority, now.priority) && Written(p.notes, was.notes, now.notes)
    && Written(p.appliedAt, was.appliedAt, now.appliedAt) && Written(p.deadline, was.deadline, now.deadline)
    && Written(p.nextActionAt, was.nextActionAt, now.nextActionAt)
  }

  predicate InterviewPatched(was: Interview, p: InterviewPatch, now: Interview) {
    && now.owner == was.owner && now.applicationId == was.applicationId
    && Written(p.status, was.status, now.status) && Written(p.feedback, was.feedback, now.feedback)
    && Written(p.scheduledAt, was.scheduledAt, now.scheduledAt) && Written(p.duration, was.duration, now.duration)
    && Written(p.notes, was.notes, now.notes) && now.scheduledEnd == ScheduledEnd(now.scheduledAt, now.duration)
  }

  /** A successful partial update sets the given fields and no others. */
  lemma PatchWritesItsFields(db: Db, k: NameKeys, owner: OwnerId, r: Request)
    ensures var answer := Exec(db, k, owner, r).1;
            && (r.PatchCompany? && answer.CompanyRow? ==> r.id in db.companies && CompanyPatched(db.companies[r.id], r, answer.company))
            && (r.PatchJob? && answer.JobRow? ==> r.id in db.jobs && JobPatched(db.jobs[r.id], r, answer.job))
            && (r.PatchApplication? && answer.ApplicationRow? ==>
                  r.id in db.applications && ApplicationPatched(db.applications[r.id], r.patch, answer.application))
            && (r.PatchInterview? && answer.InterviewRow? ==>
                  r.id in db.interviews && InterviewPatched(db.interviews[r.id], r.change, answer.interview))
  {
  }
}
