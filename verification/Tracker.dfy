/**
  Companies, jobs, applications and interviews: the tables and what each service request does to
  them. A request is one committed transaction; new row ids and clock readings come with it.
 */
module Tracker {
  import opened Common

  type Id = nat
  type OwnerId = nat
  type Date = int

  datatype Status = Saved | Applied | Screening | Interviewing | Offer | Rejected | Withdrawn | Archived

  predicate Allowed(from: Status, to: Status) {
    match from
    case Saved => to == Applied || to == Withdrawn
    case Applied => to == Screening || to == Rejected || to == Withdrawn
    case Screening => to == Interviewing || to == Rejected || to == Withdrawn
    case Interviewing => to == Offer || to == Rejected || to == Withdrawn
    case Offer => to == Archived
    case Rejected => to == Archived
    case Withdrawn => to == Archived
    case Archived => false
  }

  datatype InterviewStatus = Scheduled | Completed | Cancelled

  predicate InterviewAllowed(from: InterviewStatus, to: InterviewStatus) {
    from == Scheduled && (to == Completed || to == Cancelled)
  }

  predicate Eligible(status: Status) {
    status == Screening || status == Interviewing || status == Offer
  }

  datatype Company = Company(owner: OwnerId, name: string, details: string)
  datatype Job = Job(owner: OwnerId, companyId: Id, title: string, salaryMin: Option<int>, salaryMax: Option<int>)
  datatype Application = Application(
    owner: OwnerId, jobId: Id, status: Status, priority: int, appliedAt: Option<Date>, deadline: Option<Date>,
    nextActionAt: Option<Time>, notes: string, createdAt: Time)
  datatype Transition = Transition(from: Status, to: Status, changedAt: Time)
  datatype Interview = Interview(
    owner: OwnerId, applicationId: Id, status: InterviewStatus, scheduledAt: Time, duration: int, scheduledEnd: Time,
    notes: string, feedback: Option<string>)

  /** `history` holds the transitions of an application in order; no key means no transition yet. */
  datatype Db = Db(
    companies: map<Id, Company>,
    jobs: map<Id, Job>,
    applications: map<Id, Application>,
    history: map<Id, seq<Transition>>,
    interviews: map<Id, Interview>)

  function Empty(): Db { Db(map[], map[], map[], map[], map[]) }

  function History(history: map<Id, seq<Transition>>, id: Id): seq<Transition> {
    if id in history then history[id] else []
  }

  /** A field of a partial update. */
  datatype Field<T> = Unset | Set(value: T) {
    function Over(current: T): T { if Set? then value else current }
  }

  /** Two ways to compare company names: lower(trim(..)) in the database, strip and casefold in Python. */
  datatype NameKeys = NameKeys(sql: string -> string, py: string -> string)

  datatype Entity = CompanyEntity | JobEntity | ApplicationEntity | InterviewEntity
  datatype Problem =
    | CompanyNameTaken | CompanyHasJobs | JobHasApplications | SalaryRange | ApplicationExists | InvalidDates
    | SavedHasAppliedAt | ActiveNeedsAppliedAt | InvalidTransition | ApplicationHasInterviews
    | ApplicationNotReady | InterviewOverlap | InvalidInterviewTransition | FeedbackNeedsCompleted

  /** Rows come back with the parents that the response shows beside them. */
  datatype Response =
    | NotFound(what: Entity)
    | Refused(why: Problem)
    | Deleted
    | CompanyRow(id: Id, company: Company)
    | JobRow(id: Id, job: Job, ofCompany: Option<Company>)
    | ApplicationRow(id: Id, application: Application, ofJob: Option<Job>, ofCompany: Option<Company>)
    | InterviewRow(id: Id, interview: Interview, ofApplication: Option<Application>, ofJob: Option<Job>)
    | HistoryRows(transitions: seq<Transition>)
    | CompanyRows(companies: map<Id, Company>)
    | JobRows(jobs: map<Id, Job>)
    | ApplicationRows(applications: map<Id, Application>)
    | InterviewRows(interviews: map<Id, Interview>)

  function Lookup<T>(rows: map<Id, T>, id: Id): Option<T> {
    if id in rows then Some(rows[id]) else None
  }

  // ---- Companies ----

  predicate OwnsCompany(db: Db, owner: OwnerId, id: Id) { id in db.companies && db.companies[id].owner == owner }
  predicate OwnsJob(db: Db, owner: OwnerId, id: Id) { id in db.jobs && db.jobs[id].owner == owner }
  predicate OwnsApplication(db: Db, owner: OwnerId, id: Id) { id in db.applications && db.applications[id].owner == owner }
  predicate OwnsInterview(db: Db, owner: OwnerId, id: Id) { id in db.interviews && db.interviews[id].owner == owner }

  /** The lookup before the write, or the unique index at the write: both answer with the same conflict. */
  predicate NameTaken(db: Db, k: NameKeys, owner: OwnerId, name: string, exclude: Option<Id>) {
    exists id :: id in db.companies && db.companies[id].owner == owner && Some(id) != exclude
              && (k.sql(db.companies[id].name) == k.py(name) || k.sql(db.companies[id].name) == k.sql(name))
  }

  function CreateCompany(db: Db, k: NameKeys, owner: OwnerId, id: Id, name: string, details: string): (Db, Response) {
    if NameTaken(db, k, owner, name, None) then (db, Refused(CompanyNameTaken))
    else var row := Company(owner, name, details);
         (db.(companies := db.companies[id := row]), CompanyRow(id, row))
  }

  function UpdateCompany(db: Db, k: NameKeys, owner: OwnerId, id: Id, name: Field<string>, details: Field<string>)
    : (Db, Response)
  {
    if !OwnsCompany(db, owner, id) then (db, NotFound(CompanyEntity))
    else if name.Set? && NameTaken(db, k, owner, name.value, Some(id)) then (db, Refused(CompanyNameTaken))
    else var was := db.companies[id];
         var row := Company(was.owner, name.Over(was.name),
                            details.Over(was.details));
         (db.(companies := db.companies[id := row]), CompanyRow(id, row))
  }

  predicate CompanyInUse(db: Db, owner: OwnerId, id: Id) {
    exists j :: j in db.jobs && db.jobs[j].companyId == id && db.jobs[j].owner == owner
  }

  function DeleteCompany(db: Db, owner: OwnerId, id: Id): (Db, Response) {
    if !OwnsCompany(db, owner, id) then (db, NotFound(CompanyEntity))
    else if CompanyInUse(db, owner, id) then (db, Refused(CompanyHasJobs))
    else (db.(companies := db.companies - {id}), Deleted)
  }

  // ---- Jobs ----

  function ShowJob(db: Db, id: Id, job: Job): Response {
    JobRow(id, job, Lookup(db.companies, job.companyId))
  }

  function CreateJob(db: Db, owner: OwnerId, id: Id, companyId: Id, title: string, salaryMin: Option<int>,
                     salaryMax: Option<int>): (Db, Response)
  {
    if !OwnsCompany(db, owner, companyId) then (db, NotFound(CompanyEntity))
    else var row := Job(owner, companyId, title, salaryMin, salaryMax);
         (db.(jobs := db.jobs[id := row]), ShowJob(db, id, row))
  }

  function UpdateJob(db: Db, owner: OwnerId, id: Id, companyId: Field<Id>, title: Field<string>,
                     salaryMin: Field<Option<int>>, salaryMax: Field<Option<int>>): (Db, Response)
  {
    if !OwnsJob(db, owner, id) then (db, NotFound(JobEntity))
    else if companyId.Set? && !OwnsCompany(db, owner, companyId.value) then (db, NotFound(CompanyEntity))
    else
      var was := db.jobs[id];
      var low := salaryMin.Over(was.salaryMin);
      var high := salaryMax.Over(was.salaryMax);
      if low.Some? && high.Some? && low.value > high.value then (db, Refused(SalaryRange))
      else var row := Job(was.owner, companyId.Over(was.companyId),
                          title.Over(was.title), low, high);
           (db.(jobs := db.jobs[id := row]), ShowJob(db, id, row))
  }

  predicate JobInUse(db: Db, owner: OwnerId, id: Id) {
    exists a :: a in db.applications && db.applications[a].jobId == id && db.applications[a].owner == owner
  }

  function DeleteJob(db: Db, owner: OwnerId, id: Id): (Db, Response) {
    if !OwnsJob(db, owner, id) then (db, NotFound(JobEntity))
    else if JobInUse(db, owner, id) then (db, Refused(JobHasApplications))
    else (db.(jobs := db.jobs - {id}), Deleted)
  }

  // ---- Applications ----

  function ShowApplication(db: Db, id: Id, a: Application): Response {
    var job := Lookup(db.jobs, a.jobId);
    ApplicationRow(id, a, job, if job.Some? then Lookup(db.companies, job.value.companyId) else None)
  }

  predicate DatesClash(appliedAt: Option<Date>, deadline: Option<Date>) {
    appliedAt.Some? && deadline.Some? && deadline.value < appliedAt.value
  }

  datatype ApplicationData = ApplicationData(
    jobId: Id, status: Status, priority: int, appliedAt: Option<Date>, deadline: Option<Date>,
    nextActionAt: Option<Time>, notes: string)

  /** What the request schema lets through. */
  predicate ValidApplicationData(d: ApplicationData) {
    && (d.status == Saved || d.status == Applied)
    && (d.status == Saved ==> d.appliedAt.None?)
    && !DatesClash(d.appliedAt, d.deadline)
  }

  function CreateApplication(db: Db, owner: OwnerId, id: Id, d: ApplicationData, now: Time, today: Date): (Db, Response) {
    if !OwnsJob(db, owner, d.jobId) then (db, NotFound(JobEntity))
    else if JobInUse(db, owner, d.jobId) then (db, Refused(ApplicationExists))
    else
      var appliedAt := if d.status == Applied && d.appliedAt.None? then Some(today) else d.appliedAt;
      if DatesClash(appliedAt, d.deadline) then (db, Refused(InvalidDates))
      else var row := Application(owner, d.jobId, d.status, d.priority, appliedAt, d.deadline, d.nextActionAt, d.notes, now);
           (db.(applications := db.applications[id := row]), ShowApplication(db, id, row))
  }

  datatype ApplicationPatch = ApplicationPatch(
    priority: Field<int>, appliedAt: Field<Option<Date>>, deadline: Field<Option<Date>>,
    nextActionAt: Field<Option<Time>>, notes: Field<string>)

  function UpdateApplication(db: Db, owner: OwnerId, id: Id, p: ApplicationPatch): (Db, Response) {
    if !OwnsApplication(db, owner, id) then (db, NotFound(ApplicationEntity))
    else
      var was := db.applications[id];
      var appliedAt := p.appliedAt.Over(was.appliedAt);
      var deadline := p.deadline.Over(was.deadline);
      if DatesClash(appliedAt, deadline) then (db, Refused(InvalidDates))
      else if was.status == Saved && appliedAt.Some? then (db, Refused(SavedHasAppliedAt))
      else if was.status != Saved && appliedAt.None? then (db, Refused(ActiveNeedsAppliedAt))
      else var row := was.(priority := p.priority.Over(was.priority),
                           appliedAt := appliedAt, deadline := deadline,
                           nextActionAt := p.nextActionAt.Over(was.nextActionAt),
                           notes := p.notes.Over(was.notes));
           (db.(applications := db.applications[id := row]), ShowApplication(db, id, row))
  }

  function ChangeStatus(db: Db, owner: OwnerId, id: Id, target: Status, now: Time, today: Date): (Db, Response) {
    if !OwnsApplication(db, owner, id) then (db, NotFound(ApplicationEntity))
    else
      var was := db.applications[id];
      if !Allowed(was.status, target) then (db, Refused(InvalidTransition))
      else
        var dated := target == Applied && was.appliedAt.None?;
        if dated && DatesClash(Some(today), was.deadline) then (db, Refused(InvalidDates))
        else
          var row := was.(status := target, appliedAt := if dated then Some(today) else was.appliedAt);
          (db.(applications := db.applications[id := row],
               history := db.history[id := History(db.history, id) + [Transition(was.status, target, now)]]),
           ShowApplication(db, id, row))
  }

  predicate ApplicationInUse(db: Db, owner: OwnerId, id: Id) {
    exists v :: v in db.interviews && db.interviews[v].applicationId == id && db.interviews[v].owner == owner
  }

  function DeleteApplication(db: Db, owner: OwnerId, id: Id): (Db, Response) {
    if !OwnsApplication(db, owner, id) then (db, NotFound(ApplicationEntity))
    else if ApplicationInUse(db, owner, id) then (db, Refused(ApplicationHasInterviews))
    else (db.(applications := db.applications - {id}, history := db.history - {id}), Deleted)
  }

  // ---- Interviews ----

  const MAX_DURATION: int := 480 * MINUTE

  function ScheduledEnd(at: Time, duration: int): Time { at + duration * MINUTE }

  /** The bounded search: only interviews that start less than the maximum duration earlier are looked at. */
  predicate HasOverlap(interviews: map<Id, Interview>, owner: OwnerId, at: Time, duration: int, exclude: Option<Id>) {
    exists v :: v in interviews
             && interviews[v].owner == owner && interviews[v].status == Scheduled
             && interviews[v].scheduledAt < ScheduledEnd(at, duration)
             && interviews[v].scheduledAt > at - MAX_DURATION
             && Some(v) != exclude
             && ScheduledEnd(interviews[v].scheduledAt, interviews[v].duration) > at
  }

  function ShowInterview(db: Db, id: Id, v: Interview): Response {
    var a := Lookup(db.applications, v.applicationId);
    InterviewRow(id, v, a, if a.Some? then Lookup(db.jobs, a.value.jobId) else None)
  }

  predicate ValidDuration(duration: int) { 15 <= duration <= 480 }

  function CreateInterview(db: Db, owner: OwnerId, id: Id, applicationId: Id, at: Time, duration: int, notes: string)
    : (Db, Response)
  {
    if !OwnsApplication(db, owner, applicationId) then (db, NotFound(ApplicationEntity))
    else if !Eligible(db.applications[applicationId].status) then (db, Refused(ApplicationNotReady))
    else if HasOverlap(db.interviews, owner, at, duration, None) then (db, Refused(InterviewOverlap))
    else var row := Interview(owner, applicationId, Scheduled, at, duration, ScheduledEnd(at, duration), notes, None);
         (db.(interviews := db.interviews[id := row]), ShowInterview(db, id, row))
  }

  datatype InterviewPatch = InterviewPatch(
    status: Field<InterviewStatus>, scheduledAt: Field<Time>, duration: Field<int>, notes: Field<string>,
    feedback: Field<Option<string>>)

  function Patched(was: Interview, p: InterviewPatch): Interview {
    var at := p.scheduledAt.Over(was.scheduledAt);
    var duration := p.duration.Over(was.duration);
    was.(status := p.status.Over(was.status),
         scheduledAt := at, duration := duration, scheduledEnd := ScheduledEnd(at, duration),
         notes := p.notes.Over(was.notes),
         feedback := p.feedback.Over(was.feedback))
  }

  /** The checks an update makes before it writes. */
  function InterviewProblem(interviews: map<Id, Interview>, owner: OwnerId, id: Id, was: Interview, p: InterviewPatch)
    : Option<Problem>
  {
    var row := Patched(was, p);
    if row.status != was.status && !InterviewAllowed(was.status, row.status) then Some(InvalidInterviewTransition)
    else if row.feedback.Some? && row.status != Completed then Some(FeedbackNeedsCompleted)
    else if row.status == Scheduled && HasOverlap(interviews, owner, row.scheduledAt, row.duration, Some(id))
    then Some(InterviewOverlap)
    else None
  }

  function UpdateInterview(db: Db, owner: OwnerId, id: Id, p: InterviewPatch): (Db, Response) {
    if !OwnsInterview(db, owner, id) then (db, NotFound(InterviewEntity))
    else
      var problem := InterviewProblem(db.interviews, owner, id, db.interviews[id], p);
      if problem.Some? then (db, Refused(problem.value))
      else var row := Patched(db.interviews[id], p);
           (db.(interviews := db.interviews[id := row]), ShowInterview(db, id, row))
  }

  function DeleteInterview(db: Db, owner: OwnerId, id: Id): (Db, Response) {
    if !OwnsInterview(db, owner, id) then (db, NotFound(InterviewEntity))
    else (db.(interviews := db.interviews - {id}), Deleted)
  }

  // ---- Requests ----

  datatype Request =
    | NewCompany(id: Id, name: string, details: string)
    | PatchCompany(id: Id, newName: Field<string>, newDetails: Field<string>)
    | DropCompany(id: Id)
    | GetCompany(id: Id)
    | NewJob(id: Id, companyId: Id, title: string, salaryMin: Option<int>, salaryMax: Option<int>)
    | PatchJob(id: Id, newCompany: Field<Id>, newTitle: Field<string>, newMin: Field<Option<int>>, newMax: Field<Option<int>>)
    | DropJob(id: Id)
    | GetJob(id: Id)
    | NewApplication(id: Id, data: ApplicationData, now: Time, today: Date)
    | PatchApplication(id: Id, patch: ApplicationPatch)
    | MoveApplication(id: Id, target: Status, now: Time, today: Date)
    | DropApplication(id: Id)
    | GetApplication(id: Id)
    | GetHistory(id: Id)
    | NewInterview(id: Id, applicationId: Id, at: Time, duration: int, notes: string)
    | PatchInterview(id: Id, change: InterviewPatch)
    | DropInterview(id: Id)
    | GetInterview(id: Id)
    | ListCompanies(keepCompany: (Id, Company) -> bool)
    | ListJobs(keepJob: (Id, Job) -> bool)
    | ListApplications(ofCompany: Option<Id>, keepApplication: (Id, Application) -> bool)
    | ListInterviews(keepInterview: (Id, Interview) -> bool)

  /** The company filter of the application list joins the job table. */
  predicate JobAtCompany(db: Db, jobId: Id, companyId: Option<Id>) {
    jobId in db.jobs && (companyId.Some? ==> db.jobs[jobId].companyId == companyId.value)
  }

  function Exec(db: Db, k: NameKeys, owner: OwnerId, r: Request): (Db, Response) {
    match r
    case NewCompany(id, name, details) => CreateCompany(db, k, owner, id, name, details)
    case PatchCompany(id, name, details) => UpdateCompany(db, k, owner, id, name, details)
    case DropCompany(id) => DeleteCompany(db, owner, id)
    case GetCompany(id) =>
      (db, if OwnsCompany(db, owner, id) then CompanyRow(id, db.companies[id]) else NotFound(CompanyEntity))
    case NewJob(id, companyId, title, low, high) => CreateJob(db, owner, id, companyId, title, low, high)
    case PatchJob(id, companyId, title, low, high) => UpdateJob(db, owner, id, companyId, title, low, high)
    case DropJob(id) => DeleteJob(db, owner, id)
    case GetJob(id) => (db, if OwnsJob(db, owner, id) then ShowJob(db, id, db.jobs[id]) else NotFound(JobEntity))
    case NewApplication(id, data, now, today) => CreateApplication(db, owner, id, data, now, today)
    case PatchApplication(id, patch) => UpdateApplication(db, owner, id, patch)
    case MoveApplication(id, target, now, today) => ChangeStatus(db, owner, id, target, now, today)
    case DropApplication(id) => DeleteApplication(db, owner, id)
    case GetApplication(id) =>
      (db, if OwnsApplication(db, owner, id) then ShowApplication(db, id, db.applications[id]) else NotFound(ApplicationEntity))
    case GetHistory(id) =>
      (db, if OwnsApplication(db, owner, id) then HistoryRows(History(db.history, id)) else NotFound(ApplicationEntity))
    case NewInterview(id, applicationId, at, duration, notes) =>
      CreateInterview(db, owner, id, applicationId, at, duration, notes)
    case PatchInterview(id, change) => UpdateInterview(db, owner, id, change)
    case DropInterview(id) => DeleteInterview(db, owner, id)
    case GetInterview(id) =>
      (db, if OwnsInterview(db, owner, id) then ShowInterview(db, id, db.interviews[id]) else NotFound(InterviewEntity))
    case ListCompanies(keep) =>
      (db, CompanyRows(map id | id in db.companies && db.companies[id].owner == owner && keep(id, db.companies[id])
                         :: db.companies[id]))
    case ListJobs(keep) =>
      (db, JobRows(map id | id in db.jobs && db.jobs[id].owner == owner && keep(id, db.jobs[id]) :: db.jobs[id]))
    case ListApplications(companyId, keep) =>
      (db, ApplicationRows(map id | id in db.applications && db.applications[id].owner == owner
                                 && JobAtCompany(db, db.applications[id].jobId, companyId) && keep(id, db.applications[id])
                             :: db.applications[id]))
    case ListInterviews(keep) =>
      (db, InterviewRows(map id | id in db.interviews && db.interviews[id].owner == owner && keep(id, db.interviews[id])
                           :: db.interviews[id]))
  }

  /** The row a request is about to add has an id that was never used. */
  predicate FreshId(db: Db, r: Request) {
    match r
    case NewCompany(id, _, _) => id !in db.companies
    case NewJob(id, _, _, _, _) => id !in db.jobs
    case NewApplication(id, _, _, _) => id !in db.applications && id !in db.history
    case NewInterview(id, _, _, _, _) => id !in db.interviews
    case _ => true
  }

  /** What the request schemas enforce before a service sees the request. */
  predicate Valid(r: Request) {
    match r
    case NewJob(_, _, _, low, high) => low.Some? && high.Some? ==> low.value <= high.value
    case NewApplication(_, data, _, _) => ValidApplicationData(data)
    case NewInterview(_, _, _, duration, _) => ValidDuration(duration)
    case PatchInterview(_, change) => change.duration.Set? ==> ValidDuration(change.duration.value)
    case _ => true
  }
}
