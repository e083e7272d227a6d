/** When each request is refused, what it writes and what it shows, told in the fields of the rows. */
module TrackerRules {
  import opened Common
  import opened Tracker
  import opened TrackerRuns
  import opened TrackerRequests

  // ---- The five stages and the closed statuses ----

  /** How far an application has come; the closed statuses are no stage. */
  function Stage(s: Status): int {
    match s
    case Saved => 0
    case Applied => 1
    case Screening => 2
    case Interviewing => 3
    case Offer => 4
    case _ => -1
  }

  /** On to the next stage, withdrawn before an offer, rejected once applied, archived at an end. */
  predicate Permitted(from: Status, to: Status) {
    || (0 <= Stage(from) && Stage(to) == Stage(from) + 1)
    || (to == Withdrawn && 0 <= Stage(from) <= 3)
    || (to == Rejected && 1 <= Stage(from) <= 3)
    || (to == Archived && (from == Offer || from == Rejected || from == Withdrawn))
  }

  /**
    A move is refused exactly when it is not permitted, or when it would date an application after its
    deadline; otherwise it changes the status, dates a first application, and appends one transition.
   */
  lemma ChangeStatusExactly(db: Db, owner: OwnerId, id: Id, target: Status, now: Time, today: Date)
    requires id in db.applications && db.applications[id].owner == owner
    ensures var (after, answer) := ChangeStatus(db, owner, id, target, now, today);
            var was := db.applications[id];
            var h := History(db.history, id);
            && (answer == Refused(InvalidTransition) <==> !Permitted(was.status, target))
            && (answer == Refused(InvalidDates) <==>
                && Permitted(was.status, target) && target == Applied && was.appliedAt == None
                && was.deadline.Some? && was.deadline.value < today)
            && (answer.Refused? ==> after == db && (answer.why == InvalidTransition || answer.why == InvalidDates))
            && (!answer.Refused? ==>
                  && answer.ApplicationRow? && answer.id == id
                  && var row := answer.application;
                     && row.owner == owner && row.jobId == was.jobId && row.status == target
                     && row.appliedAt == (if target == Applied && was.appliedAt == None then Some(today) else was.appliedAt)
                     && row.priority == was.priority && row.notes == was.notes && row.deadline == was.deadline
                     && row.nextActionAt == was.nextActionAt && row.createdAt == was.createdAt
                     && after == Db(db.companies, db.jobs, db.applications[id := row],
                                    db.history[id := h + [Transition(was.status, target, now)]], db.interviews))
  {
  }

  /** On a path no stage is skipped: a step into interviewing or an offer comes right after the step into the stage before it. */
  lemma StepBefore(h: seq<Transition>, status: Status, i: nat)
    requires IsPath(h, status) && i < |h| && Stage(h[i].to) >= 3
    ensures 0 < i && Stage(h[i - 1].to) == Stage(h[i].to) - 1
  {
    PathClimbs(h, status, i);
  }

  lemma StageBefore(h: seq<Transition>, status: Status, s: Status, before: Status)
    requires IsPath(h, status) && Stage(s) >= 3 && Stage(before) == Stage(s) - 1 && Reached(h, s)
    ensures Reached(h, before)
  {
    var i :| 0 <= i < |h| && h[i].to == s;
    StepBefore(h, status, i);
    assert h[i - 1].to == before;
  }

  lemma PathStages(h: seq<Transition>, status: Status)
    requires IsPath(h, status)
    ensures Reached(h, Offer) ==> Reached(h, Interviewing)
    ensures Reached(h, Interviewing) ==> Reached(h, Screening)
    ensures forall i :: 0 <= i < |h| ==> Permitted(h[i].from, h[i].to)
    ensures forall i :: 0 < i < |h| ==> h[i].from == h[i - 1].to
    ensures h != [] ==> (h[0].from == Saved || h[0].from == Applied) && h[|h| - 1].to == status
  {
    if Reached(h, Offer) {
      StageBefore(h, status, Offer, Interviewing);
    }
    if Reached(h, Interviewing) {
      StageBefore(h, status, Interviewing, Screening);
    }
    forall i | 0 <= i < |h| ensures Permitted(h[i].from, h[i].to) && (0 < i ==> h[i].from == h[i - 1].to) {
      PathClimbs(h, status, i);
    }
    PathClimbs(h, status, 0);
  }

  /**
    In every run an application comes to an offer only through interviewing, and to interviewing only
    through screening; every recorded transition is permitted and starts where the one before it ended.
   */
  lemma StagesInOrder(k: NameKeys, calls: seq<Call>, id: Id)
    requires id in Run(Empty(), k, calls).applications
    ensures var db := Run(Empty(), k, calls);
            var h := History(db.history, id);
            && (Reached(h, Offer) ==> Reached(h, Interviewing))
            && (Reached(h, Interviewing) ==> Reached(h, Screening))
            && (forall i :: 0 <= i < |h| ==> Permitted(h[i].from, h[i].to))
            && (forall i :: 0 < i < |h| ==> h[i].from == h[i - 1].to)
            && (h != [] ==> (h[0].from == Saved || h[0].from == Applied) && h[|h| - 1].to == db.applications[id].status)
  {
    RunKeepsInv(k, calls);
    var db := Run(Empty(), k, calls);
    assert ApplicationOk(db.applications[id], History(db.history, id));
    PathStages(History(db.history, id), db.applications[id].status);
  }

  // ---- Updates ----

  lemma UpdateApplicationExactly(db: Db, owner: OwnerId, id: Id, p: ApplicationPatch)
    requires id in db.applications && db.applications[id].owner == owner
    ensures var (after, answer) := UpdateApplication(db, owner, id, p);
            var was := db.applications[id];
            var appliedAt := if p.appliedAt.Set? then p.appliedAt.value else was.appliedAt;
            var deadline := if p.deadline.Set? then p.deadline.value else was.deadline;
            if appliedAt.Some? && deadline.Some? && deadline.value < appliedAt.value then
              after == db && answer == Refused(InvalidDates)
            else if was.status == Saved && appliedAt.Some? then
              after == db && answer == Refused(SavedHasAppliedAt)
            else if was.status != Saved && appliedAt == None then
              after == db && answer == Refused(ActiveNeedsAppliedAt)
            else
              && answer.ApplicationRow? && answer.id == id && ApplicationPatched(was, p, answer.application)
              && after == db.(applications := db.applications[id := answer.application])
  {
  }

  /** A new salary range is checked against the bounds that are not given. */
  lemma UpdateJobExactly(db: Db, owner: OwnerId, id: Id, companyId: Field<Id>, title: Field<string>,
                         salaryMin: Field<Option<int>>, salaryMax: Field<Option<int>>)
    requires id in db.jobs && db.jobs[id].owner == owner
    ensures var (after, answer) := UpdateJob(db, owner, id, companyId, title, salaryMin, salaryMax);
            var was := db.jobs[id];
            var low := if salaryMin.Set? then salaryMin.value else was.salaryMin;
            var high := if salaryMax.Set? then salaryMax.value else was.salaryMax;
            if companyId.Set? && !(companyId.value in db.companies && db.companies[companyId.value].owner == owner) then
              after == db && answer == NotFound(CompanyEntity)
            else if low.Some? && high.Some? && low.value > high.value then
              after == db && answer == Refused(SalaryRange)
            else
              && answer.JobRow? && answer.id == id
              && answer.job == Job(owner, if companyId.Set? then companyId.value else was.companyId,
                                   if title.Set? then title.value else was.title, low, high)
              && after == db.(jobs := db.jobs[id := answer.job])
  {
  }

  lemma UpdateCompanyExactly(db: Db, k: NameKeys, owner: OwnerId, id: Id, name: Field<string>, details: Field<string>)
    requires id in db.companies && db.companies[id].owner == owner
    ensures var (after, answer) := UpdateCompany(db, k, owner, id, name, details);
            var was := db.companies[id];
            if name.Set? && exists c :: c in db.companies && c != id && db.companies[c].owner == owner
                                        && k.sql(db.companies[c].name) in {k.py(name.value), k.sql(name.value)} then
              after == db && answer == Refused(CompanyNameTaken)
            else
              && answer == CompanyRow(id, Company(owner, if name.Set? then name.value else was.name,
                                                  if details.Set? then details.value else was.details))
              && after == db.(companies := db.companies[id := answer.company])
  {
  }

  /** Another scheduled interview of the owner shares time with the window of `duration` minutes from `at`. */
  predicate Collides(interviews: map<Id, Interview>, owner: OwnerId, id: Id, at: Time, duration: int) {
    exists v :: v in interviews && v != id && interviews[v].owner == owner && interviews[v].status == Scheduled
             && interviews[v].scheduledAt < at + duration * 60_000_000
             && at < interviews[v].scheduledAt + interviews[v].duration * 60_000_000
  }

  lemma CollidesIsOverlap(interviews: map<Id, Interview>, owner: OwnerId, id: Id, at: Time, duration: int)
    requires WindowsOk(interviews)
    ensures Collides(interviews, owner, id, at, duration) <==> HasOverlap(interviews, owner, at, duration, Some(id))
    ensures id !in interviews ==>
      (Collides(interviews, owner, id, at, duration) <==> HasOverlap(interviews, owner, at, duration, None))
  {
    if Collides(interviews, owner, id, at, duration) {
      var v :| v in interviews && v != id && interviews[v].owner == owner && interviews[v].status == Scheduled
            && interviews[v].scheduledAt < at + duration * 60_000_000
            && at < interviews[v].scheduledAt + interviews[v].duration * 60_000_000;
      assert ValidDuration(interviews[v].duration) && interviews[v].scheduledAt > at - MAX_DURATION;
    }
  }

  /**
    An interview changes its status only from scheduled, has feedback only once completed, and while
    scheduled shares no time with another one; any other update is written, with the end that follows.
   */
  lemma UpdateInterviewExactly(db: Db, owner: OwnerId, id: Id, p: InterviewPatch)
    requires WindowsOk(db.interviews) && id in db.interviews && db.interviews[id].owner == owner
    ensures var (after, answer) := UpdateInterview(db, owner, id, p);
            var was := db.interviews[id];
            var status := if p.status.Set? then p.status.value else was.status;
            var at := if p.scheduledAt.Set? then p.scheduledAt.value else was.scheduledAt;
            var duration := if p.duration.Set? then p.duration.value else was.duration;
            var feedback := if p.feedback.Set? then p.feedback.value else was.feedback;
            if status != was.status && was.status != Scheduled then
              after == db && answer == Refused(InvalidInterviewTransition)
            else if feedback.Some? && status != Completed then
              after == db && answer == Refused(FeedbackNeedsCompleted)
            else if status == Scheduled && Collides(db.interviews, owner, id, at, duration) then
              after == db && answer == Refused(InterviewOverlap)
            else
              && answer.InterviewRow? && answer.id == id
              && answer.interview == Interview(owner, was.applicationId, status, at, duration, at + duration * 60_000_000,
                                               if p.notes.Set? then p.notes.value else was.notes, feedback)
              && after == db.(interviews := db.interviews[id := answer.interview])
  {
    var row := Patched(db.interviews[id], p);
    CollidesIsOverlap(db.interviews, owner, id, row.scheduledAt, row.duration);
  }

  // ---- New rows ----

  lemma CreateInterviewExactly(db: Db, owner: OwnerId, id: Id, applicationId: Id, at: Time, duration: int, notes: string)
    requires WindowsOk(db.interviews) && id !in db.interviews
    requires applicationId in db.applications && db.applications[applicationId].owner == owner
    ensures var (after, answer) := CreateInterview(db, owner, id, applicationId, at, duration, notes);
            if db.applications[applicationId].status !in {Screening, Interviewing, Offer} then
              after == db && answer == Refused(ApplicationNotReady)
            else if Collides(db.interviews, owner, id, at, duration) then
              after == db && answer == Refused(InterviewOverlap)
            else
              && answer.InterviewRow? && answer.id == id
              && answer.interview == Interview(owner, applicationId, Scheduled, at, duration, at + duration * 60_000_000, notes, None)
              && after == db.(interviews := db.interviews[id := answer.interview])
  {
    CollidesIsOverlap(db.interviews, owner, id, at, duration);
  }

  lemma CreateApplicationExactly(db: Db, owner: OwnerId, id: Id, d: ApplicationData, now: Time, today: Date)
    requires d.jobId in db.jobs && db.jobs[d.jobId].owner == owner
    ensures var (after, answer) := CreateApplication(db, owner, id, d, now, today);
            var appliedAt := if d.status == Applied && d.appliedAt == None then Some(today) else d.appliedAt;
            if exists a :: a in db.applications && db.applications[a].jobId == d.jobId && db.applications[a].owner == owner then
              after == db && answer == Refused(ApplicationExists)
            else if appliedAt.Some? && d.deadline.Some? && d.deadline.value < appliedAt.value then
              after == db && answer == Refused(InvalidDates)
            else
              && answer.ApplicationRow? && answer.id == id
              && answer.application == Application(owner, d.jobId, d.status, d.priority, appliedAt, d.deadline, d.nextActionAt,
                                                   d.notes, now)
              && after == db.(applications := db.applications[id := answer.application])
  {
  }

  /** A new job is refused exactly without a company of the owner, a new company exactly for a name of the owner's. */
  lemma CreateParentsExactly(db: Db, k: NameKeys, owner: OwnerId, id: Id, companyId: Id, name: string, details: string,
                             low: Option<int>, high: Option<int>)
    ensures var (after, answer) := CreateJob(db, owner, id, companyId, name, low, high);
            if companyId in db.companies && db.companies[companyId].owner == owner then
              && answer == JobRow(id, Job(owner, companyId, name, low, high), Some(db.companies[companyId]))
              && after == db.(jobs := db.jobs[id := answer.job])
            else
              after == db && answer == NotFound(CompanyEntity)
    ensures var (after, answer) := CreateCompany(db, k, owner, id, name, details);
            if exists c :: c in db.companies && db.companies[c].owner == owner
                           && k.sql(db.companies[c].name) in {k.py(name), k.sql(name)} then
              after == db && answer == Refused(CompanyNameTaken)
            else
              && answer == CompanyRow(id, Company(owner, name, details))
              && after == db.(companies := db.companies[id := answer.company])
  {
  }

  // ---- What is shown ----

  lemma JobShown(db: Db, k: NameKeys, owner: OwnerId, id: Id)
    requires JobParents(db.jobs, db.companies) && id in db.jobs && db.jobs[id].owner == owner
    ensures Exec(db, k, owner, GetJob(id)).1 == JobRow(id, db.jobs[id], Some(db.companies[db.jobs[id].companyId]))
  {
  }

  lemma ApplicationShown(db: Db, k: NameKeys, owner: OwnerId, id: Id)
    requires JobParents(db.jobs, db.companies) && ApplicationParents(db.applications, db.jobs)
    requires id in db.applications && db.applications[id].owner == owner
    ensures var a := db.applications[id];
            Exec(db, k, owner, GetApplication(id)).1
              == ApplicationRow(id, a, Some(db.jobs[a.jobId]), Some(db.companies[db.jobs[a.jobId].companyId]))
  {
  }

  lemma InterviewShown(db: Db, k: NameKeys, owner: OwnerId, id: Id)
    requires ApplicationParents(db.applications, db.jobs) && InterviewParents(db.interviews, db.applications)
    requires id in db.interviews && db.interviews[id].owner == owner
    ensures var v := db.interviews[id];
            Exec(db, k, owner, GetInterview(id)).1
              == InterviewRow(id, v, Some(db.applications[v.applicationId]), Some(db.jobs[db.applications[v.applicationId].jobId]))
  {
  }

  /** An application is listed exactly to its owner, when its job is at the company asked for and it passes the filter. */
  lemma ApplicationsListed(db: Db, k: NameKeys, owner: OwnerId, companyId: Option<Id>, keep: (Id, Application) -> bool, id: Id)
    requires ApplicationParents(db.applications, db.jobs)
    ensures var answer := Exec(db, k, owner, ListApplications(companyId, keep)).1;
            && answer.ApplicationRows?
            && (id in answer.applications <==>
                && id in db.applications && db.applications[id].owner == owner
                && (companyId.Some? ==> db.jobs[db.applications[id].jobId].companyId == companyId.value)
                && keep(id, db.applications[id]))
            && (id in answer.applications ==> answer.applications[id] == db.applications[id])
  {
  }
}
