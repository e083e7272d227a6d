/** The services at work on the stored tables, updated in place; each method does what `Tracker` specifies. */
module TrackerService {
  import opened Common
  import opened Tracker

  class Store {
    var companies: map<Id, Company>
    var jobs: map<Id, Job>
    var applications: map<Id, Application>
    var history: map<Id, seq<Transition>>
    var interviews: map<Id, Interview>

    function Contents(): Db
      reads this
    {
      Db(companies, jobs, applications, history, interviews)
    }

    constructor ()
      ensures Contents() == Empty()
    {
      companies, jobs, applications, history, interviews := map[], map[], map[], map[], map[];
    }

    // ---- Companies and jobs ----

    method CreateCompany(k: NameKeys, owner: OwnerId, id: Id, name: string, details: string) returns (r: Response)
      modifies this`companies
      ensures (Contents(), r) == Tracker.CreateCompany(old(Contents()), k, owner, id, name, details)
    {
      if NameTaken(Contents(), k, owner, name, None) {
        return Refused(CompanyNameTaken);
      }
      var row := Company(owner, name, details);
      companies := companies[id := row];
      return CompanyRow(id, row);
    }

    method UpdateCompany(k: NameKeys, owner: OwnerId, id: Id, name: Field<string>, details: Field<string>)
      returns (r: Response)
      modifies this`companies
      ensures (Contents(), r) == Tracker.UpdateCompany(old(Contents()), k, owner, id, name, details)
    {
      if id !in companies || companies[id].owner != owner {
        return NotFound(CompanyEntity);
      }
      if name.Set? && NameTaken(Contents(), k, owner, name.value, Some(id)) {
        return Refused(CompanyNameTaken);
      }
      var row := companies[id];
      if name.Set? { row := row.(name := name.value); }
      if details.Set? { row := row.(details := details.value); }
      companies := companies[id := row];
      return CompanyRow(id, row);
    }

    method DeleteCompany(owner: OwnerId, id: Id) returns (r: Response)
      modifies this`companies
      ensures (Contents(), r) == Tracker.DeleteCompany(old(Contents()), owner, id)
    {
      if id !in companies || companies[id].owner != owner {
        return NotFound(CompanyEntity);
      }
      if CompanyInUse(Contents(), owner, id) {
        return Refused(CompanyHasJobs);
      }
      companies := companies - {id};
      return Deleted;
    }

    method CreateJob(owner: OwnerId, id: Id, companyId: Id, title: string, salaryMin: Option<int>, salaryMax: Option<int>)
      returns (r: Response)
      modifies this`jobs
      ensures (Contents(), r) == Tracker.CreateJob(old(Contents()), owner, id, companyId, title, salaryMin, salaryMax)
    {
      if companyId !in companies || companies[companyId].owner != owner {
        return NotFound(CompanyEntity);
      }
      var row := Job(owner, companyId, title, salaryMin, salaryMax);
      jobs := jobs[id := row];
      return ShowJob(Contents(), id, row);
    }

    method UpdateJob(owner: OwnerId, id: Id, companyId: Field<Id>, title: Field<string>,
                     salaryMin: Field<Option<int>>, salaryMax: Field<Option<int>>)
      returns (r: Response)
      modifies this`jobs
      ensures (Contents(), r) == Tracker.UpdateJob(old(Contents()), owner, id, companyId, title, salaryMin, salaryMax)
    {
      if id !in jobs || jobs[id].owner != owner {
        return NotFound(JobEntity);
      }
      if companyId.Set? && (companyId.value !in companies || companies[companyId.value].owner != owner) {
        return NotFound(CompanyEntity);
      }
      var row := jobs[id];
      if companyId.Set? { row := row.(companyId := companyId.value); }
      if title.Set? { row := row.(title := title.value); }
      if salaryMin.Set? { row := row.(salaryMin := salaryMin.value); }
      if salaryMax.Set? { row := row.(salaryMax := salaryMax.value); }
      if row.salaryMin.Some? && row.salaryMax.Some? && row.salaryMin.value > row.salaryMax.value {
        return Refused(SalaryRange);
      }
      jobs := jobs[id := row];
      return ShowJob(Contents(), id, row);
    }

    method DeleteJob(owner: OwnerId, id: Id) returns (r: Response)
      modifies this`jobs
      ensures (Contents(), r) == Tracker.DeleteJob(old(Contents()), owner, id)
    {
      if id !in jobs || jobs[id].owner != owner {
        return NotFound(JobEntity);
      }
      if JobInUse(Contents(), owner, id) {
        return Refused(JobHasApplications);
      }
      jobs := jobs - {id};
      return Deleted;
    }

    // ---- Applications ----

    method CreateApplication(owner: OwnerId, id: Id, d: ApplicationData, now: Time, today: Date) returns (r: Response)
      modifies this`applications
      ensures (Contents(), r) == Tracker.CreateApplication(old(Contents()), owner, id, d, now, today)
    {
      if d.jobId !in jobs || jobs[d.jobId].owner != owner {
        return NotFound(JobEntity);
      }
      if JobInUse(Contents(), owner, d.jobId) {
        return Refused(ApplicationExists);
      }
      var values := d;
      if d.status == Applied && d.appliedAt.None? {
        values := values.(appliedAt := Some(today));
      }
      if values.appliedAt.Some? && values.deadline.Some? && values.deadline.value < values.appliedAt.value {
        return Refused(InvalidDates);
      }
      var row := Application(owner, values.jobId, values.status, values.priority, values.appliedAt, values.deadline,
                             values.nextActionAt, values.notes, now);
      applications := applications[id := row];
      return ShowApplication(Contents(), id, row);
    }

    method UpdateApplication(owner: OwnerId, id: Id, p: ApplicationPatch) returns (r: Response)
      modifies this`applications
      ensures (Contents(), r) == Tracker.UpdateApplication(old(Contents()), owner, id, p)
    {
      if id !in applications || applications[id].owner != owner {
        return NotFound(ApplicationEntity);
      }
      var row := applications[id];
      var appliedAt := p.appliedAt.Over(row.appliedAt);
      var deadline := p.deadline.Over(row.deadline);
      if appliedAt.Some? && deadline.Some? && deadline.value < appliedAt.value {
        return Refused(InvalidDates);
      }
      if row.status == Saved && appliedAt.Some? {
        return Refused(SavedHasAppliedAt);
      }
      if row.status != Saved && appliedAt.None? {
        return Refused(ActiveNeedsAppliedAt);
      }
      if p.priority.Set? { row := row.(priority := p.priority.value); }
      if p.appliedAt.Set? { row := row.(appliedAt := p.appliedAt.value); }
      if p.deadline.Set? { row := row.(deadline := p.deadline.value); }
      if p.nextActionAt.Set? { row := row.(nextActionAt := p.nextActionAt.value); }
      if p.notes.Set? { row := row.(notes := p.notes.value); }
      applications := applications[id := row];
      return ShowApplication(Contents(), id, row);
    }

    /** Writes the status before the date check, as the service does, and rolls back when the check fails. */
    method ChangeStatus(owner: OwnerId, id: Id, target: Status, now: Time, today: Date) returns (r: Response)
      modifies this`applications, this`history
      ensures (Contents(), r) == Tracker.ChangeStatus(old(Contents()), owner, id, target, now, today)
    {
      if id !in applications || applications[id].owner != owner {
        return NotFound(ApplicationEntity);
      }
      var stored := applications[id];
      if !Allowed(stored.status, target) {
        return Refused(InvalidTransition);
      }
      var step := Transition(stored.status, target, now);
      applications := applications[id := stored.(status := target)];
      if target == Applied && stored.appliedAt.None? {
        applications := applications[id := applications[id].(appliedAt := Some(today))];
        if stored.deadline.Some? && stored.deadline.value < today {
          applications := applications[id := stored];
          assert applications == old(applications);
          return Refused(InvalidDates);
        }
      }
      history := history[id := History(history, id) + [step]];
      assert applications == old(applications)[id := applications[id]];
      return ShowApplication(Contents(), id, applications[id]);
    }

    method DeleteApplication(owner: OwnerId, id: Id) returns (r: Response)
      modifies this`applications, this`history
      ensures (Contents(), r) == Tracker.DeleteApplication(old(Contents()), owner, id)
    {
      if id !in applications || applications[id].owner != owner {
        return NotFound(ApplicationEntity);
      }
      if ApplicationInUse(Contents(), owner, id) {
        return Refused(ApplicationHasInterviews);
      }
      applications := applications - {id};
      history := history - {id};
      return Deleted;
    }

    // ---- Interviews ----

    /** The candidates that start inside the bounded window, then the exact test on each. */
    method SearchOverlap(owner: OwnerId, at: Time, duration: int, exclude: Option<Id>) returns (found: bool)
      ensures found <==> HasOverlap(interviews, owner, at, duration, exclude)
    {
      var candidates := Candidates(interviews, owner, at, ScheduledEnd(at, duration), exclude);
      OverlapAmongCandidates(interviews, owner, at, duration, exclude);
      found := false;
      var rest := candidates;
      while rest != {} && !found
        invariant rest <= candidates
        invariant found <==> exists v :: v in candidates - rest && EndOf(interviews[v]) > at
        decreases |rest|
      {
        var v :| v in rest;
        rest := rest - {v};
        found := EndOf(interviews[v]) > at;
        assert v in candidates - rest;
      }
    }

    method CreateInterview(owner: OwnerId, id: Id, applicationId: Id, at: Time, duration: int, notes: string)
      returns (r: Response)
      modifies this`interviews
      ensures (Contents(), r) == Tracker.CreateInterview(old(Contents()), owner, id, applicationId, at, duration, notes)
    {
      if applicationId !in applications || applications[applicationId].owner != owner {
        return NotFound(ApplicationEntity);
      }
      if !Eligible(applications[applicationId].status) {
        return Refused(ApplicationNotReady);
      }
      var overlap := SearchOverlap(owner, at, duration, None);
      if overlap {
        return Refused(InterviewOverlap);
      }
      var row := Interview(owner, applicationId, Scheduled, at, duration, ScheduledEnd(at, duration), notes, None);
      interviews := interviews[id := row];
      return ShowInterview(Contents(), id, row);
    }

    method UpdateInterview(owner: OwnerId, id: Id, p: InterviewPatch) returns (r: Response)
      modifies this`interviews
      ensures (Contents(), r) == Tracker.UpdateInterview(old(Contents()), owner, id, p)
    {
      if id !in interviews || interviews[id].owner != owner {
        return NotFound(InterviewEntity);
      }
      var row := interviews[id];
      var target := p.status.Over(row.status);
      if target != row.status && !InterviewAllowed(row.status, target) {
        return Refused(InvalidInterviewTransition);
      }
      var feedback := p.feedback.Over(row.feedback);
      if feedback.Some? && target != Completed {
        return Refused(FeedbackNeedsCompleted);
      }
      var at := p.scheduledAt.Over(row.scheduledAt);
      var duration := p.duration.Over(row.duration);
      if target == Scheduled {
        var overlap := SearchOverlap(owner, at, duration, Some(id));
        if overlap {
          return Refused(InterviewOverlap);
        }
      }
      if p.status.Set? { row := row.(status := p.status.value); }
      if p.scheduledAt.Set? { row := row.(scheduledAt := p.scheduledAt.value); }
      if p.duration.Set? { row := row.(duration := p.duration.value); }
      if p.notes.Set? { row := row.(notes := p.notes.value); }
      if p.feedback.Set? { row := row.(feedback := p.feedback.value); }
      row := row.(scheduledEnd := ScheduledEnd(at, duration));
      assert row == Patched(interviews[id], p) && InterviewProblem(interviews, owner, id, interviews[id], p).None?;
      interviews := interviews[id := row];
      return ShowInterview(Contents(), id, row);
    }

    method DeleteInterview(owner: OwnerId, id: Id) returns (r: Response)
      modifies this`interviews
      ensures (Contents(), r) == Tracker.DeleteInterview(old(Contents()), owner, id)
    {
      if id !in interviews || interviews[id].owner != owner {
        return NotFound(InterviewEntity);
      }
      interviews := interviews - {id};
      return Deleted;
    }
  }

  function EndOf(v: Interview): Time { ScheduledEnd(v.scheduledAt, v.duration) }

  /** The query: the owner's scheduled interviews that start in the window, without the excluded one. */
  function Candidates(interviews: map<Id, Interview>, owner: OwnerId, at: Time, end: Time, exclude: Option<Id>): set<Id> {
    set v | v in interviews && interviews[v].owner == owner && interviews[v].status == Scheduled
         && interviews[v].scheduledAt < end && interviews[v].scheduledAt > at - MAX_DURATION && Some(v) != exclude
  }

  lemma OverlapAmongCandidates(interviews: map<Id, Interview>, owner: OwnerId, at: Time, duration: int, exclude: Option<Id>)
    ensures HasOverlap(interviews, owner, at, duration, exclude) <==>
            exists v :: v in Candidates(interviews, owner, at, ScheduledEnd(at, duration), exclude) && EndOf(interviews[v]) > at
  {
    if HasOverlap(interviews, owner, at, duration, exclude) {
      var v :| v in interviews && interviews[v].owner == owner && interviews[v].status == Scheduled
            && interviews[v].scheduledAt < ScheduledEnd(at, duration) && interviews[v].scheduledAt > at - MAX_DURATION
            && Some(v) != exclude && ScheduledEnd(interviews[v].scheduledAt, interviews[v].duration) > at;
      assert v in Candidates(interviews, owner, at, ScheduledEnd(at, duration), exclude) && EndOf(interviews[v]) > at;
    }
  }
}
