/** The guard logic of four project endpoints (Backend/app/api/projects.py):
    translation upload, approve, reject and administrator close. Each runs
    its checks in order, then the store writes, then the notifications. */
module ProjectsApi {
  import opened Domain
  import opened Text
  import opened ProjectStore
  import opened FeedbackStore
  import opened Collaborators
  import opened ProjectReview
  import opened ProjectCreation

  /** The longest feedback text the request bodies accept. */
  const MaxFeedbackLength: nat := 2000

  const ReadySubject: string := "Your translation is ready"
  const ApprovedSubject: string := "Translation approved"
  const RejectedSubject: string := "Translation rejected"
  const AdminClosedSubject: string := "Project closed"

  /** The stores the endpoints write. */
  datatype Snapshot = Snapshot(projects: ProjectTable, feedbacks: FeedbackTable, files: seq<StoredFile>, outbox: seq<Mail>)

  /** A response: 204 No Content, or the failure it reports. */
  datatype Status = NoContent | Failed(failure: Failure)

  datatype ApiStep = ApiStep(stores: Snapshot, status: Status)

  /** The translated file as it is stored, with the endpoint's defaults. */
  function TranslationUpload(filename: string, contentType: string, content: seq<byte>): StoredFile {
    StoredFile(OrDefault(filename, "translation.bin"), content, OrDefault(contentType, "application/octet-stream"))
  }

  /** The states in which a translation may be uploaded. */
  predicate AcceptsTranslation(s: ProjectState) {
    s == Assigned || s == Completed
  }

  /** Effect of `submit_translation`. */
  function SubmitTranslationEndpoint(s: Snapshot, users: map<UserId, User>, caller: User, pid: ProjectId,
                                     filename: string, contentType: string, content: seq<byte>): ApiStep
  {
    if caller.role != Translator then ApiStep(s, Failed(Forbidden))
    else if pid !in s.projects then ApiStep(s, Failed(NotFound))
    else if s.projects[pid].translatorId != Some(caller.id) then ApiStep(s, Failed(Forbidden))
    else if !AcceptsTranslation(s.projects[pid].state) then ApiStep(s, Failed(Conflict))
    else if |content| > MaxUploadBytes then ApiStep(s, Failed(PayloadTooLarge))
    else
      var files' := s.files + [TranslationUpload(filename, contentType, content)];
      if !SubmitMatches(s.projects, pid, caller.id) then ApiStep(s.(files := files'), Failed(Conflict))
      else
        ApiStep(Snapshot(ProjectStore.SubmitTranslationIn(s.projects, pid, caller.id, |s.files|), s.feedbacks, files',
                         s.outbox + MailTo(users, s.projects[pid].customerId, ReadySubject)),
                NoContent)
  }

  /** The notification after a successful review: the project's translator,
      looked up again, when the re-read project has one. */
  function ReviewMail(users: map<UserId, User>, pt: ProjectTable, pid: ProjectId, subject: string): seq<Mail> {
    if pid in pt && pt[pid].translatorId.Some? then MailTo(users, pt[pid].translatorId.value, subject) else []
  }

  /** What the endpoint makes of a review call's outcome. */
  function AfterReview(s: Snapshot, users: map<UserId, User>, pid: ProjectId, st: ReviewStep, subject: string): ApiStep {
    var s' := s.(projects := st.projects, feedbacks := st.feedbacks);
    if st.result.None? then ApiStep(s', Failed(Conflict))
    else ApiStep(s'.(outbox := s.outbox + ReviewMail(users, st.projects, pid, subject)), NoContent)
  }

  /** Effect of `approve_project`: body validation, role check, the service call. */
  function ApproveProjectEndpoint(s: Snapshot, users: map<UserId, User>, caller: User, pid: ProjectId, text: string,
                                  freshId: FeedbackId, now: Timestamp): ApiStep
  {
    if |text| > MaxFeedbackLength then ApiStep(s, Failed(Unprocessable))
    else if caller.role != Customer then ApiStep(s, Failed(Forbidden))
    else AfterReview(s, users, pid, ApproveIn(s.projects, s.feedbacks, pid, caller.id, text, freshId, now), ApprovedSubject)
  }

  /** Effect of `reject_project`: the body needs 1 to 2000 characters. */
  function RejectProjectEndpoint(s: Snapshot, users: map<UserId, User>, caller: User, pid: ProjectId, text: string,
                                 freshId: FeedbackId, now: Timestamp): ApiStep
  {
    if |text| < 1 || |text| > MaxFeedbackLength then ApiStep(s, Failed(Unprocessable))
    else if caller.role != Customer then ApiStep(s, Failed(Forbidden))
    else AfterReview(s, users, pid, RejectIn(s.projects, s.feedbacks, pid, caller.id, text, freshId, now), RejectedSubject)
  }

  /** The notifications of an administrator close: the customer, then the
      translator when there is one, each only when the lookup finds them. */
  function AdminCloseMail(users: map<UserId, User>, p: Project): seq<Mail> {
    MailTo(users, p.customerId, AdminClosedSubject)
      + (if p.translatorId.Some? then MailTo(users, p.translatorId.value, AdminClosedSubject) else [])
  }

  /** Effect of `admin_close_project`. */
  function AdminCloseProjectEndpoint(s: Snapshot, users: map<UserId, User>, caller: User, pid: ProjectId): ApiStep {
    if caller.role != Administrator then ApiStep(s, Failed(Forbidden))
    else if pid !in s.projects then ApiStep(s, Failed(NotFound))
    else ApiStep(s.(projects := CloseIn(s.projects, pid), outbox := s.outbox + AdminCloseMail(users, s.projects[pid])), NoContent)
  }

  /** Upload succeeds exactly for the assigned translator of an existing
      ASSIGNED or COMPLETED project and content within the limit; then the
      file is stored, the project is COMPLETED with that file, and the
      customer is notified. Each refusal writes nothing at all. */
  lemma SubmitTranslationGuards(s: Snapshot, users: map<UserId, User>, caller: User, pid: ProjectId,
                                filename: string, contentType: string, content: seq<byte>)
    ensures var st := SubmitTranslationEndpoint(s, users, caller, pid, filename, contentType, content);
            st.status == NoContent <==>
              && caller.role == Translator && pid in s.projects
              && s.projects[pid].translatorId == Some(caller.id)
              && AcceptsTranslation(s.projects[pid].state)
              && |content| <= MaxUploadBytes
    ensures var st := SubmitTranslationEndpoint(s, users, caller, pid, filename, contentType, content);
            st.status.Failed? ==> st.stores == s
    ensures var st := SubmitTranslationEndpoint(s, users, caller, pid, filename, contentType, content);
            st.status == NoContent ==>
              && st.stores.files == s.files + [TranslationUpload(filename, contentType, content)]
              && st.stores.projects == s.projects[pid := s.projects[pid].(translatedFileId := Some(|s.files|), state := Completed)]
              && st.stores.feedbacks == s.feedbacks
              && st.stores.outbox == s.outbox + MailTo(users, s.projects[pid].customerId, ReadySubject)
  {
  }

  /** Which refusal a caller gets, in the order the checks run. */
  lemma SubmitTranslationRefusals(s: Snapshot, users: map<UserId, User>, caller: User, pid: ProjectId,
                                  filename: string, contentType: string, content: seq<byte>)
    ensures caller.role != Translator ==>
              SubmitTranslationEndpoint(s, users, caller, pid, filename, contentType, content).status == Failed(Forbidden)
    ensures caller.role == Translator && pid !in s.projects ==>
              SubmitTranslationEndpoint(s, users, caller, pid, filename, contentType, content).status == Failed(NotFound)
    ensures (caller.role == Translator && pid in s.projects && s.projects[pid].translatorId != Some(caller.id)) ==>
              SubmitTranslationEndpoint(s, users, caller, pid, filename, contentType, content).status == Failed(Forbidden)
    ensures (caller.role == Translator && SubmitMatches(s.projects, pid, caller.id)
             && !AcceptsTranslation(s.projects[pid].state)) ==>
              SubmitTranslationEndpoint(s, users, caller, pid, filename, contentType, content).status == Failed(Conflict)
    ensures (caller.role == Translator && SubmitMatches(s.projects, pid, caller.id)
             && AcceptsTranslation(s.projects[pid].state) && |content| > MaxUploadBytes) ==>
              SubmitTranslationEndpoint(s, users, caller, pid, filename, contentType, content).status == Failed(PayloadTooLarge)
  {
  }

  /** The state check lives only in the endpoint: on an APPROVED or CLOSED
      project of the caller the repository write alone would complete the
      project again, while the endpoint refuses with 409 and writes nothing. */
  lemma StateGuardOnlyInEndpoint(s: Snapshot, users: map<UserId, User>, caller: User, pid: ProjectId,
                                 filename: string, contentType: string, content: seq<byte>)
    requires caller.role == Translator && SubmitMatches(s.projects, pid, caller.id)
    requires s.projects[pid].state == Approved || s.projects[pid].state == Closed
    ensures ProjectStore.SubmitTranslationIn(s.projects, pid, caller.id, |s.files|)[pid].state == Completed
    ensures SubmitTranslationEndpoint(s, users, caller, pid, filename, contentType, content) == ApiStep(s, Failed(Conflict))
  {
    SubmitIgnoresState(s.projects, pid, caller.id, |s.files|);
  }

  /** Approve answers 204 exactly for a valid body from the customer who owns
      the COMPLETED project, which then is APPROVED; a role or body refusal
      writes nothing. */
  lemma ApproveProjectGuards(s: Snapshot, users: map<UserId, User>, caller: User, pid: ProjectId, text: string,
                             freshId: FeedbackId, now: Timestamp)
    ensures var st := ApproveProjectEndpoint(s, users, caller, pid, text, freshId, now);
            st.status == NoContent <==>
              |text| <= MaxFeedbackLength && caller.role == Customer && CustomerMatches(s.projects, pid, caller.id, Completed)
    ensures var st := ApproveProjectEndpoint(s, users, caller, pid, text, freshId, now);
            st.status == NoContent ==> st.stores.projects[pid].state == Approved
    ensures var st := ApproveProjectEndpoint(s, users, caller, pid, text, freshId, now);
            st.status == Failed(Forbidden) || st.status == Failed(Unprocessable) ==> st.stores == s
    ensures var st := ApproveProjectEndpoint(s, users, caller, pid, text, freshId, now);
            st.status.Failed? ==> st.status.failure in {Unprocessable, Forbidden, Conflict} && st.stores.outbox == s.outbox
  {
  }

  /** Reject answers 204 exactly for a 1 to 2000 character, non-blank body
      from the customer who owns the COMPLETED project, which then is
      ASSIGNED again; a role, body or blank-text refusal writes nothing. */
  lemma RejectProjectGuards(s: Snapshot, users: map<UserId, User>, caller: User, pid: ProjectId, text: string,
                            freshId: FeedbackId, now: Timestamp)
    ensures var st := RejectProjectEndpoint(s, users, caller, pid, text, freshId, now);
            st.status == NoContent <==>
              && 1 <= |text| <= MaxFeedbackLength && !IsBlank(text)
              && caller.role == Customer && CustomerMatches(s.projects, pid, caller.id, Completed)
    ensures var st := RejectProjectEndpoint(s, users, caller, pid, text, freshId, now);
            st.status == NoContent ==> st.stores.projects[pid].state == Assigned
    ensures var st := RejectProjectEndpoint(s, users, caller, pid, text, freshId, now);
            st.status == Failed(Forbidden) || st.status == Failed(Unprocessable) || IsBlank(text) ==> st.stores == s
  {
  }

  /** A 409 from approve still carries the feedback write: the owner's
      feedback text is replaced even though the project is not COMPLETED or
      not the caller's. */
  lemma ApproveConflictStillWritesFeedback(s: Snapshot, users: map<UserId, User>, caller: User, pid: ProjectId,
                                           text: string, freshId: FeedbackId, now: Timestamp)
    requires |text| <= MaxFeedbackLength && caller.role == Customer
    requires !CustomerMatches(s.projects, pid, caller.id, Completed)
    ensures var st := ApproveProjectEndpoint(s, users, caller, pid, text, freshId, now);
            && st.status == Failed(Conflict)
            && st.stores.projects == s.projects
            && pid in st.stores.feedbacks && st.stores.feedbacks[pid].text == text
  {
  }

  /** Administrator close answers 204 exactly for an administrator and an
      existing project, whatever its state; then the project is CLOSED,
      nothing else in the table changes, and the customer and the translator
      are notified. */
  lemma AdminCloseGuards(s: Snapshot, users: map<UserId, User>, caller: User, pid: ProjectId)
    ensures var st := AdminCloseProjectEndpoint(s, users, caller, pid);
            st.status == NoContent <==> caller.role == Administrator && pid in s.projects
    ensures var st := AdminCloseProjectEndpoint(s, users, caller, pid);
            st.status.Failed? ==> st.stores == s
    ensures var st := AdminCloseProjectEndpoint(s, users, caller, pid);
            st.status == NoContent ==>
              && st.stores.projects == s.projects[pid := s.projects[pid].(state := Closed)]
              && st.stores.feedbacks == s.feedbacks && st.stores.files == s.files
              && st.stores.outbox == s.outbox + AdminCloseMail(users, s.projects[pid])
  {
  }

  class ProjectsEndpoints {
    const projects: ProjectRepository
    const feedbacks: FeedbackRepository
    const users: UserRepository
    const blobs: BlobStore
    const mailer: Mailer

    constructor (projects: ProjectRepository, feedbacks: FeedbackRepository, users: UserRepository,
                 blobs: BlobStore, mailer: Mailer)
      ensures this.projects == projects && this.feedbacks == feedbacks && this.users == users
      ensures this.blobs == blobs && this.mailer == mailer
    {
      this.projects := projects;
      this.feedbacks := feedbacks;
      this.users := users;
      this.blobs := blobs;
      this.mailer := mailer;
    }

    /** The stores as they stand. */
    ghost function Stores(): Snapshot
      reads projects, feedbacks, blobs, mailer
    {
      Snapshot(projects.projects, feedbacks.feedbacks, blobs.files, mailer.outbox)
    }

    /** `submit_translation` */
    method SubmitTranslation(caller: User, pid: ProjectId, filename: string, contentType: string, content: seq<byte>)
      returns (status: Status)
      requires projects.Valid() && users.Valid()
      modifies projects, blobs, mailer
      ensures projects.Valid()
      ensures ApiStep(Stores(), status) == SubmitTranslationEndpoint(old(Stores()), users.users, caller, pid, filename, contentType, content)
    {
      if caller.role != Translator {
        return Failed(Forbidden);
      }
      var project := projects.GetById(pid);
      if project.None? {
        return Failed(NotFound);
      }
      if project.value.translatorId != Some(caller.id) {
        return Failed(Forbidden);
      }
      if !AcceptsTranslation(project.value.state) {
        return Failed(Conflict);
      }
      if |content| > MaxUploadBytes {
        return Failed(PayloadTooLarge);
      }
      var upload := TranslationUpload(filename, contentType, content);
      var fileId := blobs.Upload(upload.filename, upload.data, upload.contentType);
      var ok := projects.SubmitTranslation(pid, caller.id, fileId);
      if !ok {
        return Failed(Conflict);
      }
      var customer := users.GetById(project.value.customerId);
      if customer.Some? {
        mailer.Send(customer.value.emailAddress, ReadySubject);
      }
      status := NoContent;
    }

    /** The re-read and notification both review endpoints share. */
    method NotifyTranslator(pid: ProjectId, subject: string)
      requires projects.Valid() && users.Valid()
      modifies mailer
      ensures mailer.outbox == old(mailer.outbox) + ReviewMail(users.users, projects.projects, pid, subject)
    {
      var project := projects.GetById(pid);
      if project.Some? && project.value.translatorId.Some? {
        var translator := users.GetById(project.value.translatorId.value);
        if translator.Some? {
          mailer.Send(translator.value.emailAddress, subject);
        }
      }
    }

    /** `approve_project`; `freshId` stands for the feedback id the record generates. */
    method ApproveProject(caller: User, pid: ProjectId, text: string, freshId: FeedbackId, now: Timestamp)
      returns (status: Status)
      requires projects.Valid() && feedbacks.Valid() && users.Valid()
      requires IdUnused(feedbacks.feedbacks, freshId)
      modifies projects, feedbacks, mailer
      ensures projects.Valid() && feedbacks.Valid()
      ensures ApiStep(Stores(), status) == ApproveProjectEndpoint(old(Stores()), users.users, caller, pid, text, freshId, now)
    {
      if |text| > MaxFeedbackLength {
        return Failed(Unprocessable);
      }
      if caller.role != Customer {
        return Failed(Forbidden);
      }
      var svc := new ProjectReviewService(projects, feedbacks);
      var res := svc.Approve(pid, caller.id, text, freshId, now);
      if res.None? {
        return Failed(Conflict);
      }
      NotifyTranslator(pid, ApprovedSubject);
      status := NoContent;
    }

    /** `reject_project`; `freshId` stands for the feedback id the record generates. */
    method RejectProject(caller: User, pid: ProjectId, text: string, freshId: FeedbackId, now: Timestamp)
      returns (status: Status)
      requires projects.Valid() && feedbacks.Valid() && users.Valid()
      requires IdUnused(feedbacks.feedbacks, freshId)
      modifies projects, feedbacks, mailer
      ensures projects.Valid() && feedbacks.Valid()
      ensures ApiStep(Stores(), status) == RejectProjectEndpoint(old(Stores()), users.users, caller, pid, text, freshId, now)
    {
      if |text| < 1 || |text| > MaxFeedbackLength {
        return Failed(Unprocessable);
      }
      if caller.role != Customer {
        return Failed(Forbidden);
      }
      var svc := new ProjectReviewService(projects, feedbacks);
      var res := svc.Reject(pid, caller.id, text, freshId, now);
      if res.None? {
        return Failed(Conflict);
      }
      NotifyTranslator(pid, RejectedSubject);
      status := NoContent;
    }

    /** `admin_close_project` */
    method AdminCloseProject(caller: User, pid: ProjectId) returns (status: Status)
      requires projects.Valid() && users.Valid()
      modifies projects, mailer
      ensures projects.Valid()
      ensures ApiStep(Stores(), status) == AdminCloseProjectEndpoint(old(Stores()), users.users, caller, pid)
    {
      if caller.role != Administrator {
        return Failed(Forbidden);
      }
      var project := projects.GetById(pid);
      if project.None? {
        return Failed(NotFound);
      }
      projects.CloseProject(pid);
      var customer := users.GetById(project.value.customerId);
      var translator: Option<User> := None;
      if project.value.translatorId.Some? {
        translator := users.GetById(project.value.translatorId.value);
      }
      if customer.Some? {
        mailer.Send(customer.value.emailAddress, AdminClosedSubject);
      }
      if translator.Some? {
        mailer.Send(translator.value.emailAddress, AdminClosedSubject);
      }
      status := NoContent;
    }
  }
}
