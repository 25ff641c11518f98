/** Project creation (Backend/app/services/project_service.py): role check,
    size check, upload of the original file, insertion as CREATED with a
    lower-cased language code, assign-or-close, one notification, and the
    stored record read back as the result. */
module ProjectCreation {
  import opened Domain
  import opened Text
  import opened ProjectStore
  import opened TranslatorLanguages
  import opened Assignment
  import opened Collaborators

  /** `max_upload_mb` of the configuration, and the byte limit derived from it. */
  const MaxUploadMb: nat := 5
  const MaxUploadBytes: nat := MaxUploadMb * 1024 * 1024

  const AssignedSubject: string := "New translation project assigned"
  const ClosedSubject: string := "Project closed - no translator available"

  datatype CreateProjectResult = CreateProjectResult(project: Project, assignedTranslatorId: Option<UserId>)

  /** The stores `create_project` writes, after the call, and what it returned. */
  datatype CreateStep = CreateStep(projects: ProjectTable, files: seq<StoredFile>, outbox: seq<Mail>,
                                   result: Result<CreateProjectResult>)

  /** The original file as it is stored: empty filename and content type are
      replaced by their defaults. */
  function OriginalUpload(filename: string, contentType: string, content: seq<byte>): StoredFile {
    StoredFile(OrDefault(filename, "upload.bin"), content, OrDefault(contentType, "application/octet-stream"))
  }

  /** The notification after assign-or-close: the chosen translator, or the
      customer when the project was closed. */
  function CreationMail(users: map<UserId, User>, customer: User, tid: Option<UserId>): seq<Mail> {
    if tid.Some? then MailTo(users, tid.value, AssignedSubject) else MailTo(users, customer.id, ClosedSubject)
  }

  /** Effect of `create_project`; `newId` stands for the generated project id. */
  function CreateIn(pt: ProjectTable, pairs: seq<TranslatorLanguage>, users: map<UserId, User>,
                    files: seq<StoredFile>, outbox: seq<Mail>, customer: User, code: string,
                    filename: string, contentType: string, content: seq<byte>,
                    newId: ProjectId, now: Timestamp): CreateStep
    requires newId !in pt
  {
    if customer.role != Customer then CreateStep(pt, files, outbox, Err(Forbidden))
    else if |content| > MaxUploadBytes then CreateStep(pt, files, outbox, Err(PayloadTooLarge))
    else
      var files' := files + [OriginalUpload(filename, contentType, content)];
      var lowered := Lower(code);
      match NewProject(newId, customer.id, lowered, |files|, now)
      case None => CreateStep(pt, files', outbox, Err(InvalidRecord))
      case Some(p) =>
        var inserted := pt[newId := p];
        var tid := BestTranslator(inserted, pairs, lowered);
        var pt' := if tid.Some? then AssignTranslatorIn(inserted, newId, tid.value, Assigned) else CloseIn(inserted, newId);
        CreateStep(pt', files', outbox + CreationMail(users, customer, tid), Ok(CreateProjectResult(pt'[newId], tid)))
  }

  /** A caller who is not a customer is refused before any upload or write. */
  lemma CreateRefusesNonCustomer(pt: ProjectTable, pairs: seq<TranslatorLanguage>, users: map<UserId, User>,
                                 files: seq<StoredFile>, outbox: seq<Mail>, customer: User, code: string,
                                 filename: string, contentType: string, content: seq<byte>,
                                 newId: ProjectId, now: Timestamp)
    requires newId !in pt && customer.role != Customer
    ensures CreateIn(pt, pairs, users, files, outbox, customer, code, filename, contentType, content, newId, now)
            == CreateStep(pt, files, outbox, Err(Forbidden))
  {
  }

  /** Content over the limit is refused before any upload or write; content of
      exactly the limit passes the size check. */
  lemma CreateSizeLimit(pt: ProjectTable, pairs: seq<TranslatorLanguage>, users: map<UserId, User>,
                        files: seq<StoredFile>, outbox: seq<Mail>, customer: User, code: string,
                        filename: string, contentType: string, content: seq<byte>,
                        newId: ProjectId, now: Timestamp)
    requires newId !in pt && customer.role == Customer
    ensures var st := CreateIn(pt, pairs, users, files, outbox, customer, code, filename, contentType, content, newId, now);
            |content| > 5 * 1024 * 1024 <==> st == CreateStep(pt, files, outbox, Err(PayloadTooLarge))
  {
  }

  /** Past both checks the file is uploaded first, whatever happens next; the
      call fails only when the lower-cased code is not two characters long,
      and then the project table and the outbox are untouched (the upload
      stays behind). */
  lemma CreateUploadsFirst(pt: ProjectTable, pairs: seq<TranslatorLanguage>, users: map<UserId, User>,
                           files: seq<StoredFile>, outbox: seq<Mail>, customer: User, code: string,
                           filename: string, contentType: string, content: seq<byte>,
                           newId: ProjectId, now: Timestamp)
    requires newId !in pt && customer.role == Customer && |content| <= MaxUploadBytes
    ensures var st := CreateIn(pt, pairs, users, files, outbox, customer, code, filename, contentType, content, newId, now);
            && |st.files| == |files| + 1 && st.files[..|files|] == files
            && st.files[|files|].data == content
            && (filename != [] ==> st.files[|files|].filename == filename)
            && (st.result.Err? <==> |code| != 2)
            && (st.result.Err? ==> st.projects == pt && st.outbox == outbox && st.result.failure == InvalidRecord)
  {
  }

  /** A new project adds no load to anybody, so the choice made after the
      insertion is the choice the table before it gives. */
  lemma ChoiceIgnoresNewProject(pt: ProjectTable, p: Project, pairs: seq<TranslatorLanguage>, code: string)
    requires p.id !in pt && p.translatorId.None?
    ensures BestTranslator(pt[p.id := p], pairs, code) == BestTranslator(pt, pairs, code)
  {
    var cands := TranslatorsFor(pairs, code);
    forall u | u in cands
      ensures ActiveCount(pt[p.id := p], u) == ActiveCount(pt, u)
    {
      InsertUnassignedKeepsLoads(pt, p, u);
    }
    assert LoadMap(pt[p.id := p], cands) == LoadMap(pt, cands);
  }

  /** The record an accepted call stores: built from the inputs with the
      lower-cased code and the upload's reference, carrying the choice. */
  function StoredProject(customer: User, code: string, fileRef: FileRef, newId: ProjectId, now: Timestamp,
                         tid: Option<UserId>): Project {
    Project(newId, customer.id, tid, Lower(code), fileRef, None, if tid.Some? then Assigned else Closed, now, None)
  }

  /** The table an accepted call leaves: the new record inserted, then
      assigned to the choice made on that table, or closed. */
  function AcceptedTable(pt: ProjectTable, p: Project, tid: Option<UserId>): ProjectTable {
    var inserted := pt[p.id := p];
    if tid.Some? then AssignTranslatorIn(inserted, p.id, tid.value, Assigned) else CloseIn(inserted, p.id)
  }

  /** Inserting the CREATED record and then assigning or closing it stores
      the record `StoredProject` describes. */
  lemma AcceptedTableStores(pt: ProjectTable, customer: User, code: string, fileRef: FileRef,
                            newId: ProjectId, now: Timestamp, tid: Option<UserId>)
    ensures AcceptedTable(pt, Project(newId, customer.id, None, Lower(code), fileRef, None, Created, now, None), tid)
            == pt[newId := StoredProject(customer, code, fileRef, newId, now, tid)]
  {
  }

  /** The accepted call unfolded, with the choice still made on the table
      that holds the new record. */
  lemma CreateAcceptedUnfold(pt: ProjectTable, pairs: seq<TranslatorLanguage>, users: map<UserId, User>,
                             files: seq<StoredFile>, outbox: seq<Mail>, customer: User, code: string,
                             filename: string, contentType: string, content: seq<byte>,
                             newId: ProjectId, now: Timestamp)
    requires newId !in pt && customer.role == Customer && |content| <= MaxUploadBytes && |code| == 2
    ensures var p := Project(newId, customer.id, None, Lower(code), |files|, None, Created, now, None);
            var tid := BestTranslator(pt[newId := p], pairs, Lower(code));
            var pt' := AcceptedTable(pt, p, tid);
            CreateIn(pt, pairs, users, files, outbox, customer, code, filename, contentType, content, newId, now)
            == CreateStep(pt', files + [OriginalUpload(filename, contentType, content)],
                          outbox + CreationMail(users, customer, tid), Ok(CreateProjectResult(pt'[newId], tid)))
  {
    var p := Project(newId, customer.id, None, Lower(code), |files|, None, Created, now, None);
    assert NewProject(newId, customer.id, Lower(code), |files|, now) == Some(p);
  }

  /** The accepted call step by step, with the choice made on the table
      before the insertion. */
  lemma CreateAcceptedStep(pt: ProjectTable, pairs: seq<TranslatorLanguage>, users: map<UserId, User>,
                           files: seq<StoredFile>, outbox: seq<Mail>, customer: User, code: string,
                           filename: string, contentType: string, content: seq<byte>,
                           newId: ProjectId, now: Timestamp)
    requires newId !in pt && customer.role == Customer && |content| <= MaxUploadBytes && |code| == 2
    ensures var tid := BestTranslator(pt, pairs, Lower(code));
            var stored := StoredProject(customer, code, |files|, newId, now, tid);
            CreateIn(pt, pairs, users, files, outbox, customer, code, filename, contentType, content, newId, now)
            == CreateStep(pt[newId := stored], files + [OriginalUpload(filename, contentType, content)],
                          outbox + CreationMail(users, customer, tid), Ok(CreateProjectResult(stored, tid)))
  {
    var p := Project(newId, customer.id, None, Lower(code), |files|, None, Created, now, None);
    CreateAcceptedUnfold(pt, pairs, users, files, outbox, customer, code, filename, contentType, content, newId, now);
    ChoiceIgnoresNewProject(pt, p, pairs, Lower(code));
    AcceptedTableStores(pt, customer, code, |files|, newId, now, BestTranslator(pt, pairs, Lower(code)));
  }

  /** The accepted call in terms of the assignment's choice: the stored
      record is the only one added to the table, built from the inputs with
      the lower-cased code and the upload's reference; it is ASSIGNED to the
      chosen translator, or CLOSED with no translator when there is none. The
      result is that stored record (never the CREATED snapshot) together with
      the choice, and exactly one lookup-based notification is queued. */
  lemma CreateOutcome(pt: ProjectTable, pairs: seq<TranslatorLanguage>, users: map<UserId, User>,
                      files: seq<StoredFile>, outbox: seq<Mail>, customer: User, code: string,
                      filename: string, contentType: string, content: seq<byte>,
                      newId: ProjectId, now: Timestamp)
    requires newId !in pt && customer.role == Customer && |content| <= MaxUploadBytes && |code| == 2
    ensures var st := CreateIn(pt, pairs, users, files, outbox, customer, code, filename, contentType, content, newId, now);
            && st.result.Ok?
            && var r := st.result.value;
            && r.assignedTranslatorId == BestTranslator(pt, pairs, Lower(code))
            && st.projects == pt[newId := r.project]
            && r.project.id == newId && r.project.customerId == customer.id
            && r.project.languageCode == Lower(code) && r.project.originalFileId == |files|
            && r.project.translatorId == r.assignedTranslatorId
            && r.project.state == (if r.assignedTranslatorId.Some? then Assigned else Closed)
            && r.project.translatedFileId.None? && r.project.feedbackId.None? && r.project.createdAt == now
            && st.outbox == outbox + CreationMail(users, customer, r.assignedTranslatorId)
  {
    CreateAcceptedStep(pt, pairs, users, files, outbox, customer, code, filename, contentType, content, newId, now);
  }

  /** The choice made at creation: a translator of the lower-cased language
      whose load is at most every such translator's, or none exactly when
      nobody has that language. */
  lemma CreateChoosesLeastLoaded(pt: ProjectTable, pairs: seq<TranslatorLanguage>, users: map<UserId, User>,
                                 files: seq<StoredFile>, outbox: seq<Mail>, customer: User, code: string,
                                 filename: string, contentType: string, content: seq<byte>,
                                 newId: ProjectId, now: Timestamp)
    requires newId !in pt && customer.role == Customer && |content| <= MaxUploadBytes && |code| == 2
    ensures var st := CreateIn(pt, pairs, users, files, outbox, customer, code, filename, contentType, content, newId, now);
            && st.result.Ok?
            && var tid := st.result.value.assignedTranslatorId;
            && (tid.None? <==> forall u :: TranslatorLanguage(u, Lower(code)) !in pairs)
            && (tid.Some? ==>
                  && TranslatorLanguage(tid.value, Lower(code)) in pairs
                  && forall u :: TranslatorLanguage(u, Lower(code)) in pairs ==>
                       ActiveCount(pt, tid.value) <= ActiveCount(pt, u))
  {
    CreateOutcome(pt, pairs, users, files, outbox, customer, code, filename, contentType, content, newId, now);
    BestTranslatorSpec(pt, pairs, Lower(code));
    var tid := BestTranslator(pt, pairs, Lower(code));
    if tid.None? {
      forall u ensures TranslatorLanguage(u, Lower(code)) !in pairs {
        TranslatorsForMembers(pairs, Lower(code), u);
      }
    }
  }

  /** Assignment at creation raises the chosen translator's load by one and
      leaves every other translator's load as it was. */
  lemma CreateRaisesChosenLoad(pt: ProjectTable, pairs: seq<TranslatorLanguage>, users: map<UserId, User>,
                               files: seq<StoredFile>, outbox: seq<Mail>, customer: User, code: string,
                               filename: string, contentType: string, content: seq<byte>,
                               newId: ProjectId, now: Timestamp, other: UserId)
    requires newId !in pt && customer.role == Customer && |content| <= MaxUploadBytes && |code| == 2
    ensures var st := CreateIn(pt, pairs, users, files, outbox, customer, code, filename, contentType, content, newId, now);
            st.result.Ok? && st.result.value.assignedTranslatorId.Some? ==>
              var tid := st.result.value.assignedTranslatorId.value;
              && ActiveCount(st.projects, tid) == ActiveCount(pt, tid) + 1
              && (other != tid ==> ActiveCount(st.projects, other) == ActiveCount(pt, other))
  {
    var p := NewProject(newId, customer.id, Lower(code), |files|, now).value;
    var inserted := pt[newId := p];
    var tid := BestTranslator(inserted, pairs, Lower(code));
    if tid.Some? {
      InsertUnassignedKeepsLoads(pt, p, tid.value);
      AssignRaisesLoad(inserted, newId, tid.value, Assigned);
      if other != tid.value {
        InsertUnassignedKeepsLoads(pt, p, other);
        AssignKeepsOtherLoads(inserted, newId, tid.value, Assigned, other);
      }
    }
  }

  class ProjectService {
    const projects: ProjectRepository
    const languages: TranslatorLanguageRepository
    const users: UserRepository
    const blobs: BlobStore
    const mailer: Mailer

    constructor (projects: ProjectRepository, languages: TranslatorLanguageRepository, users: UserRepository,
                 blobs: BlobStore, mailer: Mailer)
      ensures this.projects == projects && this.languages == languages && this.users == users
      ensures this.blobs == blobs && this.mailer == mailer
    {
      this.projects := projects;
      this.languages := languages;
      this.users := users;
      this.blobs := blobs;
      this.mailer := mailer;
    }

    /** `create_project`; `newId` stands for the generated project id. */
    method CreateProject(customer: User, code: string, filename: string, contentType: string,
                         content: seq<byte>, newId: ProjectId, now: Timestamp)
      returns (r: Result<CreateProjectResult>)
      requires projects.Valid() && languages.Valid() && users.Valid()
      requires newId !in projects.projects
      modifies projects, blobs, mailer
      ensures projects.Valid()
      ensures CreateStep(projects.projects, blobs.files, mailer.outbox, r)
              == CreateIn(old(projects.projects), languages.pairs, users.users, old(blobs.files), old(mailer.outbox),
                          customer, code, filename, contentType, content, newId, now)
    {
      if customer.role != Customer {
        return Err(Forbidden);
      }
      if |content| > MaxUploadBytes {
        return Err(PayloadTooLarge);
      }
      var upload := OriginalUpload(filename, contentType, content);
      var fileId := blobs.Upload(upload.filename, upload.data, upload.contentType);
      var project := NewProject(newId, customer.id, Lower(code), fileId, now);
      if project.None? {
        return Err(InvalidRecord);
      }
      CreateAcceptedUnfold(old(projects.projects), languages.pairs, users.users, old(blobs.files), old(mailer.outbox),
                           customer, code, filename, contentType, content, newId, now);
      var created := projects.Create(project.value);
      var assignment := new AssignmentService(projects, languages);
      var tid := assignment.AssignOrClose(newId, project.value.languageCode);
      if tid.Some? {
        var translator := users.GetById(tid.value);
        if translator.Some? {
          mailer.Send(translator.value.emailAddress, AssignedSubject);
        }
      } else {
        var refreshed := users.GetById(customer.id);
        if refreshed.Some? {
          mailer.Send(refreshed.value.emailAddress, ClosedSubject);
        }
      }
      var stored := projects.GetById(newId);
      r := Ok(CreateProjectResult(stored.value, tid));
    }
  }
}
