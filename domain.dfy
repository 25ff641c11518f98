/** Record shapes of the translation-project domain, their defaults and the
    length constraints the record validation enforces (Backend/app/domain). */
module Domain {

  /** Identifiers. The system uses UUIDs (and GridFS object ids for files);
      only equality matters, so they are modelled as naturals. */
  type UserId = nat
  type ProjectId = nat
  type FeedbackId = nat
  type FileRef = nat

  /** An opaque clock reading; only stored, never compared. */
  type Timestamp = nat

  datatype Option<+T> = None | Some(value: T)

  /** Why an operation was refused, named after the HTTP status it is
      reported with: 403, 404, 409, 413, 422, and a record that fails
      validation inside a service (reported as a server error). */
  datatype Failure = Forbidden | NotFound | Conflict | PayloadTooLarge | Unprocessable | InvalidRecord

  datatype Result<+T> = Ok(value: T) | Err(failure: Failure)

  datatype Role = Customer | Translator | Administrator

  /** The project state machine's states. */
  datatype ProjectState = Created | Assigned | Completed | Approved | Closed

  datatype User = User(
    id: UserId,
    name: string,
    emailAddress: string,
    role: Role,
    passwordHash: string,
    otpEnabled: bool,
    otpSecret: Option<string>)

  /** A (translator, language) capability pair. */
  datatype TranslatorLanguage = TranslatorLanguage(translatorId: UserId, languageCode: string)

  /** Customer feedback, 1:1 with a project. */
  datatype Feedback = Feedback(id: FeedbackId, projectId: ProjectId, text: string, createdAt: Timestamp)

  datatype Project = Project(
    id: ProjectId,
    customerId: UserId,
    translatorId: Option<UserId>,
    languageCode: string,
    originalFileId: FileRef,
    translatedFileId: Option<FileRef>,
    state: ProjectState,
    createdAt: Timestamp,
    feedbackId: Option<FeedbackId>)

  /** The ISO 639-1 field constraint: exactly two characters. */
  predicate IsLanguageCodeLength(code: string) {
    |code| == 2
  }

  /** Builds a project record the way the record validation does: the fields
      left unset take their defaults, and a language code that is not exactly
      two characters long is refused. */
  function NewProject(id: ProjectId, customerId: UserId, languageCode: string,
                      originalFileId: FileRef, createdAt: Timestamp): (r: Option<Project>)
    ensures r.Some? <==> IsLanguageCodeLength(languageCode)
    ensures r.Some? ==> r.value.id == id && r.value.customerId == customerId
                        && r.value.languageCode == languageCode
                        && r.value.originalFileId == originalFileId
                        && r.value.createdAt == createdAt
    ensures r.Some? ==> r.value.state == Created
    ensures r.Some? ==> r.value.translatorId.None? && r.value.translatedFileId.None?
                        && r.value.feedbackId.None?
  {
    if IsLanguageCodeLength(languageCode) then
      Some(Project(id, customerId, None, languageCode, originalFileId, None, Created, createdAt, None))
    else
      None
  }

  /** Builds a capability pair; its language code must be exactly two characters. */
  function NewTranslatorLanguage(translatorId: UserId, languageCode: string): (r: Option<TranslatorLanguage>)
    ensures r.Some? <==> IsLanguageCodeLength(languageCode)
    ensures r.Some? ==> r.value.translatorId == translatorId && r.value.languageCode == languageCode
  {
    if IsLanguageCodeLength(languageCode) then Some(TranslatorLanguage(translatorId, languageCode)) else None
  }

  /** Builds a feedback record; without an explicit id it takes the freshly
      generated one. */
  function NewFeedback(id: Option<FeedbackId>, generated: FeedbackId, projectId: ProjectId,
                       text: string, createdAt: Timestamp): (r: Feedback)
    ensures id.None? ==> r.id == generated
    ensures id.Some? ==> r.id == id.value
    ensures r.projectId == projectId && r.text == text && r.createdAt == createdAt
  {
    Feedback(if id.Some? then id.value else generated, projectId, text, createdAt)
  }

  /** Builds a user record: OTP is off and has no secret by default; the
      address must pass the e-mail syntax check, whose verdict is given as
      `emailAccepted`, and the password hash must not be empty. */
  function NewUser(id: UserId, name: string, emailAddress: string, emailAccepted: bool, role: Role,
                   passwordHash: string): (r: Option<User>)
    ensures r.Some? <==> emailAccepted && |passwordHash| >= 1
    ensures r.Some? ==> !r.value.otpEnabled && r.value.otpSecret.None?
    ensures r.Some? ==> r.value.id == id && r.value.role == role && r.value.passwordHash == passwordHash
                        && r.value.name == name && r.value.emailAddress == emailAddress
  {
    if emailAccepted && |passwordHash| >= 1 then Some(User(id, name, emailAddress, role, passwordHash, false, None))
    else None
  }
}
