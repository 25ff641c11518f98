# Translation-project lifecycle, modelled in Dafny

This project models the core of the PIAE translation service. Customers
upload a document for a target language. The service assigns it to the
least-loaded translator who has that language, or closes the project when
nobody does. The translator uploads the translation, and the customer then
approves it or rejects it with feedback.

The model covers:

- the record shapes and their defaults (`Domain`);
- the project table with its atomic "update if the record matches" writes
  (`ProjectStore`);
- the 1:1 feedback table with its id-preserving upsert (`FeedbackStore`);
- the translator-language capability table (`TranslatorLanguages`);
- least-loaded assignment (`Assignment`);
- the approve/reject workflow (`ProjectReview`);
- project creation (`ProjectCreation`);
- the guard logic of four HTTP endpoints (`ProjectsApi`);
- the login, registration and language forms of the web front end
  (`Forms`, `LanguageForms`).

The helper modules are:

- `Text`: Python's `strip`, `lower`, `isalpha`, `isalnum` and `isdigit`.
- `Collaborators`: the blob store, the mailer and the user table.

How the model is built:

- **Repositories and services are classes.** Their fields are the stored
  tables: a `map` keyed by id, or a `seq` of pairs in listing order.
- **Each state-changing method is tied to a pure function.** Its
  postcondition gives the new state, and what it returns, as a function of
  the old state, e.g. `ProjectStore.CloseIn` or
  `ProjectReview.ApproveIn`. The lifecycle properties are then proved as
  lemmas about those functions.
- **Orchestration returns a "step" value.** Creation, review and the
  endpoints return a datatype holding every store they write and the
  outcome. This makes the order of writes observable, e.g. that feedback
  is written even when the review is refused.
- **Refusals are values.** A refusal is a `Failure`, named after the HTTP
  status it is reported with. It is never a precondition.
- **Generated values are parameters.** The generated project and feedback
  ids, and the clock, are supplied by the caller; an id comes with a
  precondition that it is unused.

## Model

| member | source | states |
|---|---|---|
| Domain.NewProject | Backend/app/domain/models.py:77-105 | a new project is CREATED with no translator, translated file or feedback, and is refused unless its language code has exactly two characters |
| Domain.NewTranslatorLanguage | Backend/app/domain/models.py:49-58 | a capability pair is refused unless its language code has exactly two characters |
| Domain.NewFeedback | Backend/app/domain/models.py:61-74 | feedback without an explicit id takes the freshly generated one; the other fields are as given |
| Domain.NewUser | Backend/app/domain/models.py:21-46 | a new user has OTP disabled with no secret, and is built exactly when the e-mail check accepts the address and the password hash is not empty |
| Text.BlankIffAllSpace | Backend/app/services/project_review.py:87-88 | text is blank after stripping exactly when every character is whitespace |
| ProjectStore.AssignRaisesLoad | Backend/app/repositories/projects.py:77-88 | assigning a project that was not yet active for a translator to that translator, in a non-CLOSED state, raises the translator's active count by exactly one (a freshly created project, as in `assign_or_close`) |
| ProjectStore.AssignKeepsOtherLoads | Backend/app/repositories/projects.py:77-88 | the same assignment leaves unchanged the active count of every other translator the project was not active for |
| ProjectStore.ReassignReleasesPrevious | Backend/app/repositories/projects.py:77-88 | reassigning a project that was active for another translator lowers that translator's active count by exactly one |
| ProjectStore.CloseReleasesLoad | Backend/app/repositories/projects.py:90-96 | closing an active project lowers its translator's active count by exactly one |
| ProjectStore.InsertUnassignedKeepsLoads | Backend/app/repositories/projects.py:40-50 | inserting a project with no translator changes nobody's active count |
| ProjectStore.CloseIdempotent | Backend/app/repositories/projects.py:90-96 | closing twice is closing once |
| ProjectStore.SubmitIgnoresState | Backend/app/repositories/projects.py:140-155 | the repository-level submission has no state predicate: any matching project, even APPROVED or CLOSED, becomes COMPLETED with the new file |
| ProjectStore.ActiveAmongStep | Backend/app/repositories/projects.py:127-138 | counting one more project adds one exactly when it is assigned to the translator and not CLOSED |
| ProjectStore.ProjectRepository.Create | Backend/app/repositories/projects.py:40-50 | inserts the record; a duplicate id is refused and leaves the table unchanged |
| ProjectStore.ProjectRepository.GetById | Backend/app/repositories/projects.py:52-62 | returns the record stored under the id, or None exactly when there is none |
| ProjectStore.ProjectRepository.AssignTranslator | Backend/app/repositories/projects.py:77-88 | only `translator_id` and `state` of the record with that id change; other records and fields are unchanged |
| ProjectStore.ProjectRepository.CloseProject | Backend/app/repositories/projects.py:90-96 | sets state CLOSED whatever the state was; nothing else changes |
| ProjectStore.ProjectRepository.ListByTranslator | Backend/app/repositories/projects.py:98-113 | returns exactly the translator's stored projects, without CLOSED ones unless asked for, each once |
| ProjectStore.ProjectRepository.CountActiveByTranslatorIds | Backend/app/repositories/projects.py:115-138 | empty input gives an empty map; otherwise every requested id maps to its number of non-CLOSED projects, 0 when it has none |
| ProjectStore.ProjectRepository.SubmitTranslation | Backend/app/repositories/projects.py:140-155 | reports whether id and translator match; on a match sets the translated file and COMPLETED, otherwise changes nothing |
| ProjectStore.ProjectRepository.SetStateIfCustomer | Backend/app/repositories/projects.py:157-180 | changes only `state`, and only when id, customer and expected state all match; the result reports the match |
| ProjectStore.ProjectRepository.SetFeedbackAndStateIfCustomer | Backend/app/repositories/projects.py:182-207 | sets `state` and `feedback_id` under the same three-way match, and changes nothing otherwise |
| FeedbackStore.UpsertKeepsExistingId | Backend/app/repositories/feedback.py:68-70 | upserting over existing feedback keeps its id and takes the new text and timestamp |
| FeedbackStore.UpsertInsertsSupplied | Backend/app/repositories/feedback.py:72-76 | upserting with no existing feedback inserts the supplied record with the supplied id |
| FeedbackStore.UpsertTwice | Backend/app/repositories/feedback.py:68-77 | two upserts for one project leave one record with the first id and the second content |
| FeedbackStore.UpsertKeepsIndexes | Backend/app/repositories/feedback.py:31-39 | an accepted upsert keeps one feedback per project and distinct feedback ids |
| FeedbackStore.FeedbackRepository.GetByProjectId | Backend/app/repositories/feedback.py:41-51 | returns the project's feedback, or None exactly when there is none |
| FeedbackStore.FeedbackRepository.UpsertForProject | Backend/app/repositories/feedback.py:53-77 | stores and returns the supplied feedback carrying the existing id if any; afterwards the project's feedback holds the supplied text |
| TranslatorLanguages.TranslatorsForMembers | Backend/app/repositories/translator_languages.py:34-45 | a translator is listed for a code exactly when the pair with exactly that code is stored |
| TranslatorLanguages.LanguagesForMembers | Backend/app/repositories/translator_languages.py:47-58 | a code is listed for a translator exactly when that pair is stored |
| TranslatorLanguages.TranslatorsForNoDuplicates | Backend/app/repositories/translator_languages.py:13-15 | with unique pairs, no translator is listed twice for one language |
| TranslatorLanguages.AddPairFacts | Backend/app/repositories/translator_languages.py:60-70 | adding keeps the pairs unique and is idempotent; afterwards the translator is listed for the language, and the listing gains no one else |
| TranslatorLanguages.RemovePairExact | Backend/app/repositories/translator_languages.py:72-79 | deleting removes exactly that pair and keeps the rest, still unique |
| TranslatorLanguages.TranslatorLanguageRepository.ListTranslatorIdsForLanguage | Backend/app/repositories/translator_languages.py:34-45 | returns the translators of the pairs with exactly that code, in listing order |
| TranslatorLanguages.TranslatorLanguageRepository.ListLanguagesForTranslator | Backend/app/repositories/translator_languages.py:47-58 | returns that translator's codes, in listing order |
| TranslatorLanguages.TranslatorLanguageRepository.AddLanguage | Backend/app/repositories/translator_languages.py:60-70 | appends the pair unless it is already stored; afterwards the translator is listed for that code |
| TranslatorLanguages.TranslatorLanguageRepository.DeleteLanguage | Backend/app/repositories/translator_languages.py:72-79 | removes exactly that pair; afterwards the translator is not listed for that code |
| Collaborators.BlobStore.Upload | Backend/app/db/gridfs.py:24-43 | stores the file and returns a reference no earlier upload has |
| Collaborators.Mailer.Send | Backend/app/services/emailer.py:27-47 | appends one message to the outbox (a send never fails here; see Left out) |
| Collaborators.UserRepository.GetById | Backend/app/repositories/users.py:40-50 | returns the user stored under the id, or None exactly when there is none |
| Assignment.MinCount | Backend/app/services/assignment.py:53-59 | the smallest count among the candidates, a missing count being 0 |
| Assignment.FirstWithCount | Backend/app/services/assignment.py:55-59 | the first candidate position with a given count |
| Assignment.LeastLoadedIsFirstMinimum | Backend/app/services/assignment.py:55-59 | the first candidate whose count is minimal, in listing order, is the one chosen |
| Assignment.LeastLoadedSpec | Backend/app/services/assignment.py:46-61 | no choice exactly without candidates; otherwise the chosen candidate is listed, its count is at most every candidate's, and every earlier candidate's is larger |
| Assignment.LeastLoadedTieExample | Backend/tests/test_assignment_service.py:78-88 | counts 5, 1, 1 choose the second candidate |
| Assignment.MissingCountIsZeroExample | Backend/app/services/assignment.py:56 | a candidate absent from the count map counts as 0 |
| Assignment.PickLeastLoaded | Backend/app/services/assignment.py:53-61 | the selection loop, which replaces the best only on a strictly smaller count, returns the first least-loaded candidate |
| Assignment.BestTranslatorSpec | Backend/app/services/assignment.py:36-61 | the choice is None exactly when nobody has the language; otherwise a translator with the language whose active count is at most every such translator's, the first such in listing order |
| Assignment.AssignmentService.FindBestTranslatorId | Backend/app/services/assignment.py:36-61 | returns the least-loaded choice over the stored pairs and projects |
| Assignment.AssignmentService.AssignOrClose | Backend/app/services/assignment.py:63-92 | with no translator closes the project and returns None; otherwise assigns that translator in ASSIGNED and returns its id |
| ProjectReview.ReviewSucceedsExactlyOnMatch | Backend/app/services/project_review.py:57-74 | a review succeeds exactly when the caller owns the COMPLETED project; then only its state (to the target) and its feedback reference (to the stored feedback id) change |
| ProjectReview.FailedReviewKeepsProjects | Backend/app/services/project_review.py:67-68 | a refused review leaves every project record unchanged |
| ProjectReview.ReviewAlwaysWritesFeedback | Backend/app/services/project_review.py:57-68 | whatever the outcome, the project's feedback holds the text, keeping an existing id or taking the new one |
| ProjectReview.RefusedReviewOverwritesForeignFeedback | Backend/app/services/project_review.py:57-68 | a non-owner's refused approve still overwrites the owner's feedback text |
| ProjectReview.RejectBlankWritesNothing | Backend/app/services/project_review.py:87-88 | reject with empty or all-whitespace text returns None and writes nothing |
| ProjectReview.ApproveWithoutText | Backend/app/services/project_review.py:57-66 | approve with no text stores "" as feedback and succeeds on the caller's COMPLETED project |
| ProjectReview.RejectKeepsTranslator | Backend/app/services/project_review.py:93-107 | a successful reject returns the project to ASSIGNED with its translator and translated file kept |
| ProjectReview.ProjectReviewService.Approve | Backend/app/services/project_review.py:46-74 | the stores after approve, and its result, are those of the approve transition |
| ProjectReview.ProjectReviewService.Reject | Backend/app/services/project_review.py:76-107 | the stores after reject, and its result, are those of the reject transition |
| ProjectReview.ProjectReviewService.Review | Backend/app/services/project_review.py:57-68 | upsert first, then the conditional COMPLETED-to-target write |
| ProjectCreation.CreateRefusesNonCustomer | Backend/app/services/project_service.py:103-104 | a non-customer is refused (403) before any upload or write |
| ProjectCreation.CreateSizeLimit | Backend/app/services/project_service.py:106-108 | content over 5 MiB is refused (413) with nothing written, and content of exactly the limit passes |
| ProjectCreation.CreateUploadsFirst | Backend/app/services/project_service.py:110-125 | past the checks the file is uploaded first; the call then fails only when the lowered code is not two characters, and writes no project or mail |
| ProjectCreation.ChoiceIgnoresNewProject | Backend/app/services/project_service.py:124-138 | the unassigned new project changes no load, so the choice is the same as before the insert |
| ProjectCreation.CreateAcceptedStep | Backend/app/services/project_service.py:110-169 | an accepted call is the upload, the stored record, one notification and the result, step by step |
| ProjectCreation.CreateOutcome | Backend/app/services/project_service.py:116-169 | the only new record has the lowered code and the upload's reference; it is ASSIGNED to the chosen translator or CLOSED with none; the result is the stored record and the choice |
| ProjectCreation.CreateChoosesLeastLoaded | Backend/app/services/project_service.py:137-138 | the translator chosen at creation has the lowered language and the least load, or there is none exactly when nobody has the language |
| ProjectCreation.CreateRaisesChosenLoad | Backend/app/services/project_service.py:137-138 | creation raises the chosen translator's load by one and leaves all other loads unchanged |
| ProjectCreation.ProjectService.CreateProject | Backend/app/services/project_service.py:79-169 | the project table, files, outbox and result after the call are those of the creation transition |
| ProjectsApi.SubmitTranslationGuards | Backend/app/api/projects.py:317-364 | upload succeeds exactly for the assigned translator of an existing ASSIGNED or COMPLETED project within the size limit; it then stores the file, completes the project and notifies the customer; a refusal writes nothing |
| ProjectsApi.SubmitTranslationRefusals | Backend/app/api/projects.py:317-334 | the checks run in order: 403 for a non-translator, 404, 403 for another translator, 409 for the state, 413 for the size |
| ProjectsApi.StateGuardOnlyInEndpoint | Backend/app/api/projects.py:328-349 | on an APPROVED or CLOSED project the repository write alone would complete it again, while the endpoint answers 409 and writes nothing |
| ProjectsApi.ApproveProjectGuards | Backend/app/api/projects.py:415-468 | approve answers 204 exactly for a body of at most 2000 characters from the owner of the COMPLETED project, which becomes APPROVED; a body or role refusal writes nothing |
| ProjectsApi.RejectProjectGuards | Backend/app/api/projects.py:421-512 | reject answers 204 exactly for a non-blank body of 1 to 2000 characters from the owner of the COMPLETED project, which becomes ASSIGNED; a body, role or blank refusal writes nothing |
| ProjectsApi.ApproveConflictStillWritesFeedback | Backend/app/api/projects.py:449-451 | a 409 from approve leaves the projects unchanged but carries the feedback write |
| ProjectsApi.AdminCloseGuards | Backend/app/api/projects.py:647-690 | close answers 204 exactly for an administrator and an existing project; it then closes it, changes nothing else and notifies customer and translator |
| ProjectsApi.ProjectsEndpoints.SubmitTranslation | Backend/app/api/projects.py:295-364 | the stores and status after the handler are those of the upload transition |
| ProjectsApi.ProjectsEndpoints.NotifyTranslator | Backend/app/api/projects.py:453-466 | the translator of the re-read project is notified when there is one |
| ProjectsApi.ProjectsEndpoints.ApproveProject | Backend/app/api/projects.py:427-468 | the stores and status after the handler are those of the approve transition |
| ProjectsApi.ProjectsEndpoints.RejectProject | Backend/app/api/projects.py:471-512 | the stores and status after the handler are those of the reject transition |
| ProjectsApi.ProjectsEndpoints.AdminCloseProject | Backend/app/api/projects.py:647-690 | the stores and status after the handler are those of the close transition |
| Forms.CleanChar | Frontend/web/forms.py:31-51 | a text field's value is stripped; an empty value fails only a required field and skips the other checks; otherwise the field fails exactly when the minimum length, the maximum length or the ban on NUL characters is broken, and it reports each broken one |
| Forms.CleanChoice | Frontend/web/forms.py:22-29 | a choice field accepts exactly a non-empty value among its choices, unstripped, and otherwise reports it missing or not a choice |
| Forms.Tagged | Frontend/web/forms.py:22-51 | a failed field's errors are exactly its own problems, each on that field |
| Forms.WithFieldEffect | Frontend/web/forms.py:53-54 | a field's turn decides its own cleaned value and adds exactly its own problems as errors |
| Forms.WithErrorEffect | Frontend/web/forms.py:58 | adding an error removes the field's value and adds exactly that error |
| Forms.FormState.AddError | Frontend/web/forms.py:123 | appends the error and removes the field from the cleaned data |
| Forms.FormState.Record | Frontend/web/forms.py:53-54 | records one field's outcome as its value or its errors |
| Forms.LoginHeadEffect | Frontend/web/forms.py:17-36 | the method and username fields leave the method's value and no secret value or error |
| Forms.LoginPassEffect | Frontend/web/forms.py:17-51 | for any outcomes of the four login fields, the pass keeps each field's value and problems to itself and is clean exactly when no field reports a problem |
| Forms.LoginFieldsEffect | Frontend/web/forms.py:17-51 | after the login fields each holds its own outcome and carries exactly its own problems; the pass is clean exactly when all four fields pass |
| Forms.LoginCleanEffect | Frontend/web/forms.py:53-62 | the login hook adds no error exactly when the chosen method's secret is present |
| Forms.LoginCleanPasswordBranch | Frontend/web/forms.py:59-61 | with any method but "otp" the hook adds only the password-required error, exactly when the cleaned password is blank |
| Forms.LoginCleanOtpBranch | Frontend/web/forms.py:56-58 | with method "otp" the hook adds only the OTP-required error, exactly when the cleaned code is blank |
| Forms.LoginPassBranches | Frontend/web/forms.py:53-62 | after any field pass the chosen method's secret gets its error exactly when its cleaned value is blank, and the other secret gets none |
| Forms.LoginPassValid | Frontend/web/forms.py:7-62 | after any field pass the form is clean exactly when no field reports a problem and the chosen method's secret is not blank |
| Forms.OptionalValueBlank | Frontend/web/forms.py:38-62 | the cleaned value of an optional text field is blank exactly when the input is blank or the field refused it |
| Forms.LoginOtpBranch | Frontend/web/forms.py:45-58 | with method "otp" the OTP-required error is added exactly when the stripped code is not 4 to 12 characters or holds a NUL character, and no password error is |
| Forms.LoginPasswordBranch | Frontend/web/forms.py:38-61 | with any other method the password-required error is added exactly when the password is blank or holds a NUL character, and no OTP error is |
| Forms.LoginOtpLength | Frontend/web/forms.py:45-51 | the OTP field itself fails exactly on a non-empty stripped code that is outside 4 to 12 characters or holds a NUL character, and it names each of these reasons |
| Forms.LoginValidIff | Frontend/web/forms.py:7-62 | a login is valid exactly when the method is a choice, the username is not blank, any OTP has 4 to 12 characters, no text field holds a NUL character, and the chosen method's secret is present |
| Forms.LoginForm.Clean | Frontend/web/forms.py:53-62 | the form's errors after `clean` are those of the login hook |
| Forms.LoginForm.IsValid | Frontend/web/forms.py:7-62 | a fresh form is valid exactly when the login validation has no errors |
| Forms.CleanName | Frontend/web/forms.py:106-110 | a username passes exactly when it is alphanumeric, unchanged |
| Forms.CleanPassword | Frontend/web/forms.py:112-116 | a password passes exactly when it has a letter and a digit, unchanged |
| Forms.RegisterHeadEffect | Frontend/web/forms.py:76-92 | the name, e-mail and role fields leave only the name's own problems and no password value or error |
| Forms.RegisterPassEffect | Frontend/web/forms.py:76-104 | for any field outcomes, the registration pass gives the name, password and confirmation exactly their own values and problems |
| Forms.RegisterFieldsEffect | Frontend/web/forms.py:76-116 | the same for the registration form's own fields and hooks |
| Forms.RegisterCleanKeeps | Frontend/web/forms.py:118-124 | the registration hook touches only the confirmation's errors |
| Forms.NameOutcome | Frontend/web/forms.py:76-110 | the name with its hook fails exactly unless it is alphanumeric after stripping; a NUL character is the field's problem, and otherwise the hook's |
| Forms.RegisterPasswordRules | Frontend/web/forms.py:94-116 | the password gets an error exactly unless it has, after stripping, 8 characters, no NUL character, a letter and a digit; a NUL character is reported by the field, and a missing letter or digit by the hook |
| Forms.RegisterNameRule | Frontend/web/forms.py:76-110 | the username gets an error exactly unless it is alphanumeric after stripping; a NUL character is reported by the field, and any other non-alphanumeric name by the hook |
| Forms.RegisterMismatch | Frontend/web/forms.py:118-124 | the mismatch error is added exactly when both passwords passed their fields and differ |
| Forms.RegisterForm.Clean | Frontend/web/forms.py:118-124 | the form's errors after `clean` are those of the registration hook |
| Forms.RegisterForm.IsValid | Frontend/web/forms.py:65-124 | a fresh form is valid exactly when the registration validation has no errors |
| LanguageForms.CommonCodesAreLowerPairs | Frontend/web/language_forms.py:6-17 | the ten offered codes are two lower-case letters, unchanged by strip and lower |
| LanguageForms.AddCodeAccepts | Frontend/web/language_forms.py:20-30 | the add form accepts exactly the ten offered codes, and yields the stripped, lower-cased input, which is the input itself |
| LanguageForms.RemoveCodeAccepts | Frontend/web/language_forms.py:33-42 | the remove form accepts exactly input that strips to two letters, and yields it lower-cased as two lower-case letters |
| LanguageForms.RemoveCodeRefusals | Frontend/web/language_forms.py:36-42 | empty input is missing; a stripped length other than 2 fails the field's bound, together with any NUL character; two characters with a NUL character fail the field and never reach the hook; any other two characters that are not both letters fail the hook |
| LanguageForms.AddedCodeIsRemovable | Frontend/web/language_forms.py:20-42 | a code the add form yields passes the remove form unchanged |

## Left out

- Concurrency: every repository call is one atomic, sequential step. The
  409 after a successful upload in `submit_translation` can only happen
  under a race in the service. The model keeps that branch, but it cannot
  be reached sequentially.
- Asynchronous I/O, MongoDB, GridFS and SMTP: the stores are in-memory
  tables. An upload's reference is its position in the file list. A send
  appends a recipient and subject to an outbox; mail bodies are not modelled.
- Generated ids and the clock: uuid4 ids and `utc_now()` are parameters.
  A new project or feedback id comes with a precondition that it is unused.
- The ordering of listings by `created_at` is not modelled, and neither are
  the row limits of the listings: 200 rows for the project listings, and
  10000 rows (`to_list(length=10000)`) for both capability listings, the
  translators for a language and the languages of a translator
  (Backend/app/repositories/translator_languages.py:44,57). The model's
  `TranslatorsFor` and `LanguagesFor`, and so the assignment candidates,
  are unbounded. `list_by_customer` and `ensure_indexes` are not modelled; the
  indexes appear only as the repositories' invariants.
- ProjectCreation.CreateIn: a language code that is not two characters long
  fails record validation after the upload. The model reports this as
  `InvalidRecord` and keeps the orphaned upload; the server answers with an
  internal error.
- Text.Lower, Text.IsAlpha, Text.IsAlnum, Text.HasLetter, Text.HasDigit:
  ASCII letters and digits only. Python's Unicode letters and digits and its
  full case mapping are not modelled.
- Collaborators.Mailer.Send: a send always succeeds in the model. In the
  source an SMTP error is not caught by the mailer (Backend/app/services/emailer.py:45-47) nor by
  any caller, so the request fails with an internal error after the store
  writes before it have already been made. The lemmas that say an endpoint
  or creation answers success, and what it wrote, hold only when every send
  succeeds.
- Domain.NewUser: the `EmailStr` address syntax check is outside code; its
  verdict is the parameter `emailAccepted`, not computed.
- Forms.RegisterForm.IsValid: the e-mail field is checked as a required text
  field (stripped, non-empty, no NUL character) only; address syntax
  validation is not modelled.
- Form error messages and their translations are modelled as `Problem`
  kinds, not texts.
- Logging, password hashing, JWT, OTP, the other HTTP handlers, the Django
  views, the backend client and the configuration are not part of this
  model. `max_upload_mb` is the constant 5.
