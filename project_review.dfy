/** The customer review workflow (Backend/app/services/project_review.py):
    approve moves COMPLETED to APPROVED, reject moves COMPLETED back to
    ASSIGNED. Both upsert the project's feedback FIRST and only then try the
    conditional state change, so feedback is written even when the change is
    refused. */
module ProjectReview {
  import opened Domain
  import opened Text
  import opened ProjectStore
  import opened FeedbackStore

  datatype ReviewResult = ReviewResult(newState: ProjectState)

  /** The two tables after a review call, and what the call returned. */
  datatype ReviewStep = ReviewStep(projects: ProjectTable, feedbacks: FeedbackTable, result: Option<ReviewResult>)

  /** The mechanics both actions share: upsert the feedback, then move the
      project from COMPLETED to `target` under the (id, customer, state) match. */
  function ReviewIn(pt: ProjectTable, ft: FeedbackTable, pid: ProjectId, cid: UserId, text: string,
                    freshId: FeedbackId, now: Timestamp, target: ProjectState): ReviewStep
  {
    var supplied := NewFeedback(None, freshId, pid, text, now);
    var stored := Upserted(ft, supplied);
    var ft' := UpsertIn(ft, supplied);
    if CustomerMatches(pt, pid, cid, Completed) then
      ReviewStep(SetFeedbackAndStateIfCustomerIn(pt, pid, cid, Completed, target, stored.id), ft', Some(ReviewResult(target)))
    else
      ReviewStep(pt, ft', None)
  }

  /** Effect of `approve` (feedback text may be empty). */
  function ApproveIn(pt: ProjectTable, ft: FeedbackTable, pid: ProjectId, cid: UserId, text: string,
                     freshId: FeedbackId, now: Timestamp): ReviewStep
  {
    ReviewIn(pt, ft, pid, cid, text, freshId, now, Approved)
  }

  /** Effect of `reject`: blank text is refused before any store is touched. */
  function RejectIn(pt: ProjectTable, ft: FeedbackTable, pid: ProjectId, cid: UserId, text: string,
                    freshId: FeedbackId, now: Timestamp): ReviewStep
  {
    if IsBlank(text) then ReviewStep(pt, ft, None)
    else ReviewIn(pt, ft, pid, cid, text, freshId, now, Assigned)
  }

  /** A review succeeds exactly when the caller owns the project and it is
      COMPLETED; then only the project's state (to `target`) and its feedback
      reference (to the stored feedback's id) change. */
  lemma ReviewSucceedsExactlyOnMatch(pt: ProjectTable, ft: FeedbackTable, pid: ProjectId, cid: UserId, text: string,
                                     freshId: FeedbackId, now: Timestamp, target: ProjectState)
    ensures var st := ReviewIn(pt, ft, pid, cid, text, freshId, now, target);
            st.result.Some? <==> (pid in pt && pt[pid].customerId == cid && pt[pid].state == Completed)
    ensures var st := ReviewIn(pt, ft, pid, cid, text, freshId, now, target);
            st.result.Some? ==>
              && st.result.value.newState == target
              && st.projects == pt[pid := pt[pid].(state := target, feedbackId := Some(st.feedbacks[pid].id))]
  {
  }

  /** A refused review leaves every project record as it was: state,
      translator and files included. */
  lemma FailedReviewKeepsProjects(pt: ProjectTable, ft: FeedbackTable, pid: ProjectId, cid: UserId, text: string,
                                  freshId: FeedbackId, now: Timestamp, target: ProjectState)
    ensures var st := ReviewIn(pt, ft, pid, cid, text, freshId, now, target);
            st.result.None? ==> st.projects == pt
  {
  }

  /** The feedback is upserted whatever the outcome: after any review call
      with non-blank text, the project's feedback record holds that text and
      keeps the id it already had (the fresh id only when there was none). */
  lemma ReviewAlwaysWritesFeedback(pt: ProjectTable, ft: FeedbackTable, pid: ProjectId, cid: UserId, text: string,
                                   freshId: FeedbackId, now: Timestamp, target: ProjectState)
    ensures var st := ReviewIn(pt, ft, pid, cid, text, freshId, now, target);
            && pid in st.feedbacks
            && st.feedbacks[pid].text == text
            && st.feedbacks[pid].id == (if pid in ft then ft[pid].id else freshId)
            && st.feedbacks.Keys == ft.Keys + {pid}
  {
  }

  /** The ordering hazard made concrete: a customer who does not own a
      project is refused, yet the owner's feedback text is overwritten. */
  lemma RefusedReviewOverwritesForeignFeedback(pt: ProjectTable, ft: FeedbackTable, pid: ProjectId, intruder: UserId,
                                               text: string, freshId: FeedbackId, now: Timestamp)
    requires pid in pt && pt[pid].customerId != intruder
    requires pid in ft && ft[pid].text != text
    ensures var st := ApproveIn(pt, ft, pid, intruder, text, freshId, now);
            st.result.None? && st.projects == pt && st.feedbacks[pid].text == text && st.feedbacks != ft
  {
  }

  /** Reject with empty or all-whitespace text returns None and writes nothing. */
  lemma RejectBlankWritesNothing(pt: ProjectTable, ft: FeedbackTable, pid: ProjectId, cid: UserId, text: string,
                                 freshId: FeedbackId, now: Timestamp)
    requires forall i :: 0 <= i < |text| ==> IsSpace(text[i])
    ensures RejectIn(pt, ft, pid, cid, text, freshId, now) == ReviewStep(pt, ft, None)
  {
    BlankIffAllSpace(text);
  }

  /** Approve with no text stores an empty feedback text, and succeeds on a
      COMPLETED project of the caller with the new state APPROVED. */
  lemma ApproveWithoutText(pt: ProjectTable, ft: FeedbackTable, pid: ProjectId, cid: UserId,
                           freshId: FeedbackId, now: Timestamp)
    requires CustomerMatches(pt, pid, cid, Completed)
    ensures var st := ApproveIn(pt, ft, pid, cid, "", freshId, now);
            st.result == Some(ReviewResult(Approved)) && st.feedbacks[pid].text == ""
            && st.projects[pid].state == Approved && st.projects[pid].feedbackId == Some(st.feedbacks[pid].id)
  {
  }

  /** Rejecting sends the project back to ASSIGNED with its translator and
      translated file kept, so the translator can resubmit. */
  lemma RejectKeepsTranslator(pt: ProjectTable, ft: FeedbackTable, pid: ProjectId, cid: UserId, text: string,
                              freshId: FeedbackId, now: Timestamp)
    requires CustomerMatches(pt, pid, cid, Completed) && !IsBlank(text)
    ensures var st := RejectIn(pt, ft, pid, cid, text, freshId, now);
            && st.result == Some(ReviewResult(Assigned))
            && st.projects[pid].state == Assigned
            && st.projects[pid].translatorId == pt[pid].translatorId
            && st.projects[pid].translatedFileId == pt[pid].translatedFileId
  {
  }

  class ProjectReviewService {
    const projects: ProjectRepository
    const feedbacks: FeedbackRepository

    constructor (projects: ProjectRepository, feedbacks: FeedbackRepository)
      ensures this.projects == projects && this.feedbacks == feedbacks
    {
      this.projects := projects;
      this.feedbacks := feedbacks;
    }

    /** `approve`. The fresh id stands for the one the feedback record generates. */
    method Approve(pid: ProjectId, cid: UserId, text: string, freshId: FeedbackId, now: Timestamp)
      returns (r: Option<ReviewResult>)
      requires projects.Valid() && feedbacks.Valid()
      requires IdUnused(feedbacks.feedbacks, freshId)
      modifies projects, feedbacks
      ensures projects.Valid() && feedbacks.Valid()
      ensures ReviewStep(projects.projects, feedbacks.feedbacks, r)
              == ApproveIn(old(projects.projects), old(feedbacks.feedbacks), pid, cid, text, freshId, now)
    {
      r := Review(pid, cid, text, freshId, now, Approved);
    }

    /** `reject` */
    method Reject(pid: ProjectId, cid: UserId, text: string, freshId: FeedbackId, now: Timestamp)
      returns (r: Option<ReviewResult>)
      requires projects.Valid() && feedbacks.Valid()
      requires IdUnused(feedbacks.feedbacks, freshId)
      modifies projects, feedbacks
      ensures projects.Valid() && feedbacks.Valid()
      ensures ReviewStep(projects.projects, feedbacks.feedbacks, r)
              == RejectIn(old(projects.projects), old(feedbacks.feedbacks), pid, cid, text, freshId, now)
    {
      if IsBlank(text) {
        return None;
      }
      r := Review(pid, cid, text, freshId, now, Assigned);
    }

    /** The steps both actions share: upsert, then the conditional change. */
    method Review(pid: ProjectId, cid: UserId, text: string, freshId: FeedbackId, now: Timestamp,
                  target: ProjectState) returns (r: Option<ReviewResult>)
      requires projects.Valid() && feedbacks.Valid()
      requires IdUnused(feedbacks.feedbacks, freshId)
      modifies projects, feedbacks
      ensures projects.Valid() && feedbacks.Valid()
      ensures ReviewStep(projects.projects, feedbacks.feedbacks, r)
              == ReviewIn(old(projects.projects), old(feedbacks.feedbacks), pid, cid, text, freshId, now, target)
    {
      var fb := feedbacks.UpsertForProject(NewFeedback(None, freshId, pid, text, now));
      var ok := projects.SetFeedbackAndStateIfCustomer(pid, cid, Completed, target, fb.value.id);
      if !ok {
        return None;
      }
      r := Some(ReviewResult(target));
    }
  }
}
