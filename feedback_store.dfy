/** The feedback table (Backend/app/repositories/feedback.py): at most one
    record per project, enforced by a unique index on `project_id`, and ids
    unique by a second unique index. */
module FeedbackStore {
  import opened Domain

  /** Keyed by project id: the 1:1 relation is the shape of the table. */
  type FeedbackTable = map<ProjectId, Feedback>

  ghost predicate WellKeyed(t: FeedbackTable) {
    forall pid :: pid in t ==> t[pid].projectId == pid
  }

  /** The unique index on `id`. */
  ghost predicate IdsDistinct(t: FeedbackTable) {
    forall p, q :: p in t && q in t && p != q ==> t[p].id != t[q].id
  }

  predicate IdUnused(t: FeedbackTable, id: FeedbackId) {
    forall pid :: pid in t ==> t[pid].id != id
  }

  /** An upsert is refused only when it would insert a record whose id is
      already taken (the unique index on `id` rejects it). */
  predicate UpsertAccepted(t: FeedbackTable, fb: Feedback) {
    fb.projectId in t || IdUnused(t, fb.id)
  }

  /** The record `upsert_for_project` stores and returns: the supplied one,
      carrying the existing record's id when there is one. */
  function Upserted(t: FeedbackTable, fb: Feedback): Feedback {
    if fb.projectId in t then fb.(id := t[fb.projectId].id) else fb
  }

  /** Effect of `upsert_for_project` on the table. */
  function UpsertIn(t: FeedbackTable, fb: Feedback): FeedbackTable {
    t[fb.projectId := Upserted(t, fb)]
  }

  /** Upserting over an existing record keeps its id and takes the new content. */
  lemma UpsertKeepsExistingId(t: FeedbackTable, fb: Feedback)
    requires fb.projectId in t
    ensures UpsertIn(t, fb)[fb.projectId].id == t[fb.projectId].id
    ensures UpsertIn(t, fb)[fb.projectId].text == fb.text
    ensures UpsertIn(t, fb)[fb.projectId].createdAt == fb.createdAt
  {
  }

  /** Upserting with no existing record inserts the supplied record as it is. */
  lemma UpsertInsertsSupplied(t: FeedbackTable, fb: Feedback)
    requires fb.projectId !in t
    ensures UpsertIn(t, fb)[fb.projectId] == fb
    ensures UpsertIn(t, fb).Keys == t.Keys + {fb.projectId}
  {
  }

  /** Two upserts for one project leave one record, with the first id and the second content. */
  lemma UpsertTwice(t: FeedbackTable, first: Feedback, second: Feedback)
    requires first.projectId == second.projectId
    ensures var t2 := UpsertIn(UpsertIn(t, first), second);
            t2.Keys == t.Keys + {first.projectId}
            && t2[first.projectId] == second.(id := Upserted(t, first).id)
  {
  }

  /** An accepted upsert keeps both unique indexes satisfied. */
  lemma UpsertKeepsIndexes(t: FeedbackTable, fb: Feedback)
    requires WellKeyed(t) && IdsDistinct(t) && UpsertAccepted(t, fb)
    ensures WellKeyed(UpsertIn(t, fb)) && IdsDistinct(UpsertIn(t, fb))
  {
    var t' := UpsertIn(t, fb);
    forall p, q | p in t' && q in t' && p != q
      ensures t'[p].id != t'[q].id
    {
      if p == fb.projectId || q == fb.projectId {
        var other := if p == fb.projectId then q else p;
        assert other in t && t'[other] == t[other];
      }
    }
  }

  class FeedbackRepository {
    var feedbacks: FeedbackTable

    ghost predicate Valid()
      reads this
    {
      WellKeyed(feedbacks) && IdsDistinct(feedbacks)
    }

    constructor ()
      ensures Valid() && feedbacks == map[]
    {
      feedbacks := map[];
    }

    /** `get_by_project_id` */
    method GetByProjectId(pid: ProjectId) returns (r: Option<Feedback>)
      requires Valid()
      ensures r.Some? <==> pid in feedbacks
      ensures r.Some? ==> r.value == feedbacks[pid] && r.value.projectId == pid
    {
      r := if pid in feedbacks then Some(feedbacks[pid]) else None;
    }

    /** `upsert_for_project`: read the existing record, then overwrite it
        keeping its id, or insert. None models the duplicate-id refusal. */
    method UpsertForProject(fb: Feedback) returns (r: Option<Feedback>)
      requires Valid()
      modifies this
      ensures Valid()
      ensures r.Some? <==> UpsertAccepted(old(feedbacks), fb)
      ensures r.Some? ==> r.value == Upserted(old(feedbacks), fb) && feedbacks == UpsertIn(old(feedbacks), fb)
      ensures r.Some? ==> feedbacks[fb.projectId] == r.value && r.value.text == fb.text
      ensures r.None? ==> feedbacks == old(feedbacks)
    {
      var existing := GetByProjectId(fb.projectId);
      var stored := fb;
      if existing.Some? {
        stored := fb.(id := existing.value.id);
      } else if !IdUnused(feedbacks, fb.id) {
        return None;
      }
      UpsertKeepsIndexes(feedbacks, fb);
      feedbacks := feedbacks[fb.projectId := stored];
      r := Some(stored);
    }
  }
}
