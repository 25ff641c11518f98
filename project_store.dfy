/** The project table (Backend/app/repositories/projects.py): every write is
    one atomic "update the record if it matches" on the table. The pure
    functions below give each write's effect on the table; the class methods
    are tied to them, and the lemmas state what the writes promise. */
module ProjectStore {
  import opened Domain

  type ProjectTable = map<ProjectId, Project>

  /** The unique index on `id`: each record is stored under its own id. */
  ghost predicate WellKeyed(t: ProjectTable) {
    forall pid :: pid in t ==> t[pid].id == pid
  }

  /** Effect of `assign_translator`: set translator and state on the record with that id. */
  function AssignTranslatorIn(t: ProjectTable, pid: ProjectId, tid: UserId, state: ProjectState): ProjectTable {
    if pid in t then t[pid := t[pid].(translatorId := Some(tid), state := state)] else t
  }

  /** Effect of `close_project`: state CLOSED, whatever the state was. */
  function CloseIn(t: ProjectTable, pid: ProjectId): ProjectTable {
    if pid in t then t[pid := t[pid].(state := Closed)] else t
  }

  /** The match filter of `submit_translation`: id and translator, nothing about the state. */
  predicate SubmitMatches(t: ProjectTable, pid: ProjectId, tid: UserId) {
    pid in t && t[pid].translatorId == Some(tid)
  }

  /** Effect of `submit_translation`. */
  function SubmitTranslationIn(t: ProjectTable, pid: ProjectId, tid: UserId, file: FileRef): ProjectTable {
    if SubmitMatches(t, pid, tid) then t[pid := t[pid].(translatedFileId := Some(file), state := Completed)] else t
  }

  /** The three-way match filter of the customer-conditional writes. */
  predicate CustomerMatches(t: ProjectTable, pid: ProjectId, cid: UserId, expected: ProjectState) {
    pid in t && t[pid].customerId == cid && t[pid].state == expected
  }

  /** Effect of `set_state_if_customer`. */
  function SetStateIfCustomerIn(t: ProjectTable, pid: ProjectId, cid: UserId,
                                expected: ProjectState, newState: ProjectState): ProjectTable {
    if CustomerMatches(t, pid, cid, expected) then t[pid := t[pid].(state := newState)] else t
  }

  /** Effect of `set_feedback_and_state_if_customer`. */
  function SetFeedbackAndStateIfCustomerIn(t: ProjectTable, pid: ProjectId, cid: UserId, expected: ProjectState,
                                           newState: ProjectState, fid: FeedbackId): ProjectTable {
    if CustomerMatches(t, pid, cid, expected) then t[pid := t[pid].(state := newState, feedbackId := Some(fid))] else t
  }

  /** A project counts toward a translator's load while it is assigned to them and not CLOSED. */
  predicate IsActiveFor(p: Project, tid: UserId) {
    p.translatorId == Some(tid) && p.state != Closed
  }

  /** The active projects of `tid` among the ids in `keys`. */
  function ActiveAmong(t: ProjectTable, keys: set<ProjectId>, tid: UserId): set<ProjectId> {
    set pid | pid in keys && pid in t && IsActiveFor(t[pid], tid)
  }

  /** A translator's load: the number of their non-CLOSED projects. */
  function ActiveCount(t: ProjectTable, tid: UserId): nat {
    |ActiveAmong(t, t.Keys, tid)|
  }

  /** The filter of `list_by_translator`. */
  predicate ListedFor(p: Project, tid: UserId, includeClosed: bool) {
    p.translatorId == Some(tid) && (includeClosed || p.state != Closed)
  }

  /** Taking one more project into a count adds one exactly when it is active for `tid`. */
  lemma ActiveAmongStep(t: ProjectTable, done: set<ProjectId>, pid: ProjectId, tid: UserId)
    requires pid in t && pid !in done
    ensures |ActiveAmong(t, done + {pid}, tid)| == |ActiveAmong(t, done, tid)| + (if IsActiveFor(t[pid], tid) then 1 else 0)
  {
    if IsActiveFor(t[pid], tid) {
      assert ActiveAmong(t, done + {pid}, tid) == ActiveAmong(t, done, tid) + {pid};
    } else {
      assert ActiveAmong(t, done + {pid}, tid) == ActiveAmong(t, done, tid);
    }
  }

  /** One step of the counting loop: the count of the project's translator
      goes up by one when the project is active and that translator was asked for. */
  function Bump(counts: map<UserId, nat>, p: Project): map<UserId, nat> {
    if p.state != Closed && p.translatorId.Some? && p.translatorId.value in counts
    then counts[p.translatorId.value := counts[p.translatorId.value] + 1]
    else counts
  }

  /** The counting loop's step keeps every count equal to the number of
      active projects among those seen so far. */
  lemma CountStep(t: ProjectTable, done: set<ProjectId>, pid: ProjectId, counts: map<UserId, nat>)
    requires pid in t && pid !in done
    requires forall u :: u in counts ==> counts[u] == |ActiveAmong(t, done, u)|
    ensures Bump(counts, t[pid]).Keys == counts.Keys
    ensures forall u :: u in Bump(counts, t[pid]) ==> Bump(counts, t[pid])[u] == |ActiveAmong(t, done + {pid}, u)|
  {
    forall u | u in counts {
      ActiveAmongStep(t, done, pid, u);
    }
  }

  /** Assigning a project that was not yet active for `tid` to `tid`, in a
      non-CLOSED state, raises `tid`'s load by exactly one. */
  lemma AssignRaisesLoad(t: ProjectTable, pid: ProjectId, tid: UserId, state: ProjectState)
    requires pid in t && !IsActiveFor(t[pid], tid) && state != Closed
    ensures ActiveCount(AssignTranslatorIn(t, pid, tid, state), tid) == ActiveCount(t, tid) + 1
  {
    var t' := AssignTranslatorIn(t, pid, tid, state);
    assert ActiveAmong(t', t'.Keys, tid) == ActiveAmong(t, t.Keys, tid) + {pid};
  }

  /** The same assignment leaves the load of every other translator unchanged,
      provided the project was not active for that translator before. */
  lemma AssignKeepsOtherLoads(t: ProjectTable, pid: ProjectId, tid: UserId, state: ProjectState, other: UserId)
    requires pid in t && other != tid && !IsActiveFor(t[pid], other)
    ensures ActiveCount(AssignTranslatorIn(t, pid, tid, state), other) == ActiveCount(t, other)
  {
    var t' := AssignTranslatorIn(t, pid, tid, state);
    assert ActiveAmong(t', t'.Keys, other) == ActiveAmong(t, t.Keys, other);
  }

  /** Reassigning a project that was active for another translator `prev`
      takes it off `prev`'s load. */
  lemma ReassignReleasesPrevious(t: ProjectTable, pid: ProjectId, tid: UserId, state: ProjectState, prev: UserId)
    requires pid in t && prev != tid && IsActiveFor(t[pid], prev)
    ensures ActiveCount(AssignTranslatorIn(t, pid, tid, state), prev) == ActiveCount(t, prev) - 1
  {
    var t' := AssignTranslatorIn(t, pid, tid, state);
    assert ActiveAmong(t, t.Keys, prev) == ActiveAmong(t', t'.Keys, prev) + {pid};
  }

  /** Closing an active project lowers its translator's load by exactly one. */
  lemma CloseReleasesLoad(t: ProjectTable, pid: ProjectId, tid: UserId)
    requires pid in t && IsActiveFor(t[pid], tid)
    ensures ActiveCount(CloseIn(t, pid), tid) == ActiveCount(t, tid) - 1
  {
    var t' := CloseIn(t, pid);
    assert ActiveAmong(t, t.Keys, tid) == ActiveAmong(t', t'.Keys, tid) + {pid};
  }

  /** A freshly inserted project with no translator adds to nobody's load. */
  lemma InsertUnassignedKeepsLoads(t: ProjectTable, p: Project, tid: UserId)
    requires p.id !in t && p.translatorId.None?
    ensures ActiveCount(t[p.id := p], tid) == ActiveCount(t, tid)
  {
    var t' := t[p.id := p];
    assert ActiveAmong(t', t'.Keys, tid) == ActiveAmong(t, t.Keys, tid);
  }

  /** Closing twice is closing once. */
  lemma CloseIdempotent(t: ProjectTable, pid: ProjectId)
    ensures CloseIn(CloseIn(t, pid), pid) == CloseIn(t, pid)
  {
  }

  /** The repository-level submission has no state predicate: a matching
      translator moves even an APPROVED or CLOSED project back to COMPLETED. */
  lemma SubmitIgnoresState(t: ProjectTable, pid: ProjectId, tid: UserId, file: FileRef)
    requires SubmitMatches(t, pid, tid)
    ensures SubmitTranslationIn(t, pid, tid, file)[pid].state == Completed
    ensures SubmitTranslationIn(t, pid, tid, file)[pid].translatedFileId == Some(file)
  {
  }

  class ProjectRepository {
    var projects: ProjectTable

    ghost predicate Valid()
      reads this
    {
      WellKeyed(projects)
    }

    constructor ()
      ensures Valid() && projects == map[]
    {
      projects := map[];
    }

    /** `create`: insert the record; the unique index on `id` refuses a duplicate. */
    method Create(p: Project) returns (ok: bool)
      requires Valid()
      modifies this
      ensures Valid()
      ensures ok <==> p.id !in old(projects)
      ensures projects == if ok then old(projects)[p.id := p] else old(projects)
    {
      ok := p.id !in projects;
      if ok {
        projects := projects[p.id := p];
      }
    }

    /** `get_by_id` */
    method GetById(pid: ProjectId) returns (r: Option<Project>)
      requires Valid()
      ensures r.Some? <==> pid in projects
      ensures r.Some? ==> r.value == projects[pid] && r.value.id == pid
    {
      r := if pid in projects then Some(projects[pid]) else None;
    }

    /** `assign_translator`: only `translator_id` and `state` of the record with that id change. */
    method AssignTranslator(pid: ProjectId, tid: UserId, state: ProjectState)
      requires Valid()
      modifies this
      ensures Valid()
      ensures projects == AssignTranslatorIn(old(projects), pid, tid, state)
      ensures projects.Keys == old(projects).Keys
      ensures forall q :: q in projects && q != pid ==> projects[q] == old(projects)[q]
      ensures pid in projects ==> projects[pid] == old(projects)[pid].(translatorId := Some(tid), state := state)
    {
      projects := AssignTranslatorIn(projects, pid, tid, state);
    }

    /** `close_project`: state CLOSED unconditionally. */
    method CloseProject(pid: ProjectId)
      requires Valid()
      modifies this
      ensures Valid()
      ensures projects == CloseIn(old(projects), pid)
      ensures projects.Keys == old(projects).Keys
      ensures forall q :: q in projects && q != pid ==> projects[q] == old(projects)[q]
      ensures pid in projects ==> projects[pid] == old(projects)[pid].(state := Closed)
    {
      projects := CloseIn(projects, pid);
    }

    /** `list_by_translator`: the translator's projects, CLOSED ones only when asked for. */
    method ListByTranslator(tid: UserId, includeClosed: bool) returns (r: seq<Project>)
      requires Valid()
      ensures forall p :: p in r <==> p.id in projects && projects[p.id] == p && ListedFor(p, tid, includeClosed)
      ensures forall i, j :: 0 <= i < j < |r| ==> r[i].id != r[j].id
    {
      r := [];
      var rest := projects.Keys;
      while rest != {}
        invariant rest <= projects.Keys
        invariant forall p :: p in r <==> p.id in projects && p.id !in rest && projects[p.id] == p && ListedFor(p, tid, includeClosed)
        invariant forall i :: 0 <= i < |r| ==> r[i].id !in rest
        invariant forall i, j :: 0 <= i < j < |r| ==> r[i].id != r[j].id
        decreases rest
      {
        var pid :| pid in rest;
        var p := projects[pid];
        if ListedFor(p, tid, includeClosed) {
          r := r + [p];
        }
        rest := rest - {pid};
      }
    }

    /** `count_active_by_translator_ids`: every requested translator is present,
        with the number of their non-CLOSED projects (0 when they have none). */
    method CountActiveByTranslatorIds(ids: seq<UserId>) returns (counts: map<UserId, nat>)
      requires Valid()
      ensures |ids| == 0 ==> counts == map[]
      ensures forall u :: u in counts <==> u in ids
      ensures forall u :: u in counts ==> counts[u] == ActiveCount(projects, u)
    {
      if |ids| == 0 {
        return map[];
      }
      counts := map u | u in ids :: 0;
      var done: set<ProjectId> := {};
      while done != projects.Keys
        invariant done <= projects.Keys
        invariant counts.Keys == set u | u in ids
        invariant forall u :: u in counts ==> counts[u] == |ActiveAmong(projects, done, u)|
        decreases |projects.Keys - done|
      {
        var pid :| pid in projects.Keys - done;
        var p := projects[pid];
        CountStep(projects, done, pid, counts);
        counts := Bump(counts, p);
        done := done + {pid};
      }
    }

    /** `submit_translation`: matches on id and translator only. */
    method SubmitTranslation(pid: ProjectId, tid: UserId, file: FileRef) returns (matched: bool)
      requires Valid()
      modifies this
      ensures Valid()
      ensures matched == SubmitMatches(old(projects), pid, tid)
      ensures projects == SubmitTranslationIn(old(projects), pid, tid, file)
    {
      matched := SubmitMatches(projects, pid, tid);
      projects := SubmitTranslationIn(projects, pid, tid, file);
    }

    /** `set_state_if_customer` */
    method SetStateIfCustomer(pid: ProjectId, cid: UserId, expected: ProjectState, newState: ProjectState)
      returns (matched: bool)
      requires Valid()
      modifies this
      ensures Valid()
      ensures matched == CustomerMatches(old(projects), pid, cid, expected)
      ensures projects == SetStateIfCustomerIn(old(projects), pid, cid, expected, newState)
      ensures !matched ==> projects == old(projects)
    {
      matched := CustomerMatches(projects, pid, cid, expected);
      projects := SetStateIfCustomerIn(projects, pid, cid, expected, newState);
    }

    /** `set_feedback_and_state_if_customer` */
    method SetFeedbackAndStateIfCustomer(pid: ProjectId, cid: UserId, expected: ProjectState,
                                         newState: ProjectState, fid: FeedbackId)
      returns (matched: bool)
      requires Valid()
      modifies this
      ensures Valid()
      ensures matched == CustomerMatches(old(projects), pid, cid, expected)
      ensures projects == SetFeedbackAndStateIfCustomerIn(old(projects), pid, cid, expected, newState, fid)
      ensures !matched ==> projects == old(projects)
    {
      matched := CustomerMatches(projects, pid, cid, expected);
      projects := SetFeedbackAndStateIfCustomerIn(projects, pid, cid, expected, newState, fid);
    }
  }
}
