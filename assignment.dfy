/** Least-loaded assignment (Backend/app/services/assignment.py): among the
    translators listed for a language, pick the one with the fewest
    non-CLOSED projects, the earliest in listing order on a tie; with no
    candidate, close the project instead. */
module Assignment {
  import opened Domain
  import opened ProjectStore
  import opened TranslatorLanguages

  /** `counts.get(tid, 0)`: a translator absent from the count map has load 0. */
  function CountOf(counts: map<UserId, nat>, tid: UserId): nat {
    if tid in counts then counts[tid] else 0
  }

  /** The smallest count among the candidates. */
  function MinCount(cands: seq<UserId>, counts: map<UserId, nat>): (m: nat)
    requires |cands| > 0
    ensures forall j :: 0 <= j < |cands| ==> m <= CountOf(counts, cands[j])
    ensures exists j :: 0 <= j < |cands| && m == CountOf(counts, cands[j])
    decreases |cands|
  {
    if |cands| == 1 then CountOf(counts, cands[0])
    else
      var rest := MinCount(cands[1..], counts);
      var c := CountOf(counts, cands[0]);
      if c <= rest then c else rest
  }

  /** The position of the first candidate whose count is `c`. */
  function FirstWithCount(cands: seq<UserId>, counts: map<UserId, nat>, c: nat): (i: nat)
    requires exists j :: 0 <= j < |cands| && CountOf(counts, cands[j]) == c
    ensures i < |cands| && CountOf(counts, cands[i]) == c
    ensures forall j :: 0 <= j < i ==> CountOf(counts, cands[j]) != c
    decreases |cands|
  {
    if CountOf(counts, cands[0]) == c then 0
    else
      var j :| 0 <= j < |cands| && CountOf(counts, cands[j]) == c;
      assert cands[1..][j - 1] == cands[j];
      1 + FirstWithCount(cands[1..], counts, c)
  }

  /** Reference definition of the choice: the first candidate, in listing
      order, among those whose count is the smallest; None without candidates. */
  function LeastLoaded(cands: seq<UserId>, counts: map<UserId, nat>): Option<UserId> {
    if |cands| == 0 then None else Some(cands[FirstWithCount(cands, counts, MinCount(cands, counts))])
  }

  /** Position `i` holds a candidate whose count is at most every candidate's
      count, and every earlier candidate has a strictly larger count. */
  ghost predicate IsFirstLeastLoaded(cands: seq<UserId>, counts: map<UserId, nat>, i: int) {
    && 0 <= i < |cands|
    && (forall j :: 0 <= j < |cands| ==> CountOf(counts, cands[i]) <= CountOf(counts, cands[j]))
    && (forall j :: 0 <= j < i ==> CountOf(counts, cands[j]) > CountOf(counts, cands[i]))
  }

  /** The reference choice is the unique first least-loaded position. */
  lemma LeastLoadedIsFirstMinimum(cands: seq<UserId>, counts: map<UserId, nat>, i: int)
    requires IsFirstLeastLoaded(cands, counts, i)
    ensures LeastLoaded(cands, counts) == Some(cands[i])
  {
    var m := MinCount(cands, counts);
    var k := FirstWithCount(cands, counts, m);
    var j :| 0 <= j < |cands| && m == CountOf(counts, cands[j]);
    assert CountOf(counts, cands[i]) == m;
  }

  /** What the choice promises: None exactly without candidates; otherwise a
      listed candidate with the smallest count, and no earlier candidate has
      that count. */
  lemma LeastLoadedSpec(cands: seq<UserId>, counts: map<UserId, nat>)
    ensures LeastLoaded(cands, counts).None? <==> |cands| == 0
    ensures LeastLoaded(cands, counts).Some? ==>
              exists i :: IsFirstLeastLoaded(cands, counts, i) && cands[i] == LeastLoaded(cands, counts).value
  {
    if |cands| > 0 {
      var m := MinCount(cands, counts);
      var k := FirstWithCount(cands, counts, m);
      assert IsFirstLeastLoaded(cands, counts, k);
    }
  }

  /** The tie-break the repository's own test expects: loads 5, 1, 1 choose the second. */
  lemma LeastLoadedTieExample(t1: UserId, t2: UserId, t3: UserId)
    requires t1 != t2 && t2 != t3 && t1 != t3
    ensures LeastLoaded([t1, t2, t3], map[t1 := 5, t2 := 1, t3 := 1]) == Some(t2)
  {
    var cands := [t1, t2, t3];
    var counts := map[t1 := 5, t2 := 1, t3 := 1];
    assert IsFirstLeastLoaded(cands, counts, 1);
    LeastLoadedIsFirstMinimum(cands, counts, 1);
  }

  /** A candidate missing from the count map counts as 0 and so beats a loaded one. */
  lemma MissingCountIsZeroExample(t1: UserId, t2: UserId)
    requires t1 != t2
    ensures LeastLoaded([t1, t2], map[t1 := 2]) == Some(t2)
  {
    var cands := [t1, t2];
    var counts := map[t1 := 2];
    assert IsFirstLeastLoaded(cands, counts, 1);
    LeastLoadedIsFirstMinimum(cands, counts, 1);
  }

  /** The selection loop of `find_best_translator_id`: keep the first
      candidate seen, replace it only by a strictly smaller count. */
  method PickLeastLoaded(cands: seq<UserId>, counts: map<UserId, nat>) returns (best: Option<UserId>)
    ensures best == LeastLoaded(cands, counts)
    ensures best.None? <==> |cands| == 0
    ensures best.Some? ==> best.value in cands
    ensures best.Some? ==> forall j :: 0 <= j < |cands| ==> CountOf(counts, best.value) <= CountOf(counts, cands[j])
  {
    best := None;
    var bestCount: nat := 0;
    ghost var bi := -1;
    for i := 0 to |cands|
      invariant best.None? <==> i == 0
      invariant i > 0 ==> 0 <= bi < i && best == Some(cands[bi]) && bestCount == CountOf(counts, cands[bi])
      invariant i > 0 ==> forall j :: 0 <= j < i ==> bestCount <= CountOf(counts, cands[j])
      invariant i > 0 ==> forall j :: 0 <= j < bi ==> CountOf(counts, cands[j]) > bestCount
    {
      var c := CountOf(counts, cands[i]);
      if best.None? || c < bestCount {
        best := Some(cands[i]);
        bestCount := c;
        bi := i;
      }
    }
    if |cands| > 0 {
      assert IsFirstLeastLoaded(cands, counts, bi);
      LeastLoadedIsFirstMinimum(cands, counts, bi);
    }
  }

  /** The load of each candidate, as the batch count reports it. */
  function LoadMap(t: ProjectTable, cands: seq<UserId>): map<UserId, nat> {
    map u | u in cands :: ActiveCount(t, u)
  }

  /** The translator `find_best_translator_id` picks for `code` in a given state of the stores. */
  function BestTranslator(t: ProjectTable, pairs: seq<TranslatorLanguage>, code: string): Option<UserId> {
    var cands := TranslatorsFor(pairs, code);
    LeastLoaded(cands, LoadMap(t, cands))
  }

  /** The choice in terms of the stores: None exactly when nobody has the
      language; otherwise a translator with that language whose load is at
      most that of every translator with the language, and the first such
      in listing order. */
  lemma BestTranslatorSpec(t: ProjectTable, pairs: seq<TranslatorLanguage>, code: string)
    ensures BestTranslator(t, pairs, code).None? <==> TranslatorsFor(pairs, code) == []
    ensures BestTranslator(t, pairs, code).Some? ==>
              var b := BestTranslator(t, pairs, code).value;
              && TranslatorLanguage(b, code) in pairs
              && (forall u :: TranslatorLanguage(u, code) in pairs ==> ActiveCount(t, b) <= ActiveCount(t, u))
    ensures BestTranslator(t, pairs, code).Some? ==>
              exists i :: IsFirstLeastLoaded(TranslatorsFor(pairs, code), LoadMap(t, TranslatorsFor(pairs, code)), i)
                          && TranslatorsFor(pairs, code)[i] == BestTranslator(t, pairs, code).value
  {
    var cands := TranslatorsFor(pairs, code);
    var counts := LoadMap(t, cands);
    LeastLoadedSpec(cands, counts);
    if cands != [] {
      var i :| IsFirstLeastLoaded(cands, counts, i) && cands[i] == BestTranslator(t, pairs, code).value;
      TranslatorsForMembers(pairs, code, cands[i]);
      forall u | TranslatorLanguage(u, code) in pairs
        ensures ActiveCount(t, cands[i]) <= ActiveCount(t, u)
      {
        TranslatorsForMembers(pairs, code, u);
        var j :| 0 <= j < |cands| && cands[j] == u;
        assert CountOf(counts, cands[i]) <= CountOf(counts, cands[j]);
      }
    }
  }

  class AssignmentService {
    const projects: ProjectRepository
    const languages: TranslatorLanguageRepository

    constructor (projects: ProjectRepository, languages: TranslatorLanguageRepository)
      ensures this.projects == projects && this.languages == languages
    {
      this.projects := projects;
      this.languages := languages;
    }

    /** `find_best_translator_id` */
    method FindBestTranslatorId(code: string) returns (best: Option<UserId>)
      requires projects.Valid() && languages.Valid()
      ensures best == BestTranslator(projects.projects, languages.pairs, code)
    {
      var ids := languages.ListTranslatorIdsForLanguage(code);
      if |ids| == 0 {
        return None;
      }
      var counts := projects.CountActiveByTranslatorIds(ids);
      assert counts == LoadMap(projects.projects, ids);
      best := PickLeastLoaded(ids, counts);
    }

    /** `assign_or_close`: assign the chosen translator in state ASSIGNED, or
        close the project when there is none; returns the chosen translator. */
    method AssignOrClose(pid: ProjectId, code: string) returns (tid: Option<UserId>)
      requires projects.Valid() && languages.Valid()
      modifies projects
      ensures projects.Valid()
      ensures tid == BestTranslator(old(projects.projects), languages.pairs, code)
      ensures tid.None? ==> projects.projects == CloseIn(old(projects.projects), pid)
      ensures tid.Some? ==> projects.projects == AssignTranslatorIn(old(projects.projects), pid, tid.value, Assigned)
    {
      tid := FindBestTranslatorId(code);
      if tid.None? {
        projects.CloseProject(pid);
        return;
      }
      projects.AssignTranslator(pid, tid.value, Assigned);
    }
  }
}
