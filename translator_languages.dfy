/** The translator-language capability table
    (Backend/app/repositories/translator_languages.py): (translator, language)
    pairs in listing order, unique by a compound index. */
module TranslatorLanguages {
  import opened Domain

  ghost predicate NoDuplicates<T>(s: seq<T>) {
    forall i, j :: 0 <= i < j < |s| ==> s[i] != s[j]
  }

  /** The translators whose pair carries exactly `code`, in listing order. */
  function TranslatorsFor(pairs: seq<TranslatorLanguage>, code: string): seq<UserId> {
    if pairs == [] then []
    else
      var last := pairs[|pairs| - 1];
      TranslatorsFor(pairs[..|pairs| - 1], code) + (if last.languageCode == code then [last.translatorId] else [])
  }

  /** The language codes of `tid`'s pairs, in listing order. */
  function LanguagesFor(pairs: seq<TranslatorLanguage>, tid: UserId): seq<string> {
    if pairs == [] then []
    else
      var last := pairs[|pairs| - 1];
      LanguagesFor(pairs[..|pairs| - 1], tid) + (if last.translatorId == tid then [last.languageCode] else [])
  }

  /** The table after `delete_one`: the first pair equal to `pair` removed. */
  function RemovePair(pairs: seq<TranslatorLanguage>, pair: TranslatorLanguage): seq<TranslatorLanguage> {
    if pairs == [] then []
    else if pairs[0] == pair then pairs[1..]
    else [pairs[0]] + RemovePair(pairs[1..], pair)
  }

  /** The table after `add_language`: the pair appended unless it is already there. */
  function AddPairIn(pairs: seq<TranslatorLanguage>, pair: TranslatorLanguage): seq<TranslatorLanguage> {
    if pair in pairs then pairs else pairs + [pair]
  }

  /** A translator is listed for a code exactly when its pair is in the table. */
  lemma {:induction false} TranslatorsForMembers(pairs: seq<TranslatorLanguage>, code: string, tid: UserId)
    ensures tid in TranslatorsFor(pairs, code) <==> TranslatorLanguage(tid, code) in pairs
    decreases |pairs|
  {
    if pairs != [] {
      var init := pairs[..|pairs| - 1];
      TranslatorsForMembers(init, code, tid);
      assert pairs == init + [pairs[|pairs| - 1]];
    }
  }

  /** A code is listed for a translator exactly when its pair is in the table. */
  lemma {:induction false} LanguagesForMembers(pairs: seq<TranslatorLanguage>, tid: UserId, code: string)
    ensures code in LanguagesFor(pairs, tid) <==> TranslatorLanguage(tid, code) in pairs
    decreases |pairs|
  {
    if pairs != [] {
      var init := pairs[..|pairs| - 1];
      LanguagesForMembers(init, tid, code);
      assert pairs == init + [pairs[|pairs| - 1]];
    }
  }

  /** With unique pairs, no translator is listed twice for one language. */
  lemma {:induction false} TranslatorsForNoDuplicates(pairs: seq<TranslatorLanguage>, code: string)
    requires NoDuplicates(pairs)
    ensures NoDuplicates(TranslatorsFor(pairs, code))
    decreases |pairs|
  {
    if pairs != [] {
      var init := pairs[..|pairs| - 1];
      var last := pairs[|pairs| - 1];
      TranslatorsForNoDuplicates(init, code);
      if last.languageCode == code {
        TranslatorsForMembers(init, code, last.translatorId);
        assert last !in init;
      }
    }
  }

  /** With unique pairs, deleting a pair removes exactly that pair and keeps the rest unique. */
  lemma {:induction false} RemovePairExact(pairs: seq<TranslatorLanguage>, pair: TranslatorLanguage)
    requires NoDuplicates(pairs)
    ensures NoDuplicates(RemovePair(pairs, pair))
    ensures forall x :: x in RemovePair(pairs, pair) <==> x in pairs && x != pair
    decreases |pairs|
  {
    if pairs != [] {
      var tail := pairs[1..];
      assert NoDuplicates(tail);
      assert pairs[0] !in tail;
      if pairs[0] != pair {
        RemovePairExact(tail, pair);
        assert pairs == [pairs[0]] + tail;
      }
    }
  }

  /** Adding keeps the pairs unique, is idempotent, and afterwards lists the
      translator for that language and no one new for any other. */
  lemma AddPairFacts(pairs: seq<TranslatorLanguage>, pair: TranslatorLanguage, code: string, tid: UserId)
    requires NoDuplicates(pairs)
    ensures NoDuplicates(AddPairIn(pairs, pair))
    ensures AddPairIn(AddPairIn(pairs, pair), pair) == AddPairIn(pairs, pair)
    ensures pair.translatorId in TranslatorsFor(AddPairIn(pairs, pair), pair.languageCode)
    ensures tid in TranslatorsFor(AddPairIn(pairs, pair), code) <==>
              tid in TranslatorsFor(pairs, code) || pair == TranslatorLanguage(tid, code)
  {
    TranslatorsForMembers(AddPairIn(pairs, pair), pair.languageCode, pair.translatorId);
    TranslatorsForMembers(AddPairIn(pairs, pair), code, tid);
    TranslatorsForMembers(pairs, code, tid);
  }

  class TranslatorLanguageRepository {
    var pairs: seq<TranslatorLanguage>

    /** The compound unique index, and the two-letter field constraint of the records. */
    ghost predicate Valid()
      reads this
    {
      NoDuplicates(pairs) && forall p :: p in pairs ==> IsLanguageCodeLength(p.languageCode)
    }

    constructor ()
      ensures Valid() && pairs == []
    {
      pairs := [];
    }

    /** `list_translator_ids_for_language` */
    method ListTranslatorIdsForLanguage(code: string) returns (ids: seq<UserId>)
      ensures ids == TranslatorsFor(pairs, code)
    {
      ids := [];
      var i := 0;
      while i < |pairs|
        invariant 0 <= i <= |pairs|
        invariant ids == TranslatorsFor(pairs[..i], code)
      {
        assert pairs[..i + 1][..i] == pairs[..i];
        if pairs[i].languageCode == code {
          ids := ids + [pairs[i].translatorId];
        }
        i := i + 1;
      }
      assert pairs[..i] == pairs;
    }

    /** `list_languages_for_translator` */
    method ListLanguagesForTranslator(tid: UserId) returns (codes: seq<string>)
      ensures codes == LanguagesFor(pairs, tid)
    {
      codes := [];
      var i := 0;
      while i < |pairs|
        invariant 0 <= i <= |pairs|
        invariant codes == LanguagesFor(pairs[..i], tid)
      {
        assert pairs[..i + 1][..i] == pairs[..i];
        if pairs[i].translatorId == tid {
          codes := codes + [pairs[i].languageCode];
        }
        i := i + 1;
      }
      assert pairs[..i] == pairs;
    }

    /** `add_language`: insert the pair unless it is already there (idempotent). */
    method AddLanguage(tl: TranslatorLanguage)
      requires Valid() && NewTranslatorLanguage(tl.translatorId, tl.languageCode) == Some(tl)
      modifies this
      ensures Valid()
      ensures pairs == AddPairIn(old(pairs), tl)
      ensures tl.translatorId in TranslatorsFor(pairs, tl.languageCode)
    {
      AddPairFacts(pairs, tl, tl.languageCode, tl.translatorId);
      if tl !in pairs {
        pairs := pairs + [tl];
      }
    }

    /** `delete_language`: remove that one pair, if present. */
    method DeleteLanguage(tid: UserId, code: string)
      requires Valid()
      modifies this
      ensures Valid()
      ensures pairs == RemovePair(old(pairs), TranslatorLanguage(tid, code))
      ensures forall x :: x in pairs <==> x in old(pairs) && x != TranslatorLanguage(tid, code)
      ensures tid !in TranslatorsFor(pairs, code)
    {
      RemovePairExact(pairs, TranslatorLanguage(tid, code));
      pairs := RemovePair(pairs, TranslatorLanguage(tid, code));
      TranslatorsForMembers(pairs, code, tid);
    }
  }
}
