/** The translator language forms of the web front end
    (Frontend/web/language_forms.py): adding a language picks one of a fixed
    list of target languages; removing one takes a hidden two-character code
    that must be alphabetic. Each form has the single field `language_code`,
    so a form is valid exactly when that field cleans to a value. */
module LanguageForms {
  import opened Domain
  import opened Text
  import opened Forms

  /** The codes offered when adding a target language, in menu order. */
  const CommonTargetLanguages: seq<string> := ["cs", "sk", "de", "fr", "es", "it", "pl", "pt", "nl", "sv"]

  /** A two-letter lower-case ASCII code. */
  predicate IsLowerPair(code: string) {
    |code| == 2 && IsAsciiLower(code[0]) && IsAsciiLower(code[1])
  }

  /** `clean_language_code` of the add form: the chosen code stripped and lower-cased. */
  function AddHook(v: string): Cleaned {
    Value(Lower(Strip(v)))
  }

  /** The add form's field: a choice among the common languages, then its hook. */
  function CleanAddCode(raw: string): Cleaned {
    var c := CleanChoice(raw, CommonTargetLanguages);
    if c.Value? then AddHook(c.value) else c
  }

  /** `clean_language_code` of the remove form: the value stripped and
      lower-cased, refused unless it is two letters. */
  function RemoveHook(v: string): Cleaned {
    var code := Lower(Strip(v));
    if |code| != 2 || !IsAlpha(code) then Invalid([InvalidLanguageCode]) else Value(code)
  }

  /** The remove form's field: a required character field of exactly two
      characters after stripping, then its hook. */
  function CleanRemoveCode(raw: string): Cleaned {
    var c := CleanChar(raw, true, 2, Some(2));
    if c.Value? then RemoveHook(c.value) else c
  }

  /** Every offered code is already stripped and lower-case. */
  lemma CommonCodesAreLowerPairs()
    ensures forall c :: c in CommonTargetLanguages ==> IsLowerPair(c) && Strip(c) == c && Lower(c) == c
  {
    forall c | c in CommonTargetLanguages
      ensures IsLowerPair(c) && Strip(c) == c && Lower(c) == c
    {
      StripUnchanged(c);
    }
  }

  /** The add form accepts exactly the offered codes, as they were submitted;
      anything else is refused as empty or as not a choice. */
  lemma AddCodeAccepts(raw: string)
    ensures CleanAddCode(raw).Value? <==> raw in CommonTargetLanguages
    ensures CleanAddCode(raw).Value? ==>
              CleanAddCode(raw).value == Lower(Strip(raw)) == raw && IsLowerPair(raw)
    ensures CleanAddCode(raw).Invalid? ==>
              CleanAddCode(raw).problems == [Missing] || CleanAddCode(raw).problems == [NotAChoice]
  {
    CommonCodesAreLowerPairs();
  }

  /** The remove form accepts exactly a value that strips to two letters, and
      yields it lower-cased. */
  lemma RemoveCodeAccepts(raw: string)
    ensures CleanRemoveCode(raw).Value? <==> |Strip(raw)| == 2 && IsAlpha(Strip(raw))
    ensures CleanRemoveCode(raw).Value? ==>
              CleanRemoveCode(raw).value == Lower(Strip(raw)) && IsLowerPair(CleanRemoveCode(raw).value)
  {
    var v := Strip(raw);
    StripIdempotent(raw);
    var code := Lower(v);
    if |v| == 2 {
      assert IsAlpha(code) <==> IsAlpha(v) by {
        assert IsLetter(code[0]) <==> IsLetter(v[0]);
        assert IsLetter(code[1]) <==> IsLetter(v[1]);
      }
      if IsAlpha(v) {
        assert '\0' !in v by {
          assert v == [v[0], v[1]];
        }
      }
    }
  }

  /** The NUL problem the character field adds to a value holding one. */
  function NulProblems(v: string): seq<Problem> {
    if '\0' in v then [NullCharacter] else []
  }

  /** Why the remove form refuses: an empty value is missing; a value of the
      wrong length fails the field's own bounds, together with a NUL
      character when it holds one; a two-character value with a NUL
      character fails the field, so the hook never sees it; and any other
      two-character value with a non-letter fails the hook's check. */
  lemma RemoveCodeRefusals(raw: string)
    ensures Strip(raw) == [] ==> CleanRemoveCode(raw) == Invalid([Missing])
    ensures |Strip(raw)| == 1 ==> CleanRemoveCode(raw) == Invalid([TooShort(2)] + NulProblems(Strip(raw)))
    ensures |Strip(raw)| > 2 ==> CleanRemoveCode(raw) == Invalid([TooLong(2)] + NulProblems(Strip(raw)))
    ensures |Strip(raw)| == 2 && '\0' in Strip(raw) ==> CleanRemoveCode(raw) == Invalid([NullCharacter])
    ensures |Strip(raw)| == 2 && '\0' !in Strip(raw) && !IsAlpha(Strip(raw)) ==>
              CleanRemoveCode(raw) == Invalid([InvalidLanguageCode])
  {
    RemoveCodeAccepts(raw);
  }

  /** A code the add form produced, submitted back through the remove form,
      is accepted unchanged. */
  lemma AddedCodeIsRemovable(raw: string)
    requires CleanAddCode(raw).Value?
    ensures CleanRemoveCode(CleanAddCode(raw).value) == CleanAddCode(raw)
  {
    AddCodeAccepts(raw);
    CommonCodesAreLowerPairs();
    RemoveCodeAccepts(raw);
  }
}
