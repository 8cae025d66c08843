/**
 * How the stages compose on one line: classify, validate, translate, and collect. These
 * lemmas tie the stages' contracts together.
 */
module Pipeline {
  import opened Wrappers
  import opened Strings
  import opened Rules
  import opened SyntaxDb
  import opened Parser
  import opened Validator
  import opened Translator
  import opened Generator

  /** The record one line becomes after the three per-line stages. */
  function Processed(e: Engine, unsupported: seq<PatternEntry>, translation: seq<PatternEntry>, strategy: string,
                     n: int, line: string, list: string): Rule
  {
    TranslatedRule(e, translation, strategy, Validated(e, unsupported, translation, Classify(n, line, list)))
  }

  /** Matching a translation entry looks only at the stripped text, so stripping first changes nothing. */
  lemma CandidateIgnoresStrip(e: Engine, translation: seq<PatternEntry>, t: string)
    ensures TranslationCandidate(e, translation, Strip(t)) == TranslationCandidate(e, translation, t)
  {
    StripIdempotent(t);
    var a, b := TranslationCandidate(e, translation, Strip(t)), TranslationCandidate(e, translation, t);
    assert forall k :: 0 <= k < |translation| ==>
      TranslationMatch(e, translation[k], Strip(t)) == TranslationMatch(e, translation[k], t);
    if a.Some? && b.Some? {
      var i :| 0 <= i < |translation| && translation[i] == a.value.pattern
               && TranslationMatch(e, translation[i], Strip(t)) == Some(a.value.groups)
               && forall j :: 0 <= j < i ==> TranslationMatch(e, translation[j], Strip(t)).None?;
      var k :| 0 <= k < |translation| && translation[k] == b.value.pattern
               && TranslationMatch(e, translation[k], t) == Some(b.value.groups)
               && forall j :: 0 <= j < k ==> TranslationMatch(e, translation[j], t).None?;
      assert i == k;
    }
  }

  /**
   * A rule the validator sends on for translation always finds its translation entry again
   * in the translator, which looks it up on the unstripped text: the translator's "no
   * matching pattern" branch cannot be reached after validation.
   */
  lemma NeedsTranslationHasCandidate(e: Engine, unsupported: seq<PatternEntry>, translation: seq<PatternEntry>, v: Rule)
    requires Validated(e, unsupported, translation, v).validationStatus == Some(NeedsTranslation)
    ensures TranslationCandidate(e, translation, v.rawRule.GetOr("")).Some?
  {
    if IsCheckedRule(v) {
      VerdictChecked(e, unsupported, translation, v);
      CandidateIgnoresStrip(e, translation, v.rawRule.GetOr(""));
    } else {
      VerdictUnchecked(e, unsupported, translation, v);
    }
  }

  /** A line the classifier calls a filter rule always has text, so the validator never calls it empty. */
  lemma ParsedRuleNeverEmpty(e: Engine, unsupported: seq<PatternEntry>, translation: seq<PatternEntry>,
                             n: int, line: string, list: string)
    requires Classify(n, line, list).kind == FilterRule
    ensures IsCheckedRule(Classify(n, line, list))
    ensures Validated(e, unsupported, translation, Classify(n, line, list)).validationStatus in
              {Some(Valid), Some(NeedsTranslation), Some(Unsupported)}
  {
    var v := Classify(n, line, list);
    StripIdempotent(line);
    assert RuleText(v) == Strip(line);
    VerdictChecked(e, unsupported, translation, v);
  }

  /** Blank, comment and metadata lines pass through with their own status and need no translation. */
  lemma NonRuleLinePassesThrough(e: Engine, unsupported: seq<PatternEntry>, translation: seq<PatternEntry>,
                                 strategy: string, n: int, line: string, list: string)
    requires Classify(n, line, list).kind != FilterRule
    ensures var r := Processed(e, unsupported, translation, strategy, n, line, list);
            && r.validationStatus.Some?
            && StatusName(r.validationStatus.value) == TypeName(Classify(n, line, list).kind)
            && r.translationStatus == Some(NotNeeded)
            && r.translatedRule.None?
            && FinalText(r).None?
  {
    var v := Classify(n, line, list);
    VerdictUnchecked(e, unsupported, translation, v);
    var w := Validated(e, unsupported, translation, v);
    assert w.validationStatus != Some(NeedsTranslation) && w.validationStatus != Some(Unsupported);
    NotNeededOnly(e, translation, strategy, w);
  }

  /**
   * Every filter-rule line ends in the output one way or another: its final text is defined
   * (the rule itself, its translation, or the comment replacing it) unless the drop strategy
   * dropped it.
   */
  lemma FilterLineOutcome(e: Engine, unsupported: seq<PatternEntry>, translation: seq<PatternEntry>,
                          strategy: string, n: int, line: string, list: string)
    requires Classify(n, line, list).kind == FilterRule
    ensures var r := Processed(e, unsupported, translation, strategy, n, line, list);
            && (FinalText(r).Some? || r.translationStatus == Some(Dropped))
            && (r.translationStatus == Some(Dropped) <==> strategy == DropStrategy && r.validationStatus != Some(Valid))
  {
    var v := Classify(n, line, list);
    ParsedRuleNeverEmpty(e, unsupported, translation, n, line, list);
    var w := Validated(e, unsupported, translation, v);
    if w.validationStatus == Some(Valid) {
      NotNeededOnly(e, translation, strategy, w);
    } else {
      FirstTranslation(e, translation, strategy, w);
    }
  }

  /** Every all-whitespace line is an empty record, passed through as empty whatever the database holds. */
  lemma BlankLine(e: Engine, unsupported: seq<PatternEntry>, translation: seq<PatternEntry>, strategy: string,
                  n: int, line: string, list: string)
    requires AllSpace(line)
    ensures Classify(n, line, list).kind == EmptyLine
    ensures Processed(e, unsupported, translation, strategy, n, line, list).validationStatus == Some(Empty)
    ensures Processed(e, unsupported, translation, strategy, n, line, list).translationStatus == Some(NotNeeded)
  {
    NonRuleLinePassesThrough(e, unsupported, translation, strategy, n, line, list);
  }

  /**
   * A preprocessor directive such as `!#if env_firefox` starts with `!`, so the classifier
   * makes it a comment: it is passed through as a comment and never reaches the validator's
   * unsupported entries.
   */
  lemma DirectiveIsComment(e: Engine, unsupported: seq<PatternEntry>, translation: seq<PatternEntry>,
                           strategy: string, n: int, line: string, list: string)
    requires StartsWith(Strip(line), "!#") && '\n' !in Strip(line)
    ensures Classify(n, line, list).kind == CommentLine
    ensures Processed(e, unsupported, translation, strategy, n, line, list).validationStatus == Some(Comment)
  {
    var s := Strip(line);
    StripIdempotent(line);
    assert s[0] == '!' && s[1] == '#';
    assert SkipSpace(s, 0) == 0;
    assert s[0..] == s;
    assert KeyRunEnd(s, 1) == 1;
    NonRuleLinePassesThrough(e, unsupported, translation, strategy, n, line, list);
  }

  /**
   * With empty translation and unsupported tables, a domain-anchored network rule such as
   * `||example.com^$script` is valid, needs no translation, and is emitted as its stripped text.
   */
  lemma AnchoredRuleKept(e: Engine, strategy: string, n: int, line: string, list: string)
    requires StartsWith(Strip(line), "||")
    ensures Classify(n, line, list).kind == FilterRule
    ensures var r := Processed(e, [], [], strategy, n, line, list);
            r.validationStatus == Some(Valid) && r.translationStatus == Some(NotNeeded)
            && FinalText(r) == Some(Strip(line))
  {
    var s := Strip(line);
    StripIdempotent(line);
    assert SkipSpace(s, 0) == 0;
    assert s[0..] == s;
    assert !StartsWith(s, "!") && !StartsWith(s, "#") && !StartsWith(s, "[Adblock");
    var v := Classify(n, line, list);
    ParsedRuleNeverEmpty(e, [], [], n, line, list);
    VerdictChecked(e, [], [], v);
    var w := Validated(e, [], [], v);
    NotNeededOnly(e, [], strategy, w);
  }
}
