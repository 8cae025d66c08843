/**
 * The rule translator: rewrites a rule that needs translation through the first matching
 * translation entry's template, and comments out or drops any rule it cannot translate,
 * according to its strategy.
 */
module Translator {
  import opened Wrappers
  import opened Strings
  import opened Rules
  import opened SyntaxDb
  import opened Templates

  const CommentOutStrategy := "comment_out_untranslatable"
  const DropStrategy := "drop_untranslatable"
  const NoReasonGiven := "No specific reason."

  /** The template arguments a match supplies: its named groups if the regex has any, else its groups by position. */
  function ArgsOf(m: Match): (a: Args)
    ensures a.Named? <==> m.named != map[]
    ensures a.Named? ==> a.fields == m.named
    ensures a.Positional? ==> a.items == m.groups
  {
    if m.named != map[] then Named(m.named) else Positional(m.groups)
  }

  /**
   * With named groups the template is filled by keyword: a name the match has renders its
   * group, any other name fails, and a positional field such as `{0}` fails too.
   */
  lemma NamedGroupsRender(m: Match, name: string, rest: string)
    requires m.named != map[]
    requires IsPlainField(name) && !IsDigits(name)
    ensures name in m.named ==>
              Render("{" + name + "}" + rest, ArgsOf(m)) == Prepend(Shown(m.named[name]), Render(rest, ArgsOf(m)))
    ensures name !in m.named ==> Render("{" + name + "}" + rest, ArgsOf(m)).None?
    ensures Render("{0}" + rest, ArgsOf(m)).None?
  {
    var a := ArgsOf(m);
    if name in m.named {
      RenderField(name, rest, a);
    } else {
      RenderMissingField(name, rest, a);
    }
    assert IsDigits("0");
    assert "{0}" + rest == "{" + "0" + "}" + rest;
    RenderMissingField("0", rest, a);
  }

  /**
   * Without named groups the template is filled by position: `{k}` renders group `k` when the
   * match has that many groups and fails otherwise, and a named field fails.
   */
  lemma PositionalGroupsRender(m: Match, f: string, name: string, rest: string)
    requires m.named == map[]
    requires IsDigits(f)
    requires IsPlainField(name) && !IsDigits(name)
    ensures DigitsValue(f) < |m.groups| ==>
              Render("{" + f + "}" + rest, ArgsOf(m)) == Prepend(Shown(m.groups[DigitsValue(f)]), Render(rest, ArgsOf(m)))
    ensures DigitsValue(f) >= |m.groups| ==> Render("{" + f + "}" + rest, ArgsOf(m)).None?
    ensures Render("{" + name + "}" + rest, ArgsOf(m)).None?
  {
    var a := ArgsOf(m);
    assert forall k :: 0 <= k < |f| ==> IsDigit(f[k]);
    assert IsPlainField(f);
    if DigitsValue(f) < |m.groups| {
      RenderField(f, rest, a);
    } else {
      RenderMissingField(f, rest, a);
    }
    RenderMissingField(name, rest, a);
  }

  /** The translation of `raw`: the first matching translation entry and its rendered template, if both exist. */
  function RenderedTranslation(e: Engine, translation: seq<PatternEntry>, raw: string): (r: Option<(PatternEntry, string)>)
    ensures r.Some? <==> TranslationCandidate(e, translation, raw).Some?
                         && TranslationCandidate(e, translation, raw).value.pattern.template.Some?
                         && Render(TranslationCandidate(e, translation, raw).value.pattern.template.value,
                                   ArgsOf(TranslationCandidate(e, translation, raw).value.groups)).Some?
    ensures r.Some? ==> r.value.0 == TranslationCandidate(e, translation, raw).value.pattern
  {
    match TranslationCandidate(e, translation, raw)
    case None => None
    case Some(c) =>
      if c.pattern.template.None? then None
      else
        match Render(c.pattern.template.value, ArgsOf(c.groups))
        case None => None
        case Some(t) => Some((c.pattern, t))
  }

  /** The comment an untranslatable rule is replaced by. */
  function UntranslatedLine(status: ValidationStatus, raw: string, notes: string): (line: string)
    ensures StartsWith(line, "! UNTRANSLATED")
    ensures Contains(line, raw)
  {
    var before := "! UNTRANSLATED (" + StatusName(status) + "): ";
    ContainsInside(before, raw, " # Reason: " + notes);
    assert before + raw + " # Reason: " + notes == before + raw + (" # Reason: " + notes);
    assert (before + raw + " # Reason: " + notes)[..14] == "! UNTRANSLATED";
    before + raw + " # Reason: " + notes
  }

  /** The last step: a rule not translated and not exempt is commented out, or dropped under the drop strategy. */
  function Untranslatable(strategy: string, status: ValidationStatus, raw: string, w: Rule): Rule {
    if w.translationStatus == Some(Translated) || w.translationStatus == Some(NotNeeded) then w
    else
      var notes := w.validationNotes.GetOr(NoReasonGiven);
      if strategy == CommentOutStrategy then
        w.(translatedRule := Some(UntranslatedLine(status, raw, notes)), translationStatus := Some(CommentedOut))
      else if strategy == DropStrategy then
        w.(translationStatus := Some(Dropped))
      else
        w.(translatedRule := Some(UntranslatedLine(status, raw, notes)), translationStatus := Some(CommentedOut))
  }

  /** A record rewritten through entry `p` into `text`: now valid, with a note naming the original and the entry. */
  function TranslatedBy(p: PatternEntry, text: string, v: Rule): Rule {
    var raw := v.rawRule.GetOr("");
    v.(translatedRule := Some(text), translationStatus := Some(Translated), validationStatus := Some(Valid),
       validationNotes := Some("Originally '" + raw + "'. Translated from '" + p.name + "'. " + p.notes.GetOr("")))
  }

  /** The record after `translate_rule` with the given strategy. */
  function TranslatedRule(e: Engine, translation: seq<PatternEntry>, strategy: string, v: Rule): (r: Rule)
    ensures r == v.(translatedRule := r.translatedRule, translationStatus := r.translationStatus,
                    validationStatus := r.validationStatus, validationNotes := r.validationNotes)
    ensures r.translationStatus.Some? && r.translationStatus != Some(Failed)
  {
    var status := v.validationStatus;
    var raw := v.rawRule.GetOr("");
    if status != Some(NeedsTranslation) && status != Some(Unsupported) then
      v.(translationStatus := Some(NotNeeded))
    else if status == Some(NeedsTranslation) && RenderedTranslation(e, translation, raw).Some? then
      TranslatedBy(RenderedTranslation(e, translation, raw).value.0, RenderedTranslation(e, translation, raw).value.1, v)
    else
      var w := if status == Some(NeedsTranslation) then v.(translationStatus := Some(Failed)) else v;
      Untranslatable(strategy, status.value, raw, w)
  }

  /** A record the validator did not send on is only marked as needing no translation. */
  lemma NotNeededOnly(e: Engine, translation: seq<PatternEntry>, strategy: string, v: Rule)
    requires v.validationStatus != Some(NeedsTranslation) && v.validationStatus != Some(Unsupported)
    ensures TranslatedRule(e, translation, strategy, v) == v.(translationStatus := Some(NotNeeded))
  {
  }

  /**
   * On a record the translator has not seen before: it is translated exactly when it needs
   * translation and its template renders, and is then valid and carries the rendering; any
   * other rule sent on is dropped under the drop strategy, which leaves its text alone, and
   * otherwise commented out with its status, its text and the reason.
   */
  lemma {:induction false} FirstTranslation(e: Engine, translation: seq<PatternEntry>, strategy: string, v: Rule)
    requires v.translationStatus.None?
    requires v.validationStatus == Some(NeedsTranslation) || v.validationStatus == Some(Unsupported)
    ensures var r := TranslatedRule(e, translation, strategy, v);
            var raw := v.rawRule.GetOr("");
            var ok := v.validationStatus == Some(NeedsTranslation) && RenderedTranslation(e, translation, raw).Some?;
            && (r.translationStatus == Some(Translated) <==> ok)
            && (ok ==> r.validationStatus == Some(Valid)
                       && r.translatedRule == Some(RenderedTranslation(e, translation, raw).value.1))
            && (r.translationStatus == Some(Dropped) <==> !ok && strategy == DropStrategy)
            && (r.translationStatus == Some(Dropped) ==> r == v.(translationStatus := Some(Dropped)))
            && (r.translationStatus == Some(CommentedOut) <==> !ok && strategy != DropStrategy)
            && (r.translationStatus == Some(CommentedOut) ==>
                  r.translatedRule == Some(UntranslatedLine(v.validationStatus.value, raw,
                                                            v.validationNotes.GetOr(NoReasonGiven)))
                  && r.validationStatus == v.validationStatus && r.validationNotes == v.validationNotes)
  {
    var raw := v.rawRule.GetOr("");
    if v.validationStatus == Some(NeedsTranslation) && RenderedTranslation(e, translation, raw).Some? {
    } else {
      var w := if v.validationStatus == Some(NeedsTranslation) then v.(translationStatus := Some(Failed)) else v;
      assert w.translationStatus != Some(Translated) && w.translationStatus != Some(NotNeeded);
      assert w.validationNotes == v.validationNotes && w.validationStatus == v.validationStatus;
    }
  }

  /** A strategy other than the two known ones behaves as commenting out. */
  lemma UnknownStrategyCommentsOut(e: Engine, translation: seq<PatternEntry>, strategy: string, v: Rule)
    requires strategy != CommentOutStrategy && strategy != DropStrategy
    ensures TranslatedRule(e, translation, strategy, v) == TranslatedRule(e, translation, CommentOutStrategy, v)
  {
  }

  /** `RuleTranslator`: translates records in place against one database, with a fixed strategy. */
  class RuleTranslator {
    const db: SyntaxDB
    const strategy: string

    constructor (db: SyntaxDB, strategy: string := CommentOutStrategy)
      ensures this.db == db && this.strategy == strategy
    {
      this.db := db;
      this.strategy := strategy;
    }

    /** `translate_rule`: updates the record's translation keys (and validation keys on success), handing back the same record. */
    method TranslateRule(rule: RuleRecord) returns (out: RuleRecord)
      modifies rule
      ensures out == rule
      ensures rule.Snapshot() == TranslatedRule(db.engine, db.translation, strategy, old(rule.Snapshot()))
    {
      out := rule;
      var status := rule.validationStatus;
      var original := rule.rawRule.GetOr("");
      if status != Some(NeedsTranslation) && status != Some(Unsupported) {
        rule.translationStatus := Some(NotNeeded);
        return;
      }
      if status == Some(NeedsTranslation) {
        var translation := TryTranslate(original);
        if translation.Some? {
          MarkTranslated(rule, translation.value.0, translation.value.1);
          return;
        }
        rule.translationStatus := Some(Failed);
      }
      HandleUntranslated(rule, status.value, original);
    }

    /** Records a successful translation on the rule. */
    method MarkTranslated(rule: RuleRecord, p: PatternEntry, translated: string)
      modifies rule
      ensures rule.Snapshot() == TranslatedBy(p, translated, old(rule.Snapshot()))
    {
      var original := rule.rawRule.GetOr("");
      rule.translatedRule := Some(translated);
      rule.translationStatus := Some(Translated);
      rule.validationStatus := Some(Valid);
      rule.validationNotes := Some("Originally '" + original + "'. Translated from '" + p.name + "'. " + p.notes.GetOr(""));
    }

    /** The strategy applied to a rule left untranslated: comment it out, or drop it. */
    method HandleUntranslated(rule: RuleRecord, status: ValidationStatus, original: string)
      modifies rule
      ensures rule.Snapshot() == Untranslatable(strategy, status, original, old(rule.Snapshot()))
    {
      if rule.translationStatus != Some(Translated) && rule.translationStatus != Some(NotNeeded) {
        var notes := rule.validationNotes.GetOr(NoReasonGiven);
        if strategy == CommentOutStrategy {
          rule.translatedRule := Some(UntranslatedLine(status, original, notes));
          rule.translationStatus := Some(CommentedOut);
        } else if strategy == DropStrategy {
          rule.translationStatus := Some(Dropped);
        } else {
          rule.translatedRule := Some(UntranslatedLine(status, original, notes));
          rule.translationStatus := Some(CommentedOut);
        }
      }
    }

    /** Looks the text up among the translation entries and renders the entry's template with the match. */
    method TryTranslate(original: string) returns (r: Option<(PatternEntry, string)>)
      ensures r == RenderedTranslation(db.engine, db.translation, original)
    {
      var candidate := db.FindTranslationCandidate(original);
      if candidate.Some? && candidate.value.pattern.template.Some? {
        var p := candidate.value.pattern;
        var translated := Render(p.template.value, ArgsOf(candidate.value.groups));
        if translated.Some? {
          return Some((p, translated.value));
        }
      }
      r := None;
    }
  }
}
