/**
 * The rule validator: gives every parsed record a validation status and a note, checking
 * a filter rule first against the unsupported entries, then against the translation
 * entries, and finally against a coarse shape heuristic.
 */
module Validator {
  import opened Wrappers
  import opened Strings
  import opened Rules
  import opened SyntaxDb

  const PassThroughNote := "Not a filter rule, passed through."
  const EmptyNote := "Empty rule string."
  const NetworkNote := "Likely a valid network rule or exception."
  const CosmeticNote := "Likely a valid cosmetic/scriptlet/html rule or exception."
  const NoReason := "No specific reason provided."
  const TentativeNote := "Tentatively valid. Detailed syntax check for options/selectors needed. Notes: "
  const UnmatchedNote := "Rule structure does not match common Brave/ABP/uBO patterns or known "
                         + "translatable/unsupported syntax. Requires review. Notes: "

  /** The status a record of the named type is passed through with, if it is one of those types. */
  function PassThroughStatus(typeName: string): (r: Option<ValidationStatus>)
    ensures r.Some? <==> typeName in ["comment", "metadata", "empty", "error"]
    ensures r.Some? ==> StatusName(r.value) == typeName
  {
    if typeName == "comment" then Some(Comment)
    else if typeName == "metadata" then Some(Metadata)
    else if typeName == "empty" then Some(Empty)
    else if typeName == "error" then Some(Error)
    else None
  }

  /** The network half of the heuristic, on the stripped rule text and the parsed flags. */
  predicate LooksNetwork(text: string, sh: Shape) {
    StartsWith(text, "||") || StartsWith(text, "|http")
    || (!Contains(text, "##") && !Contains(text, "#@#") && Contains(text, "/") && !StartsWith(text, "!"))
    || (sh.isException && !sh.isCosmetic)
  }

  /** The cosmetic half of the heuristic: any of the parser's cosmetic flags. */
  predicate LooksCosmetic(sh: Shape) {
    sh.isCosmetic || sh.isHtmlFilter || sh.isScriptlet
  }

  /** The notes the heuristic collects: one for the branch that accepted the rule, none if neither did. */
  function HeuristicNotes(text: string, sh: Shape): (ns: seq<string>)
    ensures |ns| <= 1
    ensures ns == [] <==> !LooksNetwork(text, sh) && !LooksCosmetic(sh)
    ensures LooksNetwork(text, sh) ==> ns == [NetworkNote]
    ensures !LooksNetwork(text, sh) && LooksCosmetic(sh) ==> ns == [CosmeticNote]
  {
    if LooksNetwork(text, sh) then [NetworkNote]
    else if LooksCosmetic(sh) then [CosmeticNote]
    else []
  }

  /** The text a filter rule is checked with: its raw text, stripped, or empty if it has none. */
  function RuleText(v: Rule): string {
    Strip(v.rawRule.GetOr(""))
  }

  /** The status and note `validate_rule` gives a record, against the given entry lists. */
  function Verdict(e: Engine, unsupported: seq<PatternEntry>, translation: seq<PatternEntry>, v: Rule)
    : (r: (ValidationStatus, string))
    ensures r.0 == NeedsTranslation || r.0 == Unsupported || r.0 == Valid ==> TypeName(v.kind) == "rule" && RuleText(v) != []
  {
    var typeName := TypeName(v.kind);
    if PassThroughStatus(typeName).Some? then (PassThroughStatus(typeName).value, PassThroughNote)
    else if typeName != "rule" then (Error, "Unknown rule type '" + typeName + "' for validation.")
    else
      var text := RuleText(v);
      if text == [] then (Empty, EmptyNote) else TextVerdict(e, unsupported, translation, text, v.shape)
  }

  /** The status and note of a filter rule with the given stripped, non-empty text and parsed shape. */
  function TextVerdict(e: Engine, unsupported: seq<PatternEntry>, translation: seq<PatternEntry>, text: string, sh: Shape)
    : (r: (ValidationStatus, string))
    ensures r.0 == Unsupported || r.0 == NeedsTranslation || r.0 == Valid
  {
    match UnsupportedPattern(e, unsupported, text)
    case Some(p) =>
      (Unsupported, "Matches known unsupported pattern: " + p.name + ". Reason: " + p.notes.GetOr(NoReason))
    case None =>
      match TranslationCandidate(e, translation, text)
      case Some(c) =>
        (NeedsTranslation, "Matches pattern '" + c.pattern.name + "' which may be translatable. "
                           + c.pattern.notes.GetOr(""))
      case None => HeuristicVerdict(text, sh)
  }

  /** The verdict of the shape heuristic on a rule no entry matched. */
  function HeuristicVerdict(text: string, sh: Shape): (r: (ValidationStatus, string))
    ensures r.0 == Valid <==> LooksNetwork(text, sh) || LooksCosmetic(sh)
    ensures r.0 != Valid ==> r == (Unsupported, UnmatchedNote)
    ensures LooksNetwork(text, sh) ==> r == (Valid, TentativeNote + NetworkNote)
    ensures !LooksNetwork(text, sh) && LooksCosmetic(sh) ==> r == (Valid, TentativeNote + CosmeticNote)
  {
    var ns := HeuristicNotes(text, sh);
    if ns != [] then
      (Valid, TentativeNote + JoinWith(ns, ", "))
    else
      assert UnmatchedNote + JoinWith(ns, ", ") == UnmatchedNote;
      (Unsupported, UnmatchedNote + JoinWith(ns, ", "))
  }

  /** The record after validation: its status and note set, every other key as it was. */
  function Validated(e: Engine, unsupported: seq<PatternEntry>, translation: seq<PatternEntry>, v: Rule): (r: Rule)
    ensures r.validationStatus.Some? && r.validationNotes.Some?
    ensures r == v.(validationStatus := r.validationStatus, validationNotes := r.validationNotes)
  {
    var verdict := Verdict(e, unsupported, translation, v);
    v.(validationStatus := Some(verdict.0), validationNotes := Some(verdict.1))
  }

  /** Is `v` a filter rule with some text left after stripping? */
  predicate IsCheckedRule(v: Rule) {
    TypeName(v.kind) == "rule" && RuleText(v) != []
  }

  /** Records that are not checked rules: the pass-through types keep their name, other types are errors, a rule without text is empty. */
  lemma VerdictUnchecked(e: Engine, unsupported: seq<PatternEntry>, translation: seq<PatternEntry>, v: Rule)
    requires !IsCheckedRule(v)
    ensures var s := Verdict(e, unsupported, translation, v).0;
            && (TypeName(v.kind) in ["comment", "metadata", "empty", "error"] ==> StatusName(s) == TypeName(v.kind))
            && (s == Error <==> TypeName(v.kind) !in ["comment", "metadata", "empty", "rule"])
            && (s == Empty <==> TypeName(v.kind) in ["empty", "rule"])
            && s in {Comment, Metadata, Empty, Error}
  ensures var tn := TypeName(v.kind);
          var r := Verdict(e, unsupported, translation, v);
          && (PassThroughStatus(tn).Some? ==> r == (PassThroughStatus(tn).value, PassThroughNote))
          && (tn == "rule" ==> r == (Empty, EmptyNote))
          && (PassThroughStatus(tn).None? && tn != "rule" ==> r == (Error, "Unknown rule type '" + tn + "' for validation."))
  {
    var tn := TypeName(v.kind);
    if PassThroughStatus(tn).Some? {
      assert tn != "rule";
    }
  }

  /**
   * The note of a checked rule names what decided its status: the unsupported entry with its
   * reason, else the translation entry with its notes, else the heuristic's note.
   */
  lemma TextVerdictNotes(e: Engine, unsupported: seq<PatternEntry>, translation: seq<PatternEntry>, text: string, sh: Shape)
    ensures var u := UnsupportedPattern(e, unsupported, text);
            var c := TranslationCandidate(e, translation, text);
            var r := TextVerdict(e, unsupported, translation, text, sh);
            && (u.Some? ==> r == (Unsupported, "Matches known unsupported pattern: " + u.value.name + ". Reason: "
                                               + u.value.notes.GetOr(NoReason)))
            && (u.None? && c.Some? ==> r == (NeedsTranslation, "Matches pattern '" + c.value.pattern.name
                                                               + "' which may be translatable. " + c.value.pattern.notes.GetOr("")))
            && (u.None? && c.None? ==> r == HeuristicVerdict(text, sh))
  {
  }

  /**
   * A checked rule is unsupported, needs translation or is valid, by the first check it meets:
   * an unsupported entry, then a translation entry, then the heuristic.
   */
  lemma VerdictChecked(e: Engine, unsupported: seq<PatternEntry>, translation: seq<PatternEntry>, v: Rule)
    requires IsCheckedRule(v)
    ensures var s := Verdict(e, unsupported, translation, v).0;
            var text := RuleText(v);
            && (s == Valid <==> (UnsupportedPattern(e, unsupported, text).None?
                                 && TranslationCandidate(e, translation, text).None?
                                 && (LooksNetwork(text, v.shape) || LooksCosmetic(v.shape))))
            && (s == NeedsTranslation <==> (UnsupportedPattern(e, unsupported, text).None?
                                            && TranslationCandidate(e, translation, text).Some?))
            && (s == Unsupported <==> (UnsupportedPattern(e, unsupported, text).Some?
                                       || (TranslationCandidate(e, translation, text).None?
                                           && !LooksNetwork(text, v.shape) && !LooksCosmetic(v.shape))))
            && s in {Valid, NeedsTranslation, Unsupported}
  {
    assert PassThroughStatus("rule").None?;
    assert Verdict(e, unsupported, translation, v) == TextVerdict(e, unsupported, translation, RuleText(v), v.shape);
    TextVerdictStatus(e, unsupported, translation, RuleText(v), v.shape);
  }

  /** The status part of `TextVerdict`, by the first check that fires. */
  lemma TextVerdictStatus(e: Engine, unsupported: seq<PatternEntry>, translation: seq<PatternEntry>, text: string, sh: Shape)
    ensures var s := TextVerdict(e, unsupported, translation, text, sh).0;
            && (s == Valid <==> (UnsupportedPattern(e, unsupported, text).None?
                                 && TranslationCandidate(e, translation, text).None?
                                 && (LooksNetwork(text, sh) || LooksCosmetic(sh))))
            && (s == NeedsTranslation <==> (UnsupportedPattern(e, unsupported, text).None?
                                            && TranslationCandidate(e, translation, text).Some?))
            && (s == Unsupported <==> (UnsupportedPattern(e, unsupported, text).Some?
                                       || (TranslationCandidate(e, translation, text).None?
                                           && !LooksNetwork(text, sh) && !LooksCosmetic(sh))))
            && s in {Valid, NeedsTranslation, Unsupported}
  {
    if UnsupportedPattern(e, unsupported, text).None? && TranslationCandidate(e, translation, text).None? {
      assert TextVerdict(e, unsupported, translation, text, sh) == HeuristicVerdict(text, sh);
    }
  }

  /** An entry in the unsupported list takes precedence over any translation entry. */
  lemma UnsupportedFirst(e: Engine, unsupported: seq<PatternEntry>, translation: seq<PatternEntry>, v: Rule)
    requires IsCheckedRule(v) && UnsupportedPattern(e, unsupported, RuleText(v)).Some?
    ensures Verdict(e, unsupported, translation, v).0 == Unsupported
  {
  }

  /** With no entries at all, a checked rule is valid exactly when the heuristic accepts it. */
  lemma EmptyDatabaseVerdict(e: Engine, v: Rule)
    requires IsCheckedRule(v)
    ensures Verdict(e, [], [], v).0 == Valid <==> LooksNetwork(RuleText(v), v.shape) || LooksCosmetic(v.shape)
  {
  }

  /** Validation reads none of the keys it writes, so validating again changes nothing. */
  lemma ValidatedIdempotent(e: Engine, unsupported: seq<PatternEntry>, translation: seq<PatternEntry>, v: Rule)
    ensures Validated(e, unsupported, translation, Validated(e, unsupported, translation, v))
            == Validated(e, unsupported, translation, v)
  {
  }

  /** `RuleValidator`: validates records in place against one database. */
  class RuleValidator {
    const db: SyntaxDB

    constructor (db: SyntaxDB)
      ensures this.db == db
    {
      this.db := db;
    }

    /** `validate_rule`: sets the record's status and note, and hands back the same record. */
    method ValidateRule(rule: RuleRecord) returns (out: RuleRecord)
      modifies rule
      ensures out == rule
      ensures rule.Snapshot() == Validated(db.engine, db.unsupported, db.translation, old(rule.Snapshot()))
    {
      out := rule;
      var status: ValidationStatus;
      var note: string;
      var typeName := TypeName(rule.kind);
      var pass := PassThroughStatus(typeName);
      var text := Strip(rule.rawRule.GetOr(""));
      var shape := rule.shape;
      if pass.Some? {
        status, note := pass.value, PassThroughNote;
      } else if typeName != "rule" {
        status, note := Error, "Unknown rule type '" + typeName + "' for validation.";
      } else if text == [] {
        status, note := Empty, EmptyNote;
      } else {
        status, note := CheckText(text, shape);
      }
      rule.validationStatus := Some(status);
      rule.validationNotes := Some(note);
    }

    /** The checks `validate_rule` makes on the stripped text of a filter rule. */
    method CheckText(text: string, shape: Shape) returns (status: ValidationStatus, note: string)
      ensures (status, note) == TextVerdict(db.engine, db.unsupported, db.translation, text, shape)
    {
      var unsupportedInfo := db.FindUnsupportedPattern(text);
      if unsupportedInfo.Some? {
        var p := unsupportedInfo.value;
        return Unsupported, "Matches known unsupported pattern: " + p.name + ". Reason: " + p.notes.GetOr(NoReason);
      }
      var candidate := db.FindTranslationCandidate(text);
      if candidate.Some? {
        var p := candidate.value.pattern;
        return NeedsTranslation, "Matches pattern '" + p.name + "' which may be translatable. " + p.notes.GetOr("");
      }
      status, note := CheckShape(text, shape);
    }

    /** The heuristic checks on a rule no entry matched. */
    method CheckShape(text: string, shape: Shape) returns (status: ValidationStatus, note: string)
      ensures (status, note) == HeuristicVerdict(text, shape)
    {
      var isLikelyValid := false;
      var notes: seq<string> := [];
      if LooksNetwork(text, shape) {
        isLikelyValid := true;
        notes := notes + [NetworkNote];
      } else if LooksCosmetic(shape) {
        isLikelyValid := true;
        notes := notes + [CosmeticNote];
      }
      if isLikelyValid {
        status := Valid;
        note := TentativeNote + JoinWith(notes, ", ");
      } else {
        status := Unsupported;
        note := UnmatchedNote + JoinWith(notes, ", ");
      }
    }
  }
}
