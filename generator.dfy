/**
 * The list generator's collecting state: unique rule texts with their count, header
 * comments, and metadata gathered per key, and the two sorted sections the rule texts are
 * written out in.
 */
module Generator {
  import opened Wrappers
  import opened Strings
  import opened Collections
  import opened Ordering
  import opened Rules

  const HomepageMarker := "! Homepage:"

  /** The generator's fields as a value. */
  datatype GenState = GenState(
    outputFile: string,
    processedRules: set<string>,
    headerComments: seq<string>,
    footerComments: seq<string>,
    ruleCount: int,
    metadataComments: map<string, seq<string>>)

  /** What the generator maintains: the count is the number of unique texts, none of them empty, and no header line twice. */
  predicate Inv(g: GenState) {
    g.ruleCount == |g.processedRules| && [] !in g.processedRules && NoDuplicates(g.headerComments)
  }

  /** Nothing collected yet. */
  function Initial(outputFile: string): (g: GenState)
    ensures Inv(g)
    ensures g.processedRules == {} && g.headerComments == [] && g.footerComments == [] && g.metadataComments == map[]
  {
    GenState(outputFile, {}, [], [], 0, map[])
  }

  /** The text a record contributes to the list, before the emptiness check. */
  function FinalText(r: Rule): (t: Option<string>)
    ensures t.Some? ==> (r.validationStatus == Some(Valid) && r.translationStatus == Some(NotNeeded))
                        || r.translationStatus == Some(Translated) || r.translationStatus == Some(CommentedOut)
    ensures r.translationStatus == Some(Translated) || r.translationStatus == Some(CommentedOut) ==> t == r.translatedRule
    ensures r.validationStatus == Some(Valid) && r.translationStatus == Some(NotNeeded) ==> t == r.rawRule
  {
    if r.validationStatus == Some(Valid) && r.translationStatus == Some(NotNeeded) then r.rawRule
    else if r.translationStatus == Some(Translated) then r.translatedRule
    else if r.translationStatus == Some(CommentedOut) then r.translatedRule
    else None
  }

  /** `add_comment_to_header` on the state: append the line unless it is already there. */
  function WithHeader(g: GenState, line: string): (h: GenState)
    ensures line in h.headerComments
    ensures h == g.(headerComments := h.headerComments)
    ensures NoDuplicates(g.headerComments) ==> NoDuplicates(h.headerComments)
    ensures forall x :: x in h.headerComments <==> x in g.headerComments || x == line
    ensures g.headerComments <= h.headerComments && |h.headerComments| <= |g.headerComments| + 1
    ensures line !in g.headerComments ==> h.headerComments == g.headerComments + [line]
  {
    if line in g.headerComments then g else g.(headerComments := g.headerComments + [line])
  }

  /** The metadata entry a record with a non-empty key and value adds under its key. */
  function MetadataNote(r: Rule): string
    requires r.value.Some?
  {
    r.value.value + " (from " + r.listName + ")"
  }

  /** `add_rule` on the state. */
  function Added(g: GenState, r: Rule): (h: GenState)
    ensures h.outputFile == g.outputFile && h.footerComments == g.footerComments
    ensures h.processedRules == g.processedRules
            || (FinalText(r).Some? && h.processedRules == g.processedRules + {FinalText(r).value})
    ensures h.metadataComments.Keys <= g.metadataComments.Keys + (if r.key.Some? then {r.key.value} else {})
  {
    if TypeName(r.kind) == "metadata" then
      if r.key.Some? && r.key.value != [] && r.value.Some? && r.value.value != [] then
        var k := r.key.value;
        var prior := if k in g.metadataComments then g.metadataComments[k] else [];
        g.(metadataComments := g.metadataComments[k := prior + [MetadataNote(r)]])
      else g
    else if TypeName(r.kind) == "comment" && Contains(r.originalLine, HomepageMarker) then
      WithHeader(g, r.originalLine)
    else
      match FinalText(r)
      case Some(t) =>
        if t != [] && t !in g.processedRules then
          g.(processedRules := g.processedRules + {t}, ruleCount := g.ruleCount + 1)
        else g
      case None => g
  }

  /** Adding a record keeps the invariant. */
  lemma AddedKeepsInv(g: GenState, r: Rule)
    requires Inv(g)
    ensures Inv(Added(g, r))
  {
  }

  /**
   * What adding a record does to the rule texts: a filter record's non-empty final text is
   * added and counted once, and nothing else ever changes the texts or the count.
   */
  lemma AddedRules(g: GenState, r: Rule)
    requires Inv(g)
    ensures var h := Added(g, r);
            var t := FinalText(r);
            var counted := TypeName(r.kind) != "metadata"
                           && !(TypeName(r.kind) == "comment" && Contains(r.originalLine, HomepageMarker))
                           && t.Some? && t.value != [];
            && (counted ==> h.processedRules == g.processedRules + {t.value})
            && (!counted ==> h.processedRules == g.processedRules)
            && (h.ruleCount == g.ruleCount + 1 <==> counted && t.value !in g.processedRules)
            && h.ruleCount == |h.processedRules|
            && (TypeName(r.kind) != "metadata" && !(TypeName(r.kind) == "comment" && Contains(r.originalLine, HomepageMarker))
                ==> h == g.(processedRules := h.processedRules, ruleCount := h.ruleCount))
  {
  }

  /** A record whose final text is already collected, or empty, changes nothing at all. */
  lemma AddedKnownText(g: GenState, r: Rule)
    requires TypeName(r.kind) != "metadata" && !(TypeName(r.kind) == "comment" && Contains(r.originalLine, HomepageMarker))
    requires FinalText(r).Some? && (FinalText(r).value in g.processedRules || FinalText(r).value == [])
    ensures Added(g, r) == g
  {
  }

  /**
   * A metadata record with a key and a value appends its note to the values gathered under
   * the key, creating the key if it is new; nothing else changes.
   */
  lemma AddedMetadata(g: GenState, r: Rule)
    requires TypeName(r.kind) == "metadata"
    requires r.key.Some? && r.key.value != [] && r.value.Some? && r.value.value != []
    ensures var h := Added(g, r);
            var k := r.key.value;
            && k in h.metadataComments
            && h.metadataComments[k] == (if k in g.metadataComments then g.metadataComments[k] else []) + [MetadataNote(r)]
            && (forall k' :: k' != k ==> (k' in h.metadataComments <==> k' in g.metadataComments))
            && (forall k' :: k' != k && k' in g.metadataComments ==> h.metadataComments[k'] == g.metadataComments[k'])
            && h == g.(metadataComments := h.metadataComments)
  {
  }

  /** A metadata record lacking a key or a value adds nothing. */
  lemma AddedIncompleteMetadata(g: GenState, r: Rule)
    requires TypeName(r.kind) == "metadata"
    requires !(r.key.Some? && r.key.value != [] && r.value.Some? && r.value.value != [])
    ensures Added(g, r) == g
  {
  }

  /** A comment holding `! Homepage:` goes to the header, in first-seen order, and changes nothing else. */
  lemma AddedHomepage(g: GenState, r: Rule)
    requires TypeName(r.kind) == "comment" && Contains(r.originalLine, HomepageMarker)
    ensures Added(g, r) == WithHeader(g, r.originalLine)
    ensures Added(g, r) == g.(headerComments := Added(g, r).headerComments)
    ensures g.headerComments <= Added(g, r).headerComments
    ensures r.originalLine !in g.headerComments ==> Added(g, r).headerComments == g.headerComments + [r.originalLine]
    ensures r.originalLine in g.headerComments ==> Added(g, r) == g
  {
  }

  /** Adding the same record twice is the same as adding it once. */
  lemma AddedTwice(g: GenState, r: Rule)
    ensures Added(Added(g, r), r).processedRules == Added(g, r).processedRules
    ensures Added(Added(g, r), r).ruleCount == Added(g, r).ruleCount
    ensures Added(Added(g, r), r).headerComments == Added(g, r).headerComments
  {
  }

  /** A record the translator dropped, or one never validated as valid nor translated, adds no rule text. */
  lemma DroppedNotEmitted(g: GenState, r: Rule)
    requires r.translationStatus == Some(Dropped) || r.translationStatus == Some(Failed) || r.translationStatus.None?
    ensures Added(g, r).processedRules == g.processedRules && Added(g, r).ruleCount == g.ruleCount
  {
  }

  /** The texts of one section: those starting with `!` (the commented-out ones), or the others. */
  function Section(texts: set<string>, commented: bool): set<string> {
    set t | t in texts && StartsWith(t, "!") == commented
  }

  /** The two sorted sections the texts are written in: real rules, then commented-out ones. */
  ghost function Sections(texts: set<string>): (seq<string>, seq<string>) {
    (SortedOf(Section(texts, false)), SortedOf(Section(texts, true)))
  }

  /** Each text is written exactly once, in the section its first character picks, and each section ascends. */
  lemma {:induction false} SectionsPartition(texts: set<string>)
    ensures var (rules, commented) := Sections(texts);
            && StrictlySorted(rules) && StrictlySorted(commented)
            && (forall t :: t in texts && !StartsWith(t, "!") <==> t in rules)
            && (forall t :: t in texts && StartsWith(t, "!") <==> t in commented)
            && |rules| + |commented| == |texts|
  {
    var a, b := Section(texts, false), Section(texts, true);
    assert a + b == texts;
    assert a * b == {};
    assert |a + b| == |a| + |b| - |a * b|;
  }

  /** `ListGenerator`: collects rule texts, header comments and metadata for the output list. */
  class ListGenerator {
    var outputFile: string
    var processedRules: set<string>
    var headerComments: seq<string>
    var footerComments: seq<string>
    var ruleCount: int
    var metadataComments: map<string, seq<string>>

    function State(): GenState
      reads this
    {
      GenState(outputFile, processedRules, headerComments, footerComments, ruleCount, metadataComments)
    }

    ghost predicate Valid()
      reads this
    {
      Inv(State())
    }

    constructor (outputFile: string)
      ensures State() == Initial(outputFile)
      ensures Valid()
    {
      this.outputFile := outputFile;
      processedRules := {};
      headerComments := [];
      footerComments := [];
      ruleCount := 0;
      metadataComments := map[];
    }

    /** `add_rule`: files metadata, keeps homepage comments, and adds the record's final text once. */
    method AddRule(rule: RuleRecord)
      modifies this
      ensures old(Valid()) ==> Valid()
      ensures State() == Added(old(State()), rule.Snapshot())
    {
      var ruleType := TypeName(rule.kind);
      if ruleType == "metadata" {
        var key := rule.key;
        var value := rule.value;
        if key.Some? && key.value != [] && value.Some? && value.value != [] {
          if key.value !in metadataComments {
            metadataComments := metadataComments[key.value := []];
          }
          metadataComments := metadataComments[key.value := metadataComments[key.value] + [value.value + " (from " + rule.listName + ")"]];
        }
        return;
      }
      if ruleType == "comment" && Contains(rule.originalLine, HomepageMarker) {
        AddCommentToHeader(rule.originalLine);
        return;
      }
      var finalText := FinalText(rule.Snapshot());
      if finalText.Some? && finalText.value != [] && finalText.value !in processedRules {
        processedRules := processedRules + {finalText.value};
        ruleCount := ruleCount + 1;
      }
    }

    /** `add_comment_to_header`: appends the line unless the header already holds it. */
    method AddCommentToHeader(line: string)
      modifies this
      ensures old(Valid()) ==> Valid()
      ensures State() == WithHeader(old(State()), line)
    {
      if line !in headerComments {
        headerComments := headerComments + [line];
      }
    }
  }
}
