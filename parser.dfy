/**
 * The line classifier: one raw line becomes one tagged record (`empty`, `comment`,
 * `metadata` or `rule`). A rule is decomposed by its exception form, the fixed-priority
 * chain of cosmetic markers and the naive comma split of its `$`-options.
 */
module Parser {
  import opened Wrappers
  import opened Strings
  import opened Rules
  import opened Collections

  // ---------------------------------------------------------------------------------
  // Comments and metadata
  // ---------------------------------------------------------------------------------

  /**
   * The comment grammar, a full match of leading whitespace followed by `!`, `#` or
   * `[Adblock` and then any characters other than a newline.
   */
  predicate IsCommentText(s: string) {
    var t := s[SkipSpace(s, 0)..];
    '\n' !in t && (StartsWith(t, "!") || StartsWith(t, "#") || StartsWith(t, "[Adblock"))
  }

  /** A character of the class `[A-Za-z\s]` that a metadata key is made of. */
  predicate IsKeyChar(c: char) {
    ('A' <= c <= 'Z') || ('a' <= c <= 'z') || IsSpace(c)
  }

  predicate IsKeyRun(w: string) {
    forall k :: 0 <= k < |w| ==> IsKeyChar(w[k])
  }

  /** The first index at or after `i` that does not hold a key character. */
  function KeyRunEnd(s: string, i: nat): (p: nat)
    requires i <= |s|
    ensures i <= p <= |s| && IsKeyRun(s[i..p]) && (p < |s| ==> !IsKeyChar(s[p]))
    decreases |s| - i
  {
    if i < |s| && IsKeyChar(s[i]) then
      var p := KeyRunEnd(s, i + 1);
      assert s[i..p] == [s[i]] + s[i + 1..p];
      p
    else i
  }

  /** The metadata key made of the captured run: trimmed, lower-cased, spaces turned to `_`. */
  function MetadataKey(w: string): string {
    ReplaceChar(ToLower(Strip(w)), ' ', '_')
  }

  /**
   * The metadata match `! Key: Value` on a stripped comment line: `!`, a non-empty run of
   * letters and whitespace, `:`, and a non-empty remainder. Its key and its trimmed value.
   */
  function MetadataOf(s: string): (r: Option<(string, string)>)
    requires Strip(s) == s && '\n' !in s
    ensures r.Some? ==> StartsWith(s, "!") && r.value.1 != []
  {
    if !StartsWith(s, "!") then None
    else
      var p := KeyRunEnd(s, 1);
      if p == 1 || p >= |s| - 1 || s[p] != ':' then None
      else
        ValueNotEmpty(s, p + 1);
        Some((MetadataKey(s[1..p]), Strip(s[p + 1..])))
  }

  /** A line `!` + key run + `:` + remainder matches, with exactly that key and the trimmed remainder. */
  lemma MetadataMatch(s: string, p: nat)
    requires Strip(s) == s && '\n' !in s
    requires StartsWith(s, "!") && 1 < p < |s| - 1 && s[p] == ':' && IsKeyRun(s[1..p])
    ensures MetadataOf(s) == Some((MetadataKey(s[1..p]), Strip(s[p + 1..])))
  {
    KeyRunUnique(s, KeyRunEnd(s, 1), p);
  }

  /** Any line without that shape is not metadata. */
  lemma MetadataNoMatch(s: string)
    requires Strip(s) == s && '\n' !in s
    requires !StartsWith(s, "!") || forall p :: 1 < p < |s| - 1 && s[p] == ':' ==> !IsKeyRun(s[1..p])
    ensures MetadataOf(s).None?
  {
    if StartsWith(s, "!") {
      var p := KeyRunEnd(s, 1);
      if p != 1 && p < |s| - 1 && s[p] == ':' {
        assert false;
      }
    }
  }

  /** A `:` that ends a key run is the first character after the maximal run. */
  lemma KeyRunUnique(s: string, p: nat, q: nat)
    requires 1 <= p <= |s| && IsKeyRun(s[1..p]) && (p < |s| ==> !IsKeyChar(s[p]))
    requires 1 < q < |s| && s[q] == ':' && IsKeyRun(s[1..q])
    ensures q == p
  {
    assert forall k :: 1 <= k < p ==> s[1..p][k - 1] == s[k];
    assert forall k :: 1 <= k < q ==> s[1..q][k - 1] == s[k];
  }

  /** A non-empty suffix of a stripped text strips to a non-empty text. */
  lemma ValueNotEmpty(s: string, i: nat)
    requires Strip(s) == s && i < |s|
    ensures Strip(s[i..]) != []
  {
    var t := s[i..];
    assert t[|t| - 1] == s[|s| - 1];
    assert !IsSpace(s[|s| - 1]);
  }

  // ---------------------------------------------------------------------------------
  // Exception forms and cosmetic markers
  // ---------------------------------------------------------------------------------

  /** The three exception forms, tested in this order. */
  datatype ExceptionForm = NoException | NetworkException | UboCosmeticException | CosmeticException

  function ExceptionOf(s: string): (x: ExceptionForm)
    ensures x == NetworkException <==> StartsWith(s, "@@")
    ensures x == UboCosmeticException <==> !StartsWith(s, "@@") && Contains(s, "##@@")
    ensures x == CosmeticException <==> !StartsWith(s, "@@") && !Contains(s, "##@@") && Contains(s, "#@#")
  {
    if StartsWith(s, "@@") then NetworkException
    else if Contains(s, "##@@") then UboCosmeticException
    else if Contains(s, "#@#") then CosmeticException
    else NoException
  }

  /** The cosmetic and procedural markers, from the highest priority to the lowest. */
  datatype Marker = HtmlFilter | ScriptletInjection | PlainCosmetic | ExtendedCosmetic | CssInjection | AdgScriptlet

  function Token(m: Marker): string {
    match m
    case HtmlFilter => "##^"
    case ScriptletInjection => "##+"
    case PlainCosmetic => "##"
    case ExtendedCosmetic => "#?#"
    case CssInjection => "#$#"
    case AdgScriptlet => "#%#"
  }

  function Rank(m: Marker): nat {
    match m
    case HtmlFilter => 0
    case ScriptletInjection => 1
    case PlainCosmetic => 2
    case ExtendedCosmetic => 3
    case CssInjection => 4
    case AdgScriptlet => 5
  }

  /** The marker that decides a rule's shape: the highest-priority one present, wherever it occurs. */
  function WinningMarker(s: string): (r: Option<Marker>)
    ensures r.Some? ==> Contains(s, Token(r.value))
  {
    if Contains(s, Token(HtmlFilter)) then Some(HtmlFilter)
    else if Contains(s, Token(ScriptletInjection)) then Some(ScriptletInjection)
    else if Contains(s, Token(PlainCosmetic)) then Some(PlainCosmetic)
    else if Contains(s, Token(ExtendedCosmetic)) then Some(ExtendedCosmetic)
    else if Contains(s, Token(CssInjection)) then Some(CssInjection)
    else if Contains(s, Token(AdgScriptlet)) then Some(AdgScriptlet)
    else None
  }

  lemma MarkerCases(m: Marker)
    ensures m == HtmlFilter || m == ScriptletInjection || m == PlainCosmetic ||
            m == ExtendedCosmetic || m == CssInjection || m == AdgScriptlet
  {
  }

  /**
   * Marker priority: no marker is chosen exactly when none occurs, and the chosen one
   * outranks every other marker that occurs.
   */
  lemma WinningMarkerPriority(s: string)
    ensures WinningMarker(s).None? <==> forall m: Marker :: !Contains(s, Token(m))
    ensures WinningMarker(s).Some? ==>
      forall m: Marker :: Rank(m) < Rank(WinningMarker(s).value) ==> !Contains(s, Token(m))
  {
    forall m: Marker
      ensures WinningMarker(s).None? ==> !Contains(s, Token(m))
      ensures WinningMarker(s).Some? && Rank(m) < Rank(WinningMarker(s).value) ==> !Contains(s, Token(m))
    {
      MarkerCases(m);
    }
  }

  /** The part before a marker as `domains`: absent when empty. */
  function NonEmpty(s: string): (r: Option<string>)
    ensures r.None? <==> s == []
    ensures r.Some? ==> r.value == s
  {
    if s == [] then None else Some(s)
  }

  /** The selector a marker yields from the text after it; a scriptlet injection keeps its `+`. */
  function SelectorOf(m: Marker, rest: string): string {
    if m == ScriptletInjection then "+" + rest else rest
  }

  /** `s[2:]`, which is empty for a text shorter than two characters. */
  function Drop2(s: string): string {
    if |s| >= 2 then s[2..] else []
  }

  // ---------------------------------------------------------------------------------
  // Options
  // ---------------------------------------------------------------------------------

  function OptionKey(piece: string): string {
    if Contains(piece, "=") then ToLower(Strip(Before(piece, "="))) else ToLower(Strip(piece))
  }

  function OptionVal(piece: string): OptionValue {
    if Contains(piece, "=") then Value(Strip(After(piece, "="))) else Flag
  }

  /** The option map the comma-separated pieces fill in, one assignment per piece in order. */
  function OptionsOf(pieces: seq<string>): map<string, OptionValue> {
    AssignAll(pieces, OptionKey, OptionVal)
  }

  /** A key is in the option map exactly when some piece names it. */
  lemma OptionsOfKeys(pieces: seq<string>, k: string)
    ensures k in OptionsOf(pieces) <==> exists i :: 0 <= i < |pieces| && OptionKey(pieces[i]) == k
  {
    AssignAllKeys(pieces, OptionKey, OptionVal, k);
  }

  /** Later pieces overwrite earlier ones: a key holds the value of the last piece that names it. */
  lemma OptionsOfLastWins(pieces: seq<string>, i: nat)
    requires i < |pieces|
    requires forall j :: i < j < |pieces| ==> OptionKey(pieces[j]) != OptionKey(pieces[i])
    ensures OptionKey(pieces[i]) in OptionsOf(pieces)
    ensures OptionsOf(pieces)[OptionKey(pieces[i])] == OptionVal(pieces[i])
  {
    AssignAllLastWins(pieces, OptionKey, OptionVal, i);
  }

  /** Fills the option map from the comma-separated option text. */
  method ParseOptions(optionsStr: string) returns (opts: map<string, OptionValue>)
    ensures opts == OptionsOf(Split(optionsStr, ','))
  {
    var pieces := Split(optionsStr, ',');
    opts := map[];
    var i := 0;
    while i < |pieces|
      invariant 0 <= i <= |pieces|
      invariant opts == OptionsOf(pieces[..i])
    {
      var piece := pieces[i];
      if Contains(piece, "=") {
        opts := opts[ToLower(Strip(Before(piece, "="))) := Value(Strip(After(piece, "=")))];
      } else {
        opts := opts[ToLower(Strip(piece)) := Flag];
      }
      assert pieces[..i + 1][..i] == pieces[..i];
      i := i + 1;
    }
    assert pieces[..i] == pieces;
  }

  // ---------------------------------------------------------------------------------
  // The classification, stage by stage
  // ---------------------------------------------------------------------------------

  /** A rule's shape before any stage: its pattern is the whole stripped line. */
  function DefaultShape(s: string): Shape {
    NoShape.(pattern := Some(s))
  }

  function AfterException(s: string, sh: Shape): Shape {
    match ExceptionOf(s)
    case NetworkException => sh.(isException := true, pattern := Some(s[2..]))
    case UboCosmeticException => sh.(isException := true)
    case CosmeticException =>
      sh.(isException := true, domains := NonEmpty(Before(s, "#@#")), selector := Some(After(s, "#@#")),
          isCosmetic := true, pattern := Some(s))
    case NoException => sh
  }

  function AfterMarker(s: string, sh: Shape): Shape {
    match WinningMarker(s)
    case None => sh
    case Some(m) =>
      var sh1 := sh.(domains := NonEmpty(Before(s, Token(m))), selector := Some(SelectorOf(m, After(s, Token(m)))));
      match m
      case HtmlFilter => sh1.(isHtmlFilter := true)
      case ScriptletInjection => sh1.(isScriptlet := true)
      case AdgScriptlet => sh1.(isScriptlet := true)
      case _ => sh1.(isCosmetic := true)
  }

  /** Options are split off only for a rule no cosmetic, html or scriptlet flag was set on. */
  predicate TakesOptions(sh: Shape) {
    !sh.isCosmetic && !sh.isHtmlFilter && !sh.isScriptlet && sh.pattern.Some? && Contains(sh.pattern.value, "$")
  }

  /** The options text is split off the pattern and its pieces are assigned into the option map. */
  function AfterOptions(sh: Shape): Shape {
    if TakesOptions(sh) then
      var p := sh.pattern.value;
      var o := After(p, "$");
      sh.(pattern := Some(Before(p, "$")), optionsStr := Some(o), options := sh.options + OptionsOf(Split(o, ',')))
    else sh
  }

  /** A non-cosmetic exception's pattern is finally reset to the text without its first two characters. */
  function AfterPatternFix(s: string, sh: Shape): Shape {
    if sh.isException && !sh.isCosmetic then sh.(pattern := Some(Drop2(s))) else sh
  }

  /** The shape of a stripped, non-empty, non-comment line. */
  function RuleShape(s: string): (sh: Shape)
    ensures sh.pattern.Some?
    ensures sh.isException <==> ExceptionOf(s) != NoException
    ensures sh.optionsStr.Some? ==> !sh.isCosmetic && !sh.isHtmlFilter && !sh.isScriptlet
  {
    AfterPatternFix(s, AfterOptions(AfterMarker(s, AfterException(s, DefaultShape(s)))))
  }

  /** The record `parse_line` returns for one line. */
  function Classify(n: int, line: string, list: string): (r: Rule)
    ensures r.originalLine == line && r.lineNumber == n && r.listName == list
    ensures r.kind == EmptyLine <==> AllSpace(line)
    ensures r.kind == CommentLine || r.kind == MetadataLine <==> !AllSpace(line) && IsCommentText(Strip(line))
    ensures r.kind == FilterRule <==> !AllSpace(line) && !IsCommentText(Strip(line))
    ensures r.kind == FilterRule ==> r.rawRule == Some(Strip(line)) && r.shape == RuleShape(Strip(line))
    ensures r.kind != FilterRule ==> r.rawRule.None? && r.shape == NoShape
    ensures r.validationStatus.None? && r.validationNotes.None? && r.translationStatus.None? && r.translatedRule.None?
  {
    var s := Strip(line);
    if s == [] then Bare(EmptyLine, line, n, list)
    else if IsCommentText(s) then
      StripIdempotent(line);
      assert SkipSpace(s, 0) == 0;
      match MetadataOf(s)
      case Some(kv) => Bare(MetadataLine, line, n, list).(key := Some(kv.0), value := Some(kv.1))
      case None => Bare(CommentLine, line, n, list)
    else Bare(FilterRule, line, n, list).(rawRule := Some(s), shape := RuleShape(s))
  }

  // ---------------------------------------------------------------------------------
  // What the classification promises
  // ---------------------------------------------------------------------------------

  /** When a marker fires it alone decides the flags, and the text splits at its first occurrence. */
  lemma MarkerShape(s: string)
    requires WinningMarker(s).Some?
    ensures var sh := RuleShape(s);
            var m := WinningMarker(s).value;
            && sh.domains == NonEmpty(Before(s, Token(m)))
            && sh.selector == Some(SelectorOf(m, After(s, Token(m))))
            && (sh.isHtmlFilter <==> m == HtmlFilter)
            && (sh.isScriptlet <==> m == ScriptletInjection || m == AdgScriptlet)
            && (sh.isCosmetic <==> m == PlainCosmetic || m == ExtendedCosmetic || m == CssInjection
                                   || ExceptionOf(s) == CosmeticException)
            && sh.optionsStr.None?
  {
  }

  /** Without a marker no html or scriptlet flag is set, and only a `#@#` exception is cosmetic. */
  lemma NoMarkerShape(s: string)
    requires WinningMarker(s).None?
    ensures var sh := RuleShape(s);
            && !sh.isHtmlFilter && !sh.isScriptlet
            && (sh.isCosmetic <==> ExceptionOf(s) == CosmeticException)
            && (ExceptionOf(s) == CosmeticException ==>
                  sh.domains == NonEmpty(Before(s, "#@#")) && sh.selector == Some(After(s, "#@#")))
            && (ExceptionOf(s) != CosmeticException ==> sh.domains.None? && sh.selector.None?)
  {
  }

  /** `##^` beats every other marker: such a rule is an html filter split at the first `##^`. */
  lemma HtmlFilterWins(s: string)
    requires Contains(s, "##^")
    ensures var sh := RuleShape(s);
            sh.isHtmlFilter && !sh.isScriptlet && sh.selector == Some(After(s, "##^")) &&
            sh.domains == NonEmpty(Before(s, "##^"))
  {
    assert WinningMarker(s) == Some(HtmlFilter);
    MarkerShape(s);
  }

  /** The domains, the marker and the selector put back together give the stripped line. */
  lemma MarkerReassembles(s: string)
    requires WinningMarker(s).Some?
    ensures var sh := RuleShape(s);
            var m := WinningMarker(s).value;
            var tail := if m == ScriptletInjection then sh.selector.value[1..] else sh.selector.value;
            sh.domains.GetOr("") + Token(m) + tail == s
  {
    var m := WinningMarker(s).value;
    MarkerShape(s);
    SplitFirstJoins(s, Token(m));
  }

  /** The pattern the exception forms leave before options are split off. */
  function ExceptionPattern(s: string): string {
    if ExceptionOf(s) == NetworkException then s[2..] else s
  }

  /** The shape as the option stage receives it. */
  lemma BeforeOptions(s: string)
    ensures var sh1 := AfterMarker(s, AfterException(s, DefaultShape(s)));
            && sh1.options == map[] && sh1.optionsStr.None?
            && sh1.pattern == Some(ExceptionPattern(s))
            && (sh1.isException <==> ExceptionOf(s) != NoException)
            && (TakesOptions(sh1) <==> WinningMarker(s).None? && ExceptionOf(s) != CosmeticException
                                       && Contains(ExceptionPattern(s), "$"))
  {
    if WinningMarker(s).Some? {
      MarkerShape(s);
    } else {
      NoMarkerShape(s);
    }
  }

  /**
   * Options are split off exactly when no flag is set and the pattern left by the exception
   * forms holds a `$`: the text after the first `$` is the option text, and its pieces fill the map.
   */
  lemma OptionsSplitOff(s: string)
    ensures var sh := RuleShape(s);
            var p0 := ExceptionPattern(s);
            && (sh.optionsStr.Some? <==> WinningMarker(s).None? && ExceptionOf(s) != CosmeticException && Contains(p0, "$"))
            && (sh.optionsStr.Some? ==>
                  sh.optionsStr == Some(After(p0, "$")) && sh.options == OptionsOf(Split(After(p0, "$"), ',')))
            && (sh.optionsStr.None? ==> sh.options == map[])
  {
    BeforeOptions(s);
    var sh1 := AfterMarker(s, AfterException(s, DefaultShape(s)));
    if TakesOptions(sh1) {
      var m := OptionsOf(Split(After(ExceptionPattern(s), "$"), ','));
      assert map[] + m == m;
    }
  }

  /**
   * The final pattern: `s[2:]` for a non-cosmetic exception, even when options were split
   * off; the pattern the exception forms left for a cosmetic exception; otherwise the text before the first `$`
   * when options were split off, else the whole line.
   */
  lemma FinalPattern(s: string)
    ensures var sh := RuleShape(s);
            && (sh.isException <==> ExceptionOf(s) != NoException)
            && (sh.isException && !sh.isCosmetic ==> sh.pattern == Some(Drop2(s)))
            && (sh.isException && sh.isCosmetic ==> sh.pattern == Some(ExceptionPattern(s)))
            && (!sh.isException && sh.optionsStr.Some? ==> Contains(s, "$") && sh.pattern == Some(Before(s, "$")))
            && (!sh.isException && sh.optionsStr.None? ==> sh.pattern == Some(s))
  {
    BeforeOptions(s);
  }

  /** A network exception keeps its whole text after `@@` as pattern, options included. */
  lemma NetworkExceptionPattern(s: string)
    requires StartsWith(s, "@@") && WinningMarker(s).None?
    ensures RuleShape(s).isException
    ensures RuleShape(s).pattern == Some(s[2..])
  {
    FinalPattern(s);
    NoMarkerShape(s);
  }

  /**
   * A comment-grammar line is metadata exactly when the metadata pattern matches its stripped
   * text, and the record then carries that key and value; a plain comment carries neither.
   */
  lemma ClassifyCommentLine(n: int, line: string, list: string)
    requires !AllSpace(line) && IsCommentText(Strip(line))
    ensures Strip(Strip(line)) == Strip(line) && '\n' !in Strip(line)
    ensures var r := Classify(n, line, list);
            var m := MetadataOf(Strip(line));
            && (r.kind == MetadataLine <==> m.Some?)
            && (r.kind == MetadataLine ==> r.key == Some(m.value.0) && r.value == Some(m.value.1))
            && (r.kind == CommentLine ==> r.key.None? && r.value.None?)
  {
    var s := Strip(line);
    StripIdempotent(line);
    assert SkipSpace(s, 0) == 0;
  }

  /**
   * Every line whose stripped text starts with `#` is a comment, never metadata and never a
   * rule: generic cosmetic rules written `##…` or `#@#…` with no domain are lost as comments.
   */
  lemma HashLineIsComment(n: int, line: string, list: string)
    requires StartsWith(Strip(line), "#") && '\n' !in Strip(line)
    ensures Classify(n, line, list).kind == CommentLine
  {
    var s := Strip(line);
    assert !IsSpace(s[0]);
    assert SkipSpace(s, 0) == 0;
    assert IsCommentText(s);
    StripIdempotent(line);
    assert !StartsWith(s, "!");
  }

  // ---------------------------------------------------------------------------------
  // The classifier as it runs: one record, mutated stage by stage
  // ---------------------------------------------------------------------------------

  /** The three exception forms, tested in order. */
  method ApplyException(r: RuleRecord, s: string)
    modifies r
    ensures r.Snapshot() == old(r.Snapshot()).(shape := AfterException(s, old(r.shape)))
  {
    if StartsWith(s, "@@") {
      r.shape := r.shape.(isException := true, pattern := Some(s[2..]));
    } else if Contains(s, "##@@") {
      r.shape := r.shape.(isException := true);
    } else if Contains(s, "#@#") {
      r.shape := r.shape.(isException := true, domains := NonEmpty(Before(s, "#@#")), selector := Some(After(s, "#@#")));
      r.shape := r.shape.(isCosmetic := true, pattern := Some(s));
    }
  }

  /** The marker chain: the first marker of the priority order that occurs decides. */
  method ApplyMarker(r: RuleRecord, s: string)
    modifies r
    ensures r.Snapshot() == old(r.Snapshot()).(shape := AfterMarker(s, old(r.shape)))
  {
    if Contains(s, "##^") {
      r.shape := r.shape.(isHtmlFilter := true, domains := NonEmpty(Before(s, "##^")), selector := Some(After(s, "##^")));
    } else if Contains(s, "##+") {
      r.shape := r.shape.(isScriptlet := true, domains := NonEmpty(Before(s, "##+")), selector := Some("+" + After(s, "##+")));
    } else if Contains(s, "##") {
      r.shape := r.shape.(isCosmetic := true, domains := NonEmpty(Before(s, "##")), selector := Some(After(s, "##")));
    } else if Contains(s, "#?#") {
      r.shape := r.shape.(isCosmetic := true, domains := NonEmpty(Before(s, "#?#")), selector := Some(After(s, "#?#")));
    } else if Contains(s, "#$#") {
      r.shape := r.shape.(isCosmetic := true, domains := NonEmpty(Before(s, "#$#")), selector := Some(After(s, "#$#")));
    } else if Contains(s, "#%#") {
      r.shape := r.shape.(isScriptlet := true, domains := NonEmpty(Before(s, "#%#")), selector := Some(After(s, "#%#")));
    }
  }

  /** Splits the options off a network rule's pattern and assigns them into the option map. */
  method ApplyOptions(r: RuleRecord)
    modifies r
    ensures r.Snapshot() == old(r.Snapshot()).(shape := AfterOptions(old(r.shape)))
  {
    var sh := r.shape;
    if !sh.isCosmetic && !sh.isHtmlFilter && !sh.isScriptlet && sh.pattern.Some? && Contains(sh.pattern.value, "$") {
      var p := sh.pattern.value;
      r.shape := r.shape.(pattern := Some(Before(p, "$")), optionsStr := Some(After(p, "$")));
      var opts := ParseOptions(After(p, "$"));
      r.shape := r.shape.(options := r.shape.options + opts);
    }
  }

  method ApplyPatternFix(r: RuleRecord, s: string)
    modifies r
    ensures r.Snapshot() == old(r.Snapshot()).(shape := AfterPatternFix(s, old(r.shape)))
  {
    if r.shape.isException && !r.shape.isCosmetic {
      r.shape := r.shape.(pattern := Some(Drop2(s)));
    }
  }

  /** `parse_line`: the record for one line. */
  method ParseLine(n: int, line: string, list: string := "unknown_list") returns (r: RuleRecord)
    ensures fresh(r) && r.Snapshot() == Classify(n, line, list)
  {
    var s := Strip(line);
    if s == [] {
      r := new RuleRecord(Bare(EmptyLine, line, n, list));
      return;
    }
    if IsCommentText(s) {
      StripIdempotent(line);
      assert SkipSpace(s, 0) == 0;
      var md := MetadataOf(s);
      if md.Some? {
        r := new RuleRecord(Bare(MetadataLine, line, n, list).(key := Some(md.value.0), value := Some(md.value.1)));
      } else {
        r := new RuleRecord(Bare(CommentLine, line, n, list));
      }
      return;
    }
    r := new RuleRecord(Bare(FilterRule, line, n, list).(rawRule := Some(s), shape := DefaultShape(s)));
    ApplyException(r, s);
    ApplyMarker(r, s);
    ApplyOptions(r);
    ApplyPatternFix(r, s);
  }

  /** The records of consecutive lines, numbered from 1. */
  function ClassifyLines(ls: seq<string>, list: string): (vs: seq<Rule>)
    ensures |vs| == |ls|
  {
    if ls == [] then [] else ClassifyLines(ls[..|ls| - 1], list) + [Classify(|ls|, ls[|ls| - 1], list)]
  }

  /** The `k`-th record of a run of lines is the classification of the `k`-th line, numbered `k + 1`. */
  lemma {:induction false} ClassifyLinesAt(ls: seq<string>, list: string, k: nat)
    requires k < |ls|
    ensures ClassifyLines(ls, list)[k] == Classify(k + 1, ls[k], list)
    decreases |ls|
  {
    if k < |ls| - 1 {
      ClassifyLinesAt(ls[..|ls| - 1], list, k);
    }
  }

  /** `parse_raw_list_content`: one record per line, numbered from 1 in order. */
  method ParseRawListContent(raw: string, list: string := "unknown_list") returns (rs: seq<RuleRecord>)
    ensures |rs| == |Lines(raw)|
    ensures forall i :: 0 <= i < |rs| ==> fresh(rs[i]) && rs[i].Snapshot() == ClassifyLines(Lines(raw), list)[i]
  {
    rs := ParseLines(Lines(raw), list);
  }

  /** The loop of `parse_raw_list_content` over the already split lines. */
  method ParseLines(lines: seq<string>, list: string) returns (rs: seq<RuleRecord>)
    ensures |rs| == |lines|
    ensures forall i :: 0 <= i < |rs| ==> fresh(rs[i]) && rs[i].Snapshot() == ClassifyLines(lines, list)[i]
  {
    rs := [];
    ghost var vs: seq<Rule> := [];
    var i := 0;
    while i < |lines|
      invariant 0 <= i <= |lines| && |rs| == i
      invariant vs == ClassifyLines(lines[..i], list)
      invariant forall j :: 0 <= j < i ==> fresh(rs[j]) && rs[j].Snapshot() == vs[j]
    {
      var r := ParseLine(i + 1, lines[i], list);
      assert lines[..i + 1][..i] == lines[..i];
      rs := rs + [r];
      vs := vs + [r.Snapshot()];
      i := i + 1;
    }
    assert lines[..i] == lines;
  }
}
