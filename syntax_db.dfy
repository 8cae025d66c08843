/**
 * The pattern database: it sorts pattern entries into supported-by-category buckets,
 * an ordered list of translation patterns and an ordered list of unsupported patterns,
 * compiles every regex up front and answers three first-match-wins queries.
 *
 * The regex engine is taken as given: `Engine` says which sources compile and how a
 * compiled source full-matches or searches a text.
 */
module SyntaxDb {
  import opened Wrappers
  import opened Strings
  import opened Collections

  /** A successful match: positional groups, then named groups; a group that took no part is None. */
  datatype Match = Match(groups: seq<Option<string>>, named: map<string, Option<string>>)

  /** A compiled regex, identified by its source text. */
  datatype Matcher = Matcher(source: string)

  /** The regex engine: which sources compile, full match of a source against a text, and search. */
  datatype Engine = Engine(
    compiles: string -> bool,
    fullMatch: (string, string) -> Option<Match>,
    search: (string, string) -> bool)

  /** A pattern entry as read from a pattern file: not an object at all, or an object with some of the known fields. */
  datatype RawEntry =
    | NotAnObject
    | Fields(name: Option<string>, support: Option<string>, category: Option<string>,
             regex: Option<string>, template: Option<string>, token: Option<string>,
             notes: Option<string>)

  /** An entry together with the pattern file it came from. */
  datatype SourcedEntry = SourcedEntry(file: string, entry: RawEntry)

  /** An entry as the database stores it; `compiled` is filled in by the compile pass. */
  datatype PatternEntry = PatternEntry(
    name: string, support: string, category: Option<string>, regex: Option<string>,
    template: Option<string>, token: Option<string>, notes: Option<string>,
    compiled: Option<Matcher>)

  /** Every way loading the database can fail; each aborts the whole load. */
  datatype DBError =
    | InvalidEntry(file: string)
    | MissingTranslationFields(name: string, file: string)
    | UnknownSupport(status: string, name: string, file: string)
    | InvalidRegex(name: string, regex: string)
    | InvalidSupportedRegex(name: string, regex: string)

  const SupportYes := "yes"
  const SupportNeedsTranslation := "needs_translation"
  const SupportPartial := "partial_translation_available"
  const SupportNo := "no"
  const DefaultCategory := "general"

  /** The entry is an object carrying both `name` and `supported_in_brave`. */
  predicate WellFormed(se: SourcedEntry) {
    se.entry.Fields? && se.entry.name.Some? && se.entry.support.Some?
  }

  /** The error `_process_pattern_entry` raises for this entry, if any. */
  function EntryError(se: SourcedEntry): (r: Option<DBError>)
    ensures r == Some(InvalidEntry(se.file)) <==> !WellFormed(se)
    ensures r.None? ==> var st := se.entry.support.value;
                        st == SupportYes || st == SupportNo || st == SupportPartial || st == SupportNeedsTranslation
    ensures r.None? && (se.entry.support.value == SupportPartial || se.entry.support.value == SupportNeedsTranslation) ==>
              se.entry.regex.Some? && se.entry.template.Some?
    ensures WellFormed(se) ==>
              var st := se.entry.support.value;
              (st == SupportYes || st == SupportNo
               || ((st == SupportPartial || st == SupportNeedsTranslation) && se.entry.regex.Some? && se.entry.template.Some?))
              ==> r.None?
  {
    if !WellFormed(se) then Some(InvalidEntry(se.file))
    else
      var e := se.entry;
      var status := e.support.value;
      if status == SupportYes || status == SupportNo then None
      else if status == SupportPartial || status == SupportNeedsTranslation then
        if e.regex.None? || e.template.None? then Some(MissingTranslationFields(e.name.value, se.file))
        else None
      else Some(UnknownSupport(status, e.name.value, se.file))
  }

  predicate IsSupportedEntry(se: SourcedEntry) {
    WellFormed(se) && se.entry.support.value == SupportYes
  }

  predicate IsTranslationEntry(se: SourcedEntry) {
    WellFormed(se) && EntryError(se).None? &&
    (se.entry.support.value == SupportPartial || se.entry.support.value == SupportNeedsTranslation)
  }

  predicate IsUnsupportedEntry(se: SourcedEntry) {
    WellFormed(se) && se.entry.support.value == SupportNo
  }

  /** The category a supported entry is filed under. */
  function CategoryOf(se: SourcedEntry): string
    requires WellFormed(se)
  {
    se.entry.category.GetOr(DefaultCategory)
  }

  /** The entry as stored: not yet compiled. */
  function Stored(se: SourcedEntry): (p: PatternEntry)
    requires WellFormed(se)
    ensures p.compiled.None? && p.regex == se.entry.regex && p.token == se.entry.token
  {
    var e := se.entry;
    PatternEntry(e.name.value, e.support.value, e.category, e.regex, e.template, e.token, e.notes, None)
  }

  function Bucket(m: map<string, seq<PatternEntry>>, c: string): seq<PatternEntry> {
    if c in m then m[c] else []
  }

  /** The error of the first malformed entry in load order, if any. */
  function FirstEntryError(ses: seq<SourcedEntry>): (r: Option<DBError>)
    ensures r.None? <==> forall k :: 0 <= k < |ses| ==> EntryError(ses[k]).None?
  {
    match FirstIndex(ses, se => EntryError(se).Some?)
    case Some(k) => EntryError(ses[k])
    case None => None
  }

  /** The first malformed entry decides the load's error. */
  lemma FirstEntryErrorAt(ses: seq<SourcedEntry>, i: nat)
    requires i < |ses| && EntryError(ses[i]).Some?
    requires forall j :: 0 <= j < i ==> EntryError(ses[j]).None?
    ensures FirstEntryError(ses) == EntryError(ses[i])
  {
    assert FirstIndex(ses, se => EntryError(se).Some?) == Some(i);
  }

  /** The translation list after processing `ses`: the translation entries in load order. */
  function TranslationOf(ses: seq<SourcedEntry>): seq<PatternEntry> {
    if ses == [] then []
    else
      var last := ses[|ses| - 1];
      TranslationOf(ses[..|ses| - 1]) + (if IsTranslationEntry(last) then [Stored(last)] else [])
  }

  /** The unsupported list after processing `ses`: the `no` entries in load order. */
  function UnsupportedOf(ses: seq<SourcedEntry>): seq<PatternEntry> {
    if ses == [] then []
    else
      var last := ses[|ses| - 1];
      UnsupportedOf(ses[..|ses| - 1]) + (if IsUnsupportedEntry(last) then [Stored(last)] else [])
  }

  /** The buckets after processing `ses`: each `yes` entry appended to the bucket of its category. */
  function SupportedOf(ses: seq<SourcedEntry>): map<string, seq<PatternEntry>> {
    if ses == [] then map[]
    else
      var last := ses[|ses| - 1];
      var m := SupportedOf(ses[..|ses| - 1]);
      if IsSupportedEntry(last) then m[CategoryOf(last) := Bucket(m, CategoryOf(last)) + [Stored(last)]] else m
  }

  /** The categories in the order their first `yes` entry arrived (the dictionary's key order). */
  function CategoriesOf(ses: seq<SourcedEntry>): seq<string> {
    if ses == [] then []
    else
      var last := ses[|ses| - 1];
      var cs := CategoriesOf(ses[..|ses| - 1]);
      if IsSupportedEntry(last) && CategoryOf(last) !in cs then cs + [CategoryOf(last)] else cs
  }

  /** Processing one more entry extends each of the four folds by that entry alone. */
  lemma FoldsStep(ses: seq<SourcedEntry>, i: nat)
    requires i < |ses|
    ensures var se := ses[i];
            && TranslationOf(ses[..i + 1]) == TranslationOf(ses[..i]) + (if IsTranslationEntry(se) then [Stored(se)] else [])
            && UnsupportedOf(ses[..i + 1]) == UnsupportedOf(ses[..i]) + (if IsUnsupportedEntry(se) then [Stored(se)] else [])
            && SupportedOf(ses[..i + 1]) == (if IsSupportedEntry(se)
                                             then SupportedOf(ses[..i])[CategoryOf(se) := Bucket(SupportedOf(ses[..i]), CategoryOf(se)) + [Stored(se)]]
                                             else SupportedOf(ses[..i]))
            && CategoriesOf(ses[..i + 1]) == (if IsSupportedEntry(se) && CategoryOf(se) !in CategoriesOf(ses[..i])
                                              then CategoriesOf(ses[..i]) + [CategoryOf(se)]
                                              else CategoriesOf(ses[..i]))
  {
    assert ses[..i + 1][..i] == ses[..i];
  }

  /** The buckets and their key order agree: every category is listed once, exactly the keys of the map. */
  lemma {:induction false} CategoriesAreKeys(ses: seq<SourcedEntry>)
    ensures NoDuplicates(CategoriesOf(ses))
    ensures forall c :: c in SupportedOf(ses) <==> c in CategoriesOf(ses)
    decreases |ses|
  {
    if ses != [] {
      CategoriesAreKeys(ses[..|ses| - 1]);
    }
  }

  /** The entry after the compile pass: an entry with a regex gets its matcher. */
  function Compiled(p: PatternEntry): (q: PatternEntry)
    ensures q.regex == p.regex && q.token == p.token && q.name == p.name
  {
    if p.regex.Some? then p.(compiled := Some(Matcher(p.regex.value))) else p
  }

  function CompiledAll(ps: seq<PatternEntry>): (qs: seq<PatternEntry>)
    ensures |qs| == |ps| && forall k :: 0 <= k < |ps| ==> qs[k] == Compiled(ps[k])
  {
    seq(|ps|, k requires 0 <= k < |ps| => Compiled(ps[k]))
  }

  predicate BadRegex(e: Engine, p: PatternEntry) {
    p.regex.Some? && !e.compiles(p.regex.value)
  }

  /** The error for the first entry of `ps` whose regex does not compile. */
  function RegexError(e: Engine, ps: seq<PatternEntry>, inBucket: bool): (r: Option<DBError>)
    ensures r.None? <==> forall k :: 0 <= k < |ps| ==> !BadRegex(e, ps[k])
  {
    match FirstIndex(ps, p => BadRegex(e, p))
    case Some(k) =>
      Some(if inBucket then InvalidSupportedRegex(ps[k].name, ps[k].regex.value)
           else InvalidRegex(ps[k].name, ps[k].regex.value))
    case None => None
  }

  /** The first regex error over the buckets, visited in category order. */
  function BucketsRegexError(e: Engine, m: map<string, seq<PatternEntry>>, cats: seq<string>): Option<DBError>
  {
    if cats == [] then None
    else
      match RegexError(e, Bucket(m, cats[0]), true)
      case Some(err) => Some(err)
      case None => BucketsRegexError(e, m, cats[1..])
  }

  /** The error the compile pass raises: translation list first, then unsupported list, then the buckets. */
  function CompileError(e: Engine, translation: seq<PatternEntry>, unsupported: seq<PatternEntry>,
                        supported: map<string, seq<PatternEntry>>, cats: seq<string>): Option<DBError>
  {
    match RegexError(e, translation, false)
    case Some(err) => Some(err)
    case None =>
      match RegexError(e, unsupported, false)
      case Some(err) => Some(err)
      case None => BucketsRegexError(e, supported, cats)
  }

  /** The error loading `ses` ends with, if any: a malformed entry first, else an invalid regex. */
  function LoadError(e: Engine, ses: seq<SourcedEntry>): Option<DBError> {
    match FirstEntryError(ses)
    case Some(err) => Some(err)
    case None => CompileError(e, TranslationOf(ses), UnsupportedOf(ses), SupportedOf(ses), CategoriesOf(ses))
  }

  // The three queries, as first-match-wins searches.

  /** How `get_brave_supported_pattern` tests one entry: full match if compiled, else token containment. */
  predicate SupportedHit(e: Engine, p: PatternEntry, text: string) {
    if p.compiled.Some? then e.fullMatch(p.compiled.value.source, Strip(text)).Some?
    else p.token.Some? && Contains(text, p.token.value)
  }

  /** How `find_unsupported_pattern` tests one entry: search of the stripped text if compiled, else token in the raw text. */
  predicate UnsupportedHit(e: Engine, p: PatternEntry, text: string) {
    if p.compiled.Some? then e.search(p.compiled.value.source, Strip(text))
    else p.token.Some? && Contains(text, p.token.value)
  }

  /** How `find_translation_candidate` tests one entry: full match of the stripped text; token-only entries never match. */
  function TranslationMatch(e: Engine, p: PatternEntry, text: string): Option<Match> {
    if p.compiled.Some? then e.fullMatch(p.compiled.value.source, Strip(text)) else None
  }

  datatype Candidate = Candidate(pattern: PatternEntry, groups: Match)

  function SupportedPattern(e: Engine, m: map<string, seq<PatternEntry>>, text: string, category: string): Option<PatternEntry> {
    if category in m then FirstWhere(m[category], p => SupportedHit(e, p, text)) else None
  }

  function UnsupportedPattern(e: Engine, ps: seq<PatternEntry>, text: string): Option<PatternEntry> {
    FirstWhere(ps, p => UnsupportedHit(e, p, text))
  }

  function TranslationCandidate(e: Engine, ps: seq<PatternEntry>, text: string): (r: Option<Candidate>)
    ensures r.None? <==> forall k :: 0 <= k < |ps| ==> TranslationMatch(e, ps[k], text).None?
    ensures r.Some? ==> exists k :: 0 <= k < |ps| && ps[k] == r.value.pattern &&
                                  TranslationMatch(e, ps[k], text) == Some(r.value.groups) &&
                                  forall j :: 0 <= j < k ==> TranslationMatch(e, ps[j], text).None?
  {
    match FirstIndex(ps, p => TranslationMatch(e, p, text).Some?)
    case Some(k) => Some(Candidate(ps[k], TranslationMatch(e, ps[k], text).value))
    case None => None
  }

  /** The database. Its lists are filled by `LoadPatterns` and only read afterwards. */
  class SyntaxDB {
    const engine: Engine
    var supported: map<string, seq<PatternEntry>>
    var categories: seq<string>
    var translation: seq<PatternEntry>
    var unsupported: seq<PatternEntry>

    /** `categories` lists the keys of `supported` once each, in insertion order. */
    ghost predicate Valid()
      reads this
    {
      NoDuplicates(categories) && forall c :: c in supported <==> c in categories
    }

    constructor (engine: Engine)
      ensures Valid() && this.engine == engine
      ensures supported == map[] && categories == [] && translation == [] && unsupported == []
    {
      this.engine := engine;
      supported := map[];
      categories := [];
      translation := [];
      unsupported := [];
    }

    /** Files one entry; a malformed entry is rejected and nothing changes. */
    method ProcessPatternEntry(se: SourcedEntry) returns (o: Outcome<DBError>)
      requires Valid()
      modifies this
      ensures Valid()
      ensures o == (if EntryError(se).Some? then Fail(EntryError(se).value) else Pass)
      ensures o.Fail? ==> unchanged(this)
      ensures o.Pass? && IsSupportedEntry(se) ==>
        var c := CategoryOf(se);
        && supported == old(supported)[c := Bucket(old(supported), c) + [Stored(se)]]
        && categories == (if c in old(supported) then old(categories) else old(categories) + [c])
        && translation == old(translation) && unsupported == old(unsupported)
      ensures o.Pass? && IsTranslationEntry(se) ==>
        && translation == old(translation) + [Stored(se)]
        && supported == old(supported) && categories == old(categories) && unsupported == old(unsupported)
      ensures o.Pass? && IsUnsupportedEntry(se) ==>
        && unsupported == old(unsupported) + [Stored(se)]
        && supported == old(supported) && categories == old(categories) && translation == old(translation)
      ensures o.Pass? ==> IsSupportedEntry(se) || IsTranslationEntry(se) || IsUnsupportedEntry(se)
    {
      if !se.entry.Fields? || se.entry.name.None? || se.entry.support.None? {
        return Fail(InvalidEntry(se.file));
      }
      var e := se.entry;
      var status := e.support.value;
      if status == SupportYes {
        var c := e.category.GetOr(DefaultCategory);
        if c !in supported {
          supported := supported[c := []];
          categories := categories + [c];
        }
        supported := supported[c := supported[c] + [Stored(se)]];
      } else if status == SupportPartial || status == SupportNeedsTranslation {
        if e.regex.None? || e.template.None? {
          return Fail(MissingTranslationFields(e.name.value, se.file));
        }
        translation := translation + [Stored(se)];
      } else if status == SupportNo {
        unsupported := unsupported + [Stored(se)];
      } else {
        return Fail(UnknownSupport(status, e.name.value, se.file));
      }
      o := Pass;
    }

    /** Compiles the regexes of one list; the first invalid one aborts. */
    method CompileList(ps: seq<PatternEntry>, inBucket: bool) returns (r: Result<seq<PatternEntry>, DBError>)
      ensures r.Success? <==> RegexError(engine, ps, inBucket).None?
      ensures r.Success? ==> r.value == CompiledAll(ps)
      ensures r.Failure? ==> r.error == RegexError(engine, ps, inBucket).value
    {
      var done: seq<PatternEntry> := [];
      var i := 0;
      while i < |ps|
        invariant 0 <= i <= |ps|
        invariant done == CompiledAll(ps[..i])
        invariant forall j :: 0 <= j < i ==> !BadRegex(engine, ps[j])
      {
        var p := ps[i];
        if p.regex.Some? {
          if !engine.compiles(p.regex.value) {
            var err := if inBucket then InvalidSupportedRegex(p.name, p.regex.value)
                       else InvalidRegex(p.name, p.regex.value);
            assert FirstIndex(ps, q => BadRegex(engine, q)) == Some(i);
            return Failure(err);
          }
          p := p.(compiled := Some(Matcher(p.regex.value)));
        }
        done := done + [p];
        i := i + 1;
      }
      assert ps[..i] == ps;
      r := Success(done);
    }

    /** Compiles the buckets of `m`, visiting `cats` in order; the first invalid regex aborts. */
    method CompileBucketMap(m: map<string, seq<PatternEntry>>, cats: seq<string>)
      returns (r: Result<map<string, seq<PatternEntry>>, DBError>)
      requires NoDuplicates(cats) && forall c :: c in m <==> c in cats
      ensures r.Failure? <==> BucketsRegexError(engine, m, cats).Some?
      ensures r.Failure? ==> r.error == BucketsRegexError(engine, m, cats).value
      ensures r.Success? ==> r.value == CompileKeys(m, cats)
    {
      var done := m;
      var k := 0;
      while k < |cats|
        invariant 0 <= k <= |cats|
        invariant done == CompileKeys(m, cats[..k])
        invariant BucketsRegexError(engine, m, cats) == BucketsRegexError(engine, m, cats[k..])
      {
        var c := cats[k];
        CompileKeysStep(m, cats, k);
        BucketsRegexErrorUnfold(engine, m, cats, k);
        var rk := CompileList(done[c], true);
        if rk.Failure? {
          return Failure(rk.error);
        }
        done := done[c := rk.value];
        k := k + 1;
      }
      assert cats[..k] == cats;

      r := Success(done);
    }

    /** The compile pass: translation list, unsupported list, then every bucket in category order. */
    method CompilePatterns() returns (o: Outcome<DBError>)
      requires Valid()
      modifies this
      ensures var err := CompileError(engine, old(translation), old(unsupported), old(supported), old(categories));
              o == (if err.Some? then Fail(err.value) else Pass)
      ensures o.Pass? ==>
        && Valid()
        && translation == CompiledAll(old(translation)) && unsupported == CompiledAll(old(unsupported))
        && categories == old(categories) && supported.Keys == old(supported).Keys
        && forall c :: c in supported ==> supported[c] == CompiledAll(old(supported)[c])
    {
      var r := CompileList(translation, false);
      if r.Failure? {
        return Fail(r.error);
      }
      translation := r.value;
      r := CompileList(unsupported, false);
      if r.Failure? {
        return Fail(r.error);
      }
      unsupported := r.value;
      var b := CompileBucketMap(supported, categories);
      if b.Failure? {
        return Fail(b.error);
      }
      CompileKeysAll(supported, categories);
      supported := b.value;
      o := Pass;
    }

    /** Loads the given entries, in the given order, into this empty database and compiles them. */
    method LoadPatterns(ses: seq<SourcedEntry>) returns (o: Outcome<DBError>)
      requires Valid()
      requires supported == map[] && categories == [] && translation == [] && unsupported == []
      modifies this
      ensures o == (if LoadError(engine, ses).Some? then Fail(LoadError(engine, ses).value) else Pass)
      ensures o.Pass? ==>
        && Valid()
        && translation == CompiledAll(TranslationOf(ses))
        && unsupported == CompiledAll(UnsupportedOf(ses))
        && categories == CategoriesOf(ses)
        && supported.Keys == SupportedOf(ses).Keys
        && forall c :: c in supported ==> supported[c] == CompiledAll(SupportedOf(ses)[c])
    {
      o := ProcessEntries(ses);
      if o.Fail? {
        return;
      }
      o := CompilePatterns();
    }

    /** Files every entry in order; the first malformed one aborts the load. */
    method ProcessEntries(ses: seq<SourcedEntry>) returns (o: Outcome<DBError>)
      requires Valid()
      requires supported == map[] && categories == [] && translation == [] && unsupported == []
      modifies this
      ensures o == (if FirstEntryError(ses).Some? then Fail(FirstEntryError(ses).value) else Pass)
      ensures o.Pass? ==>
        && Valid()
        && translation == TranslationOf(ses) && unsupported == UnsupportedOf(ses)
        && supported == SupportedOf(ses) && categories == CategoriesOf(ses)
    {
      var i := 0;
      while i < |ses|
        invariant 0 <= i <= |ses|
        invariant Valid()
        invariant forall j :: 0 <= j < i ==> EntryError(ses[j]).None?
        invariant translation == TranslationOf(ses[..i]) && unsupported == UnsupportedOf(ses[..i])
        invariant supported == SupportedOf(ses[..i]) && categories == CategoriesOf(ses[..i])
      {
        var r := FileNext(ses, i);
        if r.Fail? {
          FirstEntryErrorAt(ses, i);
          return r;
        }
        i := i + 1;
      }
      assert ses[..i] == ses;
      o := Pass;
    }

    /** Files entry `i` on top of the state the entries before it produced. */
    method FileNext(ses: seq<SourcedEntry>, i: nat) returns (o: Outcome<DBError>)
      requires i < |ses| && Valid()
      requires translation == TranslationOf(ses[..i]) && unsupported == UnsupportedOf(ses[..i])
      requires supported == SupportedOf(ses[..i]) && categories == CategoriesOf(ses[..i])
      modifies this
      ensures o == (if EntryError(ses[i]).Some? then Fail(EntryError(ses[i]).value) else Pass)
      ensures o.Pass? ==>
        && Valid()
        && translation == TranslationOf(ses[..i + 1]) && unsupported == UnsupportedOf(ses[..i + 1])
        && supported == SupportedOf(ses[..i + 1]) && categories == CategoriesOf(ses[..i + 1])
    {
      o := ProcessPatternEntry(ses[i]);
      FoldsStep(ses, i);
    }

    /** `get_brave_supported_pattern`: the first entry of the category's bucket that matches. */
    method GetBraveSupportedPattern(text: string, category: string := DefaultCategory) returns (r: Option<PatternEntry>)
      ensures r == SupportedPattern(engine, supported, text, category)
    {
      if category !in supported {
        return None;
      }
      var ps := supported[category];
      var stripped := Strip(text);
      var i := 0;
      while i < |ps|
        invariant 0 <= i <= |ps|
        invariant forall j :: 0 <= j < i ==> !SupportedHit(engine, ps[j], text)
      {
        var p := ps[i];
        if p.compiled.Some? {
          if engine.fullMatch(p.compiled.value.source, stripped).Some? {
            assert FirstIndex(ps, q => SupportedHit(engine, q, text)) == Some(i);
            return Some(p);
          }
        } else if p.token.Some? {
          if Contains(text, p.token.value) {
            assert FirstIndex(ps, q => SupportedHit(engine, q, text)) == Some(i);
            return Some(p);
          }
        }
        i := i + 1;
      }
      r := None;
    }

    /** `find_translation_candidate`: the first translation entry whose regex fully matches, with its match. */
    method FindTranslationCandidate(text: string) returns (r: Option<Candidate>)
      ensures r == TranslationCandidate(engine, translation, text)
    {
      var stripped := Strip(text);
      var i := 0;
      while i < |translation|
        invariant 0 <= i <= |translation|
        invariant forall j :: 0 <= j < i ==> TranslationMatch(engine, translation[j], text).None?
      {
        var p := translation[i];
        if p.compiled.Some? {
          var m := engine.fullMatch(p.compiled.value.source, stripped);
          if m.Some? {
            assert FirstIndex(translation, q => TranslationMatch(engine, q, text).Some?) == Some(i);
            return Some(Candidate(p, m.value));
          }
        }
        i := i + 1;
      }
      r := None;
    }

    /** `find_unsupported_pattern`: the first unsupported entry that is found in the text. */
    method FindUnsupportedPattern(text: string) returns (r: Option<PatternEntry>)
      ensures r == UnsupportedPattern(engine, unsupported, text)
    {
      var stripped := Strip(text);
      var i := 0;
      while i < |unsupported|
        invariant 0 <= i <= |unsupported|
        invariant forall j :: 0 <= j < i ==> !UnsupportedHit(engine, unsupported[j], text)
      {
        var p := unsupported[i];
        if p.compiled.Some? {
          if engine.search(p.compiled.value.source, stripped) {
            assert FirstIndex(unsupported, q => UnsupportedHit(engine, q, text)) == Some(i);
            return Some(p);
          }
        } else if p.token.Some? {
          if Contains(text, p.token.value) {
            assert FirstIndex(unsupported, q => UnsupportedHit(engine, q, text)) == Some(i);
            return Some(p);
          }
        }
        i := i + 1;
      }
      r := None;
    }
  }

  /** `m` with the buckets of the categories `cs` compiled. */
  function CompileKeys(m: map<string, seq<PatternEntry>>, cs: seq<string>): map<string, seq<PatternEntry>>
    requires forall c :: c in cs ==> c in m
  {
    if cs == [] then m
    else
      var last := cs[|cs| - 1];
      CompileKeys(m, cs[..|cs| - 1])[last := CompiledAll(m[last])]
  }

  /** Compiling some categories keeps the keys, compiles exactly their buckets and leaves the others alone. */
  lemma {:induction false} CompileKeysShape(m: map<string, seq<PatternEntry>>, cs: seq<string>)
    requires forall c :: c in cs ==> c in m
    ensures CompileKeys(m, cs).Keys == m.Keys
    ensures forall c :: c in m ==> CompileKeys(m, cs)[c] == (if c in cs then CompiledAll(m[c]) else m[c])
    decreases |cs|
  {
    if cs != [] {
      var init := cs[..|cs| - 1];
      CompileKeysShape(m, init);
      assert forall c :: c in cs <==> c in init || c == cs[|cs| - 1];
    }
  }

  /** The `k`-th category's bucket is still as loaded when its turn comes. */
  lemma CompileKeysUntouched(m: map<string, seq<PatternEntry>>, cats: seq<string>, k: nat)
    requires NoDuplicates(cats) && forall c :: c in cats ==> c in m
    requires k < |cats|
    ensures cats[k] in CompileKeys(m, cats[..k]) && CompileKeys(m, cats[..k])[cats[k]] == m[cats[k]]
  {
    CompileKeysShape(m, cats[..k]);
  }

  /** One more category compiled: its bucket, still as loaded, is replaced by its compiled form. */
  lemma CompileKeysStep(m: map<string, seq<PatternEntry>>, cats: seq<string>, k: nat)
    requires NoDuplicates(cats) && forall c :: c in m <==> c in cats
    requires k < |cats|
    ensures cats[k] in m && cats[k] in CompileKeys(m, cats[..k]) && CompileKeys(m, cats[..k])[cats[k]] == Bucket(m, cats[k])
    ensures CompileKeys(m, cats[..k + 1]) == CompileKeys(m, cats[..k])[cats[k] := CompiledAll(Bucket(m, cats[k]))]
  {
    CompileKeysUntouched(m, cats, k);
    assert cats[..k + 1][..k] == cats[..k];
  }

  lemma CompileKeysAll(m: map<string, seq<PatternEntry>>, cats: seq<string>)
    requires forall c :: c in m <==> c in cats
    ensures CompileKeys(m, cats).Keys == m.Keys
    ensures forall c :: c in m ==> CompileKeys(m, cats)[c] == CompiledAll(m[c])
  {
    CompileKeysShape(m, cats);
  }

  /** The bucket error from the `k`-th category on: that bucket's error, else the error of the rest. */
  lemma BucketsRegexErrorUnfold(e: Engine, m: map<string, seq<PatternEntry>>, cats: seq<string>, k: nat)
    requires k < |cats|
    ensures var here := RegexError(e, Bucket(m, cats[k]), true);
            BucketsRegexError(e, m, cats[k..]) == if here.Some? then here else BucketsRegexError(e, m, cats[k + 1..])
  {
    assert cats[k..][1..] == cats[k + 1..];
  }

  /** Every accepted entry is filed in the collection its support status names, and only there. */
  lemma {:induction false} EntryFiled(ses: seq<SourcedEntry>, k: nat)
    requires k < |ses| && EntryError(ses[k]).None?
    ensures IsTranslationEntry(ses[k]) ==> Stored(ses[k]) in TranslationOf(ses)
    ensures IsUnsupportedEntry(ses[k]) ==> Stored(ses[k]) in UnsupportedOf(ses)
    ensures IsSupportedEntry(ses[k]) ==>
      CategoryOf(ses[k]) in SupportedOf(ses) && Stored(ses[k]) in SupportedOf(ses)[CategoryOf(ses[k])]
    ensures IsTranslationEntry(ses[k]) || IsUnsupportedEntry(ses[k]) || IsSupportedEntry(ses[k])
    decreases |ses|
  {
    var init := ses[..|ses| - 1];
    if k < |ses| - 1 {
      assert init[k] == ses[k];
      EntryFiled(init, k);
      var last := ses[|ses| - 1];
      if IsSupportedEntry(ses[k]) && IsSupportedEntry(last) && CategoryOf(last) == CategoryOf(ses[k]) {
        assert Bucket(SupportedOf(init), CategoryOf(last)) == SupportedOf(init)[CategoryOf(last)];
      }
    }
  }

  /** Translation entries always carry both a regex and a template. */
  lemma {:induction false} TranslationEntriesComplete(ses: seq<SourcedEntry>)
    ensures forall p :: p in TranslationOf(ses) ==> p.regex.Some? && p.template.Some?
    decreases |ses|
  {
    if ses != [] {
      TranslationEntriesComplete(ses[..|ses| - 1]);
    }
  }

  /** An invalid regex in any bucket that is visited makes the bucket pass fail. */
  lemma {:induction false} BadBucketFails(e: Engine, m: map<string, seq<PatternEntry>>, cats: seq<string>, c: string)
    requires c in cats && RegexError(e, Bucket(m, c), true).Some?
    ensures BucketsRegexError(e, m, cats).Some?
    decreases |cats|
  {
    if cats[0] != c {
      BadBucketFails(e, m, cats[1..], c);
    }
  }

  /** A pattern whose regex does not compile anywhere in the loaded entries aborts the whole load. */
  lemma BadRegexAbortsLoad(e: Engine, ses: seq<SourcedEntry>, k: nat)
    requires k < |ses| && WellFormed(ses[k])
    requires ses[k].entry.regex.Some? && !e.compiles(ses[k].entry.regex.value)
    ensures LoadError(e, ses).Some?
  {
    if FirstEntryError(ses).None? {
      var p := Stored(ses[k]);
      assert BadRegex(e, p);
      EntryFiled(ses, k);
      if IsSupportedEntry(ses[k]) {
        var c := CategoryOf(ses[k]);
        CategoriesAreKeys(ses);
        BadBucketFails(e, SupportedOf(ses), CategoriesOf(ses), c);
      }
    }
  }

  /** `SyntaxDB(...)`: a fresh database loaded from the given entries, or the error that aborted the load. */
  method OpenDatabase(engine: Engine, ses: seq<SourcedEntry>) returns (r: Result<SyntaxDB, DBError>)
    ensures r.Failure? <==> LoadError(engine, ses).Some?
    ensures r.Failure? ==> r.error == LoadError(engine, ses).value
    ensures r.Success? ==>
      var db := r.value;
      && fresh(db) && db.Valid() && db.engine == engine
      && db.translation == CompiledAll(TranslationOf(ses))
      && db.unsupported == CompiledAll(UnsupportedOf(ses))
      && db.categories == CategoriesOf(ses)
      && db.supported.Keys == SupportedOf(ses).Keys
      && forall c :: c in db.supported ==> db.supported[c] == CompiledAll(SupportedOf(ses)[c])
  {
    var db := new SyntaxDB(engine);
    var o := db.LoadPatterns(ses);
    if o.Fail? {
      return Failure(o.error);
    }
    r := Success(db);
  }
}
