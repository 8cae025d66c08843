# Ad-block rule pipeline, modelled in Dafny

This project models the per-line core of an ad-block list processor. The processor merges
filter lists written in the EasyList/ABP, uBlock Origin and AdGuard dialects into one list
for the Brave engine. Each line of a list goes through four stages:

- **`RuleParser`** (`parser.dfy`) classifies a raw line as `empty`, `comment`, `metadata` or
  `rule`. A rule is decomposed further:
  - by its exception form (`@@`, `##@@`, `#@#`);
  - by the cosmetic marker with the highest priority (`##^` > `##+` > `##` > `#?#` > `#$#` > `#%#`);
  - by the naive comma split of its `$`-options.
- **`SyntaxDB`** (`syntax_db.dfy`) files every pattern entry into one of three places:
  - supported-by-category buckets;
  - an ordered translation list;
  - an ordered unsupported list.

  It compiles every regex up front, and any malformed entry or invalid regex aborts the whole
  load. It answers three first-match-wins queries.
- **`RuleValidator`** (`validator.dfy`) gives each record a validation status and a note. It
  checks the unsupported entries first, then the translation entries, then a shallow shape
  heuristic.
- **`RuleTranslator`** (`translator.dfy`) renders the template of the first matching
  translation entry (`templates.dfy` models the `str.format` subset the templates use). It
  comments out or drops whatever it cannot translate, according to its strategy.
- **`ListGenerator`** (`generator.py`'s collecting part, `generator.dfy`) does four things:
  - de-duplicates the final rule texts and counts them;
  - keeps homepage comments for the header;
  - gathers metadata per key;
  - writes the texts out in two sorted sections.

Records are mutated in place by every stage, as in the program.

- `Rules.RuleRecord` is the mutable record and `Rules.Rule` is its value.
- Each stage's method is proved to leave the record equal to a specification function of the
  old record: `Parser.Classify`, `Validator.Validated` or `Translator.TranslatedRule`.
- The lemmas about those functions state what the program promises.
- `pipeline.dfy` composes the stages on one line.

The regex engine is a parameter (`SyntaxDb.Engine`): which sources compile, full match with
groups, and search. Pattern files reach the model as a sequence of already-decoded entries
(`SyntaxDb.SourcedEntry`), in the order the program would read them.

Shared helpers:
- `strings.dfy`: `strip`, `find`, `split`, `lower`, `splitlines`;
- `collections.dfy`: first-match search, dictionary assignment;
- `ordering.dfy`: Python's string `<` and `sorted` on a set;
- `wrappers.dfy`: Option/Result/Outcome.

## Model

| member | source | states |
|---|---|---|
| Strings.Strip | parser.py:24 | the stripped text is no longer than the input, is empty exactly when the input is all whitespace, and otherwise starts and ends with a non-space |
| Strings.StripOuterSpace | parser.py:24 | stripping removes whitespace at both ends and nothing else: the result is a slice `s[i..j]` of the input with only whitespace before `i` and after `j` |
| Strings.StripIdempotent | validator.py:42 | stripping an already stripped text changes nothing |
| Strings.SplitFirstJoins | parser.py:70-72 | `split(t, 1)` at the first occurrence: the two parts joined around `t` give back the text, and the first part holds no `t` |
| Strings.JoinSplit | parser.py:118 | joining the comma-split pieces with commas gives back the option text |
| Strings.SplitJoin | parser.py:118 | splitting pieces joined by the separator gives back the pieces, when none of them holds the separator |
| Strings.LinesUnlines | parser.py:144 | splitting lines undoes writing the lines out with one newline after each |
| Parser.MetadataOf | parser.py:17 | a metadata match starts with `!` and has a non-empty value |
| Parser.MetadataMatch | parser.py:30-34 | `!` plus a run of letters and whitespace, `:`, and a remainder matches with exactly that key (trimmed, lower-cased, spaces to `_`) and the trimmed remainder |
| Parser.MetadataNoMatch | parser.py:30-35 | a line without that shape is no metadata, so it stays a plain comment |
| Parser.WinningMarker | parser.py:78-107 | the winning marker occurs in the text |
| Parser.WinningMarkerPriority | parser.py:78-107 | no marker wins exactly when none occurs, and the winner outranks every other marker that occurs (priority, not leftmost position) |
| Parser.HtmlFilterWins | parser.py:78-82 | any text with `##^` is an html filter split at its first `##^`, whatever other markers it holds |
| Parser.MarkerShape | parser.py:78-107 | when a marker wins: domains are the non-empty text before its first occurrence, selector the text after it (prefixed `+` for `##+`), html, scriptlet and cosmetic flags are set by that marker alone (or a `#@#` exception), and no options are split off |
| Parser.NoMarkerShape | parser.py:68-74 | without a marker no html or scriptlet flag is set, and only a `#@#` exception is cosmetic, with its own domains and selector |
| Parser.MarkerReassembles | parser.py:78-107 | the domains, the marker and the selector put back together give the stripped line |
| Parser.OptionsSplitOff | parser.py:110-124 | options are split off exactly when no marker and no `#@#` exception fired and the pattern holds `$`: the text after the first `$` is the option text and its comma pieces fill the map; otherwise the map is empty |
| Parser.OptionsOfKeys | parser.py:118-124 | a key is in the option map iff some comma piece names it (lower-cased, trimmed) |
| Parser.OptionsOfLastWins | parser.py:118-124 | a later piece with the same key overwrites an earlier one: the key holds the value of the last piece naming it |
| Parser.ParseOptions | parser.py:118-124 | the loop over the comma pieces builds exactly the option map of the pieces |
| Parser.RuleShape | parser.py:59-131 | a rule always has a pattern, is an exception iff one of the three exception forms holds, and has options split off only when no cosmetic, html or scriptlet flag is set |
| Parser.FinalPattern | parser.py:42-48 | the pattern is: the text after its first two characters for any non-cosmetic exception, even with options; what the exception form left for a cosmetic exception; else the text before the first `$` when options were split off; else the whole line |
| Parser.NetworkExceptionPattern | parser.py:129-131 | a marker-free `@@` rule keeps everything after `@@` as its pattern, options included |
| Parser.HashLineIsComment | parser.py:16 | every line whose stripped text starts with `#` is a comment, so a domain-less `##…` or `#@#…` cosmetic rule never becomes a rule |
| Parser.Classify | parser.py:24-57 | the record keeps the line, its number and list name; it is empty iff the line is all whitespace, comment or metadata iff the stripped line is in the comment grammar, otherwise a rule whose raw text is the stripped line and whose shape is the staged decomposition |
| Parser.ClassifyCommentLine | parser.py:29-35 | a comment-grammar line is metadata exactly when the metadata pattern matches its stripped text, and the record then carries that key and that value; a plain comment carries neither |
| Parser.ParseLine | parser.py:19-133 | the record the stage-by-stage mutation builds is the classification of the line |
| Parser.ApplyException | parser.py:59-74 | the exception stage changes only the shape, as the exception form says |
| Parser.ApplyMarker | parser.py:76-107 | the marker stage changes only the shape, as the winning marker says |
| Parser.ApplyOptions | parser.py:109-124 | the option stage changes only the shape: pattern before `$`, option text and map after it |
| Parser.ApplyPatternFix | parser.py:129-131 | the final fix changes only the pattern of a non-cosmetic exception |
| Parser.ClassifyLinesAt | parser.py:147-151 | record `k` of a run of lines is the classification of line `k`, numbered `k + 1` |
| Parser.ParseRawListContent | parser.py:135-151 | one fresh record per line, in order, each the classification of its line with its 1-based number; an empty text gives no records |
| Parser.ParseLines | parser.py:147-151 | the loop yields one fresh record per line, in order, each the classification of its line |
| SyntaxDb.EntryError | syntax_db.py:63-83 | an entry is invalid exactly when it is not an object with `name` and `supported_in_brave`; a well-formed `yes` or `no` entry (with or without a regex) and a translation entry with both a regex and a template are accepted, and an accepted entry has one of the four known statuses, a translation entry both fields |
| SyntaxDb.FirstEntryError | syntax_db.py:63-83 | a load has no entry error iff every entry is an object with `name` and `supported_in_brave`, a known status, and, for translation entries, both a regex and a template |
| SyntaxDb.FirstEntryErrorAt | syntax_db.py:34-35 | the first malformed entry in load order decides the error |
| SyntaxDb.FoldsStep | syntax_db.py:66-81 | filing one more entry extends exactly one of the bucket map, the translation list and the unsupported list by that entry |
| SyntaxDb.CategoriesAreKeys | syntax_db.py:68-72 | the category order lists each key of the bucket map once, and only those |
| SyntaxDb.EntryFiled | syntax_db.py:66-81 | every accepted entry is filed in the collection its support status names (a `yes` entry under its category, `general` by default) |
| SyntaxDb.TranslationEntriesComplete | syntax_db.py:73-76 | every translation entry carries a regex and a template |
| SyntaxDb.RegexError | syntax_db.py:43-49 | a list compiles iff none of its entries has a regex that does not compile |
| SyntaxDb.BadBucketFails | syntax_db.py:52-58 | an invalid regex in any bucket that is visited makes the bucket pass fail |
| SyntaxDb.BadRegexAbortsLoad | syntax_db.py:42-58 | an entry whose regex does not compile aborts the whole load, in whichever list it was filed |
| SyntaxDb.TranslationCandidate | syntax_db.py:102-112 | there is no candidate iff no translation entry full-matches the stripped text; otherwise the candidate is the first entry that does, with its match |
| SyntaxDb.SyntaxDB.ProcessPatternEntry | syntax_db.py:61-83 | a malformed entry fails with its error and changes nothing; otherwise the entry is appended to its category's bucket (the category is added in arrival order), the translation list or the unsupported list, and nothing else changes |
| SyntaxDb.SyntaxDB.ProcessEntries | syntax_db.py:25-35 | the entries are filed in order; the load fails with the first entry error, and otherwise holds exactly the folds of the entries |
| SyntaxDb.SyntaxDB.FileNext | syntax_db.py:34-35 | filing entry `i` on the state of the first `i` entries gives the state of the first `i + 1` |
| SyntaxDb.SyntaxDB.CompileList | syntax_db.py:43-49 | compiling a list succeeds iff no regex is invalid, then gives every entry with a regex its matcher; otherwise it fails with the first invalid one |
| SyntaxDb.SyntaxDB.CompileBucketMap | syntax_db.py:52-58 | the buckets are compiled in category order; the pass fails with the first invalid regex and otherwise compiles every bucket |
| SyntaxDb.SyntaxDB.CompilePatterns | syntax_db.py:42-58 | the translation list, then the unsupported list, then the buckets are compiled; the first invalid regex fails the pass, with the message of its list |
| SyntaxDb.SyntaxDB.LoadPatterns | syntax_db.py:20-58 | the load fails with the first entry error, else with the first regex error, and otherwise leaves the compiled folds of the entries |
| SyntaxDb.OpenDatabase | syntax_db.py:12-18 | constructing the database gives either the load error or a fresh database holding the compiled folds |
| SyntaxDb.SyntaxDB.GetBraveSupportedPattern | syntax_db.py:86-100 | the first entry of the category's bucket whose compiled regex full-matches the stripped text, or whose token occurs in the raw text; none for an unknown category |
| SyntaxDb.SyntaxDB.FindTranslationCandidate | syntax_db.py:102-112 | the loop finds the first translation entry that full-matches, with its match |
| SyntaxDb.SyntaxDB.FindUnsupportedPattern | syntax_db.py:114-127 | the first unsupported entry whose compiled regex is found in the stripped text, or whose token occurs in the raw text |
| Templates.Lookup | translator.py:43-46 | with positional groups a field of digits selects that group, or nothing if the match has fewer groups; with named groups a name selects its group, and a name the match lacks or a digit field gives nothing; a group that took no part shows as `None` |
| Templates.Render | translator.py:44-46 | a template without braces renders as itself |
| Templates.RenderEscape | translator.py:44-46 | rendering undoes escaping: literal text with doubled braces renders as itself, whatever the groups |
| Templates.RenderField | translator.py:44-46 | a placeholder the groups provide is replaced by the group's text, in front of the rest's rendering |
| Templates.RenderMissingField | translator.py:54-56 | a placeholder the groups do not provide makes the whole rendering fail |
| Templates.RenderLoneClose | translator.py:54-56 | a lone `}` makes the rendering fail |
| Templates.RenderPlain | translator.py:44-46 | text without braces renders as itself |
| Templates.RenderFieldThen | translator.py:44-46 | a placeholder followed by brace-free text renders as the group's text followed by that text |
| Translator.NamedGroupsRender | translator.py:43-44 | with named groups the template is filled by keyword: a name the match has renders that group, any other name fails, and `{0}` fails |
| Translator.PositionalGroupsRender | translator.py:45-46 | without named groups the template is filled by position: `{k}` renders group `k` when the match has that many groups and fails otherwise, and a named field fails |
| Translator.RenderedTranslation | translator.py:38-53 | a translation exists iff there is a candidate, its template exists and it renders with the candidate's groups; the entry is the candidate's |
| Translator.UntranslatedLine | translator.py:79 | the replacement comment starts with `! UNTRANSLATED` and contains the original text |
| Translator.TranslatedRule | translator.py:29-89 | only the translation text, translation status, validation status and note change, and the translation status ends set and never `failed` |
| Translator.NotNeededOnly | translator.py:32-34 | a record that is neither `needs_translation` nor `unsupported` is only marked `not_needed` |
| Translator.FirstTranslation | translator.py:36-87 | on a new record: translated iff it needs translation and its template renders, and then valid with the rendering; otherwise dropped iff the strategy is drop (nothing else changes), else commented out with its status, text and reason, status and note kept |
| Translator.UnknownStrategyCommentsOut | translator.py:85-87 | a strategy other than the two known ones behaves as commenting out |
| Translator.RuleTranslator.TranslateRule | translator.py:18-89 | the record after the method is the translated record of the old one, and the same record object is handed back |
| Translator.RuleTranslator.MarkTranslated | translator.py:48-51 | a successful translation sets the text and status `translated`, upgrades the status to `valid` and writes the note naming the original and the entry |
| Translator.RuleTranslator.HandleUntranslated | translator.py:75-87 | the strategy is applied unless the record is already translated or not needed |
| Translator.RuleTranslator.TryTranslate | translator.py:38-46 | the lookup and render give exactly the translation of the text |
| Validator.PassThroughStatus | validator.py:31-34 | the four pass-through types, exactly, keep their own name as status |
| Validator.HeuristicNotes | validator.py:88-127 | the heuristic adds the network note when the network test holds, else the cosmetic note when a cosmetic flag is set, and no note iff neither holds |
| Validator.HeuristicVerdict | validator.py:88-147 | valid iff the network or the cosmetic test holds, then with the tentative note followed by the network note or, failing that, the cosmetic note; otherwise unsupported with the unmatched note alone |
| Validator.TextVerdict | validator.py:55-147 | a rule with text is always unsupported, needing translation or valid |
| Validator.TextVerdictNotes | validator.py:55-68 | an unsupported match gives the note naming the entry and its reason (`No specific reason provided.` when it has none), else a translation match gives the note naming the entry with its notes, else the heuristic decides |
| Validator.Verdict | validator.py:18-150 | only a filter rule with non-empty stripped text can be valid, unsupported or need translation |
| Validator.Validated | validator.py:18-150 | validation sets the status and the note and changes nothing else |
| Validator.VerdictUnchecked | validator.py:29-46 | pass-through types keep their name with the pass-through note, a type outside these and `rule` is an error with the unknown-type note naming it, a rule without text is empty with the empty note |
| Validator.VerdictChecked | validator.py:55-147 | a rule with text is unsupported iff an unsupported entry matches or nothing else accepts it, needs translation iff no unsupported entry but a translation entry matches, and valid iff neither matches and the heuristic accepts it |
| Validator.TextVerdictStatus | validator.py:55-147 | the same three-way verdict on the stripped text and parsed shape |
| Validator.UnsupportedFirst | validator.py:55-60 | an unsupported entry takes precedence over any translation entry |
| Validator.EmptyDatabaseVerdict | validator.py:88-142 | with no entries a rule with text is valid exactly when the heuristic accepts it |
| Validator.ValidatedIdempotent | validator.py:18-150 | validating a validated record again changes nothing |
| Validator.RuleValidator.ValidateRule | validator.py:18-150 | the record after the method is the validated record of the old one, and the same record object is handed back |
| Validator.RuleValidator.CheckText | validator.py:55-68 | unsupported entries, then translation entries, then the heuristic, give the verdict of the text |
| Validator.RuleValidator.CheckShape | validator.py:75-147 | the loop-free heuristic gives the heuristic verdict with its joined notes |
| Generator.Initial | generator.py:13-20 | a new generator has no texts, header lines or metadata, and satisfies the invariant |
| Generator.WithHeader | generator.py:69-72 | the line is in the header afterwards, the old header is a prefix of the new one, the line is appended iff it was absent, nothing else changes, and no header line appears twice |
| Generator.Added | generator.py:22-66 | adding a record never changes the output file or footer, changes the texts at most by the record's final text, and adds at most the record's key to the metadata |
| Generator.AddedKeepsInv | generator.py:22-66 | adding any record keeps the count equal to the number of unique non-empty texts, with no header line twice |
| Generator.AddedRules | generator.py:50-66 | a filter record's non-empty final text is added to the set, and counted iff it was new; metadata and homepage comments never touch the texts; any other record changes nothing but the texts and the count |
| Generator.AddedKnownText | generator.py:62-66 | a record whose final text is already collected, or empty, leaves the whole state unchanged |
| Generator.AddedMetadata | generator.py:31-42 | a metadata record with a key and a value appends `value (from list)` to the notes under its key, creating the key if new; other keys, texts, count and header are unchanged |
| Generator.AddedIncompleteMetadata | generator.py:31-42 | a metadata record without a key or a value changes nothing |
| Generator.AddedHomepage | generator.py:45-47 | a comment holding `! Homepage:` goes to the header as `add_comment_to_header` puts it there, appended iff new, and nothing else changes |
| Generator.AddedTwice | generator.py:62-66 | adding the same record twice leaves the texts, count and header as adding it once |
| Generator.DroppedNotEmitted | generator.py:61 | a dropped, failed or never translated record adds no text |
| Generator.SectionsPartition | generator.py:112-113 | every text is written exactly once, in the commented section iff it starts with `!`, and each section ascends strictly |
| Generator.ListGenerator.AddRule | generator.py:22-66 | the generator state after the method is `Added` of the old state and the record (whose metadata, header and text effects AddedMetadata, AddedHomepage and AddedRules state), and the invariant is kept |
| Generator.ListGenerator.AddCommentToHeader | generator.py:69-72 | the header after the method is the old header with the line appended iff it was absent, so first-seen order is kept |
| Ordering.LexTransitive | generator.py:112-113 | Python's string `<` is transitive |
| Ordering.LexTotal | generator.py:112-113 | any two distinct strings are ordered by `<` one way or the other |
| Ordering.SortedOf | generator.py:112-113 | `sorted` of a set holds each element once, and only those, in strictly ascending order |
| Pipeline.NeedsTranslationHasCandidate | translator.py:58-61 | a rule the validator sends on for translation always finds its candidate again in the translator, so the "no matching pattern" branch is unreachable |
| Pipeline.ParsedRuleNeverEmpty | validator.py:42-46 | a parsed filter rule always has text, so the validator never calls it empty |
| Pipeline.NonRuleLinePassesThrough | validator.py:31-34 | blank, comment and metadata lines keep their own status, need no translation and contribute no rule text |
| Pipeline.FilterLineOutcome | generator.py:50-59 | a filter line always has a final text unless it is dropped, and it is dropped iff the strategy is drop and it did not end valid |
| Pipeline.BlankLine | parser.py:26-27 | every all-whitespace line is an empty record, passed through as empty and needing no translation |
| Pipeline.DirectiveIsComment | parser.py:29-35 | a `!#` directive line is a comment and is passed through as a comment |
| Pipeline.AnchoredRuleKept | validator.py:88-93 | with empty tables a `\|\|` rule is valid, needs no translation and is emitted as its stripped text |

## Left out

- Reading the pattern directory and decoding JSON are not modelled. The model takes the entries already decoded, in the order the program would read them. The order of `os.listdir` therefore becomes part of the input. A file that is not a JSON list, unreadable or undecodable is not modelled.
- SyntaxDb.RawEntry: every entry field is modelled as a string or absent. A JSON `null` or a non-string value cannot be represented. So the model does not capture `"name": null` passing the key test of `syntax_db.py:63`, nor a `"pattern_regex": null` on a translation entry raising a `TypeError` from `re.compile` (`syntax_db.py:47`) that the `re.error` handler does not catch.
- Logging is left out everywhere; it never changes a record.
- The regex engine is a parameter. Compilation, full match with groups, and search are taken as given, and regex syntax is not modelled.
- `str.format` is reduced to what templates use: literal text, `{{` and `}}`, and `{field}` with a digit or name field. Automatic numbering `{}`, attribute and index access, conversions and format specifications all fail to render in the model.
- `strip` uses the six ASCII whitespace characters, and `lower` only changes ASCII letters. `splitlines` splits on `\n` only, so `\r`, `\r\n` and the other Unicode line breaks are not separators.
- The compile pass stores matchers in the same dictionaries it reads. The model produces new lists with the matchers filled in. Aliasing between entries is not modelled.
- The option map starts empty and is merged with the parsed options. The model writes this as a map union after proving the map starts empty.
- Parser.ParseRawListContent: the `except` branch that turns a failing line into an `error` record is not modelled. `parse_line` cannot raise on a string, so the branch is unreachable, and the model states instead that every line yields its record. The generator is modelled as the sequence it yields.
- `generate_list`: creating the directory, writing the file, the header block with its clock-based timestamp, and the footer are not modelled. Only the two sorted sections are (Generator.SectionsPartition).
- A key that is present with the value `None` is not distinguished from an absent key (both are `None` in `Rules.Rule`). The parser never produces such a key.
- Validator: the `sub_type` key is never set by the parser, so the cosmetic note always uses its default text.
- Parser.OptionsOfLastWins, Parser.ParseOptions: an option value is stored stripped of surrounding whitespace (`parser.py:122`), and a piece without `=` gives the value `true`.
- Validator.PassThroughStatus: the note given to every pass-through record is the fixed sentence of `validator.py:33`, "Not a filter rule, passed through." (`Validator.PassThroughNote`, stated by Validator.VerdictUnchecked).
- Pipeline.DirectiveIsComment: a preprocessor directive such as `!#if env_firefox` starts with `!`, so it is a comment (`parser.py:16`). The validator passes it through without consulting the unsupported entries, and the translator never comments it out or drops it.
- Templates.RenderFieldThen, Translator.NamedGroupsRender, Translator.PositionalGroupsRender: rendering is stated for any template built of placeholders and literal text; no particular pattern file's template is rendered as a worked instance.
- Determinism across lists and runs holds by construction: every stage is a function of the record and the database.
