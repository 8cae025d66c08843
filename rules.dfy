/**
 * The per-line rule record every stage reads and fills in: its kind, the fields the
 * line classifier sets, and the status fields the validator and translator add.
 * `Rule` is the record as a value; `RuleRecord` is the same record as an object the
 * stages update in place.
 */
module Rules {
  import opened Wrappers

  /** The record's `type`; `UnknownType` stands for any other tag a caller might supply. */
  datatype RuleType = EmptyLine | CommentLine | MetadataLine | FilterRule | ErrorLine | UnknownType(tag: string)

  /** The closed set of `validation_status` values. */
  datatype ValidationStatus = Valid | Unsupported | NeedsTranslation | Error | Empty | Comment | Metadata

  /** The closed set of `translation_status` values; `Failed` is only ever intermediate. */
  datatype TranslationStatus = NotNeeded | Translated | Failed | CommentedOut | Dropped

  /** An option's value: a bare flag (`True`) or the text after `=`. */
  datatype OptionValue = Flag | Value(text: string)

  function StatusName(v: ValidationStatus): string {
    match v
    case Valid => "valid"
    case Unsupported => "unsupported"
    case NeedsTranslation => "needs_translation"
    case Error => "error"
    case Empty => "empty"
    case Comment => "comment"
    case Metadata => "metadata"
  }

  function TypeName(t: RuleType): string {
    match t
    case EmptyLine => "empty"
    case CommentLine => "comment"
    case MetadataLine => "metadata"
    case FilterRule => "rule"
    case ErrorLine => "error"
    case UnknownType(tag) => tag
  }

  /** The keys the classifier fills in for a filter rule; `pattern` is absent on other records. */
  datatype Shape = Shape(
    pattern: Option<string>,
    optionsStr: Option<string>,
    options: map<string, OptionValue>,
    domains: Option<string>,
    selector: Option<string>,
    isException: bool,
    isCosmetic: bool,
    isHtmlFilter: bool,
    isScriptlet: bool)

  /** The shape of a record that is not a filter rule: no pattern, no options, no flags. */
  const NoShape := Shape(None, None, map[], None, None, false, false, false, false)

  /** Every key a record can carry; `None` is a key the record does not have. */
  datatype Rule = Rule(
    kind: RuleType,
    originalLine: string,
    lineNumber: int,
    listName: string,
    key: Option<string>,
    value: Option<string>,
    error: Option<string>,
    rawRule: Option<string>,
    shape: Shape,
    validationStatus: Option<ValidationStatus>,
    validationNotes: Option<string>,
    translationStatus: Option<TranslationStatus>,
    translatedRule: Option<string>)

  /** A record carrying only its kind and line coordinates. */
  function Bare(kind: RuleType, line: string, n: int, list: string): (r: Rule)
    ensures r.kind == kind && r.originalLine == line && r.lineNumber == n && r.listName == list
    ensures r.rawRule.None? && r.shape == NoShape
    ensures r.validationStatus.None? && r.translationStatus.None? && r.translatedRule.None?
  {
    Rule(kind, line, n, list, None, None, None, None, NoShape, None, None, None, None)
  }

  /** A rule record in place, as the stages mutate it. */
  class RuleRecord {
    var kind: RuleType
    var originalLine: string
    var lineNumber: int
    var listName: string
    var key: Option<string>
    var value: Option<string>
    var error: Option<string>
    var rawRule: Option<string>
    var shape: Shape
    var validationStatus: Option<ValidationStatus>
    var validationNotes: Option<string>
    var translationStatus: Option<TranslationStatus>
    var translatedRule: Option<string>

    /** The record's current contents as a value. */
    function Snapshot(): Rule
      reads this
    {
      Rule(kind, originalLine, lineNumber, listName, key, value, error, rawRule, shape,
           validationStatus, validationNotes, translationStatus, translatedRule)
    }

    /** A new record holding the given contents (a dictionary literal). */
    constructor (v: Rule)
      ensures Snapshot() == v
    {
      kind := v.kind;
      originalLine := v.originalLine;
      lineNumber := v.lineNumber;
      listName := v.listName;
      key := v.key;
      value := v.value;
      error := v.error;
      rawRule := v.rawRule;
      shape := v.shape;
      validationStatus := v.validationStatus;
      validationNotes := v.validationNotes;
      translationStatus := v.translationStatus;
      translatedRule := v.translatedRule;
    }
  }
}
