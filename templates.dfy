/**
 * Translation templates: literal text with `{{` and `}}` escapes and `{field}`
 * placeholders, where a field of digits names a positional group and any other field a
 * named group. Rendering fails on a lone brace, an unclosed placeholder, a field the
 * arguments do not provide, or a field this language does not support.
 */
module Templates {
  import opened Wrappers
  import opened Strings

  /** The groups a template is rendered with: by position, or by name. */
  datatype Args = Positional(items: seq<Option<string>>) | Named(fields: map<string, Option<string>>)

  /** How a group value is written out; a group that took no part in the match prints as `None`. */
  function Shown(g: Option<string>): string {
    match g
    case Some(t) => t
    case None => "None"
  }

  predicate IsDigit(c: char) {
    '0' <= c <= '9'
  }

  predicate IsDigits(f: string) {
    f != [] && forall k :: 0 <= k < |f| ==> IsDigit(f[k])
  }

  function DigitsValue(f: string): nat
    requires forall k :: 0 <= k < |f| ==> IsDigit(f[k])
  {
    if f == [] then 0
    else
      assert IsDigit(f[|f| - 1]);
      DigitsValue(f[..|f| - 1]) * 10 + (f[|f| - 1] as int - '0' as int)
  }

  /** A field this language supports: non-empty, no attribute, index, conversion or format part. */
  predicate IsPlainField(f: string) {
    f != [] && '.' !in f && '[' !in f && ']' !in f && '!' !in f && ':' !in f && '{' !in f && '}' !in f
  }

  /** The text a field stands for, if the arguments provide it. */
  function Lookup(a: Args, f: string): (r: Option<string>)
    ensures a.Named? && f in a.fields && !IsDigits(f) ==> r == Some(Shown(a.fields[f]))
    ensures a.Named? && f !in a.fields ==> r.None?
    ensures a.Positional? && IsDigits(f) ==>
              r == if DigitsValue(f) < |a.items| then Some(Shown(a.items[DigitsValue(f)])) else None
    ensures a.Named? && IsDigits(f) ==> r.None?
    ensures a.Positional? && !IsDigits(f) ==> r.None?
  {
    if IsDigits(f) then
      match a
      case Positional(items) => if DigitsValue(f) < |items| then Some(Shown(items[DigitsValue(f)])) else None
      case Named(_) => None
    else
      match a
      case Named(fields) => if f in fields then Some(Shown(fields[f])) else None
      case Positional(_) => None
  }

  function Prepend(p: string, r: Option<string>): (q: Option<string>)
    ensures q.Some? <==> r.Some?
    ensures q.Some? ==> q.value == p + r.value
  {
    match r
    case Some(x) => Some(p + x)
    case None => None
  }

  /** The text a template renders to with the given groups, or None when rendering fails. */
  function Render(t: string, a: Args): (r: Option<string>)
    ensures '{' !in t && '}' !in t ==> r == Some(t)
    decreases |t|
  {
    if t == [] then Some([])
    else if t[0] == '{' && |t| >= 2 && t[1] == '{' then Prepend("{", Render(t[2..], a))
    else if t[0] == '}' && |t| >= 2 && t[1] == '}' then Prepend("}", Render(t[2..], a))
    else if t[0] == '}' then None
    else if t[0] == '{' then
      match Find(t[1..], "}")
      case None => None
      case Some(j) =>
        var f := t[1..1 + j];
        if !IsPlainField(f) then None
        else
          match Lookup(a, f)
          case None => None
          case Some(v) => Prepend(v, Render(t[j + 2..], a))
    else
      assert t == [t[0]] + t[1..];
      Prepend([t[0]], Render(t[1..], a))
  }

  /** Literal text written as a template: every brace doubled. */
  function Escape(s: string): (t: string)
    ensures |t| >= |s|
  {
    if s == [] then [] else EscapeChar(s[0]) + Escape(s[1..])
  }

  /** One character of literal text as a template: a brace doubled, anything else as is. */
  function EscapeChar(c: char): string {
    if c == '{' || c == '}' then [c, c] else [c]
  }

  /** Literal text followed by any template renders as that text followed by the rest's rendering. */
  lemma {:induction false} RenderEscapePrefix(s: string, rest: string, a: Args)
    ensures Render(Escape(s) + rest, a) == Prepend(s, Render(rest, a))
    decreases |s|
  {
    if s == [] {
      assert Escape(s) + rest == rest;
      PrependEmpty(Render(rest, a));
    } else {
      RenderEscapePrefix(s[1..], rest, a);
      var tail := Escape(s[1..]) + rest;
      assert Escape(s) + rest == EscapeChar(s[0]) + tail;
      RenderFirstLiteral(s[0], tail, a);
      PrependTwice([s[0]], s[1..], Render(rest, a));
      assert [s[0]] + s[1..] == s;
    }
  }

  lemma PrependEmpty(r: Option<string>)
    ensures Prepend([], r) == r
  {
    if r.Some? {
      assert [] + r.value == r.value;
    }
  }

  lemma PrependTwice(p: string, q: string, r: Option<string>)
    ensures Prepend(p, Prepend(q, r)) == Prepend(p + q, r)
  {
    if r.Some? {
      assert p + (q + r.value) == p + q + r.value;
    }
  }

  /** One escaped character in front of a template renders as that character. */
  lemma RenderFirstLiteral(c: char, tail: string, a: Args)
    ensures Render(EscapeChar(c) + tail, a) == Prepend([c], Render(tail, a))
  {
    var t := EscapeChar(c) + tail;
    if c == '{' || c == '}' {
      assert t[2..] == tail;
    } else {
      assert t[1..] == tail;
    }
  }

  /** Rendering undoes escaping, whatever the groups. */
  lemma RenderEscape(s: string, a: Args)
    ensures Render(Escape(s), a) == Some(s)
  {
    RenderEscapePrefix(s, [], a);
    assert Escape(s) + [] == Escape(s);
    assert s + [] == s;
  }

  /** A placeholder renders as its field's lookup in front of the rest, and fails when the lookup does. */
  lemma RenderOpenField(f: string, rest: string, a: Args)
    requires IsPlainField(f)
    ensures Render("{" + f + "}" + rest, a) ==
            if Lookup(a, f).Some? then Prepend(Lookup(a, f).value, Render(rest, a)) else None
  {
    var t := "{" + f + "}" + rest;
    FirstClose(f, rest);
    assert t[0] == '{' && t[1] == f[0] && f[0] != '{';
    assert t[1..] == f + "}" + rest;
    assert t[1..1 + |f|] == f;
    assert t[|f| + 2..] == rest;
  }

  /** A placeholder the groups provide is replaced by the group's text. */
  lemma RenderField(f: string, rest: string, a: Args)
    requires IsPlainField(f) && Lookup(a, f).Some?
    ensures Render("{" + f + "}" + rest, a) == Prepend(Lookup(a, f).value, Render(rest, a))
  {
    RenderOpenField(f, rest, a);
  }

  /** A placeholder the groups do not provide makes the whole rendering fail. */
  lemma RenderMissingField(f: string, rest: string, a: Args)
    requires IsPlainField(f) && Lookup(a, f).None?
    ensures Render("{" + f + "}" + rest, a).None?
  {
    RenderOpenField(f, rest, a);
  }

  /** In `f + "}" + rest` with no `}` in `f`, the first `}` is the one right after `f`. */
  lemma FirstClose(f: string, rest: string)
    requires '}' !in f
    ensures Find(f + "}" + rest, "}") == Some(|f|)
  {
    var u := f + "}" + rest;
    assert OccursAt(u, "}", |f|) by {
      assert u[|f|..|f| + 1] == "}";
    }
    forall j | 0 <= j < |f|
      ensures !OccursAt(u, "}", j)
    {
      assert u[j..j + 1] == [f[j]];
    }
  }

  /** A lone `}` cannot be rendered. */
  lemma RenderLoneClose(rest: string, a: Args)
    requires rest == [] || rest[0] != '}'
    ensures Render("}" + rest, a).None?
  {
  }

  /** Text with no braces is its own escaped form. */
  lemma {:induction false} EscapePlain(s: string)
    requires '{' !in s && '}' !in s
    ensures Escape(s) == s
    decreases |s|
  {
    if s != [] {
      assert '{' !in s[1..] && '}' !in s[1..];
      EscapePlain(s[1..]);
    }
  }

  /** Text with no braces renders as itself, in front of whatever follows. */
  lemma RenderPlain(s: string, rest: string, a: Args)
    requires '{' !in s && '}' !in s
    ensures Render(s + rest, a) == Prepend(s, Render(rest, a))
  {
    EscapePlain(s);
    RenderEscapePrefix(s, rest, a);
  }

  /** A placeholder followed by brace-free text renders as the group's text followed by that text. */
  lemma RenderFieldThen(f: string, l: string, rest: string, a: Args)
    requires IsPlainField(f) && Lookup(a, f).Some?
    requires '{' !in l && '}' !in l
    ensures Render("{" + f + "}" + (l + rest), a) == Prepend(Lookup(a, f).value + l, Render(rest, a))
  {
    RenderField(f, l + rest, a);
    RenderPlain(l, rest, a);
    match Render(rest, a)
    case None =>
    case Some(x) => assert Lookup(a, f).value + (l + x) == Lookup(a, f).value + l + x;
  }
}
