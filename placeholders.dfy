/**
 * The regular expressions the formatters' command templating uses (core/formatting.go
 * and langserver/handle_text_document_formatting.go), written out as string functions:
 *   \${([^:|^}]+):KEY}  and  \${([^=|^}]+)=KEY}   replaced by a template such as "$1 VALUE",
 *   \${[^}]*}                                      replaced by "".
 * Go's ReplaceAllString replaces the leftmost, non-overlapping matches in one pass, and
 * expands $0, $1, $name, ${name} and $$ in the template for each match.
 */
module Placeholders {
  import opened Wrappers
  import opened Text

  /** A character of the flag group: [^:|^}] when sep is ':', [^=|^}] when sep is '='. */
  predicate FlagChar(c: char, sep: char) {
    c != sep && c != '|' && c != '^' && c != '}'
  }

  /** How many flag characters s starts with: the greedy group stops at the first other character. */
  function FlagRun(s: string, sep: char): (n: nat)
    ensures n <= |s|
    ensures forall i :: 0 <= i < n ==> FlagChar(s[i], sep)
    ensures n < |s| ==> !FlagChar(s[n], sep)
    decreases |s|
  {
    if |s| > 0 && FlagChar(s[0], sep) then 1 + FlagRun(s[1..], sep) else 0
  }

  /**
   * The length of the flag when s starts with a match of \${(flag)<sep><key>}, else 0.
   * The flag group cannot contain sep, so at one position there is at most one match.
   */
  function FlagAt(s: string, sep: char, key: string): (n: nat)
    ensures n > 0 ==> n + |key| + 4 <= |s|
  {
    if |s| >= 2 && s[0] == '$' && s[1] == '{' then
      var n := FlagRun(s[2..], sep);
      if n > 0 && KeyAt(s, 2 + n, sep, key) then n else 0
    else 0
  }

  /** At index i, s holds sep, the key and the closing brace. */
  predicate KeyAt(s: string, i: nat, sep: char, key: string) {
    i + |key| + 2 <= |s| && s[i] == sep && s[i + 1..i + 1 + |key|] == key && s[i + 1 + |key|] == '}'
  }

  /** ReplaceAllString of \${([^<sep>|^}]+)<sep><key>} by the template, expanded for each match. */
  function Fill(s: string, sep: char, key: string, template: string): string
    decreases |s|
  {
    if |s| == 0 then ""
    else
      var n := FlagAt(s, sep, key);
      if n > 0 then Expand(template, s[..n + |key| + 4], s[2..2 + n]) + Fill(s[n + |key| + 4..], sep, key, template)
      else [s[0]] + Fill(s[1..], sep, key, template)
  }

  // ------------------------------------------------------------------ template expansion

  /** A character of a template's group name: a letter, a digit or '_' (ASCII only). */
  predicate NameChar(c: char) {
    ('a' <= c <= 'z') || ('A' <= c <= 'Z') || ('0' <= c <= '9') || c == '_'
  }

  /** How many name characters s starts with. */
  function NameRun(s: string): (n: nat)
    ensures n <= |s|
    ensures forall i :: 0 <= i < n ==> NameChar(s[i])
    ensures n < |s| ==> !NameChar(s[n])
    decreases |s|
  {
    if |s| > 0 && NameChar(s[0]) then 1 + NameRun(s[1..]) else 0
  }

  /**
   * The group name after a '$' and the template after it: "{name}" or a bare run of name
   * characters. None for an empty name or a missing closing brace, where the '$' is kept.
   */
  function Extract(t: string): (r: Option<(string, string)>)
    ensures r.Some? ==> |r.value.0| > 0 && |r.value.1| < |t|
  {
    if |t| > 0 && t[0] == '{' then
      var n := NameRun(t[1..]);
      if n == 0 || 1 + n >= |t| || t[1 + n] != '}' then None
      else Some((t[1..1 + n], t[2 + n..]))
    else
      var n := NameRun(t);
      if n == 0 then None else Some((t[..n], t[n..]))
  }

  /**
   * The text of a named group for the placeholder patterns, which have the whole match as
   * group 0, the flag as group 1 and no named groups: "0" and "1" are those (no leading
   * zeros), every other name, numbered or not, is the empty string.
   */
  function Group(name: string, whole: string, flag: string): string {
    if name == "0" then whole else if name == "1" then flag else ""
  }

  /** Regexp.Expand of a template for one match: "$$" is '$', "$name" and "${name}" the group's text. */
  function Expand(template: string, whole: string, flag: string): string
    decreases |template|
  {
    if |template| == 0 then ""
    else if template[0] != '$' then [template[0]] + Expand(template[1..], whole, flag)
    else
      var t := template[1..];
      if |t| > 0 && t[0] == '$' then "$" + Expand(t[1..], whole, flag)
      else match Extract(t)
        case None => "$" + Expand(t, whole, flag)
        case Some((name, rest)) => Group(name, whole, flag) + Expand(rest, whole, flag)
  }

  /** The placeholder text ${<flag><sep><key>}. */
  function Placeholder(flag: string, sep: char, key: string): string {
    "${" + flag + [sep] + key + "}"
  }

  /** Text free of the characters that delimit placeholders and flag groups. */
  predicate Plain(w: string) {
    forall i :: 0 <= i < |w| ==> w[i] != '$' && w[i] != '{' && w[i] != '}' && w[i] != ':' && w[i] != '=' && w[i] != '|' && w[i] != '^'
  }

  /** A formatting option's value: a boolean, or any other value as fmt's %v prints it. */
  datatype OptionValue = Flag(on: bool) | Value(shown: string)

  /** One formatting option applied to a command, as the switch on the value's type does. */
  function ApplyOption(command: string, key: string, value: OptionValue): string {
    match value
    case Value(v) => Fill(Fill(command, ':', key, "$1 " + v), '=', key, "$1=" + v)
    case Flag(true) => Fill(Fill(command, ':', key, "$1"), '=', key, "$1")
    case Flag(false) => Fill(Fill(command, ':', "!" + key, "$1"), '=', "!" + key, "$1")
  }

  /** The key a value's placeholders carry: a false flag answers to ${F:!key} and ${F=!key}. */
  function PatternKey(key: string, value: OptionValue): string {
    if value == Flag(false) then "!" + key else key
  }

  /** The template a value's placeholders with separator sep are replaced by. */
  function Template(sep: char, value: OptionValue): string {
    match value
    case Flag(_) => "$1"
    case Value(v) => if sep == ':' then "$1 " + v else "$1=" + v
  }

  /** What follows the flag once its placeholder is filled, for a value without '$'. */
  function Tail(sep: char, value: OptionValue): string {
    match value
    case Flag(_) => ""
    case Value(v) => if sep == ':' then " " + v else "=" + v
  }

  /** ReplaceAllString of \${[^}]*} by "": every ${ with a closing brace after it is deleted up to that brace. */
  function Strip(s: string): string
    decreases |s|
  {
    if |s| == 0 then ""
    else if |s| >= 2 && s[0] == '$' && s[1] == '{' && CloseAt(s[2..]) < |s| - 2 then Strip(s[2 + CloseAt(s[2..]) + 1..])
    else [s[0]] + Strip(s[1..])
  }

  /** The index of the first '}' in s, or |s| when there is none. */
  function CloseAt(s: string): (j: nat)
    ensures j <= |s| && (j < |s| <==> '}' in s)
    ensures j < |s| ==> s[j] == '}'
    ensures forall i :: 0 <= i < j ==> s[i] != '}'
    decreases |s|
  {
    if |s| == 0 || s[0] == '}' then 0 else 1 + CloseAt(s[1..])
  }

  // ------------------------------------------------------------------ properties

  /** The flag group runs over a flag and stops at the character after it. */
  lemma {:induction false} FlagRunStops(flag: string, after: string, sep: char)
    requires forall i :: 0 <= i < |flag| ==> FlagChar(flag[i], sep)
    requires |after| > 0 && !FlagChar(after[0], sep)
    ensures FlagRun(flag + after, sep) == |flag|
    decreases |flag|
  {
    if |flag| > 0 {
      assert (flag + after)[1..] == flag[1..] + after;
      FlagRunStops(flag[1..], after, sep);
    } else {
      assert flag + after == after;
    }
  }

  /** Text without '$' passes Fill unchanged. */
  lemma {:induction false} FillPass(x: string, rest: string, sep: char, key: string, tail: string)
    requires '$' !in x
    ensures Fill(x + rest, sep, key, tail) == x + Fill(rest, sep, key, tail)
    decreases |x|
  {
    if |x| == 0 {
      assert x + rest == rest;
    } else {
      assert (x + rest)[0] == x[0];
      assert (x + rest)[1..] == x[1..] + rest;
      FillPass(x[1..], rest, sep, key, tail);
      AppendAssoc([x[0]], x[1..], Fill(rest, sep, key, tail));
      assert [x[0]] + x[1..] == x;
    }
  }

  /** Where the parts of a placeholder followed by more text sit. */
  lemma PlaceholderLayout(s: string, flag: string, sep: char, key: string, rest: string)
    requires s == Placeholder(flag, sep, key) + rest
    ensures |s| == |flag| + |key| + 4 + |rest| && s[0] == '$' && s[1] == '{'
    ensures s[..|flag| + |key| + 4] == Placeholder(flag, sep, key)
    ensures s[2..] == flag + ([sep] + key + "}" + rest) && s[2..2 + |flag|] == flag
    ensures s[2 + |flag|] == sep && s[3 + |flag|..3 + |flag| + |key|] == key && s[3 + |flag| + |key|] == '}'
    ensures s[|flag| + |key| + 4..] == rest
    ensures forall i :: 0 <= i < |key| ==> s[3 + |flag| + i] == key[i]
    ensures forall i :: 0 <= i < |flag| ==> s[2 + i] == flag[i]
  {
    assert s[2..] == flag + ([sep] + key + "}" + rest);
  }

  /**
   * A placeholder of the pattern's separator and key is replaced by the template expanded
   * with the placeholder as group 0 and its flag as group 1.
   */
  lemma FillMatch(flag: string, sep: char, key: string, template: string, rest: string)
    requires |flag| > 0 && forall i :: 0 <= i < |flag| ==> FlagChar(flag[i], sep)
    ensures Fill(Placeholder(flag, sep, key) + rest, sep, key, template)
      == Expand(template, Placeholder(flag, sep, key), flag) + Fill(rest, sep, key, template)
  {
    var s := Placeholder(flag, sep, key) + rest;
    PlaceholderLayout(s, flag, sep, key, rest);
    FlagRunStops(flag, [sep] + key + "}" + rest, sep);
    assert KeyAt(s, 2 + |flag|, sep, key);
  }

  /**
   * A placeholder with another separator or another key does not match: it stays, and
   * Fill goes on after it.
   */
  lemma FillMiss(flag: string, sep: char, key: string, sep2: char, key2: string, template: string, rest: string)
    requires Plain(flag) && Plain(key) && Plain(key2)
    requires (sep == ':' || sep == '=') && (sep2 == ':' || sep2 == '=')
    requires sep != sep2 || key != key2
    ensures Fill(Placeholder(flag, sep, key) + rest, sep2, key2, template) == Placeholder(flag, sep, key) + Fill(rest, sep2, key2, template)
  {
    var p := Placeholder(flag, sep, key);
    var s := p + rest;
    NoMatchAt(s, flag, sep, key, sep2, key2, rest);
    var q := p[1..];
    assert s[1..] == q + rest;
    assert q == "{" + flag + [sep] + key + "}";
    assert forall i :: 0 <= i < |q| ==> q[i] != '$';
    FillPass(q, rest, sep2, key2, template);
    assert [s[0]] + q == p;
    AppendAssoc([s[0]], q, Fill(rest, sep2, key2, template));
  }

  /** FillMiss's core: the pattern does not match at the placeholder's start. */
  lemma NoMatchAt(s: string, flag: string, sep: char, key: string, sep2: char, key2: string, rest: string)
    requires s == Placeholder(flag, sep, key) + rest
    requires Plain(flag) && Plain(key) && Plain(key2)
    requires (sep == ':' || sep == '=') && (sep2 == ':' || sep2 == '=')
    requires sep != sep2 || key != key2
    ensures FlagAt(s, sep2, key2) == 0
  {
    PlaceholderLayout(s, flag, sep, key, rest);
    if sep == sep2 {
      NoMatchSameSep(s, flag, sep, key, key2, rest);
    } else {
      NoMatchOtherSep(s, flag, sep, key, sep2, key2, rest);
    }
  }

  /** Same separator, another key: the flag group stops at sep, and the key that follows is not key2. */
  lemma NoMatchSameSep(s: string, flag: string, sep: char, key: string, key2: string, rest: string)
    requires s == Placeholder(flag, sep, key) + rest
    requires Plain(flag) && Plain(key) && Plain(key2) && (sep == ':' || sep == '=') && key != key2
    requires |s| == |flag| + |key| + 4 + |rest| && s[0] == '$' && s[1] == '{'
    requires s[2..] == flag + ([sep] + key + "}" + rest)
    requires s[3 + |flag|..3 + |flag| + |key|] == key && s[3 + |flag| + |key|] == '}'
    requires forall i :: 0 <= i < |key| ==> s[3 + |flag| + i] == key[i]
    ensures FlagAt(s, sep, key2) == 0
  {
    var m := 3 + |flag|;
    assert forall i :: 0 <= i < |flag| ==> FlagChar(flag[i], sep);
    FlagRunStops(flag, [sep] + key + "}" + rest, sep);
    assert forall j :: m <= j < m + |key| ==> s[j] != '}';
    KeyMismatch(s, m, key, key2);
  }

  /** Another separator: the flag group runs on to the closing brace, where sep2 is missing. */
  lemma NoMatchOtherSep(s: string, flag: string, sep: char, key: string, sep2: char, key2: string, rest: string)
    requires Plain(flag) && Plain(key) && (sep == ':' || sep == '=') && (sep2 == ':' || sep2 == '=') && sep != sep2
    requires |s| == |flag| + |key| + 4 + |rest| && s[0] == '$' && s[1] == '{'
    requires s[2..] == flag + ([sep] + key + "}" + rest)
    ensures FlagAt(s, sep2, key2) == 0
  {
    var body := flag + [sep] + key;
    assert forall i :: 0 <= i < |body| ==> FlagChar(body[i], sep2);
    assert s[2..] == body + ("}" + rest);
    FlagRunStops(body, "}" + rest, sep2);
    assert s[2 + |body|] == '}';
  }

  /** Where key ends with the first '}' at m + |key|, no other plain key fits before a '}' there. */
  lemma KeyMismatch(s: string, m: nat, key: string, key2: string)
    requires Plain(key2) && key != key2 && m + |key| < |s| && s[m..m + |key|] == key && s[m + |key|] == '}'
    requires forall j :: m <= j < m + |key| ==> s[j] != '}'
    ensures !(m + |key2| < |s| && s[m..m + |key2|] == key2 && s[m + |key2|] == '}')
  {
    if m + |key2| < |s| && s[m..m + |key2|] == key2 {
      assert forall j :: m <= j < m + |key2| ==> s[j] == key2[j - m] != '}';
    }
  }

  /**
   * The formatting-option rules: a placeholder ${F<sep>key} (${F<sep>!key} for a false
   * flag) becomes its value's template expanded for it, "$1" for a flag, "$1 v" or "$1=v"
   * for any other value v, and the rest of the command is treated the same way. After the
   * ':' pass the '=' pattern runs over the expanded text, which passes unchanged when it
   * holds no '$'.
   */
  lemma OptionFills(flag: string, sep: char, key: string, value: OptionValue, rest: string)
    requires |flag| > 0 && Plain(flag) && Plain(key) && (sep == ':' || sep == '=')
    requires sep == ':' ==> '$' !in Expand(Template(':', value), Placeholder(flag, ':', PatternKey(key, value)), flag)
    ensures ApplyOption(Placeholder(flag, sep, PatternKey(key, value)) + rest, key, value)
      == Expand(Template(sep, value), Placeholder(flag, sep, PatternKey(key, value)), flag) + ApplyOption(rest, key, value)
  {
    var k := PatternKey(key, value);
    var p := Placeholder(flag, sep, k);
    assert Plain(k) by {
      assert k == key || k == "!" + key;
    }
    assert forall i :: 0 <= i < |flag| ==> FlagChar(flag[i], ':') && FlagChar(flag[i], '=');
    var t1, t2 := Template(':', value), Template('=', value);
    if sep == ':' {
      FillMatch(flag, ':', k, t1, rest);
      FillPass(Expand(t1, p, flag), Fill(rest, ':', k, t1), '=', k, t2);
    } else {
      FillMiss(flag, '=', k, ':', k, t1, rest);
      FillMatch(flag, '=', k, t2, Fill(rest, ':', k, t1));
      assert p + Fill(rest, ':', k, t1) == Placeholder(flag, '=', k) + Fill(rest, ':', k, t1);
    }
    ApplyOptionPasses(p + rest, key, value);
    ApplyOptionPasses(rest, key, value);
  }

  /** ApplyOption as its two passes with the value's key and templates. */
  lemma ApplyOptionPasses(command: string, key: string, value: OptionValue)
    ensures ApplyOption(command, key, value)
      == Fill(Fill(command, ':', PatternKey(key, value), Template(':', value)), '=', PatternKey(key, value), Template('=', value))
  {
  }

  /** A template without '$' is copied as it is. */
  lemma {:induction false} ExpandLiteral(template: string, whole: string, flag: string)
    requires '$' !in template
    ensures Expand(template, whole, flag) == template
    decreases |template|
  {
    if |template| > 0 {
      ExpandLiteral(template[1..], whole, flag);
    }
  }

  /** "$1" followed by text that does not start a name gives the flag and then the text's expansion. */
  lemma ExpandFlagFirst(after: string, whole: string, flag: string)
    requires |after| == 0 || !NameChar(after[0])
    ensures Expand("$1" + after, whole, flag) == flag + Expand(after, whole, flag)
  {
    var template := "$1" + after;
    var t := template[1..];
    assert t == "1" + after && t[0] == '1';
    assert NameRun(t) == 1 by {
      assert NameRun(t[1..]) == 0 by {
        assert t[1..] == after;
      }
    }
    assert Extract(t) == Some((t[..1], t[1..]));
    assert t[..1] == "1" && t[1..] == after;
  }

  /**
   * For a value without '$' the expansion is what the source intends: the flag followed by
   * " v" or "=v", or the flag alone for a boolean.
   */
  lemma ExpandPlain(sep: char, value: OptionValue, whole: string, flag: string)
    requires (sep == ':' || sep == '=') && (value.Value? ==> '$' !in value.shown)
    ensures Expand(Template(sep, value), whole, flag) == flag + Tail(sep, value)
  {
    var tail := Tail(sep, value);
    assert Template(sep, value) == "$1" + tail;
    assert '$' !in tail;
    ExpandFlagFirst(tail, whole, flag);
    ExpandLiteral(tail, whole, flag);
  }

  /** Text without '$' at the head of a template is copied, and the rest expanded. */
  lemma {:induction false} ExpandLiteralPrefix(x: string, rest: string, whole: string, flag: string)
    requires '$' !in x
    ensures Expand(x + rest, whole, flag) == x + Expand(rest, whole, flag)
    decreases |x|
  {
    if |x| == 0 {
      assert x + rest == rest;
    } else {
      assert (x + rest)[0] == x[0] && (x + rest)[1..] == x[1..] + rest;
      ExpandLiteralPrefix(x[1..], rest, whole, flag);
      AppendAssoc([x[0]], x[1..], Expand(rest, whole, flag));
      assert [x[0]] + x[1..] == x;
    }
  }

  /** A name other than "0" and "1" after '$' stands for the empty string. */
  lemma ExpandUnknownName(name: string, whole: string, flag: string)
    requires |name| > 0 && (forall i :: 0 <= i < |name| ==> NameChar(name[i])) && name != "0" && name != "1"
    ensures Expand("$" + name, whole, flag) == ""
  {
    var t := ("$" + name)[1..];
    assert t == name && t[0] != '{' && t[0] != '$';
    assert NameRun(t) == |t|;
    assert t[..|t|] == name && t[|t|..] == "";
    assert Extract(t) == Some((name, ""));
  }

  /** "$$" followed by text without '$' is one '$' and that text. */
  lemma ExpandDoubled(b: string, whole: string, flag: string)
    requires '$' !in b
    ensures Expand("$$" + b, whole, flag) == "$" + b
  {
    assert ("$$" + b)[1..] == "$" + b && ("$" + b)[1..] == b;
    ExpandLiteral(b, whole, flag);
  }

  /**
   * A value holding '$' is expanded as a template: in "a$name" the name is a group the
   * pattern does not have (any but "0" and "1"), so ${F:key} with that value becomes "F a";
   * with the value "a$b", for instance, it becomes "F a".
   */
  lemma ValueMissingGroup(flag: string, key: string, a: string, name: string)
    requires |flag| > 0 && Plain(flag) && Plain(key) && '$' !in a
    requires |name| > 0 && (forall i :: 0 <= i < |name| ==> NameChar(name[i])) && name != "0" && name != "1"
    ensures ApplyOption(Placeholder(flag, ':', key), key, Value(a + "$" + name)) == flag + " " + a
  {
    var v := Value(a + "$" + name);
    var p := Placeholder(flag, ':', key);
    assert PatternKey(key, v) == key && Template(':', v) == "$1" + (" " + a + ("$" + name));
    ExpandFlagFirst(" " + a + ("$" + name), p, flag);
    ExpandLiteralPrefix(" " + a, "$" + name, p, flag);
    ExpandUnknownName(name, p, flag);
    assert Expand(Template(':', v), p, flag) == flag + " " + a;
    OptionFills(flag, ':', key, v, "");
    assert ApplyOption("", key, v) == "";
    assert p + "" == p;
  }

  /** A '$' that does not open "${" starts no placeholder. */
  lemma FillLoneDollar(b: string, sep: char, key: string, template: string)
    requires '$' !in b && (|b| == 0 || b[0] != '{')
    ensures Fill("$" + b, sep, key, template) == "$" + b
  {
    assert FlagAt("$" + b, sep, key) == 0;
    assert ("$" + b)[1..] == b && b + "" == b;
    FillPass(b, "", sep, key, template);
  }

  /** The first pass with a value "a$$b": the placeholder becomes "F a$b". */
  lemma FillDoubledDollar(flag: string, key: string, a: string, b: string)
    requires |flag| > 0 && Plain(flag) && '$' !in a && '$' !in b
    ensures Fill(Placeholder(flag, ':', key), ':', key, "$1 " + (a + "$$" + b)) == flag + " " + a + ("$" + b)
  {
    var p := Placeholder(flag, ':', key);
    var t1 := "$1 " + (a + "$$" + b);
    assert t1 == "$1" + (" " + a + ("$$" + b));
    assert forall i :: 0 <= i < |flag| ==> FlagChar(flag[i], ':');
    ExpandFlagFirst(" " + a + ("$$" + b), p, flag);
    ExpandLiteralPrefix(" " + a, "$$" + b, p, flag);
    ExpandDoubled(b, p, flag);
    FillMatch(flag, ':', key, t1, "");
    assert p + "" == p;
  }

  /**
   * "$$" in a value stands for a single '$': ${F:key} with the value "a$$b" becomes "F a$b",
   * for b without '$' that does not start with '{'.
   */
  lemma ValueDoubledDollar(flag: string, key: string, a: string, b: string)
    requires |flag| > 0 && Plain(flag) && Plain(key) && '$' !in a && '$' !in b && (|b| == 0 || b[0] != '{')
    ensures ApplyOption(Placeholder(flag, ':', key), key, Value(a + "$$" + b)) == flag + " " + a + "$" + b
  {
    var v := Value(a + "$$" + b);
    var p := Placeholder(flag, ':', key);
    var t1, t2 := Template(':', v), Template('=', v);
    var once := flag + " " + a + ("$" + b);
    assert ApplyOption(p, key, v) == Fill(Fill(p, ':', key, t1), '=', key, t2) by {
      assert PatternKey(key, v) == key;
      ApplyOptionPasses(p, key, v);
    }
    assert Fill(p, ':', key, t1) == once by {
      assert t1 == "$1 " + (a + "$$" + b);
      FillDoubledDollar(flag, key, a, b);
    }
    assert Fill(once, '=', key, t2) == once by {
      FillLoneDollar(b, '=', key, t2);
      FillPass(flag + " " + a, "$" + b, '=', key, t2);
    }
    assert once == flag + " " + a + "$" + b;
  }

  /** A placeholder carrying another key is left for the final stripping. */
  lemma OptionSkips(flag: string, sep: char, key2: string, key: string, value: OptionValue, rest: string)
    requires Plain(flag) && Plain(key2) && Plain(key) && (sep == ':' || sep == '=')
    requires key2 != PatternKey(key, value)
    ensures ApplyOption(Placeholder(flag, sep, key2) + rest, key, value)
      == Placeholder(flag, sep, key2) + ApplyOption(rest, key, value)
  {
    var k := PatternKey(key, value);
    assert Plain(k) by {
      assert k == key || k == "!" + key;
    }
    var p := Placeholder(flag, sep, key2);
    var t1, t2 := Template(':', value), Template('=', value);
    FillMiss(flag, sep, key2, ':', k, t1, rest);
    FillMiss(flag, sep, key2, '=', k, t2, Fill(rest, ':', k, t1));
    ApplyOptionPasses(p + rest, key, value);
    ApplyOptionPasses(rest, key, value);
  }

  /** Text without '$' passes Strip unchanged. */
  lemma {:induction false} StripPass(x: string, rest: string)
    requires '$' !in x
    ensures Strip(x + rest) == x + Strip(rest)
    decreases |x|
  {
    if |x| == 0 {
      assert x + rest == rest;
    } else {
      var c, tail := x[0], x[1..];
      Uncons(x, rest);
      StripHead(c, tail + rest);
      StripPass(tail, rest);
      AppendAssoc([c], tail, Strip(rest));
    }
  }

  /** x + rest split at x's first character. */
  lemma Uncons(x: string, rest: string)
    requires |x| > 0 && '$' !in x
    ensures x + rest == [x[0]] + (x[1..] + rest) && x == [x[0]] + x[1..]
    ensures x[0] != '$' && '$' !in x[1..]
  {
  }

  /** A first character other than '$' is kept. */
  lemma StripHead(c: char, s: string)
    requires c != '$'
    ensures Strip([c] + s) == [c] + Strip(s)
  {
    assert ([c] + s)[1..] == s;
  }

  /** A closed ${...} is deleted, whatever it holds, and stripping goes on after it. */
  lemma StripPlaceholder(body: string, rest: string)
    requires '}' !in body
    ensures Strip("${" + body + "}" + rest) == Strip(rest)
  {
    var s := "${" + body + "}" + rest;
    assert s[0] == '$' && s[1] == '{';
    assert s[2..] == body + ("}" + rest);
    CloseAtStops(body, "}" + rest);
    assert s[2 + |body| + 1..] == rest;
  }

  /** The first '}' after a prefix without one is the one right after it. */
  lemma {:induction false} CloseAtStops(body: string, after: string)
    requires '}' !in body && |after| > 0 && after[0] == '}'
    ensures CloseAt(body + after) == |body|
    decreases |body|
  {
    if |body| == 0 {
      assert body + after == after;
    } else {
      assert (body + after)[1..] == body[1..] + after;
      CloseAtStops(body[1..], after);
    }
  }

  /** A command with no closing brace keeps every character. */
  lemma {:induction false} StripUnclosed(s: string)
    requires '}' !in s
    ensures Strip(s) == s
    decreases |s|
  {
    if |s| > 0 {
      assert '}' !in s[1..];
      StripUnclosed(s[1..]);
    }
  }
}
