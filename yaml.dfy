/**
 * `yaml_escape`: writes a front-matter value, wrapping it in double quotes
 * when YAML could read it as something other than plain text.
 */
module Yaml {

  import opened Wrappers
  import opened Text

  /**
   * The characters whose presence anywhere forces quoting. `<` is not among
   * them, and neither is `;`.
   */
  predicate IsIndicator(c: char) {
    c in ":-?[]{},&*#!|>'%@`\""
  }

  /** The first characters that force quoting. */
  predicate IsLeadingIndicator(c: char) {
    c in " -?:@"
  }

  predicate HasIndicator(t: string) {
    exists i :: 0 <= i < |t| && IsIndicator(t[i])
  }

  /** When `yaml_escape` quotes its text. */
  predicate NeedsQuoting(t: string) {
    HasIndicator(t)
    || (t != [] && IsSpace(t[|t| - 1]))
    || (t != [] && IsLeadingIndicator(t[0]))
  }

  function CountQuotes(t: string): nat {
    if t == [] then 0 else (if t[0] == '"' then 1 else 0) + CountQuotes(t[1..])
  }

  /**
   * `t.replace('"', '\\"')`: a backslash before every double quote. The
   * result grows by one character per quote, never starts with a quote,
   * and is `t` itself when `t` has no quote.
   */
  function EscapeQuotes(t: string): (r: string)
    ensures |r| == |t| + CountQuotes(t)
    ensures r != [] ==> r[0] != '"'
    ensures CountQuotes(t) == 0 ==> r == t
  {
    if t == [] then []
    else (if t[0] == '"' then "\\\"" else [t[0]]) + EscapeQuotes(t[1..])
  }

  /**
   * `yaml_escape(value)`. No value gives the empty text. A text is returned
   * unchanged exactly when it does not need quoting; otherwise the result
   * starts and ends with a double quote and is two characters plus one per
   * inner quote longer than the text.
   */
  function YamlEscape(value: Option<string>): (r: string)
    ensures value.None? ==> r == ""
    ensures value.Some? ==> (r == value.value <==> !NeedsQuoting(value.value))
    ensures value.Some? && NeedsQuoting(value.value) ==>
      |r| == |value.value| + 2 + CountQuotes(value.value) && r[0] == '"' && r[|r| - 1] == '"'
  {
    match value
    case None => ""
    case Some(text) =>
      if NeedsQuoting(text) then "\"" + EscapeQuotes(text) + "\"" else text
  }

  /** Undoes `EscapeQuotes`: every backslash-quote pair becomes a quote. */
  function UnescapeQuotes(u: string): string {
    if u == [] then []
    else if |u| >= 2 && u[0] == '\\' && u[1] == '"' then "\"" + UnescapeQuotes(u[2..])
    else [u[0]] + UnescapeQuotes(u[1..])
  }

  /** Reads back a value written by `YamlEscape`. */
  function Unquote(r: string): string {
    if |r| >= 2 && r[0] == '"' && r[|r| - 1] == '"' then UnescapeQuotes(r[1..|r| - 1]) else r
  }

  lemma {:induction false} UnescapeEscape(t: string)
    ensures UnescapeQuotes(EscapeQuotes(t)) == t
  {
    if t != [] {
      var rest := EscapeQuotes(t[1..]);
      UnescapeEscape(t[1..]);
      if t[0] == '"' {
        assert EscapeQuotes(t) == "\\\"" + rest;
        assert ("\\\"" + rest)[2..] == rest;
      } else {
        var u := [t[0]] + rest;
        assert EscapeQuotes(t) == u;
        assert u[1..] == rest;
        assert !(|u| >= 2 && u[0] == '\\' && u[1] == '"') by {
          if |u| >= 2 { assert u[1] == rest[0]; }
        }
        assert t == [t[0]] + t[1..];
      }
    }
  }

  /** Whatever the text, reading back what `yaml_escape` wrote gives the text. */
  lemma YamlRoundTrip(t: string)
    ensures Unquote(YamlEscape(Some(t))) == t
  {
    if NeedsQuoting(t) {
      var e := EscapeQuotes(t);
      assert ("\"" + e + "\"")[1..|e| + 1] == e;
      UnescapeEscape(t);
    } else {
      assert !(t != [] && t[0] == '"');
    }
  }

  predicate IsLetter(c: char) {
    'A' <= c <= 'Z' || 'a' <= c <= 'z'
  }

  /** A text made of ASCII letters only is written as it is. */
  lemma LettersWrittenPlain(t: string)
    requires forall i :: 0 <= i < |t| ==> IsLetter(t[i])
    ensures YamlEscape(Some(t)) == t
  {
    forall i | 0 <= i < |t| ensures !IsIndicator(t[i]) && !IsLeadingIndicator(t[i]) && !IsSpace(t[i]) {
      LetterIsPlain(t[i]);
    }
  }

  lemma LetterIsPlain(c: char)
    requires IsLetter(c)
    ensures !IsIndicator(c) && !IsLeadingIndicator(c) && !IsSpace(c)
  {
  }

  /**
   * A line break is not among the characters that force quoting: two lines
   * that need no quoting are written as they are, line break included, so
   * the value spills onto a second front-matter line.
   */
  lemma LineBreakWrittenPlain(a: string, b: string)
    requires a != [] && !HasIndicator(a) && !IsLeadingIndicator(a[0])
    requires b != [] && !HasIndicator(b) && !IsSpace(b[|b| - 1])
    ensures YamlEscape(Some(a + "\n" + b)) == a + "\n" + b
  {
    var t := a + "\n" + b;
    forall i | 0 <= i < |t| ensures !IsIndicator(t[i]) {
      if i < |a| { assert t[i] == a[i]; }
      else if i > |a| { assert t[i] == b[i - |a| - 1]; }
    }
    assert t[0] == a[0] && t[|t| - 1] == b[|b| - 1];
  }

  /**
   * Backslashes are not escaped: a quoted text without quotes that ends in
   * a backslash is written ending in backslash, quote.
   */
  lemma TrailingBackslashQuoted(t: string)
    requires NeedsQuoting(t) && CountQuotes(t) == 0
    requires t != [] && t[|t| - 1] == '\\'
    ensures var r := YamlEscape(Some(t));
      |r| >= 2 && r[|r| - 2] == '\\' && r[|r| - 1] == '"'
  {
    var r := YamlEscape(Some(t));
    assert r == "\"" + t + "\"";
    assert r[|r| - 2] == t[|t| - 1];
  }

  /** For instance the title `C:` followed by a backslash. */
  lemma TrailingBackslashExample()
    ensures var r := YamlEscape(Some("C:\\"));
      |r| >= 2 && r[|r| - 2] == '\\' && r[|r| - 1] == '"'
  {
    BackslashTitle();
    TrailingBackslashQuoted("C:\\");
  }

  lemma BackslashTitle()
    ensures var t := "C:\\";
      NeedsQuoting(t) && CountQuotes(t) == 0 && t[|t| - 1] == '\\'
  {
    var t := "C:\\";
    assert IsIndicator(t[1]);
    assert CountQuotes(t[2..]) == 0;
  }

}
