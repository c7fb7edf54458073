/**
 * The express-validator stages the genre forms run on the `name` field:
 * the `isLength({ min: 1 })` check, the `trim()` sanitizer (validator.js
 * strips JavaScript's `\s` characters from both ends) and the `escape()`
 * sanitizer (validator.js replaces eight markup characters by entities).
 */
module Sanitize {
  import opened Base

  /** The characters JavaScript's regular-expression class `\s` matches. */
  predicate IsJsSpace(c: char)
  {
    c == '\t' || c == '\n' || c == '\U{000B}' || c == '\U{000C}' || c == '\r' || c == ' '
    || c == '\U{00A0}' || c == '\U{1680}' || ('\U{2000}' <= c <= '\U{200A}')
    || c == '\U{2028}' || c == '\U{2029}' || c == '\U{202F}' || c == '\U{205F}'
    || c == '\U{3000}' || c == '\U{FEFF}'
  }

  predicate AllSpace(s: string)
  {
    forall i :: 0 <= i < |s| ==> IsJsSpace(s[i])
  }

  /** validator.js `ltrim`: drop the leading whitespace. */
  function TrimStart(s: string): (r: string)
    ensures |r| <= |s| && r == s[|s| - |r|..]
    ensures AllSpace(s[..|s| - |r|])
    ensures r == [] || !IsJsSpace(r[0])
  {
    if s != [] && IsJsSpace(s[0]) then TrimStart(s[1..]) else s
  }

  /** validator.js `rtrim`: drop the trailing whitespace. */
  function TrimEnd(s: string): (r: string)
    ensures |r| <= |s| && r == s[..|r|]
    ensures AllSpace(s[|r|..])
    ensures r == [] || !IsJsSpace(r[|r| - 1])
  {
    if s != [] && IsJsSpace(s[|s| - 1]) then TrimEnd(s[..|s| - 1]) else s
  }

  /** `s` is some whitespace, then `r`, then some more whitespace. */
  ghost predicate WhitespaceAround(s: string, r: string)
  {
    exists lead, trail :: AllSpace(lead) && AllSpace(trail) && s == lead + r + trail
  }

  /** validator.js `trim`: `rtrim(ltrim(s))`. */
  function Trim(s: string): (r: string)
    ensures |r| <= |s|
    ensures r == [] || (!IsJsSpace(r[0]) && !IsJsSpace(r[|r| - 1]))
    ensures r == [] <==> AllSpace(s)
  {
    var t := TrimStart(s);
    var r := TrimEnd(t);
    TrimmedEnds(s, t, r);
    r
  }

  /**
   * The ends, length and emptiness `Trim` promises, from the slices
   * `TrimStart` and `TrimEnd` leave.
   */
  lemma {:induction false} TrimmedEnds(s: string, t: string, r: string)
    requires t == TrimStart(s) && r == TrimEnd(t)
    ensures |r| <= |s|
    ensures r == [] || (!IsJsSpace(r[0]) && !IsJsSpace(r[|r| - 1]))
    ensures r == [] <==> AllSpace(s)
  {
    var k := |s| - |t|;
    if r != [] {
      assert r[0] == t[0];
    }
    if t != [] {
      assert !IsJsSpace(s[k]);
    }
    if r == [] {
      assert s == s[..k];
    }
  }

  /** `Trim` removes only whitespace: the input is some whitespace, then the result, then more whitespace. */
  lemma TrimKeepsMiddle(s: string)
    ensures WhitespaceAround(s, Trim(s))
  {
    var t := TrimStart(s);
    TrimmedAround(s, t, TrimEnd(t));
  }

  /** A whitespace prefix cut from `s`, then a whitespace suffix cut from the rest, leave `r` with whitespace around it. */
  lemma TrimmedAround(s: string, t: string, r: string)
    requires |t| <= |s| && t == s[|s| - |t|..] && AllSpace(s[..|s| - |t|])
    requires |r| <= |t| && r == t[..|r|] && AllSpace(t[|r|..])
    ensures WhitespaceAround(s, r)
  {
    SlicesRejoin(s, t, r);
    assert s == s[..|s| - |t|] + r + t[|r|..];
  }

  /** A suffix `t` of `s` and a prefix `r` of `t` split `s` into three pieces. */
  lemma SlicesRejoin<T>(s: seq<T>, t: seq<T>, r: seq<T>)
    requires |t| <= |s| && t == s[|s| - |t|..]
    requires |r| <= |t| && r == t[..|r|]
    ensures s == s[..|s| - |t|] + r + t[|r|..]
  {
    assert s == s[..|s| - |t|] + t;
    assert t == r + t[|r|..];
  }

  /** Trimming text that has already been trimmed changes nothing. */
  lemma TrimIdempotent(s: string)
    ensures Trim(Trim(s)) == Trim(s)
  {
    var r := Trim(s);
    assert TrimStart(r) == r;
  }

  /** The markup-significant characters `escape()` replaces (besides `&`, which it also encodes). */
  predicate IsMarkup(c: char)
  {
    c == '"' || c == '\'' || c == '<' || c == '>' || c == '/' || c == '\\' || c == '`'
  }

  function EscapeChar(c: char): (e: string)
    ensures |e| >= 1
    ensures forall i :: 0 <= i < |e| ==> !IsMarkup(e[i])
  {
    match c
    case '&' => "&amp;"
    case '"' => "&quot;"
    case '\'' => "&#x27;"
    case '<' => "&lt;"
    case '>' => "&gt;"
    case '/' => "&#x2F;"
    case '\\' => "&#x5C;"
    case '`' => "&#96;"
    case _ => [c]
  }

  /** validator.js `escape`: each character replaced by its entity or kept. */
  function Escape(s: string): (r: string)
    ensures |r| >= |s|
    ensures forall i :: 0 <= i < |r| ==> !IsMarkup(r[i])
  {
    if s == [] then [] else EscapeChar(s[0]) + Escape(s[1..])
  }

  /** True when `s` begins with `prefix`. */
  predicate StartsWith(s: string, prefix: string)
  {
    |prefix| <= |s| && forall i :: 0 <= i < |prefix| ==> s[i] == prefix[i]
  }

  /** Entity decoding as a browser reads the escaped text back: a reference for what `Escape` preserves. */
  function Unescape(s: string): string
  {
    if s == [] then []
    else if s[0] != '&' then [s[0]] + Unescape(s[1..])
    else if StartsWith(s, "&amp;") then "&" + Unescape(s[5..])
    else if StartsWith(s, "&quot;") then "\"" + Unescape(s[6..])
    else if StartsWith(s, "&#x27;") then "'" + Unescape(s[6..])
    else if StartsWith(s, "&lt;") then "<" + Unescape(s[4..])
    else if StartsWith(s, "&gt;") then ">" + Unescape(s[4..])
    else if StartsWith(s, "&#x2F;") then "/" + Unescape(s[6..])
    else if StartsWith(s, "&#x5C;") then "\\" + Unescape(s[6..])
    else if StartsWith(s, "&#96;") then "`" + Unescape(s[5..])
    else "&" + Unescape(s[1..])
  }

  lemma UnescapeEscapeChar(c: char, t: string)
    ensures Unescape(EscapeChar(c) + t) == [c] + Unescape(t)
  {
    var e := EscapeChar(c);
    var s := e + t;
    assert forall i :: 0 <= i < |e| ==> s[i] == e[i];
    assert s[|e|..] == t;
    match c
    case '&' =>
    case '"' => assert s[1] == 'q';
    case '\'' => assert s[1] == '#' && s[3] == '2' && s[4] == '7';
    case '<' => assert s[1] == 'l';
    case '>' => assert s[1] == 'g';
    case '/' => assert s[1] == '#' && s[3] == '2' && s[4] == 'F';
    case '\\' => assert s[1] == '#' && s[3] == '5';
    case '`' => assert s[1] == '#' && s[2] == '9';
    case _ => assert s[0] == c;
  }

  /** Escaping loses nothing: decoding the escaped text gives back the input. */
  lemma {:induction false} EscapeReadsBack(s: string)
    ensures Unescape(Escape(s)) == s
  {
    if s != [] {
      UnescapeEscapeChar(s[0], Escape(s[1..]));
      EscapeReadsBack(s[1..]);
    }
  }

  /** express-validator's `isLength({ min: 1 })` on a body field: one error carrying `msg` when the value is empty. */
  function CheckNotEmpty(param: string, msg: string, value: string): (errors: seq<ValidationError>)
    ensures errors == [] <==> |value| >= 1
    ensures errors != [] ==> errors == [ValidationError("body", param, msg, value)]
  {
    if |value| >= 1 then [] else [ValidationError("body", param, msg, value)]
  }

  /** The value the genre forms store: trimmed, then escaped. */
  function SanitizeName(raw: string): (name: string)
    ensures Unescape(name) == Trim(raw)
    ensures name == [] <==> AllSpace(raw)
  {
    EscapeReadsBack(Trim(raw));
    Escape(Trim(raw))
  }
}
