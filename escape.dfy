/**
 * `escapeHTML`: the five characters that matter in HTML text and attribute
 * values replaced by their entities, everything else copied.
 */
module Html {

  /** The characters `escapeHTML` rewrites. */
  predicate Special(c: char) {
    c == '&' || c == '<' || c == '>' || c == '"' || c == '\''
  }

  /** The replacement of one character: its entity when it is special, itself otherwise. */
  function EscapeChar(c: char): (e: string)
    ensures c == '&' ==> e == "&amp;"
    ensures c == '<' ==> e == "&lt;"
    ensures c == '>' ==> e == "&gt;"
    ensures c == '"' ==> e == "&quot;"
    ensures c == '\'' ==> e == "&#39;"
    ensures !Special(c) ==> e == [c]
  {
    match c
    case '&' => "&amp;"
    case '<' => "&lt;"
    case '>' => "&gt;"
    case '"' => "&quot;"
    case '\'' => "&#39;"
    case _ => [c]
  }

  /** `s.replace(/[&<>"']/g, …)`: every character replaced independently, left to right. */
  function EscapeHtml(s: string): (r: string)
    ensures |r| >= |s|
    ensures forall i :: 0 <= i < |r| ==> r[i] != '<' && r[i] != '>' && r[i] != '"' && r[i] != '\''
  {
    if s == [] then []
    else EscapeChar(s[0]) + EscapeHtml(s[1..])
  }

  /** Text free of special characters is left as it is. */
  lemma {:induction false} EscapePlain(s: string)
    requires forall i :: 0 <= i < |s| ==> !Special(s[i])
    ensures EscapeHtml(s) == s
  {
    if s != [] {
      EscapePlain(s[1..]);
    }
  }

  /** `s` begins with `prefix`. */
  predicate StartsWith(s: string, prefix: string) {
    |prefix| <= |s| && forall i :: 0 <= i < |prefix| ==> s[i] == prefix[i]
  }

  /**
   * How an HTML parser reads text back: each of the five character
   * references `&amp;`, `&lt;`, `&gt;`, `&quot;` and `&#39;` stands for its
   * character, every other character for itself.
   */
  function Unescape(s: string): string
    decreases |s|
  {
    if s == [] then []
    else if StartsWith(s, "&amp;") then ['&'] + Unescape(s[5..])
    else if StartsWith(s, "&lt;") then ['<'] + Unescape(s[4..])
    else if StartsWith(s, "&gt;") then ['>'] + Unescape(s[4..])
    else if StartsWith(s, "&quot;") then ['"'] + Unescape(s[6..])
    else if StartsWith(s, "&#39;") then ['\''] + Unescape(s[5..])
    else [s[0]] + Unescape(s[1..])
  }

  /** Decoding a character's replacement followed by anything gives the character back first. */
  lemma UnescapeChar(c: char, t: string)
    ensures Unescape(EscapeChar(c) + t) == [c] + Unescape(t)
  {
    var e := EscapeChar(c) + t;
    var n := |EscapeChar(c)|;
    assert e[n..] == t;
    assert forall i :: 0 <= i < n ==> e[i] == EscapeChar(c)[i];
    match c
    case '&' => assert StartsWith(e, "&amp;");
    case '<' => assert e[1] == 'l' && StartsWith(e, "&lt;");
    case '>' => assert e[1] == 'g' && StartsWith(e, "&gt;");
    case '"' => assert e[1] == 'q' && StartsWith(e, "&quot;");
    case '\'' => assert e[1] == '#' && StartsWith(e, "&#39;");
    case _ => assert e[0] == c;
  }

  /** Nothing is lost: decoding the escaped text gives the original text back. */
  lemma {:induction false} UnescapeEscape(s: string)
    ensures Unescape(EscapeHtml(s)) == s
  {
    if s != [] {
      UnescapeChar(s[0], EscapeHtml(s[1..]));
      UnescapeEscape(s[1..]);
      assert [s[0]] + s[1..] == s;
    }
  }

  /** Different texts stay different once escaped, so two model names never share a label. */
  lemma EscapeInjective(a: string, b: string)
    requires EscapeHtml(a) == EscapeHtml(b)
    ensures a == b
  {
    UnescapeEscape(a);
    UnescapeEscape(b);
  }
}
