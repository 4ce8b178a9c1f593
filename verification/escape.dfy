/** `htmlEscape` of the product admin page (static/admin/products.js): five
    `replaceAll` passes over the text, ampersand first. */
module Escape {

  /** `s.replaceAll(c, rep)` for a one-character pattern. */
  function ReplaceAll(s: string, c: char, rep: string): (r: string)
    ensures |r| >= |s| || |rep| == 0
  {
    if s == [] then [] else (if s[0] == c then rep else [s[0]]) + ReplaceAll(s[1..], c, rep)
  }

  /** `htmlEscape` as written: the five passes in their order. */
  function HtmlEscape(s: string): string {
    var a := ReplaceAll(s, '&', "&amp;");
    var b := ReplaceAll(a, '<', "&lt;");
    var c := ReplaceAll(b, '>', "&gt;");
    var d := ReplaceAll(c, '"', "&quot;");
    ReplaceAll(d, '\'', "&#039;")
  }

  /** The entity of one character, the reference: each of the five special
      characters has its own, and every other character stands for itself. */
  function EscapeChar(x: char): (e: string)
    ensures |e| >= 1 && (|e| == 1 <==> !Special(x))
  {
    match x
    case '&' => "&amp;"
    case '<' => "&lt;"
    case '>' => "&gt;"
    case '"' => "&quot;"
    case '\'' => "&#039;"
    case _ => [x]
  }

  predicate Special(x: char) {
    x == '&' || x == '<' || x == '>' || x == '"' || x == '\''
  }

  /** The characters that may not survive escaping. */
  predicate Markup(x: char) {
    x == '<' || x == '>' || x == '"' || x == '\''
  }

  /** Escaping character by character. */
  function Escaped(s: string): string {
    if s == [] then [] else EscapeChar(s[0]) + Escaped(s[1..])
  }

  // ------------------------------------------------------------ the passes

  lemma {:induction false} ReplaceAllAppend(a: string, b: string, c: char, rep: string)
    ensures ReplaceAll(a + b, c, rep) == ReplaceAll(a, c, rep) + ReplaceAll(b, c, rep)
    decreases |a|
  {
    if a == [] {
      assert a + b == b;
    } else {
      assert (a + b)[0] == a[0] && (a + b)[1..] == a[1..] + b;
      ReplaceAllAppend(a[1..], b, c, rep);
    }
  }

  /** A pass whose pattern does not occur leaves the text alone. */
  lemma {:induction false} ReplaceAllAbsent(s: string, c: char, rep: string)
    requires c !in s
    ensures ReplaceAll(s, c, rep) == s
  {
    if s != [] {
      assert c !in s[1..];
      ReplaceAllAbsent(s[1..], c, rep);
    }
  }

  lemma ReplaceAllSingle(x: char, c: char, rep: string)
    ensures ReplaceAll([x], c, rep) == if x == c then rep else [x]
  {
    assert [x][1..] == [];
  }

  /** The five passes distribute over concatenation. */
  lemma HtmlEscapeAppend(a: string, b: string)
    ensures HtmlEscape(a + b) == HtmlEscape(a) + HtmlEscape(b)
  {
    var a1, b1 := ReplaceAll(a, '&', "&amp;"), ReplaceAll(b, '&', "&amp;");
    ReplaceAllAppend(a, b, '&', "&amp;");
    var a2, b2 := ReplaceAll(a1, '<', "&lt;"), ReplaceAll(b1, '<', "&lt;");
    ReplaceAllAppend(a1, b1, '<', "&lt;");
    var a3, b3 := ReplaceAll(a2, '>', "&gt;"), ReplaceAll(b2, '>', "&gt;");
    ReplaceAllAppend(a2, b2, '>', "&gt;");
    var a4, b4 := ReplaceAll(a3, '"', "&quot;"), ReplaceAll(b3, '"', "&quot;");
    ReplaceAllAppend(a3, b3, '"', "&quot;");
    ReplaceAllAppend(a4, b4, '\'', "&#039;");
  }

  /** The four passes after the first leave a text without their patterns alone. */
  lemma LaterPassesAbsent(a: string)
    requires '<' !in a && '>' !in a && '"' !in a && '\'' !in a
    ensures ReplaceAll(ReplaceAll(ReplaceAll(ReplaceAll(a, '<', "&lt;"), '>', "&gt;"), '"', "&quot;"), '\'', "&#039;") == a
  {
    ReplaceAllAbsent(a, '<', "&lt;");
    ReplaceAllAbsent(a, '>', "&gt;");
    ReplaceAllAbsent(a, '"', "&quot;");
    ReplaceAllAbsent(a, '\'', "&#039;");
  }

  lemma EscapeAmp()
    ensures HtmlEscape("&") == "&amp;"
  {
    var e := "&amp;";
    ReplaceAllSingle('&', '&', e);
    assert '<' !in e && '>' !in e && '"' !in e && '\'' !in e;
    LaterPassesAbsent(e);
  }

  lemma EscapeLt()
    ensures HtmlEscape("<") == "&lt;"
  {
    var e := "&lt;";
    ReplaceAllSingle('<', '&', "&amp;");
    ReplaceAllSingle('<', '<', e);
    assert '>' !in e && '"' !in e && '\'' !in e;
    ReplaceAllAbsent(e, '>', "&gt;");
    ReplaceAllAbsent(e, '"', "&quot;");
    ReplaceAllAbsent(e, '\'', "&#039;");
  }

  lemma EscapeGt()
    ensures HtmlEscape(">") == "&gt;"
  {
    var e := "&gt;";
    ReplaceAllSingle('>', '&', "&amp;");
    ReplaceAllSingle('>', '<', "&lt;");
    ReplaceAllSingle('>', '>', e);
    assert '"' !in e && '\'' !in e;
    ReplaceAllAbsent(e, '"', "&quot;");
    ReplaceAllAbsent(e, '\'', "&#039;");
  }

  lemma EscapeQuot()
    ensures HtmlEscape("\"") == "&quot;"
  {
    var e := "&quot;";
    ReplaceAllSingle('"', '&', "&amp;");
    ReplaceAllSingle('"', '<', "&lt;");
    ReplaceAllSingle('"', '>', "&gt;");
    ReplaceAllSingle('"', '"', e);
    assert '\'' !in e;
    ReplaceAllAbsent(e, '\'', "&#039;");
  }

  lemma EscapeApos()
    ensures HtmlEscape("'") == "&#039;"
  {
    ReplaceAllSingle('\'', '&', "&amp;");
    ReplaceAllSingle('\'', '<', "&lt;");
    ReplaceAllSingle('\'', '>', "&gt;");
    ReplaceAllSingle('\'', '"', "&quot;");
    ReplaceAllSingle('\'', '\'', "&#039;");
  }

  lemma EscapePlain(x: char)
    requires !Special(x)
    ensures HtmlEscape([x]) == [x]
  {
    ReplaceAllSingle(x, '&', "&amp;");
    ReplaceAllSingle(x, '<', "&lt;");
    ReplaceAllSingle(x, '>', "&gt;");
    ReplaceAllSingle(x, '"', "&quot;");
    ReplaceAllSingle(x, '\'', "&#039;");
  }

  /** On one character the five passes produce that character's entity: the
      ampersand goes first, so no entity made by a later pass is escaped again. */
  lemma HtmlEscapeChar(x: char)
    ensures HtmlEscape([x]) == EscapeChar(x)
  {
    match x
    case '&' => EscapeAmp();
    case '<' => EscapeLt();
    case '>' => EscapeGt();
    case '"' => EscapeQuot();
    case '\'' => EscapeApos();
    case _ => EscapePlain(x);
  }

  /** `htmlEscape` is the character-by-character escape. */
  lemma {:induction false} HtmlEscapeIsPerChar(s: string)
    ensures HtmlEscape(s) == Escaped(s)
  {
    if s == [] {
      assert HtmlEscape(s) == [];
    } else {
      assert s == [s[0]] + s[1..];
      HtmlEscapeAppend([s[0]], s[1..]);
      HtmlEscapeChar(s[0]);
      HtmlEscapeIsPerChar(s[1..]);
    }
  }

  // ------------------------------------------------------------ properties

  lemma {:induction false} EscapedAppend(a: string, b: string)
    ensures Escaped(a + b) == Escaped(a) + Escaped(b)
    decreases |a|
  {
    if a == [] {
      assert a + b == b;
    } else {
      assert (a + b)[0] == a[0] && (a + b)[1..] == a[1..] + b;
      EscapedAppend(a[1..], b);
    }
  }

  /** The output holds no '<', '>', '"' or "'". */
  lemma {:induction false} NoMarkupLeft(s: string)
    ensures forall i :: 0 <= i < |HtmlEscape(s)| ==> !Markup(HtmlEscape(s)[i])
  {
    HtmlEscapeIsPerChar(s);
    EscapedNoMarkup(s);
  }

  lemma {:induction false} EscapedNoMarkup(s: string)
    ensures forall i :: 0 <= i < |Escaped(s)| ==> !Markup(Escaped(s)[i])
  {
    if s != [] {
      EscapedNoMarkup(s[1..]);
      var e := EscapeChar(s[0]);
      assert forall i :: 0 <= i < |e| ==> !Markup(e[i]);
    }
  }

  /** The output is never shorter than the input, and has the same length exactly
      when the input holds none of the five special characters. */
  lemma {:induction false} EscapedLength(s: string)
    ensures |Escaped(s)| >= |s|
    ensures |Escaped(s)| == |s| <==> forall i :: 0 <= i < |s| ==> !Special(s[i])
  {
    if s != [] {
      EscapedLength(s[1..]);
      if |Escaped(s)| == |s| {
        assert forall i :: 0 <= i < |s| ==> !Special(s[i]) by {
          forall i | 0 <= i < |s| ensures !Special(s[i]) {
            if i > 0 {
              assert s[i] == s[1..][i - 1];
            }
          }
        }
      }
      if forall i :: 0 <= i < |s| ==> !Special(s[i]) {
        assert forall i :: 0 <= i < |s| - 1 ==> !Special(s[1..][i]) by {
          forall i | 0 <= i < |s| - 1 ensures !Special(s[1..][i]) {
            assert s[1..][i] == s[i + 1];
          }
        }
      }
    }
  }

  /** Text without special characters is returned unchanged. */
  lemma {:induction false} EscapeKeepsPlain(s: string)
    requires forall i :: 0 <= i < |s| ==> !Special(s[i])
    ensures HtmlEscape(s) == s
  {
    HtmlEscapeIsPerChar(s);
    EscapedPlain(s);
  }

  lemma {:induction false} EscapedPlain(s: string)
    requires forall i :: 0 <= i < |s| ==> !Special(s[i])
    ensures Escaped(s) == s
  {
    if s != [] {
      assert !Special(s[0]);
      EscapedPlain(s[1..]);
    }
  }

  // ------------------------------------------------------------ the inverse

  /** Decoding of the five entities, left to right; anything else is copied. */
  function Unescape(s: string): string
    decreases |s|
  {
    if s == [] then []
    else if |s| >= 5 && s[..5] == "&amp;" then "&" + Unescape(s[5..])
    else if |s| >= 4 && s[..4] == "&lt;" then "<" + Unescape(s[4..])
    else if |s| >= 4 && s[..4] == "&gt;" then ">" + Unescape(s[4..])
    else if |s| >= 6 && s[..6] == "&quot;" then "\"" + Unescape(s[6..])
    else if |s| >= 6 && s[..6] == "&#039;" then "'" + Unescape(s[6..])
    else [s[0]] + Unescape(s[1..])
  }

  /** A text that does not start with `p`: some character of `p` differs. */
  lemma NotPrefix(s: string, p: string, k: nat)
    requires k < |p| && k < |s| && s[k] != p[k]
    ensures !(|s| >= |p| && s[..|p|] == p)
  {
    if |s| >= |p| {
      assert s[..|p|][k] == s[k];
    }
  }

  lemma UnescapeAmp(t: string)
    ensures Unescape("&amp;" + t) == "&" + Unescape(t)
  {
    var s := "&amp;" + t;
    assert s[..5] == "&amp;" && s[5..] == t;
  }

  lemma UnescapeLt(t: string)
    ensures Unescape("&lt;" + t) == "<" + Unescape(t)
  {
    var s := "&lt;" + t;
    NotPrefix(s, "&amp;", 1);
    assert s[..4] == "&lt;" && s[4..] == t;
  }

  lemma UnescapeGt(t: string)
    ensures Unescape("&gt;" + t) == ">" + Unescape(t)
  {
    var s := "&gt;" + t;
    NotPrefix(s, "&amp;", 1);
    NotPrefix(s, "&lt;", 1);
    assert s[..4] == "&gt;" && s[4..] == t;
  }

  lemma UnescapeQuot(t: string)
    ensures Unescape("&quot;" + t) == "\"" + Unescape(t)
  {
    var s := "&quot;" + t;
    NotPrefix(s, "&amp;", 1);
    NotPrefix(s, "&lt;", 1);
    NotPrefix(s, "&gt;", 1);
    assert s[..6] == "&quot;" && s[6..] == t;
  }

  lemma UnescapeApos(t: string)
    ensures Unescape("&#039;" + t) == "'" + Unescape(t)
  {
    var s := "&#039;" + t;
    NotPrefix(s, "&amp;", 1);
    NotPrefix(s, "&lt;", 1);
    NotPrefix(s, "&gt;", 1);
    NotPrefix(s, "&quot;", 1);
    assert s[..6] == "&#039;" && s[6..] == t;
  }

  lemma UnescapePlain(x: char, t: string)
    requires !Special(x)
    ensures Unescape([x] + t) == [x] + Unescape(t)
  {
    var s := [x] + t;
    NotPrefix(s, "&amp;", 0);
    NotPrefix(s, "&lt;", 0);
    NotPrefix(s, "&gt;", 0);
    NotPrefix(s, "&quot;", 0);
    NotPrefix(s, "&#039;", 0);
    assert s[1..] == t;
  }

  /** Decoding one entity in front of the rest. */
  lemma UnescapeStep(x: char, t: string)
    ensures Unescape(EscapeChar(x) + t) == [x] + Unescape(t)
  {
    match x
    case '&' => UnescapeAmp(t);
    case '<' => UnescapeLt(t);
    case '>' => UnescapeGt(t);
    case '"' => UnescapeQuot(t);
    case '\'' => UnescapeApos(t);
    case _ => UnescapePlain(x, t);
  }

  /** Decoding the escaped text gives the original back, so escaping loses nothing. */
  lemma {:induction false} UnescapeHtmlEscape(s: string)
    ensures Unescape(HtmlEscape(s)) == s
  {
    HtmlEscapeIsPerChar(s);
    UnescapeEscaped(s);
  }

  lemma {:induction false} UnescapeEscaped(s: string)
    ensures Unescape(Escaped(s)) == s
  {
    if s != [] {
      UnescapeStep(s[0], Escaped(s[1..]));
      UnescapeEscaped(s[1..]);
    }
  }
}
