/**
 * `escapeHtml` of the content script: five global replacements applied one
 * after the other, `&` first. It is proved equal to a character-by-character
 * escape, free of the four markup characters, and undone by decoding the five
 * entities.
 */
module Html {

  /** `s.replace(/c/g, rep)`. */
  function ReplaceAll(s: string, c: char, rep: string): (r: string)
    decreases |s|
  {
    if s == [] then [] else (if s[0] == c then rep else [s[0]]) + ReplaceAll(s[1..], c, rep)
  }

  /** `escapeHtml(str)`, the chain of replacements in the source's order. */
  function EscapeHtml(s: string): string {
    var a := ReplaceAll(s, '&', "&amp;");
    var b := ReplaceAll(a, '<', "&lt;");
    var c := ReplaceAll(b, '>', "&gt;");
    var d := ReplaceAll(c, '"', "&quot;");
    ReplaceAll(d, '\'', "&#039;")
  }

  /** The entity that stands for one character in the escaped text. */
  function EscapeChar(c: char): string {
    match c
    case '&' => "&amp;"
    case '<' => "&lt;"
    case '>' => "&gt;"
    case '"' => "&quot;"
    case '\'' => "&#039;"
    case _ => [c]
  }

  /** The reference escape: each character replaced by its entity, in one pass. */
  function EscapeEach(s: string): string
    decreases |s|
  {
    if s == [] then [] else EscapeChar(s[0]) + EscapeEach(s[1..])
  }

  predicate IsMarkup(c: char) {
    c == '<' || c == '>' || c == '"' || c == '\''
  }

  function HasPrefix(s: string, p: string): bool {
    |p| <= |s| && s[..|p|] == p
  }

  /** Decodes the five entities, left to right; any other character stands for itself. */
  function Unescape(s: string): string
    decreases |s|
  {
    if s == [] then []
    else if HasPrefix(s, "&amp;") then ['&'] + Unescape(s[5..])
    else if HasPrefix(s, "&lt;") then ['<'] + Unescape(s[4..])
    else if HasPrefix(s, "&gt;") then ['>'] + Unescape(s[4..])
    else if HasPrefix(s, "&quot;") then ['"'] + Unescape(s[6..])
    else if HasPrefix(s, "&#039;") then ['\''] + Unescape(s[6..])
    else [s[0]] + Unescape(s[1..])
  }

  lemma {:induction false} ReplaceAllConcat(a: string, b: string, c: char, rep: string)
    ensures ReplaceAll(a + b, c, rep) == ReplaceAll(a, c, rep) + ReplaceAll(b, c, rep)
    decreases |a|
  {
    if a == [] {
      assert a + b == b;
    } else {
      assert (a + b)[1..] == a[1..] + b;
      ReplaceAllConcat(a[1..], b, c, rep);
    }
  }

  lemma {:induction false} ReplaceAllAbsent(s: string, c: char, rep: string)
    requires c !in s
    ensures ReplaceAll(s, c, rep) == s
    decreases |s|
  {
    if s != [] {
      ReplaceAllAbsent(s[1..], c, rep);
    }
  }

  lemma ReplaceAllSingle(x: char, c: char, rep: string)
    ensures ReplaceAll([x], c, rep) == if x == c then rep else [x]
  {
    assert [x][1..] == [];
  }

  /** The five stages of `escapeHtml`, named. */
  lemma EscapeHtmlStages(s: string, a: string, b: string, c: string, d: string, e: string)
    requires a == ReplaceAll(s, '&', "&amp;") && b == ReplaceAll(a, '<', "&lt;")
    requires c == ReplaceAll(b, '>', "&gt;") && d == ReplaceAll(c, '"', "&quot;")
    requires e == ReplaceAll(d, '\'', "&#039;")
    ensures EscapeHtml(s) == e
  {
  }

  lemma EscapeAmpChar()
    ensures EscapeHtml("&") == "&amp;"
  {
    var s := "&";
    var a := ReplaceAll(s, '&', "&amp;");
    assert a == "&amp;" by { ReplaceAllSingle('&', '&', "&amp;"); }
    var b := ReplaceAll(a, '<', "&lt;");
    assert b == a by { ReplaceAllAbsent(a, '<', "&lt;"); }
    var c := ReplaceAll(b, '>', "&gt;");
    assert c == b by { ReplaceAllAbsent(b, '>', "&gt;"); }
    var d := ReplaceAll(c, '"', "&quot;");
    assert d == c by { ReplaceAllAbsent(c, '"', "&quot;"); }
    var e := ReplaceAll(d, '\'', "&#039;");
    assert e == d by { ReplaceAllAbsent(d, '\'', "&#039;"); }
    EscapeHtmlStages(s, a, b, c, d, e);
  }

  lemma EscapeLtChar()
    ensures EscapeHtml("<") == "&lt;"
  {
    var s := "<";
    var a := ReplaceAll(s, '&', "&amp;");
    assert a == s by { ReplaceAllAbsent(s, '&', "&amp;"); }
    var b := ReplaceAll(a, '<', "&lt;");
    assert b == "&lt;" by { ReplaceAllSingle('<', '<', "&lt;"); }
    var c := ReplaceAll(b, '>', "&gt;");
    assert c == b by { ReplaceAllAbsent(b, '>', "&gt;"); }
    var d := ReplaceAll(c, '"', "&quot;");
    assert d == c by { ReplaceAllAbsent(c, '"', "&quot;"); }
    var e := ReplaceAll(d, '\'', "&#039;");
    assert e == d by { ReplaceAllAbsent(d, '\'', "&#039;"); }
    EscapeHtmlStages(s, a, b, c, d, e);
  }

  lemma EscapeGtChar()
    ensures EscapeHtml(">") == "&gt;"
  {
    var s := ">";
    var a := ReplaceAll(s, '&', "&amp;");
    assert a == s by { ReplaceAllAbsent(s, '&', "&amp;"); }
    var b := ReplaceAll(a, '<', "&lt;");
    assert b == a by { ReplaceAllAbsent(a, '<', "&lt;"); }
    var c := ReplaceAll(b, '>', "&gt;");
    assert c == "&gt;" by { ReplaceAllSingle('>', '>', "&gt;"); }
    var d := ReplaceAll(c, '"', "&quot;");
    assert d == c by { ReplaceAllAbsent(c, '"', "&quot;"); }
    var e := ReplaceAll(d, '\'', "&#039;");
    assert e == d by { ReplaceAllAbsent(d, '\'', "&#039;"); }
    EscapeHtmlStages(s, a, b, c, d, e);
  }

  lemma EscapeQuotChar()
    ensures EscapeHtml("\"") == "&quot;"
  {
    var s := "\"";
    var a := ReplaceAll(s, '&', "&amp;");
    assert a == s by { ReplaceAllAbsent(s, '&', "&amp;"); }
    var b := ReplaceAll(a, '<', "&lt;");
    assert b == a by { ReplaceAllAbsent(a, '<', "&lt;"); }
    var c := ReplaceAll(b, '>', "&gt;");
    assert c == b by { ReplaceAllAbsent(b, '>', "&gt;"); }
    var d := ReplaceAll(c, '"', "&quot;");
    assert d == "&quot;" by { ReplaceAllSingle('"', '"', "&quot;"); }
    var e := ReplaceAll(d, '\'', "&#039;");
    assert e == d by { ReplaceAllAbsent(d, '\'', "&#039;"); }
    EscapeHtmlStages(s, a, b, c, d, e);
  }

  lemma EscapeAposChar()
    ensures EscapeHtml("'") == "&#039;"
  {
    var s := "'";
    var a := ReplaceAll(s, '&', "&amp;");
    assert a == s by { ReplaceAllAbsent(s, '&', "&amp;"); }
    var b := ReplaceAll(a, '<', "&lt;");
    assert b == a by { ReplaceAllAbsent(a, '<', "&lt;"); }
    var c := ReplaceAll(b, '>', "&gt;");
    assert c == b by { ReplaceAllAbsent(b, '>', "&gt;"); }
    var d := ReplaceAll(c, '"', "&quot;");
    assert d == c by { ReplaceAllAbsent(c, '"', "&quot;"); }
    var e := ReplaceAll(d, '\'', "&#039;");
    assert e == "&#039;" by { ReplaceAllSingle('\'', '\'', "&#039;"); }
    EscapeHtmlStages(s, a, b, c, d, e);
  }

  /** The chain of replacements acts on one character as its entity does. */
  lemma EscapeHtmlChar(x: char)
    ensures EscapeHtml([x]) == EscapeChar(x)
  {
    if x == '&' {
      EscapeAmpChar();
    } else if x == '<' {
      EscapeLtChar();
    } else if x == '>' {
      EscapeGtChar();
    } else if x == '"' {
      EscapeQuotChar();
    } else if x == '\'' {
      EscapeAposChar();
    } else {
      ReplaceAllAbsent([x], '&', "&amp;");
      ReplaceAllAbsent([x], '<', "&lt;");
      ReplaceAllAbsent([x], '>', "&gt;");
      ReplaceAllAbsent([x], '"', "&quot;");
      ReplaceAllAbsent([x], '\'', "&#039;");
    }
  }

  lemma EscapeHtmlConcat(a: string, b: string)
    ensures EscapeHtml(a + b) == EscapeHtml(a) + EscapeHtml(b)
  {
    ReplaceAllConcat(a, b, '&', "&amp;");
    var a1, b1 := ReplaceAll(a, '&', "&amp;"), ReplaceAll(b, '&', "&amp;");
    ReplaceAllConcat(a1, b1, '<', "&lt;");
    var a2, b2 := ReplaceAll(a1, '<', "&lt;"), ReplaceAll(b1, '<', "&lt;");
    ReplaceAllConcat(a2, b2, '>', "&gt;");
    var a3, b3 := ReplaceAll(a2, '>', "&gt;"), ReplaceAll(b2, '>', "&gt;");
    ReplaceAllConcat(a3, b3, '"', "&quot;");
    var a4, b4 := ReplaceAll(a3, '"', "&quot;"), ReplaceAll(b3, '"', "&quot;");
    ReplaceAllConcat(a4, b4, '\'', "&#039;");
  }

  /** Replacing `&` first means no later entity is escaped again: the chain equals the one-pass escape. */
  lemma {:induction false} EscapeHtmlIsEscapeEach(s: string)
    ensures EscapeHtml(s) == EscapeEach(s)
    decreases |s|
  {
    if s == [] {
    } else {
      assert s == [s[0]] + s[1..];
      EscapeHtmlConcat([s[0]], s[1..]);
      EscapeHtmlChar(s[0]);
      EscapeHtmlIsEscapeEach(s[1..]);
    }
  }

  lemma {:induction false} EscapeEachNoMarkup(s: string)
    ensures forall k :: 0 <= k < |EscapeEach(s)| ==> !IsMarkup(EscapeEach(s)[k])
    decreases |s|
  {
    if s != [] {
      EscapeEachNoMarkup(s[1..]);
      var e, t := EscapeChar(s[0]), EscapeEach(s[1..]);
      forall k | 0 <= k < |e + t| ensures !IsMarkup((e + t)[k]) {
        if k >= |e| {
          assert (e + t)[k] == t[k - |e|];
        }
      }
    }
  }

  /** The escaped text contains none of `<`, `>`, `"` and `'`. */
  lemma EscapeHtmlNoMarkup(s: string)
    ensures forall k :: 0 <= k < |EscapeHtml(s)| ==> !IsMarkup(EscapeHtml(s)[k])
  {
    EscapeHtmlIsEscapeEach(s);
    EscapeEachNoMarkup(s);
  }

  lemma UnescapeAmp(t: string)
    ensures Unescape("&amp;" + t) == ['&'] + Unescape(t)
  {
    var s := "&amp;" + t;
    assert s[..5] == "&amp;" && s[5..] == t;
  }

  lemma UnescapeLt(t: string)
    ensures Unescape("&lt;" + t) == ['<'] + Unescape(t)
  {
    var s := "&lt;" + t;
    assert s[1] == 'l';
    assert s[..4] == "&lt;" && s[4..] == t;
  }

  lemma UnescapeGt(t: string)
    ensures Unescape("&gt;" + t) == ['>'] + Unescape(t)
  {
    var s := "&gt;" + t;
    assert s[1] == 'g';
    assert s[..4] == "&gt;" && s[4..] == t;
  }

  lemma UnescapeQuot(t: string)
    ensures Unescape("&quot;" + t) == ['"'] + Unescape(t)
  {
    var s := "&quot;" + t;
    assert s[1] == 'q';
    assert s[..6] == "&quot;" && s[6..] == t;
  }

  lemma UnescapeApos(t: string)
    ensures Unescape("&#039;" + t) == ['\''] + Unescape(t)
  {
    var s := "&#039;" + t;
    assert s[1] == '#';
    assert s[..6] == "&#039;" && s[6..] == t;
  }

  lemma UnescapePlain(c: char, t: string)
    requires c != '&'
    ensures Unescape([c] + t) == [c] + Unescape(t)
  {
    var s := [c] + t;
    NotPrefix(s, "&amp;");
    NotPrefix(s, "&lt;");
    NotPrefix(s, "&gt;");
    NotPrefix(s, "&quot;");
    NotPrefix(s, "&#039;");
    assert s[0] == c && s[1..] == t;
  }

  lemma NotPrefix(s: string, p: string)
    requires |s| > 0 && |p| > 0 && s[0] != p[0]
    ensures !HasPrefix(s, p)
  {
    if |p| <= |s| {
      assert s[..|p|][0] != p[0];
    }
  }

  lemma UnescapeCons(c: char, t: string)
    ensures Unescape(EscapeChar(c) + t) == [c] + Unescape(t)
  {
    if c == '&' {
      UnescapeAmp(t);
    } else if c == '<' {
      UnescapeLt(t);
    } else if c == '>' {
      UnescapeGt(t);
    } else if c == '"' {
      UnescapeQuot(t);
    } else if c == '\'' {
      UnescapeApos(t);
    } else {
      UnescapePlain(c, t);
    }
  }

  lemma {:induction false} UnescapeEscapeEach(s: string)
    ensures Unescape(EscapeEach(s)) == s
    decreases |s|
  {
    if s != [] {
      UnescapeCons(s[0], EscapeEach(s[1..]));
      UnescapeEscapeEach(s[1..]);
    }
  }

  /** Decoding the five entities gives back the text that was escaped. */
  lemma UnescapeEscapeHtml(s: string)
    ensures Unescape(EscapeHtml(s)) == s
  {
    EscapeHtmlIsEscapeEach(s);
    UnescapeEscapeEach(s);
  }
}
