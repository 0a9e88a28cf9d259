/**
 * The JavaScript string operations the extension relies on: the `\s` character
 * class, `trim`, `split(/\s+/)`, `toUpperCase` (ASCII letters only), `join`,
 * digit-to-text, and the truthiness and `||` of possibly absent strings.
 */
module JsText {
  import opened Wrappers

  /** The characters of JavaScript's WhiteSpace and LineTerminator productions: what `\s` matches and `trim` removes. */
  predicate IsSpace(c: char) {
    c == ' ' || c == '\t' || c == '\n' || c == '\r' || c == '\U{000B}' || c == '\U{000C}'
    || c == '\U{00A0}' || c == '\U{1680}' || ('\U{2000}' <= c <= '\U{200A}')
    || c == '\U{2028}' || c == '\U{2029}' || c == '\U{202F}' || c == '\U{205F}'
    || c == '\U{3000}' || c == '\U{FEFF}'
  }

  predicate NoSpace(s: string) {
    forall k :: 0 <= k < |s| ==> !IsSpace(s[k])
  }

  /** `String.prototype.trimStart`: the suffix left after the leading whitespace. */
  function TrimStart(s: string): (r: string)
    ensures |r| <= |s| && r == s[|s| - |r|..]
    ensures r == [] || !IsSpace(r[0])
    ensures forall k :: 0 <= k < |s| - |r| ==> IsSpace(s[k])
  {
    if s != [] && IsSpace(s[0]) then TrimStart(s[1..]) else s
  }

  /** `String.prototype.trimEnd`: the prefix left before the trailing whitespace. */
  function TrimEnd(s: string): (r: string)
    ensures |r| <= |s| && r == s[..|r|]
    ensures r == [] || !IsSpace(r[|r| - 1])
    ensures forall k :: |r| <= k < |s| ==> IsSpace(s[k])
  {
    if s != [] && IsSpace(s[|s| - 1]) then TrimEnd(s[..|s| - 1]) else s
  }

  /**
   * `String.prototype.trim`: the infix of `s` left once the leading and the
   * trailing whitespace are removed; no whitespace is left at either end.
   */
  function Trim(s: string): (r: string)
    ensures r == [] || (!IsSpace(r[0]) && !IsSpace(r[|r| - 1]))
    ensures var a := |s| - |TrimStart(s)|;
      a + |r| <= |s| && r == s[a..a + |r|]
      && (forall k :: 0 <= k < a ==> IsSpace(s[k]))
      && (forall k :: a + |r| <= k < |s| ==> IsSpace(s[k]))
  {
    TrimEnd(TrimStart(s))
  }

  /** Trimming empties a text exactly when it is all whitespace, and keeps a text without whitespace as it is. */
  lemma TrimEmptyIffAllSpace(s: string)
    ensures Trim(s) == [] <==> forall k :: 0 <= k < |s| ==> IsSpace(s[k])
    ensures NoSpace(s) ==> Trim(s) == s
  {
    var t := TrimStart(s);
    if Trim(s) == [] {
      // all of `t` is whitespace, yet `t` does not start with whitespace
      assert |t| == 0;
    }
  }

  /** The least index at or after `k` that holds whitespace, or |s| if there is none. */
  function FirstSpaceFrom(s: string, k: nat): (i: nat)
    requires k <= |s|
    ensures k <= i <= |s|
    ensures forall m :: k <= m < i ==> !IsSpace(s[m])
    ensures i < |s| ==> IsSpace(s[i])
    decreases |s| - k
  {
    if k == |s| || IsSpace(s[k]) then k else FirstSpaceFrom(s, k + 1)
  }

  /** The least index at or after `k` that does not hold whitespace, or |s|. */
  function SkipSpaceFrom(s: string, k: nat): (j: nat)
    requires k <= |s|
    ensures k <= j <= |s|
    ensures forall m :: k <= m < j ==> IsSpace(s[m])
    ensures j < |s| ==> !IsSpace(s[j])
    decreases |s| - k
  {
    if k < |s| && IsSpace(s[k]) then SkipSpaceFrom(s, k + 1) else k
  }

  /**
   * `s.split(/\s+/)`: the fields between maximal runs of whitespace. Leading or
   * trailing whitespace yields an empty first or last field, and "" yields [""].
   */
  function Split(s: string): (r: seq<string>)
    ensures |r| >= 1
    ensures forall f :: f in r ==> NoSpace(f)
    decreases |s|
  {
    var i := FirstSpaceFrom(s, 0);
    if i == |s| then [s]
    else
      var j := SkipSpaceFrom(s, i);
      [s[..i]] + Split(s[j..])
  }

  /** Splitting on whitespace gives a single field exactly when the text holds no whitespace. */
  lemma SplitSingleIffNoSpace(s: string)
    ensures |Split(s)| == 1 <==> NoSpace(s)
  {
    var i := FirstSpaceFrom(s, 0);
    if i < |s| {
      assert !NoSpace(s);
    }
  }

  function UpperChar(c: char): char {
    if 'a' <= c <= 'z' then (c as int - 'a' as int + 'A' as int) as char else c
  }

  /** `toUpperCase`, restricted to the ASCII letters. */
  function ToUpper(s: string): (r: string)
    ensures |r| == |s|
    ensures forall k :: 0 <= k < |s| ==> r[k] == UpperChar(s[k])
  {
    seq(|s|, k requires 0 <= k < |s| => UpperChar(s[k]))
  }

  /** `xs.join(sep)`: the elements in order with `sep` between neighbours and nowhere else. */
  function Join(xs: seq<string>, sep: string): (r: string)
    ensures |xs| == 0 ==> r == ""
    ensures |xs| == 1 ==> r == xs[0]
    ensures |xs| > 0 ==> |r| == JoinedLength(xs) + (|xs| - 1) * |sep|
    decreases |xs|
  {
    if |xs| == 0 then "" else if |xs| == 1 then xs[0] else xs[0] + sep + Join(xs[1..], sep)
  }

  /** The total length of the elements. */
  function JoinedLength(xs: seq<string>): nat
    decreases |xs|
  {
    if xs == [] then 0 else |xs[0]| + JoinedLength(xs[1..])
  }

  /** Joining two non-empty lists is joining each and putting one separator between. */
  lemma {:induction false} JoinConcat(a: seq<string>, b: seq<string>, sep: string)
    requires |a| > 0 && |b| > 0
    ensures Join(a + b, sep) == Join(a, sep) + sep + Join(b, sep)
    decreases |a|
  {
    if |a| == 1 {
      assert (a + b)[1..] == b;
    } else {
      assert (a + b)[1..] == a[1..] + b;
      JoinConcat(a[1..], b, sep);
    }
  }

  /** `xs.slice(0, n)`. */
  function Take<T>(xs: seq<T>, n: nat): (r: seq<T>)
    ensures |r| == if |xs| < n then |xs| else n
    ensures forall k :: 0 <= k < |r| ==> r[k] == xs[k]
  {
    if |xs| <= n then xs else xs[..n]
  }

  /** The decimal text of a number below ten, as JavaScript's `String(n)` writes it. */
  function DigitText(n: nat): (r: string)
    requires n < 10
    ensures |r| == 1 && '0' <= r[0] <= '9' && r[0] as int - '0' as int == n
  {
    [('0' as int + n) as char]
  }

  /** A possibly absent string is truthy when it is present and non-empty. */
  predicate Truthy(s: Option<string>) {
    s.Some? && s.value != ""
  }

  /** JavaScript's `a || b` on possibly absent strings. */
  function Or(a: Option<string>, b: Option<string>): (r: Option<string>)
    ensures Truthy(r) <==> Truthy(a) || Truthy(b)
    ensures Truthy(a) ==> r == a
  {
    if Truthy(a) then a else b
  }
}
