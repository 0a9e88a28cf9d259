/**
 * The popup "terminal" (`popupp1.js`): an input line and an output buffer of
 * lines. Enter looks up the trimmed word, which appends a command line and a
 * loading line; when the lookup settles the loading line is removed and the
 * entry is appended line by line, or an error line when the lookup fails or
 * the entry lacks a field the renderer dereferences. A status indicator and a
 * toggle button show whether the extension is on.
 */
module Popup {
  import opened Wrappers
  import opened JsText
  import opened DictionaryApi
  import Settings
  import ContentScript
  import Tally

  /** The CSS class of an output line; a loading line is told apart by the lookup it belongs to. */
  datatype LineKind =
    | CommandLine
    | LoadingLine(ticket: nat)
    | TitleLine
    | PhoneticLine
    | PartOfSpeechLine
    | DefinitionLine
    | ExampleLine
    | SynonymsLabel
    | SynonymsList
    | SpacerLine
    | ErrorLine
    | ClearedLine

  /** One `<div class="output-line …">` and the text it shows. */
  datatype Line = Line(kind: LineKind, text: string)

  /** A spacer: its markup is `&nbsp;`, a single no-break space. */
  const Spacer: Line := Line(SpacerLine, "\U{00A0}")

  function CommandText(word: string): string {
    "dict@lookup:~$ define \"" + word + "\""
  }

  const LoadingText: string := "Searching dictionary"

  function ErrorText(word: string): string {
    "❌ Error: No definition found for \"" + word + "\""
  }

  /** `displayError`: the error line naming the word, then a spacer. */
  function ErrorLines(word: string): seq<Line> {
    [Line(ErrorLine, ErrorText(word)), Spacer]
  }

  function KindOf(l: Line): LineKind {
    l.kind
  }

  /** How many lines of kind `k` a buffer holds. */
  function Count(ls: seq<Line>, k: LineKind): nat {
    Tally.Count(ls, KindOf, k)
  }



  /** The kinds of line `displayDefinition` appends. */
  predicate EntryKind(k: LineKind) {
    k.TitleLine? || k.PhoneticLine? || k.PartOfSpeechLine? || k.DefinitionLine? || k.ExampleLine?
    || k.SynonymsLabel? || k.SynonymsList? || k.SpacerLine?
  }

  // ---------------------------------------------------------------------------
  // What `displayDefinition` appends, as functions of the entry
  // ---------------------------------------------------------------------------

  /**
   * Lines appended before the renderer either finishes (`complete`) or throws
   * a TypeError on a missing field, after which `displayError` follows.
   */
  datatype Rendered = Rendered(lines: seq<Line>, complete: bool)

  /** The phonetic line: present when `phonetic` is truthy or `phonetics[0]` exists, showing `phonetic || phonetics[0].text || ""`. */
  function PhoneticLines(e: Entry): (r: seq<Line>)
    ensures |r| <= 1
    ensures r != [] <==> Truthy(e.phonetic) || First(e.phonetics).Some?
  {
    if Truthy(e.phonetic) || First(e.phonetics).Some? then
      [Line(PhoneticLine, "🔊 " + (if Truthy(e.phonetic) then e.phonetic.value
                                   else Or(First(e.phonetics).value.text, Some("")).GetOr("")))]
    else []
  }

  /** The numbered definition line and, only when the sense has a truthy example, the example line after it. */
  function SenseLines(n: nat, s: Sense): seq<Line>
    requires n < 10
  {
    [DefinitionLineOf(n, s)] + (if Truthy(s.example) then [ExampleLineOf(s)] else [])
  }

  /** `<n>. <definition>`, with "undefined" for a missing definition. */
  function DefinitionLineOf(n: nat, s: Sense): Line
    requires n < 10
  {
    Line(DefinitionLine, DigitText(n) + ". " + s.definition.GetOr("undefined"))
  }

  /** The example, indented and quoted. */
  function ExampleLineOf(s: Sense): Line
    requires Truthy(s.example)
  {
    Line(ExampleLine, "   \"" + s.example.value + "\"")
  }

  /** How many of the first `k` senses have a truthy example. */
  function ExamplesUpTo(ss: seq<Sense>, k: nat): nat
    requires k <= |ss|
    decreases k
  {
    if k == 0 then 0 else ExamplesUpTo(ss, k - 1) + (if Truthy(ss[k - 1].example) then 1 else 0)
  }

  /** The lines of the first `k` senses, numbered from 1. */
  function SensesUpTo(ss: seq<Sense>, k: nat): seq<Line>
    requires k <= |ss| && k < 10
    decreases k
  {
    if k == 0 then [] else SensesUpTo(ss, k - 1) + SenseLines(k, ss[k - 1])
  }

  /** The label and the first five synonyms joined by ", ", when the list is present and non-empty. */
  function SynonymLines(syns: Option<seq<string>>): seq<Line> {
    if syns.Some? && |syns.value| > 0 then
      [Line(SynonymsLabel, "synonyms:"), Line(SynonymsList, Join(Take(syns.value, 5), ", "))]
    else []
  }

  /** One meaning of the `forEach`: `[POS]`, up to 3 senses, synonyms, and a spacer unless it is the last. */
  function MeaningLines(m: Meaning, last: bool): Rendered {
    if m.partOfSpeech.None? then Rendered([], false)
    else
      var pos := [Line(PartOfSpeechLine, "[" + ToUpper(m.partOfSpeech.value) + "]")];
      if m.definitions.None? then Rendered(pos, false)
      else
        var defs := Take(m.definitions.value, 3);
        Rendered(pos + SensesUpTo(defs, |defs|) + SynonymLines(m.synonyms) + (if last then [] else [Spacer]), true)
  }

  /** The lines of the first `k` meanings of `ms`, stopping at the first one that throws. */
  function MeaningsUpTo(ms: seq<Meaning>, k: nat): Rendered
    requires k <= |ms|
    decreases k
  {
    if k == 0 then Rendered([], true)
    else
      var p := MeaningsUpTo(ms, k - 1);
      if !p.complete then p
      else
        var r := MeaningLines(ms[k - 1], k == |ms|);
        Rendered(p.lines + r.lines, r.complete)
  }

  /** `displayDefinition(data[0])`; an absent entry (an empty array) throws before anything is appended. */
  function EntryLines(entry: Option<Entry>): Rendered {
    if entry.None? || entry.value.word.None? then Rendered([], false)
    else
      var e := entry.value;
      var head := [Line(TitleLine, "📖 " + ToUpper(e.word.value))] + PhoneticLines(e);
      if e.meanings.None? then Rendered(head, false)
      else
        var body := MeaningsUpTo(e.meanings.value, |e.meanings.value|);
        if body.complete then Rendered(head + body.lines + [Spacer], true)
        else Rendered(head + body.lines, false)
  }

  /** All that one settled lookup appends after its loading line is gone. */
  function LookupLines(word: string, outcome: FetchOutcome): seq<Line> {
    match Payload(outcome)
    case None => ErrorLines(word)
    case Some(data) =>
      var r := EntryLines(if |data| > 0 then Some(data[0]) else None);
      r.lines + (if r.complete then [] else ErrorLines(word))
  }

  /** The buffer with the loading line of lookup `t` removed. */
  function WithoutLoading(ls: seq<Line>, t: nat): (r: seq<Line>)
    ensures forall l :: l in r ==> l in ls && l.kind != LoadingLine(t)
    decreases |ls|
  {
    if ls == [] then []
    else (if ls[0].kind == LoadingLine(t) then [] else [ls[0]]) + WithoutLoading(ls[1..], t)
  }

  // ---------------------------------------------------------------------------
  // Properties of the rendering
  // ---------------------------------------------------------------------------

  lemma SenseLinesKinds(n: nat, s: Sense)
    requires n < 10
    ensures forall l :: l in SenseLines(n, s) ==> l.kind.DefinitionLine? || l.kind.ExampleLine?
    ensures Count(SenseLines(n, s), DefinitionLine) == 1
    ensures Count(SenseLines(n, s), ExampleLine) == if Truthy(s.example) then 1 else 0
  {
    var d := [Line(DefinitionLine, DigitText(n) + ". " + s.definition.GetOr("undefined"))];
    var x := if Truthy(s.example) then [Line(ExampleLine, "   \"" + s.example.value + "\"")] else [];
    Tally.CountConcat(d, x, KindOf, DefinitionLine);
    Tally.CountConcat(d, x, KindOf, ExampleLine);
  }

  /**
   * The first `k` senses give exactly `k` definition lines, an example line
   * for each sense with a truthy example, and nothing else.
   */
  lemma {:induction false} SensesUpToCounts(ss: seq<Sense>, k: nat)
    requires k <= |ss| && k < 10
    ensures forall l :: l in SensesUpTo(ss, k) ==> l.kind.DefinitionLine? || l.kind.ExampleLine?
    ensures Count(SensesUpTo(ss, k), DefinitionLine) == k
    ensures Count(SensesUpTo(ss, k), ExampleLine) == ExamplesUpTo(ss, k) <= k
    decreases k
  {
    if k > 0 {
      SensesUpToCounts(ss, k - 1);
      SenseLinesKinds(k, ss[k - 1]);
      Tally.CountConcat(SensesUpTo(ss, k - 1), SenseLines(k, ss[k - 1]), KindOf, DefinitionLine);
      Tally.CountConcat(SensesUpTo(ss, k - 1), SenseLines(k, ss[k - 1]), KindOf, ExampleLine);
    }
  }

  /** Rendering more senses only appends: the lines of the first `i` senses begin those of the first `k`. */
  lemma {:induction false} SensesUpToPrefix(ss: seq<Sense>, i: nat, k: nat)
    requires i <= k <= |ss| && k < 10
    ensures |SensesUpTo(ss, i)| <= |SensesUpTo(ss, k)|
    ensures SensesUpTo(ss, k)[..|SensesUpTo(ss, i)|] == SensesUpTo(ss, i)
    decreases k
  {
    if i < k {
      SensesUpToPrefix(ss, i, k - 1);
      var before := SensesUpTo(ss, k - 1);
      var n := |SensesUpTo(ss, i)|;
      assert SensesUpTo(ss, k) == before + SenseLines(k, ss[k - 1]);
      assert SensesUpTo(ss, k)[..n] == before[..n];
    }
  }

  /**
   * Sense `i` (from 0) starts right after the lines of the senses before it:
   * first its definition line numbered `i + 1`, then, exactly when its
   * example is truthy, that example.
   */
  lemma SensesUpToLayout(ss: seq<Sense>, k: nat, i: nat)
    requires i < k <= |ss| && k < 10
    ensures var j := |SensesUpTo(ss, i)|;
      |SensesUpTo(ss, i + 1)| == j + (if Truthy(ss[i].example) then 2 else 1)
      && |SensesUpTo(ss, i + 1)| <= |SensesUpTo(ss, k)|
      && SensesUpTo(ss, k)[j] == DefinitionLineOf(i + 1, ss[i])
      && (Truthy(ss[i].example) ==> SensesUpTo(ss, k)[j + 1] == ExampleLineOf(ss[i]))
  {
    SensesUpToPrefix(ss, i + 1, k);
    var before := SensesUpTo(ss, i);
    var upto := SensesUpTo(ss, i + 1);
    assert upto == before + SenseLines(i + 1, ss[i]);
    assert upto[|before|] == DefinitionLineOf(i + 1, ss[i]);
    assert SensesUpTo(ss, k)[|before|] == upto[|before|];
    if Truthy(ss[i].example) {
      assert upto[|before| + 1] == ExampleLineOf(ss[i]);
      assert SensesUpTo(ss, k)[|before| + 1] == upto[|before| + 1];
    }
  }

  /** Every example line comes right after a definition line. */
  predicate ExamplesFollowDefinitions(ls: seq<Line>) {
    forall j :: 0 <= j < |ls| && ls[j].kind == ExampleLine ==> j > 0 && ls[j - 1].kind == DefinitionLine
  }

  lemma {:induction false} SensesUpToExamples(ss: seq<Sense>, k: nat)
    requires k <= |ss| && k < 10
    ensures ExamplesFollowDefinitions(SensesUpTo(ss, k))
    decreases k
  {
    if k > 0 {
      SensesUpToExamples(ss, k - 1);
      var before := SensesUpTo(ss, k - 1);
      var more := SenseLines(k, ss[k - 1]);
      var all := SensesUpTo(ss, k);
      assert all == before + more;
      forall j | 0 <= j < |all| && all[j].kind == ExampleLine
        ensures j > 0 && all[j - 1].kind == DefinitionLine
      {
        if j < |before| {
          assert all[j] == before[j];
          assert all[j - 1] == before[j - 1];
        } else {
          assert all[j] == more[j - |before|];
          assert j - |before| == 1;
          assert all[j - 1] == more[0];
        }
      }
    }
  }

  lemma MeaningsUpToStep(ms: seq<Meaning>, i: nat, block: Rendered)
    requires i < |ms| && MeaningsUpTo(ms, i).complete
    requires block == MeaningLines(ms[i], i == |ms| - 1)
    ensures MeaningsUpTo(ms, i + 1) == Rendered(MeaningsUpTo(ms, i).lines + block.lines, block.complete)
  {
  }

  lemma MeaningsLoopStep(ms: seq<Meaning>, i: nat, base: seq<Line>, before: seq<Line>, after: seq<Line>, thrown: bool)
    requires i < |ms| && MeaningsUpTo(ms, i).complete && before == base + MeaningsUpTo(ms, i).lines
    requires after == before + MeaningLines(ms[i], i == |ms| - 1).lines
    requires thrown == !MeaningLines(ms[i], i == |ms| - 1).complete
    ensures after == base + MeaningsUpTo(ms, i + 1).lines
    ensures thrown == !MeaningsUpTo(ms, i + 1).complete
  {
    var block := MeaningLines(ms[i], i == |ms| - 1);
    MeaningsUpToStep(ms, i, block);
    AppendStep(base, MeaningsUpTo(ms, i).lines, block.lines, before, after);
  }

  lemma AppendStep(base: seq<Line>, done: seq<Line>, more: seq<Line>, before: seq<Line>, after: seq<Line>)
    requires before == base + done && after == before + more
    ensures after == base + (done + more)
  {
  }

  /** Once a meaning throws, the later ones are never rendered. */
  lemma {:induction false} MeaningsUpToSticky(ms: seq<Meaning>, i: nat, j: nat)
    requires i <= j <= |ms|
    requires !MeaningsUpTo(ms, i).complete
    ensures MeaningsUpTo(ms, j) == MeaningsUpTo(ms, i)
    decreases j
  {
    if j > i {
      MeaningsUpToSticky(ms, i, j - 1);
    }
  }

  /** The first `k` meanings render in full exactly when each has a part of speech and a definitions array. */
  lemma {:induction false} MeaningsUpToComplete(ms: seq<Meaning>, k: nat)
    requires k <= |ms|
    ensures MeaningsUpTo(ms, k).complete <==>
      forall i :: 0 <= i < k ==> ms[i].partOfSpeech.Some? && ms[i].definitions.Some?
    decreases k
  {
    if k > 0 {
      MeaningsUpToComplete(ms, k - 1);
      if !MeaningsUpTo(ms, k - 1).complete {
        var i :| 0 <= i < k - 1 && !(ms[i].partOfSpeech.Some? && ms[i].definitions.Some?);
      }
    }
  }

  lemma Append4(o: seq<Line>, a: seq<Line>, b: seq<Line>, c: seq<Line>, d: seq<Line>)
    ensures o + a + b + c + d == o + (a + b + c + d)
  {
  }

  lemma Count4(a: seq<Line>, b: seq<Line>, c: seq<Line>, d: seq<Line>, k: LineKind)
    ensures Count(a + b + c + d, k) == Count(a, k) + Count(b, k) + Count(c, k) + Count(d, k)
  {
    Tally.CountConcat(a + b + c, d, KindOf, k);
    Tally.CountConcat(a + b, c, KindOf, k);
    Tally.CountConcat(a, b, KindOf, k);
  }

  /** Every line of one meaning, thrown or not, is a `[POS]`, sense, synonyms or spacer line. */
  lemma MeaningLinesKinds(m: Meaning, last: bool)
    ensures forall l :: l in MeaningLines(m, last).lines ==> EntryKind(l.kind) && !l.kind.TitleLine? && !l.kind.PhoneticLine?
  {
    if m.partOfSpeech.Some? && m.definitions.Some? {
      var defs := Take(m.definitions.value, 3);
      SensesUpToCounts(defs, |defs|);
    }
  }

  /**
   * Sense `i` of `defs` sits at `offset` plus the lines of the senses before
   * it: first its definition line numbered `i + 1`, then, exactly when its
   * example is truthy, that example.
   */
  predicate SensesInOrder(ls: seq<Line>, offset: nat, defs: seq<Sense>)
    requires |defs| < 10
  {
    forall i :: 0 <= i < |defs| ==>
      && offset + |SensesUpTo(defs, i)| + (if Truthy(defs[i].example) then 2 else 1) <= |ls|
      && ls[offset + |SensesUpTo(defs, i)|] == DefinitionLineOf(i + 1, defs[i])
      && (Truthy(defs[i].example) ==> ls[offset + |SensesUpTo(defs, i)| + 1] == ExampleLineOf(defs[i]))
  }

  /** The rendered senses are in order. */
  lemma SensesUpToInOrder(defs: seq<Sense>)
    requires |defs| < 10
    ensures SensesInOrder(SensesUpTo(defs, |defs|), 0, defs)
  {
    forall i | 0 <= i < |defs|
      ensures |SensesUpTo(defs, i)| + (if Truthy(defs[i].example) then 2 else 1) <= |SensesUpTo(defs, |defs|)|
      ensures SensesUpTo(defs, |defs|)[|SensesUpTo(defs, i)|] == DefinitionLineOf(i + 1, defs[i])
      ensures Truthy(defs[i].example) ==> SensesUpTo(defs, |defs|)[|SensesUpTo(defs, i)| + 1] == ExampleLineOf(defs[i])
    {
      SensesUpToLayout(defs, |defs|, i);
    }
  }

  /** Lines put before and after the senses shift them and keep their order. */
  lemma SensesInOrderShift(pre: seq<Line>, senses: seq<Line>, post: seq<Line>, defs: seq<Sense>)
    requires |defs| < 10 && SensesInOrder(senses, 0, defs)
    ensures SensesInOrder(pre + senses + post, |pre|, defs)
  {
    var ls := pre + senses + post;
    forall i | 0 <= i < |defs|
      ensures |pre| + |SensesUpTo(defs, i)| + (if Truthy(defs[i].example) then 2 else 1) <= |ls|
      ensures ls[|pre| + |SensesUpTo(defs, i)|] == DefinitionLineOf(i + 1, defs[i])
      ensures Truthy(defs[i].example) ==> ls[|pre| + |SensesUpTo(defs, i)| + 1] == ExampleLineOf(defs[i])
    {
      var j := |SensesUpTo(defs, i)|;
      assert ls[|pre| + j] == senses[j];
      if Truthy(defs[i].example) {
        assert ls[|pre| + j + 1] == senses[j + 1];
      }
    }
  }

  /** A meaning with a part of speech starts with its `[POS]` line. */
  lemma MeaningLinesStart(m: Meaning, last: bool)
    requires m.partOfSpeech.Some?
    ensures |MeaningLines(m, last).lines| > 0
    ensures MeaningLines(m, last).lines[0] == Line(PartOfSpeechLine, "[" + ToUpper(m.partOfSpeech.value) + "]")
  {
  }

  /**
   * After the `[POS]` line a complete meaning lists its first three senses in
   * order, each numbered definition followed by its own example when it has one.
   */
  lemma MeaningLinesSenses(m: Meaning, last: bool)
    requires MeaningLines(m, last).complete
    ensures |Take(m.definitions.value, 3)| <= 3
    ensures SensesInOrder(MeaningLines(m, last).lines, 1, Take(m.definitions.value, 3))
  {
    var defs := Take(m.definitions.value, 3);
    var pos := [Line(PartOfSpeechLine, "[" + ToUpper(m.partOfSpeech.value) + "]")];
    var rest := SynonymLines(m.synonyms) + (if last then [] else [Spacer]);
    assert MeaningLines(m, last).lines == pos + SensesUpTo(defs, |defs|) + rest;
    SensesUpToInOrder(defs);
    SensesInOrderShift(pos, SensesUpTo(defs, |defs|), rest, defs);
  }

  /** In a meaning's lines, thrown or not, every example line comes right after a definition line. */
  lemma MeaningLinesExamples(m: Meaning, last: bool)
    ensures ExamplesFollowDefinitions(MeaningLines(m, last).lines)
  {
    if m.partOfSpeech.Some? && m.definitions.Some? {
      var defs := Take(m.definitions.value, 3);
      var pos := [Line(PartOfSpeechLine, "[" + ToUpper(m.partOfSpeech.value) + "]")];
      var rest := SynonymLines(m.synonyms) + (if last then [] else [Spacer]);
      assert MeaningLines(m, last).lines == pos + SensesUpTo(defs, |defs|) + rest;
      SensesUpToExamples(defs, |defs|);
      ExamplesInSenses(pos, SensesUpTo(defs, |defs|), rest, MeaningLines(m, last).lines);
    }
  }

  lemma ExamplesInSenses(pos: seq<Line>, senses: seq<Line>, rest: seq<Line>, ls: seq<Line>)
    requires ls == pos + senses + rest && |pos| == 1 && pos[0].kind == PartOfSpeechLine
    requires ExamplesFollowDefinitions(senses)
    requires forall l :: l in rest ==> l.kind.SynonymsLabel? || l.kind.SynonymsList? || l.kind.SpacerLine?
    ensures ExamplesFollowDefinitions(ls)
  {
    assert ls[0] == pos[0];
    forall j | 1 + |senses| <= j < |ls|
      ensures ls[j].kind != ExampleLine
    {
      assert ls[j] == rest[j - 1 - |senses|];
    }
    forall j | 1 <= j < 1 + |senses| && ls[j].kind == ExampleLine
      ensures j > 1 && ls[j - 1].kind == DefinitionLine
    {
      assert ls[j] == senses[j - 1];
      assert ls[j - 1] == senses[j - 2];
    }
  }

  lemma MeaningLinesCounts(m: Meaning, last: bool)
    requires MeaningLines(m, last).complete
    ensures Count(MeaningLines(m, last).lines, PartOfSpeechLine) == 1
    ensures Count(MeaningLines(m, last).lines, SpacerLine) == if last then 0 else 1
    ensures Count(MeaningLines(m, last).lines, DefinitionLine) <= 3
    ensures var listed := if m.synonyms.Some? && |m.synonyms.value| > 0 then 1 else 0;
      Count(MeaningLines(m, last).lines, SynonymsLabel) == listed
      && Count(MeaningLines(m, last).lines, SynonymsList) == listed
  {
    var pos := [Line(PartOfSpeechLine, "[" + ToUpper(m.partOfSpeech.value) + "]")];
    var defs := Take(m.definitions.value, 3);
    var senses := SensesUpTo(defs, |defs|);
    var syn := SynonymLines(m.synonyms);
    var sp: seq<Line> := if last then [] else [Spacer];
    SensesUpToCounts(defs, |defs|);
    BlockCounts(MeaningLines(m, last).lines, pos, senses, syn, sp, last);
    SynonymCounts(MeaningLines(m, last).lines, pos, senses, syn, sp, last);
  }

  lemma BlockCounts(ls: seq<Line>, pos: seq<Line>, senses: seq<Line>, syn: seq<Line>, sp: seq<Line>, last: bool)
    requires ls == pos + senses + syn + sp
    requires |pos| == 1 && pos[0].kind == PartOfSpeechLine
    requires (forall l :: l in senses ==> l.kind.DefinitionLine? || l.kind.ExampleLine?) && Count(senses, DefinitionLine) <= 3
    requires syn == [] || (|syn| == 2 && syn[0].kind == SynonymsLabel && syn[1].kind == SynonymsList)
    requires sp == if last then [] else [Spacer]
    ensures Count(ls, PartOfSpeechLine) == 1
    ensures Count(ls, SpacerLine) == if last then 0 else 1
    ensures Count(ls, DefinitionLine) <= 3
  {
    Count4(pos, senses, syn, sp, PartOfSpeechLine);
    Count4(pos, senses, syn, sp, SpacerLine);
    Count4(pos, senses, syn, sp, DefinitionLine);
    Tally.CountSingle(pos[0], KindOf, PartOfSpeechLine);
    Tally.CountSingle(pos[0], KindOf, SpacerLine);
    Tally.CountSingle(pos[0], KindOf, DefinitionLine);
    assert pos == [pos[0]];
    Tally.CountAbsent(senses, KindOf, PartOfSpeechLine);
    Tally.CountAbsent(senses, KindOf, SpacerLine);
    Tally.CountAbsent(syn, KindOf, DefinitionLine);
    Tally.CountAbsent(syn, KindOf, SpacerLine);
    Tally.CountAbsent(syn, KindOf, PartOfSpeechLine);
    Tally.CountAbsent(sp, KindOf, DefinitionLine);
    Tally.CountAbsent(sp, KindOf, PartOfSpeechLine);
    if !last {
      Tally.CountSingle(Spacer, KindOf, SpacerLine);
    }
  }

  /** The synonym label and list lines of one meaning come from its synonym block alone. */
  lemma SynonymCounts(ls: seq<Line>, pos: seq<Line>, senses: seq<Line>, syn: seq<Line>, sp: seq<Line>, last: bool)
    requires ls == pos + senses + syn + sp
    requires |pos| == 1 && pos[0].kind == PartOfSpeechLine
    requires forall l :: l in senses ==> l.kind.DefinitionLine? || l.kind.ExampleLine?
    requires syn == [] || (|syn| == 2 && syn[0].kind == SynonymsLabel && syn[1].kind == SynonymsList)
    requires sp == if last then [] else [Spacer]
    ensures Count(ls, SynonymsLabel) == (if syn == [] then 0 else 1)
    ensures Count(ls, SynonymsList) == (if syn == [] then 0 else 1)
  {
    Count4(pos, senses, syn, sp, SynonymsLabel);
    Count4(pos, senses, syn, sp, SynonymsList);
    Tally.CountAbsent(pos, KindOf, SynonymsLabel);
    Tally.CountAbsent(pos, KindOf, SynonymsList);
    Tally.CountAbsent(senses, KindOf, SynonymsLabel);
    Tally.CountAbsent(senses, KindOf, SynonymsList);
    Tally.CountAbsent(sp, KindOf, SynonymsLabel);
    Tally.CountAbsent(sp, KindOf, SynonymsList);
    if syn != [] {
      assert syn == [syn[0]] + [syn[1]];
      Tally.CountConcat([syn[0]], [syn[1]], KindOf, SynonymsLabel);
      Tally.CountConcat([syn[0]], [syn[1]], KindOf, SynonymsList);
      Tally.CountSingle(syn[0], KindOf, SynonymsLabel);
      Tally.CountSingle(syn[1], KindOf, SynonymsLabel);
      Tally.CountSingle(syn[0], KindOf, SynonymsList);
      Tally.CountSingle(syn[1], KindOf, SynonymsList);
    }
  }

  /**
   * In a full rendering of the first `k` meanings there is one `[POS]` line
   * per meaning, at most three definition lines per meaning, and one spacer
   * after every meaning that is not the last of all.
   */
  lemma {:induction false} MeaningsUpToCounts(ms: seq<Meaning>, k: nat)
    requires k <= |ms| && MeaningsUpTo(ms, k).complete
    ensures Count(MeaningsUpTo(ms, k).lines, PartOfSpeechLine) == k
    ensures Count(MeaningsUpTo(ms, k).lines, SpacerLine) == if k == |ms| && k > 0 then k - 1 else k
    ensures Count(MeaningsUpTo(ms, k).lines, DefinitionLine) <= 3 * k
    decreases k
  {
    if k > 0 {
      var p := MeaningsUpTo(ms, k - 1);
      MeaningsUpToCounts(ms, k - 1);
      MeaningLinesCounts(ms[k - 1], k == |ms|);
      Tally.CountConcat(p.lines, MeaningLines(ms[k - 1], k == |ms|).lines, KindOf, PartOfSpeechLine);
      Tally.CountConcat(p.lines, MeaningLines(ms[k - 1], k == |ms|).lines, KindOf, SpacerLine);
      Tally.CountConcat(p.lines, MeaningLines(ms[k - 1], k == |ms|).lines, KindOf, DefinitionLine);
    }
  }

  /**
   * An entry renders in full exactly when it has a word and a meanings array
   * whose every meaning has a part of speech and a definitions array.
   */
  lemma EntryComplete(e: Entry)
    ensures EntryLines(Some(e)).complete <==>
      e.word.Some? && e.meanings.Some?
      && forall i :: 0 <= i < |e.meanings.value| ==>
           e.meanings.value[i].partOfSpeech.Some? && e.meanings.value[i].definitions.Some?
  {
    if e.word.Some? && e.meanings.Some? {
      MeaningsUpToComplete(e.meanings.value, |e.meanings.value|);
    }
  }

  /**
   * Something is appended exactly when the entry exists and has a word, and
   * then the first line is the title with the word in upper case.
   */
  lemma EntryTitleFirst(entry: Option<Entry>)
    ensures EntryLines(entry).lines != [] <==> entry.Some? && entry.value.word.Some?
    ensures EntryLines(entry).lines != [] ==>
      EntryLines(entry).lines[0] == Line(TitleLine, "📖 " + ToUpper(entry.value.word.value))
  {
  }

  /**
   * A full rendering holds one title, at most one phonetic line, one `[POS]`
   * line per meaning, at most three definition lines per meaning, and a spacer
   * between consecutive meanings plus the final one; it ends with a spacer.
   */
  lemma EntryCounts(e: Entry)
    requires EntryLines(Some(e)).complete
    ensures var ls := EntryLines(Some(e)).lines; var n := |e.meanings.value|;
      && (forall l :: l in ls ==> EntryKind(l.kind))
      && Count(ls, TitleLine) == 1
      && Count(ls, PhoneticLine) == (if Truthy(e.phonetic) || First(e.phonetics).Some? then 1 else 0)
      && Count(ls, PartOfSpeechLine) == n
      && Count(ls, DefinitionLine) <= 3 * n
      && Count(ls, SpacerLine) == (if n == 0 then 1 else n)
      && ls[|ls| - 1] == Spacer
  {
    var ms := e.meanings.value;
    var title := [Line(TitleLine, "📖 " + ToUpper(e.word.value))];
    var ph := PhoneticLines(e);
    var body := MeaningsUpTo(ms, |ms|).lines;
    MeaningsUpToCounts(ms, |ms|);
    EntryLinesKinds(Some(e));
    assert EntryLines(Some(e)).lines == title + ph + body + [Spacer];
    forall l | l in body ensures !l.kind.TitleLine? && !l.kind.PhoneticLine? {
      MeaningsUpToKinds(ms, |ms|, l);
    }
    EntryCountsOf(title, ph, body, e);
  }

  lemma EntryCountsOf(title: seq<Line>, ph: seq<Line>, body: seq<Line>, e: Entry)
    requires e.word.Some? && title == [Line(TitleLine, "📖 " + ToUpper(e.word.value))] && ph == PhoneticLines(e)
    requires forall l :: l in body ==> !l.kind.TitleLine? && !l.kind.PhoneticLine?
    ensures Count(title + ph + body + [Spacer], TitleLine) == 1
    ensures Count(title + ph + body + [Spacer], PhoneticLine) == |ph|
    ensures Count(title + ph + body + [Spacer], PartOfSpeechLine) == Count(body, PartOfSpeechLine)
    ensures Count(title + ph + body + [Spacer], DefinitionLine) == Count(body, DefinitionLine)
    ensures Count(title + ph + body + [Spacer], SpacerLine) == Count(body, SpacerLine) + 1
  {
    Count4(title, ph, body, [Spacer], TitleLine);
    Count4(title, ph, body, [Spacer], PhoneticLine);
    Count4(title, ph, body, [Spacer], PartOfSpeechLine);
    Count4(title, ph, body, [Spacer], DefinitionLine);
    Count4(title, ph, body, [Spacer], SpacerLine);
    Tally.CountAbsent(body, KindOf, TitleLine);
    Tally.CountAbsent(body, KindOf, PhoneticLine);
    EntryHeadCounts(title, ph, e, TitleLine);
    EntryHeadCounts(title, ph, e, PhoneticLine);
    EntryHeadCounts(title, ph, e, PartOfSpeechLine);
    EntryHeadCounts(title, ph, e, DefinitionLine);
    EntryHeadCounts(title, ph, e, SpacerLine);
  }

  lemma EntryHeadCounts(title: seq<Line>, ph: seq<Line>, e: Entry, k: LineKind)
    requires e.word.Some? && title == [Line(TitleLine, "📖 " + ToUpper(e.word.value))] && ph == PhoneticLines(e)
    ensures Count(title, k) == if k == TitleLine then 1 else 0
    ensures Count(ph, k) == if k == PhoneticLine then |ph| else 0
    ensures Count([Spacer], k) == if k == SpacerLine then 1 else 0
  {
    Tally.CountSingle(title[0], KindOf, k);
    Tally.CountSingle(Spacer, KindOf, k);
    if ph != [] {
      Tally.CountSingle(ph[0], KindOf, k);
      assert ph == [ph[0]];
    }
  }

  lemma EntryLinesKinds(entry: Option<Entry>)
    ensures forall l :: l in EntryLines(entry).lines ==> EntryKind(l.kind)
  {
    if entry.Some? && entry.value.word.Some? && entry.value.meanings.Some? {
      var ms := entry.value.meanings.value;
      forall l | l in MeaningsUpTo(ms, |ms|).lines ensures EntryKind(l.kind) && !l.kind.TitleLine? && !l.kind.PhoneticLine? {
        MeaningsUpToKinds(ms, |ms|, l);
      }
    }
  }

  lemma {:induction false} MeaningsUpToKinds(ms: seq<Meaning>, k: nat, l: Line)
    requires k <= |ms| && l in MeaningsUpTo(ms, k).lines
    ensures EntryKind(l.kind) && !l.kind.TitleLine? && !l.kind.PhoneticLine?
    decreases k
  {
    var p := MeaningsUpTo(ms, k - 1);
    if p.complete && l !in p.lines {
      MeaningLinesKinds(ms[k - 1], k == |ms|);
    } else {
      MeaningsUpToKinds(ms, k - 1, l);
    }
  }

  /**
   * A failed request, a non-OK status, an unparsable body or an empty array
   * appends exactly the error line and one spacer. Otherwise the entry's lines
   * come first; a full rendering has no error line, and one that throws is
   * followed by exactly one error line and a spacer.
   */
  lemma LookupOutcome(word: string, outcome: FetchOutcome)
    ensures Payload(outcome).None? || |Payload(outcome).value| == 0 ==> LookupLines(word, outcome) == ErrorLines(word)
    ensures Payload(outcome).Some? && |Payload(outcome).value| > 0 ==>
      var r := EntryLines(Some(Payload(outcome).value[0]));
      && LookupLines(word, outcome)[..|r.lines|] == r.lines
      && (r.complete ==> LookupLines(word, outcome) == r.lines && Count(r.lines, ErrorLine) == 0)
      && (!r.complete ==> LookupLines(word, outcome) == r.lines + ErrorLines(word))
    ensures Count(LookupLines(word, outcome), ErrorLine) <= 1
    ensures forall l :: l in LookupLines(word, outcome) ==> !l.kind.LoadingLine?
  {
    match Payload(outcome)
    case None =>
      ErrorLinesCount(word);
    case Some(data) =>
      var entry := if |data| > 0 then Some(data[0]) else None;
      EntryLinesKinds(entry);
      AfterEntry(LookupLines(word, outcome), EntryLines(entry), word);
  }

  lemma AfterEntry(ls: seq<Line>, r: Rendered, word: string)
    requires forall l :: l in r.lines ==> EntryKind(l.kind)
    requires ls == r.lines + (if r.complete then [] else ErrorLines(word))
    ensures ls[..|r.lines|] == r.lines
    ensures r.complete ==> ls == r.lines && Count(r.lines, ErrorLine) == 0
    ensures Count(ls, ErrorLine) <= 1
    ensures forall l :: l in ls ==> !l.kind.LoadingLine?
  {
    Tally.CountAbsent(r.lines, KindOf, ErrorLine);
    if !r.complete {
      Tally.CountConcat(r.lines, ErrorLines(word), KindOf, ErrorLine);
      ErrorLinesCount(word);
    }
  }

  lemma ErrorLinesCount(word: string)
    ensures Count(ErrorLines(word), ErrorLine) == 1
  {
    assert ErrorLines(word) == [ErrorLines(word)[0]] + [Spacer];
    Tally.CountConcat([ErrorLines(word)[0]], [Spacer], KindOf, ErrorLine);
    Tally.CountSingle(ErrorLines(word)[0], KindOf, ErrorLine);
    Tally.CountSingle(Spacer, KindOf, ErrorLine);
  }

  /** Removing a lookup's loading line leaves no line of it and as many lines of every other kind. */
  lemma {:induction false} WithoutLoadingCounts(ls: seq<Line>, t: nat, k: LineKind)
    ensures Count(WithoutLoading(ls, t), LoadingLine(t)) == 0
    ensures k != LoadingLine(t) ==> Count(WithoutLoading(ls, t), k) == Count(ls, k)
    decreases |ls|
  {
    if ls != [] {
      WithoutLoadingCounts(ls[1..], t, k);
      var h := if ls[0].kind == LoadingLine(t) then [] else [ls[0]];
      Tally.CountConcat(h, WithoutLoading(ls[1..], t), KindOf, LoadingLine(t));
      Tally.CountConcat(h, WithoutLoading(ls[1..], t), KindOf, k);
    }
  }

  /** A buffer holding no loading line of lookup `t` is left exactly as it is. */
  lemma {:induction false} WithoutLoadingNone(ls: seq<Line>, t: nat)
    requires forall l :: l in ls ==> l.kind != LoadingLine(t)
    ensures WithoutLoading(ls, t) == ls
    decreases |ls|
  {
    if ls != [] {
      assert ls[0] in ls;
      WithoutLoadingNone(ls[1..], t);
      assert ls == [ls[0]] + ls[1..];
    }
  }

  /** Removal works line by line, so it distributes over concatenation and keeps the order of what stays. */
  lemma {:induction false} WithoutLoadingConcat(a: seq<Line>, b: seq<Line>, t: nat)
    ensures WithoutLoading(a + b, t) == WithoutLoading(a, t) + WithoutLoading(b, t)
    decreases |a|
  {
    if a == [] {
      assert a + b == b;
    } else {
      assert (a + b)[1..] == a[1..] + b;
      WithoutLoadingConcat(a[1..], b, t);
    }
  }

  /** When the buffer holds this lookup's loading line once, removal drops that line and keeps the rest, in order. */
  lemma WithoutLoadingOne(a: seq<Line>, loading: Line, b: seq<Line>, t: nat)
    requires loading.kind == LoadingLine(t)
    requires forall l :: l in a ==> l.kind != LoadingLine(t)
    requires forall l :: l in b ==> l.kind != LoadingLine(t)
    ensures WithoutLoading(a + [loading] + b, t) == a + b
  {
    assert WithoutLoading([loading], t) == [] by {
      assert [loading][1..] == [];
    }
    WithoutLoadingConcat(a, [loading], t);
    WithoutLoadingNone(a, t);
    assert WithoutLoading(a + [loading], t) == a;
    WithoutLoadingConcat(a + [loading], b, t);
    WithoutLoadingNone(b, t);
  }

  /**
   * The popup shows a phonetic line whenever the content script shows a
   * pronunciation, with the same text after "🔊 "; it also shows one, with no
   * text, when `phonetics[0]` exists without a text, where the content script
   * shows none.
   */
  lemma PhoneticAgreesWithContentScript(e: Entry)
    ensures Truthy(ContentScript.Pronunciation(e)) ==>
      PhoneticLines(e) == [Line(PhoneticLine, "🔊 " + ContentScript.Pronunciation(e).value)]
    ensures PhoneticLines(e) != [] && !Truthy(ContentScript.Pronunciation(e)) ==>
      PhoneticLines(e) == [Line(PhoneticLine, "🔊 ")]
  {
    if PhoneticLines(e) != [] && !Truthy(ContentScript.Pronunciation(e)) {
      assert !Truthy(e.phonetic) && !Truthy(First(e.phonetics).value.text);
      assert "🔊 " + "" == "🔊 ";
    }
  }

  // ---------------------------------------------------------------------------
  // Status indicator and toggle button
  // ---------------------------------------------------------------------------

  /** Classes and texts of the status indicator and the toggle button. */
  datatype StatusView = StatusView(
    indicatorClass: string,
    indicatorText: string,
    buttonClass: string,
    buttonTitle: string,
    icon: string)

  /** What `updateExtensionStatus` writes for the flag as read with `!== false`. */
  function StatusFor(enabled: bool): StatusView {
    StatusView(
      "status-indicator " + (if enabled then "status-enabled" else "status-disabled"),
      "● " + (if enabled then "online" else "offline"),
      "toggle-btn " + (if enabled then "toggle-enabled" else "toggle-disabled"),
      if enabled then "Click to disable extension" else "Click to enable extension",
      if enabled then "●" else "○")
  }

  /** The status reads "online" exactly when the stored flag is not false, and the two views differ in every part. */
  lemma StatusShowsFlag(stored: Option<bool>)
    ensures StatusFor(Settings.IsOn(stored)).indicatorText == "● online" <==> stored != Some(false)
    ensures StatusFor(Settings.IsOn(stored)).indicatorText == "● offline" <==> stored == Some(false)
    ensures var on := StatusFor(true); var off := StatusFor(false);
      on.indicatorClass != off.indicatorClass && on.indicatorText != off.indicatorText
      && on.buttonClass != off.buttonClass && on.buttonTitle != off.buttonTitle && on.icon != off.icon
  {
    var on := StatusFor(true);
    var off := StatusFor(false);
    assert on.indicatorText[2] == 'o' && on.indicatorText[3] == 'n';
    assert off.indicatorText[3] == 'f';
    assert on.indicatorClass[|"status-indicator status-"|] == 'e';
    assert off.indicatorClass[|"status-indicator status-"|] == 'd';
    assert on.buttonClass[|"toggle-btn toggle-"|] == 'e';
    assert off.buttonClass[|"toggle-btn toggle-"|] == 'd';
    assert on.buttonTitle[9] == 'd' && off.buttonTitle[9] == 'e';
  }

  /** The toggle click asks the background script to store `!stored`. */
  function ToggleRequest(stored: Option<bool>): (m: Settings.Message)
    ensures m.ToggleExtension? && (m.enabled <==> stored != Some(true))
  {
    Settings.ToggleExtension(Settings.Negate(stored))
  }

  /**
   * A toggle click changes the status once the new flag is stored exactly when
   * a flag was stored before: from empty storage, shown as online, the click
   * stores true and the popup still shows online.
   */
  lemma ToggleChangesStatus(stored: Option<bool>)
    ensures StatusFor(Settings.IsOn(Some(ToggleRequest(stored).enabled))) != StatusFor(Settings.IsOn(stored))
      <==> stored.Some?
  {
    StatusShowsFlag(stored);
    StatusShowsFlag(Some(ToggleRequest(stored).enabled));
  }

  /** The popup refreshes its status after a toggle only when the answer reports success. */
  function RefreshAfterToggle(response: Option<bool>): (r: bool)
    ensures r <==> response == Some(true)
  {
    response.Some? && response.value
  }

  // ---------------------------------------------------------------------------
  // The terminal
  // ---------------------------------------------------------------------------

  class Terminal {
    /** The lines of `#output`, in order. */
    var output: seq<Line>
    /** `wordInput.value`. */
    var input: string
    /** Lookups waiting on the network, by ticket, with the word each looks up. */
    var pending: map<nat, string>
    var nextTicket: nat
    /** The status shown, or None before the first storage read answers. */
    var status: Option<StatusView>

    ghost predicate Valid()
      reads this
    {
      && (forall t :: t in pending ==> t < nextTicket)
      && (forall l :: l in output && l.kind.LoadingLine? ==> l.kind.ticket < nextTicket)
    }

    constructor()
      ensures Valid()
      ensures output == [] && input == "" && pending == map[] && nextTicket == 0 && status == None
    {
      output := [];
      input := "";
      pending := map[];
      nextTicket := 0;
      status := None;
    }

    /** `updateExtensionStatus` once storage answers with the stored flag. */
    method UpdateStatus(stored: Option<bool>)
      requires Valid()
      modifies this
      ensures Valid()
      ensures status == Some(StatusFor(Settings.IsOn(stored)))
      ensures output == old(output) && input == old(input) && pending == old(pending) && nextTicket == old(nextTicket)
    {
      status := Some(StatusFor(Settings.IsOn(stored)));
    }

    /**
     * The callback of the toggle's message: on `{success: true}` the status is
     * refreshed from the flag storage holds by then; any other answer, or none,
     * leaves it as it was.
     */
    method ToggleAnswered(response: Option<bool>, stored: Option<bool>)
      requires Valid()
      modifies this
      ensures Valid()
      ensures status == if response == Some(true) then Some(StatusFor(Settings.IsOn(stored))) else old(status)
      ensures output == old(output) && input == old(input) && pending == old(pending) && nextTicket == old(nextTicket)
    {
      if RefreshAfterToggle(response) {
        UpdateStatus(stored);
      }
    }

    /**
     * The `storage.onChanged` listener: a change in the sync area whose
     * changes carry `enabled` refreshes the status from the flag storage
     * holds; any other change is ignored.
     */
    method StorageChanged(area: string, enabledChanged: bool, stored: Option<bool>)
      requires Valid()
      modifies this
      ensures Valid()
      ensures status == if area == "sync" && enabledChanged then Some(StatusFor(Settings.IsOn(stored))) else old(status)
      ensures output == old(output) && input == old(input) && pending == old(pending) && nextTicket == old(nextTicket)
    {
      if area == "sync" && enabledChanged {
        UpdateStatus(stored);
      }
    }

    /** Typing into the input. */
    method SetInput(value: string)
      requires Valid()
      modifies this
      ensures Valid()
      ensures input == value
      ensures output == old(output) && pending == old(pending) && nextTicket == old(nextTicket) && status == old(status)
    {
      input := value;
    }

    /** The start of `lookupWord`: the command line and this lookup's loading line. */
    method BeginLookup(word: string) returns (ticket: nat)
      requires Valid()
      modifies this
      ensures Valid()
      ensures ticket == old(nextTicket) && ticket !in old(pending)
      ensures output == old(output) + [Line(CommandLine, CommandText(word)), Line(LoadingLine(ticket), LoadingText)]
      ensures pending == old(pending)[ticket := word] && nextTicket == old(nextTicket) + 1
      ensures input == old(input) && status == old(status)
    {
      ticket := nextTicket;
      output := output + [Line(CommandLine, CommandText(word))];
      output := output + [Line(LoadingLine(ticket), LoadingText)];
      pending := pending[ticket := word];
      nextTicket := nextTicket + 1;
    }

    /**
     * The input's keydown: Enter looks up the trimmed input when it is not
     * blank and clears the input; Escape clears the input; any other key and a
     * blank Enter change nothing.
     */
    method KeyDown(key: string) returns (lookup: Option<nat>)
      requires Valid()
      modifies this
      ensures Valid()
      ensures lookup.Some? <==> key == "Enter" && Trim(old(input)) != ""
      ensures lookup.Some? ==>
        && lookup.value == old(nextTicket) && nextTicket == old(nextTicket) + 1
        && output == old(output) + [Line(CommandLine, CommandText(Trim(old(input)))), Line(LoadingLine(lookup.value), LoadingText)]
        && pending == old(pending)[lookup.value := Trim(old(input))]
      ensures lookup.None? ==> output == old(output) && pending == old(pending) && nextTicket == old(nextTicket)
      ensures input == if lookup.Some? || key == "Escape" then "" else old(input)
      ensures status == old(status)
    {
      lookup := None;
      if key == "Enter" {
        var word := Trim(input);
        if word != "" {
          var ticket := BeginLookup(word);
          lookup := Some(ticket);
          input := "";
        }
      } else if key == "Escape" {
        input := "";
      }
    }

    /** `displayError`. */
    method DisplayError(word: string)
      modifies this
      ensures output == old(output) + ErrorLines(word)
      ensures input == old(input) && pending == old(pending) && nextTicket == old(nextTicket) && status == old(status)
    {
      output := output + [Line(ErrorLine, ErrorText(word))];
      output := output + [Spacer];
    }

    /** The inner `forEach` over the first three senses. */
    method DisplaySenses(defs: seq<Sense>)
      requires |defs| <= 3
      modifies this
      ensures output == old(output) + SensesUpTo(defs, |defs|)
      ensures input == old(input) && pending == old(pending) && nextTicket == old(nextTicket) && status == old(status)
    {
      var j := 0;
      while j < |defs|
        invariant 0 <= j <= |defs|
        invariant output == old(output) + SensesUpTo(defs, j)
        invariant input == old(input) && pending == old(pending) && nextTicket == old(nextTicket) && status == old(status)
      {
        var def := defs[j];
        var lines := [Line(DefinitionLine, DigitText(j + 1) + ". " + def.definition.GetOr("undefined"))];
        if Truthy(def.example) {
          lines := lines + [Line(ExampleLine, "   \"" + def.example.value + "\"")];
        }
        assert lines == SenseLines(j + 1, def);
        output := output + lines;
        j := j + 1;
      }
    }

    /** The body of the meanings `forEach` for one meaning; `thrown` when a field it dereferences is missing. */
    method DisplayMeaning(m: Meaning, last: bool) returns (thrown: bool)
      modifies this
      ensures output == old(output) + MeaningLines(m, last).lines
      ensures thrown == !MeaningLines(m, last).complete
      ensures input == old(input) && pending == old(pending) && nextTicket == old(nextTicket) && status == old(status)
    {
      if m.partOfSpeech.None? {
        return true;
      }
      var pos := [Line(PartOfSpeechLine, "[" + ToUpper(m.partOfSpeech.value) + "]")];
      output := output + pos;
      if m.definitions.None? {
        return true;
      }
      var defs := Take(m.definitions.value, 3);
      DisplaySenses(defs);
      var syn := [];
      if m.synonyms.Some? && |m.synonyms.value| > 0 {
        syn := [Line(SynonymsLabel, "synonyms:"), Line(SynonymsList, Join(Take(m.synonyms.value, 5), ", "))];
      }
      output := output + syn;
      var sp := [];
      if !last {
        sp := [Spacer];
      }
      output := output + sp;
      Append4(old(output), pos, SensesUpTo(defs, |defs|), SynonymLines(m.synonyms), sp);
      thrown := false;
    }

    /** The outer `forEach` over the meanings, which stops at the first that throws. */
    method DisplayMeanings(ms: seq<Meaning>) returns (thrown: bool)
      modifies this
      ensures output == old(output) + MeaningsUpTo(ms, |ms|).lines
      ensures thrown == !MeaningsUpTo(ms, |ms|).complete
      ensures input == old(input) && pending == old(pending) && nextTicket == old(nextTicket) && status == old(status)
    {
      var i := 0;
      while i < |ms|
        invariant 0 <= i <= |ms|
        invariant MeaningsUpTo(ms, i).complete
        invariant output == old(output) + MeaningsUpTo(ms, i).lines
        invariant input == old(input) && pending == old(pending) && nextTicket == old(nextTicket) && status == old(status)
      {
        ghost var before := output;
        var t := DisplayMeaning(ms[i], i == |ms| - 1);
        MeaningsLoopStep(ms, i, old(output), before, output, t);
        if t {
          MeaningsUpToSticky(ms, i + 1, |ms|);
          return true;
        }
        i := i + 1;
      }
      thrown := false;
    }

    /** `displayDefinition(entry)`; `thrown` when it stops on a TypeError, with the lines before it kept. */
    method DisplayDefinition(entry: Option<Entry>) returns (thrown: bool)
      modifies this
      ensures output == old(output) + EntryLines(entry).lines
      ensures thrown == !EntryLines(entry).complete
      ensures input == old(input) && pending == old(pending) && nextTicket == old(nextTicket) && status == old(status)
    {
      if entry.None? || entry.value.word.None? {
        return true;
      }
      var e := entry.value;
      var head := [Line(TitleLine, "📖 " + ToUpper(e.word.value))];
      if Truthy(e.phonetic) || First(e.phonetics).Some? {
        var text := if Truthy(e.phonetic) then e.phonetic.value else Or(First(e.phonetics).value.text, Some("")).GetOr("");
        head := head + [Line(PhoneticLine, "🔊 " + text)];
      }
      assert head == [Line(TitleLine, "📖 " + ToUpper(e.word.value))] + PhoneticLines(e);
      output := output + head;
      if e.meanings.None? {
        return true;
      }
      var ms := e.meanings.value;
      thrown := DisplayMeanings(ms);
      if !thrown {
        output := output + [Spacer];
        Append4(old(output), head, MeaningsUpTo(ms, |ms|).lines, [Spacer], []);
        assert output == old(output) + head + MeaningsUpTo(ms, |ms|).lines + [Spacer] + [];
      }
    }

    /**
     * The rest of `lookupWord` once the response (and its body) arrive: the
     * loading line of this lookup is removed, then the entry or the error is
     * appended.
     */
    method FinishLookup(ticket: nat, outcome: FetchOutcome)
      requires Valid() && ticket in pending
      modifies this
      ensures Valid()
      ensures output == WithoutLoading(old(output), ticket) + LookupLines(old(pending)[ticket], outcome)
      ensures pending == old(pending) - {ticket}
      ensures input == old(input) && nextTicket == old(nextTicket) && status == old(status)
    {
      var word := pending[ticket];
      output := WithoutLoading(output, ticket);
      pending := pending - {ticket};
      ghost var base := output;
      LookupOutcome(word, outcome);
      var payload := Payload(outcome);
      if payload.None? {
        DisplayError(word);
      } else {
        var entry := if |payload.value| > 0 then Some(payload.value[0]) else None;
        var thrown := DisplayDefinition(entry);
        ghost var rendered := EntryLines(entry);
        if thrown {
          DisplayError(word);
          AppendStep(base, rendered.lines, ErrorLines(word), base + rendered.lines, output);
        }
        assert output == base + (rendered.lines + (if rendered.complete then [] else ErrorLines(word)));
      }
    }

    /** `clearOutput`: the buffer becomes the "Terminal cleared." line and a spacer. */
    method ClearOutput()
      requires Valid()
      modifies this
      ensures Valid()
      ensures output == [Line(ClearedLine, "Terminal cleared."), Spacer]
      ensures input == old(input) && pending == old(pending) && nextTicket == old(nextTicket) && status == old(status)
    {
      output := [Line(ClearedLine, "Terminal cleared."), Spacer];
    }
  }
}
