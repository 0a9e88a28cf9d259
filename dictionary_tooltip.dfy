/**
 * The React `DictionaryTooltip` component: it normalises the first entry of
 * the lookup into a `Definition` record, drives `loading`, `error` and
 * `definition` through each fetch, clamps its position, and calls `onClose` on
 * an outside click, on Escape, or when its 5000 ms timer fires.
 *
 * A component instance is the class `Tooltip`; prop changes, fetch
 * settlements, document events and the timer are its methods.
 */
module DictionaryTooltip {
  import opened Wrappers
  import opened JsText
  import opened DictionaryApi
  import ContentScript
  import Tally

  /** The definition text shown when the first sense has none. */
  const NoDefinitionText: string := "No definition available"
  /** The width the tooltip is kept clear of the window's right edge by. */
  const TooltipWidth: real := 320.0
  /** Upward offset and top margin of the tooltip. */
  const TopOffset: real := 10.0
  /** Delay of the auto-close timer, in milliseconds (a timer event here). */
  const AutoCloseMs: nat := 5000

  /** The `Definition` interface; `word` is read unchecked from the entry and may be absent. */
  datatype Definition = Definition(
    word: Option<string>,
    phonetic: string,
    partOfSpeech: string,
    definition: string,
    example: Option<string>)

  /** `entry.phonetic || entry.phonetics?.[0]?.text || ''`. */
  function PhoneticOf(e: Entry): (r: string)
    ensures r != "" <==> Truthy(e.phonetic) || (First(e.phonetics).Some? && Truthy(First(e.phonetics).value.text))
    ensures r != "" ==> r == if Truthy(e.phonetic) then e.phonetic.value else First(e.phonetics).value.text.value
  {
    var text := if First(e.phonetics).Some? then First(e.phonetics).value.text else None;
    Or(Or(e.phonetic, text), Some("")).GetOr("")
  }

  /**
   * The record `fetchDefinition` passes to `setDefinition`, or None when
   * reading `entry.meanings` throws because the array is empty.
   */
  function Normalize(data: seq<Entry>): (r: Option<Definition>)
    ensures r.None? <==> |data| == 0
    ensures r.Some? ==> r.value.word == data[0].word && r.value.phonetic == PhoneticOf(data[0])
    ensures r.Some? ==> r.value.definition != ""
    ensures r.Some? ==> (r.value.example.Some? ==> r.value.example.value != "")
  {
    if |data| == 0 then None
    else
      var entry := data[0];
      var meaning := First(entry.meanings);
      var def := if meaning.Some? then First(meaning.value.definitions) else None;
      Some(Definition(
        entry.word,
        PhoneticOf(entry),
        if meaning.Some? && Truthy(meaning.value.partOfSpeech) then meaning.value.partOfSpeech.value else "",
        if def.Some? && Truthy(def.value.definition) then def.value.definition.value else NoDefinitionText,
        if def.Some? && Truthy(def.value.example) then def.value.example else None))
  }

  /** What one fetch yields: the record on success, None for a non-OK status, a failed parse or an empty array. */
  function FetchDefinition(outcome: FetchOutcome): (r: Option<Definition>)
    ensures r.Some? <==> Payload(outcome).Some? && |Payload(outcome).value| > 0
  {
    match Payload(outcome)
    case None => None
    case Some(data) => Normalize(data)
  }

  /**
   * The component reads the same first entry, meaning and sense as the content
   * script: the phonetic it keeps is the pronunciation the content script
   * shows (empty when that one shows none); its part of speech and definition
   * are the content script's fields, with '' and "No definition available"
   * where the content script shows nothing, and so is its example.
   */
  lemma NormalizeAgreesWithContentScript(data: seq<Entry>)
    requires |data| > 0
    ensures var d := Normalize(data).value;
      && (Truthy(ContentScript.FieldOf(data, ContentScript.PronunciationPart)) <==> d.phonetic != "")
      && (d.phonetic != "" ==> d.phonetic == ContentScript.FieldOf(data, ContentScript.PronunciationPart).value)
      && (d.partOfSpeech == if Truthy(ContentScript.FieldOf(data, ContentScript.PartOfSpeechPart))
                           then ContentScript.FieldOf(data, ContentScript.PartOfSpeechPart).value else "")
      && (d.definition == if Truthy(ContentScript.FieldOf(data, ContentScript.DefinitionPart))
                         then ContentScript.FieldOf(data, ContentScript.DefinitionPart).value else NoDefinitionText)
      && (d.example.Some? <==> Truthy(ContentScript.FieldOf(data, ContentScript.ExamplePart)))
      && (d.example.Some? ==> d.example.value == ContentScript.FieldOf(data, ContentScript.ExamplePart).value)
  {
    var e := data[0];
    assert ContentScript.FirstEntry(data) == e;
    var m := ContentScript.FirstMeaning(e);
    if First(e.meanings).None? {
      assert m == EmptyMeaning;
      assert ContentScript.FirstSense(m) == EmptySense;
    } else if First(First(e.meanings).value.definitions).None? {
      assert ContentScript.FirstSense(m) == EmptySense;
    }
  }

  /** Where the tooltip is drawn: left of the window's right edge minus its width, and at least the margin from the top. */
  function Position(x: real, y: real, innerWidth: real): (p: ContentScript.Placement)
    ensures p.left <= x && p.left <= innerWidth - TooltipWidth
    ensures p.left == x || p.left == innerWidth - TooltipWidth
    ensures p.top >= y - TopOffset && p.top >= TopOffset
    ensures p.top == y - TopOffset || p.top == TopOffset
  {
    ContentScript.Placement(
      if x <= innerWidth - TooltipWidth then x else innerWidth - TooltipWidth,
      if y - TopOffset >= TopOffset then y - TopOffset else TopOffset)
  }

  /** One rendered element of the tooltip. */
  datatype Piece =
    | Spinner(lookingUp: string)
    | ErrorText(notFound: string)
    | WordText(word: Option<string>)
    | PhoneticText(phonetic: string)
    | PartOfSpeechText(partOfSpeech: string)
    | DefinitionText(text: string)
    | ExampleText(example: string)

  /** `cond && <piece>`: the piece when the condition holds, nothing otherwise. */
  function When(cond: bool, p: Piece): seq<Piece> {
    if cond then [p] else []
  }

  /** The block rendered for a definition record. */
  function DefinitionBlock(d: Definition): seq<Piece> {
    When(true, WordText(d.word))
    + When(d.phonetic != "", PhoneticText(d.phonetic))
    + When(d.partOfSpeech != "", PartOfSpeechText(d.partOfSpeech))
    + When(true, DefinitionText(d.definition))
    + When(d.example.Some? && d.example.value != "", ExampleText(d.example.GetOr("")))
  }

  /** The rendered output for a state: each of its three blocks when its flag or record is set. */
  function View(word: string, loading: bool, error: bool, definition: Option<Definition>): seq<Piece> {
    When(loading, Spinner(word))
    + When(error, ErrorText(word))
    + (if definition.Some? then DefinitionBlock(definition.value) else [])
  }

  datatype PieceKind = SpinnerKind | ErrorKind | WordKind | PhoneticKind | PartOfSpeechKind | DefinitionKind | ExampleKind

  function KindOf(p: Piece): PieceKind {
    match p
    case Spinner(_) => SpinnerKind
    case ErrorText(_) => ErrorKind
    case WordText(_) => WordKind
    case PhoneticText(_) => PhoneticKind
    case PartOfSpeechText(_) => PartOfSpeechKind
    case DefinitionText(_) => DefinitionKind
    case ExampleText(_) => ExampleKind
  }

  /** How many pieces of kind `k` a rendered output holds. */
  function Count(ps: seq<Piece>, k: PieceKind): nat {
    Tally.Count(ps, KindOf, k)
  }


  /** How many pieces of kind `k` the view of a state holds. */
  function Expected(loading: bool, error: bool, definition: Option<Definition>, k: PieceKind): nat {
    match k
    case SpinnerKind => if loading then 1 else 0
    case ErrorKind => if error then 1 else 0
    case WordKind => if definition.Some? then 1 else 0
    case DefinitionKind => if definition.Some? then 1 else 0
    case PhoneticKind => if definition.Some? && definition.value.phonetic != "" then 1 else 0
    case PartOfSpeechKind => if definition.Some? && definition.value.partOfSpeech != "" then 1 else 0
    case ExampleKind =>
      if definition.Some? && definition.value.example.Some? && definition.value.example.value != "" then 1 else 0
  }

  /**
   * The spinner and the error message each appear exactly when their flag is
   * set; once a definition exists its word and definition text are rendered
   * exactly once, and the phonetic, part of speech and example exactly when
   * they are non-empty.
   */
  lemma ViewContents(word: string, loading: bool, error: bool, definition: Option<Definition>, k: PieceKind)
    ensures Count(View(word, loading, error, definition), k) == Expected(loading, error, definition, k)
  {
    var c := if definition.Some? then DefinitionBlock(definition.value) else [];
    Tally.CountConcat(When(loading, Spinner(word)) + When(error, ErrorText(word)), c, KindOf, k);
    Tally.CountConcat(When(loading, Spinner(word)), When(error, ErrorText(word)), KindOf, k);
    CountWhen(loading, Spinner(word), k);
    CountWhen(error, ErrorText(word), k);
    if definition.Some? {
      BlockContents(definition.value, k);
    }
  }

  lemma BlockContents(d: Definition, k: PieceKind)
    ensures Count(DefinitionBlock(d), k) == Expected(false, false, Some(d), k)
  {
    var c1 := When(true, WordText(d.word));
    var c2 := When(d.phonetic != "", PhoneticText(d.phonetic));
    var c3 := When(d.partOfSpeech != "", PartOfSpeechText(d.partOfSpeech));
    var c4 := When(true, DefinitionText(d.definition));
    var c5 := When(d.example.Some? && d.example.value != "", ExampleText(d.example.GetOr("")));
    assert DefinitionBlock(d) == c1 + c2 + c3 + c4 + c5;
    Count5(c1, c2, c3, c4, c5, k);
    CountWhen(true, WordText(d.word), k);
    CountWhen(d.phonetic != "", PhoneticText(d.phonetic), k);
    CountWhen(d.partOfSpeech != "", PartOfSpeechText(d.partOfSpeech), k);
    CountWhen(true, DefinitionText(d.definition), k);
    CountWhen(d.example.Some? && d.example.value != "", ExampleText(d.example.GetOr("")), k);
  }

  lemma Count5(a: seq<Piece>, b: seq<Piece>, c: seq<Piece>, d: seq<Piece>, e: seq<Piece>, k: PieceKind)
    ensures Count(a + b + c + d + e, k) == Count(a, k) + Count(b, k) + Count(c, k) + Count(d, k) + Count(e, k)
  {
    Tally.CountConcat(a + b + c + d, e, KindOf, k);
    Tally.CountConcat(a + b + c, d, KindOf, k);
    Tally.CountConcat(a + b, c, KindOf, k);
    Tally.CountConcat(a, b, KindOf, k);
  }

  lemma CountWhen(cond: bool, p: Piece, k: PieceKind)
    ensures Count(When(cond, p), k) == if cond && KindOf(p) == k then 1 else 0
  {
    if cond {
      Tally.CountSingle(p, KindOf, k);
    }
  }

  /** One mounted `DictionaryTooltip`, its props, its state and the effects it has registered. */
  class Tooltip {
    /** Props. */
    var word: string
    var x: real
    var y: real
    /** State. */
    var definition: Option<Definition>
    var loading: bool
    var error: bool
    /** Whether the component is mounted; state updates after unmounting are dropped. */
    var mounted: bool
    /** Whether the document `click` and `keydown` listeners of the second effect are registered. */
    var listening: bool
    /** Whether the auto-close timer is pending. */
    var timerArmed: bool
    /** How many times `onClose` has been called. */
    var closeCalls: nat
    /** Fetches started and not yet settled. */
    var inFlight: nat

    ghost predicate Valid()
      reads this
    {
      listening == mounted && (timerArmed ==> mounted)
    }

    /** Mounting: initial state, then both effects run: the fetch starts, the listeners and the timer are set up. */
    constructor Mount(word: string, x: real, y: real)
      ensures Valid()
      ensures this.word == word && this.x == x && this.y == y
      ensures definition == None && loading && !error
      ensures mounted && listening && timerArmed && closeCalls == 0 && inFlight == 1
    {
      this.word := word;
      this.x := x;
      this.y := y;
      definition := None;
      loading := true;
      error := false;
      mounted := true;
      listening := true;
      timerArmed := true;
      closeCalls := 0;
      inFlight := 1;
    }

    /** A new `word` prop re-runs only the fetch effect: loading is set, error cleared, the old definition kept, the timer untouched. */
    method ChangeWord(w: string)
      requires Valid() && mounted
      modifies this
      ensures Valid()
      ensures word == w && loading && !error && inFlight == old(inFlight) + 1
      ensures definition == old(definition) && timerArmed == old(timerArmed) && listening == old(listening)
      ensures closeCalls == old(closeCalls) && mounted == old(mounted) && x == old(x) && y == old(y)
    {
      word := w;
      loading := true;
      error := false;
      inFlight := inFlight + 1;
    }

    /** A new `onClose` prop re-runs the dismissal effect: cleanup, then new listeners and a fresh timer. */
    method ChangeOnClose()
      requires Valid() && mounted
      modifies this
      ensures Valid()
      ensures listening && timerArmed
      ensures word == old(word) && definition == old(definition) && loading == old(loading) && error == old(error)
      ensures closeCalls == old(closeCalls) && inFlight == old(inFlight) && mounted == old(mounted)
      ensures x == old(x) && y == old(y)
    {
      listening := false;
      timerArmed := false;
      listening := true;
      timerArmed := true;
    }

    /** A new `position` prop only moves the tooltip. */
    method ChangePosition(nx: real, ny: real)
      requires Valid()
      modifies this
      ensures Valid()
      ensures x == nx && y == ny
      ensures word == old(word) && definition == old(definition) && loading == old(loading) && error == old(error)
      ensures mounted == old(mounted) && listening == old(listening) && timerArmed == old(timerArmed)
      ensures closeCalls == old(closeCalls) && inFlight == old(inFlight)
    {
      x, y := nx, ny;
    }

    /**
     * One started fetch settles, in whatever order. Success stores the
     * normalised record; a non-OK status, a failed parse or an empty array sets
     * `error` and leaves the previous definition; both clear `loading`.
     */
    method FetchSettled(outcome: FetchOutcome)
      requires Valid() && inFlight > 0
      modifies this
      ensures Valid()
      ensures inFlight == old(inFlight) - 1
      ensures mounted ==> !loading
      ensures mounted && FetchDefinition(outcome).Some? ==> definition == FetchDefinition(outcome) && error == old(error)
      ensures mounted && FetchDefinition(outcome).None? ==> definition == old(definition) && error
      ensures !mounted ==> definition == old(definition) && loading == old(loading) && error == old(error)
      ensures word == old(word) && mounted == old(mounted) && listening == old(listening) && timerArmed == old(timerArmed)
      ensures closeCalls == old(closeCalls) && x == old(x) && y == old(y)
    {
      inFlight := inFlight - 1;
      if mounted {
        var result := FetchDefinition(outcome);
        if result.Some? {
          definition := result;
        } else {
          error := true;
        }
        loading := false;
      }
    }

    /** A document click: `onClose` is called unless the target lies inside the tooltip. */
    method Click(insideTooltip: bool)
      requires Valid()
      modifies this
      ensures Valid()
      ensures closeCalls == if listening && !insideTooltip then old(closeCalls) + 1 else old(closeCalls)
      ensures word == old(word) && definition == old(definition) && loading == old(loading) && error == old(error)
      ensures mounted == old(mounted) && listening == old(listening) && timerArmed == old(timerArmed)
      ensures inFlight == old(inFlight) && x == old(x) && y == old(y)
    {
      if listening && !insideTooltip {
        closeCalls := closeCalls + 1;
      }
    }

    /** A document keydown: `onClose` is called for Escape only. */
    method KeyDown(key: string)
      requires Valid()
      modifies this
      ensures Valid()
      ensures closeCalls == if listening && key == "Escape" then old(closeCalls) + 1 else old(closeCalls)
      ensures word == old(word) && definition == old(definition) && loading == old(loading) && error == old(error)
      ensures mounted == old(mounted) && listening == old(listening) && timerArmed == old(timerArmed)
      ensures inFlight == old(inFlight) && x == old(x) && y == old(y)
    {
      if listening && key == "Escape" {
        closeCalls := closeCalls + 1;
      }
    }

    /** The auto-close timer fires, whatever the state of the lookup. */
    method TimerFires()
      requires Valid() && timerArmed
      modifies this
      ensures Valid()
      ensures closeCalls == old(closeCalls) + 1 && !timerArmed
      ensures word == old(word) && definition == old(definition) && loading == old(loading) && error == old(error)
      ensures mounted == old(mounted) && listening == old(listening)
      ensures inFlight == old(inFlight) && x == old(x) && y == old(y)
    {
      timerArmed := false;
      closeCalls := closeCalls + 1;
    }

    /** Unmounting runs the cleanup: both listeners are removed and the timer cleared. */
    method Unmount()
      requires Valid()
      modifies this
      ensures Valid()
      ensures !mounted && !listening && !timerArmed
      ensures word == old(word) && definition == old(definition) && loading == old(loading) && error == old(error)
      ensures closeCalls == old(closeCalls) && inFlight == old(inFlight) && x == old(x) && y == old(y)
    {
      mounted := false;
      listening := false;
      timerArmed := false;
    }
  }
}
