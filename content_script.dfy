/**
 * The content script: a hover button offered above a single selected word,
 * and a tooltip that looks the word up and shows its first definition.
 *
 * The page holds two singleton elements (the hover button and the tooltip),
 * one pending hide timer and the outside-click listeners. Browser events are
 * the methods of `Page`; the fetch of `showTooltip` is split at its `await`
 * into `OnHoverButtonClick` (up to the request) and `OnLookupSettled` (with the
 * request's outcome as an input), so that other events can come in between.
 */
module ContentScript {
  import opened Wrappers
  import opened JsText
  import opened DictionaryApi
  import opened Html

  /** Horizontal offset of the hover button from the selection midpoint, in CSS pixels. */
  const ButtonHalfWidth: real := 16.0
  /** Clearance between the selection top and the hover button. */
  const ButtonOffsetY: real := 10.0
  /** Height of the hover button. */
  const ButtonHeight: real := 32.0
  /** Offset of the tooltip from the anchor. */
  const TooltipOffset: real := 8.0
  /** Width the tooltip is kept clear of the viewport's right edge by. */
  const TooltipWidth: real := 320.0
  /** Delay of the debounced hide after a selection change, in milliseconds (a timer event here). */
  const HideDelayMs: nat := 120

  /** The selection range's bounding client rectangle. */
  datatype Rect = Rect(left: real, top: real, width: real, height: real)

  /** What `window.getSelection()` yields: collapsed or not, its text, and its range rectangle. */
  datatype Selection = Selection(isCollapsed: bool, text: string, rect: Option<Rect>)

  /** Scroll offsets and `documentElement.clientWidth`. */
  datatype Viewport = Viewport(scrollX: real, scrollY: real, clientWidth: real)

  /** `Math.round`: the nearest integer, halves rounded up. */
  function Round(v: real): (r: int)
    ensures r as real - 0.5 <= v < r as real + 0.5
  {
    (v + 0.5).Floor
  }

  /** Document coordinates of the selection's top midpoint, and the word it holds. */
  datatype Anchor = Anchor(x: real, y: real, word: string)

  /**
   * `onMouseUpSelection`'s decision: the anchor to show the hover button at, or
   * None to hide it.
   */
  function HoverTarget(sel: Option<Selection>, scrollX: real, scrollY: real): (r: Option<Anchor>)
    ensures r.Some? <==>
      && sel.Some? && !sel.value.isCollapsed
      && Trim(sel.value.text) != "" && NoSpace(Trim(sel.value.text))
      && sel.value.rect.Some? && !(sel.value.rect.value.width == 0.0 && sel.value.rect.value.height == 0.0)
    ensures r.Some? ==>
      var rect := sel.value.rect.value;
      r.value == Anchor(rect.left + rect.width / 2.0 + scrollX, rect.top + scrollY, Trim(sel.value.text))
  {
    if sel.None? || sel.value.isCollapsed then None
    else
      var text := Trim(sel.value.text);
      SplitSingleIffNoSpace(text);
      if text == "" || |Split(text)| != 1 then None
      else if sel.value.rect.None? then None
      else
        var rect := sel.value.rect.value;
        if rect.width == 0.0 && rect.height == 0.0 then None
        else Some(Anchor(rect.left + rect.width / 2.0 + scrollX, rect.top + scrollY, text))
  }

  /** The hover button's state: shown or `display: none`, its rounded position, and its `dataset`. */
  datatype HoverButton = HoverButton(visible: bool, left: int, top: int, word: string, x: real, y: real)

  /** The hover button as `showHoverButton` leaves it. */
  function ButtonAt(a: Anchor): (b: HoverButton)
    ensures b.visible && b.word == a.word && b.x == a.x && b.y == a.y
    ensures b.left as real - 0.5 <= a.x - ButtonHalfWidth < b.left as real + 0.5
    ensures b.top as real - 0.5 <= a.y - ButtonOffsetY - ButtonHeight < b.top as real + 0.5
  {
    HoverButton(true, Round(a.x - ButtonHalfWidth), Round(a.y - ButtonOffsetY - ButtonHeight), a.word, a.x, a.y)
  }

  /** Where the tooltip is placed for an anchor. */
  datatype Placement = Placement(left: real, top: real)

  /** The tooltip is kept left of the viewport's right edge minus its width, and below the scrolled top plus a margin. */
  function TooltipPlacement(x: real, y: real, vp: Viewport): (p: Placement)
    ensures p.left <= x + TooltipOffset && p.left <= vp.scrollX + vp.clientWidth - TooltipWidth
    ensures p.left == x + TooltipOffset || p.left == vp.scrollX + vp.clientWidth - TooltipWidth
    ensures p.top >= y - TooltipOffset && p.top >= vp.scrollY + TooltipOffset
    ensures p.top == y - TooltipOffset || p.top == vp.scrollY + TooltipOffset
  {
    var right := vp.scrollX + vp.clientWidth - TooltipWidth;
    var floor := vp.scrollY + TooltipOffset;
    Placement(
      if x + TooltipOffset <= right then x + TooltipOffset else right,
      if y - TooltipOffset >= floor then y - TooltipOffset else floor)
  }

  /** The five kinds of rendered part, in the order they are emitted. */
  datatype PartKind = WordPart | PronunciationPart | PartOfSpeechPart | DefinitionPart | ExamplePart

  function Rank(k: PartKind): nat {
    match k
    case WordPart => 0
    case PronunciationPart => 1
    case PartOfSpeechPart => 2
    case DefinitionPart => 3
    case ExamplePart => 4
  }

  /** One `<div>` of a successful lookup; `html` is the escaped text it shows. */
  datatype Part = Part(kind: PartKind, html: string)

  /** `data[0] || {}`. */
  function FirstEntry(data: seq<Entry>): Entry {
    if |data| > 0 then data[0] else EmptyEntry
  }

  /** `(entry.meanings && entry.meanings[0]) || {}`. */
  function FirstMeaning(e: Entry): Meaning {
    First(e.meanings).GetOr(EmptyMeaning)
  }

  /** `(meaning.definitions && meaning.definitions[0]) || {}`. */
  function FirstSense(m: Meaning): Sense {
    First(m.definitions).GetOr(EmptySense)
  }

  /** The pronunciation shown: `phonetic`, else the text of `phonetics[0]`; absent when neither is truthy. */
  function Pronunciation(e: Entry): (r: Option<string>)
    ensures Truthy(r) <==> Truthy(e.phonetic) || (First(e.phonetics).Some? && Truthy(First(e.phonetics).value.text))
    ensures Truthy(r) ==> r.value == if Truthy(e.phonetic) then e.phonetic.value else First(e.phonetics).value.text.value
  {
    if Truthy(e.phonetic) || First(e.phonetics).Some? then
      var ph := Or(e.phonetic, if First(e.phonetics).Some? then First(e.phonetics).value.text else None);
      if Truthy(ph) then ph else None
    else None
  }

  /** The raw field a part of the given kind shows, for the response `data`. */
  function FieldOf(data: seq<Entry>, k: PartKind): Option<string> {
    var e := FirstEntry(data);
    match k
    case WordPart => e.word
    case PronunciationPart => Pronunciation(e)
    case PartOfSpeechPart => FirstMeaning(e).partOfSpeech
    case DefinitionPart => FirstSense(FirstMeaning(e)).definition
    case ExamplePart => FirstSense(FirstMeaning(e)).example
  }

  /** A singleton part list when the field is truthy. */
  function PartIf(k: PartKind, field: Option<string>): (r: seq<Part>)
    ensures |r| <= 1
    ensures r != [] <==> Truthy(field)
    ensures r != [] ==> r[0] == Part(k, EscapeHtml(field.value))
  {
    if Truthy(field) then [Part(k, EscapeHtml(field.value))] else []
  }

  /** The parts a successful lookup renders, in emission order. */
  function EntryParts(data: seq<Entry>): seq<Part> {
    PartIf(WordPart, FieldOf(data, WordPart))
    + PartIf(PronunciationPart, FieldOf(data, PronunciationPart))
    + PartIf(PartOfSpeechPart, FieldOf(data, PartOfSpeechPart))
    + PartIf(DefinitionPart, FieldOf(data, DefinitionPart))
    + PartIf(ExamplePart, FieldOf(data, ExamplePart))
  }

  /** The pronunciation step of `showTooltip`: only when `phonetic` or `phonetics[0]` exists, and only a non-empty text. */
  method PronunciationParts(entry: Entry) returns (parts: seq<Part>)
    ensures parts == PartIf(PronunciationPart, Pronunciation(entry))
  {
    parts := [];
    var hasFirstPhonetic := entry.phonetics.Some? && |entry.phonetics.value| > 0;
    if Truthy(entry.phonetic) || hasFirstPhonetic {
      var ph := if Truthy(entry.phonetic) then entry.phonetic.value
                else if hasFirstPhonetic && Truthy(entry.phonetics.value[0].text) then entry.phonetics.value[0].text.value
                else "";
      if ph != "" {
        parts := [Part(PronunciationPart, EscapeHtml(ph))];
      }
    }
  }

  /**
   * The success branch of `showTooltip`: pushes the word, pronunciation, part
   * of speech, definition and example parts, each only when present.
   */
  method RenderParts(data: seq<Entry>) returns (parts: seq<Part>)
    ensures parts == EntryParts(data)
  {
    var entry := if |data| > 0 then data[0] else EmptyEntry;
    var meaning := if entry.meanings.Some? && |entry.meanings.value| > 0 then entry.meanings.value[0] else EmptyMeaning;
    var def := if meaning.definitions.Some? && |meaning.definitions.value| > 0 then meaning.definitions.value[0] else EmptySense;
    assert entry == FirstEntry(data) && meaning == FirstMeaning(entry) && def == FirstSense(meaning);
    parts := [];
    if Truthy(entry.word) {
      parts := parts + [Part(WordPart, EscapeHtml(entry.word.value))];
    }
    ghost var upTo := PartIf(WordPart, FieldOf(data, WordPart));
    assert parts == upTo;
    var pronunciation := PronunciationParts(entry);
    parts := parts + pronunciation;
    upTo := upTo + PartIf(PronunciationPart, FieldOf(data, PronunciationPart));
    assert parts == upTo;
    if Truthy(meaning.partOfSpeech) {
      parts := parts + [Part(PartOfSpeechPart, EscapeHtml(meaning.partOfSpeech.value))];
    }
    upTo := upTo + PartIf(PartOfSpeechPart, FieldOf(data, PartOfSpeechPart));
    assert parts == upTo;
    if Truthy(def.definition) {
      parts := parts + [Part(DefinitionPart, EscapeHtml(def.definition.value))];
    }
    upTo := upTo + PartIf(DefinitionPart, FieldOf(data, DefinitionPart));
    assert parts == upTo;
    if Truthy(def.example) {
      parts := parts + [Part(ExamplePart, EscapeHtml(def.example.value))];
    }
    upTo := upTo + PartIf(ExamplePart, FieldOf(data, ExamplePart));
    assert parts == upTo;
  }

  /** Every kind appears at most once, and the parts come in the order word, pronunciation, part of speech, definition, example. */
  lemma EntryPartsOrdered(data: seq<Entry>)
    ensures |EntryParts(data)| <= 5
    ensures forall i, j :: 0 <= i < j < |EntryParts(data)| ==> Rank(EntryParts(data)[i].kind) < Rank(EntryParts(data)[j].kind)
  {
    var a := PartIf(WordPart, FieldOf(data, WordPart));
    var b := PartIf(PronunciationPart, FieldOf(data, PronunciationPart));
    var c := PartIf(PartOfSpeechPart, FieldOf(data, PartOfSpeechPart));
    var d := PartIf(DefinitionPart, FieldOf(data, DefinitionPart));
    var e := PartIf(ExamplePart, FieldOf(data, ExamplePart));
    assert EntryParts(data) == a + b + c + d + e;
    GroupsOrdered(a, b, c, d, e);
  }

  /** Five groups of at most one part each, of the five kinds in rank order, concatenate into a strictly rank-ordered list. */
  lemma GroupsOrdered(a: seq<Part>, b: seq<Part>, c: seq<Part>, d: seq<Part>, e: seq<Part>)
    requires |a| <= 1 && |b| <= 1 && |c| <= 1 && |d| <= 1 && |e| <= 1
    requires forall p :: p in a ==> p.kind == WordPart
    requires forall p :: p in b ==> p.kind == PronunciationPart
    requires forall p :: p in c ==> p.kind == PartOfSpeechPart
    requires forall p :: p in d ==> p.kind == DefinitionPart
    requires forall p :: p in e ==> p.kind == ExamplePart
    ensures |a + b + c + d + e| <= 5
    ensures forall i, j :: 0 <= i < j < |a + b + c + d + e| ==>
      Rank((a + b + c + d + e)[i].kind) < Rank((a + b + c + d + e)[j].kind)
  {
    var ps := a + b + c + d + e;
    forall i, j | 0 <= i < j < |ps| ensures Rank(ps[i].kind) < Rank(ps[j].kind) {
      // a part's rank is the number of the five groups before its own
      GroupRank(ps, a, b, c, d, e, i);
      GroupRank(ps, a, b, c, d, e, j);
    }
  }

  /** The index of the group (0 to 4) that position `i` falls in, for groups of at most one part. */
  function GroupOf(i: nat, na: nat, nb: nat, nc: nat, nd: nat): nat {
    if i < na then 0
    else if i < na + nb then 1
    else if i < na + nb + nc then 2
    else if i < na + nb + nc + nd then 3
    else 4
  }

  lemma GroupRank(ps: seq<Part>, a: seq<Part>, b: seq<Part>, c: seq<Part>, d: seq<Part>, e: seq<Part>, i: nat)
    requires ps == a + b + c + d + e && i < |ps|
    requires |a| <= 1 && |b| <= 1 && |c| <= 1 && |d| <= 1 && |e| <= 1
    requires forall p :: p in a ==> p.kind == WordPart
    requires forall p :: p in b ==> p.kind == PronunciationPart
    requires forall p :: p in c ==> p.kind == PartOfSpeechPart
    requires forall p :: p in d ==> p.kind == DefinitionPart
    requires forall p :: p in e ==> p.kind == ExamplePart
    ensures Rank(ps[i].kind) == GroupOf(i, |a|, |b|, |c|, |d|)
  {
    if i < |a| {
      assert ps[i] == a[i];
    } else if i < |a| + |b| {
      assert ps[i] == b[i - |a|];
    } else if i < |a| + |b| + |c| {
      assert ps[i] == c[i - |a| - |b|];
    } else if i < |a| + |b| + |c| + |d| {
      assert ps[i] == d[i - |a| - |b| - |c|];
    } else {
      assert ps[i] == e[i - |a| - |b| - |c| - |d|];
    }
  }

  /** A part of each kind is rendered exactly when its field is truthy, and it shows that field escaped. */
  lemma EntryPartsFields(data: seq<Entry>, k: PartKind)
    ensures (exists i :: 0 <= i < |EntryParts(data)| && EntryParts(data)[i].kind == k) <==> Truthy(FieldOf(data, k))
    ensures forall i :: 0 <= i < |EntryParts(data)| && EntryParts(data)[i].kind == k ==>
      EntryParts(data)[i].html == EscapeHtml(FieldOf(data, k).value)
  {
    var a := PartIf(WordPart, FieldOf(data, WordPart));
    var b := PartIf(PronunciationPart, FieldOf(data, PronunciationPart));
    var c := PartIf(PartOfSpeechPart, FieldOf(data, PartOfSpeechPart));
    var d := PartIf(DefinitionPart, FieldOf(data, DefinitionPart));
    var e := PartIf(ExamplePart, FieldOf(data, ExamplePart));
    var ps := a + b + c + d + e;
    assert ps == EntryParts(data);
    var g := match k
      case WordPart => a
      case PronunciationPart => b
      case PartOfSpeechPart => c
      case DefinitionPart => d
      case ExamplePart => e;
    assert g == PartIf(k, FieldOf(data, k));
    forall i | 0 <= i < |ps| && ps[i].kind == k ensures ps[i] in g {
      assert ps[i] in a || ps[i] in b || ps[i] in c || ps[i] in d || ps[i] in e by {
        assert ps[i] in ps;
      }
    }
    if Truthy(FieldOf(data, k)) {
      var p := g[0];
      assert p in ps;
      var i :| 0 <= i < |ps| && ps[i] == p;
      assert ps[i].kind == k;
    }
  }

  /** A missing first entry, meaning or definition is read as an empty object: nothing but what exists is rendered. */
  lemma EmptyResponseRendersNothing()
    ensures EntryParts([]) == []
  {
    assert Pronunciation(EmptyEntry) == None;
  }

  /** What the tooltip's content element holds; every text in it is escaped. */
  datatype Body =
    | Looking(word: string)
    | Rendered(parts: seq<Part>)
    | NoDefinition(word: string)

  /** The tooltip element: the lookup that created it, its position, its content, and whether it has class `show`. */
  datatype Tooltip = Tooltip(id: nat, left: real, top: real, body: Body, shown: bool)

  /** Where a document click lands. */
  datatype ClickTarget = InTooltip | InHoverButton | Elsewhere

  /** The content of a settled lookup: the rendered parts on success, the "No definition found" message otherwise. */
  function SettledBody(word: string, outcome: FetchOutcome): (b: Body)
    ensures b.NoDefinition? <==> Payload(outcome).None?
    ensures b.NoDefinition? ==> b.word == EscapeHtml(word)
    ensures b.Rendered? ==> b.parts == EntryParts(Payload(outcome).value)
  {
    match Payload(outcome)
    case Some(data) => Rendered(EntryParts(data))
    case None => NoDefinition(EscapeHtml(word))
  }

  class Page {
    /** `hoverButtonEl`: created on first use, never destroyed. */
    var hoverButton: Option<HoverButton>
    /** `tooltipEl`. */
    var tooltip: Option<Tooltip>
    /** Whether `hideHoverTimeout` is pending. */
    var hideTimerArmed: bool
    /** The `onDocClick` listeners registered on the document and not yet removed. */
    var clickListeners: nat
    /** Lookups whose fetch has not settled, with the word each looks up. */
    var pending: map<nat, string>
    /** The id the next lookup gets. */
    var nextLookup: nat
    /** How many times `createHoverButton` has run. */
    var buttonsCreated: nat
    /** How many tooltip elements are attached to the document. */
    var tooltipsAttached: nat

    ghost predicate Valid()
      reads this
    {
      && buttonsCreated == (if hoverButton.Some? then 1 else 0)
      && tooltipsAttached == (if tooltip.Some? then 1 else 0)
      && (tooltip.Some? ==> tooltip.value.id < nextLookup)
      && (forall id :: id in pending ==> id < nextLookup)
    }

    /** `initializeSuperBook`: the listeners are registered; no element exists yet. */
    constructor ()
      ensures Valid()
      ensures hoverButton == None && tooltip == None && !hideTimerArmed
      ensures clickListeners == 0 && pending == map[] && buttonsCreated == 0 && tooltipsAttached == 0
    {
      hoverButton := None;
      tooltip := None;
      hideTimerArmed := false;
      clickListeners := 0;
      pending := map[];
      nextLookup := 0;
      buttonsCreated := 0;
      tooltipsAttached := 0;
    }

    /** `showHoverButton`: creates the button the first time only, then positions, shows and binds it. */
    method ShowHoverButton(a: Anchor)
      requires Valid()
      modifies this
      ensures Valid()
      ensures hoverButton == Some(ButtonAt(a))
      ensures buttonsCreated == 1
      ensures tooltip == old(tooltip) && hideTimerArmed == old(hideTimerArmed) && clickListeners == old(clickListeners)
      ensures pending == old(pending) && nextLookup == old(nextLookup) && tooltipsAttached == old(tooltipsAttached)
    {
      if hoverButton.None? {
        buttonsCreated := buttonsCreated + 1;
      }
      hoverButton := Some(HoverButton(true, Round(a.x - ButtonHalfWidth), Round(a.y - ButtonOffsetY - ButtonHeight), a.word, a.x, a.y));
    }

    /** `hideHoverButton`: sets `display: none` on an existing button; does nothing before the button exists. */
    method HideHoverButton()
      requires Valid()
      modifies this
      ensures Valid()
      ensures hoverButton == if old(hoverButton).Some? then Some(old(hoverButton).value.(visible := false)) else None
      ensures buttonsCreated == old(buttonsCreated)
      ensures tooltip == old(tooltip) && hideTimerArmed == old(hideTimerArmed) && clickListeners == old(clickListeners)
      ensures pending == old(pending) && nextLookup == old(nextLookup) && tooltipsAttached == old(tooltipsAttached)
    {
      if hoverButton.Some? {
        hoverButton := Some(hoverButton.value.(visible := false));
      }
    }

    /** `removeTooltip`: detaches the tooltip, if any, and clears `tooltipEl`. */
    method RemoveTooltip()
      requires Valid()
      modifies this
      ensures Valid()
      ensures tooltip == None && tooltipsAttached == 0
      ensures hoverButton == old(hoverButton) && hideTimerArmed == old(hideTimerArmed) && clickListeners == old(clickListeners)
      ensures pending == old(pending) && nextLookup == old(nextLookup) && buttonsCreated == old(buttonsCreated)
    {
      if tooltip.Some? {
        tooltipsAttached := tooltipsAttached - 1;
      }
      tooltip := None;
    }

    /** `onMouseUpSelection`: shows the button above a single-word selection, hides it otherwise. */
    method OnMouseUp(sel: Option<Selection>, scrollX: real, scrollY: real)
      requires Valid()
      modifies this
      ensures Valid()
      ensures HoverTarget(sel, scrollX, scrollY).Some? ==> hoverButton == Some(ButtonAt(HoverTarget(sel, scrollX, scrollY).value))
      ensures HoverTarget(sel, scrollX, scrollY).None? ==>
        hoverButton == if old(hoverButton).Some? then Some(old(hoverButton).value.(visible := false)) else None
      ensures buttonsCreated <= 1
      ensures tooltip == old(tooltip) && hideTimerArmed == old(hideTimerArmed) && clickListeners == old(clickListeners)
      ensures pending == old(pending) && nextLookup == old(nextLookup)
    {
      var target := HoverTarget(sel, scrollX, scrollY);
      if target.None? {
        HideHoverButton();
      } else {
        ShowHoverButton(target.value);
      }
    }

    /** `onSelectionChange`: cancels the pending hide and arms a new one, `HideDelayMs` later. */
    method OnSelectionChange()
      requires Valid()
      modifies this
      ensures Valid()
      ensures hideTimerArmed
      ensures hoverButton == old(hoverButton) && tooltip == old(tooltip) && clickListeners == old(clickListeners)
      ensures pending == old(pending) && nextLookup == old(nextLookup) && buttonsCreated == old(buttonsCreated)
    {
      hideTimerArmed := true;
    }

    /** The debounced hide fires. */
    method OnHideTimer()
      requires Valid() && hideTimerArmed
      modifies this
      ensures Valid()
      ensures !hideTimerArmed
      ensures hoverButton == if old(hoverButton).Some? then Some(old(hoverButton).value.(visible := false)) else None
      ensures tooltip == old(tooltip) && clickListeners == old(clickListeners)
      ensures pending == old(pending) && nextLookup == old(nextLookup) && buttonsCreated == old(buttonsCreated)
    {
      hideTimerArmed := false;
      HideHoverButton();
    }

    /** A window scroll only hides the button. */
    method OnScroll()
      requires Valid()
      modifies this
      ensures Valid()
      ensures hoverButton == if old(hoverButton).Some? then Some(old(hoverButton).value.(visible := false)) else None
      ensures tooltip == old(tooltip) && hideTimerArmed == old(hideTimerArmed) && clickListeners == old(clickListeners)
      ensures pending == old(pending) && nextLookup == old(nextLookup) && buttonsCreated == old(buttonsCreated)
    {
      HideHoverButton();
    }

    /** The document keydown listener: Escape removes the tooltip and hides the button; other keys do nothing. */
    method OnKeyDown(key: string)
      requires Valid()
      modifies this
      ensures Valid()
      ensures key == "Escape" ==> (tooltip == None &&
        hoverButton == if old(hoverButton).Some? then Some(old(hoverButton).value.(visible := false)) else None)
      ensures key != "Escape" ==> tooltip == old(tooltip) && hoverButton == old(hoverButton)
      ensures hideTimerArmed == old(hideTimerArmed) && clickListeners == old(clickListeners)
      ensures pending == old(pending) && nextLookup == old(nextLookup) && buttonsCreated == old(buttonsCreated)
    {
      if key == "Escape" {
        RemoveTooltip();
        HideHoverButton();
      }
    }

    /**
     * `showTooltip` up to its `await`: the previous tooltip is removed first,
     * then a new one is placed and shows the loading message; returns the
     * id of the lookup now in flight.
     */
    method ShowTooltip(word: string, x: real, y: real, vp: Viewport) returns (id: nat)
      requires Valid()
      modifies this
      ensures Valid()
      ensures id == old(nextLookup) && id !in old(pending)
      ensures var p := TooltipPlacement(x, y, vp);
        tooltip == Some(Tooltip(id, p.left, p.top, Looking(EscapeHtml(word)), false))
      ensures tooltipsAttached == 1
      ensures pending == old(pending)[id := word] && nextLookup == old(nextLookup) + 1
      ensures hoverButton == old(hoverButton) && hideTimerArmed == old(hideTimerArmed) && clickListeners == old(clickListeners)
      ensures buttonsCreated == old(buttonsCreated)
    {
      RemoveTooltip();
      var p := TooltipPlacement(x, y, vp);
      id := nextLookup;
      tooltip := Some(Tooltip(id, p.left, p.top, Looking(EscapeHtml(word)), false));
      tooltipsAttached := tooltipsAttached + 1;
      pending := pending[id := word];
      nextLookup := nextLookup + 1;
    }

    /** A click on the (visible) hover button looks up the word and anchor it was bound to. */
    method OnHoverButtonClick(vp: Viewport) returns (id: nat)
      requires Valid() && hoverButton.Some? && hoverButton.value.visible
      modifies this
      ensures Valid()
      ensures var b := old(hoverButton).value; var p := TooltipPlacement(b.x, b.y, vp);
        tooltip == Some(Tooltip(id, p.left, p.top, Looking(EscapeHtml(b.word)), false))
        && pending == old(pending)[id := b.word]
      ensures id == old(nextLookup) && nextLookup == old(nextLookup) + 1
      ensures hoverButton == old(hoverButton) && hideTimerArmed == old(hideTimerArmed) && clickListeners == old(clickListeners)
    {
      var b := hoverButton.value;
      id := ShowTooltip(b.word, b.x, b.y, vp);
    }

    /**
     * `showTooltip` after its `await`. The content element created by this
     * lookup receives the rendered parts or the "No definition found"
     * message; class `show` then goes to whatever `tooltipEl` is now, and the
     * outside-click listener is registered. When `tooltipEl` has meanwhile
     * become null, `classList.add` throws in both branches and nothing visible
     * changes.
     */
    method OnLookupSettled(id: nat, outcome: FetchOutcome)
      requires Valid() && id in pending
      modifies this
      ensures Valid()
      ensures pending == old(pending) - {id}
      ensures var body := SettledBody(old(pending)[id], outcome);
        tooltip == match old(tooltip)
          case None => None
          case Some(t) => Some(if t.id == id then t.(body := body, shown := true) else t.(shown := true))
      ensures clickListeners == if old(tooltip).Some? then old(clickListeners) + 1 else old(clickListeners)
      ensures hoverButton == old(hoverButton) && hideTimerArmed == old(hideTimerArmed)
      ensures nextLookup == old(nextLookup) && buttonsCreated == old(buttonsCreated)
    {
      var word := pending[id];
      pending := pending - {id};
      var body: Body;
      var data := Payload(outcome);
      if data.Some? {
        var parts := RenderParts(data.value);
        body := Rendered(parts);
      } else {
        body := NoDefinition(EscapeHtml(word));
      }
      if tooltip.Some? {
        var t := tooltip.value;
        if t.id == id {
          tooltip := Some(t.(body := body, shown := true));
        } else {
          tooltip := Some(t.(shown := true));
        }
        clickListeners := clickListeners + 1;
      }
    }

    /**
     * A document click, seen by every registered `onDocClick`. A click in the
     * tooltip or the hover button changes nothing; any other click, while a
     * tooltip exists, makes the first listener remove the tooltip and itself;
     * the remaining listeners then find `tooltipEl` null and stay.
     */
    method OnDocumentClick(target: ClickTarget)
      requires Valid()
      modifies this
      ensures Valid()
      ensures var inside := target == InTooltip || (target == InHoverButton && old(hoverButton).Some?);
        if old(clickListeners) > 0 && old(tooltip).Some? && !inside
        then tooltip == None && clickListeners == old(clickListeners) - 1
        else tooltip == old(tooltip) && clickListeners == old(clickListeners)
      ensures hoverButton == old(hoverButton) && hideTimerArmed == old(hideTimerArmed)
      ensures pending == old(pending) && nextLookup == old(nextLookup) && buttonsCreated == old(buttonsCreated)
    {
      var inside := target == InTooltip || (target == InHoverButton && hoverButton.Some?);
      if clickListeners > 0 && tooltip.Some? && !inside {
        RemoveTooltip();
        clickListeners := clickListeners - 1;
      }
    }
  }
}
