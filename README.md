# SuperBook dictionary extension — a Dafny model

SuperBook is a browser extension that helps you look up a word.

- **Content script.** Select a single word on a page and a small hover button appears above it. Clicking the button opens a tooltip. The tooltip shows the word, its pronunciation, part of speech, first definition and example, as given by the free dictionary API.
- **Popup.** The popup is a small "terminal". A word typed and sent with Enter prints its full entry: every meaning, up to three numbered senses each, examples and up to five synonyms. A failed lookup prints an error line instead. The popup also shows whether the extension is on, and a button toggles it.
- **Background and settings.** A background service worker keeps three settings in synced storage: `enabled`, `autoHide` and `hideDelay`. It answers `getSettings`, toggles `enabled` from the toolbar icon and from `toggleExtension` messages, broadcasts the new state to all tabs, and keeps the toolbar title and icon in step. An older background script with a simpler toggle is modelled too.
- **React component.** A React `DictionaryTooltip` component renders a definition record with loading and error states. It closes on an outside click, on Escape, or after 5 seconds.
- **Validation.** A small utility validates e-mail addresses.

## Modules

| module | models |
|---|---|
| `Wrappers` | `Option`, for values JavaScript leaves `undefined` |
| `JsText` | JavaScript's white space, `trim`, `split(/\s+/)`, ASCII `toUpperCase`, `slice(0, n)`, `join`, `a \|\| b` on strings |
| `DictionaryApi` | the JSON shape of an API entry (every field optional) and the outcome of one fetch |
| `Html` | `escapeHtml` of the content script |
| `ContentScript` | `public/content/content.js` |
| `DictionaryTooltip` | `src/components/DictionaryTooltip.tsx` |
| `Popup` | `public/popupp1.js` |
| `Validation` | `src/utils/validation.ts` |
| `Settings` | the storage record, the `!== false`, `!x` and `\|\| 5000` readings, and the runtime messages, which both background scripts share |
| `Background` | `public/background/background.js` |
| `LegacyBackground` | `public/background.js` |

### How the event-driven code is modelled

Browser events are methods of a class that holds the script's state:

- `ContentScript.Page` for the content script;
- `DictionaryTooltip.Tooltip` for one mounted component;
- `Popup.Terminal` for the popup;
- `Background.Worker` and `LegacyBackground.Worker` for the background scripts.

An `await` on the network splits an operation into two methods. The first method records a pending lookup. The second takes the outcome of the fetch as an input and may be called after any other events. Examples are `Page.ShowTooltip` with `Page.OnLookupSettled`, and `Terminal.BeginLookup` with `Terminal.FinishLookup`.

The browser's data are parameters. This covers what storage holds, the open tabs, whether `setIcon` succeeded, the selection and the viewport.

A JavaScript field that may be missing is an `Option`. Truthiness of a string means present and non-empty.

Where a renderer reads a missing field and throws a `TypeError`, the model keeps the lines appended before the throw (`Popup.Rendered`). The `catch` block's output follows them.

### Where the code and its documentation differ

The model follows the code:

- The content script never reads the `enabled` setting. It shows the button for any single-word selection, including one in an editable field, and has no minimum word length.
- The content script's lookup has no timeout and no retry.
- On scroll, the content script only hides the hover button; the tooltip stays where it is.
- A document click is seen by every outside-click listener ever registered. Only the first one that finds a tooltip removes it; the others stay registered.
- A lookup that settles after a newer one has started still adds class `show`, and an outside-click listener, to the tooltip that now exists.
- A toggle from the popup and from the legacy icon writes `!stored`, so an absent flag (which reads as on) is written as `true`. The first toggle from empty storage therefore leaves the extension on (`Popup.ToggleChangesStatus`, `LegacyBackground.ClickTwice`).
- In the service worker, a storage change that removes `enabled` is shown with the disabled title, while `getSettings` reports an absent flag as enabled (`Background.RemovalShowsDisabled`).
- In the component, a successful fetch does not clear an `error` set by an earlier failed one. A word change clears it before the next fetch starts.

## Model

| member | source | states |
|---|---|---|
| JsText.Trim | public/popupp1.js:71 | the result is the infix of the input left once its leading and trailing white space is removed: everything before it and after it is white space, and it neither starts nor ends with white space |
| JsText.TrimEmptyIffAllSpace | public/content/content.js:37-38 | trimming gives the empty string exactly when the text is all white space; a text without white space is unchanged |
| JsText.Split | public/content/content.js:38 | splitting on `/\s+/` gives at least one field, and no field holds white space |
| JsText.SplitSingleIffNoSpace | public/content/content.js:38 | the split has exactly one field exactly when the text holds no white space |
| JsText.ToUpper | public/popupp1.js:124 | the length is kept and each character is upper-cased on its own |
| JsText.Take | public/popupp1.js:146 | `slice(0, n)` keeps min(n, length) elements, each equal to the original at its index |
| JsText.DigitText | public/popupp1.js:149 | the sense number is rendered as the one decimal digit of its value |
| JsText.Or | public/content/content.js:141 | `a \|\| b` is truthy exactly when one of them is, and it is `a` when `a` is truthy |
| JsText.Join | public/popupp1.js:170 | `join` of no element is "", of one element is that element, and of n elements is as long as the elements plus n-1 separators |
| JsText.JoinConcat | public/popupp1.js:170 | joining two non-empty lists is joining each with one separator between them |
| DictionaryApi.Payload | public/content/content.js:129-133 | a parsed body is available exactly when the response is OK and its body parsed |
| DictionaryApi.First | public/content/content.js:135-136 | `xs && xs[0]` exists exactly when the array is present and non-empty, and it is the first element |
| Html.EscapeHtml | public/content/content.js:166-173 | the five global replacements in the source's order; its properties are stated by `EscapeHtmlIsEscapeEach`, `EscapeHtmlNoMarkup` and `UnescapeEscapeHtml` |
| Html.EscapeHtmlChar | public/content/content.js:166-173 | on one character, the chain yields that character's entity (or the character itself) |
| Html.EscapeHtmlConcat | public/content/content.js:166-173 | escaping distributes over concatenation |
| Html.EscapeHtmlIsEscapeEach | public/content/content.js:166-173 | because `&` is replaced first, the chain equals a one-pass escape: no entity is escaped twice |
| Html.EscapeHtmlNoMarkup | public/content/content.js:166-173 | escaped text holds none of `<`, `>`, `"`, `'` |
| Html.UnescapeEscapeHtml | public/content/content.js:166-173 | decoding the five entities gives back the original text, so no information is lost |
| ContentScript.Round | public/content/content.js:92-93 | `Math.round` gives the integer within half a pixel, with halves rounded up |
| ContentScript.HoverTarget | public/content/content.js:30-53 | the button is shown exactly for a non-collapsed selection whose trimmed text is one non-empty word and whose rectangle is not 0×0, at the rectangle's top midpoint in document coordinates |
| ContentScript.ButtonAt | public/content/content.js:86-98 | the button is visible at the rounded anchor minus (16, 10+32) and records the word and the unrounded anchor |
| ContentScript.TooltipPlacement | public/content/content.js:118-119 | the tooltip's left edge is anchor.x+8 capped at scrollX+clientWidth−320, and its top is anchor.y−8 floored at scrollY+8 |
| ContentScript.Pronunciation | public/content/content.js:140-142 | the pronunciation is shown exactly when `phonetic` or the text of `phonetics[0]` is truthy, and `phonetic` takes precedence |
| ContentScript.PartIf | public/content/content.js:139-146 | a part is pushed exactly when its field is truthy, holding the field escaped |
| ContentScript.PronunciationParts | public/content/content.js:140-143 | the guarded `ph` computation pushes the same part as the pronunciation reading |
| ContentScript.RenderParts | public/content/content.js:134-148 | the pushes of the success branch build exactly the parts of the first entry, meaning and sense |
| ContentScript.EntryParts | public/content/content.js:134-148 | the tooltip body of a parsed response; `EntryPartsOrdered` and `EntryPartsFields` state its order and its contents |
| ContentScript.EntryPartsOrdered | public/content/content.js:138-148 | at most five parts, in strictly increasing order word, pronunciation, part of speech, definition, example |
| ContentScript.EntryPartsFields | public/content/content.js:134-146 | a part of each kind appears exactly when its field is truthy, and it shows that field escaped |
| ContentScript.EmptyResponseRendersNothing | public/content/content.js:134-136 | an empty array reads as empty objects and renders no part |
| ContentScript.SettledBody | public/content/content.js:128-153 | the content is "No definition found" (with the word escaped) exactly when the request failed, and otherwise the rendered parts |
| ContentScript.Page.constructor | public/content/content.js:10-20 | at start-up there is no button, no tooltip, no timer and no click listener |
| ContentScript.Page.ShowHoverButton | public/content/content.js:86-98 | the button is created once only, then positioned, shown and bound to the word and anchor; nothing else changes |
| ContentScript.Page.HideHoverButton | public/content/content.js:100-104 | an existing button becomes hidden and keeps its data; before one exists nothing changes |
| ContentScript.Page.RemoveTooltip | public/content/content.js:106-111 | the tooltip is detached and `tooltipEl` cleared |
| ContentScript.Page.OnMouseUp | public/content/content.js:30-53 | the button is shown at `HoverTarget` when there is one, and hidden otherwise |
| ContentScript.Page.OnSelectionChange | public/content/content.js:22-28 | the pending hide is replaced by a new one; nothing is hidden yet |
| ContentScript.Page.OnHideTimer | public/content/content.js:25-27 | the debounced hide hides the button |
| ContentScript.Page.OnScroll | public/content/content.js:13 | a scroll hides the button and leaves the tooltip in place |
| ContentScript.Page.OnKeyDown | public/content/content.js:14-19 | Escape removes the tooltip and hides the button; other keys change nothing |
| ContentScript.Page.ShowTooltip | public/content/content.js:113-126 | the previous tooltip is removed, and the one tooltip now attached shows the escaped loading message at `TooltipPlacement`; a new lookup is pending |
| ContentScript.Page.OnHoverButtonClick | public/content/content.js:75-80 | the click looks up the word and anchor the button was bound to |
| ContentScript.Page.OnLookupSettled | public/content/content.js:128-163 | the lookup's own tooltip gets its settled body; whichever tooltip exists gets `show` and one more click listener; with no tooltip nothing visible changes |
| ContentScript.Page.OnDocumentClick | public/content/content.js:156-162 | a click outside the tooltip and button removes the tooltip and one listener; an inside click or no tooltip changes nothing |
| DictionaryTooltip.PhoneticOf | src/components/DictionaryTooltip.tsx:44 | the phonetic is non-empty exactly when `phonetic` or `phonetics[0].text` is truthy, and `phonetic` takes precedence |
| DictionaryTooltip.Normalize | src/components/DictionaryTooltip.tsx:37-48 | there is no record exactly when the array is empty (reading `entry.meanings` throws); the word and phonetic come from `data[0]`; the definition is never empty and the example is never `""` |
| DictionaryTooltip.FetchDefinition | src/components/DictionaryTooltip.tsx:29-48 | a record results exactly when the response is OK, parses, and is a non-empty array |
| DictionaryTooltip.NormalizeAgreesWithContentScript | src/components/DictionaryTooltip.tsx:38-48 | the record reads the same first entry, meaning and sense as the content script: the same pronunciation, part of speech, definition and example, with `''` and "No definition available" where the content script shows nothing |
| DictionaryTooltip.Position | src/components/DictionaryTooltip.tsx:93-94 | x is capped at innerWidth−320 and y−10 is floored at 10 |
| DictionaryTooltip.View | src/components/DictionaryTooltip.tsx:97-138 | what the component renders for its state; `ViewContents` and `BlockContents` count each kind of piece |
| DictionaryTooltip.ViewContents | src/components/DictionaryTooltip.tsx:97-138 | the spinner and the error each render exactly when their flag is set; a record renders its word and definition once, and its phonetic, part of speech and example exactly when non-empty |
| DictionaryTooltip.BlockContents | src/components/DictionaryTooltip.tsx:110-138 | the count of each kind of piece in the definition block |
| DictionaryTooltip.Tooltip.Mount | src/components/DictionaryTooltip.tsx:19-21 | a mounted tooltip starts loading with no error and no record; one fetch, both listeners and the timer are started |
| DictionaryTooltip.Tooltip.ChangeWord | src/components/DictionaryTooltip.tsx:23-27 | a new word restarts loading, clears the error, keeps the old record and leaves the timer alone |
| DictionaryTooltip.Tooltip.ChangeOnClose | src/components/DictionaryTooltip.tsx:59-83 | a new `onClose` re-registers the listeners and re-arms the timer |
| DictionaryTooltip.Tooltip.ChangePosition | src/components/DictionaryTooltip.tsx:92-95 | a new position only moves the tooltip |
| DictionaryTooltip.Tooltip.FetchSettled | src/components/DictionaryTooltip.tsx:29-53 | while mounted: success stores the record, failure sets `error` and keeps the previous record, and both clear `loading`; after unmounting nothing changes |
| DictionaryTooltip.Tooltip.Click | src/components/DictionaryTooltip.tsx:60-65 | `onClose` is called once for a click outside the tooltip while listening |
| DictionaryTooltip.Tooltip.KeyDown | src/components/DictionaryTooltip.tsx:67-71 | `onClose` is called once for Escape while listening |
| DictionaryTooltip.Tooltip.TimerFires | src/components/DictionaryTooltip.tsx:76 | the timer calls `onClose` once, whatever the lookup's state |
| DictionaryTooltip.Tooltip.Unmount | src/components/DictionaryTooltip.tsx:78-82 | the cleanup removes both listeners and clears the timer |
| Popup.PhoneticLines | public/popupp1.js:128-135 | a phonetic line appears exactly when `phonetic` is truthy or `phonetics[0]` exists |
| Popup.WithoutLoading | public/popupp1.js:103 | removing the loading line keeps only lines of the buffer, and none of that lookup's loading line; `WithoutLoadingOne` shows the other lines stay, in order |
| Popup.SynonymLines | public/popupp1.js:161-172 | the label and the first five synonyms joined by ", ", only for a present, non-empty list; `MeaningLinesCounts` counts them |
| Popup.MeaningLines | public/popupp1.js:139-180 | one iteration of the meanings loop; `MeaningLinesStart`, `MeaningLinesSenses` and `MeaningLinesExamples` state its order, `MeaningLinesKinds` and `MeaningLinesCounts` what it holds |
| Popup.MeaningLinesStart | public/popupp1.js:140-143 | a meaning with a part of speech starts with its upper-cased `[POS]` line |
| Popup.MeaningLinesSenses | public/popupp1.js:145-159 | after the `[POS]` line a complete meaning lists its first three senses in order, each numbered definition followed by its own example when it has one |
| Popup.MeaningLinesExamples | public/popupp1.js:152-158 | in a meaning's lines, thrown or not, every example line comes right after a definition line |
| Popup.EntryLines | public/popupp1.js:120-188 | `displayDefinition(data[0])`; `EntryComplete`, `EntryTitleFirst`, `EntryCounts` and `EntryLinesKinds` state what it appends |
| Popup.LookupLines | public/popupp1.js:95-114 | what a settled lookup appends; `LookupOutcome` states it case by case |
| Popup.SenseLinesKinds | public/popupp1.js:147-158 | one sense gives one definition line and an example line exactly when the example is truthy |
| Popup.SensesUpToCounts | public/popupp1.js:146-159 | k senses give exactly k definition lines, one example line per sense with a truthy example, and nothing else |
| Popup.SensesUpToPrefix | public/popupp1.js:146-159 | rendering more senses only appends: the lines of the first i senses begin those of the first k |
| Popup.SensesUpToLayout | public/popupp1.js:146-159 | sense i starts right after the senses before it, with its definition line numbered i+1 (with "undefined" for a missing definition), then its own example exactly when that is truthy |
| Popup.SensesUpToExamples | public/popupp1.js:152-158 | every example line comes right after a definition line |
| Popup.SensesUpToInOrder | public/popupp1.js:146-159 | all the rendered senses are laid out in order as `SensesUpToLayout` gives |
| Popup.MeaningsUpToSticky | public/popupp1.js:138 | once a meaning throws, no later meaning is rendered |
| Popup.MeaningsUpToComplete | public/popupp1.js:138-181 | the meanings render in full exactly when each has a part of speech and a definitions array |
| Popup.MeaningLinesKinds | public/popupp1.js:139-180 | every line of a meaning, thrown or not, is a `[POS]`, sense, synonyms or spacer line |
| Popup.MeaningLinesCounts | public/popupp1.js:139-180 | a rendered meaning has one `[POS]` line, at most three definition lines, a spacer unless it is the last, and one synonym label and one synonym list exactly when its synonym list is present and non-empty |
| Popup.MeaningsUpToCounts | public/popupp1.js:138-181 | k rendered meanings give k `[POS]` lines, at most 3k definition lines, and a spacer after each but the last meaning of the entry |
| Popup.EntryComplete | public/popupp1.js:120-188 | an entry renders in full exactly when it has a word and meanings, and every meaning has a part of speech and definitions |
| Popup.EntryTitleFirst | public/popupp1.js:122-125 | something is appended exactly when the entry exists and has a word, and the first line is the upper-cased title |
| Popup.EntryCounts | public/popupp1.js:120-188 | a full rendering has one title, at most one phonetic line, one `[POS]` line per meaning, at most 3 definition lines per meaning, max(1, n) spacers, and ends with a spacer |
| Popup.EntryLinesKinds | public/popupp1.js:120-188 | the renderer appends only title, phonetic, `[POS]`, sense, synonym and spacer lines |
| Popup.LookupOutcome | public/popupp1.js:95-114 | a failed request, non-OK status, unparsable body or empty array appends exactly the error line and a spacer; otherwise the entry's lines come first, followed by the error lines exactly when rendering threw; at most one error line and never a loading line |
| Popup.WithoutLoadingCounts | public/popupp1.js:103 | removing the loading line keeps every other kind of line and leaves none of that loading line |
| Popup.WithoutLoadingNone | public/popupp1.js:103 | a buffer without that lookup's loading line is left exactly as it is |
| Popup.WithoutLoadingConcat | public/popupp1.js:103 | removal distributes over concatenation, so what stays keeps its order |
| Popup.WithoutLoadingOne | public/popupp1.js:103 | a buffer holding the lookup's loading line once loses exactly that line, and the lines before and after it stay in order |
| Popup.PhoneticAgreesWithContentScript | public/popupp1.js:128-135 | the popup's phonetic text is the content script's pronunciation; it prints an empty "🔊 " line where the content script shows none |
| Popup.StatusFor | public/popupp1.js:9-24 | the classes and texts `updateExtensionStatus` writes; `StatusShowsFlag` states how they follow the flag |
| Popup.StatusShowsFlag | public/popupp1.js:9-24 | the status reads "online" exactly when the stored flag is not `false`, and the two views differ in every element |
| Popup.ToggleRequest | public/popupp1.js:34-38 | the toggle asks the background script to turn the extension on exactly when the stored flag was not `true` |
| Popup.ToggleChangesStatus | public/popupp1.js:30-47 | a toggle changes the status shown exactly when a flag was stored before it |
| Popup.RefreshAfterToggle | public/popupp1.js:40-44 | the status is refreshed only for a response reporting success |
| Popup.Terminal.UpdateStatus | public/popupp1.js:9-24 | the status view is the one for the flag read with `!== false`; nothing else changes |
| Popup.Terminal.ToggleAnswered | public/popupp1.js:40-44 | on `{success: true}` the status shows the flag storage holds, and for any other answer it stays as it was |
| Popup.Terminal.StorageChanged | public/popupp1.js:50-54 | a sync-area change carrying `enabled` makes the status show the stored flag, and any other change leaves it as it was |
| Popup.Terminal.BeginLookup | public/popupp1.js:82-93 | the command line and this lookup's loading line are appended; the lookup is pending |
| Popup.Terminal.KeyDown | public/popupp1.js:69-79 | Enter looks up the trimmed input exactly when it is not blank, then clears the input; Escape clears the input; otherwise nothing changes |
| Popup.Terminal.DisplayError | public/popupp1.js:190-200 | the error line naming the word and a spacer are appended |
| Popup.Terminal.DisplaySenses | public/popupp1.js:146-159 | the inner loop appends exactly the lines of the first three senses |
| Popup.Terminal.DisplayMeaning | public/popupp1.js:139-180 | one iteration appends the meaning's lines and reports whether it threw |
| Popup.Terminal.DisplayMeanings | public/popupp1.js:138-181 | the outer loop appends the meanings' lines up to the first that throws |
| Popup.Terminal.DisplayDefinition | public/popupp1.js:120-188 | `displayDefinition` appends `EntryLines`, keeping what it appended before a throw |
| Popup.Terminal.FinishLookup | public/popupp1.js:95-117 | the lookup's loading line is removed and `LookupLines` appended; the lookup is no longer pending |
| Popup.Terminal.ClearOutput | public/popupp1.js:202-212 | the buffer becomes "Terminal cleared." and a spacer |
| Validation.IsValidEmail | src/utils/validation.ts:6-12 | `isValidEmail`; `IsValidEmailMatchesPattern` proves it accepts exactly what the regular expression matches |
| Validation.FirstAt | src/utils/validation.ts:10 | the first `@` at or after k, or the length |
| Validation.IsValidEmailMatchesPattern | src/utils/validation.ts:6-12 | the check accepts exactly the strings `^[^\s@]+@[^\s@]+\.[^\s@]+$` matches, read as positions of the `@` and a `.` |
| Validation.AcceptsParts | src/utils/validation.ts:10-11 | any non-empty name, `@`, host, `.`, top-level part, each without white space or `@`, is accepted |
| Validation.AcceptedShape | src/utils/validation.ts:10-11 | an accepted address has exactly one `@` and no white space |
| Validation.RejectsWithoutAt | src/utils/validation.ts:10-11 | a string without `@` is rejected |
| Validation.AcceptsTestAddress | src/utils/validation.test.ts:9-15 | "test@example.com" is accepted |
| Validation.RejectsTestInputs | src/utils/validation.test.ts:17-29 | "not-an-email" and the empty string are rejected |
| Settings.IsOn | public/background/background.js:135-136 | `stored !== false` is on exactly unless the flag is stored as `false` |
| Settings.Negate | public/background.js:26 | `!stored` is true exactly unless the flag is stored as `true` |
| Settings.DelayOr | public/background/background.js:137 | `stored \|\| 5000` is never 0; it is 5000 for an absent or 0 delay, and the stored delay otherwise |
| Settings.Normalize | public/background/background.js:133-138 | the `getSettings` answer: each flag on unless stored `false`, the delay defaulted to 5000 when absent or 0 |
| Settings.NormalizeDefaults | public/background/background.js:14-18 | empty storage and the install defaults read the same, and normalising is idempotent |
| Settings.StoreRoundTrip | public/background/background.js:133-138 | a configuration written back reads as itself exactly when its delay is not 0 |
| Settings.IsOnToggleTwice | public/background/background.js:100-107 | writing `!(stored !== false)` flips the reading, and two writes restore it |
| Settings.NegateToggle | public/background.js:25-27 | writing `!stored` flips a stored flag but leaves an absent one reading on, and two writes from absent do not restore the reading |
| Background.Title | public/background/background.js:39-42 | the title `updateTitle` sets; `TitleByFlag` states how it follows the flag |
| Background.Icons | public/background/background.js:53-66 | the path map `setExtensionIcon` requests; `IconsByFlag` states how it follows the flag |
| Background.TitleByFlag | public/background/background.js:39-42 | the title is chosen by the flag alone, and the two titles differ |
| Background.IconsByFlag | public/background/background.js:53-66 | the icon paths are chosen by the flag alone, and the two sets differ at every size |
| Background.Broadcast | public/background/background.js:161-172 | the broadcast sends at most one message per tab, each carrying the new state to a non-zero id |
| Background.BroadcastCounts | public/background/background.js:161-172 | each non-zero id is sent one message per tab carrying it; id 0 is never sent to |
| Background.BroadcastReachesEachTabOnce | public/background/background.js:161-172 | with distinct ids, every tab with a truthy id gets exactly one message, and it carries the new state |
| Background.Clicked | public/background/background.js:100-107 | an icon click flips the flag as read and leaves the other settings alone |
| Background.ClickTwice | public/background/background.js:100-107 | two clicks restore a stored flag exactly; an absent one comes back as `true`, which reads the same |
| Background.ChangedFlag | public/background/background.js:183-188 | a storage change shows enabled exactly when its new value is `true` |
| Background.RemovalShowsDisabled | public/background/background.js:182-190 | removing `enabled` shows the disabled title, though `getSettings` reads the absent flag as enabled |
| Background.Worker.UpdateTitle | public/background/background.js:39-47 | the title for the flag is set; nothing else changes |
| Background.Worker.SetExtensionIcon | public/background/background.js:50-94 | the result is whether the browser accepted the paths, whatever the flag, and only an accepted request changes the icon |
| Background.Worker.InitializeState | public/background/background.js:28-36 | the title follows the stored flag and the icon is untouched |
| Background.Worker.OnInstalled | public/background/background.js:9-25 | only an install writes the defaults; the title then follows the stored flag |
| Background.Worker.OnIconClicked | public/background/background.js:97-125 | the flag as read is flipped and stored, title and icon follow it, and a tab with a truthy id is sent the new state |
| Background.Worker.OnGetSettings | public/background/background.js:130-145 | the answer is the stored settings with their defaults filled in |
| Background.Worker.OnToggleMessage | public/background/background.js:147-177 | the requested flag is stored verbatim, title and icon follow it, exactly `Broadcast` is sent, and the answer is `{success: true}` |
| Background.Worker.OnMessage | public/background/background.js:128-179 | `getSettings` is answered and changes nothing; `toggleExtension` stores the flag, sets title and icon from it, broadcasts it and answers success; any other action gets no answer and changes nothing |
| Background.Worker.OnStorageChanged | public/background/background.js:182-190 | a sync-area change of `enabled` updates title and icon from its new value; anything else changes nothing |
| Background.Worker.OnStartup | public/background/background.js:193-211 | title and icon follow the stored flag, and the result is whether the icon was accepted |
| LegacyBackground.Icons | public/background.js:44-52 | the path map `updateIcon` requests; `PresentationByFlag` states how it follows the flag |
| LegacyBackground.Title | public/background.js:55-57 | the title `updateIcon` sets; `PresentationByFlag` states how it follows the flag |
| LegacyBackground.PresentationByFlag | public/background.js:43-58 | the path map and title are chosen by the flag alone, and the two states differ in both |
| LegacyBackground.Clicked | public/background.js:25-27 | a click stores `!stored`, so an absent flag becomes `true`, and leaves the other settings alone |
| LegacyBackground.ClickTwice | public/background.js:23-40 | two clicks restore a stored flag; from empty storage the first click still reads as on and the second turns it off |
| LegacyBackground.Worker.UpdateIcon | public/background.js:43-58 | the path map (when accepted) and the title for the flag are set |
| LegacyBackground.Worker.OnInstalled | public/background.js:7-20 | an install writes the defaults; an update or any other reason writes nothing |
| LegacyBackground.Worker.OnIconClicked | public/background.js:23-40 | `!stored` is stored and shown, and the tab is sent it whenever it has an id, 0 included |
| LegacyBackground.Worker.OnMessage | public/background.js:61-72 | only `getSettings` is answered, with the defaults filled in; nothing changes |
| LegacyBackground.Worker.OnStartup | public/background.js:75-77 | icon and title follow the flag read with `!== false` |

## Left out

- Network, storage, tabs and action APIs: their results are inputs. These include the fetch outcome, the stored values, the open tabs, and whether `setIcon` succeeded. The legacy script's `setIcon` has no callback; its outcome is an input all the same.
- Background.Worker.UpdateTitle: the failure path of `setTitle` is not modelled, because the source only logs a warning when it fails.
- The request URL, `encodeURIComponent` and `toLowerCase`: they only build the address of the request, which is not modelled.
- JsText.ToUpper: upper-cases ASCII letters only, because Unicode case mapping is not available in Dafny.
- Popup.SenseLines and JsText.DigitText: sense numbers are rendered as one decimal digit. This is enough because at most three senses are ever printed.
- The response body: it is a list of entries whose fields are optional strings or arrays. A field of another JSON type (a number where a string is expected, say) is not modelled.
- `isValidEmail` called with a non-string: the typed signature and the model accept strings only.
- The `toggleExtension` message's `enabled` is modelled as a boolean, as the popup sends it.
- DOM construction is modelled as records and line lists. This covers `createElement`, `innerHTML`, class names, styles and `dataset` string conversion, focus and cursor handling, the terminal click-to-focus, and `scrollTop`.
- Timers are run as explicit events: the 120 ms debounce, the 5000 ms auto-close, and the scroll listener's passive option. Their durations appear as constants only.
- Popup.Terminal.FinishLookup: the two awaits of `lookupWord`, on the response and on `response.json()`, are merged into one settle step. Other lookups may append lines between the two awaits. The merge only delays the removal of this lookup's loading line, and the buffer after the settle step is the same, because `WithoutLoading` removes that line wherever it sits (`WithoutLoadingOne`).
- Popup.Terminal.ClearOutput: `clearOutput` is modelled, but no code in the popup calls it.
- The service worker's storage callbacks run as part of the event that requested them. The order of a `set` and a later `get` is taken to be the order they were issued.
- The content script's `mousedown` `preventDefault` on the hover button affects the browser's selection only.
- Console logging.
- Coordinates are real numbers; `Math.round` is modelled exactly, and IEEE rounding is not.
