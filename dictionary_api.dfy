/**
 * The JSON shape returned by the dictionary lookup endpoint
 * (`GET https://api.dictionaryapi.dev/api/v2/entries/en/<word>`), as the three
 * renderers read it, and the outcome of one request. Every property the code
 * reads may be absent, so each is optional; a present string may still be "".
 */
module DictionaryApi {
  import opened Wrappers

  /** One element of `phonetics`. */
  datatype Phonetic = Phonetic(text: Option<string>)

  /** One element of a meaning's `definitions`. */
  datatype Sense = Sense(definition: Option<string>, example: Option<string>)

  /** One element of an entry's `meanings`. */
  datatype Meaning = Meaning(
    partOfSpeech: Option<string>,
    definitions: Option<seq<Sense>>,
    synonyms: Option<seq<string>>)

  /** One element of the response array. */
  datatype Entry = Entry(
    word: Option<string>,
    phonetic: Option<string>,
    phonetics: Option<seq<Phonetic>>,
    meanings: Option<seq<Meaning>>)

  /**
   * What one `fetch` followed by `response.json()` yields: a transport failure
   * (the promise rejects), or a response with its `ok` flag and its parsed body
   * (None when the body is not valid JSON, so `json()` rejects).
   */
  datatype FetchOutcome =
    | NetworkFailure
    | Response(ok: bool, body: Option<seq<Entry>>)

  /** The parsed array when the response is OK and its body parsed; None on every failure path. */
  function Payload(outcome: FetchOutcome): (r: Option<seq<Entry>>)
    ensures r.Some? <==> outcome.Response? && outcome.ok && outcome.body.Some?
    ensures r.Some? ==> r.value == outcome.body.value
  {
    match outcome
    case NetworkFailure => None
    case Response(ok, body) => if ok then body else None
  }

  /** `{}`: the object `data[0] || {}` falls back to. */
  const EmptyEntry := Entry(None, None, None, None)

  /** `{}`: the object `meanings[0] || {}` falls back to. */
  const EmptyMeaning := Meaning(None, None, None)

  /** `{}`: the object `definitions[0] || {}` falls back to. */
  const EmptySense := Sense(None, None)

  /** `xs[0]`, absent when the array is absent or empty (`xs && xs[0]`, `xs?.[0]`). */
  function First<T>(xs: Option<seq<T>>): (r: Option<T>)
    ensures r.Some? <==> xs.Some? && |xs.value| > 0
    ensures r.Some? ==> r.value == xs.value[0]
  {
    if xs.Some? && |xs.value| > 0 then Some(xs.value[0]) else None
  }
}
