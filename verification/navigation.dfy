/**
 Choosing what to load: on page load (the `DOMContentLoaded` handler) from the
 `poem` query parameter, and on back/forward navigation (the `popstate`
 handler) from the `poemId` field of the history entry's state.
 */
module Navigation {
  import opened Wrappers

  /** Load one poem by its identifier, or load a random poem. */
  datatype Intent = ById(id: string) | Random

  /** A query string already decoded into its (name, value) pairs, in order. */
  type Query = seq<(string, string)>

  /** The state object stored with a history entry; `poemId` may be missing. */
  datatype HistoryState = HistoryState(poemId: Option<string>)

  /** The name of the query parameter that carries a poem identifier. */
  const PoemParam: string := "poem"

  /** Pair i is the first pair of q named `name`. */
  ghost predicate FirstNamed(q: Query, name: string, i: int)
  {
    0 <= i < |q| && q[i].0 == name && forall j :: 0 <= j < i ==> q[j].0 != name
  }

  /** Looking a parameter up in the query: the value of the first pair with that name,
      or nothing when no pair has it. */
  function QueryGet(q: Query, name: string): (r: Option<string>)
    ensures r.None? <==> forall i :: 0 <= i < |q| ==> q[i].0 != name
    ensures r.Some? ==> exists i :: FirstNamed(q, name, i) && q[i].1 == r.value
  {
    if |q| == 0 then None
    else if q[0].0 == name then
      assert FirstNamed(q, name, 0);
      Some(q[0].1)
    else
      FirstNamedShift(q, name);
      QueryGet(q[1..], name)
  }

  /** When the first pair does not carry the name, the first pair that does is
      found one place later than in the rest of the query. */
  lemma FirstNamedShift(q: Query, name: string)
    requires |q| > 0 && q[0].0 != name
    ensures forall i :: FirstNamed(q[1..], name, i) ==> FirstNamed(q, name, i + 1)
  {
  }

  /** JavaScript truthiness of an optional identifier: present and not empty. */
  predicate TruthyId(id: Option<string>)
  {
    id.Some? && id.value != ""
  }

  /** The branch both handlers take: load by the identifier when it is truthy,
      otherwise load a random poem. */
  function IntentFor(id: Option<string>): (r: Intent)
    ensures r.ById? <==> TruthyId(id)
    ensures r.ById? ==> r.id == id.value && r.id != ""
  {
    if TruthyId(id) then ById(id.value) else Random
  }

  /** The `DOMContentLoaded` handler: load by id exactly when the first `poem`
      parameter is present and non-empty; otherwise load a random poem. */
  function StartupIntent(q: Query): (r: Intent)
    ensures r.ById? <==> exists i :: FirstNamed(q, PoemParam, i) && q[i].1 != ""
    ensures r.ById? ==> exists i :: FirstNamed(q, PoemParam, i) && q[i].1 == r.id
  {
    FirstNamedUnique(q, PoemParam);
    IntentFor(QueryGet(q, PoemParam))
  }

  /** There is only one first pair with a given name. */
  lemma FirstNamedUnique(q: Query, name: string)
    ensures forall i, j :: FirstNamed(q, name, i) && FirstNamed(q, name, j) ==> i == j
  {
  }

  /** The `popstate` handler: load by id exactly when the entry has a state
      whose `poemId` is present and non-empty; otherwise load a random poem. */
  function PopstateIntent(state: Option<HistoryState>): (r: Intent)
    ensures r.ById? <==> state.Some? && TruthyId(state.value.poemId)
    ensures r.ById? ==> state.value.poemId == Some(r.id)
  {
    if state.Some? then IntentFor(state.value.poemId) else Random
  }

  /** A history entry whose state records the `poem` parameter of a URL leads
      back to what loading that URL would load. */
  lemma PopstateAgreesWithStartup(q: Query)
    ensures PopstateIntent(Some(HistoryState(QueryGet(q, PoemParam)))) == StartupIntent(q)
  {
  }

  /** An identifier put in the URL, or in a history state, is loaded again by
      that identifier; an empty or missing one falls back to a random poem. */
  lemma IdentifierRoundTrip(id: string, other: Query)
    ensures StartupIntent([(PoemParam, id)] + other) == (if id != "" then ById(id) else Random)
    ensures PopstateIntent(Some(HistoryState(Some(id)))) == (if id != "" then ById(id) else Random)
    ensures StartupIntent([]) == Random
    ensures PopstateIntent(None) == Random
  {
  }
}
