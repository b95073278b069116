/**
 The loaders of app.js (`loadRandomPoem`, `loadPoemById`, `loadSimilarPoems`)
 and the event handlers that call them, with every network request replaced
 by its outcome. A `Server` says what each request would answer; a request
 that fails for any reason (transport, non-2xx status, bad JSON) is `Fail`.
 */
module Loader {
  import opened Wrappers
  import opened Render
  import DateLabel
  import Navigation

  /** The outcome of one request. */
  datatype Fetch<T> = Ok(value: T) | Fail

  /** What the service answers to `/poems/random`, `/poems/{id}` and
      `/poems/similar/{id}`. */
  datatype Server = Server(
    random: Fetch<Poem>,
    byId: string -> Fetch<Poem>,
    similar: string -> Fetch<seq<Poem>>)

  /** The page after a poem request has been handled, and the identifier whose
      similar poems are then requested, if any. */
  datatype Loaded = Loaded(view: View, similarRequest: Option<string>)

  /** The request a navigation intent issues. */
  function PoemRequest(intent: Navigation.Intent, server: Server): (f: Fetch<Poem>)
    ensures intent.ById? ==> f == server.byId(intent.id)
    ensures intent.Random? ==> f == server.random
  {
    match intent
    case ById(id) => server.byId(id)
    case Random => server.random
  }

  /** The first step of `loadSimilarPoems`: the list shows the loading notice. */
  function BeginSimilarLoad(v: View): (r: View)
    ensures r.similar == Notice(LoadingNotice)
    ensures r.title == v.title && r.author == v.author && r.text == v.text
    ensures r.dateText == v.dateText && r.dateVisible == v.dateVisible
  {
    v.(similar := Notice(LoadingNotice))
  }

  /** The end of `loadSimilarPoems`: the received list is rendered, or the
      failure notice replaces the loading notice; nothing else changes. */
  function FinishSimilarLoad(v: View, f: Fetch<seq<Poem>>): (r: View)
    ensures f.Ok? ==> r.similar == SimilarFor(f.value)
    ensures f.Fail? ==> r.similar == Notice(SimilarErrorNotice)
    ensures r.title == v.title && r.author == v.author && r.text == v.text
    ensures r.dateText == v.dateText && r.dateVisible == v.dateVisible
  {
    match f
    case Ok(poems) => DisplaySimilarPoems(v, poems)
    case Fail => v.(similar := Notice(SimilarErrorNotice))
  }

  /** Loading the similar poems of one poem, run to completion. */
  function LoadSimilarPoems(v: View, id: string, server: Server): (r: View)
    ensures server.similar(id).Ok? ==> r.similar == SimilarFor(server.similar(id).value)
    ensures server.similar(id).Fail? ==> r.similar == Notice(SimilarErrorNotice)
    ensures r.title == v.title && r.author == v.author && r.text == v.text
    ensures r.dateText == v.dateText && r.dateVisible == v.dateVisible
  {
    FinishSimilarLoad(BeginSimilarLoad(v), server.similar(id))
  }

  /** The body of `loadRandomPoem` / `loadPoemById` once the poem request has
      completed: a received poem is displayed and its similar poems requested
      (the list shows the loading notice meanwhile); a failure only sets the
      error title and requests nothing. */
  function ReceivePoem(v: View, f: Fetch<Poem>): (r: Loaded)
    ensures f.Fail? ==> r.similarRequest == None
    ensures f.Fail? ==> r.view.title == LoadErrorTitle && r.view.similar == v.similar
    ensures f.Fail? ==> r.view.author == v.author && r.view.text == v.text
    ensures f.Fail? ==> r.view.dateText == v.dateText && r.view.dateVisible == v.dateVisible
    ensures f.Ok? ==> r.similarRequest == Some(f.value.id)
    ensures f.Ok? ==> r.view.similar == Notice(LoadingNotice)
    ensures f.Ok? ==> r.view.title == TitleOf(f.value.name)
    ensures f.Ok? ==> r.view.author == f.value.author && r.view.text == f.value.text
    ensures f.Ok? ==> (r.view.dateVisible <==> DateLabel.Truthy(f.value.dateFrom))
    ensures f.Ok? && r.view.dateVisible ==> r.view.dateText == Formatted(DateLabel.FormatDate(f.value.dateFrom, f.value.dateTo))
    ensures f.Ok? && !r.view.dateVisible ==> r.view.dateText == v.dateText
  {
    match f
    case Ok(poem) => Loaded(BeginSimilarLoad(DisplayPoem(v, poem)), Some(poem.id))
    case Fail => Loaded(ShowLoadError(v), None)
  }

  /** Loading a poem by identifier or at random, as the intent says, run to
      completion together with the similar-poems request it triggers. A
      received poem is shown: its title (with the fallback), author, text, its
      date exactly when the start year is truthy, and its similar poems or the
      failure notice. A failed request changes the title to the error message
      and leaves everything else on the page as it was. */
  function Navigate(v: View, intent: Navigation.Intent, server: Server): (r: View)
    ensures PoemRequest(intent, server).Fail? ==> r == v.(title := LoadErrorTitle)
    ensures PoemRequest(intent, server).Ok? ==>
              var p := PoemRequest(intent, server).value;
              && r.title == TitleOf(p.name)
              && r.author == p.author && r.text == p.text
              && (r.dateVisible <==> DateLabel.Truthy(p.dateFrom))
              && (r.dateVisible ==> r.dateText == Formatted(DateLabel.FormatDate(p.dateFrom, p.dateTo)))
              && (!r.dateVisible ==> r.dateText == v.dateText)
              && (server.similar(p.id).Ok? ==> r.similar == SimilarFor(server.similar(p.id).value))
              && (server.similar(p.id).Fail? ==> r.similar == Notice(SimilarErrorNotice))
  {
    match PoemRequest(intent, server)
    case Ok(poem) => LoadSimilarPoems(DisplayPoem(v, poem), poem.id, server)
    case Fail => ShowLoadError(v)
  }

  /** The `DOMContentLoaded` handler run to completion: the poem named by the
      first `poem` query parameter when that is present and non-empty,
      otherwise a random poem. */
  function OnStartup(v: View, q: Navigation.Query, server: Server): (r: View)
    ensures Navigation.TruthyId(Navigation.QueryGet(q, Navigation.PoemParam)) ==>
              r == Navigate(v, Navigation.ById(Navigation.QueryGet(q, Navigation.PoemParam).value), server)
    ensures !Navigation.TruthyId(Navigation.QueryGet(q, Navigation.PoemParam)) ==>
              r == Navigate(v, Navigation.Random, server)
  {
    Navigate(v, Navigation.StartupIntent(q), server)
  }

  /** The `popstate` handler run to completion: the poem named by the entry's
      state when the state has a non-empty `poemId`, otherwise a random poem. */
  function OnPopstate(v: View, state: Option<Navigation.HistoryState>, server: Server): (r: View)
    ensures state.Some? && Navigation.TruthyId(state.value.poemId) ==>
              r == Navigate(v, Navigation.ById(state.value.poemId.value), server)
    ensures state.None? || !Navigation.TruthyId(state.value.poemId) ==>
              r == Navigate(v, Navigation.Random, server)
  {
    Navigate(v, Navigation.PopstateIntent(state), server)
  }

  /** A click on a similar-poem card: with the control key a new tab is opened
      and this page is left as it is; otherwise the card's poem is requested by
      its identifier and shown here, or the error title is shown when that
      request fails. */
  function OnCardClick(v: View, c: Card, ctrlKey: bool, server: Server): (r: View)
    ensures ctrlKey ==> r == v
    ensures !ctrlKey && server.byId(c.poemId).Fail? ==> r == v.(title := LoadErrorTitle)
    ensures !ctrlKey && server.byId(c.poemId).Ok? ==>
              var p := server.byId(c.poemId).value;
              && r.title == TitleOf(p.name) && r.author == p.author && r.text == p.text
              && (r.dateVisible <==> DateLabel.Truthy(p.dateFrom))
              && (r.dateVisible ==> r.dateText == Formatted(DateLabel.FormatDate(p.dateFrom, p.dateTo)))
              && (!r.dateVisible ==> r.dateText == v.dateText)
              && (server.similar(p.id).Ok? ==> r.similar == SimilarFor(server.similar(p.id).value))
              && (server.similar(p.id).Fail? ==> r.similar == Notice(SimilarErrorNotice))
  {
    if ctrlKey then v else Navigate(v, Navigation.ById(c.poemId), server)
  }

  /** What a reader can see: the date text counts only while the date is shown. */
  function Visible(v: View): View
  {
    v.(dateText := if v.dateVisible then v.dateText else PageText(""))
  }

  /** A load passes through the page `ReceivePoem` describes: finishing the
      similar-poems request it asks for gives the page the whole load gives,
      and when it asks for none, that page is already final. */
  lemma NavigateThroughReceive(v: View, intent: Navigation.Intent, server: Server)
    ensures var loaded := ReceivePoem(v, PoemRequest(intent, server));
            && (loaded.similarRequest.Some? ==>
                  Navigate(v, intent, server) == FinishSimilarLoad(loaded.view, server.similar(loaded.similarRequest.value)))
            && (loaded.similarRequest.None? ==> Navigate(v, intent, server) == loaded.view)
  {
  }

  /** After a poem has been shown, a failed load leaves its author and text on
      the page under the error title. */
  lemma ErrorKeepsPreviousPoem(v: View, first: Navigation.Intent, second: Navigation.Intent, s1: Server, s2: Server)
    requires PoemRequest(first, s1).Ok?
    requires PoemRequest(second, s2).Fail?
    ensures var r := Navigate(Navigate(v, first, s1), second, s2);
            && r.title == LoadErrorTitle
            && r.author == PoemRequest(first, s1).value.author
            && r.text == PoemRequest(first, s1).value.text
  {
  }

  /** What a successful load shows does not depend on what was shown before. */
  lemma LoadForgetsPreviousView(v1: View, v2: View, intent: Navigation.Intent, server: Server)
    requires PoemRequest(intent, server).Ok?
    ensures Visible(Navigate(v1, intent, server)) == Visible(Navigate(v2, intent, server))
  {
  }

  /** Loading the same thing twice from the same answers leaves the page as
      one load left it. */
  lemma NavigateIdempotent(v: View, intent: Navigation.Intent, server: Server)
    ensures Navigate(Navigate(v, intent, server), intent, server) == Navigate(v, intent, server)
  {
  }

  /** Going back to an entry whose state records the `poem` parameter of the
      URL the page was opened with shows again the page that opening it showed. */
  lemma BackToOpenedPoem(v: View, q: Navigation.Query, server: Server)
    ensures var shown := OnStartup(v, q, server);
            OnPopstate(shown, Some(Navigation.HistoryState(Navigation.QueryGet(q, Navigation.PoemParam))), server) == shown
  {
  }

  /** When the URL names a poem, going back to an entry whose state records
      that name shows the same page again, whatever the random endpoint
      answers in the meantime, provided `/poems/{id}` and `/poems/similar/{id}`
      answer the same both times. */
  lemma BackToLinkedPoem(v: View, q: Navigation.Query, server: Server, laterRandom: Fetch<Poem>)
    requires Navigation.TruthyId(Navigation.QueryGet(q, Navigation.PoemParam))
    ensures var shown := OnStartup(v, q, server);
            var state := Some(Navigation.HistoryState(Navigation.QueryGet(q, Navigation.PoemParam)));
            OnPopstate(shown, state, server.(random := laterRandom)) == shown
  {
  }

  /** The script stores no history state. A `popstate` reaches this page only
      between entries of the same document (such as after a `#fragment` link),
      and it then carries no state, so it loads a random poem even when the URL
      names one. This is the null-state case of `OnPopstate`, applied to the
      page as startup left it. */
  lemma BackWithoutStateLoadsRandom(v: View, q: Navigation.Query, server: Server)
    ensures var shown := OnStartup(v, q, server);
            OnPopstate(shown, None, server) == Navigate(shown, Navigation.Random, server)
  {
  }

  /** A plain click on the card of a poem loads that poem's identifier, exactly
      as a navigation to it would, and does not depend on the random endpoint. */
  lemma CardClickLoadsCardPoem(v: View, p: Poem, server: Server, otherRandom: Fetch<Poem>)
    ensures OnCardClick(v, CardFor(p), false, server) == Navigate(v, Navigation.ById(p.id), server)
    ensures OnCardClick(v, CardFor(p), false, server) == OnCardClick(v, CardFor(p), false, server.(random := otherRandom))
  {
  }
}
