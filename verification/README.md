# Poetry search client: a Dafny model of `app.js`

`app.js` is the browser script of a small poetry site. On page load it reads the
`poem` query parameter. It then loads that poem, or a random one when the
parameter is missing or empty. The loaded poem fills the title, author, text and
date regions of the page. The page then requests the list of similar poems and
shows the first three as clickable cards, each with a preview of the poem's
first three lines. On a `popstate` event, the script makes the same choice from
the `poemId` field of the history entry's state. The page receives `popstate`
only on back/forward moves between entries of the same document, such as after a
`#fragment` link. Going back past the page that was opened leaves the document,
and the handler does not run.

This project models the script's logic as pure functions over immutable values:

- `DateLabel`: `formatDate`. The label is kept as a datatype
  `Empty | Single(year) | Range(from, to)` instead of its printed text.
- `Lines`: the card preview. This is JavaScript `split("\r\n")`, then
  `slice(0, 3)`, then `join("\r\n")`.
- `Navigation`: `URLSearchParams.get`, plus the choice between "load by id" and
  "load random" made by the startup handler and the `popstate` handler.
- `Render`: the page as a record of its display regions. `displayPoem`, the
  error title and `displaySimilarPoems` are updates of that record.
- `Loader`: `loadRandomPoem`, `loadPoemById` and `loadSimilarPoems`, plus the
  handlers that call them. Every network request is replaced by an outcome,
  `Ok(value)` or `Fail`. A `Server` value says what each endpoint answers.
- `Ints`: a `Min` helper shared by the other modules.

Some behaviours of `app.js` are easy to misread:

- The `popstate` handler reads `event.state.poemId` (app.js:124), not the `poem`
  query parameter. The script never creates history entries or stores history
  state, since it calls neither `pushState` nor `replaceState`. An entry with no
  state leads to a random poem.
- Years are rounded down with `Math.floor` (app.js:17-18). For negative years
  this differs from truncation.
- A start year is tested for truthiness before rounding (app.js:15). A start
  year of exactly 0 gives an empty date, while 0.5 rounds to year 0 and is
  shown. An end year is rounded and then tested (app.js:18-20), so an end year
  in [0, 1) is dropped. `DateLabel.ZeroYearBoundaries` pins these cases down.
- When a poem load fails, only the title changes (app.js:38, 53). The previous
  poem's author, text, date and similar list stay on the page.

## Model

| member | source | states |
|---|---|---|
| DateLabel.FlooredYear | app.js:18 | an end year is kept only when truthy (present and non-zero), and then as the whole year at or below it |
| DateLabel.FormatDate | app.js:14-25 | no label when the start year is missing or zero, whatever the end year; a range of the floored years when the floored end year is non-zero and differs from the floored start year; otherwise the single floored start year |
| DateLabel.LabelShape | app.js:14-25 | the label is non-empty exactly when the start year is truthy, always starts at the floored start year, and a range never repeats its year nor ends at year 0 |
| DateLabel.SameYearsSameLabel | app.js:17-18 | the label depends on each input only through its truthiness and its floored value |
| DateLabel.Examples | app.js:14-25 | 1825.5/1825.9 gives 1825, 1825/1830 gives 1825-1830, no start year gives nothing, no end year gives the start year |
| DateLabel.ZeroYearBoundaries | app.js:15-20 | truthiness is checked before flooring: start 0.5 shows year 0, start 0 shows nothing, end 0.5 is dropped, end -0.5 gives a range to -1 |
| Lines.Split | app.js:111 | splitting yields one more piece than the text has separators, and joining the pieces with the separator gives the text back |
| Lines.SplitPiecesSepFree | app.js:111 | no piece that splitting produces contains a separator |
| Lines.SplitJoin | app.js:111 | splitting undoes joining for any non-empty list of separator-free pieces |
| Lines.Preview | app.js:111 | the preview splits back into exactly the first min(3, n) pieces of the text, is a prefix of the text, and holds min(2, k) separators where the text holds k |
| Lines.PreviewWholeText | app.js:111 | the preview equals the text if and only if the text holds at most two separators |
| Lines.PreviewIdempotent | app.js:111 | taking the preview of a preview changes nothing |
| Navigation.QueryGet | app.js:4-5 | nothing exactly when no pair has the name; otherwise the value of the first pair with that name |
| Navigation.IntentFor | app.js:7-11 | load by id exactly when the id is present and non-empty, with that id; otherwise load a random poem |
| Navigation.StartupIntent | app.js:3-12 | load by id exactly when the first `poem` parameter exists and is non-empty, and then by that parameter's value |
| Navigation.PopstateIntent | app.js:123-129 | load by id exactly when the entry has a state whose `poemId` is present and non-empty, and then by that id; otherwise load a random poem |
| Navigation.PopstateAgreesWithStartup | app.js:123-128 | a history state that records the URL's `poem` parameter leads to the same choice as opening that URL |
| Navigation.IdentifierRoundTrip | app.js:4-11 | an id placed first in the query, or in a history state, is loaded by that id when non-empty and falls back to random when empty; no query and no state give random |
| Render.TitleOf | app.js:75 | the poem's name when present and non-empty, otherwise 'Без названия' |
| Render.DisplayPoem | app.js:74-87 | title set with the fallback; author and text overwritten; the date shown exactly when the start year is truthy, and then holding the non-empty label; when hidden, whatever text the date element held stays; the similar list is untouched |
| Render.ShowLoadError | app.js:36-39 | a failed load sets the title to 'Error loading poem' and leaves author, text, date and similar list unchanged |
| Render.CardFor | app.js:100-117 | a card opens its poem by id, shows the title with its fallback and the author, and its preview splits into exactly the first min(3, n) lines of the text; it is a prefix of the text with at most two separators, and the whole text when the text has at most two |
| Render.SimilarFor | app.js:89-121 | an empty list gives only the 'No similar poems found' notice; a non-empty list gives exactly min(3, n) cards, card i being the card of poem i |
| Render.DisplaySimilarPoems | app.js:89-98 | only the similar-poems region changes |
| Render.CardsComeFromInput | app.js:98-100 | the cards are those of the first three poems, and every card shows some poem of the input |
| Render.LaterPoemsIgnored | app.js:98 | poems after the third never change what is rendered |
| Loader.PoemRequest | app.js:29-44 | a by-id intent requests that id, a random intent requests a random poem |
| Loader.BeginSimilarLoad | app.js:57-59 | loading similar poems first shows 'Loading recommendations...' and changes nothing else |
| Loader.FinishSimilarLoad | app.js:61-71 | a received list is rendered as the similar list; a failure shows 'Could not load recommendations'; nothing else changes |
| Loader.LoadSimilarPoems | app.js:57-72 | the similar-poems load run to completion ends with the rendered list or the failure notice, and touches no other region |
| Loader.ReceivePoem | app.js:27-40 | a received poem is displayed (title, author, text, and the date shown with its label or hidden with its old text), the list shows the loading notice, and its similar poems are requested by its id; a failure sets only the error title and requests nothing |
| Loader.OnCardClick | app.js:103-109 | a control-click leaves this page unchanged (the poem opens in another tab); a plain click requests the card's poem by id and shows its title, author, text, its date (with the label when the start year is truthy, hidden with its old text otherwise) and its similar poems, or sets only the error title when the request fails |
| Loader.Navigate | app.js:27-72 | a received poem is shown with its title (with the fallback), author, text, its date exactly when the start year is truthy, and its similar poems or the failure notice; a failed request changes the title to the error message and nothing else |
| Loader.OnStartup | app.js:3-12 | the page loads the poem named by the first `poem` parameter when that is non-empty, otherwise a random poem (so `?poem=&poem=5` loads a random poem) |
| Loader.OnPopstate | app.js:123-129 | the page loads the poem named by the entry state's non-empty `poemId`, otherwise a random poem |
| Loader.NavigateThroughReceive | app.js:27-35 | finishing the similar-poems request that the received poem triggers gives the page of the whole load; a failed load is final at once |
| Loader.ErrorKeepsPreviousPoem | app.js:51-54 | a failed load after a successful one leaves the earlier poem's author and text under the error title |
| Loader.LoadForgetsPreviousView | app.js:74-87 | what a successful load shows does not depend on what was shown before (a hidden date's stale text is not shown) |
| Loader.NavigateIdempotent | app.js:42-55 | loading the same intent twice from the same answers gives the page one load gives |
| Loader.BackToOpenedPoem | app.js:123-129 | going back to an entry whose state records the opened URL's `poem` parameter shows the same page again, when the server gives the same answers |
| Loader.BackToLinkedPoem | app.js:123-129 | when the URL names a poem, going back to an entry whose state records that name shows the same page again, whatever the random endpoint answers meanwhile, provided `/poems/{id}` and `/poems/similar/{id}` answer the same both times |
| Loader.BackWithoutStateLoadsRandom | app.js:123-129 | a `popstate` without state, the only kind this script can receive, loads a random poem even when the opened URL named a poem |
| Loader.CardClickLoadsCardPoem | app.js:103-108 | a plain click on a poem's card loads that poem's id, exactly as a navigation to it would, whatever the random endpoint answers |

## Left out

- Network I/O is not modelled: `fetch`, HTTP status checks, `response.json()` and the `API_URL` constant (app.js:1, 29-33, 44-48, 62-66). Each request is an outcome in a `Server` value. Any failure in the try block is the same `Fail`, whatever its cause.
- Concurrency is not modelled. Loads run to completion one at a time, so the "last response wins" race between overlapping loads has no counterpart.
- DOM plumbing is not modelled: `getElementById`, `innerHTML` template construction, CSS display toggling and `addEventListener` wiring. Names, authors and previews are written into `innerHTML` unescaped (app.js:113-117), and the model does not cover that either.
- Browser side effects are not modelled: the URL concatenation and `window.open` of a control-click (app.js:104-105), and `console.error`. A control-click is modelled only as "this page does not change".
- Parsing is not modelled: `parseFloat` on strings, `NaN`, and IEEE rounding. The years are exact, already-parsed reals. A year that arrives as the string "0" is truthy in JavaScript, but the model sees it as the number 0.
- Query-string decoding is not modelled: percent-escapes, `+`, and splitting on `&`. `Navigation.QueryGet` takes the decoded (name, value) pairs.
- Navigation.PopstateIntent: treats `poemId` as a string only. A numeric `poemId` of 0, which JavaScript also treats as falsy, is not represented.
- Render.DisplayPoem: treats `author` and `text` as always-present strings. A missing author printed as the word "undefined" and a missing text are not modelled.
- Render.CardFor: treats `text` as an always-present string. In app.js a similar poem without `text` makes `poem.text.split` throw partway through the `forEach` (app.js:111).
- Loader.FinishSimilarLoad: a received list is always rendered. The throw that a similar poem without `text` causes in app.js, where the catch (app.js:68-70) replaces the cards already drawn with 'Could not load recommendations', is not modelled.
- Loader.BackToOpenedPoem: the `Server` gives one fixed answer per request. When the URL names no poem, both the first load and the return are random loads, and "the same page again" then holds only for one fixed random answer. The real endpoint answers differently on each call. `Loader.BackToLinkedPoem` drops the fixed random answer for the case where the URL names a poem, but it still assumes `/poems/{id}` and `/poems/similar/{id}` answer the same both times.
- Loader.NavigateIdempotent: the `Server` gives one fixed answer per request. The real `/poems/random` endpoint answers differently on each call, so for a random intent the lemma speaks only of one fixed answer.
- Not modelled because this `app.js` does not contain them: text search, HTTP 429 throttling messages, a random-poem button, and history `pushState`/`replaceState`.
