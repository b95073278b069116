/**
 What the page shows, as a record of its display regions, and the rendering
 functions of app.js as pure updates of that record: `displayPoem`, the error
 title of a failed poem load, and `displaySimilarPoems`.
 */
module Render {
  import opened Wrappers
  import opened Ints
  import DateLabel
  import Lines

  /** A poem as the service returns it. */
  datatype Poem = Poem(
    id: string,
    name: Option<string>,
    author: string,
    text: string,
    dateFrom: Option<real>,
    dateTo: Option<real>)

  /** One similar-poem card: the poem it opens, its title, author and the
      first lines of its text. */
  datatype Card = Card(poemId: string, title: string, author: string, preview: string)

  /** The similar-poems region holds either cards or a one-line notice. */
  datatype Similar = Cards(cards: seq<Card>) | Notice(message: string)

  /** The text of the date element: whatever the page held there before a
      date was written into it, or a formatted date label. */
  datatype DateText = PageText(markup: string) | Formatted(date: DateLabel.Label)

  /** The display regions: title, author, text, the date element (its text and
      whether it is shown) and the similar-poems list. */
  datatype View = View(
    title: string,
    author: string,
    text: string,
    dateText: DateText,
    dateVisible: bool,
    similar: Similar)

  const Untitled: string := "Без названия"
  const LoadErrorTitle: string := "Error loading poem"
  const LoadingNotice: string := "Loading recommendations..."
  const SimilarErrorNotice: string := "Could not load recommendations"
  const NoSimilarNotice: string := "No similar poems found"

  /** The number of cards shown at most. */
  const MaxCards: nat := 3

  /** The title shown for a poem: its name when the name is present and not
      empty, otherwise the fixed "untitled" text. */
  function TitleOf(name: Option<string>): (t: string)
    ensures name.Some? && name.value != "" ==> t == name.value
    ensures name.None? || name.value == "" ==> t == Untitled
  {
    if name.Some? && name.value != "" then name.value else Untitled
  }

  /** Displaying a poem: title (with its fallback), author and text are overwritten;
      the date is shown with its label when the label is non-empty, otherwise
      only hidden, its old text left in place; the similar list is untouched. */
  function DisplayPoem(v: View, p: Poem): (r: View)
    ensures p.name.Some? && p.name.value != "" ==> r.title == p.name.value
    ensures p.name.None? || p.name.value == "" ==> r.title == Untitled
    ensures r.author == p.author && r.text == p.text
    ensures r.dateVisible <==> DateLabel.Truthy(p.dateFrom)
    ensures r.dateVisible ==> r.dateText == Formatted(DateLabel.FormatDate(p.dateFrom, p.dateTo))
                              && DateLabel.FormatDate(p.dateFrom, p.dateTo) != DateLabel.Empty
    ensures !r.dateVisible ==> r.dateText == v.dateText
    ensures r.similar == v.similar
  {
    DateLabel.LabelShape(p.dateFrom, p.dateTo);
    var formatted := DateLabel.FormatDate(p.dateFrom, p.dateTo);
    var shown := v.(title := TitleOf(p.name), author := p.author, text := p.text);
    if formatted != DateLabel.Empty then shown.(dateText := Formatted(formatted), dateVisible := true)
    else shown.(dateVisible := false)
  }

  /** The catch branch of a poem load: only the title changes, to the error
      message; author, text, date and similar list stay as they were. */
  function ShowLoadError(v: View): (r: View)
    ensures r.title == LoadErrorTitle
    ensures r.author == v.author && r.text == v.text
    ensures r.dateText == v.dateText && r.dateVisible == v.dateVisible
    ensures r.similar == v.similar
  {
    v.(title := LoadErrorTitle)
  }

  /** One card of the similar list: it opens the poem by its identifier, shows
      the title with its fallback, the author, and a preview made of exactly
      the first three lines of the text (all of it when it has fewer), which
      is a prefix of the text holding at most two line separators. */
  function CardFor(p: Poem): (c: Card)
    ensures c.poemId == p.id && c.author == p.author
    ensures c.title == TitleOf(p.name)
    ensures Lines.Split(c.preview) == Lines.Split(p.text)[..Min(Lines.PreviewPieces, |Lines.Split(p.text)|)]
    ensures c.preview <= p.text && Lines.CountSep(c.preview) <= 2
    ensures Lines.CountSep(p.text) <= 2 ==> c.preview == p.text
  {
    Lines.PreviewWholeText(p.text);
    Card(p.id, TitleOf(p.name), p.author, Lines.Preview(p.text))
  }

  /** The similar-poems region after rendering a list of poems: the notice
      when the list is empty, otherwise a card for each of the first
      min(3, n) poems, in input order. */
  function SimilarFor(poems: seq<Poem>): (s: Similar)
    ensures |poems| == 0 <==> s == Notice(NoSimilarNotice)
    ensures |poems| > 0 ==> s.Cards? && |s.cards| == Min(MaxCards, |poems|)
    ensures s.Cards? ==> forall i :: 0 <= i < |s.cards| ==> s.cards[i] == CardFor(poems[i])
  {
    if |poems| == 0 then Notice(NoSimilarNotice)
    else
      var shown := poems[..Min(MaxCards, |poems|)];
      Cards(seq(|shown|, i requires 0 <= i < |shown| => CardFor(shown[i])))
  }

  /** Rendering the similar poems: only the similar-poems region changes. */
  function DisplaySimilarPoems(v: View, poems: seq<Poem>): (r: View)
    ensures r.similar == SimilarFor(poems)
    ensures r.title == v.title && r.author == v.author && r.text == v.text
    ensures r.dateText == v.dateText && r.dateVisible == v.dateVisible
  {
    v.(similar := SimilarFor(poems))
  }

  /** The cards are the cards of the first min(3, n) poems, and every card
      opens a poem of the input list. */
  lemma CardsComeFromInput(poems: seq<Poem>)
    requires |poems| > 0
    ensures SimilarFor(poems).cards == SimilarFor(poems[..Min(MaxCards, |poems|)]).cards
    ensures forall c :: c in SimilarFor(poems).cards ==> exists p :: p in poems && c == CardFor(p)
  {
  }

  /** Poems past the third never reach the page: appending to a list that
      already has three poems leaves the rendering as it was. */
  lemma LaterPoemsIgnored(poems: seq<Poem>, more: seq<Poem>)
    requires |poems| >= MaxCards
    ensures SimilarFor(poems + more) == SimilarFor(poems)
  {
  }
}
