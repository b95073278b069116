/**
 The date line of a poem (`formatDate` in app.js). A poem carries an optional
 start year and an optional end year, both possibly fractional; the label is
 either nothing, one whole year, or a `from-to` range of whole years.
 The label is kept as a datatype rather than as the text it is printed as.
 */
module DateLabel {
  import opened Wrappers

  datatype Label = Empty | Single(year: int) | Range(from: int, to: int)

  /** JavaScript truthiness of an optional number: present and not zero. */
  predicate Truthy(x: Option<real>)
  {
    x.Some? && x.value != 0.0
  }

  /** The whole year at or below an optional number, kept only when the
      number is truthy; a missing or zero number gives no year. */
  function FlooredYear(x: Option<real>): (y: Option<int>)
    ensures y.Some? <==> Truthy(x)
    ensures y.Some? ==> y.value as real <= x.value < y.value as real + 1.0
  {
    if Truthy(x) then Some(x.value.Floor) else None
  }

  /** The label of a poem's dates. A missing or zero start year gives no
      label whatever the end year is; otherwise the label starts at the floored
      start year, and it is a range only when the floored end year is non-zero
      (an end year in [0, 1) counts as missing) and differs from the start. */
  function FormatDate(dateFrom: Option<real>, dateTo: Option<real>): (r: Label)
    ensures !Truthy(dateFrom) ==> r == Empty
    ensures Truthy(dateFrom) && Truthy(dateTo)
            && dateTo.value.Floor != 0 && dateTo.value.Floor != dateFrom.value.Floor
            ==> r == Range(dateFrom.value.Floor, dateTo.value.Floor)
    ensures Truthy(dateFrom)
            && (!Truthy(dateTo) || dateTo.value.Floor == 0 || dateTo.value.Floor == dateFrom.value.Floor)
            ==> r == Single(dateFrom.value.Floor)
  {
    if !Truthy(dateFrom) then Empty
    else
      var fromYear := dateFrom.value.Floor;
      var toYear := FlooredYear(dateTo);
      if toYear.Some? && toYear.value != 0 && fromYear != toYear.value then Range(fromYear, toYear.value)
      else Single(fromYear)
  }

  /** The first year a label shows, if it shows any. */
  function StartYear(l: Label): Option<int>
  {
    match l
    case Empty => None
    case Single(y) => Some(y)
    case Range(a, _) => Some(a)
  }

  /** The shape of every label: it is non-empty exactly when the start year is
      truthy, it always starts at the floored start year, and a range never
      repeats its year nor ends at year zero. */
  lemma LabelShape(dateFrom: Option<real>, dateTo: Option<real>)
    ensures FormatDate(dateFrom, dateTo) != Empty <==> Truthy(dateFrom)
    ensures Truthy(dateFrom) ==> StartYear(FormatDate(dateFrom, dateTo)) == Some(dateFrom.value.Floor)
    ensures FormatDate(dateFrom, dateTo).Range? ==>
              FormatDate(dateFrom, dateTo).from != FormatDate(dateFrom, dateTo).to
              && FormatDate(dateFrom, dateTo).to != 0
  {
  }

  /** The label depends on the inputs only through their truthiness and
      their floored values: moving either year within its whole year changes nothing. */
  lemma SameYearsSameLabel(a: Option<real>, b: Option<real>, a': Option<real>, b': Option<real>)
    requires FlooredYear(a) == FlooredYear(a')
    requires FlooredYear(b) == FlooredYear(b')
    ensures FormatDate(a, b) == FormatDate(a', b')
  {
  }

  /** Worked examples: 1825.5/1825.9 gives 1825, 1825/1830 gives 1825-1830,
      no start year gives nothing. */
  lemma Examples()
    ensures FormatDate(Some(1825.5), Some(1825.9)) == Single(1825)
    ensures FormatDate(Some(1825.0), Some(1830.0)) == Range(1825, 1830)
    ensures FormatDate(None, Some(1830.0)) == Empty
    ensures FormatDate(Some(1825.0), None) == Single(1825)
  {
  }

  /** Truthiness is checked before flooring: a start year in (0, 1) is shown as
      year 0, a start year of exactly 0 is hidden; an end year in [0, 1) is
      dropped, while one in [-1, 0) floors to -1 and gives a range. */
  lemma ZeroYearBoundaries()
    ensures FormatDate(Some(0.5), None) == Single(0)
    ensures FormatDate(Some(0.0), Some(1830.0)) == Empty
    ensures FormatDate(Some(1825.0), Some(0.5)) == Single(1825)
    ensures FormatDate(Some(1825.0), Some(-0.5)) == Range(1825, -1)
  {
  }
}
