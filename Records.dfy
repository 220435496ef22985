/** The bibliographic record that every connector returns and every exporter
    and the deduplicator consume. The source keeps records as loosely typed
    dictionaries; here they have a fixed shape with optional fields. */
module Records {
  import opened Text

  datatype Option<+T> = None | Some(value: T)

  /** A year as the connectors deliver it: a number or a text. */
  datatype Year = YearNumber(number: int) | YearText(text: string)

  /** One record. A text field is None when the key is absent or holds null,
      and authors is [] when the key is absent. The map extra holds every
      other key of the dictionary (its keys are none of the eight named ones). */
  datatype Record = Record(
    title: Option<string>,
    authors: seq<string>,
    abstractText: Option<string>,
    journal: Option<string>,
    year: Option<Year>,
    doi: Option<string>,
    url: Option<string>,
    source: Option<string>,
    extra: map<string, string>)

  /** Python truthiness of a text field: present and not "". */
  predicate Present(f: Option<string>) {
    f.Some? && f.value != ""
  }

  /** Python truthiness of the year: present, not "" and not 0. */
  predicate YearPresent(y: Option<Year>) {
    match y
    case None => false
    case Some(YearNumber(n)) => n != 0
    case Some(YearText(t)) => t != ""
  }

  /** f"{year}": how a year is written into a text. */
  function YearString(y: Year): (s: string)
    ensures y.YearNumber? ==> s != []
    ensures y.YearText? ==> s == y.text
  {
    match y
    case YearNumber(n) => IntToDecimal(n)
    case YearText(t) => t
  }

  /** A present year is never written as the empty text. */
  lemma PresentYearNonEmpty(y: Option<Year>)
    requires YearPresent(y)
    ensures YearString(y.value) != ""
  {
  }

  /** The value of a text field, or "" when it is absent. */
  function TextOr(f: Option<string>, default: string): (s: string)
    ensures f.Some? ==> s == f.value
    ensures f.None? ==> s == default
  {
    if f.Some? then f.value else default
  }
}
