/** The field lists behind the BibTeX, RIS and EndNote tagged exporters:
    which fields of a record an entry holds, in which order, with which
    text, and the record a field list describes when it is read back. */
module Fields {
  import opened Text
  import opened Records

  /** The fields an exporter can write, one per record field. */
  datatype Field = Title | Author | Journal | Year | Doi | Url | Abstract | Source

  /** The place of a field in the order in which all three exporters write
      them: title, author(s), journal, year, doi, url, abstract, source. */
  function FieldRank(f: Field): nat {
    match f
    case Title => 0
    case Author => 1
    case Journal => 2
    case Year => 3
    case Doi => 4
    case Url => 5
    case Abstract => 6
    case Source => 7
  }

  /** The body of one exported entry: (field, text) pairs in writing order. */
  type Entry = seq<(Field, string)>

  /** The fields come in the fixed order; a field may repeat (authors). */
  predicate InFieldOrder(fs: Entry) {
    forall i, j :: 0 <= i < j < |fs| ==> FieldRank(fs[i].0) <= FieldRank(fs[j].0)
  }

  /** The fields come in the fixed order and none repeats. */
  predicate StrictFieldOrder(fs: Entry) {
    forall i, j :: 0 <= i < j < |fs| ==> FieldRank(fs[i].0) < FieldRank(fs[j].0)
  }

  predicate RanksAtMost(fs: Entry, n: nat) {
    forall i :: 0 <= i < |fs| ==> FieldRank(fs[i].0) <= n
  }

  predicate RanksBelow(fs: Entry, n: nat) {
    forall i :: 0 <= i < |fs| ==> FieldRank(fs[i].0) < n
  }

  predicate AllOf(fs: Entry, f: Field) {
    forall i :: 0 <= i < |fs| ==> fs[i].0 == f
  }

  /** The line for a text field, written only when the field is non-empty. */
  function TextField(f: Field, t: Option<string>): (fs: Entry)
    ensures AllOf(fs, f) && |fs| <= 1
  {
    if Present(t) then [(f, t.value)] else []
  }

  /** The year line, written only when the year is truthy, as f"{year}". */
  function YearField(y: Option<Year>): (fs: Entry)
    ensures AllOf(fs, Year) && |fs| <= 1
  {
    if YearPresent(y) then [(Year, YearString(y.value))] else []
  }

  /** One author line per author, in input order. */
  function AuthorFields(authors: seq<string>): (fs: Entry)
    ensures |fs| == |authors| && AllOf(fs, Author)
    ensures forall i :: 0 <= i < |fs| ==> fs[i].1 == authors[i]
  {
    seq(|authors|, i requires 0 <= i < |authors| => (Author, authors[i]))
  }

  /** The fields of a RIS or EndNote tagged record, in the order the two
      exporters write them (lixplore/utils/export.py:291-322, 542-573). */
  function TaggedFields(r: Record): Entry {
    TextField(Title, r.title) + AuthorFields(r.authors) + TextField(Journal, r.journal)
    + YearField(r.year) + TextField(Doi, r.doi) + TextField(Url, r.url)
    + TextField(Abstract, r.abstractText) + TextField(Source, r.source)
  }

  // ----- Reading a field list back -----

  /** The record with no field set. */
  const Blank: Record := Record(None, [], None, None, None, None, None, None, map[])

  /** Reads one (field, text) pair into acc: authors accumulate, the other
      fields take the text (a year as text). */
  function Apply(acc: Record, p: (Field, string)): Record {
    match p.0
    case Title => acc.(title := Some(p.1))
    case Author => acc.(authors := acc.authors + [p.1])
    case Journal => acc.(journal := Some(p.1))
    case Year => acc.(year := Some(YearText(p.1)))
    case Doi => acc.(doi := Some(p.1))
    case Url => acc.(url := Some(p.1))
    case Abstract => acc.(abstractText := Some(p.1))
    case Source => acc.(source := Some(p.1))
  }

  function ReadFields(acc: Record, fs: Entry): Record
    decreases |fs|
  {
    if fs == [] then acc else ReadFields(Apply(acc, fs[0]), fs[1..])
  }

  /** The record an entry describes. */
  function FromFields(fs: Entry): Record {
    ReadFields(Blank, fs)
  }

  lemma {:induction false} ReadFieldsConcat(acc: Record, a: Entry, b: Entry)
    ensures ReadFields(acc, a + b) == ReadFields(ReadFields(acc, a), b)
    decreases |a|
  {
    if a == [] {
      assert a + b == b;
    } else {
      assert (a + b)[0] == a[0];
      assert (a + b)[1..] == a[1..] + b;
      ReadFieldsConcat(Apply(acc, a[0]), a[1..], b);
    }
  }

  lemma ReadAtMostOne(acc: Record, fs: Entry)
    requires |fs| <= 1
    ensures ReadFields(acc, fs) == if fs == [] then acc else Apply(acc, fs[0])
  {
    if fs != [] {
      assert fs[1..] == [];
    }
  }

  lemma {:induction false} ReadAuthors(acc: Record, authors: seq<string>)
    ensures ReadFields(acc, AuthorFields(authors)) == acc.(authors := acc.authors + authors)
    decreases |authors|
  {
    if authors != [] {
      assert AuthorFields(authors)[1..] == AuthorFields(authors[1..]);
      ReadAuthors(Apply(acc, (Author, authors[0])), authors[1..]);
      assert acc.authors + [authors[0]] + authors[1..] == acc.authors + authors;
    }
  }

  /** A text field as it survives export: kept when non-empty, lost otherwise. */
  function Kept(t: Option<string>): (k: Option<string>)
    ensures k.Some? <==> Present(t)
    ensures k.Some? ==> k == t
  {
    if Present(t) then t else None
  }

  /** The year as it survives export: its text when it is truthy. */
  function KeptYear(y: Option<Year>): (k: Option<Year>)
    ensures k.Some? <==> YearPresent(y)
    ensures k.Some? ==> k.value.YearText? && k.value.text == YearString(y.value)
  {
    if YearPresent(y) then Some(YearText(YearString(y.value))) else None
  }

  /** What a RIS or EndNote tagged record keeps of r: every author, the
      non-empty text fields, a truthy year as text; no other key. */
  function TaggedView(r: Record): Record {
    Record(Kept(r.title), r.authors, Kept(r.abstractText), Kept(r.journal),
      KeptYear(r.year), Kept(r.doi), Kept(r.url), Kept(r.source), map[])
  }

  /** Sets text field f of m to v (years and authors are not text fields). */
  function SetText(m: Record, f: Field, v: Option<string>): Record {
    match f
    case Title => m.(title := v)
    case Journal => m.(journal := v)
    case Doi => m.(doi := v)
    case Url => m.(url := v)
    case Abstract => m.(abstractText := v)
    case Source => m.(source := v)
    case _ => m
  }

  /** Reading xs and then the line of a text field not yet set. */
  lemma ReadTextAfter(acc: Record, xs: Entry, f: Field, t: Option<string>, m: Record)
    requires f != Author && f != Year
    requires ReadFields(acc, xs) == m && SetText(m, f, None) == m
    ensures ReadFields(acc, xs + TextField(f, t)) == SetText(m, f, Kept(t))
  {
    ReadFieldsConcat(acc, xs, TextField(f, t));
    ReadAtMostOne(m, TextField(f, t));
  }

  /** Reading the title and author lines of a tagged record. */
  lemma ReadTitleAuthors(r: Record)
    ensures ReadFields(Blank, TextField(Title, r.title) + AuthorFields(r.authors))
      == Blank.(title := Kept(r.title), authors := r.authors)
  {
    var x1 := TextField(Title, r.title);
    ReadAtMostOne(Blank, x1);
    ReadFieldsConcat(Blank, x1, AuthorFields(r.authors));
    ReadAuthors(Blank.(title := Kept(r.title)), r.authors);
  }

  /** Reading the title, author, journal and year lines of a tagged record. */
  lemma ReadTaggedHead(r: Record)
    ensures ReadFields(Blank, TextField(Title, r.title) + AuthorFields(r.authors)
      + TextField(Journal, r.journal) + YearField(r.year))
      == Blank.(title := Kept(r.title), authors := r.authors, journal := Kept(r.journal),
        year := KeptYear(r.year))
  {
    var x2 := TextField(Title, r.title) + AuthorFields(r.authors);
    var x3 := x2 + TextField(Journal, r.journal);
    var a2 := Blank.(title := Kept(r.title), authors := r.authors);
    ReadTitleAuthors(r);
    var a3 := a2.(journal := Kept(r.journal));
    ReadTextAfter(Blank, x2, Journal, r.journal, a2);
    ReadFieldsConcat(Blank, x3, YearField(r.year));
    ReadAtMostOne(a3, YearField(r.year));
  }

  /** Reading back the fields of a tagged record gives exactly the record's
      written view: nothing is lost beyond empty fields, and authors come
      back in their order. */
  lemma TaggedFieldsRoundTrip(r: Record)
    ensures FromFields(TaggedFields(r)) == TaggedView(r)
  {
    var x4 := TextField(Title, r.title) + AuthorFields(r.authors)
      + TextField(Journal, r.journal) + YearField(r.year);
    var x5 := x4 + TextField(Doi, r.doi);
    var x6 := x5 + TextField(Url, r.url);
    var x7 := x6 + TextField(Abstract, r.abstractText);
    var a4 := Blank.(title := Kept(r.title), authors := r.authors, journal := Kept(r.journal),
      year := KeptYear(r.year));
    ReadTaggedHead(r);
    var a5 := a4.(doi := Kept(r.doi));
    ReadTextAfter(Blank, x4, Doi, r.doi, a4);
    var a6 := a5.(url := Kept(r.url));
    ReadTextAfter(Blank, x5, Url, r.url, a5);
    var a7 := a6.(abstractText := Kept(r.abstractText));
    ReadTextAfter(Blank, x6, Abstract, r.abstractText, a6);
    ReadTextAfter(Blank, x7, Source, r.source, a7);
  }

  /** The written view of a record already read back is that record: a
      second export loses nothing more. */
  lemma TaggedViewIdempotent(r: Record)
    ensures TaggedView(TaggedView(r)) == TaggedView(r)
  {
    if YearPresent(r.year) {
      PresentYearNonEmpty(r.year);
    }
  }

  /** The fields written for a record depend only on its written view, so
      exporting the read-back record writes the same fields again. */
  lemma TaggedFieldsOfView(r: Record)
    ensures TaggedFields(TaggedView(r)) == TaggedFields(r)
  {
    if YearPresent(r.year) {
      PresentYearNonEmpty(r.year);
    }
  }

  // ----- Order -----

  lemma OrderAppend(xs: Entry, ys: Entry, n: nat, f: Field)
    requires InFieldOrder(xs) && RanksAtMost(xs, n) && n <= FieldRank(f) && AllOf(ys, f)
    ensures InFieldOrder(xs + ys) && RanksAtMost(xs + ys, FieldRank(f))
  {
  }

  lemma StrictOrderAppend(xs: Entry, ys: Entry, n: nat, f: Field)
    requires StrictFieldOrder(xs) && RanksBelow(xs, n) && n <= FieldRank(f)
    requires AllOf(ys, f) && |ys| <= 1
    ensures StrictFieldOrder(xs + ys) && RanksBelow(xs + ys, FieldRank(f) + 1)
  {
  }

  /** The title, author, journal and year lines come in order. */
  lemma TaggedHeadInOrder(r: Record)
    ensures var x4 := TextField(Title, r.title) + AuthorFields(r.authors)
      + TextField(Journal, r.journal) + YearField(r.year);
      InFieldOrder(x4) && RanksAtMost(x4, FieldRank(Year))
  {
    var p1 := TextField(Title, r.title);
    var x2 := p1 + AuthorFields(r.authors);
    var x3 := x2 + TextField(Journal, r.journal);
    OrderAppend([], p1, 0, Title);
    assert [] + p1 == p1;
    OrderAppend(p1, AuthorFields(r.authors), 0, Author);
    OrderAppend(x2, TextField(Journal, r.journal), 1, Journal);
    OrderAppend(x3, YearField(r.year), 2, Year);
  }

  /** A tagged record writes its fields in the fixed order TI/T, AU/A,
      JO/J, PY/D, DO/R, UR/U, AB/X, DB/~. */
  lemma TaggedFieldsInOrder(r: Record)
    ensures InFieldOrder(TaggedFields(r))
  {
    var x4 := TextField(Title, r.title) + AuthorFields(r.authors)
      + TextField(Journal, r.journal) + YearField(r.year);
    var x5 := x4 + TextField(Doi, r.doi);
    var x6 := x5 + TextField(Url, r.url);
    var x7 := x6 + TextField(Abstract, r.abstractText);
    TaggedHeadInOrder(r);
    OrderAppend(x4, TextField(Doi, r.doi), 3, Doi);
    OrderAppend(x5, TextField(Url, r.url), 4, Url);
    OrderAppend(x6, TextField(Abstract, r.abstractText), 5, Abstract);
    OrderAppend(x7, TextField(Source, r.source), 6, Source);
  }
}
