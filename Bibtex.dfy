/** The BibTeX exporter (export_to_bibtex): one @article entry per record,
    keyed by the first author's surname, the year and the record's
    position. A file is the list of lines the exporter writes. */
module Bibtex {
  import opened Text
  import opened Records
  import opened Fields

  // ----- Brace stripping -----

  /** s.replace(c, ""). */
  function RemoveChar(s: string, c: char): string
    decreases |s|
  {
    if s == [] then []
    else
      var t' := RemoveChar(s[..|s| - 1], c);
      if s[|s| - 1] == c then t' else t' + [s[|s| - 1]]
  }

  /** Removing c leaves no c, keeps every other character in order, and
      takes out exactly the occurrences of c. */
  lemma {:induction false} RemoveCharFacts(s: string, c: char)
    ensures var t := RemoveChar(s, c);
      && c !in t
      && IsSubsequence(t, s)
      && |t| == |s| - multiset(s)[c]
      && forall d :: d != c ==> multiset(t)[d] == multiset(s)[d]
    decreases |s|
  {
    if s != [] {
      var init, last := s[..|s| - 1], s[|s| - 1];
      assert s == init + [last];
      RemoveCharFacts(init, c);
      var t' := RemoveChar(init, c);
      if last != c {
        assert (t' + [last])[..|t'|] == t';
      }
    }
  }

  /** s.replace('{', '').replace('}', ''). */
  function StripBraces(s: string): string {
    RemoveChar(RemoveChar(s, '{'), '}')
  }

  /** Stripping removes every brace and keeps every other character, in
      order. */
  lemma StripBracesFacts(s: string)
    ensures var t := StripBraces(s);
      && '{' !in t && '}' !in t
      && IsSubsequence(t, s)
      && |t| == |s| - multiset(s)['{'] - multiset(s)['}']
  {
    var u := RemoveChar(s, '{');
    RemoveCharFacts(s, '{');
    RemoveCharFacts(u, '}');
    SubsequenceTransitive(RemoveChar(u, '}'), u, s);
    assert multiset(u)['{'] == 0;
  }

  lemma {:induction false} RemoveAbsent(s: string, c: char)
    requires c !in s
    ensures RemoveChar(s, c) == s
    decreases |s|
  {
    if s != [] {
      assert s[|s| - 1] in s;
      assert s[..|s| - 1] + [s[|s| - 1]] == s;
      RemoveAbsent(s[..|s| - 1], c);
    }
  }

  /** A text without braces is written unchanged; in particular stripping
      twice is stripping once. */
  lemma StripBracesIdentity(s: string)
    requires '{' !in s && '}' !in s
    ensures StripBraces(s) == s
  {
    RemoveAbsent(s, '{');
    RemoveAbsent(s, '}');
  }

  lemma StripBracesIdempotent(s: string)
    ensures StripBraces(StripBraces(s)) == StripBraces(s)
  {
    StripBracesFacts(s);
    StripBracesIdentity(StripBraces(s));
  }

  // ----- Citation keys -----

  /** The first author has no word, so split()[-1] raises IndexError
      (lixplore/utils/export.py:222-223). */
  predicate KeyFails(r: Record) {
    r.authors != [] && !HasWord(r.authors[0])
  }

  /** result.get('year', datetime.now().year), as text: the clock's year
      only when the record has no year. */
  function KeyYear(r: Record, currentYear: int): string {
    if r.year.Some? then YearString(r.year.value) else IntToDecimal(currentYear)
  }

  /** What precedes the position: surname and year, or "article" and year. */
  function KeyStem(r: Record, currentYear: int): string {
    (if r.authors != [] then LastWord(r.authors[0]) else "article") + KeyYear(r, currentYear)
  }

  /** The citation key of the record at 1-based position i, or None where
      the source raises (lixplore/utils/export.py:221-225). */
  function CitationKey(r: Record, position: nat, currentYear: int): (k: Option<string>)
    ensures k.None? <==> KeyFails(r)
  {
    if KeyFails(r) then None else Some(KeyStem(r, currentYear) + "_" + NatToDecimal(position))
  }

  /** A key starts with its stem and ends with the position it was made
      for. */
  lemma CitationKeyShape(r: Record, position: nat, currentYear: int)
    requires !KeyFails(r)
    ensures var k := CitationKey(r, position, currentYear).value;
      KeyStem(r, currentYear) <= k && KeyPosition(k) == Some(position)
  {
    KeyPositionOf(KeyStem(r, currentYear), position);
  }

  /** The text after the last underscore, if there is one. */
  function AfterLastUnderscore(s: string): Option<string>
    decreases |s|
  {
    if s == [] then None
    else if s[|s| - 1] == '_' then Some([])
    else match AfterLastUnderscore(s[..|s| - 1])
      case Some(t) => Some(t + [s[|s| - 1]])
      case None => None
  }

  /** The position a citation key ends with: the digits after its last
      underscore. */
  function KeyPosition(k: string): Option<nat> {
    match AfterLastUnderscore(k)
    case Some(t) =>
      if t != [] && forall i :: 0 <= i < |t| ==> IsDigit(t[i]) then Some(DecimalValue(t)) else None
    case None => None
  }

  lemma {:induction false} AfterLastUnderscoreOf(x: string, d: string)
    requires '_' !in d
    ensures AfterLastUnderscore(x + "_" + d) == Some(d)
    decreases |d|
  {
    var s := x + "_" + d;
    if d == [] {
      assert s[|s| - 1] == '_';
    } else {
      assert d[|d| - 1] in d;
      assert s[..|s| - 1] == x + "_" + d[..|d| - 1];
      assert d[..|d| - 1] + [d[|d| - 1]] == d;
      AfterLastUnderscoreOf(x, d[..|d| - 1]);
    }
  }

  lemma KeyPositionOf(stem: string, position: nat)
    ensures KeyPosition(stem + "_" + NatToDecimal(position)) == Some(position)
  {
    var d := NatToDecimal(position);
    assert '_' !in d by {
      forall i | 0 <= i < |d| ensures d[i] != '_' {
        assert IsDigit(d[i]);
      }
    }
    AfterLastUnderscoreOf(stem, d);
    DecimalRoundTrip(position);
  }

  /** Records at different positions of one file get different citation
      keys, whatever the records are. */
  lemma CitationKeysDistinct(r1: Record, i: nat, r2: Record, j: nat, currentYear: int)
    requires i != j
    requires CitationKey(r1, i, currentYear).Some? && CitationKey(r2, j, currentYear).Some?
    ensures CitationKey(r1, i, currentYear) != CitationKey(r2, j, currentYear)
  {
    CitationKeyShape(r1, i, currentYear);
    CitationKeyShape(r2, j, currentYear);
  }

  // ----- Entries -----

  /** The BibTeX field name of each written field. */
  function FieldName(f: Field): string {
    match f
    case Title => "title"
    case Author => "author"
    case Journal => "journal"
    case Year => "year"
    case Doi => "doi"
    case Url => "url"
    case Abstract => "abstract"
    case Source => "source"
  }

  /** The field a name stands for; BibTeX entries never carry the source. */
  function FieldNamed(name: string): (f: Option<Field>)
    ensures f.Some? ==> FieldName(f.value) == name && f.value != Source
  {
    if name == "title" then Some(Title)
    else if name == "author" then Some(Author)
    else if name == "journal" then Some(Journal)
    else if name == "year" then Some(Year)
    else if name == "doi" then Some(Doi)
    else if name == "url" then Some(Url)
    else if name == "abstract" then Some(Abstract)
    else None
  }

  lemma FieldNameRoundTrip(f: Field)
    requires f != Source
    ensures FieldNamed(FieldName(f)) == Some(f)
    ensures ' ' !in FieldName(f)
  {
  }

  /** A title or abstract line: non-empty fields, braces removed. */
  function StrippedField(f: Field, t: Option<string>): (fs: Entry)
    ensures AllOf(fs, f) && |fs| <= 1
  {
    if Present(t) then [(f, StripBraces(t.value))] else []
  }

  /** All authors on one line, joined with " and ". */
  function AuthorLine(authors: seq<string>): (fs: Entry)
    ensures AllOf(fs, Author) && |fs| <= 1
  {
    if authors != [] then [(Author, Join(authors, " and "))] else []
  }

  /** The fields of a BibTeX entry, in the order written
      (lixplore/utils/export.py:234-256). */
  function BibFields(r: Record): Entry {
    StrippedField(Title, r.title) + AuthorLine(r.authors) + TextField(Journal, r.journal)
    + YearField(r.year) + TextField(Doi, r.doi) + TextField(Url, r.url)
    + StrippedField(Abstract, r.abstractText)
  }

  /** A field value as a BibTeX entry keeps it: braces removed. */
  function KeptStripped(t: Option<string>): (k: Option<string>)
    ensures k.Some? <==> Present(t)
  {
    if Present(t) then Some(StripBraces(t.value)) else None
  }

  /** What a BibTeX entry keeps of r: title and abstract without braces,
      the authors as one " and "-joined text, journal, doi and url
      verbatim, a truthy year as text; not the source or any other key. */
  function BibView(r: Record): Record {
    Record(KeptStripped(r.title), if r.authors != [] then [Join(r.authors, " and ")] else [],
      KeptStripped(r.abstractText), Kept(r.journal), KeptYear(r.year), Kept(r.doi), Kept(r.url),
      None, map[])
  }

  /** Reading back the fields of an entry gives the record's BibTeX view. */
  lemma BibFieldsRoundTrip(r: Record)
    ensures FromFields(BibFields(r)) == BibView(r)
  {
    var x1 := StrippedField(Title, r.title);
    var x2 := x1 + AuthorLine(r.authors);
    var x3 := x2 + TextField(Journal, r.journal);
    var x4 := x3 + YearField(r.year);
    var x5 := x4 + TextField(Doi, r.doi);
    var x6 := x5 + TextField(Url, r.url);
    var x7 := x6 + StrippedField(Abstract, r.abstractText);
    assert BibFields(r) == x7;
    var a1 := Blank.(title := KeptStripped(r.title));
    ReadAtMostOne(Blank, x1);
    var a2 := a1.(authors := BibView(r).authors);
    ReadFieldsConcat(Blank, x1, AuthorLine(r.authors));
    ReadAtMostOne(a1, AuthorLine(r.authors));
    assert ReadFields(Blank, x2) == a2;
    var a3 := a2.(journal := Kept(r.journal));
    ReadTextAfter(Blank, x2, Journal, r.journal, a2);
    var a4 := a3.(year := KeptYear(r.year));
    ReadFieldsConcat(Blank, x3, YearField(r.year));
    ReadAtMostOne(a3, YearField(r.year));
    assert ReadFields(Blank, x4) == a4;
    var a5 := a4.(doi := Kept(r.doi));
    ReadTextAfter(Blank, x4, Doi, r.doi, a4);
    var a6 := a5.(url := Kept(r.url));
    ReadTextAfter(Blank, x5, Url, r.url, a5);
    ReadFieldsConcat(Blank, x6, StrippedField(Abstract, r.abstractText));
    ReadAtMostOne(a6, StrippedField(Abstract, r.abstractText));
  }

  /** Seven single-field pieces, one per written field, in the fixed order. */
  lemma StrictPieces(p1: Entry, p2: Entry, p3: Entry, p4: Entry, p5: Entry, p6: Entry, p7: Entry)
    requires AllOf(p1, Title) && AllOf(p2, Author) && AllOf(p3, Journal) && AllOf(p4, Year)
    requires AllOf(p5, Doi) && AllOf(p6, Url) && AllOf(p7, Abstract)
    requires |p1| <= 1 && |p2| <= 1 && |p3| <= 1 && |p4| <= 1 && |p5| <= 1 && |p6| <= 1 && |p7| <= 1
    ensures StrictFieldOrder(p1 + p2 + p3 + p4 + p5 + p6 + p7)
    ensures RanksBelow(p1 + p2 + p3 + p4 + p5 + p6 + p7, FieldRank(Source))
  {
    StrictOrderAppend([], p1, 0, Title);
    assert [] + p1 == p1;
    StrictOrderAppend(p1, p2, 1, Author);
    StrictOrderAppend(p1 + p2, p3, 2, Journal);
    StrictOrderAppend(p1 + p2 + p3, p4, 3, Year);
    StrictOrderAppend(p1 + p2 + p3 + p4, p5, 4, Doi);
    StrictOrderAppend(p1 + p2 + p3 + p4 + p5, p6, 5, Url);
    StrictOrderAppend(p1 + p2 + p3 + p4 + p5 + p6, p7, 6, Abstract);
  }

  /** Each field appears at most once, in the fixed order title, author,
      journal, year, doi, url, abstract; the source is never written. */
  lemma BibFieldsInOrder(r: Record)
    ensures StrictFieldOrder(BibFields(r))
    ensures forall i :: 0 <= i < |BibFields(r)| ==> BibFields(r)[i].0 != Source
  {
    StrictPieces(StrippedField(Title, r.title), AuthorLine(r.authors), TextField(Journal, r.journal),
      YearField(r.year), TextField(Doi, r.doi), TextField(Url, r.url), StrippedField(Abstract, r.abstractText));
  }

  /** "  name = {value},". */
  function FieldLine(f: Field, text: string): string {
    "  " + FieldName(f) + " = {" + text + "},"
  }

  /** "@article{key,". */
  function OpeningLine(key: string): string {
    "@article{" + key + ","
  }

  function FieldLines(fs: Entry): (lines: seq<string>)
    ensures |lines| == |fs|
    decreases |fs|
  {
    if fs == [] then [] else [FieldLine(fs[0].0, fs[0].1)] + FieldLines(fs[1..])
  }

  lemma {:induction false} FieldLinesConcat(a: Entry, b: Entry)
    ensures FieldLines(a + b) == FieldLines(a) + FieldLines(b)
    decreases |a|
  {
    if a == [] {
      assert a + b == b;
    } else {
      assert (a + b)[0] == a[0] && (a + b)[1..] == a[1..] + b;
      FieldLinesConcat(a[1..], b);
      ConcatAssoc([FieldLine(a[0].0, a[0].1)], FieldLines(a[1..]), FieldLines(b));
    }
  }

  /** The lines of an entry: opening, field lines, "}" and a blank line. */
  function EntryLines(key: string, fs: Entry): seq<string> {
    [OpeningLine(key)] + FieldLines(fs) + ["}", ""]
  }

  /** The lines written for the record at position i, or None where the
      source raises before writing anything for it. */
  function BibtexEntry(r: Record, position: nat, currentYear: int): (e: Option<seq<string>>)
    ensures e.None? <==> KeyFails(r)
  {
    match CitationKey(r, position, currentYear)
    case Some(key) => Some(EntryLines(key, BibFields(r)))
    case None => None
  }

  // ----- Reading an entry back -----

  /** The longest prefix of s without a space. */
  function TakeName(s: string): (name: string)
    ensures name <= s && ' ' !in name
    decreases |s|
  {
    if s == [] || s[0] == ' ' then [] else [s[0]] + TakeName(s[1..])
  }

  lemma {:induction false} TakeNameOf(name: string, rest: string)
    requires ' ' !in name && rest != [] && rest[0] == ' '
    ensures TakeName(name + rest) == name
    decreases |name|
  {
    if name == [] {
      assert name + rest == rest;
    } else {
      assert name[0] in name;
      assert (name + rest)[0] == name[0] && (name + rest)[1..] == name[1..] + rest;
      TakeNameOf(name[1..], rest);
    }
  }

  /** One field line back as its (field, text) pair. */
  function ParseFieldLine(line: string): Option<(Field, string)> {
    if |line| >= 2 && line[..2] == "  " then
      var name := TakeName(line[2..]);
      var rest := line[2 + |name|..];
      if |rest| >= 6 && rest[..4] == " = {" && rest[|rest| - 2..] == "}," then
        match FieldNamed(name)
        case Some(f) => Some((f, rest[4..|rest| - 2]))
        case None => None
      else None
    else None
  }

  function ParseFieldLines(lines: seq<string>): Option<Entry>
    decreases |lines|
  {
    if lines == [] then Some([])
    else
      match (ParseFieldLine(lines[0]), ParseFieldLines(lines[1..]))
      case (Some(p), Some(rest)) => Some([p] + rest)
      case _ => None
  }

  /** The key and fields of an entry's lines, when they are well formed. */
  function ParseEntry(lines: seq<string>): Option<(string, Entry)> {
    if |lines| >= 3 && lines[|lines| - 2..] == ["}", ""] then
      var open := lines[0];
      if |open| >= 10 && open[..9] == "@article{" && open[|open| - 1] == ',' then
        match ParseFieldLines(lines[1..|lines| - 2])
        case Some(fs) => Some((open[9..|open| - 1], fs))
        case None => None
      else None
    else None
  }

  /** The pieces of a concatenation a + b + c + d + e, as a parser
      meets them. */
  lemma Pieces<T>(a: seq<T>, b: seq<T>, c: seq<T>, d: seq<T>, e: seq<T>)
    ensures var x, y := a + b + c + d + e, c + d + e;
      && x[..|a|] == a && x[|a|..] == b + y && x[|a| + |b|..] == y
      && y[..|c|] == c && y[|y| - |e|..] == e && y[|c|..|y| - |e|] == d
  {
    var x, y := a + b + c + d + e, c + d + e;
    assert x == a + (b + y);
  }

  lemma FieldLineRoundTrip(f: Field, text: string)
    requires f != Source
    ensures ParseFieldLine(FieldLine(f, text)) == Some((f, text))
  {
    FieldNameRoundTrip(f);
    var name := FieldName(f);
    var rest := " = {" + text + "},";
    Pieces("  ", name, " = {", text, "},");
    TakeNameOf(name, rest);
  }

  lemma {:induction false} FieldLinesRoundTrip(fs: Entry)
    requires forall i :: 0 <= i < |fs| ==> fs[i].0 != Source
    ensures ParseFieldLines(FieldLines(fs)) == Some(fs)
    decreases |fs|
  {
    if fs != [] {
      FieldLineRoundTrip(fs[0].0, fs[0].1);
      FieldLinesRoundTrip(fs[1..]);
      ParseFieldLinesCons(FieldLine(fs[0].0, fs[0].1), FieldLines(fs[1..]), fs[0], fs[1..]);
      assert [fs[0]] + fs[1..] == fs;
    }
  }

  lemma ParseFieldLinesCons(line: string, rest: seq<string>, p: (Field, string), ps: Entry)
    requires ParseFieldLine(line) == Some(p) && ParseFieldLines(rest) == Some(ps)
    ensures ParseFieldLines([line] + rest) == Some([p] + ps)
  {
    assert ([line] + rest)[0] == line && ([line] + rest)[1..] == rest;
  }

  /** Reading back the lines of an entry gives its key and fields. */
  lemma EntryLinesRoundTrip(key: string, fs: Entry)
    requires forall i :: 0 <= i < |fs| ==> fs[i].0 != Source
    ensures ParseEntry(EntryLines(key, fs)) == Some((key, fs))
  {
    var lines := EntryLines(key, fs);
    FieldLinesRoundTrip(fs);
    assert lines[1..|lines| - 2] == FieldLines(fs);
    assert lines[|lines| - 2..] == ["}", ""];
    var open := OpeningLine(key);
    assert open[..9] == "@article{";
    assert open[9..|open| - 1] == key;
  }

  /** Reading back an entry gives its key, which ends with the record's
      position, and the record's BibTeX view. */
  lemma EntryRoundTrip(r: Record, position: nat, currentYear: int)
    requires !KeyFails(r)
    ensures var key := CitationKey(r, position, currentYear).value;
      && ParseEntry(BibtexEntry(r, position, currentYear).value) == Some((key, BibFields(r)))
      && KeyPosition(key) == Some(position)
      && FromFields(BibFields(r)) == BibView(r)
  {
    var key := CitationKey(r, position, currentYear).value;
    assert BibtexEntry(r, position, currentYear).value == EntryLines(key, BibFields(r));
    CitationKeyShape(r, position, currentYear);
    BibFieldsInOrder(r);
    EntryLinesRoundTrip(key, BibFields(r));
    BibFieldsRoundTrip(r);
  }

  // ----- The file -----

  /** What the exporter leaves: nothing for an empty list (the source
      returns None), the written lines, or the IndexError raised at a
      record's position together with the lines written before it. */
  datatype Outcome = Skipped | Written(lines: seq<string>) | Raised(position: nat, partial: seq<string>)

  /** What writing each record gives: its lines, or None where it raises. */
  function Entries(rs: seq<Record>, currentYear: int): (es: seq<Option<seq<string>>>)
    ensures |es| == |rs|
    ensures forall i :: 0 <= i < |rs| ==> es[i] == BibtexEntry(rs[i], i + 1, currentYear)
  {
    seq(|rs|, i requires 0 <= i < |rs| => BibtexEntry(rs[i], i + 1, currentYear))
  }

  /** The outcome of writing the first n entries in order, stopping at the
      first that raises. */
  function WriteUpTo(es: seq<Option<seq<string>>>, n: nat): Outcome
    requires n <= |es|
    decreases n
  {
    if n == 0 then Written([])
    else
      match WriteUpTo(es, n - 1)
      case Written(lines) =>
        (match es[n - 1]
         case Some(e) => Written(lines + e)
         case None => Raised(n, lines))
      case other => other
  }

  /** The outcome of export_to_bibtex (lixplore/utils/export.py:208-210, 218-259). */
  function BibtexFile(rs: seq<Record>, currentYear: int): (o: Outcome)
    ensures o.Skipped? <==> rs == []
  {
    if rs == [] then Skipped
    else
      WriteUpToOutcome(Entries(rs, currentYear), |rs|);
      WriteUpTo(Entries(rs, currentYear), |rs|)
  }

  /** Writing stops exactly at the first entry that raises, and otherwise
      writes every entry. */
  lemma {:induction false} WriteUpToOutcome(es: seq<Option<seq<string>>>, n: nat)
    requires n <= |es|
    ensures !WriteUpTo(es, n).Skipped?
    ensures WriteUpTo(es, n).Written? <==> forall q :: 0 <= q < n ==> es[q].Some?
    ensures WriteUpTo(es, n).Raised? ==>
      var p := WriteUpTo(es, n).position;
      && 1 <= p <= n && es[p - 1].None?
      && forall q :: 0 <= q < p - 1 ==> es[q].Some?
    decreases n
  {
    if n > 0 {
      WriteUpToOutcome(es, n - 1);
    }
  }

  /** The exporter raises exactly at the first record whose first author
      has no word; it writes a file exactly when no record has one. */
  lemma BibtexFileOutcome(rs: seq<Record>, currentYear: int)
    requires rs != []
    ensures BibtexFile(rs, currentYear).Written? <==> forall q :: 0 <= q < |rs| ==> !KeyFails(rs[q])
    ensures BibtexFile(rs, currentYear).Raised? ==>
      var p := BibtexFile(rs, currentYear).position;
      && 1 <= p <= |rs| && KeyFails(rs[p - 1])
      && forall q :: 0 <= q < p - 1 ==> !KeyFails(rs[q])
  {
    var es := Entries(rs, currentYear);
    WriteUpToOutcome(es, |rs|);
    EntriesFail(rs, currentYear);
  }

  lemma EntriesFail(rs: seq<Record>, currentYear: int)
    ensures forall q :: 0 <= q < |rs| ==> (Entries(rs, currentYear)[q].None? <==> KeyFails(rs[q]))
  {
  }

  /** One more entry: its lines are added, or writing raises at it. */
  lemma WriteUpToNext(es: seq<Option<seq<string>>>, n: nat, lines: seq<string>)
    requires n < |es| && WriteUpTo(es, n) == Written(lines)
    ensures WriteUpTo(es, n + 1) == if es[n].Some? then Written(lines + es[n].value) else Raised(n + 1, lines)
  {
  }

  /** Once writing has raised, later entries change nothing. */
  lemma {:induction false} RaisedPersists(es: seq<Option<seq<string>>>, n: nat, m: nat)
    requires n <= m <= |es| && WriteUpTo(es, n).Raised?
    ensures WriteUpTo(es, m) == WriteUpTo(es, n)
    decreases m - n
  {
    if n < m {
      RaisedPersists(es, n, m - 1);
    }
  }

  /** The field f with the given text when present, else nothing. */
  function Piece(f: Field, present: bool, text: string): Entry {
    if present then [(f, text)] else []
  }

  /** The fields of an entry, as the writer tests and renders them one by
      one. */
  lemma BibFieldsAsWritten(r: Record)
    ensures BibFields(r) == [] + Piece(Title, Present(r.title), StripBraces(TextOr(r.title, "")))
      + Piece(Author, r.authors != [], Join(r.authors, " and "))
      + Piece(Journal, Present(r.journal), TextOr(r.journal, ""))
      + Piece(Year, YearPresent(r.year), if r.year.Some? then YearString(r.year.value) else "")
      + Piece(Doi, Present(r.doi), TextOr(r.doi, ""))
      + Piece(Url, Present(r.url), TextOr(r.url, ""))
      + Piece(Abstract, Present(r.abstractText), StripBraces(TextOr(r.abstractText, "")))
  {
    var p1 := Piece(Title, Present(r.title), StripBraces(TextOr(r.title, "")));
    assert StrippedField(Title, r.title) == p1;
    assert AuthorLine(r.authors) == Piece(Author, r.authors != [], Join(r.authors, " and "));
    assert TextField(Journal, r.journal) == Piece(Journal, Present(r.journal), TextOr(r.journal, ""));
    assert YearField(r.year) == Piece(Year, YearPresent(r.year), if r.year.Some? then YearString(r.year.value) else "");
    assert TextField(Doi, r.doi) == Piece(Doi, Present(r.doi), TextOr(r.doi, ""));
    assert TextField(Url, r.url) == Piece(Url, Present(r.url), TextOr(r.url, ""));
    assert StrippedField(Abstract, r.abstractText) == Piece(Abstract, Present(r.abstractText), StripBraces(TextOr(r.abstractText, "")));
    assert [] + p1 == p1;
  }

  /** The lines after h + FieldLines(xs) once the fields p follow. */
  lemma LinesStep(h: seq<string>, xs: Entry, p: Entry, l: seq<string>)
    requires h + FieldLines(xs) == l
    ensures h + FieldLines(xs + p) == l + FieldLines(p)
  {
    FieldLinesConcat(xs, p);
    ConcatAssoc(h, FieldLines(xs), FieldLines(p));
  }

  /** The lines of an entry's fields, as the writer adds them one field at
      a time. */
  lemma BibLinesAsWritten(r: Record, h: seq<string>)
    ensures h + FieldLines(BibFields(r)) == h
      + FieldLines(Piece(Title, Present(r.title), StripBraces(TextOr(r.title, ""))))
      + FieldLines(Piece(Author, r.authors != [], Join(r.authors, " and ")))
      + FieldLines(Piece(Journal, Present(r.journal), TextOr(r.journal, "")))
      + FieldLines(Piece(Year, YearPresent(r.year), if r.year.Some? then YearString(r.year.value) else ""))
      + FieldLines(Piece(Doi, Present(r.doi), TextOr(r.doi, "")))
      + FieldLines(Piece(Url, Present(r.url), TextOr(r.url, "")))
      + FieldLines(Piece(Abstract, Present(r.abstractText), StripBraces(TextOr(r.abstractText, ""))))
  {
    var p1 := Piece(Title, Present(r.title), StripBraces(TextOr(r.title, "")));
    var p2 := Piece(Author, r.authors != [], Join(r.authors, " and "));
    var p3 := Piece(Journal, Present(r.journal), TextOr(r.journal, ""));
    var p4 := Piece(Year, YearPresent(r.year), if r.year.Some? then YearString(r.year.value) else "");
    var p5 := Piece(Doi, Present(r.doi), TextOr(r.doi, ""));
    var p6 := Piece(Url, Present(r.url), TextOr(r.url, ""));
    var p7 := Piece(Abstract, Present(r.abstractText), StripBraces(TextOr(r.abstractText, "")));
    BibFieldsAsWritten(r);
    assert h + FieldLines([]) == h;
    LinesStep(h, [], p1, h);
    LinesStep(h, [] + p1, p2, h + FieldLines(p1));
    LinesStep(h, [] + p1 + p2, p3, h + FieldLines(p1) + FieldLines(p2));
    LinesStep(h, [] + p1 + p2 + p3, p4, h + FieldLines(p1) + FieldLines(p2) + FieldLines(p3));
    LinesStep(h, [] + p1 + p2 + p3 + p4, p5,
      h + FieldLines(p1) + FieldLines(p2) + FieldLines(p3) + FieldLines(p4));
    LinesStep(h, [] + p1 + p2 + p3 + p4 + p5, p6,
      h + FieldLines(p1) + FieldLines(p2) + FieldLines(p3) + FieldLines(p4) + FieldLines(p5));
    LinesStep(h, [] + p1 + p2 + p3 + p4 + p5 + p6, p7,
      h + FieldLines(p1) + FieldLines(p2) + FieldLines(p3) + FieldLines(p4) + FieldLines(p5) + FieldLines(p6));
  }

  /** Writes the line of field f with the given text when present. */
  method WriteField(lines: seq<string>, f: Field, present: bool, text: string) returns (out: seq<string>)
    ensures out == lines + FieldLines(Piece(f, present, text))
  {
    out := lines;
    if present {
      out := out + [FieldLine(f, text)];
    }
  }

  /** The citation key as the source computes it (lixplore/utils/export.py:221-225). */
  method ComputeKey(r: Record, position: nat, currentYear: int) returns (key: Option<string>)
    ensures key == CitationKey(r, position, currentYear)
  {
    var firstAuthor := "";
    if r.authors != [] {
      if !HasWord(r.authors[0]) {
        return None;
      }
      firstAuthor := LastWord(r.authors[0]);
    }
    var year := if r.year.Some? then YearString(r.year.value) else IntToDecimal(currentYear);
    key := Some(if firstAuthor != "" then firstAuthor + year + "_" + NatToDecimal(position)
      else "article" + year + "_" + NatToDecimal(position));
  }

  /** The field lines of an entry after its opening line, each written
      only when its field is non-empty (lixplore/utils/export.py:234-256);
      BibLinesAsWritten shows that they are the lines of BibFields. */
  method WriteFields(r: Record, head: string) returns (lines: seq<string>)
    ensures lines == [head]
      + FieldLines(Piece(Title, Present(r.title), StripBraces(TextOr(r.title, ""))))
      + FieldLines(Piece(Author, r.authors != [], Join(r.authors, " and ")))
      + FieldLines(Piece(Journal, Present(r.journal), TextOr(r.journal, "")))
      + FieldLines(Piece(Year, YearPresent(r.year), if r.year.Some? then YearString(r.year.value) else ""))
      + FieldLines(Piece(Doi, Present(r.doi), TextOr(r.doi, "")))
      + FieldLines(Piece(Url, Present(r.url), TextOr(r.url, "")))
      + FieldLines(Piece(Abstract, Present(r.abstractText), StripBraces(TextOr(r.abstractText, ""))))
  {
    lines := [head];
    lines := WriteField(lines, Title, Present(r.title), StripBraces(TextOr(r.title, "")));
    lines := WriteField(lines, Author, r.authors != [], Join(r.authors, " and "));
    lines := WriteField(lines, Journal, Present(r.journal), TextOr(r.journal, ""));
    lines := WriteField(lines, Year, YearPresent(r.year), if r.year.Some? then YearString(r.year.value) else "");
    lines := WriteField(lines, Doi, Present(r.doi), TextOr(r.doi, ""));
    lines := WriteField(lines, Url, Present(r.url), TextOr(r.url, ""));
    lines := WriteField(lines, Abstract, Present(r.abstractText), StripBraces(TextOr(r.abstractText, "")));
  }

  /** The lines written for the record at position i: the opening line,
      each field line when the field is non-empty, and the closing
      (lixplore/utils/export.py:221-259). */
  method WriteEntry(r: Record, position: nat, currentYear: int) returns (entry: Option<seq<string>>)
    ensures entry == BibtexEntry(r, position, currentYear)
  {
    var key := ComputeKey(r, position, currentYear);
    if key.None? {
      return None;
    }
    var lines := WriteFields(r, OpeningLine(key.value));
    BibLinesAsWritten(r, [OpeningLine(key.value)]);
    return Some(lines + ["}", ""]);
  }

  /** export_to_bibtex: nothing for an empty list, otherwise the entries in
      order, numbered from 1, up to the first record that raises. */
  method ExportBibtex(results: seq<Record>, currentYear: int) returns (outcome: Outcome)
    ensures outcome == BibtexFile(results, currentYear)
  {
    if results == [] {
      return Skipped;
    }
    ghost var es := Entries(results, currentYear);
    assert BibtexFile(results, currentYear) == WriteUpTo(es, |results|);
    var lines: seq<string> := [];
    for i := 0 to |results|
      invariant WriteUpTo(es, i) == Written(lines)
    {
      var entry := WriteEntry(results[i], i + 1, currentYear);
      assert es[i] == entry;
      WriteUpToNext(es, i, lines);
      if entry.None? {
        RaisedPersists(es, i + 1, |results|);
        return Raised(i + 1, lines);
      }
      lines := lines + entry.value;
    }
    return Written(lines);
  }
}
