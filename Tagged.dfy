/** The two line-tagged exporters, RIS (export_to_ris) and EndNote tagged
    (export_to_enw). Both write a header line, one line per field as a
    two-character tag, a separator and the text, and a closing; they differ
    only in the tags, the separator and the closing. A file is the list of
    lines the exporter writes, one per write call. */
module Tagged {
  import opened Text
  import opened Records
  import opened Fields

  datatype Style = Ris | Enw

  /** The tag of each field: TI AU JO PY DO UR AB DB for RIS, %T %A %J %D
      %R %U %X %~ for EndNote. */
  function Tag(style: Style, f: Field): string {
    match style
    case Ris =>
      (match f
       case Title => "TI" case Author => "AU" case Journal => "JO" case Year => "PY"
       case Doi => "DO" case Url => "UR" case Abstract => "AB" case Source => "DB")
    case Enw =>
      (match f
       case Title => "%T" case Author => "%A" case Journal => "%J" case Year => "%D"
       case Doi => "%R" case Url => "%U" case Abstract => "%X" case Source => "%~")
  }

  /** The field a tag stands for; the header and closing tags stand for none. */
  function FieldOfTag(style: Style, tag: string): (f: Option<Field>)
    ensures f.Some? ==> Tag(style, f.value) == tag
  {
    if tag == Tag(style, Title) then Some(Title)
    else if tag == Tag(style, Author) then Some(Author)
    else if tag == Tag(style, Journal) then Some(Journal)
    else if tag == Tag(style, Year) then Some(Year)
    else if tag == Tag(style, Doi) then Some(Doi)
    else if tag == Tag(style, Url) then Some(Url)
    else if tag == Tag(style, Abstract) then Some(Abstract)
    else if tag == Tag(style, Source) then Some(Source)
    else None
  }

  /** Tags have two characters and name their field uniquely. */
  lemma TagRoundTrip(style: Style, f: Field)
    ensures |Tag(style, f)| == 2
    ensures FieldOfTag(style, Tag(style, f)) == Some(f)
  {
  }

  /** What separates the tag from the text: "  - " in RIS, " " in EndNote. */
  function Separator(style: Style): string {
    match style
    case Ris => "  - "
    case Enw => " "
  }

  function TagLine(style: Style, tag: string, text: string): string {
    tag + Separator(style) + text
  }

  /** "TY  - JOUR" or "%0 Journal Article". */
  function Header(style: Style): string {
    match style
    case Ris => TagLine(Ris, "TY", "JOUR")
    case Enw => TagLine(Enw, "%0", "Journal Article")
  }

  /** "ER  - " and a blank line for RIS; a blank line for EndNote. */
  function Closing(style: Style): seq<string> {
    match style
    case Ris => [TagLine(Ris, "ER", ""), ""]
    case Enw => [""]
  }

  /** The field lines of an entry, one per (field, text) pair, in order. */
  function FieldLines(style: Style, fs: Entry): (lines: seq<string>)
    ensures |lines| == |fs|
    decreases |fs|
  {
    if fs == [] then [] else [TagLine(style, Tag(style, fs[0].0), fs[0].1)] + FieldLines(style, fs[1..])
  }

  lemma {:induction false} FieldLinesConcat(style: Style, a: Entry, b: Entry)
    ensures FieldLines(style, a + b) == FieldLines(style, a) + FieldLines(style, b)
    decreases |a|
  {
    if a == [] {
      assert a + b == b;
    } else {
      assert (a + b)[0] == a[0] && (a + b)[1..] == a[1..] + b;
      FieldLinesConcat(style, a[1..], b);
      ConcatAssoc([TagLine(style, Tag(style, a[0].0), a[0].1)], FieldLines(style, a[1..]), FieldLines(style, b));
    }
  }

  /** No field line is blank: each starts with its two-character tag. */
  lemma {:induction false} FieldLinesNotBlank(style: Style, fs: Entry)
    ensures forall i :: 0 <= i < |fs| ==> FieldLines(style, fs)[i] != ""
    decreases |fs|
  {
    if fs != [] {
      TagRoundTrip(style, fs[0].0);
      FieldLinesNotBlank(style, fs[1..]);
    }
  }

  /** The lines of one record. */
  function RecordLines(style: Style, r: Record): seq<string> {
    [Header(style)] + FieldLines(style, TaggedFields(r)) + Closing(style)
  }

  /** The lines of each record, in order. */
  function RecordsLines(style: Style, rs: seq<Record>): (ls: seq<seq<string>>)
    ensures |ls| == |rs|
    ensures forall i :: 0 <= i < |rs| ==> ls[i] == RecordLines(style, rs[i])
  {
    seq(|rs|, i requires 0 <= i < |rs| => RecordLines(style, rs[i]))
  }

  /** The lines of a whole file: the records' lines one after the other. */
  function FileLines(style: Style, rs: seq<Record>): seq<string> {
    Flatten(RecordsLines(style, rs))
  }

  /** A file is its first record's lines, then the lines of the others. */
  lemma FileLinesFront(style: Style, rs: seq<Record>)
    requires rs != []
    ensures FileLines(style, rs) == RecordLines(style, rs[0]) + FileLines(style, rs[1..])
  {
    var ls := RecordsLines(style, rs);
    assert ls[1..] == RecordsLines(style, rs[1..]);
    FlattenFront(ls);
  }

  /** A file of one more record ends with that record's lines. */
  lemma FileLinesSnoc(style: Style, rs: seq<Record>, i: nat)
    requires i < |rs|
    ensures FileLines(style, rs[..i + 1]) == FileLines(style, rs[..i]) + RecordLines(style, rs[i])
  {
    var ls := RecordsLines(style, rs[..i + 1]);
    assert ls[..i] == RecordsLines(style, rs[..i]);
  }

  // ----- Reading a file back -----

  /** One field line back as its (field, text) pair. */
  function ParseFieldLine(style: Style, line: string): Option<(Field, string)> {
    var n := 2 + |Separator(style)|;
    if |line| >= n && line[2..n] == Separator(style) then
      match FieldOfTag(style, line[..2])
      case Some(f) => Some((f, line[n..]))
      case None => None
    else None
  }

  function ParseFieldLines(style: Style, lines: seq<string>): Option<Entry>
    decreases |lines|
  {
    if lines == [] then Some([])
    else
      match (ParseFieldLine(style, lines[0]), ParseFieldLines(style, lines[1..]))
      case (Some(p), Some(rest)) => Some([p] + rest)
      case _ => None
  }

  /** The record one record's lines describe, when they are well formed. */
  function ParseRecord(style: Style, lines: seq<string>): Option<Record> {
    var c := Closing(style);
    if |lines| >= 1 + |c| && lines[0] == Header(style) && lines[|lines| - |c|..] == c then
      match ParseFieldLines(style, lines[1..|lines| - |c|])
      case Some(fs) => Some(FromFields(fs))
      case None => None
    else None
  }

  /** The index of the first blank line. */
  function FirstBlank(lines: seq<string>): Option<nat>
    decreases |lines|
  {
    if lines == [] then None
    else if lines[0] == "" then Some(0)
    else match FirstBlank(lines[1..])
      case Some(k) => Some(k + 1)
      case None => None
  }

  /** The records of a file: every record ends at its first blank line. */
  function ParseFile(style: Style, lines: seq<string>): Option<seq<Record>>
    decreases |lines|
  {
    if lines == [] then Some([])
    else
      match FirstBlank(lines)
      case None => None
      case Some(k) =>
        if k < |lines| then
          match (ParseRecord(style, lines[..k + 1]), ParseFile(style, lines[k + 1..]))
          case (Some(r), Some(rest)) => Some([r] + rest)
          case _ => None
        else None
  }

  lemma FieldLineRoundTrip(style: Style, f: Field, text: string)
    ensures ParseFieldLine(style, TagLine(style, Tag(style, f), text)) == Some((f, text))
  {
    TagRoundTrip(style, f);
    var line := TagLine(style, Tag(style, f), text);
    var n := 2 + |Separator(style)|;
    assert line[..2] == Tag(style, f);
    assert line[2..n] == Separator(style);
    assert line[n..] == text;
  }

  lemma {:induction false} FieldLinesRoundTrip(style: Style, fs: Entry)
    ensures ParseFieldLines(style, FieldLines(style, fs)) == Some(fs)
    decreases |fs|
  {
    if fs != [] {
      var lines := FieldLines(style, fs);
      var line := TagLine(style, Tag(style, fs[0].0), fs[0].1);
      FieldLineRoundTrip(style, fs[0].0, fs[0].1);
      FieldLinesRoundTrip(style, fs[1..]);
      assert lines == [line] + FieldLines(style, fs[1..]);
      ParseFieldLinesCons(style, line, FieldLines(style, fs[1..]), fs[0], fs[1..]);
      assert [fs[0]] + fs[1..] == fs;
    }
  }

  lemma ParseFieldLinesCons(style: Style, line: string, rest: seq<string>, p: (Field, string), ps: Entry)
    requires ParseFieldLine(style, line) == Some(p) && ParseFieldLines(style, rest) == Some(ps)
    ensures ParseFieldLines(style, [line] + rest) == Some([p] + ps)
  {
    assert ([line] + rest)[0] == line && ([line] + rest)[1..] == rest;
  }

  /** Reading back the lines of one record gives its written view. */
  lemma RecordRoundTrip(style: Style, r: Record)
    ensures ParseRecord(style, RecordLines(style, r)) == Some(TaggedView(r))
  {
    var lines := RecordLines(style, r);
    var c := Closing(style);
    var body := FieldLines(style, TaggedFields(r));
    assert lines[1..|lines| - |c|] == body;
    assert lines[|lines| - |c|..] == c;
    FieldLinesRoundTrip(style, TaggedFields(r));
    TaggedFieldsRoundTrip(r);
  }

  /** The only blank line of a record's lines is its last. */
  lemma {:induction false} FirstBlankOfRecord(style: Style, r: Record, rest: seq<string>)
    ensures FirstBlank(RecordLines(style, r) + rest) == Some(|RecordLines(style, r)| - 1)
  {
    var lines := RecordLines(style, r);
    var fs := TaggedFields(r);
    FieldLinesNotBlank(style, fs);
    forall i | 0 <= i < |lines| - 1
      ensures lines[i] != ""
    {
      if 0 < i <= |fs| {
        assert lines[i] == FieldLines(style, fs)[i - 1];
      }
    }
    BlankAfterNonBlank(lines, rest);
  }

  lemma {:induction false} BlankAfterNonBlank(lines: seq<string>, rest: seq<string>)
    requires lines != [] && lines[|lines| - 1] == ""
    requires forall i :: 0 <= i < |lines| - 1 ==> lines[i] != ""
    ensures FirstBlank(lines + rest) == Some(|lines| - 1)
    decreases |lines|
  {
    if |lines| > 1 {
      assert (lines + rest)[1..] == lines[1..] + rest;
      BlankAfterNonBlank(lines[1..], rest);
    }
  }

  /** The view of every record of a list. */
  function Views(rs: seq<Record>): (vs: seq<Record>)
    ensures |vs| == |rs|
    decreases |rs|
  {
    if rs == [] then [] else [TaggedView(rs[0])] + Views(rs[1..])
  }

  /** The i-th view is the view of the i-th record. */
  lemma {:induction false} ViewsAt(rs: seq<Record>, i: nat)
    requires i < |rs|
    ensures Views(rs)[i] == TaggedView(rs[i])
    decreases i
  {
    if i > 0 {
      ViewsAt(rs[1..], i - 1);
    }
  }

  /** A file made of a well-formed record followed by well-formed records. */
  lemma ParseFileCons(style: Style, head: seq<string>, tail: seq<string>, v: Record, vs: seq<Record>)
    requires head != [] && FirstBlank(head + tail) == Some(|head| - 1)
    requires ParseRecord(style, head) == Some(v) && ParseFile(style, tail) == Some(vs)
    ensures ParseFile(style, head + tail) == Some([v] + vs)
  {
    var lines := head + tail;
    assert lines[..|head|] == head;
    assert lines[|head|..] == tail;
  }

  /** Reading back a whole file gives the written view of every record, in
      the order they were exported. */
  lemma {:induction false} FileRoundTrip(style: Style, rs: seq<Record>)
    ensures ParseFile(style, FileLines(style, rs)) == Some(Views(rs))
    decreases |rs|
  {
    if rs != [] {
      var head := RecordLines(style, rs[0]);
      var tail := FileLines(style, rs[1..]);
      FileLinesFront(style, rs);
      assert FirstBlank(head + tail) == Some(|head| - 1) by {
        FirstBlankOfRecord(style, rs[0], tail);
      }
      assert ParseRecord(style, head) == Some(TaggedView(rs[0])) by {
        RecordRoundTrip(style, rs[0]);
      }
      assert ParseFile(style, tail) == Some(Views(rs[1..])) by {
        FileRoundTrip(style, rs[1..]);
      }
      ParseFileCons(style, head, tail, TaggedView(rs[0]), Views(rs[1..]));
    }
  }

  // ----- The exporters -----

  /** Writes the line of text field f when the field is non-empty. */
  method WriteText(style: Style, lines: seq<string>, f: Field, t: Option<string>) returns (out: seq<string>)
    ensures out == lines + FieldLines(style, TextField(f, t))
  {
    out := lines;
    if Present(t) {
      out := out + [TagLine(style, Tag(style, f), t.value)];
    }
  }

  /** Writes the year line when the year is truthy. */
  method WriteYear(style: Style, lines: seq<string>, y: Option<Year>) returns (out: seq<string>)
    ensures out == lines + FieldLines(style, YearField(y))
  {
    out := lines;
    if YearPresent(y) {
      out := out + [TagLine(style, Tag(style, Year), YearString(y.value))];
    }
  }

  /** Writes one author line per author, in order. */
  method WriteAuthors(style: Style, lines: seq<string>, authors: seq<string>) returns (out: seq<string>)
    ensures out == lines + FieldLines(style, AuthorFields(authors))
  {
    out := lines;
    if authors != [] {
      for k := 0 to |authors|
        invariant out == lines + FieldLines(style, AuthorFields(authors[..k]))
      {
        assert AuthorFields(authors[..k + 1]) == AuthorFields(authors[..k]) + [(Author, authors[k])];
        FieldLinesConcat(style, AuthorFields(authors[..k]), [(Author, authors[k])]);
        out := out + [TagLine(style, Tag(style, Author), authors[k])];
      }
      assert authors[..|authors|] == authors;
    }
  }

  lemma WrittenExtend(style: Style, lines: seq<string>, xs: Entry, ys: Entry)
    requires lines == [Header(style)] + FieldLines(style, xs)
    ensures lines + FieldLines(style, ys) == [Header(style)] + FieldLines(style, xs + ys)
  {
    FieldLinesConcat(style, xs, ys);
  }

  /** Writes the lines of one record as the exporters do: the header, then
      each field line only when the field is non-empty, then the closing
      (lixplore/utils/export.py:288-325, 539-576). */
  method WriteRecord(style: Style, r: Record) returns (lines: seq<string>)
    ensures lines == RecordLines(style, r)
  {
    var x1 := TextField(Title, r.title);
    var x2 := x1 + AuthorFields(r.authors);
    var x3 := x2 + TextField(Journal, r.journal);
    var x4 := x3 + YearField(r.year);
    var x5 := x4 + TextField(Doi, r.doi);
    var x6 := x5 + TextField(Url, r.url);
    var x7 := x6 + TextField(Abstract, r.abstractText);
    var x8 := x7 + TextField(Source, r.source);
    lines := [Header(style)];
    WrittenExtend(style, lines, [], x1);
    assert [] + x1 == x1;
    lines := WriteText(style, lines, Title, r.title);
    WrittenExtend(style, lines, x1, AuthorFields(r.authors));
    lines := WriteAuthors(style, lines, r.authors);
    WrittenExtend(style, lines, x2, TextField(Journal, r.journal));
    lines := WriteText(style, lines, Journal, r.journal);
    WrittenExtend(style, lines, x3, YearField(r.year));
    lines := WriteYear(style, lines, r.year);
    WrittenExtend(style, lines, x4, TextField(Doi, r.doi));
    lines := WriteText(style, lines, Doi, r.doi);
    WrittenExtend(style, lines, x5, TextField(Url, r.url));
    lines := WriteText(style, lines, Url, r.url);
    WrittenExtend(style, lines, x6, TextField(Abstract, r.abstractText));
    lines := WriteText(style, lines, Abstract, r.abstractText);
    WrittenExtend(style, lines, x7, TextField(Source, r.source));
    lines := WriteText(style, lines, Source, r.source);
    assert x8 == TaggedFields(r);
    lines := lines + Closing(style);
  }

  /** export_to_ris / export_to_enw: nothing for an empty list (the source
      returns None), otherwise the lines of every record in order
      (lixplore/utils/export.py:276-278, 286-325, 527-529, 537-576). */
  method ExportTagged(style: Style, results: seq<Record>) returns (file: Option<seq<string>>)
    ensures results == [] ==> file == None
    ensures results != [] ==> file == Some(FileLines(style, results))
  {
    if results == [] {
      return None;
    }
    var lines: seq<string> := [];
    for i := 0 to |results|
      invariant lines == FileLines(style, results[..i])
    {
      var recordLines := WriteRecord(style, results[i]);
      FileLinesSnoc(style, results, i);
      lines := lines + recordLines;
    }
    assert results[..|results|] == results;
    return Some(lines);
  }
}
