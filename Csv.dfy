/** The CSV exporter (export_to_csv): a header row with the eight columns
    and one row per record, written through csv.DictWriter with
    extrasaction='ignore'. A table is modelled as its cells; the quoting
    DictWriter applies when it renders a cell is not part of this model. */
module Csv {
  import opened Text
  import opened Records

  /** The columns, in order (lixplore/utils/export.py:149-152). */
  const Columns: seq<string> := ["title", "authors", "abstract", "journal", "year", "doi", "url", "source"]

  /** The keys a record names itself; extra holds none of them. */
  const NamedKeys: set<string> := {"title", "authors", "abstract", "journal", "year", "doi", "url", "source"}

  /** Adds key k with the text of a present field. */
  function Put(m: map<string, string>, k: string, t: Option<string>): map<string, string> {
    if t.Some? then m[k := t.value] else m
  }

  /** The row dictionary handed to the writer: a copy of the record with
      the authors list joined by "; " and every value as its text; keys
      holding null are left out, which the writer treats the same way
      (lixplore/utils/export.py:160-162). */
  function RowDict(r: Record): map<string, string> {
    var m := r.extra - NamedKeys;
    var m := Put(m, "title", r.title);
    var m := m["authors" := Join(r.authors, "; ")];
    var m := Put(m, "abstract", r.abstractText);
    var m := Put(m, "journal", r.journal);
    var m := Put(m, "year", if r.year.Some? then Some(YearString(r.year.value)) else None);
    var m := Put(m, "doi", r.doi);
    var m := Put(m, "url", r.url);
    Put(m, "source", r.source)
  }

  /** DictWriter.writerow: the value of each column, "" for a missing key;
      other keys are ignored. */
  function Row(d: map<string, string>): (row: seq<string>)
    ensures |row| == |Columns|
    ensures forall i :: 0 <= i < |Columns| ==> row[i] == TextOr(Cell(d, Columns[i]), "")
  {
    seq(|Columns|, i requires 0 <= i < |Columns| => if Columns[i] in d then d[Columns[i]] else "")
  }

  /** The row of one record (lixplore/utils/export.py:160-162). */
  function CsvRow(r: Record): (row: seq<string>)
    ensures |row| == |Columns|
  {
    Row(RowDict(r))
  }

  /** Each column of a record's row holds its own field, "" for an absent
      one; the year cell is written even when it is 0 or "", unlike the year
      lines of the other exporters. */
  lemma CsvRowCells(r: Record)
    ensures var row := CsvRow(r);
      && row[0] == TextOr(r.title, "")
      && row[1] == Join(r.authors, "; ")
      && row[2] == TextOr(r.abstractText, "")
      && row[3] == TextOr(r.journal, "")
      && row[4] == (if r.year.Some? then YearString(r.year.value) else "")
      && row[5] == TextOr(r.doi, "")
      && row[6] == TextOr(r.url, "")
      && row[7] == TextOr(r.source, "")
  {
    var d := RowDict(r);
    RowDictLookup(r);
    assert Columns[0] == "title" && Columns[1] == "authors" && Columns[2] == "abstract" && Columns[3] == "journal";
    assert Columns[4] == "year" && Columns[5] == "doi" && Columns[6] == "url" && Columns[7] == "source";
  }

  /** The value the writer finds for a column: the field's text, or no
      entry when the field is absent. */
  function Cell(d: map<string, string>, k: string): Option<string> {
    if k in d then Some(d[k]) else None
  }

  lemma PutLookup(m: map<string, string>, k: string, t: Option<string>, j: string)
    ensures Cell(Put(m, k, t), j) == if j == k && t.Some? then t else Cell(m, j)
  {
  }

  lemma RowDictLookup(r: Record)
    ensures var d := RowDict(r);
      && Cell(d, "title") == r.title
      && Cell(d, "authors") == Some(Join(r.authors, "; "))
      && Cell(d, "abstract") == r.abstractText
      && Cell(d, "journal") == r.journal
      && Cell(d, "year") == (if r.year.Some? then Some(YearString(r.year.value)) else None)
      && Cell(d, "doi") == r.doi
      && Cell(d, "url") == r.url
      && Cell(d, "source") == r.source
  {
    var m0 := r.extra - NamedKeys;
    forall k | k in NamedKeys ensures Cell(m0, k) == None {
    }
    var year := if r.year.Some? then Some(YearString(r.year.value)) else None;
    var m1 := Put(m0, "title", r.title);
    var m2 := m1["authors" := Join(r.authors, "; ")];
    var m3 := Put(m2, "abstract", r.abstractText);
    var m4 := Put(m3, "journal", r.journal);
    var m5 := Put(m4, "year", year);
    var m6 := Put(m5, "doi", r.doi);
    var m7 := Put(m6, "url", r.url);
    var m8 := Put(m7, "source", r.source);
    assert m8 == RowDict(r);
    forall k | k in NamedKeys
      ensures Cell(m8, k) == (if k == "title" then r.title
        else if k == "authors" then Some(Join(r.authors, "; "))
        else if k == "abstract" then r.abstractText
        else if k == "journal" then r.journal
        else if k == "year" then year
        else if k == "doi" then r.doi
        else if k == "url" then r.url
        else r.source)
    {
      PutLookup(m0, "title", r.title, k);
      PutLookup(m2, "abstract", r.abstractText, k);
      PutLookup(m3, "journal", r.journal, k);
      PutLookup(m4, "year", year, k);
      PutLookup(m5, "doi", r.doi, k);
      PutLookup(m6, "url", r.url, k);
      PutLookup(m7, "source", r.source, k);
    }
  }

  /** Keys other than the eight columns never reach the file. */
  lemma CsvRowIgnoresExtras(r: Record, extra: map<string, string>)
    ensures CsvRow(r.(extra := extra)) == CsvRow(r)
  {
    var a, b := CsvRow(r.(extra := extra)), CsvRow(r);
    CsvRowCells(r);
    CsvRowCells(r.(extra := extra));
    assert |a| == |b| == 8;
    forall i | 0 <= i < 8
      ensures a[i] == b[i]
    {
      assert i == 0 || i == 1 || i == 2 || i == 3 || i == 4 || i == 5 || i == 6 || i == 7;
    }
  }

  /** The whole table: the header row, then one row per record in order. */
  function CsvTable(results: seq<Record>): (table: seq<seq<string>>)
    ensures |table| == |results| + 1 && table[0] == Columns
    ensures forall i :: 0 <= i < |results| ==> table[i + 1] == CsvRow(results[i])
    decreases |results|
  {
    if results == [] then [Columns]
    else CsvTable(results[..|results| - 1]) + [CsvRow(results[|results| - 1])]
  }

  /** export_to_csv: nothing for an empty list (the source returns None),
      otherwise the header and a row per record
      (lixplore/utils/export.py:138-140, 149-163). */
  method ExportCsv(results: seq<Record>) returns (table: Option<seq<seq<string>>>)
    ensures results == [] ==> table == None
    ensures results != [] ==> table == Some(CsvTable(results))
  {
    if results == [] {
      return None;
    }
    var rows := [Columns];
    for i := 0 to |results|
      invariant rows == CsvTable(results[..i])
    {
      var row := RowDict(results[i]);
      assert results[..i + 1][..i] == results[..i];
      rows := rows + [Row(row)];
    }
    assert results[..|results|] == results;
    return Some(rows);
  }
}
