/** export_results: routes a result list to the exporter its format name
    selects, after lower-casing the name. */
module Export {
  import opened Text
  import opened Records
  import Tagged
  import Bibtex
  import Csv

  datatype Format = CsvFormat | Json | BibtexFormat | RisFormat | Xlsx | EndnoteXml | EnwFormat | Xml

  /** The eight supported names. */
  function FormatName(f: Format): string {
    match f
    case CsvFormat => "csv"
    case Json => "json"
    case BibtexFormat => "bibtex"
    case RisFormat => "ris"
    case Xlsx => "xlsx"
    case EndnoteXml => "endnote"
    case EnwFormat => "enw"
    case Xml => "xml"
  }

  /** The format a name selects, ignoring ASCII case; None for any other
      name (lixplore/utils/export.py:646-666). */
  function FormatNamed(name: string): (f: Option<Format>)
    ensures f.Some? ==> FormatName(f.value) == Lower(name)
  {
    var n := Lower(name);
    if n == "csv" then Some(CsvFormat)
    else if n == "json" then Some(Json)
    else if n == "bibtex" then Some(BibtexFormat)
    else if n == "ris" then Some(RisFormat)
    else if n == "xlsx" then Some(Xlsx)
    else if n == "endnote" then Some(EndnoteXml)
    else if n == "enw" then Some(EnwFormat)
    else if n == "xml" then Some(Xml)
    else None
  }

  /** Every supported name selects its format, and only names that
      lower-case to a supported name select one. */
  lemma FormatNamedRoundTrip(f: Format)
    ensures FormatNamed(FormatName(f)) == Some(f)
  {
    var n := FormatName(f);
    assert Lower(n) == n by {
      forall i | 0 <= i < |n| ensures LowerChar(n[i]) == n[i] {
      }
    }
  }

  /** The name's case does not matter. */
  lemma FormatNamedIgnoresCase(name: string)
    ensures FormatNamed(Lower(name)) == FormatNamed(name)
    ensures FormatNamed(Upper(name)) == FormatNamed(name)
  {
    LowerIdempotent(name);
    LowerOfUpper(name);
  }

  lemma LowerOfUpper(s: string)
    ensures Lower(Upper(s)) == Lower(s)
  {
    assert forall i :: 0 <= i < |s| ==> LowerChar(UpperChar(s[i])) == LowerChar(s[i]);
  }

  /** What an export produces. The JSON, XLSX, EndNote XML and generic XML
      files are written by library encoders and are represented only by
      their format and the number of records they hold. */
  datatype Exported =
    | Unsupported(name: string)
    | NoResults
    | XlsxUnavailable
    | CsvFile(table: seq<seq<string>>)
    | BibtexFile(lines: seq<string>)
    | BibtexRaised(position: nat, partial: seq<string>)
    | RisFile(lines: seq<string>)
    | EnwFile(lines: seq<string>)
    | LibraryFile(format: Format, count: nat)

  /** True when the export wrote a file (the source returns its name). */
  predicate Saved(e: Exported) {
    e.CsvFile? || e.BibtexFile? || e.RisFile? || e.EnwFile? || e.LibraryFile?
  }

  /** export_results: the lower-cased name selects the exporter; an unknown
      name exports nothing; every exporter exports nothing for an empty
      list, and the XLSX exporter first checks that its library is
      available (lixplore/utils/export.py:138-140, 180-182, 208-210,
      276-278, 342-348, 420-422, 527-529, 593-595, 646-666). */
  method ExportResults(results: seq<Record>, name: string, currentYear: int, xlsxAvailable: bool)
    returns (e: Exported)
    ensures FormatNamed(name).None? <==> e == Unsupported(Lower(name))
    ensures FormatNamed(name) == Some(Xlsx) && !xlsxAvailable ==> e == XlsxUnavailable
    ensures FormatNamed(name).Some? && results == [] && !e.XlsxUnavailable? ==> e == NoResults
    ensures Saved(e) ==> results != [] && FormatNamed(name).Some?
    ensures results != [] ==> match FormatNamed(name)
      case Some(CsvFormat) => e == CsvFile(Csv.CsvTable(results))
      case Some(BibtexFormat) =>
        (match Bibtex.BibtexFile(results, currentYear)
         case Written(lines) => e == BibtexFile(lines)
         case Raised(p, partial) => e == BibtexRaised(p, partial)
         case Skipped => false)
      case Some(RisFormat) => e == RisFile(Tagged.FileLines(Tagged.Ris, results))
      case Some(EnwFormat) => e == EnwFile(Tagged.FileLines(Tagged.Enw, results))
      case Some(Xlsx) => xlsxAvailable ==> e == LibraryFile(Xlsx, |results|)
      case Some(f) => e == LibraryFile(f, |results|)
      case None => true
  {
    var format := FormatNamed(name);
    match format {
      case None =>
        return Unsupported(Lower(name));
      case Some(CsvFormat) =>
        var table := Csv.ExportCsv(results);
        e := if table.Some? then CsvFile(table.value) else NoResults;
      case Some(BibtexFormat) =>
        var outcome := Bibtex.ExportBibtex(results, currentYear);
        e := match outcome
          case Written(lines) => BibtexFile(lines)
          case Raised(p, partial) => BibtexRaised(p, partial)
          case Skipped => NoResults;
      case Some(RisFormat) =>
        var lines := Tagged.ExportTagged(Tagged.Ris, results);
        e := if lines.Some? then RisFile(lines.value) else NoResults;
      case Some(EnwFormat) =>
        var lines := Tagged.ExportTagged(Tagged.Enw, results);
        e := if lines.Some? then EnwFile(lines.value) else NoResults;
      case Some(Xlsx) =>
        if !xlsxAvailable {
          return XlsxUnavailable;
        }
        e := if results == [] then NoResults else LibraryFile(Xlsx, |results|);
      case Some(f) =>
        e := if results == [] then NoResults else LibraryFile(f, |results|);
    }
  }
}
