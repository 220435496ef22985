# lixplore core, modelled in Dafny

lixplore is a command-line tool. It searches five literature providers: PubMed, Crossref, DOAJ, EuropePMC and arXiv. It merges their answers, can drop duplicate records, lists the results and exports them to files.

This project models three pieces of its logic and proves properties about them.

- **Deduplication** (`lixplore/dispatcher.py`). `deduplicate` keeps the first record of every key. The key is the DOI when it is non-empty, and otherwise the title.
  - The method `Dispatcher.Deduplicate` keeps the source's loop with its `seen` set. It is proved equal to the function `KeepFirst`.
  - The lemmas prove that the output:
    - is a subsequence of the input;
    - has distinct keys and carries every input key;
    - keeps the first record of each key;
    - is as long as the number of keys;
    - does not change when deduplicated again.
  - `search` routing and the detail view of `show_results` are also modelled.
- **Command handling** (`lixplore/commands.py`, `run_main`). This covers:
  - the choice of providers between the combined `-s` string, `-A` and the single flags;
  - the warnings for unknown letters;
  - the choice of search term between `-q`, `-au` (with PubMed's `[Author]` suffix) and `-DOI`;
  - the search over every selected provider, and optional deduplication;
  - the display: the `show_results` listing, followed by `run_main`'s own `-N` views.
- **Exporters** (`lixplore/utils/export.py`). These are BibTeX, RIS, EndNote tagged (`.enw`), CSV, and the format dispatcher `export_results`.
  - The BibTeX, RIS and EndNote exporters are modelled as the sequence of lines they write. The CSV exporter is modelled as its table of cells.
  - The RIS and EndNote writers share one model (`Tagged`), whose parameter is the style: the tags, separator and closing.
  - Whole RIS and EndNote files, and each BibTeX entry, are read back by a parser written for the purpose, which gives the record's exported view (`Tagged.FileRoundTrip`, `Bibtex.EntryRoundTrip`). CSV is stated cell by cell (`Csv.CsvRowCells`).
  - The proofs also establish field order, brace stripping, the shape and uniqueness of citation keys, and the exact point at which the BibTeX writer raises.

Modules:
- `Text`: whitespace words, ASCII case mapping, joining, decimal numbers, subsequences.
- `Records`: the record and Python truthiness.
- `Fields`: the field lists shared by the exporters.
- `Dispatcher`, `Commands`, `Bibtex`, `Tagged`, `Csv`, `Export`.
- `Examples`: the sample lists of the repository's scripts, worked through the model.

Where code and description disagree, the code is followed:
- The comments and expectations of `test_deduplication.py` (lines 22, 58 and 103-108) expect merging by title similarity and by authors. `dispatcher.py:67-75` is the only deduplication in the code, and it compares exact keys. `Examples.DeduplicationScriptSample` proves the seven records the code actually keeps. It keeps records 5 and 6 apart (one key is a title, the other a DOI) and merges records 9 and 10 (same title, no DOI).

Modelling decisions:
- A record is a value with fixed fields. A text field is `None` when its key is absent. The authors list is `[]` when absent. Any other keys go in `extra`.
- A year is a number or a text. "Truthy" is `Present`: present and not `""`. For the year it is `YearPresent`, which also excludes `0`.
- Because records are values, no exporter can change the caller's record. This holds for the CSV writer's copy as well.

## Model

| member | source | states |
|---|---|---|
| Dispatcher.ProviderNamed | lixplore/dispatcher.py:53-64 | a name selects the provider with that name, and no provider when no provider has it |
| Dispatcher.ProviderNameRoundTrip | lixplore/dispatcher.py:54-63 | each of the five names routes to its own provider |
| Dispatcher.Search | lixplore/dispatcher.py:53-64 | a known name gives the answer of that provider's connector; any other name gives the empty list |
| Dispatcher.KeyOf | lixplore/dispatcher.py:71 | the key is the DOI when it is non-empty, otherwise the title (possibly absent) |
| Dispatcher.FirstIndex | lixplore/dispatcher.py:70-74 | the position of the first record with a key: it has the key and no earlier record has it |
| Dispatcher.Deduplicate | lixplore/dispatcher.py:67-75 | the loop with its seen set returns KeepFirst(results), a subsequence with distinct keys, all input keys, and one record per key |
| Dispatcher.KeepFirstSnoc | lixplore/dispatcher.py:70-74 | one more record is appended exactly when its key is new |
| Dispatcher.KeepFirstDropSeen | lixplore/dispatcher.py:72-74 | a record whose key occurred earlier can be removed from the input without changing the output |
| Dispatcher.KeepFirstDropAt | lixplore/dispatcher.py:72-74 | the record at position i is dropped when an earlier record j has its key |
| Dispatcher.KeepFirstKeys | lixplore/dispatcher.py:70-74 | the output carries exactly the keys of the input |
| Dispatcher.KeepFirstDistinct | lixplore/dispatcher.py:71-74 | no two output records share a key |
| Dispatcher.KeepFirstSubsequence | lixplore/dispatcher.py:69-75 | the output is the input with records left out, none created, changed or reordered |
| Dispatcher.DistinctKeysCount | lixplore/dispatcher.py:71-74 | a list with distinct keys has as many keys as records |
| Dispatcher.KeySetBound | lixplore/dispatcher.py:71 | a list has at most as many keys as records |
| Dispatcher.KeepFirstLength | lixplore/dispatcher.py:67-75 | the output length is the number of distinct input keys, at most the input length |
| Dispatcher.FirstIndexAppend | lixplore/dispatcher.py:70-74 | appending a record does not move the first occurrence of a key already present |
| Dispatcher.KeepFirstIsFirstOccurrence | lixplore/dispatcher.py:70-74 | every output record is the first input record with its key |
| Dispatcher.KeepFirstOccurrences | lixplore/dispatcher.py:70-74 | the output holds the input keys, each with its first input record |
| Dispatcher.OccurrencesSnoc | lixplore/dispatcher.py:72-74 | one loop turn keeps the first-occurrence property with the record appended or dropped |
| Dispatcher.FirstIndexOfNew | lixplore/dispatcher.py:72-74 | a record with a new key is its own first occurrence |
| Dispatcher.KeepFirstOfDistinct | lixplore/dispatcher.py:67-75 | a list whose keys are already distinct is returned unchanged |
| Dispatcher.KeepFirstIdempotent | lixplore/dispatcher.py:67-75 | deduplicating twice equals deduplicating once |
| Dispatcher.KeylessRecordsCollapse | lixplore/dispatcher.py:71 | of the records without DOI and title (key None), at most one survives |
| Dispatcher.SelectionView | lixplore/dispatcher.py:95-101 | selection n shows results[n - 1] exactly when 0 <= n - 1 < len(results), otherwise an invalid-selection message |
| Dispatcher.ShowResults | lixplore/dispatcher.py:83-101 | the numbered titles ("No title" when absent), then the numbered abstracts when asked, then one detail view per selected number |
| Commands.ProviderOfLetter | lixplore/commands.py:107-114 | P C J E X select their provider, and each provider has exactly one letter; 'A' and every other character select none |
| Commands.ScanLettersSnoc | lixplore/commands.py:125-129 | one more character adds its provider when it is a letter not yet selected |
| Commands.UnknownCodes | lixplore/commands.py:125-131 | a warning is issued exactly for the characters that are neither a provider letter nor a space or comma |
| Commands.UnknownCodesInOrder | lixplore/commands.py:125-131 | the warnings are taken from the string in string order (a subsequence of it) |
| Commands.UnknownCodesCount | lixplore/commands.py:125-131 | one warning per offending character, repeats included: each unknown character is warned about as often as the string holds it, and no other character is |
| Commands.UnknownCodesConcat | lixplore/commands.py:125-131 | the warnings for two strings back to back are the warnings for the first followed by those for the second |
| Commands.FlagMember | lixplore/commands.py:138-148 | a provider is selected by the single flags exactly when its flag is set |
| Commands.FlagSelectionFacts | lixplore/commands.py:138-148 | the single flags select exactly the flagged providers, in the fixed order pubmed, crossref, doaj, europepmc, arxiv |
| Commands.FlagSources | lixplore/commands.py:138-148 | the successive appends of the flag branch build FlagSelection |
| Commands.SelectSources | lixplore/commands.py:117-148 | a non-empty -s decides (all five when it holds an 'A', its letters otherwise), else -A gives all five, else the flags; the selection never repeats a provider |
| Commands.ChooseSources | lixplore/commands.py:104-148 | the selection and the unknown-code warnings of the source-choosing lines are SelectSources and SelectionWarnings |
| Commands.ScanLettersMembers | lixplore/commands.py:125-129 | a provider is selected from the -s string exactly when its letter occurs in it |
| Commands.ScanLettersNoRepeats | lixplore/commands.py:128-129 | the letter scan never selects a provider twice |
| Commands.ScanLettersOrder | lixplore/commands.py:125-129 | providers are listed in the order in which their letters first occur |
| Commands.ScanLettersExtend | lixplore/commands.py:125-129 | the scan is a left fold: strings with the same selection keep the same selection under the same continuation |
| Commands.ScanLettersIgnoresUnknown | lixplore/commands.py:126-131 | a character that is no provider letter adds nothing, wherever it stands |
| Commands.UpperLetter | lixplore/commands.py:118 | a letter occurs in the upper-cased string exactly when its upper- or lower-case form occurs in the given one |
| Commands.BuildQuery | lixplore/commands.py:166-182 | -q first, then -au (with "[Author]" appended exactly when PubMed is selected), then -DOI; none of them is the error case |
| Commands.NumberView | lixplore/commands.py:228-234 | -N value n shows results[n - 1] exactly when 1 <= n <= len(results), otherwise the out-of-range message with the count |
| Commands.DetailLoopsAgree | lixplore/commands.py:223-234 | run_main's 1..len test and show_results' n - 1 test select the same record for every n |
| Commands.ShowNumbers | lixplore/commands.py:223-234 | one view per -N value, in the order given |
| Commands.SearchAll | lixplore/commands.py:196-203 | the results of every selected provider, merged in selection order |
| Commands.ShowAll | lixplore/commands.py:218-236 | no display for no results; otherwise the show_results listing followed by run_main's own -N views |
| Commands.DisplayOfParts | lixplore/commands.py:218-234 | the listing followed by the -N views is the display run_main produces |
| Commands.RunMain | lixplore/commands.py:95-236 | -H stops at the history; an empty selection stops before the query; a missing search term stops before searching; otherwise the search, deduplication when asked and there are results, and the display |
| Text.TrimmedLength | lixplore/utils/export.py:223 | the end of a prefix once trailing whitespace is removed |
| Text.RunStart | lixplore/utils/export.py:223 | the start of the run of non-whitespace characters that ends at a position |
| Text.LastWord | lixplore/utils/export.py:223 | split()[-1]: a non-empty word exactly when the text has a word, with no whitespace inside it |
| Text.LastWordPlace | lixplore/utils/export.py:223 | the last word is a slice preceded by whitespace or the start and followed only by whitespace |
| Text.Upper | lixplore/commands.py:118 | upper-casing maps each character by ASCII upper case |
| Text.Lower | lixplore/utils/export.py:646 | lower-casing maps each character by ASCII lower case |
| Text.LowerIdempotent | lixplore/utils/export.py:646 | lower-casing twice is lower-casing once |
| Text.Join | lixplore/utils/export.py:239 | joining a single part gives that part |
| Text.JoinSnoc | lixplore/utils/export.py:239 | joining one more part appends the separator and that part |
| Text.JoinLength | lixplore/utils/export.py:239 | the join is as long as its parts plus one separator between each two |
| Text.JoinChars | lixplore/utils/export.py:239 | every character of a join comes from a part or from the separator |
| Text.NatToDecimal | lixplore/utils/export.py:225 | the decimal digits of a position: non-empty, digits only, no leading zero |
| Text.IntToDecimal | lixplore/utils/export.py:224-225 | the decimal text of a year, with a minus sign exactly for negative years |
| Text.DecimalRoundTrip | lixplore/utils/export.py:225 | reading the decimal text of n back gives n |
| Text.DecimalInjective | lixplore/utils/export.py:225 | different positions have different decimal texts |
| Records.YearString | lixplore/utils/export.py:246 | a year number is written as its non-empty decimal text, a year text as itself |
| Records.PresentYearNonEmpty | lixplore/utils/export.py:245-246 | a truthy year is never written as the empty text |
| Records.TextOr | lixplore/dispatcher.py:86 | the field's value when present, the default when absent |
| Fields.TextField | lixplore/utils/export.py:292-293 | a text field gives one line when non-empty and none otherwise |
| Fields.YearField | lixplore/utils/export.py:305-306 | the year gives one line when truthy and none otherwise |
| Fields.AuthorFields | lixplore/utils/export.py:296-298 | one author line per author, in input order |
| Fields.ReadAuthors | lixplore/utils/export.py:296-298 | reading the author lines back restores the author list in order |
| Fields.Kept | lixplore/utils/export.py:292-322 | a text field survives export exactly when it is non-empty, unchanged |
| Fields.KeptYear | lixplore/utils/export.py:305-306 | a year survives export exactly when it is truthy, as its text |
| Fields.ReadTitleAuthors | lixplore/utils/export.py:292-298 | reading back the title and author lines restores the kept title and all authors |
| Fields.ReadTaggedHead | lixplore/utils/export.py:292-306 | reading back the title, author, journal and year lines restores their kept values |
| Fields.TaggedFieldsRoundTrip | lixplore/utils/export.py:291-322 | reading back a tagged record's fields gives exactly its exported view |
| Fields.TaggedViewIdempotent | lixplore/utils/export.py:291-322 | the view of a read-back record is that record: a second export loses nothing more |
| Fields.TaggedFieldsOfView | lixplore/utils/export.py:291-322 | exporting the read-back record writes the same fields again |
| Fields.TaggedHeadInOrder | lixplore/utils/export.py:291-306 | the title, author, journal and year lines come in that order |
| Fields.TaggedFieldsInOrder | lixplore/utils/export.py:291-322 | a tagged record's lines come in the order TI, AU, JO, PY, DO, UR, AB, DB (likewise %T ... %~) |
| Tagged.FieldOfTag | lixplore/utils/export.py:289-322 | a tag stands for the field that has it |
| Tagged.TagRoundTrip | lixplore/utils/export.py:289-322 | every tag has two characters and names its field uniquely, in RIS and EndNote |
| Tagged.FieldLines | lixplore/utils/export.py:291-322 | one tagged line per field |
| Tagged.FieldLinesConcat | lixplore/utils/export.py:291-322 | the lines of consecutive fields are the lines of each in turn |
| Tagged.FieldLinesNotBlank | lixplore/utils/export.py:291-322 | no field line is blank |
| Tagged.RecordsLines | lixplore/utils/export.py:287-325 | the lines of each record, in order |
| Tagged.FileLinesFront | lixplore/utils/export.py:287-325 | a file is its first record's lines followed by the lines of the others |
| Tagged.FileLinesSnoc | lixplore/utils/export.py:287-325 | one more record appends its lines to the file |
| Tagged.FieldLineRoundTrip | lixplore/utils/export.py:293 | a field line reads back as its field and text |
| Tagged.FieldLinesRoundTrip | lixplore/utils/export.py:291-322 | the field lines of a record read back as its field list |
| Tagged.RecordRoundTrip | lixplore/utils/export.py:288-325 | a record's lines (header, fields, closing) read back as its exported view |
| Tagged.FirstBlankOfRecord | lixplore/utils/export.py:288-325 | the only blank line of a record's lines is its last, so records can be told apart |
| Tagged.BlankAfterNonBlank | lixplore/utils/export.py:325 | the first blank line of a file is the one that closes its first record |
| Tagged.Views | lixplore/utils/export.py:287-325 | the exported view of every record |
| Tagged.ViewsAt | lixplore/utils/export.py:287-325 | the i-th view is the view of the i-th record |
| Tagged.FileRoundTrip | lixplore/utils/export.py:286-325 | reading back a whole RIS or EndNote file gives the view of every record, in export order |
| Tagged.WriteText | lixplore/utils/export.py:292-293 | a text field's line is appended only when the field is non-empty |
| Tagged.WriteYear | lixplore/utils/export.py:305-306 | the year line is appended only when the year is truthy |
| Tagged.WriteAuthors | lixplore/utils/export.py:296-298 | one author line is appended per author, in order |
| Tagged.WrittenExtend | lixplore/utils/export.py:291-322 | appending the lines of more fields extends the record written so far |
| Tagged.WriteRecord | lixplore/utils/export.py:288-325 | the writer produces RecordLines: header, the non-empty fields in order, closing (likewise 539-576) |
| Tagged.ExportTagged | lixplore/utils/export.py:276-325 | nothing for an empty list, otherwise every record's lines in order (likewise 527-576) |
| Bibtex.RemoveCharFacts | lixplore/utils/export.py:235 | replace(c, "") leaves no c, keeps every other character in order, and shortens by the number of c |
| Bibtex.StripBracesFacts | lixplore/utils/export.py:235 | stripping removes every brace and keeps all other characters in order |
| Bibtex.RemoveAbsent | lixplore/utils/export.py:235 | removing an absent character changes nothing |
| Bibtex.StripBracesIdentity | lixplore/utils/export.py:235 | a text without braces is written unchanged |
| Bibtex.StripBracesIdempotent | lixplore/utils/export.py:255 | stripping twice is stripping once |
| Bibtex.CitationKey | lixplore/utils/export.py:221-225 | no key (IndexError) exactly when the first author has no word |
| Bibtex.CitationKeyShape | lixplore/utils/export.py:225 | a key starts with surname-and-year (or "article" and year) and ends with "_" and the 1-based position |
| Bibtex.AfterLastUnderscoreOf | lixplore/utils/export.py:225 | the text after the last underscore of stem + "_" + digits is the digits |
| Bibtex.KeyPositionOf | lixplore/utils/export.py:225 | the position can be read back from the end of a key |
| Bibtex.CitationKeysDistinct | lixplore/utils/export.py:219-225 | records at different positions get different citation keys |
| Bibtex.FieldNamed | lixplore/utils/export.py:236-256 | a BibTeX field name names its field; no entry carries the source |
| Bibtex.FieldNameRoundTrip | lixplore/utils/export.py:236-256 | every written field name reads back as its field and has no space |
| Bibtex.StrippedField | lixplore/utils/export.py:234-236 | title and abstract give at most one line, only for that field |
| Bibtex.AuthorLine | lixplore/utils/export.py:238-240 | the authors give at most one author line |
| Bibtex.KeptStripped | lixplore/utils/export.py:234-236 | a title or abstract survives exactly when it is non-empty |
| Bibtex.BibFieldsRoundTrip | lixplore/utils/export.py:234-256 | reading back an entry's fields gives the BibTeX view: braces stripped from title and abstract, authors joined by " and ", no source |
| Bibtex.StrictPieces | lixplore/utils/export.py:234-256 | seven single-field pieces in the fixed order form a strictly ordered entry |
| Bibtex.BibFieldsInOrder | lixplore/utils/export.py:234-256 | each field appears at most once, in the order title, author, journal, year, doi, url, abstract, never the source |
| Bibtex.FieldLines | lixplore/utils/export.py:236-256 | one "  name = {text}," line per field |
| Bibtex.FieldLinesConcat | lixplore/utils/export.py:234-256 | the lines of consecutive fields are the lines of each in turn |
| Bibtex.BibtexEntry | lixplore/utils/export.py:219-259 | no lines exactly where the key raises |
| Bibtex.TakeNameOf | lixplore/utils/export.py:236 | the field name is read back up to the first space |
| Bibtex.FieldLineRoundTrip | lixplore/utils/export.py:236 | a field line reads back as its field and text |
| Bibtex.FieldLinesRoundTrip | lixplore/utils/export.py:234-256 | the field lines of an entry read back as its field list |
| Bibtex.EntryLinesRoundTrip | lixplore/utils/export.py:231-259 | "@article{key,", the field lines, "}" and a blank line read back as key and fields |
| Bibtex.EntryRoundTrip | lixplore/utils/export.py:219-259 | an entry reads back as its key, which ends with the record's position, and its view |
| Bibtex.Entries | lixplore/utils/export.py:219 | the entry of each record at its 1-based position |
| Bibtex.BibtexFile | lixplore/utils/export.py:208-259 | nothing is written exactly for an empty list |
| Bibtex.WriteUpToOutcome | lixplore/utils/export.py:218-259 | writing succeeds exactly when no entry raises, and otherwise stops at the first entry that raises |
| Bibtex.BibtexFileOutcome | lixplore/utils/export.py:218-259 | the exporter raises exactly at the first record whose first author has no word, after writing the entries before it |
| Bibtex.EntriesFail | lixplore/utils/export.py:221-223 | an entry fails exactly when its record's key fails |
| Bibtex.WriteUpToNext | lixplore/utils/export.py:219-259 | one more entry is appended, or writing raises at it |
| Bibtex.RaisedPersists | lixplore/utils/export.py:219-259 | once writing has raised, later entries change nothing |
| Bibtex.BibFieldsAsWritten | lixplore/utils/export.py:234-256 | the entry's fields are the seven tested-and-rendered pieces in order |
| Bibtex.LinesStep | lixplore/utils/export.py:234-256 | adding the lines of further fields extends the lines written so far |
| Bibtex.BibLinesAsWritten | lixplore/utils/export.py:234-256 | the lines of the entry's fields are the lines of the seven pieces in order |
| Bibtex.WriteField | lixplore/utils/export.py:245-246 | a field line is appended only when the field is present |
| Bibtex.ComputeKey | lixplore/utils/export.py:221-225 | the key computation gives CitationKey |
| Bibtex.WriteFields | lixplore/utils/export.py:234-256 | after the opening line, the seven tests each append their field line when the field is non-empty |
| Bibtex.WriteEntry | lixplore/utils/export.py:221-259 | the lines written for one record are BibtexEntry, or none where the key raises |
| Bibtex.ExportBibtex | lixplore/utils/export.py:208-259 | the exporter's outcome is BibtexFile: skipped, written, or raised at the first failing record with the lines before it |
| Csv.Row | lixplore/utils/export.py:155-163 | the row has the eight columns, each the key's value or "" |
| Csv.CsvRow | lixplore/utils/export.py:160-163 | a record's row has eight cells |
| Csv.CsvRowCells | lixplore/utils/export.py:158-163 | each column holds its own field ("" when absent), the authors joined by "; ", the year even when falsy |
| Csv.PutLookup | lixplore/utils/export.py:160-162 | setting a key changes only that key's value |
| Csv.RowDictLookup | lixplore/utils/export.py:160-162 | the row dictionary holds each field under its column name, the authors joined by "; " |
| Csv.CsvRowIgnoresExtras | lixplore/utils/export.py:155 | keys other than the eight columns never reach the file |
| Csv.CsvTable | lixplore/utils/export.py:154-163 | the header row, then one row per record in order |
| Csv.ExportCsv | lixplore/utils/export.py:138-163 | nothing for an empty list, otherwise the whole table |
| Export.FormatNamed | lixplore/utils/export.py:646-666 | a name selects the format whose name is its lower-cased form |
| Export.FormatNamedRoundTrip | lixplore/utils/export.py:646-663 | each of the eight names selects its format |
| Export.FormatNamedIgnoresCase | lixplore/utils/export.py:646 | the name's case does not matter |
| Export.LowerOfUpper | lixplore/utils/export.py:646 | lower-casing after upper-casing is lower-casing |
| Export.ExportResults | lixplore/utils/export.py:634-666 | an unknown name exports nothing; XLSX needs its library; every exporter exports nothing for an empty list; otherwise each format's content |
| Examples.KeepFirstOfFive | lixplore/dispatcher.py:67-75 | in five records where the third repeats the first key and the fifth the fourth, three survive |
| Examples.TroubleshootSample | troubleshoot.py:202-215 | the troubleshooting sample collapses five records to the expected three |
| Examples.KeepFirstOfTen | lixplore/dispatcher.py:67-75 | in ten records with keys k1 k1 k3 k3 k5 to k9 k9, seven survive |
| Examples.ScriptKeyListDistinct | test_deduplication.py:8-68 | the seven surviving keys of the script's sample are distinct |
| Examples.ScriptKeys | test_deduplication.py:8-68 | the key of each sample record is its DOI, or its title when the DOI is empty |
| Examples.DeduplicationScriptSample | test_deduplication.py:8-68 | the code keeps records 1, 3, 5, 6, 7, 8 and 9 of the script's ten: 5 and 6 stay apart, 9 and 10 merge |

## Left out

- Files and folders: export directories, file names, opening and writing files, and the JSON cache. A text exporter's output is the list of lines it writes. The printed messages are represented only by the outcome values.
- The clock: the BibTeX default year `datetime.now().year` is the parameter `currentYear`.
- Library encoders: JSON, XLSX (openpyxl), EndNote XML and generic XML are represented by `LibraryFile(format, count)`. Their content is not modelled. Whether openpyxl is available is the parameter `xlsxAvailable`.
- Network connectors: `dispatcher.search` hands the query to an opaque `Connector` function.
- Terminal output and spawning, and `show_abstract`/`show_authors`. `show_results` and `run_main` produce the list of `Shown` items they print, not the printed text. The JSON rendering of a detail view is reduced to the record.
- argparse and CLI registration. `Args` holds the parsed options.
- Stubs with no behaviour: `filter_by_date`, `export_zotero` and `show_history`. The zotero option, which only calls `export_zotero` (`commands.py:213-215`), is therefore not part of `Args`.
- `handle` in `lixplore/dispatcher.py:25-50`, which `run_main` does not call.
- An explicit `null` in a record is treated like an absent key. In the source, `r.get(key, default)` would give `None` rather than the default.
- Case mapping is ASCII only. Python's `upper`/`lower` also map other letters, and some of them expand into an ASCII letter followed by a combining mark. In Python, `-s ǰ` upper-cases to "J" and U+030C, which selects DOAJ. `-s ẚ` upper-cases to "A" and U+02BE, which selects all five providers (`commands.py:118-121`). The model instead warns about such a character and selects nothing for it. It also compares format names only after ASCII lower-casing.
- `Bibtex.CitationKey`: an empty or blank first author makes the source raise. This is modelled as the `Raised` outcome, not as a precondition.
- CSV quoting and the rendering of a cell by the `csv` module are not modelled. The table is modelled as its cells.
- Newlines inside field values are not modelled. The round trips read a value back as one line, which such values would break.
- Commands.NumberView: the `isinstance(n, int)` test (`commands.py:225-227`) is not modelled. argparse already makes every `-N` value an integer.
- Commands.RunMain: its source-listing and progress messages (`commands.py:152-163`, `172-181`, `184-206`) are printed text and are left out.
- Dispatcher.KeepFirstIsFirstOccurrence: does not state the output order, which `Dispatcher.KeepFirstSubsequence` states.
