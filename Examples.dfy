/** The deduplication samples of the repository's own test scripts, worked
    through the model. */
module Examples {
  import opened Records
  import opened Dispatcher

  /** A record with a title, a DOI ("" for none) and authors. */
  function Article(title: string, doi: string, authors: seq<string>): Record {
    Record(Some(title), authors, None, None, None, Some(doi), None, None, map[])
  }

  /** The sequences the five-record proof passes through. */
  lemma FiveShape<T>(rs: seq<T>)
    requires |rs| == 5
    ensures rs[..4] + rs[5..] == rs[..4]
    ensures rs[..4][..2] + rs[..4][3..] == [rs[0], rs[1], rs[3]]
  {
  }

  /** Five records where the third repeats the first key and the fifth the
      fourth: three survive. */
  lemma KeepFirstOfFive(rs: seq<Record>)
    requires |rs| == 5 && KeyOf(rs[2]) == KeyOf(rs[0]) && KeyOf(rs[4]) == KeyOf(rs[3])
    requires DistinctKeys([rs[0], rs[1], rs[3]])
    ensures KeepFirst(rs) == [rs[0], rs[1], rs[3]]
  {
    FiveShape(rs);
    KeepFirstDropAt(rs, 3, 4);
    KeepFirstDropAt(rs[..4], 0, 2);
    KeepFirstOfDistinct([rs[0], rs[1], rs[3]]);
  }

  /** The records of the troubleshooting script's deduplication check
      (troubleshoot.py:202-208). */
  const TroubleshootRecords: seq<Record> := [
    Article("Article 1", "10.1234/test1", []),
    Article("Article 2", "10.1234/test2", []),
    Article("Article 1 Duplicate", "10.1234/test1", []),
    Article("Article 3", "", []),
    Article("Article 3", "", [])]

  /** The troubleshooting sample: a repeated DOI and a repeated title
      without DOI collapse five records to three (troubleshoot.py:202-215). */
  lemma TroubleshootSample()
    ensures var rs := TroubleshootRecords; KeepFirst(rs) == [rs[0], rs[1], rs[3]]
  {
    var rs := TroubleshootRecords;
    assert KeyOf(rs[0]) == Some("10.1234/test1") && KeyOf(rs[1]) == Some("10.1234/test2");
    assert KeyOf(rs[3]) == Some("Article 3") && KeyOf(rs[2]) == KeyOf(rs[0]) && KeyOf(rs[4]) == KeyOf(rs[3]);
    assert DistinctKeys([rs[0], rs[1], rs[3]]);
    KeepFirstOfFive(rs);
  }

  /** The sequences the ten-record proof passes through. */
  lemma TenShape<T>(rs: seq<T>)
    requires |rs| == 10
    ensures rs[..9] + rs[10..] == rs[..9]
    ensures var b := rs[..9][..3] + rs[..9][4..];
      && b[0] == rs[0] && b[1] == rs[1]
      && b[..1] + b[2..] == [rs[0], rs[2]] + rs[4..9]
  {
    var b := rs[..9][..3] + rs[..9][4..];
    assert b[2..] == [rs[2]] + rs[4..9];
  }

  /** Ten records with keys k1 k1 k3 k3 k5 k6 k7 k8 k9 k9: seven survive. */
  lemma KeepFirstOfTen(rs: seq<Record>)
    requires |rs| == 10
    requires KeyOf(rs[1]) == KeyOf(rs[0]) && KeyOf(rs[3]) == KeyOf(rs[2]) && KeyOf(rs[9]) == KeyOf(rs[8])
    requires DistinctKeys([rs[0], rs[2]] + rs[4..9])
    ensures KeepFirst(rs) == [rs[0], rs[2]] + rs[4..9]
  {
    TenShape(rs);
    var a := rs[..9];
    var b := a[..3] + a[4..];
    KeepFirstDropAt(rs, 8, 9);
    KeepFirstDropAt(a, 2, 3);
    KeepFirstDropAt(b, 0, 1);
    KeepFirstOfDistinct([rs[0], rs[2]] + rs[4..9]);
  }

  // The records of the deduplication test script (test_deduplication.py:8-82).
  const Script1: Record := Article("Machine Learning in Healthcare", "10.1234/example.001", ["Smith J", "Doe A"])
  const Script2: Record := Article("Machine Learning in Healthcare", "10.1234/example.001", ["Smith, John", "Doe, Alice"])
  const Script3: Record := Article("Deep Learning for Medical Imaging", "", ["Johnson B", "Lee C"])
  const Script4: Record := Article("Deep Learning for Medical Imaging", "", ["Johnson B", "Lee C"])
  const Script5: Record := Article("Novel Approach to Cancer Detection", "", ["Brown M", "Taylor R", "Wilson K"])
  const Script6: Record := Article("A Novel Approach to Cancer Detection Using AI", "10.5678/published.002", ["Brown M", "Taylor R", "Wilson K"])
  const Script7: Record := Article("Quantum Computing Applications", "10.9999/quantum.001", ["Einstein A", "Bohr N"])
  const Script8: Record := Article("Neural Networks for Image Recognition", "10.8888/neural.002", ["Turing A", "von Neumann J"])
  const Script9: Record := Article("COVID-19 Vaccine Efficacy Study", "", ["Wang X", "Zhang Y"])
  const Script10: Record := Article("COVID-19 Vaccine Efficacy Study", "", ["Miller P", "Garcia R"])

  const ScriptRecords: seq<Record> := [Script1, Script2, Script3, Script4, Script5,
    Script6, Script7, Script8, Script9, Script10]

  /** The keys that survive in the script's sample, in order. */
  const ScriptKeyList: seq<Option<string>> := [Some("10.1234/example.001"),
    Some("Deep Learning for Medical Imaging"), Some("Novel Approach to Cancer Detection"),
    Some("10.5678/published.002"), Some("10.9999/quantum.001"), Some("10.8888/neural.002"),
    Some("COVID-19 Vaccine Efficacy Study")]

  lemma ScriptKeyListDistinct()
    ensures forall i, j :: 0 <= i < j < |ScriptKeyList| ==> ScriptKeyList[i] != ScriptKeyList[j]
  {
  }

  /** The key of each record of the script: a DOI when it has one, else
      its title; the first, third and fifth to ninth keys are distinct. */
  lemma ScriptKeys()
    ensures var ks := ScriptKeyList;
      && KeyOf(Script1) == KeyOf(Script2) == ks[0]
      && KeyOf(Script3) == KeyOf(Script4) == ks[1]
      && KeyOf(Script5) == ks[2] && KeyOf(Script6) == ks[3]
      && KeyOf(Script7) == ks[4] && KeyOf(Script8) == ks[5]
      && KeyOf(Script9) == KeyOf(Script10) == ks[6]
  {
  }

  /** The ten-record sample: the code keeps seven records, but not the seven
      the script describes. Records 5 and 6 (different titles, one DOI
      missing) are both kept, and records 9 and 10 (same title, no DOI,
      different authors) are merged, since the key is the DOI or else the
      title and authors play no part (test_deduplication.py:8-82). */
  lemma DeduplicationScriptSample()
    ensures |ScriptRecords| == 10
    ensures var rs := ScriptRecords;
      KeepFirst(rs) == [rs[0], rs[2], rs[4], rs[5], rs[6], rs[7], rs[8]]
  {
    var rs := ScriptRecords;
    ScriptKeys();
    ScriptKeyListDistinct();
    var c := [rs[0], rs[2]] + rs[4..9];
    assert DistinctKeys(c) by {
      assert forall i :: 0 <= i < |c| ==> KeyOf(c[i]) == ScriptKeyList[i];
    }
    KeepFirstOfTen(rs);
    assert [rs[0], rs[2]] + rs[4..9] == [rs[0], rs[2], rs[4], rs[5], rs[6], rs[7], rs[8]];
  }
}
