/** lixplore/dispatcher.py: routing a search to a provider, first-occurrence
    deduplication of the merged result list, and the listing and detail view
    of show_results. */
module Dispatcher {
  import opened Text
  import opened Records

  // ----- Providers and search routing -----

  /** The five literature providers the dispatcher knows. */
  datatype Provider = PubMed | Crossref | Doaj | EuropePmc | Arxiv

  /** The name under which the command handler asks for a provider. */
  function ProviderName(p: Provider): string {
    match p
    case PubMed => "pubmed"
    case Crossref => "crossref"
    case Doaj => "doaj"
    case EuropePmc => "europepmc"
    case Arxiv => "arxiv"
  }

  /** The provider a source name selects, if any. */
  function ProviderNamed(name: string): (p: Option<Provider>)
    ensures p.Some? ==> ProviderName(p.value) == name
    ensures p.None? ==> forall q: Provider :: ProviderName(q) != name
  {
    if name == "pubmed" then Some(PubMed)
    else if name == "crossref" then Some(Crossref)
    else if name == "doaj" then Some(Doaj)
    else if name == "europepmc" then Some(EuropePmc)
    else if name == "arxiv" then Some(Arxiv)
    else None
  }

  /** Looking up the name of a provider gives that provider back. */
  lemma ProviderNameRoundTrip(p: Provider)
    ensures ProviderNamed(ProviderName(p)) == Some(p)
  {
  }

  /** The network connectors, which are not modelled: a connector answers a
      provider, a query and a limit with a list of records. */
  type Connector = (Provider, string, int) -> seq<Record>

  /** search(source, query, limit): hand the query to the connector the name
      selects; any other name gives the empty list. */
  function Search(source: string, query: string, limit: int, connector: Connector): (rs: seq<Record>)
    ensures (forall q: Provider :: ProviderName(q) != source) ==> rs == []
    ensures forall q: Provider :: ProviderName(q) == source ==> rs == connector(q, query, limit)
  {
    match ProviderNamed(source)
    case Some(p) => connector(p, query, limit)
    case None => []
  }

  // ----- Deduplication -----

  /** The key a record is deduplicated on: `r.get("doi") or r.get("title")`,
      that is the DOI when it is non-empty, and otherwise the title, which may
      itself be absent (None) or empty. */
  function KeyOf(r: Record): (k: Option<string>)
    ensures Present(r.doi) ==> k == r.doi
    ensures !Present(r.doi) ==> k == r.title
  {
    if Present(r.doi) then r.doi else r.title
  }

  /** The keys of a list of records. */
  function KeySet(rs: seq<Record>): set<Option<string>> {
    set r | r in rs :: KeyOf(r)
  }

  /** No two records of the list share a key. */
  predicate DistinctKeys(rs: seq<Record>) {
    forall i, j :: 0 <= i < j < |rs| ==> KeyOf(rs[i]) != KeyOf(rs[j])
  }

  /** The position of the first record of rs that has the given key. */
  function FirstIndex(rs: seq<Record>, key: Option<string>): (i: nat)
    requires key in KeySet(rs)
    ensures i < |rs| && KeyOf(rs[i]) == key
    ensures forall j :: 0 <= j < i ==> KeyOf(rs[j]) != key
    decreases |rs|
  {
    var init, last := rs[..|rs| - 1], rs[|rs| - 1];
    KeySetOfSplit(rs);
    if key in KeySet(init) then
      var i := FirstIndex(init, key);
      assert rs[i] == init[i];
      assert forall j :: 0 <= j < i ==> rs[j] == init[j];
      i
    else
      KeyNotInKeySet(init, key);
      assert forall j :: 0 <= j < |init| ==> rs[j] == init[j];
      |rs| - 1
  }

  /** A key outside KeySet(rs) is the key of no record of rs. */
  lemma KeyNotInKeySet(rs: seq<Record>, key: Option<string>)
    requires key !in KeySet(rs)
    ensures forall j :: 0 <= j < |rs| ==> KeyOf(rs[j]) != key
  {
    forall j | 0 <= j < |rs|
      ensures KeyOf(rs[j]) != key
    {
      KeyInKeySet(rs, j);
    }
  }

  /** The record list deduplicate builds from the records of rs: each record
      is kept when no earlier record has its key. */
  function KeepFirst(rs: seq<Record>): (u: seq<Record>)
    decreases |rs|
  {
    if rs == [] then []
    else
      var init := rs[..|rs| - 1];
      var last := rs[|rs| - 1];
      if KeyOf(last) in KeySet(init) then KeepFirst(init) else KeepFirst(init) + [last]
  }

  /** deduplicate(results): one pass over the results with a set of the keys
      seen so far; a record is appended to the output when its key is new. */
  method Deduplicate(results: seq<Record>) returns (unique: seq<Record>)
    ensures unique == KeepFirst(results)
    ensures IsSubsequence(unique, results)
    ensures DistinctKeys(unique)
    ensures KeySet(unique) == KeySet(results)
    ensures |unique| == |KeySet(results)| <= |results|
    ensures forall k :: 0 <= k < |unique| ==>
      unique[k] == results[FirstIndex(results, KeyOf(unique[k]))]
  {
    var seen: set<Option<string>> := {};
    unique := [];
    for i := 0 to |results|
      invariant seen == KeySet(results[..i])
      invariant unique == KeepFirst(results[..i])
    {
      var r := results[i];
      var key := KeyOf(r);
      assert results[..i + 1][..i] == results[..i];
      assert KeySet(results[..i + 1]) == KeySet(results[..i]) + {key};
      if key !in seen {
        seen := seen + {key};
        unique := unique + [r];
      }
    }
    assert results[..|results|] == results;
    KeepFirstSubsequence(results);
    KeepFirstDistinct(results);
    KeepFirstLength(results);
    KeepFirstIsFirstOccurrence(results);
  }

  lemma KeySetAppend(rs: seq<Record>, r: Record)
    ensures KeySet(rs + [r]) == KeySet(rs) + {KeyOf(r)}
  {
    assert forall x :: x in rs + [r] <==> x in rs || x == r;
  }

  /** KeepFirst on a list grown by one record. */
  lemma KeepFirstSnoc(rs: seq<Record>, r: Record)
    ensures KeepFirst(rs + [r]) == if KeyOf(r) in KeySet(rs) then KeepFirst(rs) else KeepFirst(rs) + [r]
    ensures KeySet(rs + [r]) == KeySet(rs) + {KeyOf(r)}
  {
    assert (rs + [r])[..|rs|] == rs;
    KeySetAppend(rs, r);
  }

  lemma KeySetConcat(a: seq<Record>, b: seq<Record>)
    ensures KeySet(a + b) == KeySet(a) + KeySet(b)
  {
    assert forall x :: x in a + b <==> x in a || x in b;
  }

  /** A record whose key already occurred earlier can be removed from the
      input without changing the output. */
  lemma {:induction false} KeepFirstDropSeen(a: seq<Record>, r: Record, b: seq<Record>)
    requires KeyOf(r) in KeySet(a)
    ensures KeepFirst(a + [r] + b) == KeepFirst(a + b)
    decreases |b|
  {
    if b == [] {
      assert a + [r] + b == a + [r] && a + b == a;
      KeepFirstSnoc(a, r);
    } else {
      var init, last := b[..|b| - 1], b[|b| - 1];
      assert a + [r] + b == (a + [r] + init) + [last];
      assert a + b == (a + init) + [last];
      KeepFirstDropSeen(a, r, init);
      KeepFirstSnoc(a + [r] + init, last);
      KeepFirstSnoc(a + init, last);
      KeySetConcat(a + [r], init);
      KeySetConcat(a, init);
      KeySetAppend(a, r);
    }
  }

  lemma KeyInKeySet(rs: seq<Record>, j: nat)
    requires j < |rs|
    ensures KeyOf(rs[j]) in KeySet(rs)
  {
    assert rs[j] in rs;
  }

  /** The same, for the record at position i of the input when an earlier
      record j has its key. */
  lemma KeepFirstDropAt(rs: seq<Record>, j: nat, i: nat)
    requires j < i < |rs| && KeyOf(rs[j]) == KeyOf(rs[i])
    ensures KeepFirst(rs) == KeepFirst(rs[..i] + rs[i + 1..])
  {
    SplitAround(rs, i);
    KeyInKeySet(rs[..i], j);
    KeepFirstDropSeen(rs[..i], rs[i], rs[i + 1..]);
  }

  /** One more input record can only add its own key. */
  lemma KeySetOfSplit(rs: seq<Record>)
    requires rs != []
    ensures KeySet(rs) == KeySet(rs[..|rs| - 1]) + {KeyOf(rs[|rs| - 1])}
  {
    assert rs == rs[..|rs| - 1] + [rs[|rs| - 1]];
    KeySetAppend(rs[..|rs| - 1], rs[|rs| - 1]);
  }

  /** The output carries exactly the keys of the input: no key is lost. */
  lemma {:induction false} KeepFirstKeys(rs: seq<Record>)
    ensures KeySet(KeepFirst(rs)) == KeySet(rs)
    decreases |rs|
  {
    if rs != [] {
      var init := rs[..|rs| - 1];
      var last := rs[|rs| - 1];
      KeepFirstKeys(init);
      KeySetOfSplit(rs);
      if KeyOf(last) !in KeySet(init) {
        KeySetAppend(KeepFirst(init), last);
      }
    }
  }

  /** No two output records share a key. */
  lemma {:induction false} KeepFirstDistinct(rs: seq<Record>)
    ensures DistinctKeys(KeepFirst(rs))
    decreases |rs|
  {
    if rs != [] {
      var init := rs[..|rs| - 1];
      var last := rs[|rs| - 1];
      KeepFirstDistinct(init);
      if KeyOf(last) !in KeySet(init) {
        KeepFirstKeys(init);
        var u := KeepFirst(init);
        forall i | 0 <= i < |u|
          ensures KeyOf(u[i]) != KeyOf(last)
        {
          assert u[i] in u;
        }
        assert forall i :: 0 <= i < |u| ==> (u + [last])[i] == u[i];
      }
    }
  }

  /** The output is the input with some records left out: records are
      neither created, changed nor reordered. */
  lemma {:induction false} KeepFirstSubsequence(rs: seq<Record>)
    ensures IsSubsequence(KeepFirst(rs), rs)
    decreases |rs|
  {
    if rs != [] {
      var init := rs[..|rs| - 1];
      var last := rs[|rs| - 1];
      KeepFirstSubsequence(init);
      assert rs == init + [last];
      if KeyOf(last) in KeySet(init) {
        SubsequenceExtend(KeepFirst(init), init, last);
      } else {
        var u := KeepFirst(init) + [last];
        assert u[..|u| - 1] == KeepFirst(init);
      }
    }
  }

  lemma {:induction false} DistinctKeysCount(rs: seq<Record>)
    requires DistinctKeys(rs)
    ensures |KeySet(rs)| == |rs|
    decreases |rs|
  {
    if rs != [] {
      var init := rs[..|rs| - 1];
      var last := rs[|rs| - 1];
      assert DistinctKeys(init);
      DistinctKeysCount(init);
      KeySetOfSplit(rs);
      assert KeyOf(last) !in KeySet(init) by {
        forall r | r in init
          ensures KeyOf(r) != KeyOf(last)
        {
          var i :| 0 <= i < |init| && init[i] == r;
          assert rs[i] == r;
        }
      }
    }
  }

  lemma {:induction false} KeySetBound(rs: seq<Record>)
    ensures |KeySet(rs)| <= |rs|
    decreases |rs|
  {
    if rs != [] {
      KeySetBound(rs[..|rs| - 1]);
      KeySetOfSplit(rs);
    }
  }

  /** The output holds one record per distinct key of the input, so it is
      never longer than the input. */
  lemma KeepFirstLength(rs: seq<Record>)
    ensures |KeepFirst(rs)| == |KeySet(rs)| <= |rs|
  {
    KeepFirstDistinct(rs);
    KeepFirstKeys(rs);
    DistinctKeysCount(KeepFirst(rs));
    KeySetBound(rs);
  }

  /** Appending a record does not move the first occurrence of a key that
      already occurs. */
  lemma FirstIndexAppend(rs: seq<Record>, r: Record, key: Option<string>)
    requires key in KeySet(rs)
    ensures key in KeySet(rs + [r]) && FirstIndex(rs + [r], key) == FirstIndex(rs, key)
  {
    KeySetAppend(rs, r);
    assert (rs + [r])[..|rs|] == rs;
  }

  /** u holds the keys of rs, and each record of u is the first record of
      rs with its key. */
  predicate FirstOccurrences(rs: seq<Record>, u: seq<Record>) {
    && KeySet(u) == KeySet(rs)
    && (forall k :: 0 <= k < |u| ==> KeyOf(u[k]) in KeySet(u))
    && (forall k :: 0 <= k < |u| ==> u[k] == rs[FirstIndex(rs, KeyOf(u[k]))])
  }

  /** Every output record is the first input record with its key (the
      output keeps input order by KeepFirstSubsequence). */
  lemma KeepFirstIsFirstOccurrence(rs: seq<Record>)
    ensures KeySet(KeepFirst(rs)) == KeySet(rs)
    ensures forall k :: 0 <= k < |KeepFirst(rs)| ==>
      KeepFirst(rs)[k] == rs[FirstIndex(rs, KeyOf(KeepFirst(rs)[k]))]
  {
    KeepFirstOccurrences(rs);
  }

  lemma {:induction false} KeepFirstOccurrences(rs: seq<Record>)
    ensures FirstOccurrences(rs, KeepFirst(rs))
    decreases |rs|
  {
    if rs != [] {
      var init, last := rs[..|rs| - 1], rs[|rs| - 1];
      SplitLast(rs);
      KeepFirstOccurrences(init);
      KeepFirstSnoc(init, last);
      OccurrencesSnoc(init, last, KeepFirst(init));
    }
  }

  /** One step of KeepFirstOccurrences: an old key keeps its first record;
      a new key's record is appended after all the others. */
  lemma OccurrencesSnoc(init: seq<Record>, last: Record, u: seq<Record>)
    requires FirstOccurrences(init, u)
    ensures FirstOccurrences(init + [last], if KeyOf(last) in KeySet(init) then u else u + [last])
  {
    OldFirsts(init, last, u);
    KeySetAppend(init, last);
    if KeyOf(last) !in KeySet(init) {
      OccurrencesNew(init, last, u);
    }
  }

  /** The records of u keep their first positions when a record is appended. */
  lemma OldFirsts(init: seq<Record>, last: Record, u: seq<Record>)
    requires FirstOccurrences(init, u)
    ensures forall k :: 0 <= k < |u| ==> KeyOf(u[k]) in KeySet(init + [last])
    ensures forall k :: 0 <= k < |u| ==>
      FirstIndex(init + [last], KeyOf(u[k])) == FirstIndex(init, KeyOf(u[k])) < |init|
    ensures forall k :: 0 <= k < |u| ==> u[k] == (init + [last])[FirstIndex(init + [last], KeyOf(u[k]))]
  {
    forall k | 0 <= k < |u|
      ensures KeyOf(u[k]) in KeySet(init + [last])
      ensures FirstIndex(init + [last], KeyOf(u[k])) == FirstIndex(init, KeyOf(u[k])) < |init|
      ensures u[k] == (init + [last])[FirstIndex(init + [last], KeyOf(u[k]))]
    {
      FirstIndexAppend(init, last, KeyOf(u[k]));
    }
  }

  lemma OccurrencesNew(init: seq<Record>, last: Record, u: seq<Record>)
    requires KeySet(u) == KeySet(init) && KeyOf(last) !in KeySet(init)
    requires forall k :: 0 <= k < |u| ==> KeyOf(u[k]) in KeySet(init + [last])
    requires forall k :: 0 <= k < |u| ==> u[k] == (init + [last])[FirstIndex(init + [last], KeyOf(u[k]))]
    ensures FirstOccurrences(init + [last], u + [last])
  {
    var rs, v := init + [last], u + [last];
    FirstIndexOfNew(init, last);
    KeySetAppend(init, last);
    KeySetAppend(u, last);
    assert KeySet(v) == KeySet(rs);
    forall k | 0 <= k < |v|
      ensures KeyOf(v[k]) in KeySet(v) && v[k] == rs[FirstIndex(rs, KeyOf(v[k]))]
    {
      if k < |u| {
        assert v[k] == u[k];
      } else {
        assert v[k] == last && rs[|init|] == last;
      }
    }
  }

  /** A record with a new key is its own first occurrence. */
  lemma FirstIndexOfNew(init: seq<Record>, last: Record)
    requires KeyOf(last) !in KeySet(init)
    ensures KeyOf(last) in KeySet(init + [last])
    ensures FirstIndex(init + [last], KeyOf(last)) == |init|
  {
    KeySetAppend(init, last);
    assert (init + [last])[..|init|] == init;
  }

  /** A list whose keys are already distinct is left as it is. */
  lemma {:induction false} KeepFirstOfDistinct(rs: seq<Record>)
    requires DistinctKeys(rs)
    ensures KeepFirst(rs) == rs
    decreases |rs|
  {
    if rs != [] {
      var init := rs[..|rs| - 1];
      var last := rs[|rs| - 1];
      assert DistinctKeys(init);
      KeepFirstOfDistinct(init);
      assert KeyOf(last) !in KeySet(init) by {
        forall r | r in init
          ensures KeyOf(r) != KeyOf(last)
        {
          var i :| 0 <= i < |init| && init[i] == r;
          assert rs[i] == r;
        }
      }
      assert rs == init + [last];
    }
  }

  /** Deduplicating a deduplicated list changes nothing. */
  lemma KeepFirstIdempotent(rs: seq<Record>)
    ensures KeepFirst(KeepFirst(rs)) == KeepFirst(rs)
  {
    KeepFirstDistinct(rs);
    KeepFirstOfDistinct(KeepFirst(rs));
  }

  /** Records with no DOI and no title all have the key None, so of those
      only the first survives. */
  lemma KeylessRecordsCollapse(rs: seq<Record>)
    ensures forall i, j :: 0 <= i < j < |KeepFirst(rs)| ==>
      !(!Present(KeepFirst(rs)[i].doi) && KeepFirst(rs)[i].title.None?
        && !Present(KeepFirst(rs)[j].doi) && KeepFirst(rs)[j].title.None?)
  {
    KeepFirstDistinct(rs);
  }

  // ----- Showing results -----

  /** One item of what show_results and the command handler print. */
  datatype Shown =
    | Listed(position: nat, title: string)
    | AbstractShown(position: nat, text: string)
    | Detailed(record: Record)
    | InvalidSelection(n: int)
    | OutOfRange(n: int, count: nat)

  /** The detail view dispatcher.show_results gives for a selected number n:
      idx = n - 1 is used when 0 <= idx < len(results). */
  function SelectionView(results: seq<Record>, n: int): (v: Shown)
    ensures v.Detailed? <==> 1 <= n <= |results|
    ensures v.Detailed? ==> v.record == results[n - 1]
    ensures !v.Detailed? ==> v == InvalidSelection(n)
  {
    var idx := n - 1;
    if 0 <= idx < |results| then Detailed(results[idx]) else InvalidSelection(n)
  }

  /** show_results(results, args): the numbered titles, then the numbered
      abstracts when asked for, then one view per selected number. */
  method ShowResults(results: seq<Record>, showAbstracts: bool, numbers: seq<int>)
    returns (shown: seq<Shown>)
    ensures |shown| == |results| + (if showAbstracts then |results| else 0) + |numbers|
    ensures forall i :: 0 <= i < |results| ==>
      shown[i] == Listed(i + 1, TextOr(results[i].title, "No title"))
    ensures showAbstracts ==> forall i :: 0 <= i < |results| ==>
      shown[|results| + i] == AbstractShown(i + 1, TextOr(results[i].abstractText, "No abstract available."))
    ensures forall k :: 0 <= k < |numbers| ==>
      shown[|shown| - |numbers| + k] == SelectionView(results, numbers[k])
  {
    shown := [];
    for i := 0 to |results|
      invariant |shown| == i
      invariant forall j :: 0 <= j < i ==> shown[j] == Listed(j + 1, TextOr(results[j].title, "No title"))
    {
      shown := shown + [Listed(i + 1, TextOr(results[i].title, "No title"))];
    }
    if showAbstracts {
      for i := 0 to |results|
        invariant |shown| == |results| + i
        invariant forall j :: 0 <= j < |results| ==> shown[j] == Listed(j + 1, TextOr(results[j].title, "No title"))
        invariant forall j :: 0 <= j < i ==>
          shown[|results| + j] == AbstractShown(j + 1, TextOr(results[j].abstractText, "No abstract available."))
      {
        shown := shown + [AbstractShown(i + 1, TextOr(results[i].abstractText, "No abstract available."))];
      }
    }
    ghost var before := shown;
    for k := 0 to |numbers|
      invariant |shown| == |before| + k
      invariant shown[..|before|] == before
      invariant forall j :: 0 <= j < k ==> shown[|before| + j] == SelectionView(results, numbers[j])
    {
      shown := shown + [SelectionView(results, numbers[k])];
    }
    assert forall j :: 0 <= j < |before| ==> shown[j] == shown[..|before|][j];
  }
}
