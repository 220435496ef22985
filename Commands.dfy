/** lixplore/commands.py, run_main: which providers to search (the combined
    -s string, -A, or the single-provider flags), which search term to send
    (-q, -au or -DOI), the search itself, optional deduplication, and the
    -N detail views. */
module Commands {
  import opened Text
  import opened Records
  import opened Dispatcher

  /** The parsed command line, reduced to the options run_main reads.
      A text option is None when it was not given. */
  datatype Args = Args(
    history: bool,
    sources: Option<string>,
    all: bool,
    pubmed: bool,
    crossref: bool,
    doaj: bool,
    europepmc: bool,
    arxiv: bool,
    query: Option<string>,
    author: Option<string>,
    doi: Option<string>,
    maxResults: int,
    deduplicate: bool,
    showAbstracts: bool,
    numbers: seq<int>)

  /** Every provider, in the order -A and the single flags search them. */
  const AllProviders: seq<Provider> := [PubMed, Crossref, Doaj, EuropePmc, Arxiv]

  /** The position of a provider in AllProviders. */
  function Rank(p: Provider): (r: nat)
    ensures r < |AllProviders| && AllProviders[r] == p
  {
    match p
    case PubMed => 0
    case Crossref => 1
    case Doaj => 2
    case EuropePmc => 3
    case Arxiv => 4
  }

  /** The letter of source_map that stands for a provider. */
  function LetterOf(p: Provider): char {
    match p
    case PubMed => 'P'
    case Crossref => 'C'
    case Doaj => 'J'
    case EuropePmc => 'E'
    case Arxiv => 'X'
  }

  /** source_map without its 'A' entry: the provider a letter selects. */
  function ProviderOfLetter(c: char): (p: Option<Provider>)
    ensures p.Some? <==> c in "PCJEX"
    ensures p.Some? ==> LetterOf(p.value) == c
    ensures forall q: Provider :: LetterOf(q) == c ==> p == Some(q)
  {
    if c == 'P' then Some(PubMed)
    else if c == 'C' then Some(Crossref)
    else if c == 'J' then Some(Doaj)
    else if c == 'E' then Some(EuropePmc)
    else if c == 'X' then Some(Arxiv)
    else None
  }

  /** A character of the upper-cased -s string that draws a warning: neither
      a provider letter nor a space or a comma. */
  predicate Unknown(c: char) {
    ProviderOfLetter(c).None? && c != ' ' && c != ','
  }

  /** The providers the character loop of run_main collects from an
      upper-cased -s string: a provider is appended when its letter comes
      and it is not yet in the list. */
  function ScanLetters(u: string): seq<Provider>
    decreases |u|
  {
    if u == [] then [] else ScanStep(ScanLetters(u[..|u| - 1]), u[|u| - 1])
  }

  /** One turn of that loop: the selection after character c. */
  function ScanStep(prev: seq<Provider>, c: char): seq<Provider> {
    match ProviderOfLetter(c)
    case Some(p) => if p in prev then prev else prev + [p]
    case None => prev
  }

  lemma ScanLettersSnoc(v: string, c: char)
    ensures ScanLetters(v + [c]) == ScanStep(ScanLetters(v), c)
  {
    assert (v + [c])[..|v|] == v;
  }

  /** The characters the same loop warns about, in order. */
  function UnknownCodes(u: string): (w: seq<char>)
    ensures forall c :: c in w <==> c in u && Unknown(c)
    decreases |u|
  {
    if u == [] then []
    else
      var prev := UnknownCodes(u[..|u| - 1]);
      assert u == u[..|u| - 1] + [u[|u| - 1]];
      if Unknown(u[|u| - 1]) then prev + [u[|u| - 1]] else prev
  }

  /** The warnings are taken from u in string order. */
  lemma {:induction false} UnknownCodesInOrder(u: string)
    ensures IsSubsequence(UnknownCodes(u), u)
    decreases |u|
  {
    if u != [] {
      var v, x := u[..|u| - 1], u[|u| - 1];
      UnknownCodesInOrder(v);
      if Unknown(x) {
        assert (UnknownCodes(v) + [x])[..|UnknownCodes(v)|] == UnknownCodes(v);
      } else {
        SubsequenceExtend(UnknownCodes(v), v, x);
        assert v + [x] == u;
      }
    }
  }

  /** One warning per offending character, repeats included: each unknown
      character is warned about as often as u holds it, and no other is. */
  lemma {:induction false} UnknownCodesCount(u: string)
    ensures forall c :: multiset(UnknownCodes(u))[c] == if Unknown(c) then multiset(u)[c] else 0
    decreases |u|
  {
    if u != [] {
      var v, x := u[..|u| - 1], u[|u| - 1];
      UnknownCodesCount(v);
      assert multiset(u) == multiset(v) + multiset{x} by { SplitLast(u); }
      assert multiset(UnknownCodes(u)) == multiset(UnknownCodes(v)) + (if Unknown(x) then multiset{x} else multiset{});
    }
  }

  /** The warnings for two strings back to back: those for the first, then
      those for the second. */
  lemma {:induction false} UnknownCodesConcat(a: string, b: string)
    ensures UnknownCodes(a + b) == UnknownCodes(a) + UnknownCodes(b)
    decreases |b|
  {
    if b == [] {
      assert a + b == a;
    } else {
      var b', x := b[..|b| - 1], b[|b| - 1];
      assert (a + b)[..|a + b| - 1] == a + b' && (a + b)[|a + b| - 1] == x;
      UnknownCodesConcat(a, b');
      ConcatAssoc(UnknownCodes(a), UnknownCodes(b'), [x]);
    }
  }

  /** The selection a non-empty -s string makes: every provider when it holds
      an 'a' or 'A', and otherwise the letters it names. */
  function CombinedSelection(s: string): seq<Provider> {
    var u := Upper(s);
    if 'A' in u then AllProviders else ScanLetters(u)
  }

  /** The warnings a non-empty -s string draws (none when it selects all). */
  function CombinedWarnings(s: string): seq<char> {
    var u := Upper(s);
    if 'A' in u then [] else UnknownCodes(u)
  }

  /** The single-provider flag of the command line that asks for p. */
  predicate Flag(args: Args, p: Provider) {
    match p
    case PubMed => args.pubmed
    case Crossref => args.crossref
    case Doaj => args.doaj
    case EuropePmc => args.europepmc
    case Arxiv => args.arxiv
  }

  /** The providers are listed in the order of AllProviders, each once. */
  predicate InProviderOrder(ps: seq<Provider>) {
    forall i, j :: 0 <= i < j < |ps| ==> Rank(ps[i]) < Rank(ps[j])
  }

  predicate NoRepeats<T(==)>(xs: seq<T>) {
    forall i, j :: 0 <= i < j < |xs| ==> xs[i] != xs[j]
  }

  /** xs followed by p when the flag is set. */
  function AppendIf(xs: seq<Provider>, flag: bool, p: Provider): seq<Provider> {
    if flag then xs + [p] else xs
  }

  /** The providers the single flags select, appended in the fixed order. */
  function FlagSelection(args: Args): seq<Provider> {
    var s1 := AppendIf([], args.pubmed, PubMed);
    var s2 := AppendIf(s1, args.crossref, Crossref);
    var s3 := AppendIf(s2, args.doaj, Doaj);
    var s4 := AppendIf(s3, args.europepmc, EuropePmc);
    AppendIf(s4, args.arxiv, Arxiv)
  }

  predicate RanksBelow(ps: seq<Provider>, n: nat) {
    forall i :: 0 <= i < |ps| ==> Rank(ps[i]) < n
  }

  /** Appending a provider ranked after every listed one keeps the order. */
  lemma AppendIfOrder(xs: seq<Provider>, flag: bool, p: Provider)
    requires InProviderOrder(xs) && RanksBelow(xs, Rank(p))
    ensures InProviderOrder(AppendIf(xs, flag, p)) && RanksBelow(AppendIf(xs, flag, p), Rank(p) + 1)
  {
  }

  lemma AppendIfMember(xs: seq<Provider>, flag: bool, p: Provider, q: Provider)
    ensures q in AppendIf(xs, flag, p) <==> q in xs || (flag && q == p)
  {
  }

  /** A provider is selected by the single flags exactly when its flag is set. */
  lemma FlagMember(args: Args, q: Provider)
    ensures q in FlagSelection(args) <==> Flag(args, q)
  {
    var s1 := AppendIf([], args.pubmed, PubMed);
    var s2 := AppendIf(s1, args.crossref, Crossref);
    var s3 := AppendIf(s2, args.doaj, Doaj);
    var s4 := AppendIf(s3, args.europepmc, EuropePmc);
    AppendIfMember([], args.pubmed, PubMed, q);
    AppendIfMember(s1, args.crossref, Crossref, q);
    AppendIfMember(s2, args.doaj, Doaj, q);
    AppendIfMember(s3, args.europepmc, EuropePmc, q);
    AppendIfMember(s4, args.arxiv, Arxiv, q);
  }

  /** The single flags select exactly the providers whose flag is set, in
      the fixed order. */
  lemma FlagSelectionFacts(args: Args)
    ensures forall p :: p in FlagSelection(args) <==> Flag(args, p)
    ensures InProviderOrder(FlagSelection(args))
  {
    var s1 := AppendIf([], args.pubmed, PubMed);
    var s2 := AppendIf(s1, args.crossref, Crossref);
    var s3 := AppendIf(s2, args.doaj, Doaj);
    var s4 := AppendIf(s3, args.europepmc, EuropePmc);
    AppendIfOrder([], args.pubmed, PubMed);
    AppendIfOrder(s1, args.crossref, Crossref);
    AppendIfOrder(s2, args.doaj, Doaj);
    AppendIfOrder(s3, args.europepmc, EuropePmc);
    AppendIfOrder(s4, args.arxiv, Arxiv);
    forall p ensures p in FlagSelection(args) <==> Flag(args, p) {
      FlagMember(args, p);
    }
  }

  /** sources_to_search: a non-empty -s string decides; otherwise -A selects
      every provider; otherwise the single flags decide. */
  function SelectSources(args: Args): (ps: seq<Provider>)
    ensures NoRepeats(ps)
    ensures Present(args.sources) && 'A' in Upper(args.sources.value) ==> ps == AllProviders
    ensures Present(args.sources) && 'A' !in Upper(args.sources.value) ==>
      forall p :: p in ps <==> LetterOf(p) in Upper(args.sources.value)
    ensures !Present(args.sources) && args.all ==> ps == AllProviders
    ensures !Present(args.sources) && !args.all ==> forall p :: p in ps <==> Flag(args, p)
    ensures !Present(args.sources) ==> InProviderOrder(ps)
  {
    if Present(args.sources) then
      var u := Upper(args.sources.value);
      ScanLettersNoRepeats(u);
      forall p ensures p in ScanLetters(u) <==> LetterOf(p) in u {
        ScanLettersMembers(u, p);
      }
      CombinedSelection(args.sources.value)
    else if args.all then AllProviders
    else
      FlagSelectionFacts(args);
      FlagSelection(args)
  }

  /** The warnings printed while the sources are chosen. */
  function SelectionWarnings(args: Args): seq<char> {
    if Present(args.sources) then CombinedWarnings(args.sources.value) else []
  }

  /** Lines 104-148 of run_main: the providers to search, and the characters
      of the -s string warned about as unknown source codes. */
  method ChooseSources(args: Args) returns (selected: seq<Provider>, warnings: seq<char>)
    ensures selected == SelectSources(args)
    ensures warnings == SelectionWarnings(args)
  {
    selected := [];
    warnings := [];
    if args.sources.Some? && args.sources.value != "" {
      var u := Upper(args.sources.value);
      if 'A' in u {
        selected := AllProviders;
      } else {
        for i := 0 to |u|
          invariant selected == ScanLetters(u[..i])
          invariant warnings == UnknownCodes(u[..i])
        {
          var c := u[i];
          assert u[..i + 1][..i] == u[..i];
          match ProviderOfLetter(c) {
            case Some(p) =>
              if p !in selected {
                selected := selected + [p];
              }
            case None =>
              if c != ' ' && c != ',' {
                warnings := warnings + [c];
              }
          }
        }
        assert u[..|u|] == u;
      }
    } else if args.all {
      selected := AllProviders;
    } else {
      selected := FlagSources(args);
    }
  }

  /** Lines 137-148: each single flag that is set appends its provider. */
  method FlagSources(args: Args) returns (selected: seq<Provider>)
    ensures selected == FlagSelection(args)
  {
    selected := [];
    if args.pubmed {
      selected := selected + [PubMed];
    }
    if args.crossref {
      selected := selected + [Crossref];
    }
    if args.doaj {
      selected := selected + [Doaj];
    }
    if args.europepmc {
      selected := selected + [EuropePmc];
    }
    if args.arxiv {
      selected := selected + [Arxiv];
    }
  }

  // ----- Properties of the -s letter scan -----

  /** A provider is selected exactly when its letter occurs in the string. */
  lemma {:induction false} ScanLettersMembers(u: string, p: Provider)
    ensures p in ScanLetters(u) <==> LetterOf(p) in u
    decreases |u|
  {
    if u != [] {
      var init := u[..|u| - 1];
      assert u == init + [u[|u| - 1]];
      ScanLettersMembers(init, p);
    }
  }

  /** The scan never selects a provider twice. */
  lemma {:induction false} ScanLettersNoRepeats(u: string)
    ensures NoRepeats(ScanLetters(u))
    decreases |u|
  {
    if u != [] {
      ScanLettersNoRepeats(u[..|u| - 1]);
    }
  }

  /** The position of the first occurrence of c in u. */
  function FirstPos(u: string, c: char): (i: nat)
    requires c in u
    ensures i < |u| && u[i] == c
    ensures forall j :: 0 <= j < i ==> u[j] != c
    decreases |u|
  {
    if u[0] == c then 0 else 1 + FirstPos(u[1..], c)
  }

  lemma FirstPosPrefix(u: string, c: char, n: nat)
    requires n <= |u| && c in u[..n]
    ensures FirstPos(u, c) == FirstPos(u[..n], c)
  {
    var i := FirstPos(u[..n], c);
    assert u[i] == c;
    forall j | 0 <= j < i ensures u[j] != c {
      assert u[j] == u[..n][j];
    }
  }

  /** The first occurrence of a character that is new at the end of u is
      that last position. */
  lemma FirstPosLast(u: string)
    requires u != [] && u[|u| - 1] !in u[..|u| - 1]
    ensures FirstPos(u, u[|u| - 1]) == |u| - 1
  {
    var n := |u| - 1;
    forall j | 0 <= j < n ensures u[j] != u[n] {
      assert u[j] == u[..n][j];
    }
  }

  /** Every provider the scan of u[..n] selected has its first letter before n. */
  lemma ScanLettersBefore(u: string, n: nat)
    requires n <= |u|
    ensures forall k :: 0 <= k < |ScanLetters(u[..n])| ==>
      && LetterOf(ScanLetters(u[..n])[k]) in u[..n] && LetterOf(ScanLetters(u[..n])[k]) in u
      && FirstPos(u, LetterOf(ScanLetters(u[..n])[k])) == FirstPos(u[..n], LetterOf(ScanLetters(u[..n])[k])) < n
  {
    var prev := ScanLetters(u[..n]);
    forall k | 0 <= k < |prev|
      ensures LetterOf(prev[k]) in u[..n] && LetterOf(prev[k]) in u
      ensures FirstPos(u, LetterOf(prev[k])) == FirstPos(u[..n], LetterOf(prev[k])) < n
    {
      ScanLettersMembers(u[..n], prev[k]);
      var i :| 0 <= i < n && u[..n][i] == LetterOf(prev[k]);
      assert u[i] == u[..n][i];
      FirstPosPrefix(u, LetterOf(prev[k]), n);
    }
  }

  /** The selection lists providers in the order in which their letters
      first appear in the string. */
  lemma {:induction false} ScanLettersOrder(u: string)
    ensures forall p :: p in ScanLetters(u) ==> LetterOf(p) in u
    ensures forall i, j :: 0 <= i < j < |ScanLetters(u)| ==>
      FirstPos(u, LetterOf(ScanLetters(u)[i])) < FirstPos(u, LetterOf(ScanLetters(u)[j]))
    decreases |u|
  {
    forall p | p in ScanLetters(u) ensures LetterOf(p) in u {
      ScanLettersMembers(u, p);
    }
    if u != [] {
      var n := |u| - 1;
      var init := u[..n];
      ScanLettersOrder(init);
      ScanLettersBefore(u, n);
      var prev := ScanLetters(init);
      var p := ProviderOfLetter(u[n]);
      if p.Some? && p.value !in prev {
        ScanLettersMembers(init, p.value);
        FirstPosLast(u);
        var r := prev + [p.value];
        assert ScanLetters(u) == r;
        forall i, j | 0 <= i < j < |r|
          ensures FirstPos(u, LetterOf(r[i])) < FirstPos(u, LetterOf(r[j]))
        {
          assert r[i] == prev[i];
          if j < |prev| {
            assert r[j] == prev[j];
          }
        }
      } else {
        assert ScanLetters(u) == prev;
      }
    }
  }

  /** The scan is a left fold: equal results on two strings stay equal when
      the same characters follow. */
  lemma {:induction false} ScanLettersExtend(x: string, y: string, b: string)
    requires ScanLetters(x) == ScanLetters(y)
    ensures ScanLetters(x + b) == ScanLetters(y + b)
    decreases |b|
  {
    if b != [] {
      var b' := b[..|b| - 1];
      var c := b[|b| - 1];
      ScanLettersExtend(x, y, b');
      SplitLast(b);
      ConcatAssoc(x, b', [c]);
      ConcatAssoc(y, b', [c]);
      ScanLettersSnoc(x + b', c);
      ScanLettersSnoc(y + b', c);
    } else {
      assert x + b == x && y + b == y;
    }
  }

  /** A character that is no provider letter adds nothing to the selection,
      wherever it stands. */
  lemma ScanLettersIgnoresUnknown(a: string, c: char, b: string)
    requires ProviderOfLetter(c).None?
    ensures ScanLetters(a + [c] + b) == ScanLetters(a + b)
  {
    ScanLettersSnoc(a, c);
    ScanLettersExtend(a + [c], a, b);
  }

  /** The -s string is read case-insensitively: a provider letter occurs in
      the upper-cased string exactly when its upper- or lower-case form occurs
      in the string as given. */
  lemma UpperLetter(s: string, p: Provider)
    ensures LetterOf(p) in Upper(s) <==> LetterOf(p) in s || LowerChar(LetterOf(p)) in s
  {
    var u := Upper(s);
    if LetterOf(p) in u {
      var i :| 0 <= i < |u| && u[i] == LetterOf(p);
      assert s[i] == LetterOf(p) || s[i] == LowerChar(LetterOf(p));
    }
    if LetterOf(p) in s {
      var i :| 0 <= i < |s| && s[i] == LetterOf(p);
      assert u[i] == LetterOf(p);
    }
    if LowerChar(LetterOf(p)) in s {
      var i :| 0 <= i < |s| && s[i] == LowerChar(LetterOf(p));
      assert u[i] == LetterOf(p);
    }
  }

  // ----- The search term -----

  /** The query run_main sends: -q when given, else the -au author (with the
      PubMed author-field suffix when PubMed is searched), else -DOI; None is
      the error "Please provide a search query". */
  function BuildQuery(args: Args, selected: seq<Provider>): (q: Option<string>)
    ensures q.None? <==> !Present(args.query) && !Present(args.author) && !Present(args.doi)
    ensures Present(args.query) ==> q == args.query
    ensures !Present(args.query) && Present(args.author) ==>
      && q.Some?
      && args.author.value <= q.value
      && (q.value == args.author.value + "[Author]" <==> PubMed in selected)
      && (PubMed !in selected ==> q == args.author)
    ensures !Present(args.query) && !Present(args.author) && Present(args.doi) ==> q == args.doi
  {
    if Present(args.query) then args.query
    else if Present(args.author) then
      (if PubMed in selected then Some(args.author.value + "[Author]") else args.author)
    else if Present(args.doi) then args.doi
    else None
  }

  // ----- Searching and showing -----

  /** The merged results of asking each selected provider in turn. */
  function Gathered(sources: seq<Provider>, query: string, limit: int, connector: Connector): seq<Record>
    decreases |sources|
  {
    if sources == [] then []
    else
      Gathered(sources[..|sources| - 1], query, limit, connector)
      + Search(ProviderName(sources[|sources| - 1]), query, limit, connector)
  }

  /** The detail view run_main itself prints for -N value n. */
  function NumberView(results: seq<Record>, n: int): (v: Shown)
    ensures v.Detailed? <==> 1 <= n <= |results|
    ensures v.Detailed? ==> v.record == results[n - 1]
    ensures !v.Detailed? ==> v == OutOfRange(n, |results|)
  {
    if 1 <= n <= |results| then Detailed(results[n - 1]) else OutOfRange(n, |results|)
  }

  /** Both detail loops select the same records: show_results' test on n - 1
      and run_main's test on n agree for every n. */
  lemma DetailLoopsAgree(results: seq<Record>, n: int)
    ensures SelectionView(results, n).Detailed? <==> NumberView(results, n).Detailed?
    ensures SelectionView(results, n).Detailed? ==>
      SelectionView(results, n).record == NumberView(results, n).record
  {
  }

  /** Lines 223-234: one view per -N value, in the order given. */
  method ShowNumbers(results: seq<Record>, numbers: seq<int>) returns (views: seq<Shown>)
    ensures |views| == |numbers|
    ensures forall k :: 0 <= k < |numbers| ==> views[k] == NumberView(results, numbers[k])
  {
    views := [];
    for k := 0 to |numbers|
      invariant |views| == k
      invariant forall j :: 0 <= j < k ==> views[j] == NumberView(results, numbers[j])
    {
      views := views + [NumberView(results, numbers[k])];
    }
  }

  /** What show_results promises about its output. */
  predicate IsListing(shown: seq<Shown>, results: seq<Record>, showAbstracts: bool, numbers: seq<int>) {
    && |shown| == |results| + (if showAbstracts then |results| else 0) + |numbers|
    && (forall i :: 0 <= i < |results| ==>
      shown[i] == Listed(i + 1, TextOr(results[i].title, "No title")))
    && (showAbstracts ==> forall i :: 0 <= i < |results| ==>
      shown[|results| + i] == AbstractShown(i + 1, TextOr(results[i].abstractText, "No abstract available.")))
    && (forall k :: 0 <= k < |numbers| ==>
      shown[|shown| - |numbers| + k] == SelectionView(results, numbers[k]))
  }

  /** Lines 196-203: ask every selected provider in turn and merge the lists. */
  method SearchAll(sources: seq<Provider>, query: string, limit: int, connector: Connector)
    returns (results: seq<Record>)
    ensures results == Gathered(sources, query, limit, connector)
  {
    results := [];
    for i := 0 to |sources|
      invariant results == Gathered(sources[..i], query, limit, connector)
    {
      assert sources[..i + 1][..i] == sources[..i];
      results := results + Search(ProviderName(sources[i]), query, limit, connector);
    }
    assert sources[..|sources|] == sources;
  }

  /** What run_main prints about its results: nothing but a message when
      there are none; otherwise the show_results listing (whose -N views use
      the n - 1 test) followed by run_main's own -N views (the 1..len test),
      so every -N value is answered twice. */
  predicate IsDisplay(shown: seq<Shown>, results: seq<Record>, showAbstracts: bool, numbers: seq<int>) {
    && (results == [] ==> shown == [])
    && (results != [] ==>
      && |shown| >= |numbers|
      && IsListing(shown[..|shown| - |numbers|], results, showAbstracts, numbers)
      && forall k :: 0 <= k < |numbers| ==>
        shown[|shown| - |numbers| + k] == NumberView(results, numbers[k]))
  }

  /** Lines 218-234: show_results, then run_main's own -N views, or nothing
      (the message "No results found.") when there are no results. */
  method ShowAll(results: seq<Record>, showAbstracts: bool, numbers: seq<int>)
    returns (shown: seq<Shown>)
    ensures IsDisplay(shown, results, showAbstracts, numbers)
  {
    shown := [];
    if results != [] {
      var listing := ShowResults(results, showAbstracts, numbers);
      var views := ShowNumbers(results, numbers);
      shown := listing + views;
      DisplayOfParts(listing, views, results, showAbstracts, numbers);
    }
  }

  /** The show_results listing followed by run_main's own -N views is what
      run_main displays. */
  lemma DisplayOfParts(listing: seq<Shown>, views: seq<Shown>, results: seq<Record>,
                       showAbstracts: bool, numbers: seq<int>)
    requires results != [] && IsListing(listing, results, showAbstracts, numbers)
    requires |views| == |numbers|
    requires forall k :: 0 <= k < |numbers| ==> views[k] == NumberView(results, numbers[k])
    ensures IsDisplay(listing + views, results, showAbstracts, numbers)
  {
    var shown := listing + views;
    assert shown[..|shown| - |numbers|] == listing;
    forall k | 0 <= k < |numbers|
      ensures shown[|shown| - |numbers| + k] == NumberView(results, numbers[k])
    {
      assert shown[|shown| - |numbers| + k] == views[k];
    }
  }

  /** The ways run_main can end. */
  datatype Run =
    | HistoryShown
    | NoSourceSelected(warnings: seq<char>)
    | NoSearchTerm(sources: seq<Provider>, warnings: seq<char>)
    | Searched(sources: seq<Provider>, warnings: seq<char>, query: string,
               results: seq<Record>, shown: seq<Shown>)

  /** run_main(args): -H alone shows the history; otherwise choose the
      providers and the query, stopping with an error when either is missing;
      search every provider, deduplicate when asked and there are results,
      and show the results followed by run_main's own -N views. */
  method RunMain(args: Args, connector: Connector) returns (run: Run)
    ensures args.history <==> run.HistoryShown?
    ensures !args.history && SelectSources(args) == [] ==>
      run == NoSourceSelected(SelectionWarnings(args))
    ensures !args.history && SelectSources(args) != [] && BuildQuery(args, SelectSources(args)).None? ==>
      run == NoSearchTerm(SelectSources(args), SelectionWarnings(args))
    ensures !args.history && SelectSources(args) != [] && BuildQuery(args, SelectSources(args)).Some? ==>
      run.Searched?
    ensures run.Searched? ==>
      var fetched := Gathered(run.sources, run.query, args.maxResults, connector);
      && run.sources == SelectSources(args)
      && run.warnings == SelectionWarnings(args)
      && BuildQuery(args, run.sources) == Some(run.query)
      && run.results == (if args.deduplicate then KeepFirst(fetched) else fetched)
      && IsDisplay(run.shown, run.results, args.showAbstracts, args.numbers)
  {
    if args.history {
      return HistoryShown;
    }
    var sources, warnings := ChooseSources(args);
    if sources == [] {
      return NoSourceSelected(warnings);
    }
    var q := BuildQuery(args, sources);
    if q.None? {
      return NoSearchTerm(sources, warnings);
    }
    var query := q.value;
    var results := SearchAll(sources, query, args.maxResults, connector);
    if args.deduplicate && results != [] {
      results := Deduplicate(results);
    }
    var shown := ShowAll(results, args.showAbstracts, args.numbers);
    run := Searched(sources, warnings, query, results, shown);
  }
}
