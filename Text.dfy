/** Character and string helpers that stand for the Python built-ins the
    exporters and the command handler use: str.isspace/str.split, ASCII
    str.upper/str.lower, str.join and the decimal rendering of integers;
    and the subsequence relation. */
module Text {

  /** Python's str.isspace(): the characters on which str.split() with no
      argument separates words. */
  predicate IsSpace(c: char) {
    c == ' ' || ('\t' <= c <= '\r') || ('\U{1c}' <= c <= '\U{1f}')
    || c == '\U{85}' || c == '\U{a0}' || c == '\U{1680}'
    || ('\U{2000}' <= c <= '\U{200a}') || c == '\U{2028}' || c == '\U{2029}'
    || c == '\U{202f}' || c == '\U{205f}' || c == '\U{3000}'
  }

  /** True when s holds at least one word, i.e. s.split() is not empty. */
  predicate HasWord(s: string) {
    exists i :: 0 <= i < |s| && !IsSpace(s[i])
  }

  /** The length of s[..n].rstrip(): the end of s[..n] once its trailing
      whitespace is removed. */
  function TrimmedLength(s: string, n: nat): (e: nat)
    requires n <= |s|
    ensures e <= n
    ensures forall i :: e <= i < n ==> IsSpace(s[i])
    ensures e == 0 || !IsSpace(s[e - 1])
    decreases n
  {
    if n == 0 || !IsSpace(s[n - 1]) then n else TrimmedLength(s, n - 1)
  }

  /** Where the run of non-whitespace characters that ends at n starts. */
  function RunStart(s: string, n: nat): (b: nat)
    requires n <= |s|
    ensures b <= n
    ensures forall i :: b <= i < n ==> !IsSpace(s[i])
    ensures b == 0 || IsSpace(s[b - 1])
    decreases n
  {
    if n == 0 || IsSpace(s[n - 1]) then n else RunStart(s, n - 1)
  }

  /** s.split()[-1]: the last maximal run of non-whitespace characters of s,
      or "" when s has no word (where Python raises IndexError). */
  function LastWord(s: string): (w: string)
    ensures w != [] <==> HasWord(s)
    ensures forall i :: 0 <= i < |w| ==> !IsSpace(w[i])
  {
    var e := TrimmedLength(s, |s|);
    var b := RunStart(s, e);
    assert b < e <==> HasWord(s) by {
      if HasWord(s) {
        var i :| 0 <= i < |s| && !IsSpace(s[i]);
        assert i < e;
      }
    }
    s[b..e]
  }

  /** The last word sits right before the trailing whitespace of s and is
      preceded by whitespace or the start of s: it is the last maximal run
      of non-whitespace characters. */
  lemma LastWordPlace(s: string)
    ensures exists b, e ::
      && 0 <= b <= e <= |s| && LastWord(s) == s[b..e]
      && (b == 0 || IsSpace(s[b - 1]))
      && (forall i :: e <= i < |s| ==> IsSpace(s[i]))
  {
    var e := TrimmedLength(s, |s|);
    var b := RunStart(s, e);
    assert LastWord(s) == s[b..e];
  }

  /** ASCII upper-casing of one character; other characters are unchanged. */
  function UpperChar(c: char): char {
    if 'a' <= c <= 'z' then (c as int - 32) as char else c
  }

  /** ASCII lower-casing of one character; other characters are unchanged. */
  function LowerChar(c: char): char {
    if 'A' <= c <= 'Z' then (c as int + 32) as char else c
  }

  /** str.upper() restricted to ASCII letters. */
  function Upper(s: string): (u: string)
    ensures |u| == |s| && forall i :: 0 <= i < |s| ==> u[i] == UpperChar(s[i])
  {
    seq(|s|, i requires 0 <= i < |s| => UpperChar(s[i]))
  }

  /** str.lower() restricted to ASCII letters. */
  function Lower(s: string): (l: string)
    ensures |l| == |s| && forall i :: 0 <= i < |s| ==> l[i] == LowerChar(s[i])
  {
    seq(|s|, i requires 0 <= i < |s| => LowerChar(s[i]))
  }

  /** Lower-casing twice is lower-casing once. */
  lemma LowerIdempotent(s: string)
    ensures Lower(Lower(s)) == Lower(s)
  {
    assert forall i :: 0 <= i < |s| ==> LowerChar(LowerChar(s[i])) == LowerChar(s[i]);
  }

  /** sep.join(parts). */
  function Join(parts: seq<string>, sep: string): (s: string)
    ensures |parts| == 1 ==> s == parts[0]
    decreases |parts|
  {
    if parts == [] then ""
    else if |parts| == 1 then parts[0]
    else Join(parts[..|parts| - 1], sep) + sep + parts[|parts| - 1]
  }

  /** Joining one more part appends the separator and that part. */
  lemma JoinSnoc(parts: seq<string>, sep: string, p: string)
    requires parts != []
    ensures Join(parts + [p], sep) == Join(parts, sep) + sep + p
  {
    assert (parts + [p])[..|parts|] == parts;
  }

  /** The total length of the parts. */
  function PartsLength(parts: seq<string>): nat
    decreases |parts|
  {
    if parts == [] then 0 else PartsLength(parts[..|parts| - 1]) + |parts[|parts| - 1]|
  }

  /** A join is as long as its parts plus one separator between each two. */
  lemma {:induction false} JoinLength(parts: seq<string>, sep: string)
    requires parts != []
    ensures |Join(parts, sep)| == PartsLength(parts) + (|parts| - 1) * |sep|
    decreases |parts|
  {
    if |parts| > 1 {
      JoinLength(parts[..|parts| - 1], sep);
    } else {
      assert parts[..0] == [];
    }
  }

  /** Every character of sep.join(parts) comes from a part or from sep. */
  lemma {:induction false} JoinChars(parts: seq<string>, sep: string, c: char)
    requires c in Join(parts, sep)
    ensures c in sep || exists k :: 0 <= k < |parts| && c in parts[k]
    decreases |parts|
  {
    if |parts| > 1 {
      var init := parts[..|parts| - 1];
      var s := Join(init, sep) + sep + parts[|parts| - 1];
      var i :| 0 <= i < |s| && s[i] == c;
      if i < |Join(init, sep)| {
        assert c in Join(init, sep);
        JoinChars(init, sep, c);
        if c !in sep {
          var k :| 0 <= k < |init| && c in init[k];
          assert init[k] == parts[k];
        }
      } else if i < |Join(init, sep)| + |sep| {
        assert sep[i - |Join(init, sep)|] == c;
      } else {
        assert parts[|parts| - 1][i - |Join(init, sep)| - |sep|] == c;
      }
    }
  }

  predicate IsDigit(c: char) { '0' <= c <= '9' }

  function DigitChar(d: nat): (c: char)
    requires d < 10
    ensures IsDigit(c) && c as int - '0' as int == d
  {
    (d + '0' as int) as char
  }

  /** str(n) for a natural number: its decimal digits, most significant first. */
  function NatToDecimal(n: nat): (s: string)
    ensures |s| >= 1
    ensures forall i :: 0 <= i < |s| ==> IsDigit(s[i])
    ensures |s| > 1 ==> s[0] != '0'
    decreases n
  {
    if n < 10 then [DigitChar(n)] else NatToDecimal(n / 10) + [DigitChar(n % 10)]
  }

  /** str(n) for any integer: a minus sign before the digits of a negative number. */
  function IntToDecimal(n: int): (s: string)
    ensures s != []
    ensures n < 0 <==> s[0] == '-'
  {
    if n < 0 then "-" + NatToDecimal(-n) else NatToDecimal(n)
  }

  /** The value of a string of decimal digits (int() on such a string). */
  function DecimalValue(s: string): nat
    requires forall i :: 0 <= i < |s| ==> IsDigit(s[i])
    decreases |s|
  {
    if s == [] then 0
    else
      assert IsDigit(s[|s| - 1]);
      var d: nat := s[|s| - 1] as int - '0' as int;
      DecimalValue(s[..|s| - 1]) * 10 + d
  }

  /** Reading back the decimal rendering of n gives n. */
  lemma {:induction false} DecimalRoundTrip(n: nat)
    ensures DecimalValue(NatToDecimal(n)) == n
    decreases n
  {
    if n >= 10 {
      var s := NatToDecimal(n);
      assert s[..|s| - 1] == NatToDecimal(n / 10);
      DecimalRoundTrip(n / 10);
    }
  }

  /** Different natural numbers have different decimal renderings. */
  lemma DecimalInjective(m: nat, n: nat)
    requires NatToDecimal(m) == NatToDecimal(n)
    ensures m == n
  {
    DecimalRoundTrip(m);
    DecimalRoundTrip(n);
  }

  // ----- Sequences -----

  /** a is a subsequence of b: b with some elements left out, the others
      kept unchanged and in their order. */
  predicate IsSubsequence<T(==)>(a: seq<T>, b: seq<T>)
    decreases |b|
  {
    if a == [] then true
    else if b == [] then false
    else
      || (a[|a| - 1] == b[|b| - 1] && IsSubsequence(a[..|a| - 1], b[..|b| - 1]))
      || IsSubsequence(a, b[..|b| - 1])
  }

  lemma SubsequenceExtend<T>(a: seq<T>, b: seq<T>, x: T)
    requires IsSubsequence(a, b)
    ensures IsSubsequence(a, b + [x])
  {
    assert (b + [x])[..|b|] == b;
  }

  /** Being a subsequence is transitive. */
  lemma {:induction false} SubsequenceTransitive<T>(a: seq<T>, b: seq<T>, c: seq<T>)
    requires IsSubsequence(a, b) && IsSubsequence(b, c)
    ensures IsSubsequence(a, c)
    decreases |c|
  {
    if a != [] {
      var bi, ci := b[..|b| - 1], c[..|c| - 1];
      if IsSubsequence(b, ci) {
        SubsequenceTransitive(a, b, ci);
      } else if a[|a| - 1] == b[|b| - 1] && IsSubsequence(a[..|a| - 1], bi) {
        SubsequenceTransitive(a[..|a| - 1], bi, ci);
      } else {
        SubsequenceTransitive(a, bi, ci);
      }
    }
  }

  /** The concatenation of a list of sequences, in order. */
  function Flatten<T>(xss: seq<seq<T>>): seq<T>
    decreases |xss|
  {
    if xss == [] then [] else Flatten(xss[..|xss| - 1]) + xss[|xss| - 1]
  }

  /** The first sequence, then the concatenation of the others. */
  lemma {:induction false} FlattenFront<T>(xss: seq<seq<T>>)
    requires xss != []
    ensures Flatten(xss) == xss[0] + Flatten(xss[1..])
    decreases |xss|
  {
    var init, last := xss[..|xss| - 1], xss[|xss| - 1];
    if |xss| == 1 {
      assert init == [] && xss[1..] == [];
    } else {
      FlattenFront(init);
      assert init[0] == xss[0] && init[1..] == xss[1..][..|xss[1..]| - 1] && xss[1..][|xss[1..]| - 1] == last;
      ConcatAssoc(xss[0], Flatten(init[1..]), last);
    }
  }

  /** s is its prefix before i, its element at i and the rest after i. */
  lemma SplitAround<T>(s: seq<T>, i: nat)
    requires i < |s|
    ensures s == s[..i] + [s[i]] + s[i + 1..]
  {
  }

  /** A non-empty s is its prefix without the last element, then that element. */
  lemma SplitLast<T>(s: seq<T>)
    requires s != []
    ensures s == s[..|s| - 1] + [s[|s| - 1]]
  {
  }

  lemma ConcatAssoc<T>(p: seq<T>, q: seq<T>, r: seq<T>)
    ensures p + q + r == p + (q + r)
  {
  }
}
