/** String operations of the .NET base library that the handlers rely on:
    Trim, Replace, Split, IndexOf/LastIndexOf, StartsWith and the decimal
    rendering of integers.  All comparisons are ordinal. */
module Text {

  /** Char.IsWhiteSpace: the Unicode space separators, the line and paragraph
      separators, U+0009..U+000D and U+0085. */
  predicate IsWhiteSpace(c: char) {
    c == ' ' || ('\t' <= c <= '\r') || c == '\U{0085}' || c == '\U{00A0}'
    || c == '\U{1680}' || ('\U{2000}' <= c <= '\U{200A}') || c == '\U{2028}'
    || c == '\U{2029}' || c == '\U{202F}' || c == '\U{205F}' || c == '\U{3000}'
  }

  /** Leading white space removed. */
  function TrimStart(s: string): (r: string)
    ensures |r| <= |s| && r == s[|s| - |r|..]
    ensures forall i :: 0 <= i < |s| - |r| ==> IsWhiteSpace(s[i])
    ensures r == [] || !IsWhiteSpace(r[0])
    decreases |s|
  {
    if s != [] && IsWhiteSpace(s[0]) then TrimStart(s[1..]) else s
  }

  /** Trailing white space removed. */
  function TrimEnd(s: string): (r: string)
    ensures |r| <= |s| && r == s[..|r|]
    ensures forall i :: |r| <= i < |s| ==> IsWhiteSpace(s[i])
    ensures r == [] || !IsWhiteSpace(r[|r| - 1])
    decreases |s|
  {
    if s != [] && IsWhiteSpace(s[|s| - 1]) then TrimEnd(s[..|s| - 1]) else s
  }

  /** String.Trim(): the longest infix of s that neither starts nor ends with
      white space and is surrounded by white space only. */
  function Trim(s: string): (r: string)
    ensures |r| <= |s|
    ensures r == [] || (!IsWhiteSpace(r[0]) && !IsWhiteSpace(r[|r| - 1]))
    ensures exists i :: TrimmedAt(s, r, i)
  {
    TrimParts(s);
    TrimEnd(TrimStart(s))
  }

  /** TrimEnd after TrimStart leaves the infix that starts where the leading
      white space ends. */
  lemma TrimParts(s: string)
    ensures TrimmedAt(s, TrimEnd(TrimStart(s)), |s| - |TrimStart(s)|)
  {
    var t := TrimStart(s);
    TrimmedAtStart(s, t);
    TrimmedAtEnd(s, t, |s| - |t|, TrimEnd(t));
  }

  lemma TrimmedAtStart(s: string, t: string)
    requires |t| <= |s| && t == s[|s| - |t|..]
    requires forall k :: 0 <= k < |s| - |t| ==> IsWhiteSpace(s[k])
    ensures TrimmedAt(s, t, |s| - |t|)
  {
  }

  /** Cutting white space off the end of a trimmed infix keeps it one. */
  lemma TrimmedAtEnd(s: string, t: string, i: int, r: string)
    requires TrimmedAt(s, t, i)
    requires |r| <= |t| && r == t[..|r|]
    requires forall k :: |r| <= k < |t| ==> IsWhiteSpace(t[k])
    ensures TrimmedAt(s, r, i)
  {
    forall k | i + |r| <= k < |s| ensures IsWhiteSpace(s[k]) {
      if k < i + |t| {
        assert s[k] == t[k - i];
      }
    }
  }

  /** r is the infix of s starting at i, with only white space around it. */
  predicate TrimmedAt(s: string, r: string, i: int) {
    0 <= i <= |s| - |r| && r == s[i..i + |r|]
    && (forall k :: 0 <= k < i ==> IsWhiteSpace(s[k]))
    && (forall k :: i + |r| <= k < |s| ==> IsWhiteSpace(s[k]))
  }

  /** A string without surrounding white space is its own trim. */
  lemma TrimOfTrimmed(s: string)
    requires s == [] || (!IsWhiteSpace(s[0]) && !IsWhiteSpace(s[|s| - 1]))
    ensures Trim(s) == s
  {
  }

  /** String.Replace(pat, rep): every occurrence of pat, scanning from the left
      and without overlap, replaced by rep.  .NET refuses an empty pattern. */
  function ReplaceAll(s: string, pat: string, rep: string): (r: string)
    requires pat != []
    ensures pat[0] !in s ==> r == s
    ensures rep == [] ==> |r| <= |s|
    decreases |s|
  {
    if |s| < |pat| then s
    else if s[..|pat|] == pat then rep + ReplaceAll(s[|pat|..], pat, rep)
    else [s[0]] + ReplaceAll(s[1..], pat, rep)
  }

  /** A prefix that cannot begin an occurrence of the pattern is copied as it is. */
  lemma {:induction false} ReplaceAllSkips(u: string, t: string, pat: string, rep: string)
    requires pat != [] && pat[0] !in u
    ensures ReplaceAll(u + t, pat, rep) == u + ReplaceAll(t, pat, rep)
    decreases |u|
  {
    if u != [] {
      var s := u + t;
      assert s[0] == u[0] != pat[0];
      assert s[1..] == u[1..] + t;
      ReplaceAllSkips(u[1..], t, pat, rep);
      if |s| < |pat| {
        assert ReplaceAll(u[1..] + t, pat, rep) == u[1..] + t;
        assert ReplaceAll(t, pat, rep) == t;
      } else {
        assert s[..|pat|] != pat by { assert s[..|pat|][0] != pat[0]; }
        assert ReplaceAll(s, pat, rep) == [u[0]] + ReplaceAll(u[1..] + t, pat, rep);
        assert [u[0]] + (u[1..] + ReplaceAll(t, pat, rep)) == u + ReplaceAll(t, pat, rep);
      }
    } else {
      assert u + t == t;
    }
  }

  /** A leading occurrence of the pattern is replaced. */
  lemma ReplaceAllAtPattern(t: string, pat: string, rep: string)
    requires pat != []
    ensures ReplaceAll(pat + t, pat, rep) == rep + ReplaceAll(t, pat, rep)
  {
    assert (pat + t)[..|pat|] == pat;
    assert (pat + t)[|pat|..] == t;
  }

  /** Every occurrence of c removed; nothing else changes. */
  function DeleteChar(s: string, c: char): (r: string)
    ensures c !in r
    ensures multiset(r) == multiset(s)[c := 0]
    ensures c !in s ==> r == s
  {
    if s == [] then []
    else
      assert s == [s[0]] + s[1..];
      if s[0] == c then DeleteChar(s[1..], c)
      else [s[0]] + DeleteChar(s[1..], c)
  }

  /** Deleting distributes over concatenation, so the other characters keep
      their order. */
  lemma {:induction false} DeleteCharConcat(a: string, b: string, c: char)
    ensures DeleteChar(a + b, c) == DeleteChar(a, c) + DeleteChar(b, c)
    decreases |a|
  {
    if a == [] {
      assert a + b == b;
    } else {
      assert (a + b)[0] == a[0] && (a + b)[1..] == a[1..] + b;
      DeleteCharConcat(a[1..], b, c);
    }
  }

  /** Every character left by the deletion came from the input. */
  lemma DeleteCharKeepsChars(s: string, c: char)
    ensures forall d :: d in DeleteChar(s, c) ==> d in s
  {
    forall d | d in DeleteChar(s, c) ensures d in s {
      assert d in multiset(DeleteChar(s, c));
    }
  }

  lemma TrimKeepsChars(s: string)
    ensures forall d :: d in Trim(s) ==> d in s
  {
    TrimParts(s);
    InfixKeepsChars(s, Trim(s), |s| - |TrimStart(s)|);
  }

  lemma InfixKeepsChars(s: string, r: string, i: int)
    requires 0 <= i <= |s| - |r| && r == s[i..i + |r|]
    ensures forall d :: d in r ==> d in s
  {
    forall d | d in r ensures d in s {
      var m :| 0 <= m < |r| && r[m] == d;
      assert s[i + m] == d;
    }
  }

  /** The first occurrence is no later than any occurrence. */
  lemma IndexOfAtMost(s: string, c: char, i: int)
    requires 0 <= i < |s| && s[i] == c
    ensures 0 <= IndexOf(s, c) <= i
  {
  }

  /** The last occurrence is no earlier than any occurrence. */
  lemma LastIndexOfAtLeast(s: string, c: char, j: int)
    requires 0 <= j < |s| && s[j] == c
    ensures LastIndexOf(s, c) >= j
  {
  }

  /** String.StartsWith, compared ordinally. */
  predicate StartsWith(s: string, prefix: string) {
    |prefix| <= |s| && s[..|prefix|] == prefix
  }

  /** String.IndexOf(c): the first index holding c, or -1. */
  function IndexOf(s: string, c: char): (r: int)
    ensures -1 <= r < |s|
    ensures r == -1 <==> c !in s
    ensures r >= 0 ==> s[r] == c && c !in s[..r]
  {
    if s == [] then -1
    else if s[0] == c then 0
    else
      var k := IndexOf(s[1..], c);
      assert s[1..][..(if k < 0 then 0 else k)] == s[1..1 + (if k < 0 then 0 else k)];
      if k < 0 then -1 else k + 1
  }

  /** String.LastIndexOf(c): the last index holding c, or -1. */
  function LastIndexOf(s: string, c: char): (r: int)
    ensures -1 <= r < |s|
    ensures r == -1 <==> c !in s
    ensures r >= 0 ==> s[r] == c && c !in s[r + 1..]
  {
    if s == [] then -1
    else if s[|s| - 1] == c then |s| - 1
    else
      var init := s[..|s| - 1];
      var k := LastIndexOf(init, c);
      assert s == init + [s[|s| - 1]];
      assert c !in init ==> c !in s;
      assert k >= 0 ==> s[k + 1..] == init[k + 1..] + [s[|s| - 1]];
      k
  }

  // ---------------------------------------------------------------------
  // String.Split(sep, StringSplitOptions.RemoveEmptyEntries)

  /** The pieces of s between occurrences of sep, empty pieces dropped;
      cur is the piece read so far. */
  function SplitFrom(s: string, sep: char, cur: string): (r: seq<string>)
    decreases |s|
  {
    if s == [] then (if cur == [] then [] else [cur])
    else if s[0] == sep then (if cur == [] then [] else [cur]) + SplitFrom(s[1..], sep, [])
    else SplitFrom(s[1..], sep, cur + [s[0]])
  }

  /** The pieces are non-empty, hold no separator, and put together give s
      without its separators. */
  function Split(s: string, sep: char): (r: seq<string>)
    ensures forall k :: 0 <= k < |r| ==> r[k] != [] && sep !in r[k]
    ensures Concat(r) == DeleteChar(s, sep)
  {
    SplitPieces(s, sep, []);
    SplitLosesOnlySeparators(s, sep, []);
    assert [] + DeleteChar(s, sep) == DeleteChar(s, sep);
    SplitFrom(s, sep, [])
  }

  lemma {:induction false} SplitPieces(s: string, sep: char, cur: string)
    requires sep !in cur
    ensures forall k :: 0 <= k < |SplitFrom(s, sep, cur)| ==>
              SplitFrom(s, sep, cur)[k] != [] && sep !in SplitFrom(s, sep, cur)[k]
    decreases |s|
  {
    if s != [] {
      if s[0] == sep {
        SplitPieces(s[1..], sep, []);
      } else {
        SplitPieces(s[1..], sep, cur + [s[0]]);
      }
    }
  }

  function Concat(ps: seq<string>): string {
    if ps == [] then [] else ps[0] + Concat(ps[1..])
  }

  lemma ConcatAppend(a: seq<string>, b: seq<string>)
    ensures Concat(a + b) == Concat(a) + Concat(b)
  {
    if a != [] {
      assert (a + b)[1..] == a[1..] + b;
      ConcatAppend(a[1..], b);
    } else {
      assert a + b == b;
    }
  }

  /** Nothing but the separators is lost by splitting. */
  lemma {:induction false} SplitLosesOnlySeparators(s: string, sep: char, cur: string)
    ensures Concat(SplitFrom(s, sep, cur)) == cur + DeleteChar(s, sep)
    decreases |s|
  {
    if s == [] {
    } else if s[0] == sep {
      SplitLosesOnlySeparators(s[1..], sep, []);
      var head: seq<string> := if cur == [] then [] else [cur];
      ConcatAppend(head, SplitFrom(s[1..], sep, []));
    } else {
      SplitLosesOnlySeparators(s[1..], sep, cur + [s[0]]);
      assert cur + [s[0]] + DeleteChar(s[1..], sep) == cur + ([s[0]] + DeleteChar(s[1..], sep));
    }
  }

  /** The pieces joined with sep. */
  function Join(ps: seq<string>, sep: char): string {
    if ps == [] then [] else if |ps| == 1 then ps[0] else ps[0] + [sep] + Join(ps[1..], sep)
  }

  /** Reading a piece that holds no separator only extends the current piece. */
  lemma {:induction false} SplitReadsPiece(p: string, t: string, sep: char, cur: string)
    requires sep !in p
    ensures SplitFrom(p + t, sep, cur) == SplitFrom(t, sep, cur + p)
    decreases |p|
  {
    if p != [] {
      assert (p + t)[0] == p[0];
      assert (p + t)[1..] == p[1..] + t;
      SplitReadsPiece(p[1..], t, sep, cur + [p[0]]);
      assert cur + [p[0]] + p[1..] == cur + p;
    } else {
      assert p + t == t;
      assert cur + p == cur;
    }
  }

  /** Splitting undoes joining, for pieces that are non-empty and hold no separator. */
  lemma {:induction false} SplitJoin(ps: seq<string>, sep: char)
    requires forall k :: 0 <= k < |ps| ==> ps[k] != [] && sep !in ps[k]
    ensures Split(Join(ps, sep), sep) == ps
  {
    SplitJoinFrom(ps, sep);
  }

  lemma {:induction false} SplitJoinFrom(ps: seq<string>, sep: char)
    requires forall k :: 0 <= k < |ps| ==> ps[k] != [] && sep !in ps[k]
    ensures SplitFrom(Join(ps, sep), sep, []) == ps
    decreases |ps|
  {
    if |ps| == 1 {
      SplitReadsPiece(ps[0], [], sep, []);
      assert ps[0] + [] == ps[0];
      assert [] + ps[0] == ps[0];
      assert Join(ps, sep) == ps[0];
      assert ps == [ps[0]];
    } else if |ps| > 1 {
      var t := Join(ps[1..], sep);
      assert Join(ps, sep) == ps[0] + ([sep] + t);
      SplitReadsPiece(ps[0], [sep] + t, sep, []);
      assert ([sep] + t)[1..] == t;
      SplitJoinFrom(ps[1..], sep);
      assert [] + ps[0] == ps[0];
      assert ps == [ps[0]] + ps[1..];
    }
  }

  // ---------------------------------------------------------------------
  // Int32.ToString() for non-negative values, and its inverse

  predicate IsDigit(c: char) { '0' <= c <= '9' }

  function DigitChar(d: nat): (c: char)
    requires d < 10
    ensures IsDigit(c)
  {
    "0123456789"[d]
  }

  /** Decimal digits of n, most significant first, without leading zeros. */
  function NatToString(n: nat): (r: string)
    ensures r != [] && forall k :: 0 <= k < |r| ==> IsDigit(r[k])
    ensures |r| > 1 ==> r[0] != '0'
  {
    if n < 10 then [DigitChar(n)] else NatToString(n / 10) + [DigitChar(n % 10)]
  }

  /** The number that a string of digits denotes. */
  function ParseNat(s: string): nat
    requires forall k :: 0 <= k < |s| ==> IsDigit(s[k])
  {
    if s == [] then 0
    else
      var last := s[|s| - 1];
      assert IsDigit(last);
      10 * ParseNat(s[..|s| - 1]) + ((last as int) - ('0' as int))
  }

  /** Parsing the rendered number gives the number back. */
  lemma {:induction false} ParseNatToString(n: nat)
    ensures ParseNat(NatToString(n)) == n
  {
    if n >= 10 {
      var r := NatToString(n);
      assert r[..|r| - 1] == NatToString(n / 10);
      ParseNatToString(n / 10);
    }
  }

  /** The number of decimal digits of n. */
  lemma {:induction false} NatToStringLength(n: nat, d: nat)
    requires d >= 1
    requires Pow10(d - 1) <= n < Pow10(d) || (n < 10 && d == 1)
    ensures |NatToString(n)| == d
    decreases d
  {
    assert Pow10(1) == 10;
    if n >= 10 {
      assert Pow10(d - 1) == 10 * Pow10(d - 2);
      NatToStringLength(n / 10, d - 1);
    }
  }

  function Pow10(d: nat): nat {
    if d == 0 then 1 else 10 * Pow10(d - 1)
  }

  /** s.Split(c)[0]: the part of s before the first c (all of s when there is none). */
  function Before(s: string, c: char): (r: string)
    ensures c !in r
    ensures |r| <= |s| && r == s[..|r|]
    ensures |r| < |s| ==> s[|r|] == c
  {
    var k := IndexOf(s, c);
    if k < 0 then s else s[..k]
  }
}
