/** Text helpers with the semantics of the Qt and C++ string operations the
    build-flow code relies on (QString::indexOf, mid, replace, split, trimmed,
    std::to_string). */
module Strings {

  /** `pat` occurs in `s` starting at position `k`. */
  predicate OccursAt(s: string, pat: string, k: int)
  {
    0 <= k && k + |pat| <= |s| && s[k..k + |pat|] == pat
  }

  /** First position at or after `from` where `pat` occurs, or -1 (QString::indexOf). */
  function IndexOf(s: string, pat: string, from: nat): (r: int)
    ensures r == -1 || (from <= r && OccursAt(s, pat, r))
    ensures r == -1 ==> forall k :: from <= k ==> !OccursAt(s, pat, k)
    ensures r != -1 ==> forall k :: from <= k < r ==> !OccursAt(s, pat, k)
    decreases |s| - from
  {
    if from + |pat| > |s| then -1
    else if s[from..from + |pat|] == pat then from
    else IndexOf(s, pat, from + 1)
  }

  /** `pat` occurs somewhere in `s` (QString::contains). */
  predicate Contains(s: string, pat: string)
  {
    IndexOf(s, pat, 0) != -1
  }

  predicate StartsWith(s: string, prefix: string)
  {
    |prefix| <= |s| && s[..|prefix|] == prefix
  }

  /** QString::mid(pos, n): `n` characters from `pos`, or the rest of the
      string when `n` is negative or reaches past the end. */
  function Mid(s: string, pos: nat, n: int): (r: string)
    ensures pos <= |s| ==> StartsWith(s[pos..], r)
    ensures pos <= |s| && 0 <= n && pos + n <= |s| ==> |r| == n
    ensures pos <= |s| && (n < 0 || pos + n > |s|) ==> r == s[pos..]
  {
    if pos > |s| then ""
    else if n < 0 || pos + n > |s| then s[pos..]
    else s[pos..pos + n]
  }

  /** Replace every occurrence of `pat`, scanning left to right without
      overlap and without rescanning inserted text (QString::replace,
      the utility ReplaceAll). */
  function ReplaceAll(s: string, pat: string, rep: string): string
    requires |pat| > 0
    decreases |s|
  {
    if |s| < |pat| then s
    else if s[..|pat|] == pat then rep + ReplaceAll(s[|pat|..], pat, rep)
    else [s[0]] + ReplaceAll(s[1..], pat, rep)
  }

  /** A pattern that occurs only at the very end is replaced there alone. */
  lemma {:induction false} ReplaceAllAtEnd(a: string, pat: string, rep: string)
    requires |pat| > 0
    requires forall k :: 0 <= k < |a| ==> !OccursAt(a + pat, pat, k)
    ensures ReplaceAll(a + pat, pat, rep) == a + rep
    decreases |a|
  {
    var s := a + pat;
    if a == [] {
      assert s[..|pat|] == pat && s[|pat|..] == [];
    } else {
      assert !OccursAt(s, pat, 0);
      assert s[1..] == a[1..] + pat;
      forall k | 0 <= k < |a| - 1 ensures !OccursAt(a[1..] + pat, pat, k) {
        assert !OccursAt(s, pat, k + 1);
        if k + |pat| <= |a[1..] + pat| {
          assert s[k + 1..k + 1 + |pat|] == (a[1..] + pat)[k..k + |pat|];
        }
      }
      ReplaceAllAtEnd(a[1..], pat, rep);
      assert [a[0]] + (a[1..] + rep) == a + rep;
    }
  }

  /** A pattern without spaces, absent from `more`, is found first right
      after the space that follows `more`. */
  lemma IndexAfterSpace(more: string, pat: string, rest: string)
    requires pat != [] && ' ' !in pat
    requires !Contains(more, pat)
    requires StartsWith(rest, pat)
    ensures IndexOf(more + " " + rest, pat, 0) == |more| + 1
  {
    var s := more + " " + rest;
    assert s[|more| + 1..|more| + 1 + |pat|] == rest[..|pat|];
    assert OccursAt(s, pat, |more| + 1);
    forall k | 0 <= k <= |more| ensures !OccursAt(s, pat, k) {
      NotBeforeSpace(more, pat, rest, k);
    }
  }

  lemma NotBeforeSpace(more: string, pat: string, rest: string, k: nat)
    requires ' ' !in pat
    requires !Contains(more, pat)
    requires k <= |more|
    ensures !OccursAt(more + " " + rest, pat, k)
  {
    var s := more + " " + rest;
    assert |more| < k + |pat| <= |s| ==> s[k..k + |pat|][|more| - k] == ' ';
    assert k + |pat| <= |more| ==> s[k..k + |pat|] == more[k..k + |pat|] && !OccursAt(more, pat, k);
  }

  /** Replacing a pattern that does not occur leaves the text unchanged. */
  lemma {:induction false} ReplaceAllAbsent(s: string, pat: string, rep: string)
    requires |pat| > 0
    requires forall k :: !OccursAt(s, pat, k)
    ensures ReplaceAll(s, pat, rep) == s
    decreases |s|
  {
    if |s| >= |pat| {
      assert !OccursAt(s, pat, 0);
      forall k ensures !OccursAt(s[1..], pat, k) {
        OccursShift(s, pat, k);
      }
      ReplaceAllAbsent(s[1..], pat, rep);
    }
  }

  lemma OccursShift(s: string, pat: string, k: int)
    requires s != []
    ensures OccursAt(s[1..], pat, k) ==> OccursAt(s, pat, k + 1)
  {
    if OccursAt(s[1..], pat, k) {
      assert s[1..][k..k + |pat|] == s[k + 1..k + 1 + |pat|];
    }
  }

  /** QString::split / Tokenize with a one-character separator, keeping
      empty parts. */
  function Split(s: string, c: char): (parts: seq<string>)
    ensures |parts| >= 1
    ensures forall p :: p in parts ==> c !in p
    decreases |s|
  {
    if s == [] then [[]]
    else
      var rest := Split(s[1..], c);
      if s[0] == c then [[]] + rest else [[s[0]] + rest[0]] + rest[1..]
  }

  /** Parts joined with the separator between them (QStringList::join). */
  function Join(parts: seq<string>, c: char): string
  {
    if parts == [] then []
    else if |parts| == 1 then parts[0]
    else parts[0] + [c] + Join(parts[1..], c)
  }

  /** The non-empty parts, in order. */
  function NonEmpty(parts: seq<string>): (r: seq<string>)
    ensures forall p :: p in r ==> p in parts && p != []
    ensures |r| <= |parts|
  {
    if parts == [] then []
    else if parts[0] == [] then NonEmpty(parts[1..])
    else [parts[0]] + NonEmpty(parts[1..])
  }

  /** QString::split(c, Qt::SkipEmptyParts). */
  function SplitSkipEmpty(s: string, c: char): seq<string>
  {
    NonEmpty(Split(s, c))
  }

  /** Splitting a joined list gives the list back when no part holds the separator. */
  lemma {:induction false} SplitJoin(parts: seq<string>, c: char)
    requires |parts| >= 1
    requires forall p :: p in parts ==> c !in p
    ensures Split(Join(parts, c), c) == parts
    decreases |parts|, |parts[0]|
  {
    if |parts| == 1 {
      SplitNoSeparator(parts[0], c);
    } else if parts[0] == [] {
      assert Join(parts, c) == [c] + Join(parts[1..], c);
      SplitJoin(parts[1..], c);
    } else {
      var tail := [parts[0][1..]] + parts[1..];
      assert Join(parts, c) == [parts[0][0]] + Join(tail, c) by {
        assert Join(tail, c) == parts[0][1..] + [c] + Join(parts[1..], c);
        assert parts[0] == [parts[0][0]] + parts[0][1..];
      }
      assert parts[0][0] in parts[0];
      assert forall p :: p in tail ==> c !in p by {
        forall p | p in tail ensures c !in p {
          if p == parts[0][1..] {
            assert forall x :: x in parts[0][1..] ==> x in parts[0];
          }
        }
      }
      SplitJoin(tail, c);
      assert [parts[0][0]] + tail[0] == parts[0];
    }
  }

  lemma {:induction false} SplitNoSeparator(s: string, c: char)
    requires c !in s
    ensures Split(s, c) == [s]
    decreases |s|
  {
    if s != [] {
      assert s[0] in s;
      assert forall x :: x in s[1..] ==> x in s;
      SplitNoSeparator(s[1..], c);
      assert s == [s[0]] + s[1..];
    }
  }

  /** Parts that are non-empty survive SkipEmptyParts unchanged. */
  lemma {:induction false} NonEmptyKeeps(parts: seq<string>)
    requires forall p :: p in parts ==> p != []
    ensures NonEmpty(parts) == parts
  {
    if parts != [] {
      assert parts[0] in parts;
      assert forall p :: p in parts[1..] ==> p in parts;
      NonEmptyKeeps(parts[1..]);
      assert parts == [parts[0]] + parts[1..];
    }
  }

  predicate IsSpace(ch: char)
  {
    ch == ' ' || ch == '\t' || ch == '\n' || ch == '\r' || ch == '\U{000B}' || ch == '\U{000C}'
  }

  function TrimLeft(s: string): (r: string)
    ensures |r| <= |s| && r == s[|s| - |r|..]
    ensures r == [] || !IsSpace(r[0])
  {
    if s != [] && IsSpace(s[0]) then TrimLeft(s[1..]) else s
  }

  function TrimRight(s: string): (r: string)
    ensures |r| <= |s| && r == s[..|r|]
    ensures r == [] || !IsSpace(r[|r| - 1])
  {
    if s != [] && IsSpace(s[|s| - 1]) then TrimRight(s[..|s| - 1]) else s
  }

  /** Whitespace removed from both ends (QString::trimmed, the utility Trim). */
  function Trim(s: string): string
  {
    TrimRight(TrimLeft(s))
  }

  function DigitChar(d: nat): char
    requires d < 10
  {
    "0123456789"[d]
  }

  /** Decimal text of a natural number. */
  function NatToString(n: nat): (r: string)
    ensures |r| >= 1
    ensures n >= 10 ==> |r| >= 2
    ensures '-' !in r
  {
    if n < 10 then [DigitChar(n)] else NatToString(n / 10) + [DigitChar(n % 10)]
  }

  /** Decimal text of an integer (std::to_string, QString::number). */
  function IntToString(i: int): string
  {
    if i < 0 then "-" + NatToString(-i) else NatToString(i)
  }

  /** Different numbers have different decimal texts. */
  lemma {:induction false} NatToStringInjective(a: nat, b: nat)
    requires NatToString(a) == NatToString(b)
    ensures a == b
  {
    if a >= 10 && b >= 10 {
      var ra, rb := NatToString(a), NatToString(b);
      assert ra[|ra| - 1] == rb[|rb| - 1];
      assert DigitChar(a % 10) == DigitChar(b % 10);
      assert a % 10 == b % 10;
      assert NatToString(a / 10) == ra[..|ra| - 1] == rb[..|rb| - 1] == NatToString(b / 10);
      NatToStringInjective(a / 10, b / 10);
    } else if a < 10 && b < 10 {
      assert DigitChar(a) == NatToString(a)[0] == NatToString(b)[0] == DigitChar(b);
    }
  }
}
