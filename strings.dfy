/** Python string helpers the pipeline relies on: `sep.join`, `str.endswith`,
    `str.replace`, plus the subsequence relation used to state what cleaning
    and retrieval keep. */
module Strings {

  /** `sep.join(parts)` */
  function Join(sep: string, parts: seq<string>): string
  {
    if |parts| == 0 then ""
    else if |parts| == 1 then parts[0]
    else parts[0] + sep + Join(sep, parts[1..])
  }

  predicate StartsWith(s: string, prefix: string)
  {
    |prefix| <= |s| && s[..|prefix|] == prefix
  }

  /** `s.endswith(suffix)` */
  predicate EndsWith(s: string, suffix: string)
  {
    |suffix| <= |s| && s[|s| - |suffix|..] == suffix
  }

  /** `s.replace(pat, rep)`: leftmost, non-overlapping occurrences, scanning left to right. */
  function ReplaceAll(s: string, pat: string, rep: string): string
    requires |pat| > 0
    decreases |s|
  {
    if |s| < |pat| then s
    else if s[..|pat|] == pat then rep + ReplaceAll(s[|pat|..], pat, rep)
    else [s[0]] + ReplaceAll(s[1..], pat, rep)
  }

  /** `pat` occurs in `s` starting at index `i`. */
  predicate OccursAt(s: string, pat: string, i: int)
  {
    0 <= i && i + |pat| <= |s| && s[i..i + |pat|] == pat
  }

  /** `pat in s` */
  predicate Contains(s: string, pat: string)
  {
    exists i | 0 <= i <= |s| :: OccursAt(s, pat, i)
  }

  /** `pat` has no proper prefix that is also a suffix, so two occurrences never overlap. */
  predicate Unbordered(pat: string)
  {
    forall k | 0 < k < |pat| :: pat[k..] != pat[..|pat| - k]
  }

  /** Number of occurrences of `c` in `s`. */
  function Count(c: char, s: string): nat
  {
    if s == [] then 0 else (if s[0] == c then 1 else 0) + Count(c, s[1..])
  }

  /** `a` can be obtained from `b` by deleting elements (order kept). */
  predicate IsSubsequence<T(==)>(a: seq<T>, b: seq<T>)
    decreases |b|
  {
    if a == [] then true
    else if b == [] then false
    else if a[0] == b[0] then IsSubsequence(a[1..], b[1..])
    else IsSubsequence(a, b[1..])
  }

  // ---------------------------------------------------------------------
  // ReplaceAll on a name ending with an unbordered pattern
  // ---------------------------------------------------------------------

  /** Replacing in `stem + pat` replaces the final `pat` as a whole: it ends
      with `rep`, and what precedes is the replacement applied to `stem`. */
  lemma {:induction false} ReplaceAllSuffix(stem: string, pat: string, rep: string)
    requires |pat| > 0 && Unbordered(pat)
    ensures ReplaceAll(stem + pat, pat, rep) == ReplaceAll(stem, pat, rep) + rep
    decreases |stem|
  {
    var s := stem + pat;
    if stem == [] {
      assert s == pat;
      assert s[|pat|..] == [];
      assert ReplaceAll(s, pat, rep) == rep + ReplaceAll([], pat, rep);
    } else if s[..|pat|] == pat {
      if |stem| >= |pat| {
        assert stem[..|pat|] == pat;
        assert s[|pat|..] == stem[|pat|..] + pat;
        ReplaceAllSuffix(stem[|pat|..], pat, rep);
      } else {
        OverlapIsBorder(stem, pat);
        assert false;
      }
    } else {
      assert s[1..] == stem[1..] + pat;
      ReplaceAllSuffix(stem[1..], pat, rep);
      if |stem| < |pat| {
        ReplaceAllShort(stem, pat, rep);
        ReplaceAllShort(stem[1..], pat, rep);
      } else {
        assert stem[..|pat|] == s[..|pat|];
      }
    }
  }

  lemma OverlapIsBorder(stem: string, pat: string)
    requires 0 < |stem| < |pat| && (stem + pat)[..|pat|] == pat
    ensures pat[|stem|..] == pat[..|pat| - |stem|]
  {
    var s, k := stem + pat, |stem|;
    assert pat[k..] == s[k..|pat|];
    assert s[k..|pat|] == pat[..|pat| - k];
  }

  lemma ReplaceAllShort(s: string, pat: string, rep: string)
    requires 0 < |pat| && |s| < |pat|
    ensures ReplaceAll(s, pat, rep) == s
  {
  }

  /** Replacement introduces no character that neither the text nor the replacement has. */
  lemma {:induction false} ReplaceAllFree(c: char, s: string, pat: string, rep: string)
    requires |pat| > 0 && c !in s && c !in rep
    ensures c !in ReplaceAll(s, pat, rep)
    decreases |s|
  {
    if |s| >= |pat| {
      if s[..|pat|] == pat {
        ReplaceAllFree(c, s[|pat|..], pat, rep);
      } else {
        ReplaceAllFree(c, s[1..], pat, rep);
      }
    }
  }

  /** A name that does not contain the pattern is left unchanged. */
  lemma {:induction false} ReplaceAllAbsent(s: string, pat: string, rep: string)
    requires |pat| > 0
    requires !Contains(s, pat)
    ensures ReplaceAll(s, pat, rep) == s
    decreases |s|
  {
    if |s| >= |pat| {
      assert !OccursAt(s, pat, 0);
      if Contains(s[1..], pat) {
        var i :| 0 <= i <= |s[1..]| && OccursAt(s[1..], pat, i);
        assert 0 <= i && i + |pat| <= |s[1..]| && s[1..][i..i + |pat|] == pat;
        assert s[1..][i..i + |pat|] == s[i + 1..i + 1 + |pat|];
        assert OccursAt(s, pat, i + 1);
      }
      ReplaceAllAbsent(s[1..], pat, rep);
      assert [s[0]] + s[1..] == s;
    }
  }

  // ---------------------------------------------------------------------
  // Counting and Join
  // ---------------------------------------------------------------------

  lemma {:induction false} CountAppend(c: char, a: string, b: string)
    ensures Count(c, a + b) == Count(c, a) + Count(c, b)
  {
    if a != [] {
      assert (a + b)[0] == a[0];
      assert (a + b)[1..] == a[1..] + b;
      CountAppend(c, a[1..], b);
    } else {
      assert a + b == b;
    }
  }

  /** Total occurrences of `c` over a list of strings. */
  function CountAll(c: char, parts: seq<string>): nat
  {
    if parts == [] then 0 else Count(c, parts[0]) + CountAll(c, parts[1..])
  }

  /** Splitting off the last element of the right operand of a concatenation. */
  lemma AppendLast<T>(a: seq<T>, b: seq<T>)
    requires b != []
    ensures a + b == (a + b[..|b| - 1]) + [b[|b| - 1]]
    ensures b == b[..|b| - 1] + [b[|b| - 1]]
  {
  }

  /** Dropping a prefix no longer than `a` from `a + z`. */
  lemma SliceAppend<T>(a: seq<T>, z: seq<T>, n: nat)
    requires n <= |a|
    ensures (a + z)[n..] == a[n..] + z
    ensures n < |a| ==> (a + z)[n] == a[n]
  {
  }

  /** Regrouping a concatenation of three. */
  lemma AppendRegroup<T>(x: seq<T>, y: seq<T>, z: seq<T>)
    ensures (x + y) + z == x + (y + z)
  {
  }

  /** The occurrences over one more part: that part's are added. */
  lemma {:induction false} CountAllSnoc(c: char, parts: seq<string>, p: string)
    ensures CountAll(c, parts + [p]) == CountAll(c, parts) + Count(c, p)
  {
    if parts == [] {
      assert [p][1..] == [];
    } else {
      assert (parts + [p])[1..] == parts[1..] + [p];
      CountAllSnoc(c, parts[1..], p);
    }
  }

  /** A join has the separator's occurrences once per gap, plus the parts' own. */
  lemma {:induction false} CountJoin(c: char, sep: string, parts: seq<string>)
    requires |parts| > 0
    ensures Count(c, Join(sep, parts)) == Count(c, sep) * (|parts| - 1) + CountAll(c, parts)
  {
    if |parts| == 1 {
      assert parts[1..] == [];
    } else {
      var rest := Join(sep, parts[1..]);
      CountJoin(c, sep, parts[1..]);
      CountAppend(c, parts[0], sep);
      CountAppend(c, parts[0] + sep, rest);
      var k, n := Count(c, sep), |parts| - 1;
      assert k * n == k * (n - 1) + k;
      assert CountAll(c, parts) == Count(c, parts[0]) + CountAll(c, parts[1..]);
    }
  }

  /** Total length of a list of strings. */
  function TotalLength(parts: seq<string>): nat
  {
    if parts == [] then 0 else |parts[0]| + TotalLength(parts[1..])
  }

  /** A join is as long as its parts plus one separator per gap. */
  lemma {:induction false} JoinLength(sep: string, parts: seq<string>)
    requires |parts| > 0
    ensures |Join(sep, parts)| == TotalLength(parts) + |sep| * (|parts| - 1)
  {
    if |parts| == 1 {
      assert parts[1..] == [];
    } else {
      JoinLength(sep, parts[1..]);
    }
  }

  /** The first character of a join is the first character of its first part. */
  lemma JoinHead(sep: string, parts: seq<string>)
    requires |parts| > 0 && |parts[0]| > 0
    ensures |Join(sep, parts)| > 0 && Join(sep, parts)[0] == parts[0][0]
  {
  }

  // ---------------------------------------------------------------------
  // Subsequences
  // ---------------------------------------------------------------------

  lemma {:induction false} SubsequenceLength<T>(a: seq<T>, b: seq<T>)
    requires IsSubsequence(a, b)
    ensures |a| <= |b|
    decreases |b|
  {
    if a != [] && b != [] {
      if a[0] == b[0] {
        SubsequenceLength(a[1..], b[1..]);
      } else {
        SubsequenceLength(a, b[1..]);
      }
    }
  }

  lemma {:induction false} SubsequenceRefl<T>(a: seq<T>)
    ensures IsSubsequence(a, a)
  {
    if a != [] {
      SubsequenceRefl(a[1..]);
    }
  }

  /** Adding an element in front of the larger sequence keeps a subsequence. */
  lemma {:induction false} SubsequenceCons<T>(a: seq<T>, b: seq<T>)
    requires |b| > 0 && IsSubsequence(a, b[1..])
    ensures IsSubsequence(a, b)
    decreases |a| + |b|
  {
    if a != [] && a[0] == b[0] {
      SubsequenceTail(a, b[1..]);
    }
  }

  /** Dropping the first element of the smaller sequence keeps a subsequence. */
  lemma {:induction false} SubsequenceTail<T>(a: seq<T>, b: seq<T>)
    requires |a| > 0 && IsSubsequence(a, b)
    ensures IsSubsequence(a[1..], b)
    decreases |a| + |b|
  {
    if a[0] == b[0] {
      if |b| > 1 {
        SubsequenceCons(a[1..], b);
      } else {
        assert a[1..] == [];
      }
    } else {
      SubsequenceTail(a, b[1..]);
      SubsequenceCons(a[1..], b);
    }
  }

  lemma {:induction false} SubsequenceTrans<T>(a: seq<T>, b: seq<T>, c: seq<T>)
    requires IsSubsequence(a, b) && IsSubsequence(b, c)
    ensures IsSubsequence(a, c)
    decreases |c|
  {
    if a == [] {
    } else if b == [] {
    } else if b[0] == c[0] {
      if a[0] == b[0] {
        SubsequenceTrans(a[1..], b[1..], c[1..]);
      } else {
        SubsequenceTrans(a, b[1..], c[1..]);
        SubsequenceCons(a, c);
      }
    } else {
      SubsequenceTrans(a, b, c[1..]);
      SubsequenceCons(a, c);
    }
  }

  /** Subsequences of two parts give a subsequence of the concatenation. */
  lemma {:induction false} SubsequenceConcat<T>(a1: seq<T>, b1: seq<T>, a2: seq<T>, b2: seq<T>)
    requires IsSubsequence(a1, b1) && IsSubsequence(a2, b2)
    ensures IsSubsequence(a1 + a2, b1 + b2)
    decreases |b1|
  {
    if b1 == [] {
      assert a1 == [];
      assert a1 + a2 == a2 && b1 + b2 == b2;
    } else if a1 == [] {
      SubsequenceConcat(a1, b1[1..], a2, b2);
      assert b1[1..] + b2 == (b1 + b2)[1..];
      assert a1 + a2 == a2;
      SubsequenceCons(a2, b1 + b2);
    } else if a1[0] == b1[0] {
      SubsequenceConcat(a1[1..], b1[1..], a2, b2);
      assert (a1 + a2)[1..] == a1[1..] + a2;
      assert (b1 + b2)[1..] == b1[1..] + b2;
    } else {
      SubsequenceConcat(a1, b1[1..], a2, b2);
      assert (b1 + b2)[1..] == b1[1..] + b2;
    }
  }

  /** A contiguous slice is a subsequence. */
  lemma {:induction false} SliceIsSubsequence<T>(s: seq<T>, i: nat, j: nat)
    requires i <= j <= |s|
    ensures IsSubsequence(s[i..j], s)
    decreases |s|
  {
    if i == j {
    } else if i == 0 {
      assert s[i..j][0] == s[0];
      assert s[i..j][1..] == s[1..][0..j - 1];
      SliceIsSubsequence(s[1..], 0, j - 1);
    } else {
      var t := s[1..];
      assert forall k | 0 <= k < j - i :: t[i - 1..j - 1][k] == s[i..j][k];
      assert t[i - 1..j - 1] == s[i..j];
      SliceIsSubsequence(t, i - 1, j - 1);
      SubsequenceCons(s[i..j], s);
    }
  }

  /** A slice of a subsequence of `c` is itself a subsequence of `c`, no longer than `c`. */
  lemma SliceOfSubsequence<T>(b: seq<T>, c: seq<T>, lo: nat, hi: nat)
    requires lo <= hi <= |b| && IsSubsequence(b, c)
    ensures IsSubsequence(b[lo..hi], c) && hi - lo <= |c|
  {
    SliceIsSubsequence(b, lo, hi);
    SubsequenceTrans(b[lo..hi], b, c);
    SubsequenceLength(b[lo..hi], c);
  }

}
