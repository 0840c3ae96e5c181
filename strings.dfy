/** The few Python `str` operations the services rely on: `lower`, `strip`,
    `split`, `find`, `in` and the ordering `<` used by `sorted` and
    `sort_values`. Strings are sequences of code points; only ASCII letters
    are case-folded and only ASCII whitespace is stripped. */
module Strings {

  /** Python's ASCII whitespace: \t \n \v \f \r, the separators \x1c-\x1f, and space. */
  predicate IsSpace(c: char) {
    var k := c as int;
    k == 32 || 9 <= k <= 13 || 28 <= k <= 31
  }

  function LowerChar(c: char): char {
    if 'A' <= c <= 'Z' then (c as int + 32) as char else c
  }

  /** Two characters are the same letter up to ASCII case: equal, or an
      upper-case ASCII letter and its lower-case form, either way round. */
  predicate SameUpToCase(c: char, d: char) {
    || c == d
    || ('A' <= c <= 'Z' && d as int == c as int + 32)
    || ('A' <= d <= 'Z' && c as int == d as int + 32)
  }

  /** Two strings that differ at most in the ASCII case of their letters. */
  predicate EqualIgnoringCase(a: string, b: string) {
    |a| == |b| && forall i :: 0 <= i < |a| ==> SameUpToCase(a[i], b[i])
  }

  /** `str.lower()` on ASCII letters; every other character is kept. */
  function Lower(s: string): (r: string)
    ensures |r| == |s|
    ensures forall i :: 0 <= i < |s| ==> !('A' <= r[i] <= 'Z')
    ensures forall i :: 0 <= i < |s| ==> SameUpToCase(s[i], r[i])
  {
    seq(|s|, i requires 0 <= i < |s| => LowerChar(s[i]))
  }

  /** Lowering twice is lowering once, so comparing lowered strings is an
      equivalence that ignores ASCII case. */
  lemma {:induction false} LowerIdempotent(s: string)
    ensures Lower(Lower(s)) == Lower(s)
  {
    forall i | 0 <= i < |s|
      ensures Lower(Lower(s))[i] == Lower(s)[i]
    {
      assert !('A' <= Lower(s)[i] <= 'Z');
    }
  }

  /** Comparing lowered strings is exactly comparing up to ASCII case. */
  lemma LowerEqualIff(a: string, b: string)
    ensures Lower(a) == Lower(b) <==> EqualIgnoringCase(a, b)
  {
    if Lower(a) == Lower(b) {
      forall i | 0 <= i < |a|
        ensures SameUpToCase(a[i], b[i])
      {
        assert Lower(a)[i] == Lower(b)[i];
      }
    }
    if EqualIgnoringCase(a, b) {
      forall i | 0 <= i < |a|
        ensures Lower(a)[i] == Lower(b)[i]
      {
        assert SameUpToCase(a[i], b[i]);
      }
    }
  }

  // ---------------------------------------------------------------------
  // strip

  /** The index of the first non-whitespace character at or after `i`,
      or `|s|` when there is none. */
  function SkipSpace(s: string, i: nat): (k: nat)
    requires i <= |s|
    ensures i <= k <= |s|
    ensures forall j :: i <= j < k ==> IsSpace(s[j])
    ensures k == |s| || !IsSpace(s[k])
    decreases |s| - i
  {
    if i < |s| && IsSpace(s[i]) then SkipSpace(s, i + 1) else i
  }

  /** The end of `s[lo..hi]` once trailing whitespace is dropped. */
  function SkipSpaceBack(s: string, lo: nat, hi: nat): (k: nat)
    requires lo <= hi <= |s|
    ensures lo <= k <= hi
    ensures forall j :: k <= j < hi ==> IsSpace(s[j])
    ensures k == lo || !IsSpace(s[k - 1])
    decreases hi
  {
    if lo < hi && IsSpace(s[hi - 1]) then SkipSpaceBack(s, lo, hi - 1) else hi
  }

  /** `str.strip()` with no argument: the slice of `s` between its leading
      and its trailing whitespace. */
  function Strip(s: string): (r: string)
    ensures |r| <= |s|
    ensures r == [] || (!IsSpace(r[0]) && !IsSpace(r[|r| - 1]))
    ensures forall c :: c in r ==> c in s
    ensures exists lo, hi :: && 0 <= lo <= hi <= |s| && r == s[lo..hi]
                             && (forall j :: 0 <= j < lo ==> IsSpace(s[j]))
                             && (forall j :: hi <= j < |s| ==> IsSpace(s[j]))
  {
    var lo := SkipSpace(s, 0);
    var hi := SkipSpaceBack(s, lo, |s|);
    assert forall j :: hi <= j < |s| ==> IsSpace(s[j]);
    s[lo..hi]
  }

  /** Whitespace padding around a text that neither starts nor ends with
      whitespace is exactly what stripping removes. */
  lemma StripOfPadded(pre: string, core: string, post: string)
    requires forall j :: 0 <= j < |pre| ==> IsSpace(pre[j])
    requires forall j :: 0 <= j < |post| ==> IsSpace(post[j])
    requires core == [] || (!IsSpace(core[0]) && !IsSpace(core[|core| - 1]))
    ensures Strip(pre + core + post) == core
  {
    var s := pre + core + post;
    var a, b := |pre|, |pre| + |core|;
    forall j | 0 <= j < a
      ensures IsSpace(s[j])
    {
      assert s[j] == pre[j];
    }
    forall j | b <= j < |s|
      ensures IsSpace(s[j])
    {
      assert s[j] == post[j - b];
    }
    var lo := SkipSpace(s, 0);
    if core == [] {
      assert lo == |s|;
      assert Strip(s) == s[lo..SkipSpaceBack(s, lo, |s|)];
    } else {
      assert s[a] == core[0] && s[b - 1] == core[|core| - 1];
      assert lo == a;
      var hi := SkipSpaceBack(s, lo, |s|);
      assert hi == b;
      assert Strip(s) == s[a..b];
      assert s[a..b] == core;
    }
  }

  /** Stripping an already stripped string changes nothing. */
  lemma StripIdempotent(s: string)
    ensures Strip(Strip(s)) == Strip(s)
  {
    var r := Strip(s);
    assert SkipSpace(r, 0) == 0;
    assert SkipSpaceBack(r, 0, |r|) == |r|;
    assert r[0..|r|] == r;
  }

  // ---------------------------------------------------------------------
  // substring search

  /** `sub` occurs in `s` starting at index `i`. */
  predicate OccursAt(s: string, sub: string, i: int) {
    0 <= i && i + |sub| <= |s| && s[i..i + |sub|] == sub
  }

  /** Python's `sub in s`. */
  predicate Contains(s: string, sub: string) {
    exists i :: 0 <= i <= |s| && OccursAt(s, sub, i)
  }

  /** Python's `s.find(sub, start)` for a non-negative `start`: the lowest
      index at or after `start` where `sub` occurs, or -1. */
  function Find(s: string, sub: string, start: nat): (r: int)
    ensures r == -1 <==> forall i :: start <= i ==> !OccursAt(s, sub, i)
    ensures r != -1 ==> start <= r && OccursAt(s, sub, r)
    ensures r != -1 ==> forall i :: start <= i < r ==> !OccursAt(s, sub, i)
    decreases |s| - start
  {
    if start + |sub| > |s| then -1
    else if OccursAt(s, sub, start) then start
    else Find(s, sub, start + 1)
  }

  /** `sub in s` holds exactly when `s.find(sub)` is not -1. */
  lemma ContainsIffFound(s: string, sub: string)
    ensures Contains(s, sub) <==> Find(s, sub, 0) >= 0
  {
    if Find(s, sub, 0) >= 0 {
      assert OccursAt(s, sub, Find(s, sub, 0));
    }
  }

  /** A string that contains `long` also contains every prefix of `long`. */
  lemma ContainsPrefix(s: string, long: string, short: string)
    requires Contains(s, long)
    requires |short| <= |long| && long[..|short|] == short
    ensures Contains(s, short)
  {
    var i :| 0 <= i <= |s| && OccursAt(s, long, i);
    assert s[i..i + |short|] == s[i..i + |long|][..|short|];
    assert OccursAt(s, short, i);
  }

  /** The text between `start` and the first occurrence of a non-empty
      `sub` found from there holds no occurrence of `sub`. */
  lemma NothingBeforeFound(s: string, sub: string, start: nat)
    requires |sub| > 0 && Find(s, sub, start) >= 0
    ensures start <= Find(s, sub, start) <= |s|
    ensures !Contains(s[start..Find(s, sub, start)], sub)
  {
    var end := Find(s, sub, start);
    assert OccursAt(s, sub, end);
    var inner := s[start..end];
    if k :| 0 <= k <= |inner| && OccursAt(inner, sub, k) {
      assert s[start + k..start + k + |sub|] == inner[k..k + |sub|];
      assert OccursAt(s, sub, start + k);
      assert false;
    }
  }

  // ---------------------------------------------------------------------
  // split on a single separator

  /** `s.split(sep)` for a one-character separator: always at least one
      piece, and no piece contains the separator. */
  function Split(s: string, sep: char): (parts: seq<string>)
    ensures |parts| >= 1
    ensures forall i :: 0 <= i < |parts| ==> sep !in parts[i]
    decreases |s|
  {
    if s == [] then [""]
    else
      var rest := Split(s[1..], sep);
      if s[0] == sep then [""] + rest
      else [[s[0]] + rest[0]] + rest[1..]
  }

  /** `sep.join(parts)`. */
  function Join(parts: seq<string>, sep: char): string
    requires |parts| >= 1
    decreases |parts|
  {
    if |parts| == 1 then parts[0] else parts[0] + [sep] + Join(parts[1..], sep)
  }

  /** Splitting loses nothing: joining the pieces gives the input back. */
  lemma {:induction false} JoinSplit(s: string, sep: char)
    ensures Join(Split(s, sep), sep) == s
    decreases |s|
  {
    if s != [] {
      var rest := Split(s[1..], sep);
      JoinSplit(s[1..], sep);
      if s[0] != sep {
        if |rest| == 1 {
          assert Split(s, sep) == [[s[0]] + rest[0]];
        } else {
          assert Split(s, sep)[1..] == rest[1..];
          assert Join(rest, sep) == rest[0] + [sep] + Join(rest[1..], sep);
        }
      } else {
        assert Split(s, sep)[1..] == rest;
      }
    }
  }

  lemma {:induction false} SplitPiece(p: string, sep: char, t: string)
    requires sep !in p
    ensures Split(p + [sep] + t, sep) == [p] + Split(t, sep)
    ensures Split(p, sep) == [p]
    decreases |p|
  {
    if p == [] {
      assert p + [sep] + t == [sep] + t;
      assert ([sep] + t)[1..] == t;
    } else {
      assert (p + [sep] + t)[1..] == p[1..] + [sep] + t;
      assert p == [p[0]] + p[1..];
      SplitPiece(p[1..], sep, t);
    }
  }

  /** Joining pieces free of the separator and splitting again gives the
      same pieces. */
  lemma {:induction false} SplitJoin(parts: seq<string>, sep: char)
    requires |parts| >= 1
    requires forall i :: 0 <= i < |parts| ==> sep !in parts[i]
    ensures Split(Join(parts, sep), sep) == parts
    decreases |parts|
  {
    if |parts| == 1 {
      SplitPiece(parts[0], sep, "");
    } else {
      SplitJoin(parts[1..], sep);
      SplitPiece(parts[0], sep, Join(parts[1..], sep));
      assert parts == [parts[0]] + parts[1..];
    }
  }

  // ---------------------------------------------------------------------
  // ordering

  /** Python's `<` on `str`: lexicographic by code point, a proper prefix
      being smaller. */
  predicate StrLess(a: string, b: string)
    decreases |a|
  {
    if a == [] then b != []
    else if b == [] then false
    else if a[0] != b[0] then a[0] < b[0]
    else StrLess(a[1..], b[1..])
  }

  predicate StrLe(a: string, b: string) {
    StrLess(a, b) || a == b
  }

  lemma {:induction false} StrLessIrreflexive(a: string)
    ensures !StrLess(a, a)
    decreases |a|
  {
    if a != [] {
      StrLessIrreflexive(a[1..]);
    }
  }

  lemma {:induction false} StrLessTransitive(a: string, b: string, c: string)
    requires StrLess(a, b) && StrLess(b, c)
    ensures StrLess(a, c)
    decreases |a|
  {
    if a != [] && a[0] == b[0] && b[0] == c[0] {
      StrLessTransitive(a[1..], b[1..], c[1..]);
    }
  }

  lemma {:induction false} StrLessTotal(a: string, b: string)
    ensures a == b || StrLess(a, b) || StrLess(b, a)
    decreases |a|
  {
    if a != [] && b != [] && a[0] == b[0] {
      StrLessTotal(a[1..], b[1..]);
      if a[1..] == b[1..] {
        assert a == [a[0]] + a[1..] && b == [b[0]] + b[1..];
      }
    }
  }

  lemma StrLessAsymmetric(a: string, b: string)
    requires StrLess(a, b)
    ensures !StrLess(b, a)
  {
    if StrLess(b, a) {
      StrLessTransitive(a, b, a);
      StrLessIrreflexive(a);
    }
  }
}
