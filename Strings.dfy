/** String operations the routes perform with JavaScript's `String.prototype.replace`. */
module Strings {

  /** `sub` occurs somewhere in `s`. */
  ghost predicate Occurs(sub: string, s: string) {
    exists i :: OccursAt(sub, s, i)
  }

  /** `sub` occurs in `s` starting at index `i`. */
  ghost predicate OccursAt(sub: string, s: string, i: int) {
    0 <= i && i + |sub| <= |s| && s[i..i + |sub|] == sub
  }

  lemma OccursBetween(a: string, sub: string, b: string)
    ensures Occurs(sub, a + sub + b)
  {
    var s := a + sub + b;
    assert s[|a|..|a| + |sub|] == sub;
    assert OccursAt(sub, s, |a|);
  }

  /** `sub` occurs in `s` at index `i` and at no index before it. */
  ghost predicate FirstOccurrenceAt(sub: string, s: string, i: int) {
    OccursAt(sub, s, i) && forall j :: 0 <= j < i ==> !OccursAt(sub, s, j)
  }

  /** `s.replace(p, '')` with a string pattern: the first occurrence of `p` is removed, wherever
      it stands; without an occurrence `s` is returned as it is (`RemoveFirstFirstOccurrence`). */
  function RemoveFirst(s: string, p: string): (r: string)
    requires p != []
    ensures r == s || |r| + |p| == |s|
    ensures p[0] !in s ==> r == s
    decreases |s|
  {
    if p <= s then
      assert s[0] == p[0];
      s[|p|..]
    else if s == [] then []
    else
      assert s == [s[0]] + s[1..];
      [s[0]] + RemoveFirst(s[1..], p)
  }

  /** An occurrence past the first character of `s` is an occurrence in its tail. */
  lemma OccursAtShift(p: string, s: string, k: int)
    requires s != [] && 0 < k
    ensures OccursAt(p, s, k) <==> OccursAt(p, s[1..], k - 1)
  {
    if k + |p| <= |s| {
      assert s[k..k + |p|] == s[1..][k - 1..k - 1 + |p|];
    }
  }

  /** When the pattern is not at the front, the first occurrence in the tail, one place further
      on, is the first occurrence in the whole. */
  lemma FirstOccurrenceCons(p: string, s: string, i: int)
    requires p != [] && s != [] && !(p <= s) && FirstOccurrenceAt(p, s[1..], i)
    ensures FirstOccurrenceAt(p, s, i + 1)
  {
    OccursAtShift(p, s, i + 1);
    assert |p| <= |s| ==> s[0..|p|] == s[..|p|];
    forall j | 0 < j < i + 1 ensures !OccursAt(p, s, j) {
      OccursAtShift(p, s, j);
    }
  }

  /** Cutting `n` characters at `i` from the tail and putting the head back cuts them at `i + 1`. */
  lemma SpliceCons(s: string, i: nat, n: nat)
    requires i + 1 + n <= |s|
    ensures [s[0]] + (s[1..][..i] + s[1..][i + n..]) == s[..i + 1] + s[i + 1 + n..]
  {
    assert s[1..][..i] == s[1..i + 1] && s[1..][i + n..] == s[i + 1 + n..];
    assert s[..i + 1] == [s[0]] + s[1..i + 1];
  }

  /** When the pattern is not at the front, removing the first occurrence from the tail and
      putting the head back removes the first occurrence of the whole. */
  lemma RemoveFirstShift(s: string, p: string, t: string, i: int)
    requires p != [] && s != [] && !(p <= s) && FirstOccurrenceAt(p, s[1..], i)
    requires t == s[1..][..i] + s[1..][i + |p|..]
    ensures FirstOccurrenceAt(p, s, i + 1) && [s[0]] + t == s[..i + 1] + s[i + 1 + |p|..]
  {
    FirstOccurrenceCons(p, s, i);
    SpliceCons(s, i, |p|);
  }

  /** `replace` with a string pattern removes exactly the first occurrence, and leaves a string
      in which the pattern does not occur as it is. */
  lemma {:induction false} RemoveFirstFirstOccurrence(s: string, p: string)
    requires p != []
    ensures !Occurs(p, s) ==> RemoveFirst(s, p) == s
    ensures Occurs(p, s) ==> exists i :: FirstOccurrenceAt(p, s, i) && RemoveFirst(s, p) == s[..i] + s[i + |p|..]
    decreases |s|
  {
    if p <= s {
      assert s[0..|p|] == s[..|p|];
      assert FirstOccurrenceAt(p, s, 0) && RemoveFirst(s, p) == s[..0] + s[|p|..];
    } else if s != [] {
      var t := RemoveFirst(s[1..], p);
      assert RemoveFirst(s, p) == [s[0]] + t;
      RemoveFirstFirstOccurrence(s[1..], p);
      if Occurs(p, s[1..]) {
        var i :| FirstOccurrenceAt(p, s[1..], i) && t == s[1..][..i] + s[1..][i + |p|..];
        RemoveFirstShift(s, p, t, i);
        assert OccursAt(p, s, i + 1);
      } else {
        assert [s[0]] + s[1..] == s;
        NoOccurrenceCons(p, s[0], s[1..]);
      }
    }
  }

  /** An occurrence at the front is removed and the rest is kept. */
  lemma RemoveFirstPrefix(t: string, p: string)
    requires p != []
    ensures RemoveFirst(p + t, p) == t
  {
    assert p <= p + t;
    assert (p + t)[|p|..] == t;
  }

  /** A prefix without the pattern's first character is kept, and the search goes on after it:
      the occurrence removed need not stand at the front. */
  lemma {:induction false} RemoveFirstSkip(a: string, t: string, p: string)
    requires p != [] && p[0] !in a
    ensures RemoveFirst(a + t, p) == a + RemoveFirst(t, p)
    decreases |a|
  {
    if a != [] {
      var s := a + t;
      assert s[0] == a[0] && s[0] != p[0];
      assert !(p <= s);
      assert s[1..] == a[1..] + t;
      calc {
        RemoveFirst(s, p);
        [s[0]] + RemoveFirst(s[1..], p);
        { RemoveFirstSkip(a[1..], t, p); }
        [a[0]] + (a[1..] + RemoveFirst(t, p));
        { assert a == [a[0]] + a[1..]; }
        a + RemoveFirst(t, p);
      }
    } else {
      assert a + t == t;
    }
  }

  /** Literal global replacement: every occurrence of `p`, scanned from left to right without
      overlaps, becomes `r`. */
  function ReplaceAll(s: string, p: string, r: string): string
    requires p != []
    decreases |s|
  {
    if s == [] then []
    else if p <= s then r + ReplaceAll(s[|p|..], p, r)
    else [s[0]] + ReplaceAll(s[1..], p, r)
  }

  /** Without an occurrence, the pattern is not a prefix and does not occur in the tail. */
  lemma NoOccurrenceTail(p: string, s: string)
    requires p != [] && s != [] && !Occurs(p, s)
    ensures !(p <= s) && !Occurs(p, s[1..])
  {
    assert !OccursAt(p, s, 0);
    if |p| <= |s| {
      assert s[0..|p|] == s[..|p|];
    }
    forall i | 0 <= i && i + |p| <= |s| - 1 ensures !OccursAt(p, s[1..], i) {
      assert s[1..][i..i + |p|] == s[i + 1..i + 1 + |p|];
      assert !OccursAt(p, s, i + 1);
    }
  }

  /** A pattern occurs in neither part, and cannot straddle them when its first character is
      missing from the first part. */
  lemma NoOccurrenceConcat(p: string, a: string, b: string)
    requires p != [] && p[0] !in a && !Occurs(p, b)
    ensures !Occurs(p, a + b)
  {
    var s := a + b;
    forall i | 0 <= i && i + |p| <= |s| ensures !OccursAt(p, s, i) {
      if i < |a| {
        assert s[i..i + |p|][0] == a[i];
      } else {
        assert s[i..i + |p|] == b[i - |a|..i - |a| + |p|];
        assert !OccursAt(p, b, i - |a|);
      }
    }
  }

  /** One character put in front creates no occurrence when the pattern is not a prefix of the
      result. */
  lemma NoOccurrenceCons(p: string, c: char, t: string)
    requires p != [] && !Occurs(p, t) && !(p <= [c] + t)
    ensures !Occurs(p, [c] + t)
  {
    var s := [c] + t;
    forall i | 0 <= i && i + |p| <= |s| ensures !OccursAt(p, s, i) {
      if i == 0 {
        assert |p| <= |s| && s[0..|p|] == s[..|p|];
      } else {
        assert s[i..i + |p|] == t[i - 1..i - 1 + |p|];
        assert !OccursAt(p, t, i - 1);
      }
    }
  }

  /** A string in which the pattern does not occur is left unchanged. */
  lemma {:induction false} ReplaceAllNoOccurrence(s: string, p: string, r: string)
    requires p != [] && !Occurs(p, s)
    ensures ReplaceAll(s, p, r) == s
    decreases |s|
  {
    if s != [] {
      NoOccurrenceTail(p, s);
      ReplaceAllNoOccurrence(s[1..], p, r);
      assert s == [s[0]] + s[1..];
    }
  }

  /** An occurrence at the front, and none after it: only the front is replaced. */
  lemma ReplaceAllLeading(t: string, p: string, r: string)
    requires p != [] && !Occurs(p, t)
    ensures ReplaceAll(p + t, p, r) == r + t
  {
    ReplaceAllMatch(t, p, r);
    ReplaceAllNoOccurrence(t, p, r);
  }

  /** A pattern cannot occur in a string that lacks one of its characters. */
  lemma AbsentChar(p: string, j: int, s: string)
    requires 0 <= j < |p| && p[j] !in s
    ensures !Occurs(p, s)
  {
    forall i | 0 <= i && i + |p| <= |s| ensures !OccursAt(p, s, i) {
      assert s[i..i + |p|][j] == s[i + j];
    }
  }

  /** A prefix without the pattern's first character is copied; the scan resumes after it. */
  lemma {:induction false} ReplaceAllSkip(a: string, t: string, p: string, r: string)
    requires p != [] && p[0] !in a
    ensures ReplaceAll(a + t, p, r) == a + ReplaceAll(t, p, r)
    decreases |a|
  {
    if a != [] {
      var s := a + t;
      assert s[0] == a[0] && s[0] != p[0];
      assert !(p <= s);
      assert s[1..] == a[1..] + t;
      calc {
        ReplaceAll(s, p, r);
        [s[0]] + ReplaceAll(s[1..], p, r);
        { ReplaceAllSkip(a[1..], t, p, r); }
        [a[0]] + (a[1..] + ReplaceAll(t, p, r));
        { assert a == [a[0]] + a[1..]; }
        a + ReplaceAll(t, p, r);
      }
    } else {
      assert a + t == t;
    }
  }

  /** An occurrence at the front is replaced; the scan resumes after it. */
  lemma ReplaceAllMatch(t: string, p: string, r: string)
    requires p != []
    ensures ReplaceAll(p + t, p, r) == r + ReplaceAll(t, p, r)
  {
    assert p <= p + t;
    assert (p + t)[|p|..] == t;
  }

  /** `r` has no `$$`, `$&`, `` $` `` or `$'`: every dollar sign in it stands for itself. */
  ghost predicate NoSpecialDollar(r: string) {
    forall i :: 0 <= i < |r| - 1 && r[i] == '$' ==> r[i + 1] !in "$&`'"
  }

  /** Dropping the first character keeps a replacement free of special patterns; a leading
      dollar sign of such a replacement does not start one. */
  lemma NoSpecialDollarTail(r: string)
    requires r != []
    ensures NoSpecialDollar(r) && r[0] == '$' && |r| >= 2 ==> r[1] !in "$&`'"
    ensures NoSpecialDollar(r) ==> NoSpecialDollar(r[1..])
  {
    if NoSpecialDollar(r) {
      forall i | 0 <= i < |r[1..]| - 1 && r[1..][i] == '$' ensures r[1..][i + 1] !in "$&`'" {
        assert r[1..][i] == r[i + 1] && r[1..][i + 1] == r[i + 2];
      }
    }
  }

  /** ECMAScript GetSubstitution for a pattern without capture groups: in the replacement,
      `$$` is a dollar sign, `$&` the matched text, `` $` `` the text before the match and `$'`
      the text after it; any other `$` is kept as it is. A replacement without those patterns
      expands to itself. */
  function Expand(r: string, matched: string, before: string, after: string): (e: string)
    ensures NoSpecialDollar(r) ==> e == r
    decreases |r|
  {
    if r == [] then []
    else
      NoSpecialDollarTail(r);
      if r[0] == '$' && |r| >= 2 && r[1] == '$' then "$" + Expand(r[2..], matched, before, after)
      else if r[0] == '$' && |r| >= 2 && r[1] == '&' then matched + Expand(r[2..], matched, before, after)
      else if r[0] == '$' && |r| >= 2 && r[1] == '`' then before + Expand(r[2..], matched, before, after)
      else if r[0] == '$' && |r| >= 2 && r[1] == '\'' then after + Expand(r[2..], matched, before, after)
      else
        assert r == [r[0]] + r[1..];
        [r[0]] + Expand(r[1..], matched, before, after)
  }

  /** `s.replace(/p/g, r)` scanned from position `i`: a literal regular expression, global
      flag, with the replacement string expanded against the whole of `s`. */
  function ReplaceAllFrom(s: string, i: nat, p: string, r: string): (res: string)
    requires p != [] && i <= |s|
    ensures p[0] !in s[i..] ==> res == s[i..]
    ensures NoSpecialDollar(r) ==> res == ReplaceAll(s[i..], p, r)
    decreases |s| - i
  {
    if i == |s| then []
    else
      assert s[i..] == [s[i]] + s[i + 1..] && s[i..][1..] == s[i + 1..];
      if p <= s[i..] then
        assert s[i..][|p|..] == s[i + |p|..];
        Expand(r, p, s[..i], s[i + |p|..]) + ReplaceAllFrom(s, i + |p|, p, r)
      else [s[i]] + ReplaceAllFrom(s, i + 1, p, r)
  }

  /** `s.replace(/p/g, r)` as JavaScript evaluates it. A string without the pattern's first
      character comes back as it is, whatever the replacement holds; when the replacement holds
      no special `$` pattern, this is literal replacement. */
  function ReplaceGlobal(s: string, p: string, r: string): (res: string)
    requires p != []
    ensures p[0] !in s ==> res == s
    ensures NoSpecialDollar(r) ==> res == ReplaceAll(s, p, r)
  {
    assert s[0..] == s;
    ReplaceAllFrom(s, 0, p, r)
  }
}
