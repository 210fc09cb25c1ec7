/**
 * A hand-written matcher for the pattern both scripts apply with `re.match`
 * to a file name without its extension:
 *
 *     ^(.+?)\s+-\s+(.+?)(?:\s*\(|\s*\[|$)
 *
 * `.` matches anything but a newline, `\s` is `PyStr.IsSpace`, and `$` matches
 * at the end or just before a final newline. The functions search in the
 * order Python's backtracking engine does: group 1 as short as possible, the
 * second `\s+` as long as possible, then group 2 as short as possible.
 * `Accepts` is the declarative reading of the pattern and `FirstMatch` the
 * split the engine reports.
 */
module SongPattern {
  import opened Wrappers
  import opened PyStr

  /** End of the longest whitespace run that starts at `i`. */
  function SkipSpace(s: string, i: nat): (j: nat)
    requires i <= |s|
    ensures i <= j <= |s|
    ensures forall k :: i <= k < j ==> IsSpace(s[k])
    ensures j == |s| || !IsSpace(s[j])
    decreases |s| - i
  {
    if i < |s| && IsSpace(s[i]) then SkipSpace(s, i + 1) else i
  }

  predicate NoNewline(s: string, lo: nat, hi: nat)
    requires lo <= hi <= |s|
  {
    forall k :: lo <= k < hi ==> s[k] != '\n'
  }

  predicate AllSpace(s: string, lo: nat, hi: nat)
    requires lo <= hi <= |s|
  {
    forall k :: lo <= k < hi ==> IsSpace(s[k])
  }

  /** `$` (no MULTILINE flag) at position `n`. */
  predicate AtEnd(s: string, n: nat)
    requires n <= |s|
  {
    n == |s| || (n + 1 == |s| && s[n] == '\n')
  }

  /** `(?:\s*\(|\s*\[|$)` matches at position `n`. */
  predicate TailAt(s: string, n: nat)
    requires n <= |s|
  {
    var e := SkipSpace(s, n);
    (e < |s| && (s[e] == '(' || s[e] == '[')) || AtEnd(s, n)
  }

  /** Group 2 may be `s[m..n]`: non-empty, no newline, and the tail matches after it. */
  ghost predicate EndsGroup2(s: string, m: nat, n: nat) {
    m < n <= |s| && NoNewline(s, m, n) && TailAt(s, n)
  }

  /**
   * The pattern matches with group 1 = `s[..i]` and group 2 = `s[m..n]`:
   * a whitespace run and a dash follow group 1, whitespace fills `s[d+1..m]`.
   */
  ghost predicate Accepts(s: string, i: nat, m: nat, n: nat) {
    0 < i <= |s| && NoNewline(s, 0, i)
    && var d := SkipSpace(s, i);
    i < d && d + 1 < m <= |s| && s[d] == '-' && AllSpace(s, d + 1, m) && EndsGroup2(s, m, n)
  }

  /** The split the backtracking engine finds first: lexicographically least `i`, then greatest `m`, then least `n`. */
  ghost predicate FirstMatch(s: string, i: nat, m: nat, n: nat) {
    && Accepts(s, i, m, n)
    && (forall i': nat, m': nat, n': nat :: i' < i ==> !Accepts(s, i', m', n'))
    && (forall m': nat, n': nat :: m < m' ==> !Accepts(s, i, m', n'))
    && (forall n': nat :: n' < n ==> !Accepts(s, i, m, n'))
  }

  /** Lazy group 2: the first end at or after `n` where the tail matches, scanning no newline. */
  function LazyEnd(s: string, n: nat): (r: Option<nat>)
    requires 0 < n <= |s|
    ensures r.Some? ==> n <= r.value <= |s| && NoNewline(s, n, r.value) && TailAt(s, r.value)
    ensures r.Some? ==> forall k :: n <= k < r.value ==> !TailAt(s, k)
    ensures r.None? ==> forall k :: n <= k <= |s| && NoNewline(s, n, k) ==> !TailAt(s, k)
    decreases |s| - n
  {
    if TailAt(s, n) then Some(n)
    else if n < |s| && s[n] != '\n' then LazyEnd(s, n + 1)
    else None
  }

  /** Group 2 starting at `m`. */
  function Group2From(s: string, m: nat): (r: Option<nat>)
    requires m <= |s|
    ensures r.Some? ==> EndsGroup2(s, m, r.value)
    ensures r.Some? ==> forall k: nat :: k < r.value ==> !EndsGroup2(s, m, k)
    ensures r.None? ==> forall k: nat :: !EndsGroup2(s, m, k)
  {
    if m < |s| && s[m] != '\n' then
      var r := LazyEnd(s, m + 1);
      assert forall k :: m + 1 <= k <= |s| && NoNewline(s, m, k) ==> NoNewline(s, m + 1, k);
      r
    else
      None
  }

  /** The greedy second `\s+` after the dash at `d`, giving back one character at a time from `m`. */
  function BackOff(s: string, d: nat, m: nat): (r: Option<(nat, nat)>)
    requires d + 2 <= m <= |s|
    ensures r.Some? ==> d + 2 <= r.value.0 <= m && EndsGroup2(s, r.value.0, r.value.1)
    ensures r.Some? ==> forall k: nat :: k < r.value.1 ==> !EndsGroup2(s, r.value.0, k)
    ensures r.Some? ==> forall m': nat, k: nat :: r.value.0 < m' <= m ==> !EndsGroup2(s, m', k)
    ensures r.None? ==> forall m': nat, k: nat :: d + 2 <= m' <= m ==> !EndsGroup2(s, m', k)
    decreases m
  {
    var g := Group2From(s, m);
    if g.Some? then Some((m, g.value))
    else if m > d + 2 then BackOff(s, d, m - 1)
    else None
  }

  /** Everything after group 1 = `s[..i]`. */
  function AfterGroup1(s: string, i: nat): (r: Option<(nat, nat)>)
    requires 0 < i <= |s| && NoNewline(s, 0, i)
    ensures r.Some? ==> Accepts(s, i, r.value.0, r.value.1)
    ensures r.Some? ==> forall m': nat, n': nat :: r.value.0 < m' ==> !Accepts(s, i, m', n')
    ensures r.Some? ==> forall n': nat :: n' < r.value.1 ==> !Accepts(s, i, r.value.0, n')
    ensures r.None? ==> forall m': nat, n': nat :: !Accepts(s, i, m', n')
  {
    var d := SkipSpace(s, i);
    if i < d && d < |s| && s[d] == '-' then
      var e := SkipSpace(s, d + 1);
      if d + 1 < e then
        var r := BackOff(s, d, e);
        SpaceRunBound(s, d + 1, e);
        r
      else
        SpaceRunBound(s, d + 1, e);
        None
    else
      None
  }

  /** A whitespace run from `lo` cannot reach past the end of the longest one. */
  lemma SpaceRunBound(s: string, lo: nat, e: nat)
    requires lo <= |s| && e == SkipSpace(s, lo)
    ensures forall m :: lo <= m <= |s| && AllSpace(s, lo, m) ==> m <= e
  {
    forall m | lo <= m <= |s| && AllSpace(s, lo, m)
      ensures m <= e
    {
      assert e < |s| ==> !IsSpace(s[e]);
    }
  }

  /** Lazy group 1: try `s[..i]`, then one character longer. */
  function MatchFrom(s: string, i: nat): (r: Option<(nat, nat, nat)>)
    requires 0 < i <= |s| && NoNewline(s, 0, i)
    requires forall i': nat, m': nat, n': nat :: i' < i ==> !Accepts(s, i', m', n')
    ensures r.Some? ==> FirstMatch(s, r.value.0, r.value.1, r.value.2)
    ensures r.None? ==> forall i': nat, m': nat, n': nat :: i <= i' ==> !Accepts(s, i', m', n')
    decreases |s| - i
  {
    var a := AfterGroup1(s, i);
    if a.Some? then
      Some((i, a.value.0, a.value.1))
    else if i < |s| && s[i] != '\n' then
      MatchFrom(s, i + 1)
    else
      None
  }

  /** `re.match` of the pattern: the first match's (end of group 1, start of group 2, end of group 2). */
  function MatchIndices(s: string): (r: Option<(nat, nat, nat)>)
    ensures r.Some? ==> FirstMatch(s, r.value.0, r.value.1, r.value.2)
    ensures r.None? ==> forall i: nat, m: nat, n: nat :: !Accepts(s, i, m, n)
  {
    if 0 < |s| && s[0] != '\n' then MatchFrom(s, 1) else None
  }

  /**
   * `s` reads `A - B (...` with group 1 = `s[..i]` and group 2 = `s[m..n]`:
   * `A` has no dash and ends in a non-space, `B` starts and ends in a
   * non-space and holds no bracket, neither holds a newline.
   */
  predicate Shaped(s: string, i: nat, m: nat, n: nat) {
    && 0 < i && m == i + 3 && m < n && n + 2 <= |s|
    && (forall k :: 0 <= k < i ==> s[k] != '\n' && s[k] != '-')
    && !IsSpace(s[i - 1])
    && s[i] == ' ' && s[i + 1] == '-' && s[i + 2] == ' '
    && (forall k :: m <= k < n ==> s[k] != '\n' && s[k] != '(' && s[k] != '[')
    && !IsSpace(s[m]) && !IsSpace(s[n - 1])
    && s[n] == ' ' && s[n + 1] == '('
  }

  lemma ShapedAccepts(s: string, i: nat, m: nat, n: nat)
    requires Shaped(s, i, m, n)
    ensures Accepts(s, i, m, n)
  {
    assert SkipSpace(s, i) == i + 1;
    assert SkipSpace(s, n) == n + 1;
  }

  /** No shorter group 1 works: the text before `i` has no dash after a space run. */
  lemma ShapedNoEarlierGroup1(s: string, i: nat, m: nat, n: nat)
    requires Shaped(s, i, m, n)
    ensures forall i': nat, m': nat, n': nat :: i' < i ==> !Accepts(s, i', m', n')
  {
    forall i': nat, m': nat, n': nat | i' < i
      ensures !Accepts(s, i', m', n')
    {
      var d := SkipSpace(s, i');
      assert i' < d ==> d <= i - 1;
    }
  }

  /** The second space run cannot swallow the first character of group 2. */
  lemma ShapedNoLaterGroup2Start(s: string, i: nat, m: nat, n: nat)
    requires Shaped(s, i, m, n)
    ensures forall m': nat, n': nat :: m < m' ==> !Accepts(s, i, m', n')
  {
    assert SkipSpace(s, i) == i + 1;
  }

  /** No shorter group 2 works: no bracket and no end of text before `n`. */
  lemma ShapedNoEarlierGroup2End(s: string, i: nat, m: nat, n: nat)
    requires Shaped(s, i, m, n)
    ensures forall n': nat :: n' < n ==> !Accepts(s, i, m, n')
  {
    forall n': nat | m < n' < n
      ensures !TailAt(s, n')
    {
      var e := SkipSpace(s, n');
      assert e <= n - 1;
    }
  }

  /** On a shaped text the engine reports exactly the intended split. */
  lemma ShapedMatch(s: string, i: nat, m: nat, n: nat)
    requires Shaped(s, i, m, n)
    ensures MatchIndices(s) == Some((i, m, n))
  {
    ShapedAccepts(s, i, m, n);
    ShapedNoEarlierGroup1(s, i, m, n);
    ShapedNoLaterGroup2Start(s, i, m, n);
    ShapedNoEarlierGroup2End(s, i, m, n);
    MatchIndicesUnique(s, i, m, n);
  }

  /** The first match is unique, so `MatchIndices` returns exactly it. */
  lemma MatchIndicesUnique(s: string, i: nat, m: nat, n: nat)
    requires FirstMatch(s, i, m, n)
    ensures MatchIndices(s) == Some((i, m, n))
  {
    var r := MatchIndices(s);
    assert r.Some?;
    var (i2, m2, n2) := r.value;
    assert i2 == i;
    assert m2 == m;
  }
}
