/**
 * The keep-or-skip loop both scripts run over a song list: append the songs
 * the duplicate test rejects, count the others. `KeepNew` and `CountDup` are
 * what the loop computes; both are defined from the end of the list so that
 * a loop over a growing prefix can be checked against them step by step.
 */
module StableFilter {

  /** The elements `dup` rejects, in their original order. */
  function KeepNew<T>(xs: seq<T>, dup: T -> bool): (r: seq<T>)
    ensures |r| <= |xs|
    ensures forall x :: x in r ==> x in xs && !dup(x)
  {
    if xs == [] then []
    else
      var last := xs[|xs| - 1];
      KeepNew(xs[..|xs| - 1], dup) + (if dup(last) then [] else [last])
  }

  /** How many elements `dup` accepts. */
  function CountDup<T>(xs: seq<T>, dup: T -> bool): (r: nat)
    ensures r <= |xs|
  {
    if xs == [] then 0
    else CountDup(xs[..|xs| - 1], dup) + (if dup(xs[|xs| - 1]) then 1 else 0)
  }

  /** The loop: `kept` grows by the new elements, `skipped` by one for each duplicate. */
  method FilterBy<T>(xs: seq<T>, dup: T -> bool) returns (kept: seq<T>, skipped: nat)
    ensures kept == KeepNew(xs, dup)
    ensures skipped == CountDup(xs, dup)
  {
    kept, skipped := [], 0;
    var i := 0;
    while i < |xs|
      invariant 0 <= i <= |xs|
      invariant kept == KeepNew(xs[..i], dup)
      invariant skipped == CountDup(xs[..i], dup)
    {
      assert xs[..i + 1][..i] == xs[..i];
      if dup(xs[i]) {
        skipped := skipped + 1;
      } else {
        kept := kept + [xs[i]];
      }
      i := i + 1;
    }
    assert xs[..i] == xs;
  }

  /** Every element is either kept or counted. */
  lemma {:induction false} KeepNewCount<T>(xs: seq<T>, dup: T -> bool)
    ensures |KeepNew(xs, dup)| + CountDup(xs, dup) == |xs|
  {
    if xs != [] {
      KeepNewCount(xs[..|xs| - 1], dup);
    }
  }

  /** The filter works piece by piece, so it keeps the relative order of what it keeps. */
  lemma {:induction false} KeepNewConcat<T>(a: seq<T>, b: seq<T>, dup: T -> bool)
    ensures KeepNew(a + b, dup) == KeepNew(a, dup) + KeepNew(b, dup)
    ensures CountDup(a + b, dup) == CountDup(a, dup) + CountDup(b, dup)
    decreases |b|
  {
    if b == [] {
      assert a + b == a;
    } else {
      var b' := b[..|b| - 1];
      assert (a + b)[..|a + b| - 1] == a + b';
      assert (a + b)[|a + b| - 1] == b[|b| - 1];
      KeepNewConcat(a, b', dup);
    }
  }

  /** A single element is kept exactly when it is not a duplicate. */
  lemma KeepNewSingle<T>(x: T, dup: T -> bool)
    ensures KeepNew([x], dup) == (if dup(x) then [] else [x])
    ensures CountDup([x], dup) == (if dup(x) then 1 else 0)
  {
    assert [x][..0] == [];
  }

  /** Nothing new is lost. */
  lemma {:induction false} KeepNewComplete<T>(xs: seq<T>, dup: T -> bool)
    ensures forall k :: 0 <= k < |xs| && !dup(xs[k]) ==> xs[k] in KeepNew(xs, dup)
  {
    if xs != [] {
      var init := xs[..|xs| - 1];
      KeepNewComplete(init, dup);
      forall k | 0 <= k < |xs| && !dup(xs[k])
        ensures xs[k] in KeepNew(xs, dup)
      {
        if k < |xs| - 1 {
          assert xs[k] == init[k];
        }
      }
    }
  }

  /** A list with no duplicate passes unchanged, with a count of zero. */
  lemma {:induction false} KeepNewAllNew<T>(xs: seq<T>, dup: T -> bool)
    requires forall k :: 0 <= k < |xs| ==> !dup(xs[k])
    ensures KeepNew(xs, dup) == xs
    ensures CountDup(xs, dup) == 0
  {
    NoneCounted(xs, dup);
    KeepNewNoSkip(xs, dup);
  }

  /** With no duplicate in the list the count is zero. */
  lemma {:induction false} NoneCounted<T>(xs: seq<T>, dup: T -> bool)
    requires forall k :: 0 <= k < |xs| ==> !dup(xs[k])
    ensures CountDup(xs, dup) == 0
  {
    if xs != [] {
      var init := xs[..|xs| - 1];
      assert forall k :: 0 <= k < |init| ==> !dup(init[k]) by {
        assert forall k :: 0 <= k < |init| ==> init[k] == xs[k];
      }
      NoneCounted(init, dup);
      assert !dup(xs[|xs| - 1]);
    }
  }

  /** A skip count of zero means nothing was dropped. */
  lemma {:induction false} KeepNewNoSkip<T>(xs: seq<T>, dup: T -> bool)
    requires CountDup(xs, dup) == 0
    ensures KeepNew(xs, dup) == xs
  {
    if xs != [] {
      KeepNewNoSkip(xs[..|xs| - 1], dup);
      assert xs[..|xs| - 1] + [xs[|xs| - 1]] == xs;
    }
  }

  /** Filtering the kept list again keeps all of it. */
  lemma KeepNewIdempotent<T>(xs: seq<T>, dup: T -> bool)
    ensures KeepNew(KeepNew(xs, dup), dup) == KeepNew(xs, dup)
    ensures CountDup(KeepNew(xs, dup), dup) == 0
  {
    var r := KeepNew(xs, dup);
    assert forall k :: 0 <= k < |r| ==> r[k] in r;
    KeepNewAllNew(r, dup);
  }
}
