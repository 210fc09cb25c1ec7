/** Small Option type used for Python's "value or None" results. */
module Wrappers {
  datatype Option<+T> = None | Some(value: T)
}

/**
 * The Python `str` built-ins the scripts rely on, over `seq<char>`:
 * whitespace as `str.isspace()` defines it, `strip`, ASCII `lower`,
 * single-character `replace` and `split`, and `os.path.splitext` on a bare
 * file name.
 */
module PyStr {

  /** `str.isspace()`; the same set is what `\s` matches in a str pattern and what `strip()` removes. */
  predicate IsSpace(c: char) {
    ('\t' <= c <= '\r') || ('\U{1C}' <= c <= ' ') || c == '\U{85}' || c == '\U{A0}'
    || c == '\U{1680}' || ('\U{2000}' <= c <= '\U{200A}') || c == '\U{2028}' || c == '\U{2029}'
    || c == '\U{202F}' || c == '\U{205F}' || c == '\U{3000}'
  }

  /** Drops the leading characters that `drop` selects. */
  function TrimLeft(s: string, drop: char -> bool): (r: string)
    ensures |r| <= |s|
    ensures r == [] || !drop(r[0])
    ensures forall k :: 0 <= k < |s| - |r| ==> drop(s[k])
    decreases |s|
  {
    if |s| > 0 && drop(s[0]) then TrimLeft(s[1..], drop) else s
  }

  /** Drops the trailing characters that `drop` selects. */
  function TrimRight(s: string, drop: char -> bool): (r: string)
    ensures |r| <= |s|
    ensures r == [] || !drop(r[|r| - 1])
    ensures forall k :: |r| <= k < |s| ==> drop(s[k])
    decreases |s|
  {
    if |s| > 0 && drop(s[|s| - 1]) then TrimRight(s[..|s| - 1], drop) else s
  }

  /** What `TrimLeft` keeps is a suffix of its input. */
  lemma {:induction false} TrimLeftSuffix(s: string, drop: char -> bool)
    ensures TrimLeft(s, drop) == s[|s| - |TrimLeft(s, drop)|..]
    decreases |s|
  {
    if |s| > 0 && drop(s[0]) {
      TrimLeftSuffix(s[1..], drop);
    }
  }

  /** What `TrimRight` keeps is a prefix of its input. */
  lemma {:induction false} TrimRightPrefix(s: string, drop: char -> bool)
    ensures TrimRight(s, drop) == s[..|TrimRight(s, drop)|]
    decreases |s|
  {
    if |s| > 0 && drop(s[|s| - 1]) {
      TrimRightPrefix(s[..|s| - 1], drop);
    }
  }

  /** `s.strip(chars)`, with the character set given as a predicate. */
  function StripBy(s: string, drop: char -> bool): (r: string)
    ensures r == [] || (!drop(r[0]) && !drop(r[|r| - 1]))
  {
    var l := TrimLeft(s, drop);
    TrimRightPrefix(l, drop);
    TrimRight(l, drop)
  }

  /** Stripping only removes characters. */
  lemma StripBySubset(s: string, drop: char -> bool)
    ensures forall c :: c in StripBy(s, drop) ==> c in s
  {
    var l := TrimLeft(s, drop);
    TrimLeftSuffix(s, drop);
    TrimRightPrefix(l, drop);
    assert forall c :: c in StripBy(s, drop) ==> c in l;
  }

  /** `s.strip()`. */
  function Strip(s: string): string {
    StripBy(s, IsSpace)
  }

  /** A string that neither starts nor ends with a character `drop` selects is its own strip. */
  lemma StripByKeeps(s: string, drop: char -> bool)
    requires s == [] || (!drop(s[0]) && !drop(s[|s| - 1]))
    ensures StripBy(s, drop) == s
  {
    assert TrimLeft(s, drop) == s;
  }

  /** Stripping twice is stripping once. */
  lemma StripByIdempotent(s: string, drop: char -> bool)
    ensures StripBy(StripBy(s, drop), drop) == StripBy(s, drop)
  {
    StripByKeeps(StripBy(s, drop), drop);
  }

  /** A prefix of dropped characters makes no difference to the left trim. */
  lemma {:induction false} TrimLeftDropped(p: string, x: string, drop: char -> bool)
    requires forall k :: 0 <= k < |p| ==> drop(p[k])
    ensures TrimLeft(p + x, drop) == TrimLeft(x, drop)
  {
    if p == [] {
      assert p + x == x;
    } else {
      assert (p + x)[0] == p[0];
      assert (p + x)[1..] == p[1..] + x;
      TrimLeftDropped(p[1..], x, drop);
    }
  }

  /** The left trim of `x + q` stops inside `x` unless `x` is dropped entirely. */
  lemma {:induction false} TrimLeftAppend(x: string, q: string, drop: char -> bool)
    ensures TrimLeft(x + q, drop) == if TrimLeft(x, drop) == [] then TrimLeft(q, drop) else TrimLeft(x, drop) + q
  {
    if x == [] {
      assert x + q == q;
    } else {
      assert (x + q)[0] == x[0];
      assert (x + q)[1..] == x[1..] + q;
      TrimLeftAppend(x[1..], q, drop);
    }
  }

  /** A suffix of dropped characters makes no difference to the right trim. */
  lemma {:induction false} TrimRightDropped(x: string, q: string, drop: char -> bool)
    requires forall k :: 0 <= k < |q| ==> drop(q[k])
    ensures TrimRight(x + q, drop) == TrimRight(x, drop)
    decreases |q|
  {
    if q != [] {
      assert (x + q)[..|x + q| - 1] == x + q[..|q| - 1];
      TrimRightDropped(x, q[..|q| - 1], drop);
    } else {
      assert x + q == x;
    }
  }

  /** Whitespace around a string does not change its strip. */
  lemma StripPadding(p: string, s: string, q: string)
    requires forall k :: 0 <= k < |p| ==> IsSpace(p[k])
    requires forall k :: 0 <= k < |q| ==> IsSpace(q[k])
    ensures Strip(p + s + q) == Strip(s)
  {
    assert p + s + q == p + (s + q);
    TrimLeftDropped(p, s + q, IsSpace);
    TrimLeftAppend(s, q, IsSpace);
    if TrimLeft(s, IsSpace) == [] {
      TrimLeftDropped(q, [], IsSpace);
      assert q + [] == q;
    } else {
      TrimRightDropped(TrimLeft(s, IsSpace), q, IsSpace);
    }
  }

  /** ASCII-only `str.lower()` of one character. */
  function LowerChar(c: char): char {
    if 'A' <= c <= 'Z' then (c as int + 32) as char else c
  }

  /** ASCII-only `str.lower()`. */
  function Lower(s: string): (r: string)
    ensures |r| == |s|
  {
    seq(|s|, k requires 0 <= k < |s| => LowerChar(s[k]))
  }

  /** Lower-casing never turns a character into whitespace or back. */
  lemma LowerCharSpace(c: char)
    ensures IsSpace(LowerChar(c)) == IsSpace(c)
  {
  }

  /** `lower()` is idempotent. */
  lemma LowerIdempotent(s: string)
    ensures Lower(Lower(s)) == Lower(s)
  {
  }

  /** `s.strip().lower() == s.lower().strip()`: the fold does not touch whitespace. */
  lemma {:induction false} StripLowerCommute(s: string)
    ensures Strip(Lower(s)) == Lower(Strip(s))
  {
    var l := TrimLeft(s, IsSpace);
    var r := TrimRight(l, IsSpace);
    var n := |s| - |l|;
    forall k | 0 <= k < |s|
      ensures IsSpace(Lower(s)[k]) == IsSpace(s[k])
    {
      LowerCharSpace(s[k]);
    }
    TrimLeftLower(s);
    assert TrimLeft(Lower(s), IsSpace) == Lower(l);
    TrimRightLower(l);
  }

  lemma {:induction false} TrimLeftLower(s: string)
    ensures TrimLeft(Lower(s), IsSpace) == Lower(TrimLeft(s, IsSpace))
    decreases |s|
  {
    if |s| > 0 {
      LowerCharSpace(s[0]);
      assert Lower(s)[1..] == Lower(s[1..]);
      if IsSpace(s[0]) {
        TrimLeftLower(s[1..]);
      }
    }
  }

  lemma {:induction false} TrimRightLower(s: string)
    ensures TrimRight(Lower(s), IsSpace) == Lower(TrimRight(s, IsSpace))
    decreases |s|
  {
    if |s| > 0 {
      LowerCharSpace(s[|s| - 1]);
      assert Lower(s)[..|s| - 1] == Lower(s[..|s| - 1]);
      if IsSpace(s[|s| - 1]) {
        TrimRightLower(s[..|s| - 1]);
      }
    }
  }

  /** `s.replace(from, to)` for single characters. */
  function Replace(s: string, from: char, to: char): (r: string)
    ensures |r| == |s|
  {
    seq(|s|, k requires 0 <= k < |s| => if s[k] == from then to else s[k])
  }

  /** Position of the first occurrence of `c`. */
  function IndexOf(s: string, c: char): (r: nat)
    requires c in s
    ensures r < |s| && s[r] == c && c !in s[..r]
  {
    if s[0] == c then 0 else
      assert c in s[1..] by { var k :| 0 <= k < |s| && s[k] == c; assert s[1..][k - 1] == c; }
      1 + IndexOf(s[1..], c)
  }

  /** Position of the last occurrence of `c`. */
  function LastIndexOf(s: string, c: char): (r: nat)
    requires c in s
    ensures r < |s| && s[r] == c && c !in s[r + 1..]
  {
    if s[|s| - 1] == c then |s| - 1 else
      assert c in s[..|s| - 1] by { var k :| 0 <= k < |s| && s[k] == c; assert s[..|s| - 1][k] == c; }
      LastIndexOf(s[..|s| - 1], c)
  }

  /** `s.split(sep)` for a single-character separator, one character at a time. */
  function Split(s: string, sep: char): (parts: seq<string>)
    ensures |parts| >= 1
    decreases |s|
  {
    if s == [] then [[]]
    else
      var rest := Split(s[1..], sep);
      if s[0] == sep then [[]] + rest else [[s[0]] + rest[0]] + rest[1..]
  }

  /** `t` is the text before the first `c` of `s` (all of `s` when there is none). */
  ghost predicate IsFirstPiece(s: string, c: char, t: string) {
    |t| <= |s| && t == s[..|t|] && c !in t && (|t| == |s| || s[|t|] == c)
  }

  /** `t` is the text after the last `c` of `s` (all of `s` when there is none). */
  ghost predicate IsLastPiece(s: string, c: char, t: string) {
    |t| <= |s| && t == s[|s| - |t|..] && c !in t && (|t| == |s| || s[|s| - |t| - 1] == c)
  }

  /** `s.split(c)[0]` is the text before the first `c`. */
  lemma {:induction false} SplitFirst(s: string, c: char)
    ensures IsFirstPiece(s, c, Split(s, c)[0])
    decreases |s|
  {
    if s != [] && s[0] != c {
      var rest := Split(s[1..], c);
      SplitFirst(s[1..], c);
      var t := [s[0]] + rest[0];
      assert Split(s, c)[0] == t;
      assert t == s[..|t|] by {
        assert rest[0] == s[1..][..|rest[0]|] == s[1..|t|];
      }
      if |t| < |s| {
        assert s[|t|] == s[1..][|rest[0]|];
      }
    }
  }

  /** `s.split(c)[-1]` is the text after the last `c`. */
  lemma SplitLast(s: string, c: char)
    ensures IsLastPiece(s, c, Split(s, c)[|Split(s, c)| - 1])
  {
    SplitLastPiece(s, c);
  }

  /**
   * The last piece is a suffix after a separator or the whole text; it is
   * the whole text when there is only one piece, and shorter otherwise.
   */
  ghost predicate LastPieceFacts(s: string, c: char, parts: seq<string>)
    requires |parts| >= 1
  {
    IsLastPiece(s, c, parts[|parts| - 1]) &&
    (|parts| == 1 ==> parts[0] == s) && (|parts| > 1 ==> |parts[|parts| - 1]| < |s|)
  }

  lemma {:induction false} SplitLastPiece(s: string, c: char)
    ensures LastPieceFacts(s, c, Split(s, c))
    decreases |s|
  {
    if s == [] {
      assert Split(s, c) == [[]];
    } else {
      var rest := Split(s[1..], c);
      SplitLastPiece(s[1..], c);
      if s[0] == c {
        LastAfterSeparator(s, c, rest);
      } else {
        LastAfterChar(s, c, rest);
      }
    }
  }

  lemma LastAfterSeparator(s: string, c: char, rest: seq<string>)
    requires s != [] && s[0] == c && rest == Split(s[1..], c) && LastPieceFacts(s[1..], c, rest)
    ensures LastPieceFacts(s, c, Split(s, c))
  {
    assert Split(s, c) == [[]] + rest;
    LastPieceCons(s, c, 0, rest[|rest| - 1]);
  }

  lemma LastAfterChar(s: string, c: char, rest: seq<string>)
    requires s != [] && s[0] != c && rest == Split(s[1..], c) && LastPieceFacts(s[1..], c, rest)
    ensures LastPieceFacts(s, c, Split(s, c))
  {
    assert Split(s, c) == [[s[0]] + rest[0]] + rest[1..];
    if |rest| > 1 {
      LastPieceTail(s, c, rest[|rest| - 1]);
    } else {
      assert [s[0]] + s[1..] == s;
    }
  }

  /** The last piece after a separator at `i` is the last piece of the whole. */
  lemma LastPieceCons(s: string, c: char, i: nat, t: string)
    requires i < |s| && s[i] == c && IsLastPiece(s[i + 1..], c, t)
    ensures IsLastPiece(s, c, t)
  {
    var rest := s[i + 1..];
    assert rest[|rest| - |t|..] == s[|s| - |t|..];
    if |t| == |rest| {
      assert |s| - |t| - 1 == i;
    } else {
      assert s[|s| - |t| - 1] == rest[|rest| - |t| - 1];
    }
  }

  /** A last piece of the tail that stops at a separator is the last piece of the whole. */
  lemma LastPieceTail(s: string, c: char, t: string)
    requires s != [] && IsLastPiece(s[1..], c, t) && |t| < |s[1..]|
    ensures IsLastPiece(s, c, t)
  {
    var rest := s[1..];
    assert rest[|rest| - |t|..] == s[|s| - |t|..];
    assert s[|s| - |t| - 1] == rest[|rest| - |t| - 1];
  }

  /** Every character is a dot. */
  predicate AllDots(s: string) {
    forall k :: 0 <= k < |s| ==> s[k] == '.'
  }

  /**
   * `os.path.splitext` on a name without directory separators: split before
   * the last dot unless everything before that dot is dots too.
   */
  function SplitExt(p: string): (r: (string, string))
    ensures r.0 + r.1 == p
  {
    if '.' in p then
      var d := LastIndexOf(p, '.');
      if AllDots(p[..d]) then (p, "") else (p[..d], p[d..])
    else
      (p, "")
  }

  /** A dot followed by dot-free text is where `splitext` cuts, provided a non-dot character precedes it. */
  lemma SplitExtAt(root: string, ext: string)
    requires '.' !in ext
    requires exists k :: 0 <= k < |root| && root[k] != '.'
    ensures SplitExt(root + "." + ext) == (root, "." + ext)
  {
    var p := root + "." + ext;
    assert p[|root|] == '.';
    var d := LastIndexOf(p, '.');
    assert forall j :: d < j < |p| ==> p[j] != '.' by {
      forall j | d < j < |p| ensures p[j] != '.' { assert p[j] == p[d + 1..][j - d - 1]; }
    }
    assert forall j :: |root| < j < |p| ==> p[j] != '.' by {
      forall j | |root| < j < |p| ensures p[j] != '.' { assert p[j] == ext[j - |root| - 1]; }
    }
    assert d == |root|;
    assert p[..d] == root;
    assert p[d..] == "." + ext;
    var k :| 0 <= k < |root| && root[k] != '.';
    assert !AllDots(p[..d]) by { assert p[..d][k] != '.'; }
  }
}
