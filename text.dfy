/** String and sequence helpers that mirror the Python built-ins the source uses
    (`str.split`, `str.startswith`, `in`, `str.lstrip`, `str.strip`, negative
    indexing and slicing). */
module Text {
  import opened Wrappers

  /** Number of occurrences of `c` in `s`. */
  function Count<T(==)>(c: T, s: seq<T>): nat
  {
    if s == [] then 0 else Count(c, s[..|s| - 1]) + (if s[|s| - 1] == c then 1 else 0)
  }

  lemma {:induction false} CountZero<T>(c: T, s: seq<T>)
    ensures Count(c, s) == 0 <==> c !in s
  {
    if s != [] {
      CountZero(c, s[..|s| - 1]);
      assert s == s[..|s| - 1] + [s[|s| - 1]];
    }
  }

  /** Python's `s.split(c)` for a one-character separator. */
  function Split(s: string, c: char): (parts: seq<string>)
    ensures |parts| >= 1
    ensures forall i :: 0 <= i < |parts| ==> c !in parts[i]
  {
    if s == [] then [""]
    else
      var rest := Split(s[1..], c);
      if s[0] == c then [""] + rest
      else [[s[0]] + rest[0]] + rest[1..]
  }

  /** Python's `c.join(parts)` for a one-character separator. */
  function Join(parts: seq<string>, c: char): string
    requires |parts| >= 1
  {
    if |parts| == 1 then parts[0] else parts[0] + [c] + Join(parts[1..], c)
  }

  /** Splitting and re-joining on the same separator gives the string back. */
  lemma {:induction false} JoinSplit(s: string, c: char)
    ensures Join(Split(s, c), c) == s
  {
    if s != [] {
      JoinSplit(s[1..], c);
      var rest := Split(s[1..], c);
      if s[0] != c {
        if |rest| > 1 {
          assert ([[s[0]] + rest[0]] + rest[1..])[1..] == rest[1..];
        }
      }
    }
  }

  /** `str.split` yields one more piece than there are separators. */
  lemma {:induction false} SplitLength(s: string, c: char)
    ensures |Split(s, c)| == Count(c, s) + 1
  {
    if s != [] {
      SplitLength(s[1..], c);
      CountFront(c, s);
    }
  }

  lemma {:induction false} CountFront<T>(c: T, s: seq<T>)
    requires s != []
    ensures Count(c, s) == (if s[0] == c then 1 else 0) + Count(c, s[1..])
    decreases |s|
  {
    if |s| > 1 {
      CountFront(c, s[..|s| - 1]);
      assert s[..|s| - 1][1..] == s[1..][..|s[1..]| - 1];
      assert s[..|s| - 1][0] == s[0];
    }
  }

  /** A two-piece split is exactly a string with one separator around it. */
  lemma SplitTwo(s: string, c: char)
    requires |Split(s, c)| == 2
    ensures Split(s, c)[0] + [c] + Split(s, c)[1] == s
  {
    JoinSplit(s, c);
  }

  /** `t` is the text after the last `c` in `s` (all of `s` when there is none). */
  predicate IsLastSegment(s: string, c: char, t: string)
  {
    |t| <= |s| && t == s[|s| - |t|..] && c !in t && (|t| == |s| || s[|s| - |t| - 1] == c)
  }

  /** `t` is the text before the first `c` in `s` (all of `s` when there is none). */
  predicate IsFirstSegment(s: string, c: char, t: string)
  {
    |t| <= |s| && t == s[..|t|] && c !in t && (|t| == |s| || s[|t|] == c)
  }

  /** `s.split(c)[-1]` is the text after the last separator. */
  lemma {:induction false} LastSplitSegment(s: string, c: char)
    ensures IsLastSegment(s, c, Last(Split(s, c)))
  {
    if s != [] {
      LastSplitSegment(s[1..], c);
      var rest := Split(s[1..], c);
      if s[0] != c && |rest| == 1 {
        JoinSplit(s[1..], c);
        assert Last(Split(s, c)) == [s[0]] + rest[0] == s;
      } else if s[0] != c && |Last(rest)| == |s| - 1 {
        CountZero(c, s[1..]);
        SplitLength(s[1..], c);
      }
    }
  }

  /** `s.split(c)[0]` is the text before the first separator. */
  lemma {:induction false} FirstSplitSegment(s: string, c: char)
    ensures IsFirstSegment(s, c, Split(s, c)[0])
  {
    if s != [] {
      FirstSplitSegment(s[1..], c);
    }
  }

  /** There is only one text after the last separator. */
  lemma LastSegmentUnique(s: string, c: char, t: string, t': string)
    requires IsLastSegment(s, c, t) && IsLastSegment(s, c, t')
    ensures t == t'
  {
  }

  /** Python's `c.join(parts)`, also for an empty list. */
  function JoinAll(parts: seq<string>, c: char): string
  {
    if parts == [] then "" else Join(parts, c)
  }

  /** The element Python's `xs[-1]` returns. */
  function Last<T>(xs: seq<T>): T
    requires |xs| > 0
  {
    xs[|xs| - 1]
  }

  /** `sub in s` for strings: `sub` occurs as a contiguous piece of `s`. */
  predicate Contains(s: string, sub: string)
  {
    sub <= s || (s != [] && Contains(s[1..], sub))
  }

  /** `s.startswith(p)`. */
  predicate StartsWith(s: string, p: string)
  {
    p <= s
  }

  /** `s.lstrip(c)` for one character. */
  function LStrip(s: string, c: char): (r: string)
    ensures |r| <= |s| && r == s[|s| - |r|..]
    ensures r == [] || r[0] != c
    ensures forall i :: 0 <= i < |s| - |r| ==> s[i] == c
  {
    if s != [] && s[0] == c then LStrip(s[1..], c) else s
  }

  /** Python's `str.isspace` on one character: the ASCII controls tab to
      carriage return and file to unit separator, and the Unicode spaces. */
  predicate IsSpace(c: char)
  {
    ('\t' <= c <= '\r') || ('\U{001C}' <= c <= ' ') || c == '\U{0085}' || c == '\U{00A0}' ||
    c == '\U{1680}' || ('\U{2000}' <= c <= '\U{200A}') || c == '\U{2028}' || c == '\U{2029}' ||
    c == '\U{202F}' || c == '\U{205F}' || c == '\U{3000}'
  }

  function StripLeft(s: string): (r: string)
    ensures |r| <= |s| && r == s[|s| - |r|..]
    ensures r == [] || !IsSpace(r[0])
    ensures forall i :: 0 <= i < |s| - |r| ==> IsSpace(s[i])
  {
    if s != [] && IsSpace(s[0]) then StripLeft(s[1..]) else s
  }

  function StripRight(s: string): (r: string)
    ensures |r| <= |s| && r == s[..|r|]
    ensures r == [] || !IsSpace(r[|r| - 1])
    ensures forall i :: |r| <= i < |s| ==> IsSpace(s[i])
  {
    if s != [] && IsSpace(s[|s| - 1]) then StripRight(s[..|s| - 1]) else s
  }

  /** Python's `s.strip()`: whitespace removed at both ends. */
  function Strip(s: string): (r: string)
  {
    StripRight(StripLeft(s))
  }

  lemma {:induction false} StripLeftKeeps(s: string, c: char)
    requires !IsSpace(c)
    ensures c in StripLeft(s) <==> c in s
  {
    if s != [] && IsSpace(s[0]) {
      StripLeftKeeps(s[1..], c);
      assert s[0] != c;
      if c in s {
        var i :| 0 <= i < |s| && s[i] == c;
        assert s[1..][i - 1] == c;
      }
    }
  }

  lemma {:induction false} StripRightKeeps(s: string, c: char)
    requires !IsSpace(c)
    ensures c in StripRight(s) <==> c in s
  {
    if s != [] && IsSpace(s[|s| - 1]) {
      StripRightKeeps(s[..|s| - 1], c);
      assert s[|s| - 1] != c;
      if c in s {
        var i :| 0 <= i < |s| && s[i] == c;
        assert s[..|s| - 1][i] == c;
      }
    }
  }

  /** Stripping keeps every character that is not whitespace: `Strip(s)` holds
      a non-space character exactly when `s` does. */
  lemma StripKeeps(s: string, c: char)
    requires !IsSpace(c)
    ensures c in Strip(s) <==> c in s
  {
    StripLeftKeeps(s, c);
    StripRightKeeps(StripLeft(s), c);
  }

  /** Python's `xs[i]`, with negative indices counting from the end; None
      stands for IndexError. */
  function PyIndex<T>(xs: seq<T>, i: int): (r: Option<T>)
    ensures r.Some? <==> -|xs| <= i < |xs|
    ensures 0 <= i < |xs| ==> r == Some(xs[i])
  {
    if 0 <= i < |xs| then Some(xs[i])
    else if -|xs| <= i < 0 then Some(xs[|xs| + i])
    else None
  }

  /** A slice bound as Python normalises it. */
  function SliceBound(i: int, n: nat): (r: nat)
    ensures r <= n
  {
    if i < 0 then (if i + n < 0 then 0 else i + n) else if i > n then n else i
  }

  /** Python's `xs[lo:hi]`; never raises. */
  function PySlice<T>(xs: seq<T>, lo: int, hi: int): (r: seq<T>)
    ensures |r| <= |xs|
  {
    var a := SliceBound(lo, |xs|);
    var n := if a < SliceBound(hi, |xs|) then SliceBound(hi, |xs|) - a else 0;
    seq(n, k requires 0 <= k < n => xs[a + k])
  }

  /** Python's `[x for x in xs if p(x)]`. */
  function Filter<T>(p: T -> bool, xs: seq<T>): (r: seq<T>)
    ensures |r| <= |xs|
  {
    if xs == [] then [] else Filter(p, xs[..|xs| - 1]) + (if p(xs[|xs| - 1]) then [xs[|xs| - 1]] else [])
  }

  /** Filtering keeps only elements of the input that satisfy the predicate. */
  lemma {:induction false} FilterMembers<T>(p: T -> bool, xs: seq<T>)
    ensures forall x :: x in Filter(p, xs) ==> x in xs && p(x)
  {
    if xs != [] {
      FilterMembers(p, xs[..|xs| - 1]);
    }
  }

  /** Filtering distributes over concatenation, so it keeps relative order. */
  lemma {:induction false} FilterConcat<T>(p: T -> bool, a: seq<T>, b: seq<T>)
    ensures Filter(p, a + b) == Filter(p, a) + Filter(p, b)
    decreases |b|
  {
    if b != [] {
      assert (a + b)[..|a + b| - 1] == a + b[..|b| - 1];
      FilterConcat(p, a, b[..|b| - 1]);
    } else {
      assert a + b == a;
    }
  }

  /** Each element mapped to a sequence, the pieces concatenated in order. */
  function FlatMap<T, U>(f: T -> seq<U>, xs: seq<T>): seq<U>
  {
    if xs == [] then [] else FlatMap(f, xs[..|xs| - 1]) + f(xs[|xs| - 1])
  }

  lemma {:induction false} FlatMapConcat<T, U>(f: T -> seq<U>, a: seq<T>, b: seq<T>)
    ensures FlatMap(f, a + b) == FlatMap(f, a) + FlatMap(f, b)
    decreases |b|
  {
    if b == [] {
      assert a + b == a;
    } else {
      assert (a + b)[..|a + b| - 1] == a + b[..|b| - 1];
      FlatMapConcat(f, a, b[..|b| - 1]);
    }
  }

  /** The filter is empty exactly when no element passes. */
  lemma {:induction false} FilterEmpty<T>(p: T -> bool, xs: seq<T>)
    ensures Filter(p, xs) == [] <==> forall k :: 0 <= k < |xs| ==> !p(xs[k])
  {
    if xs != [] {
      FilterEmpty(p, xs[..|xs| - 1]);
      assert forall k :: 0 <= k < |xs| - 1 ==> xs[..|xs| - 1][k] == xs[k];
    }
  }

  /** Python's `list(filter(p, [f(x) for x in xs]))`. */
  function MapFilter<A, B>(f: A -> B, p: B -> bool, xs: seq<A>): (r: seq<B>)
    ensures |r| <= |xs|
  {
    if xs == [] then []
    else MapFilter(f, p, xs[..|xs| - 1]) + (if p(f(xs[|xs| - 1])) then [f(xs[|xs| - 1])] else [])
  }

  /** A value is in the result exactly when it is the image of an element
      whose image passes. */
  lemma {:induction false} MapFilterMember<A, B>(f: A -> B, p: B -> bool, xs: seq<A>, e: B)
    ensures e in MapFilter(f, p, xs) <==> exists i :: 0 <= i < |xs| && p(f(xs[i])) && e == f(xs[i])
  {
    if xs != [] {
      var n := |xs| - 1;
      var a := xs[..n];
      MapFilterMember(f, p, a, e);
      if e in MapFilter(f, p, a) {
        var i :| 0 <= i < n && p(f(a[i])) && e == f(a[i]);
        assert xs[i] == a[i];
      }
      if exists i :: 0 <= i < |xs| && p(f(xs[i])) && e == f(xs[i]) {
        var i :| 0 <= i < |xs| && p(f(xs[i])) && e == f(xs[i]);
        if i < n {
          assert a[i] == xs[i];
        }
      }
    }
  }

  /** Mapping and filtering keep the order of the elements. */
  lemma {:induction false} MapFilterConcat<A, B>(f: A -> B, p: B -> bool, a: seq<A>, b: seq<A>)
    ensures MapFilter(f, p, a + b) == MapFilter(f, p, a) + MapFilter(f, p, b)
    decreases |b|
  {
    if b == [] {
      assert a + b == a;
    } else {
      assert (a + b)[..|a + b| - 1] == a + b[..|b| - 1];
      MapFilterConcat(f, p, a, b[..|b| - 1]);
    }
  }

  /** A sequence is its part before `p`, its element at `p`, and its part after. */
  lemma SplitAt<T>(xs: seq<T>, p: nat)
    requires p < |xs|
    ensures xs == xs[..p] + [xs[p]] + xs[p + 1..]
  {
  }

  /** Replacing the element between two parts. */
  lemma UpdateMiddle<T>(x: seq<T>, e: T, e': T, y: seq<T>)
    ensures (x + [e] + y)[|x| := e'] == x + [e'] + y
  {
  }
}
