/** Sequence operations shared by the list edits: `Array.prototype.filter`,
    the one-element form of `Array.prototype.splice`, and the facts about
    them that the list edits rely on. */
module Seqs {

  /** `a` occurs in `b` with its elements in the same relative order. */
  predicate IsSubsequence<T(==)>(a: seq<T>, b: seq<T>)
    decreases |b|
  {
    if |a| == 0 then true
    else if |b| == 0 then false
    else if a[0] == b[0] then IsSubsequence(a[1..], b[1..])
    else IsSubsequence(a, b[1..])
  }

  /** No element occurs twice. */
  predicate NoDuplicates<T(==)>(s: seq<T>) {
    forall i, j :: 0 <= i < j < |s| ==> s[i] != s[j]
  }

  /** The elements of `s` that satisfy `keep`, in their original order:
      `s.filter(keep)`. */
  function Filter<T(==)>(s: seq<T>, keep: T -> bool): (r: seq<T>)
    ensures |r| <= |s|
    ensures forall i :: 0 <= i < |r| ==> r[i] in s && keep(r[i])
    ensures forall i :: 0 <= i < |s| && keep(s[i]) ==> s[i] in r
  {
    if |s| == 0 then []
    else (if keep(s[0]) then [s[0]] else []) + Filter(s[1..], keep)
  }

  /** Filtering distributes over concatenation; together with the one-element
      case this pins down `Filter` completely. */
  lemma {:induction false} FilterAppend<T>(a: seq<T>, b: seq<T>, keep: T -> bool)
    ensures Filter(a + b, keep) == Filter(a, keep) + Filter(b, keep)
    decreases |a|
  {
    if |a| == 0 {
      assert a + b == b;
    } else {
      assert (a + b)[1..] == a[1..] + b;
      FilterAppend(a[1..], b, keep);
    }
  }

  /** A filter that keeps every element is the identity. */
  lemma {:induction false} FilterKeepsAll<T>(s: seq<T>, keep: T -> bool)
    requires forall i :: 0 <= i < |s| ==> keep(s[i])
    ensures Filter(s, keep) == s
    decreases |s|
  {
    if |s| > 0 {
      FilterKeepsAll(s[1..], keep);
    }
  }

  /** The filter's result keeps the input's order. */
  lemma {:induction false} FilterIsSubsequence<T>(s: seq<T>, keep: T -> bool)
    ensures IsSubsequence(Filter(s, keep), s)
    decreases |s|
  {
    if |s| > 0 {
      FilterIsSubsequence(s[1..], keep);
      var rest := Filter(s[1..], keep);
      if keep(s[0]) {
        assert Filter(s, keep) == [s[0]] + rest;
        assert ([s[0]] + rest)[1..] == rest;
      } else {
        assert Filter(s, keep) == rest;
        SubsequenceOfTail(rest, s);
      }
    }
  }

  /** A subsequence of the tail is a subsequence of the whole. */
  lemma {:induction false} SubsequenceOfTail<T>(a: seq<T>, b: seq<T>)
    requires |b| > 0
    requires IsSubsequence(a, b[1..])
    ensures IsSubsequence(a, b)
    decreases |b|, 1
  {
    if |a| > 0 && a[0] == b[0] {
      SubsequenceDropHead(a, b[1..]);
    }
  }

  /** Dropping the first element of a subsequence keeps it a subsequence. */
  lemma {:induction false} SubsequenceDropHead<T>(a: seq<T>, b: seq<T>)
    requires |a| > 0
    requires IsSubsequence(a, b)
    ensures IsSubsequence(a[1..], b)
    decreases |b| + 1, 0
  {
    if |b| > 0 {
      if a[0] == b[0] {
        SubsequenceOfTail(a[1..], b);
      } else {
        SubsequenceDropHead(a, b[1..]);
        SubsequenceOfTail(a[1..], b);
      }
    }
  }

  /** Each element occurs in the filter's result exactly as often as in the
      input when it is kept, and never when it is not. */
  lemma {:induction false} FilterCount<T>(s: seq<T>, keep: T -> bool, x: T)
    ensures multiset(Filter(s, keep))[x] == if keep(x) then multiset(s)[x] else 0
    decreases |s|
  {
    if |s| > 0 {
      FilterCount(s[1..], keep, x);
      assert s == [s[0]] + s[1..];
      assert multiset(s) == multiset([s[0]]) + multiset(s[1..]);
    }
  }

  /** Removing the element at `index` leaves a subsequence. */
  lemma {:induction false} PrefixSkipIsSubsequence<T>(s: seq<T>, index: nat)
    requires index < |s|
    ensures IsSubsequence(s[..index] + s[index + 1..], s)
    decreases index
  {
    var r := s[..index] + s[index + 1..];
    if index == 0 {
      assert r == s[1..];
      SubsequenceReflexive(s[1..]);
      SubsequenceOfTail(s[1..], s);
    } else {
      PrefixSkipIsSubsequence(s[1..], index - 1);
      assert r[0] == s[0];
      assert r[1..] == s[1..][..index - 1] + s[1..][index..];
    }
  }

  lemma {:induction false} SubsequenceReflexive<T>(s: seq<T>)
    ensures IsSubsequence(s, s)
    decreases |s|
  {
    if |s| > 0 {
      SubsequenceReflexive(s[1..]);
    }
  }

  /** Removing the element at `i` removes one copy of it from the multiset. */
  lemma SplitAt<T>(s: seq<T>, i: nat)
    requires i < |s|
    ensures multiset(s) == multiset(s[..i] + s[i + 1..]) + multiset{s[i]}
  {
    assert s == s[..i] + [s[i]] + s[i + 1..];
  }

  /** `FilterCount` for every element at once. */
  lemma FilterCountAll<T>(s: seq<T>, keep: T -> bool)
    ensures forall x :: multiset(Filter(s, keep))[x] == if keep(x) then multiset(s)[x] else 0
  {
    forall x
      ensures multiset(Filter(s, keep))[x] == if keep(x) then multiset(s)[x] else 0
    {
      FilterCount(s, keep, x);
    }
  }

  /** The one-element case of `Filter`. */
  lemma FilterSingle<T>(x: T, p: T -> bool)
    ensures Filter([x], p) == if p(x) then [x] else []
  {
    assert [x][1..] == [];
  }

  /** Swapping two neighbours that are not both kept does not change a
      filter. */
  lemma SwapUnkeptPair<T>(x: T, y: T, t: seq<T>, rest: seq<T>, p: T -> bool)
    requires !(p(x) && p(y))
    requires Filter(rest, p) == Filter([x] + t, p)
    ensures Filter([y] + rest, p) == Filter([x] + ([y] + t), p)
  {
    FilterAppend([y], rest, p);
    FilterAppend([x], [y] + t, p);
    FilterAppend([y], t, p);
    FilterAppend([x], t, p);
    FilterSingle(x, p);
    FilterSingle(y, p);
    if p(x) {
      // `y` is dropped on both sides; `x` leads both.
      assert Filter([y] + rest, p) == Filter(rest, p);
      assert Filter([y] + t, p) == Filter(t, p);
    } else {
      // `x` is dropped on both sides; both are `y`'s part followed by `t`'s.
      assert Filter(rest, p) == Filter(t, p);
      assert Filter([x] + ([y] + t), p) == Filter([y] + t, p);
    }
  }

  /** `s.splice(start, 1)` on a copy of `s`, per section 23.1.3.31 of
      ECMA-262: a negative start counts from the end (clamped at 0), a start
      past the end is clamped to the length, and at most one element is
      removed. */
  function SpliceOne<T>(s: seq<T>, start: int): (r: seq<T>)
    ensures 0 <= start < |s| ==> |r| == |s| - 1 && r[..start] == s[..start] && r[start..] == s[start + 1..]
    ensures start >= |s| || |s| == 0 ==> r == s
    ensures -|s| <= start < 0 ==> |r| == |s| - 1 && r[..|s| + start] == s[..|s| + start] && r[|s| + start..] == s[|s| + start + 1..]
    ensures start < -|s| && |s| > 0 ==> r == s[1..]
  {
    var len := |s|;
    var actualStart := if start < 0 then (if len + start > 0 then len + start else 0)
                       else (if start < len then start else len);
    if actualStart < len then s[..actualStart] + s[actualStart + 1..] else s
  }
}
