/** Sequence operations that stand for the data-frame transforms the dashboard
    uses on one column or on whole rows: selection by a boolean mask
    (`df[mask]`), `unique()`, occurrence counting and `head()`. */
module Rows {

  /** Number of times `v` occurs in `xs`. */
  function Occurrences<T(==)>(xs: seq<T>, v: T): (n: nat)
    ensures n <= |xs|
    ensures n > 0 <==> v in xs
  {
    if xs == [] then 0
    else
      assert xs == xs[..|xs| - 1] + [xs[|xs| - 1]];
      Occurrences(xs[..|xs| - 1], v) + (if xs[|xs| - 1] == v then 1 else 0)
  }

  lemma {:induction false} OccurrencesAppend<T>(a: seq<T>, b: seq<T>, v: T)
    ensures Occurrences(a + b, v) == Occurrences(a, v) + Occurrences(b, v)
  {
    if b != [] {
      var b' := b[..|b| - 1];
      assert (a + b)[..|a + b| - 1] == a + b';
      OccurrencesAppend(a, b', v);
    } else {
      assert a + b == a;
    }
  }

  /** No element occurs twice. */
  predicate Distinct<T(==)>(xs: seq<T>)
  {
    forall i, j :: 0 <= i < j < |xs| ==> xs[i] != xs[j]
  }

  lemma {:induction false} OccurrencesInDistinct<T>(u: seq<T>, v: T)
    requires Distinct(u) && v in u
    ensures Occurrences(u, v) == 1
  {
    var u' := u[..|u| - 1];
    assert Distinct(u');
    if u[|u| - 1] == v {
      assert v !in u';
    } else {
      assert v in u';
      OccurrencesInDistinct(u', v);
    }
  }

  /** `unique()`: the distinct values of `xs`. */
  function Unique<T(==, !new)>(xs: seq<T>): (u: seq<T>)
    ensures Distinct(u)
    ensures forall v :: v in u <==> v in xs
    ensures |u| <= |xs|
  {
    if xs == [] then []
    else
      var init, last := xs[..|xs| - 1], xs[|xs| - 1];
      assert xs == init + [last];
      var u := Unique(init);
      if last in u then u else u + [last]
  }

  /** `sub` is `xs` with some elements left out and the others kept in order. */
  ghost predicate IsSubsequence<T>(sub: seq<T>, xs: seq<T>)
  {
    sub == [] ||
    (xs != [] &&
     ((sub[0] == xs[0] && IsSubsequence(sub[1..], xs[1..])) || IsSubsequence(sub, xs[1..])))
  }

  lemma {:induction false} SubsequenceOfItself<T>(xs: seq<T>)
    ensures IsSubsequence(xs, xs)
  {
    if xs != [] {
      SubsequenceOfItself(xs[1..]);
    }
  }

  /** Boolean-mask selection `df[mask]`: the elements satisfying `p`, in their
      original order. */
  function Where<T(!new)>(xs: seq<T>, p: T -> bool): (r: seq<T>)
    ensures |r| <= |xs|
    ensures forall x :: x in r <==> x in xs && p(x)
  {
    if xs == [] then []
    else (if p(xs[0]) then [xs[0]] else []) + Where(xs[1..], p)
  }

  lemma {:induction false} WhereIsSubsequence<T(!new)>(xs: seq<T>, p: T -> bool)
    ensures IsSubsequence(Where(xs, p), xs)
  {
    if xs != [] {
      WhereIsSubsequence(xs[1..], p);
      var r := Where(xs, p);
      if p(xs[0]) {
        assert r[0] == xs[0] && r[1..] == Where(xs[1..], p);
      } else {
        assert r == Where(xs[1..], p);
      }
    }
  }

  /** Selection keeps every copy of a kept element and no copy of the others. */
  lemma {:induction false} WhereOccurrences<T(!new)>(xs: seq<T>, p: T -> bool, v: T)
    ensures Occurrences(Where(xs, p), v) == if p(v) then Occurrences(xs, v) else 0
  {
    if xs != [] {
      WhereOccurrences(xs[1..], p, v);
      var head := if p(xs[0]) then [xs[0]] else [];
      OccurrencesAppend(head, Where(xs[1..], p), v);
      OccurrencesAppend([xs[0]], xs[1..], v);
      assert [xs[0]] + xs[1..] == xs;
      assert Occurrences([xs[0]], v) == if xs[0] == v then 1 else 0 by {
        assert [xs[0]][..0] == [];
      }
    }
  }

  lemma {:induction false} WhereIdempotent<T(!new)>(xs: seq<T>, p: T -> bool)
    ensures Where(Where(xs, p), p) == Where(xs, p)
  {
    if xs != [] {
      WhereIdempotent(xs[1..], p);
      var r := Where(xs, p);
      if p(xs[0]) {
        assert r[0] == xs[0] && r[1..] == Where(xs[1..], p);
      } else {
        assert r == Where(xs[1..], p);
      }
    }
  }

  lemma {:induction false} WhereAll<T(!new)>(xs: seq<T>, p: T -> bool)
    requires forall i :: 0 <= i < |xs| ==> p(xs[i])
    ensures Where(xs, p) == xs
  {
    if xs != [] {
      assert forall i :: 0 <= i < |xs[1..]| ==> p(xs[1..][i]) by {
        forall i | 0 <= i < |xs[1..]| ensures p(xs[1..][i]) {
          assert xs[1..][i] == xs[i + 1];
        }
      }
      WhereAll(xs[1..], p);
      assert p(xs[0]);
    }
  }

  /** `head(n)`: the first `n` elements, or all of them when there are fewer. */
  function Head<T>(xs: seq<T>, n: nat): (r: seq<T>)
    ensures |r| == if |xs| <= n then |xs| else n
    ensures r == xs[..|r|]
  {
    if |xs| <= n then xs else xs[..n]
  }
}
