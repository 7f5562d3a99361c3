/** Order-preserving selection, subsequences, suffixes and concatenation. */
module Sequences {

  /** The elements of `s` that satisfy `p`, in their order. */
  function Filter<T>(s: seq<T>, p: T -> bool): seq<T> {
    if s == [] then []
    else if p(s[0]) then [s[0]] + Filter(s[1..], p)
    else Filter(s[1..], p)
  }

  function Not<T>(p: T -> bool): T -> bool {
    x => !p(x)
  }

  lemma {:induction false} FilterConcat<T>(s: seq<T>, t: seq<T>, p: T -> bool)
    ensures Filter(s + t, p) == Filter(s, p) + Filter(t, p)
  {
    if s == [] {
      assert s + t == t;
    } else {
      assert (s + t)[1..] == s[1..] + t;
      FilterConcat(s[1..], t, p);
    }
  }

  /** Selecting from a prefix one longer. */
  lemma FilterSnoc<T>(s: seq<T>, i: nat, p: T -> bool)
    requires i < |s|
    ensures Filter(s[..i + 1], p) == if p(s[i]) then Filter(s[..i], p) + [s[i]] else Filter(s[..i], p)
  {
    FilterConcat(s[..i], [s[i]], p);
    assert s[..i + 1] == s[..i] + [s[i]];
    assert Filter([s[i]], p) == if p(s[i]) then [s[i]] else [];
  }

  lemma {:induction false} FilterKeeps<T>(s: seq<T>, p: T -> bool)
    ensures forall x <- Filter(s, p) :: p(x) && x in s
  {
    if s == [] {
    } else {
      FilterKeeps(s[1..], p);
    }
  }

  /** Selecting and its complement split a sequence without losing or copying anything. */
  lemma {:induction false} FilterSplits<T>(s: seq<T>, p: T -> bool)
    ensures multiset(s) == multiset(Filter(s, p)) + multiset(Filter(s, Not(p)))
  {
    if s == [] {
    } else {
      FilterSplits(s[1..], p);
      assert s == [s[0]] + s[1..];
    }
  }

  /** When everything satisfies `p`, selecting is the identity; when nothing does, it is empty. */
  lemma {:induction false} FilterTrivial<T>(s: seq<T>, p: T -> bool)
    ensures (forall x <- s :: p(x)) ==> Filter(s, p) == s
    ensures (forall x <- s :: !p(x)) ==> Filter(s, p) == []
  {
    if s == [] {
    } else {
      FilterTrivial(s[1..], p);
      assert s == [s[0]] + s[1..];
    }
  }

  /** Selecting `p` from a selection by a weaker `q` is selecting `p`. */
  lemma {:induction false} FilterWithin<T>(s: seq<T>, p: T -> bool, q: T -> bool)
    requires forall x <- s :: p(x) ==> q(x)
    ensures Filter(Filter(s, q), p) == Filter(s, p)
  {
    if s == [] {
    } else {
      FilterWithin(s[1..], p, q);
    }
  }

  /** How often an element is selected. */
  lemma {:induction false} FilterCounts<T>(s: seq<T>, p: T -> bool, x: T)
    ensures multiset(Filter(s, p))[x] == if p(x) then multiset(s)[x] else 0
  {
    if s == [] {
    } else {
      FilterCounts(s[1..], p, x);
      assert s == [s[0]] + s[1..];
    }
  }

  /** A rearrangement has as many elements that satisfy `p`. */
  lemma FilterOfRearrangement<T(!new)>(s: seq<T>, t: seq<T>, p: T -> bool)
    requires multiset(s) == multiset(t)
    ensures |Filter(s, p)| == |Filter(t, p)|
  {
    assert multiset(Filter(s, p)) == multiset(Filter(t, p)) by {
      forall x: T ensures multiset(Filter(s, p))[x] == multiset(Filter(t, p))[x] {
        FilterCounts(s, p, x);
        FilterCounts(t, p, x);
      }
    }
    assert |multiset(Filter(s, p))| == |Filter(s, p)| && |multiset(Filter(t, p))| == |Filter(t, p)|;
  }

  /** Two selections commute. */
  lemma {:induction false} FilterCommutes<T>(s: seq<T>, p: T -> bool, q: T -> bool)
    ensures Filter(Filter(s, q), p) == Filter(Filter(s, p), q)
  {
    if s == [] {
    } else {
      FilterCommutes(s[1..], p, q);
    }
  }

  /** `x` can be obtained from `y` by deleting elements. */
  predicate IsSubsequence<T(==)>(x: seq<T>, y: seq<T>) {
    x == [] || (y != [] && ((x[0] == y[0] && IsSubsequence(x[1..], y[1..])) || IsSubsequence(x, y[1..])))
  }

  lemma {:induction false} SubsequenceReflexive<T>(x: seq<T>)
    ensures IsSubsequence(x, x)
  {
    if x == [] {
    } else {
      SubsequenceReflexive(x[1..]);
    }
  }

  lemma {:induction false} SubsequenceTransitive<T>(x: seq<T>, y: seq<T>, z: seq<T>)
    requires IsSubsequence(x, y) && IsSubsequence(y, z)
    ensures IsSubsequence(x, z)
    decreases |y| + |z|
  {
    if x == [] {
    } else {
      if y[0] == z[0] && IsSubsequence(y[1..], z[1..]) {
        if x[0] == y[0] && IsSubsequence(x[1..], y[1..]) {
          SubsequenceTransitive(x[1..], y[1..], z[1..]);
        } else {
          SubsequenceTransitive(x, y[1..], z[1..]);
        }
      } else {
        SubsequenceTransitive(x, y, z[1..]);
      }
    }
  }

  lemma {:induction false} SubsequenceConcat<T>(x: seq<T>, y: seq<T>, x': seq<T>, y': seq<T>)
    requires IsSubsequence(x, y) && IsSubsequence(x', y')
    ensures IsSubsequence(x + x', y + y')
    decreases |y|
  {
    if y == [] {
      assert x + x' == x' && y + y' == y';
    } else if x != [] && x[0] == y[0] && IsSubsequence(x[1..], y[1..]) {
      SubsequenceConcat(x[1..], y[1..], x', y');
      assert (x + x')[1..] == x[1..] + x' && (y + y')[1..] == y[1..] + y';
    } else {
      SubsequenceConcat(x, y[1..], x', y');
      assert (y + y')[1..] == y[1..] + y';
      assert x + x' == [] || IsSubsequence(x + x', (y + y')[1..]);
    }
  }

  lemma {:induction false} FilterIsSubsequence<T>(s: seq<T>, p: T -> bool)
    ensures IsSubsequence(Filter(s, p), s)
  {
    if s == [] {
    } else {
      FilterIsSubsequence(s[1..], p);
      var f := Filter(s, p);
      assert p(s[0]) ==> f[1..] == Filter(s[1..], p);
    }
  }

  /** Every prefix is good. */
  ghost predicate Always<T>(events: seq<T>, good: seq<T> -> bool) {
    forall i | 0 <= i <= |events| :: good(events[..i])
  }

  /** Every element is all right after what comes before it. */
  ghost predicate EachFits<T>(events: seq<T>, fits: (seq<T>, T) -> bool) {
    forall i | 0 <= i < |events| :: fits(events[..i], events[i])
  }

  /** If an element leads from a good prefix to a good one exactly when it fits, then every prefix is good exactly when
      every element fits. */
  lemma AlwaysIffEachFits<T>(events: seq<T>, good: seq<T> -> bool, fits: (seq<T>, T) -> bool)
    requires good([])
    requires forall i | 0 <= i < |events| && good(events[..i]) :: good(events[..i + 1]) <==>
               fits(events[..i], events[i])
    ensures Always(events, good) <==> EachFits(events, fits)
  {
    if Always(events, good) {
      forall i | 0 <= i < |events| ensures fits(events[..i], events[i]) {
        assert good(events[..i]) && good(events[..i + 1]);
      }
    }
    if EachFits(events, fits) {
      for n := 0 to |events| + 1
        invariant forall i | 0 <= i < n :: good(events[..i])
      {
        if n == 0 {
          assert events[..n] == [];
        } else {
          assert good(events[..n - 1]) && fits(events[..n - 1], events[n - 1]);
        }
      }
    }
  }

  ghost predicate AllDistinct<T>(s: seq<T>) {
    forall i, j | 0 <= i < j < |s| :: s[i] != s[j]
  }

  /** The last `n` elements of `s`, or all of them if there are fewer. */
  function LastN<T>(s: seq<T>, n: nat): seq<T> {
    if |s| <= n then s else s[|s| - n..]
  }

  function Min(x: int, y: int): int {
    if x <= y then x else y
  }

  lemma LastNLastN<T>(s: seq<T>, m: nat, n: nat)
    ensures LastN(LastN(s, m), n) == LastN(s, Min(m, n))
  {
  }

  function Flatten<T>(ss: seq<seq<T>>): seq<T> {
    if ss == [] then [] else ss[0] + Flatten(ss[1..])
  }
}
