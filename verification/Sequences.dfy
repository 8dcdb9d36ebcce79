/** Sequence facts shared by several modules. */
module Sequences {

  /** The results of f on the elements, one after the other. */
  ghost function FlatMap<A, B>(f: A -> seq<B>, s: seq<A>): seq<B> {
    if s == [] then [] else FlatMap(f, s[..|s| - 1]) + f(s[|s| - 1])
  }

  lemma FlatMapSnoc<A, B>(f: A -> seq<B>, s: seq<A>, x: A)
    ensures FlatMap(f, s + [x]) == FlatMap(f, s) + f(x)
  {
    assert (s + [x])[..|s|] == s;
  }

  lemma {:induction false} FlatMapAppend<A, B>(f: A -> seq<B>, s: seq<A>, t: seq<A>)
    ensures FlatMap(f, s + t) == FlatMap(f, s) + FlatMap(f, t)
  {
    if t == [] {
      assert s + t == s && FlatMap(f, t) == [];
    } else {
      hide FlatMap;
      var init, last := t[..|t| - 1], t[|t| - 1];
      FlatMapAppend(f, s, init);
      FlatMapSnoc(f, s + init, last);
      FlatMapSnoc(f, init, last);
      Regroup(s, init, last);
      assert t == init + [last];
      Associative(FlatMap(f, s), FlatMap(f, init), f(last));
    }
  }

  lemma Regroup<A>(s: seq<A>, init: seq<A>, last: A)
    ensures s + (init + [last]) == (s + init) + [last]
  {
  }

  lemma Associative<A>(a: seq<A>, b: seq<A>, c: seq<A>)
    ensures (a + b) + c == a + (b + c)
  {
  }

  /** `a` is obtained from `b` by leaving elements out. */
  ghost predicate IsSubsequence<T>(a: seq<T>, b: seq<T>) {
    if a == [] then true
    else if b == [] then false
    else
      || IsSubsequence(a, b[..|b| - 1])
      || (a[|a| - 1] == b[|b| - 1] && IsSubsequence(a[..|a| - 1], b[..|b| - 1]))
  }

  lemma SubsequenceSkip<T>(a: seq<T>, b: seq<T>, x: T)
    requires IsSubsequence(a, b)
    ensures IsSubsequence(a, b + [x])
  {
    assert (b + [x])[..|b|] == b;
  }

  lemma SubsequenceTake<T>(a: seq<T>, b: seq<T>, x: T)
    requires IsSubsequence(a, b)
    ensures IsSubsequence(a + [x], b + [x])
  {
    assert (b + [x])[..|b|] == b && (a + [x])[..|a|] == a;
  }

  lemma {:induction false} SubsequenceReflexive<T>(a: seq<T>)
    ensures IsSubsequence(a, a)
  {
    if a != [] {
      SubsequenceReflexive(a[..|a| - 1]);
    }
  }

  lemma {:induction false} SubsequenceAppend<T>(a: seq<T>, b: seq<T>, t: seq<T>)
    requires IsSubsequence(a, b)
    ensures IsSubsequence(a, b + t)
  {
    if t == [] {
      assert b + t == b;
    } else {
      SubsequenceAppend(a, b, t[..|t| - 1]);
      SubsequenceSkip(a, b + t[..|t| - 1], t[|t| - 1]);
      assert b + t == b + t[..|t| - 1] + [t[|t| - 1]];
    }
  }

  lemma {:induction false} SubsequenceTransitive<T>(a: seq<T>, b: seq<T>, c: seq<T>)
    requires IsSubsequence(a, b) && IsSubsequence(b, c)
    ensures IsSubsequence(a, c)
    decreases |c|
  {
    if a != [] && c != [] && b != [] {
      var c0 := c[..|c| - 1];
      if IsSubsequence(b, c0) {
        SubsequenceTransitive(a, b, c0);
      } else if IsSubsequence(a, b[..|b| - 1]) {
        SubsequenceTransitive(a, b[..|b| - 1], c0);
      } else {
        SubsequenceTransitive(a[..|a| - 1], b[..|b| - 1], c0);
      }
    }
  }

  /** A subsequence is no longer than the sequence, and as long only if nothing is left out. */
  lemma {:induction false} SubsequenceLength<T>(a: seq<T>, b: seq<T>)
    requires IsSubsequence(a, b)
    ensures |a| <= |b| && (|a| == |b| ==> a == b)
  {
    if a != [] {
      var b0 := b[..|b| - 1];
      if IsSubsequence(a, b0) {
        SubsequenceLength(a, b0);
      } else {
        SubsequenceLength(a[..|a| - 1], b0);
        assert a == a[..|a| - 1] + [a[|a| - 1]] && b == b0 + [b[|b| - 1]];
      }
    }
  }
}
