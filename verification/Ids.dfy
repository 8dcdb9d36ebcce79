/** Connection ids in the order of the ordered containers that hold them. */
module Ids {

  predicate IsLeast(m: int, s: set<int>) {
    m in s && forall x | x in s :: m <= x
  }

  lemma HasElement(s: set<int>)
    ensures s == {} || exists x :: x in s
  {
    if forall x :: x !in s {
      assert s == {};
    }
  }

  lemma {:induction false} LeastExists(s: set<int>)
    requires s != {}
    ensures exists m :: IsLeast(m, s)
  {
    HasElement(s);
    var a :| a in s;
    var t := s - {a};
    if t == {} {
      assert forall x | x in s :: x == a || x in t;
      assert IsLeast(a, s);
    } else {
      LeastExists(t);
      var m :| IsLeast(m, t);
      assert forall x | x in s :: x == a || x in t;
      assert IsLeast(if a < m then a else m, s);
    }
  }

  /** The ids of an ordered set or map, in the order a loop over it meets them. */
  function Ascending(s: set<int>): (r: seq<int>)
    ensures forall x :: x in r <==> x in s
  {
    if s == {} then []
    else
      LeastExists(s);
      var m :| IsLeast(m, s);
      [m] + Ascending(s - {m})
  }

  lemma AscendingUnfolds(m: int, s: set<int>)
    requires IsLeast(m, s)
    ensures Ascending(s) == [m] + Ascending(s - {m})
  {
    forall x | IsLeast(x, s) ensures x == m {
    }
  }

  lemma {:induction false} AscendingIsSorted(s: set<int>)
    ensures forall i, j | 0 <= i < j < |Ascending(s)| :: Ascending(s)[i] < Ascending(s)[j]
  {
    if s != {} {
      LeastExists(s);
      var m :| IsLeast(m, s);
      AscendingUnfolds(m, s);
      AscendingIsSorted(s - {m});
      var rest := Ascending(s - {m});
      forall j | 0 <= j < |rest| ensures m < rest[j] {
        assert rest[j] in rest;
      }
    }
  }

  /** Each element of the set once. */
  ghost predicate Enumerates(order: seq<int>, s: set<int>) {
    && (forall x :: x in order <==> x in s)
    && (forall i, j | 0 <= i < j < |order| :: order[i] != order[j])
  }

  /** Before its turn an id of an enumeration has not been met. */
  lemma NextIsNew(order: seq<int>, s: set<int>, i: nat)
    requires Enumerates(order, s) && i < |order|
    ensures order[i] in s && order[i] !in order[..i]
  {
    assert order[i] in order;
  }

  /** Those of the first i ids that are keys. */
  ghost function Passed(ids: seq<int>, i: nat, keys: set<int>): set<int>
    requires i <= |ids|
  {
    set id | id in ids[..i] && id in keys
  }

  lemma PassedNone(ids: seq<int>, keys: set<int>)
    ensures Passed(ids, 0, keys) == {}
  {
  }

  lemma PassedOneMore(ids: seq<int>, s: set<int>, i: nat, keys: set<int>)
    requires Enumerates(ids, s) && i < |ids|
    ensures ids[i] in s && ids[i] !in Passed(ids, i, keys)
    ensures var before := Passed(ids, i, keys);
            Passed(ids, i + 1, keys) == if ids[i] in keys then before + {ids[i]} else before
  {
    NextIsNew(ids, s, i);
    assert ids[..i + 1] == ids[..i] + [ids[i]];
  }

  lemma PassedAll(ids: seq<int>, s: set<int>, keys: set<int>)
    requires Enumerates(ids, s)
    ensures Passed(ids, |ids|, keys) == s * keys
  {
    assert ids[..|ids|] == ids;
    assert forall id :: id in Passed(ids, |ids|, keys) <==> id in s * keys;
  }

  lemma AscendingEnumerates(s: set<int>)
    ensures Enumerates(Ascending(s), s)
  {
    AscendingIsSorted(s);
  }
}
