/** Selection of an element of a range by full or abbreviated name. */
module PartialMatch {
  import opened Text

  /** When an element with this key is accepted for the search text. */
  predicate Accepts(key: string, text: string, exact: bool) {
    IEquals(key, text) || (!exact && IStartsWith(key, text))
  }

  /** Position i is the answer: an accepted element whose key no accepted key precedes in byte order,
      and the first of the range with that key. */
  ghost predicate IsSelection<V>(range: seq<V>, key: V -> string, text: string, exact: bool, i: nat) {
    && i < |range|
    && Accepts(key(range[i]), text, exact)
    && forall j | 0 <= j < |range| && Accepts(key(range[j]), text, exact) ::
         !Less(key(range[j]), key(range[i])) && (j < i ==> key(range[j]) != key(range[i]))
  }

  /** Entries of the multimap: sorted by key, equal keys in order of insertion. `from` gives the
      range position each entry came from. */
  ghost predicate IsMultimap<V>(entries: seq<(string, V)>, from: seq<int>, range: seq<V>, key: V -> string) {
    && |entries| == |from| == |range|
    && (forall k | 0 <= k < |from| :: 0 <= from[k] < |range| && entries[k] == (key(range[from[k]]), range[from[k]]))
    && (forall k, l | 0 <= k < l < |entries| ::
         Less(entries[k].0, entries[l].0) || (entries[k].0 == entries[l].0 && from[k] < from[l]))
    && (forall i | 0 <= i < |range| :: i in from)
  }

  /** multimap::insert, which places a key after all keys not greater than it. */
  method Insert<V>(entries: seq<(string, V)>, ghost from: seq<int>, ghost range: seq<V>, key: V -> string, v: V)
    returns (entries': seq<(string, V)>, ghost from': seq<int>)
    requires IsMultimap(entries, from, range, key)
    ensures IsMultimap(entries', from', range + [v], key)
  {
    var k := key(v);
    var p := 0;
    while p < |entries| && !Less(k, entries[p].0)
      invariant 0 <= p <= |entries|
      invariant forall q | 0 <= q < p :: !Less(k, entries[q].0)
    {
      p := p + 1;
    }
    forall q | 0 <= q < p ensures Less(entries[q].0, k) || entries[q].0 == k {
      LessTotal(entries[q].0, k);
    }
    forall q | p <= q < |entries| ensures Less(k, entries[q].0) {
      if p < q && Less(entries[p].0, entries[q].0) {
        LessTransitive(k, entries[p].0, entries[q].0);
      }
    }
    entries' := entries[..p] + [(k, v)] + entries[p..];
    from' := from[..p] + [|range|] + from[p..];
    InsertedIsMultimap(entries, from, range, key, v, p);
  }

  lemma InsertedIsMultimap<V>(entries: seq<(string, V)>, from: seq<int>, range: seq<V>, key: V -> string, v: V, p: nat)
    requires IsMultimap(entries, from, range, key)
    requires p <= |entries|
    requires forall q | 0 <= q < p :: Less(entries[q].0, key(v)) || entries[q].0 == key(v)
    requires forall q | p <= q < |entries| :: Less(key(v), entries[q].0)
    ensures IsMultimap(entries[..p] + [(key(v), v)] + entries[p..], from[..p] + [|range|] + from[p..], range + [v], key)
  {
    var entries' := entries[..p] + [(key(v), v)] + entries[p..];
    var from' := from[..p] + [|range|] + from[p..];
    hide Less;
    assert |from| == |entries|;
    forall q | 0 <= q < |entries'|
      ensures if q == p then entries'[q] == (key(v), v) && from'[q] == |range|
              else var q0 := if q < p then q else q - 1; entries'[q] == entries[q0] && from'[q] == from[q0]
    {
    }
    forall i | 0 <= i < |range + [v]| ensures i in from' {
      if i < |range| {
        assert i in from;
        var q :| 0 <= q < |from| && from[q] == i;
        assert from'[if q < p then q else q + 1] == i;
      } else {
        assert from'[p] == i;
      }
    }
  }

  /** std::find: the first position holding the value. */
  method Find<V(==)>(range: seq<V>, v: V) returns (i: nat)
    ensures i <= |range|
    ensures i < |range| ==> range[i] == v
    ensures forall j | 0 <= j < i :: range[j] != v
  {
    i := 0;
    while i < |range| && range[i] != v
      invariant i <= |range|
      invariant forall j | 0 <= j < i :: range[j] != v
    {
      i := i + 1;
    }
  }

  /** Returns the selected position, or the length of the range when no key is accepted. */
  method PartialMatch<V(==)>(text: string, range: seq<V>, exact: bool, key: V -> string) returns (pos: nat)
    ensures pos <= |range|
    ensures pos == |range| <==> forall i | 0 <= i < |range| :: !Accepts(key(range[i]), text, exact)
    ensures pos < |range| ==> IsSelection(range, key, text, exact, pos)
    ensures exact ==> (pos == |range| <==> forall i | 0 <= i < |range| :: !SameButCase(key(range[i]), text))
    ensures exact && pos < |range| ==> SameButCase(key(range[pos]), text)
    ensures !exact ==> (pos == |range| <==> forall i | 0 <= i < |range| :: !Abbreviates(text, key(range[i])))
    ensures !exact && pos < |range| ==> Abbreviates(text, key(range[pos]))
  {
    pos := Select(text, range, exact, key);
    forall i | 0 <= i < |range|
      ensures Accepts(key(range[i]), text, exact) <==>
              if exact then SameButCase(key(range[i]), text) else Abbreviates(text, key(range[i]))
    {
      AcceptsIff(key(range[i]), text, exact);
    }
  }

  lemma AcceptsIff(key: string, text: string, exact: bool)
    ensures Accepts(key, text, exact) <==> if exact then SameButCase(key, text) else Abbreviates(text, key)
  {
    IEqualsIff(key, text);
    IStartsWithIff(key, text);
  }

  /** The scan. */
  method Select<V(==)>(text: string, range: seq<V>, exact: bool, key: V -> string) returns (pos: nat)
    ensures pos <= |range|
    ensures pos == |range| <==> forall i | 0 <= i < |range| :: !Accepts(key(range[i]), text, exact)
    ensures pos < |range| ==> IsSelection(range, key, text, exact, pos)
  {
    var entries: seq<(string, V)> := [];
    ghost var from: seq<int> := [];
    var n := 0;
    while n < |range|
      invariant n <= |range|
      invariant IsMultimap(entries, from, range[..n], key)
    {
      assert range[..n + 1] == range[..n] + [range[n]];
      entries, from := Insert(entries, from, range[..n], key, range[n]);
      n := n + 1;
    }
    assert range[..n] == range;
    var k := 0;
    while k < |entries|
      invariant 0 <= k <= |entries|
      invariant forall l | 0 <= l < k :: !Accepts(entries[l].0, text, exact)
    {
      if IEquals(entries[k].0, text) || (!exact && IStartsWith(entries[k].0, text)) {
        FirstAcceptedIsSelection(entries, from, range, key, text, exact, k);
        pos := Find(range, entries[k].1);
        return;
      }
      k := k + 1;
    }
    pos := |range|;
    forall i | 0 <= i < |range| ensures !Accepts(key(range[i]), text, exact) {
      assert i in from;
      var l :| 0 <= l < |from| && from[l] == i;
      assert entries[l].0 == key(range[i]);
    }
  }

  lemma FirstAcceptedIsSelection<V>(entries: seq<(string, V)>, from: seq<int>, range: seq<V>, key: V -> string,
                                    text: string, exact: bool, k: nat)
    requires IsMultimap(entries, from, range, key)
    requires k < |entries| && Accepts(entries[k].0, text, exact)
    requires forall l | 0 <= l < k :: !Accepts(entries[l].0, text, exact)
    ensures IsSelection(range, key, text, exact, from[k])
  {
    forall j | 0 <= j < |range| && Accepts(key(range[j]), text, exact)
      ensures !Less(key(range[j]), key(range[from[k]]))
      ensures j < from[k] ==> key(range[j]) != key(range[from[k]])
    {
      assert j in from;
      var l :| 0 <= l < |from| && from[l] == j;
      assert entries[l].0 == key(range[j]) && k <= l;
      LessIrreflexive(entries[k].0);
      if k < l && Less(entries[k].0, entries[l].0) {
        LessAsymmetric(entries[k].0, entries[l].0);
      }
    }
  }

  // ---------- What the selection depends on ----------

  /** The answer is determined by the range. */
  lemma SelectionIsUnique<V>(range: seq<V>, key: V -> string, text: string, exact: bool, i: nat, j: nat)
    requires IsSelection(range, key, text, exact, i) && IsSelection(range, key, text, exact, j)
    ensures i == j
  {
    LessTotal(key(range[i]), key(range[j]));
  }

  /** With distinct keys the chosen value does not depend on the order of the range. */
  lemma SelectionIgnoresOrder<V>(range: seq<V>, other: seq<V>, key: V -> string, text: string, exact: bool,
                                 i: nat, j: nat)
    requires multiset(range) == multiset(other)
    requires forall x, y | x in range && y in range && key(x) == key(y) :: x == y
    requires IsSelection(range, key, text, exact, i) && IsSelection(other, key, text, exact, j)
    ensures range[i] == other[j]
  {
    assert range[i] in multiset(range) && other[j] in multiset(other);
    assert range[i] in multiset(other) && other[j] in multiset(range);
    var i' :| 0 <= i' < |other| && other[i'] == range[i];
    var j' :| 0 <= j' < |range| && range[j'] == other[j];
    LessTotal(key(range[i]), key(other[j]));
  }

  /** Both orders find something or neither does. */
  lemma AcceptanceIgnoresOrder<V>(range: seq<V>, other: seq<V>, key: V -> string, text: string, exact: bool)
    requires multiset(range) == multiset(other)
    ensures (exists i :: 0 <= i < |range| && Accepts(key(range[i]), text, exact)) <==>
            (exists i :: 0 <= i < |other| && Accepts(key(other[i]), text, exact))
  {
    if i :| 0 <= i < |range| && Accepts(key(range[i]), text, exact) {
      assert range[i] in multiset(range) && range[i] in multiset(other);
      var j :| 0 <= j < |other| && other[j] == range[i];
    }
    if i :| 0 <= i < |other| && Accepts(key(other[i]), text, exact) {
      assert other[i] in multiset(other) && other[i] in multiset(range);
      var j :| 0 <= j < |range| && range[j] == other[i];
    }
  }

  // ---------- Exact names against abbreviations ----------

  /** Whenever a key extends another, apart from case, some key equal to the shorter one apart from case comes
      before it in byte order. */
  ghost predicate ExactKeyComesFirst<V>(range: seq<V>, key: V -> string) {
    forall x, y | x in range && y in range && |key(x)| < |key(y)| && IStartsWith(key(y), key(x)) ::
      exists z :: z in range && IEquals(key(z), key(x)) && Less(key(z), key(y))
  }

  /** Whenever some key equals the text apart from case, an abbreviated search returns such an element. */
  ghost predicate ExactAlwaysWins<V>(range: seq<V>, key: V -> string) {
    forall text: string, pos: nat |
      IsSelection(range, key, text, false, pos) && (exists x :: x in range && IEquals(key(x), text)) ::
      IEquals(key(range[pos]), text)
  }

  /** No key has a capital letter. */
  predicate CaseFolded(s: string) {
    forall i | 0 <= i < |s| :: !('A' <= s[i] <= 'Z')
  }

  /** The accepted element with the least key, if any key is accepted. */
  lemma {:induction false} SelectionExists<V>(range: seq<V>, key: V -> string, text: string, exact: bool, x: V)
    requires x in range && Accepts(key(x), text, exact)
    ensures exists i: nat :: IsSelection(range, key, text, exact, i)
    decreases |range|
  {
    var n := |range| - 1;
    var init := range[..n];
    assert range == init + [range[n]];
    if y :| y in init && Accepts(key(y), text, exact) {
      SelectionExists(init, key, text, exact, y);
      var i: nat :| IsSelection(init, key, text, exact, i);
      assert range[i] == init[i];
      if Accepts(key(range[n]), text, exact) && Less(key(range[n]), key(range[i])) {
        forall j | 0 <= j < |range| && Accepts(key(range[j]), text, exact)
          ensures !Less(key(range[j]), key(range[n])) && (j < n ==> key(range[j]) != key(range[n]))
        {
          LessIrreflexive(key(range[n]));
          if j < n {
            assert range[j] == init[j];
            if Less(key(range[j]), key(range[n])) {
              LessTransitive(key(range[j]), key(range[n]), key(range[i]));
            }
          }
        }
        assert IsSelection(range, key, text, exact, n);
      } else {
        assert forall j | 0 <= j < n :: range[j] == init[j];
        assert IsSelection(range, key, text, exact, i);
      }
    } else {
      assert forall j | 0 <= j < n :: range[j] in init;
      LessIrreflexive(key(range[n]));
      assert IsSelection(range, key, text, exact, n);
    }
  }

  /** Exact names win for every search text if and only if an exact key comes before each extension. */
  lemma ExactWinsIffExactKeyComesFirst<V>(range: seq<V>, key: V -> string)
    ensures ExactAlwaysWins(range, key) <==> ExactKeyComesFirst(range, key)
  {
    if ExactAlwaysWins(range, key) {
      forall x, y | x in range && y in range && |key(x)| < |key(y)| && IStartsWith(key(y), key(x))
        ensures exists z :: z in range && IEquals(key(z), key(x)) && Less(key(z), key(y))
      {
        assert IEquals(key(x), key(x));
        SelectionExists(range, key, key(x), false, x);
        var i: nat :| IsSelection(range, key, key(x), false, i);
        assert IEquals(key(range[i]), key(x));
        LessTotal(key(range[i]), key(y));
      }
    }
    if ExactKeyComesFirst(range, key) {
      forall text: string, pos: nat |
        IsSelection(range, key, text, false, pos) && (exists x :: x in range && IEquals(key(x), text))
        ensures IEquals(key(range[pos]), text)
      {
        var x :| x in range && IEquals(key(x), text);
        SelectedIsExact(range, key, text, pos, x);
      }
    }
  }

  lemma SelectedIsExact<V>(range: seq<V>, key: V -> string, text: string, pos: nat, x: V)
    requires ExactKeyComesFirst(range, key) && x in range && IEquals(key(x), text)
    ensures IsSelection(range, key, text, false, pos) ==> IEquals(key(range[pos]), text)
  {
    if pos < |range| && IStartsWith(key(range[pos]), text) && |text| < |key(range[pos])| {
      var y := range[pos];
      assert forall i | 0 <= i < |key(x)| :: Up(key(y)[i]) == Up(text[i]) == Up(key(x)[i]);
      var z :| z in range && IEquals(key(z), key(x)) && Less(key(z), key(y));
      var j :| 0 <= j < |range| && range[j] == z;
      assert IEquals(key(z), text);
    }
  }

  /** Keys without capitals put every extension later, so exact names always win among them. */
  lemma FoldedKeysLetExactWin<V>(range: seq<V>, key: V -> string)
    requires forall x | x in range :: CaseFolded(key(x))
    ensures ExactAlwaysWins(range, key)
  {
    hide ExactAlwaysWins, Less;
    forall x, y | x in range && y in range && |key(x)| < |key(y)| && IStartsWith(key(y), key(x))
      ensures exists z :: z in range && IEquals(key(z), key(x)) && Less(key(z), key(y))
    {
      forall i | 0 <= i < |key(x)| ensures key(x)[i] == key(y)[i] {
        assert Up(key(y)[i]) == Up(key(x)[i]);
      }
      PrefixComesFirst(key(x), key(y));
      assert IEquals(key(x), key(x));
    }
    ExactWinsIffExactKeyComesFirst(range, key);
  }

  /** Mixed case can lose: searching "ab" among "ab" and "ABC" yields "ABC". */
  lemma MixedCaseLetsAbbreviationWin()
    ensures var key := (s: string) => s;
            IsSelection(["ab", "ABC"], key, "ab", false, 1) && !IEquals("ABC", "ab")
            && !ExactAlwaysWins(["ab", "ABC"], key)
  {
    var key := (s: string) => s;
    var range := ["ab", "ABC"];
    LessIrreflexive("ABC");
    assert Less("ABC", "ab") && !Less("ab", "ABC");
    assert IEquals("ab", "ab") && IStartsWith("ABC", "ab");
    assert IsSelection(range, key, "ab", false, 1);
    assert range[0] in range && IEquals(key(range[0]), "ab");
  }
}
