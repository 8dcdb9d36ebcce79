/** The two-level attribute store and its JSON form. */
module Attributes {
  import opened Options
  import opened JsonValues

  type Nested<T> = map<string, map<string, T>>
  type Flat<T> = imap<(string, string), T>

  /** The store as one map from category and name. */
  ghost function Flatten<T>(m: Nested<T>): Flat<T> {
    imap e: (string, string) | e.0 in m && e.1 in m[e.0] :: m[e.0][e.1]
  }

  ghost predicate NoEmptyCategory<T>(m: Nested<T>) {
    forall c | c in m :: m[c] != map[]
  }

  // ---------- JSON ----------

  /** One entry written: a missing category is created. */
  function Put<T>(m: Nested<T>, c: string, n: string, v: T): Nested<T> {
    m[c := (if c in m then m[c] else map[])[n := v]]
  }

  datatype Loaded<T> = Loaded(store: Nested<T>, ok: bool)

  /** One entry of one category. The value is converted first, where None is a conversion that throws. The key of
      an entry exists only in an object; asking for it elsewhere throws, the category's before anything is stored,
      the name's after the category was created. */
  ghost function LoadEntry<T>(m: Nested<T>, c: Option<string>, i: Item, dec: Json -> Option<T>): Loaded<T> {
    var v := dec(i.value);
    if v.None? || c.None? then Loaded(m, false)
    else if i.key.None? then Loaded(if c.value in m then m else m[c.value := map[]], false)
    else Loaded(Put(m, c.value, i.key.value, v.value), true)
  }

  /** The inner loop of deserialize on the entries of one category; a throw skips the rest. */
  ghost function LoadCategory<T>(m: Nested<T>, c: Option<string>, items: seq<Item>, dec: Json -> Option<T>): Loaded<T> {
    if items == [] then Loaded(m, true)
    else
      var l := LoadCategory(m, c, items[..|items| - 1], dec);
      if l.ok then LoadEntry(l.store, c, items[|items| - 1], dec) else l
  }

  /** The outer loop of deserialize. */
  ghost function LoadItems<T>(items: seq<Item>, dec: Json -> Option<T>): Loaded<T> {
    if items == [] then Loaded(map[], true)
    else
      var l := LoadItems(items[..|items| - 1], dec);
      var i := items[|items| - 1];
      if l.ok then LoadCategory(l.store, i.key, Items(i.value), dec) else l
  }

  ghost function Load<T>(j: Json, dec: Json -> Option<T>): Loaded<T> {
    LoadItems(Items(j), dec)
  }

  function Encoded<T>(names: map<string, T>, enc: T -> Json): map<string, Json> {
    map n | n in names :: enc(names[n])
  }

  /** The JSON of a store: null when it has no entry. */
  function Unload<T>(m: Nested<T>, enc: T -> Json): Json {
    var full := map c | c in m && m[c] != map[] :: Obj(Encoded(m[c], enc));
    if full == map[] then Null else Obj(full)
  }

  /** Collects the keys an unordered map yields, in any order. */
  method ListKeys(keys: set<string>) returns (r: seq<string>)
    ensures forall i, j | 0 <= i < j < |r| :: r[i] != r[j]
    ensures forall k :: k in r <==> k in keys
  {
    r := [];
    var todo := keys;
    while todo != {}
      invariant todo <= keys
      invariant forall k :: k in r <==> k in keys && k !in todo
      invariant forall i, j | 0 <= i < j < |r| :: r[i] != r[j]
      decreases todo
    {
      var k :| k in todo;
      assert forall i | 0 <= i < |r| :: r[i] in r;
      r, todo := r + [k], todo - {k};
    }
  }

  // ---------- The store ----------

  class AttributeManager<T(==)> {
    var attributes: Nested<T>

    constructor ()
      ensures attributes == map[]
    {
      attributes := map[];
    }

    method Get(category: string, name: string, defaultValue: T) returns (v: T)
      ensures var flat := Flatten(attributes);
              v == if (category, name) in flat then flat[(category, name)] else defaultValue
    {
      if category in attributes {
        if name in attributes[category] {
          return attributes[category][name];
        }
      }
      v := defaultValue;
    }

    method Set(category: string, name: string, value: T)
      modifies this
      ensures attributes == Put(old(attributes), category, name, value)
      ensures Flatten(attributes) == Flatten(old(attributes))[(category, name) := value]
      ensures NoEmptyCategory(old(attributes)) ==> NoEmptyCategory(attributes)
    {
      var names := if category in attributes then attributes[category] else map[];
      attributes := attributes[category := names[name := value]];
      assert name in attributes[category];
      PutFlat(old(attributes), category, name, value);
    }

    method Remove(category: string, name: string)
      modifies this
      ensures attributes == Removed(old(attributes), category, name)
      ensures Flatten(attributes) == Flatten(old(attributes)) - {(category, name)}
      ensures NoEmptyCategory(old(attributes)) ==> NoEmptyCategory(attributes)
    {
      if category in attributes {
        attributes := attributes[category := attributes[category] - {name}];
        if attributes[category] == map[] {
          attributes := attributes - {category};
        }
      }
      RemovedFlat(old(attributes), category, name);
    }

    method Has(category: string, name: string) returns (b: bool)
      ensures b <==> (category, name) in Flatten(attributes)
    {
      if category in attributes {
        return name in attributes[category];
      }
      b := false;
    }

    /** In any order, each once: the categories of the stored entries, if none is stored empty. */
    method ListCategories() returns (categories: seq<string>)
      ensures forall i, j | 0 <= i < j < |categories| :: categories[i] != categories[j]
      ensures forall c :: c in categories <==> c in attributes
      ensures NoEmptyCategory(attributes) ==>
                forall c :: c in categories <==> exists n :: (c, n) in Flatten(attributes)
    {
      categories := ListKeys(attributes.Keys);
      if NoEmptyCategory(attributes) {
        CategoriesOfEntries(attributes);
      }
    }

    /** In any order, each once: the names stored under the category. */
    method ListEntries(category: string) returns (entries: seq<string>)
      ensures forall i, j | 0 <= i < j < |entries| :: entries[i] != entries[j]
      ensures forall n :: n in entries <==> (category, n) in Flatten(attributes)
    {
      entries := [];
      if category in attributes {
        entries := ListKeys(attributes[category].Keys);
      }
    }

    method EncodeCategory(category: map<string, T>, enc: T -> Json) returns (names: map<string, Json>)
      ensures names == Encoded(category, enc)
    {
      names := map[];
      var rest := category.Keys;
      while rest != {}
        invariant rest <= category.Keys
        invariant names.Keys == category.Keys - rest
        invariant forall n | n in names :: names[n] == enc(category[n])
        decreases rest
      {
        var n :| n in rest;
        names, rest := names[n := enc(category[n])], rest - {n};
      }
    }

    method Serialize(enc: T -> Json) returns (j: Json)
      ensures j == Unload(attributes, enc)
    {
      hide Encoded;
      var out: map<string, Json> := map[];
      var todo := attributes.Keys;
      while todo != {}
        invariant todo <= attributes.Keys
        invariant forall c :: c in out <==> c in attributes.Keys - todo && attributes[c] != map[]
        invariant forall c | c in out :: out[c] == Obj(Encoded(attributes[c], enc))
        decreases todo
      {
        var c :| c in todo;
        var names := EncodeCategory(attributes[c], enc);
        if attributes[c] != map[] {
          out := out[c := Obj(names)];
        }
        todo := todo - {c};
      }
      j := if out == map[] then Null else Obj(out);
    }

    /** Returns false where a conversion or asking a nameless entry for its key throws; what was stored stays. */
    method Deserialize(j: Json, dec: Json -> Option<T>) returns (ok: bool)
      modifies this
      ensures Loaded(attributes, ok) == Load(j, dec)
    {
      hide LoadCategory, Items;
      attributes := map[];
      var items := Iterate(j);
      var i := 0;
      while i < |items|
        invariant i <= |items|
        invariant Loaded(attributes, true) == LoadItems(items[..i], dec)
      {
        assert items[..i + 1][..i] == items[..i];
        ok := StoreCategory(items[i].key, items[i].value, dec);
        if !ok {
          ThrowEndsLoad(items, i + 1, dec);
          return;
        }
        i := i + 1;
      }
      assert items[..i] == items;
      ok := true;
    }

    method StoreCategory(category: Option<string>, value: Json, dec: Json -> Option<T>) returns (ok: bool)
      modifies this
      ensures Loaded(attributes, ok) == LoadCategory(old(attributes), category, Items(value), dec)
    {
      hide LoadEntry, Items;
      var entries := Iterate(value);
      var k := 0;
      while k < |entries|
        invariant k <= |entries|
        invariant Loaded(attributes, true) == LoadCategory(old(attributes), category, entries[..k], dec)
      {
        assert entries[..k + 1][..k] == entries[..k];
        ok := StoreEntry(category, entries[k], dec);
        if !ok {
          ThrowEndsCategory(old(attributes), category, entries, k + 1, dec);
          return;
        }
        k := k + 1;
      }
      assert entries[..k] == entries;
      ok := true;
    }

    method StoreEntry(category: Option<string>, entry: Item, dec: Json -> Option<T>) returns (ok: bool)
      modifies this
      ensures Loaded(attributes, ok) == LoadEntry(old(attributes), category, entry, dec)
    {
      var v := dec(entry.value);
      if v.None? || category.None? {
        return false;
      }
      var c := category.value;
      if c !in attributes {
        attributes := attributes[c := map[]];
      }
      if entry.key.None? {
        return false;
      }
      attributes := attributes[c := attributes[c][entry.key.value := v.value]];
      ok := true;
    }
  }

  lemma {:induction false} ThrowEndsLoad<T>(items: seq<Item>, n: nat, dec: Json -> Option<T>)
    requires n <= |items| && !LoadItems(items[..n], dec).ok
    ensures LoadItems(items, dec) == LoadItems(items[..n], dec)
  {
    if n < |items| {
      assert items[..|items| - 1][..n] == items[..n];
      ThrowEndsLoad(items[..|items| - 1], n, dec);
    } else {
      assert items[..n] == items;
    }
  }

  lemma {:induction false} ThrowEndsCategory<T>(m: Nested<T>, c: Option<string>, items: seq<Item>, n: nat,
                                                dec: Json -> Option<T>)
    requires n <= |items| && !LoadCategory(m, c, items[..n], dec).ok
    ensures LoadCategory(m, c, items, dec) == LoadCategory(m, c, items[..n], dec)
  {
    if n < |items| {
      assert items[..|items| - 1][..n] == items[..n];
      ThrowEndsCategory(m, c, items[..|items| - 1], n, dec);
    } else {
      assert items[..n] == items;
    }
  }

  // ---------- Refinement of the flat map ----------

  /** The store after remove: a category goes with its last entry. */
  function Removed<T(==)>(m: Nested<T>, c: string, n: string): Nested<T> {
    if c !in m then m
    else if m[c] - {n} == map[] then m - {c}
    else m[c := m[c] - {n}]
  }

  lemma PutFlat<T>(m: Nested<T>, c: string, n: string, v: T)
    ensures Flatten(Put(m, c, n, v)) == Flatten(m)[(c, n) := v]
  {
  }

  lemma RemovedFlat<T>(m: Nested<T>, c: string, n: string)
    ensures Flatten(Removed(m, c, n)) == Flatten(m) - {(c, n)}
  {
    if c in m {
      assert forall x | x in m[c] && x != n :: x in m[c] - {n};
    }
  }

  lemma CategoriesOfEntries<T>(m: Nested<T>)
    requires NoEmptyCategory(m)
    ensures forall c :: c in m <==> exists n :: (c, n) in Flatten(m)
  {
    forall c | c in m ensures exists n :: (c, n) in Flatten(m) {
      var n :| n in m[c];
      assert (c, n) in Flatten(m);
    }
  }

  // ---------- What a load does ----------

  ghost predicate AllDecode<T>(names: map<string, Json>, dec: Json -> Option<T>) {
    forall n | n in names :: dec(names[n]).Some?
  }

  /** What a category's names are stored as: those before the first value whose conversion throws. */
  ghost function Decoded<T>(names: map<string, Json>, dec: Json -> Option<T>): map<string, T> {
    map n | n in names && dec(names[n]).Some? && Precedes(names, n, dec) :: dec(names[n]).value
  }

  ghost predicate Precedes<T>(names: map<string, Json>, n: string, dec: Json -> Option<T>) {
    forall f | f in names && dec(names[f]).None? :: Text.Less(n, f)
  }

  /** A category value that makes the load throw: it has entries without names or a value that does not convert. */
  ghost predicate Bad<T>(v: Json, dec: Json -> Option<T>) {
    if v.Obj? then !AllDecode(v.members, dec) else !Empty(v)
  }

  /** A JSON value deserialize accepts: its categories are empty or objects whose values convert, or it has
      nothing but empty values. */
  ghost predicate WellShaped<T>(j: Json, dec: Json -> Option<T>) {
    forall i | i in Items(j) :: Empty(i.value) || (j.Obj? && i.value.Obj? && AllDecode(i.value.members, dec))
  }

  /** Categories are loaded in byte order, up to and into the first bad one. */
  ghost predicate Reached<T>(members: map<string, Json>, c: string, dec: Json -> Option<T>) {
    forall d | d in members && Bad(members[d], dec) :: c == d || Text.Less(c, d)
  }

  /** The entries a load stores: those before the first that fails, by category and name. */
  ghost function EntriesOf<T>(j: Json, dec: Json -> Option<T>): Flat<T> {
    imap e: (string, string) |
      j.Obj? && e.0 in j.members && j.members[e.0].Obj? && Reached(j.members, e.0, dec)
      && e.1 in j.members[e.0].members && dec(j.members[e.0].members[e.1]).Some?
      && Precedes(j.members[e.0].members, e.1, dec)
      :: dec(j.members[e.0].members[e.1]).value
  }

  /** A category value whose first entry converts but has no name: the category is created before the throw. */
  ghost predicate Shell<T>(v: Json, dec: Json -> Option<T>) {
    !v.Obj? && !Empty(v) && dec(Items(v)[0].value).Some?
  }

  /** The first failure of the load is such an entry, inside an object. */
  ghost predicate LeavesEmpty<T>(j: Json, dec: Json -> Option<T>) {
    j.Obj? && exists c | c in j.members :: Shell(j.members[c], dec) && Reached(j.members, c, dec)
  }

  /** The store after some entries, all from `names`, of category c. */
  ghost predicate Named<T>(l: Loaded<T>, m: Nested<T>, c: string, items: seq<Item>, names: map<string, Json>,
                           dec: Json -> Option<T>)
  {
    l.ok && if items == [] then l.store == m
            else c in l.store && l.store == m[c := l.store[c]]
                 && var base := if c in m then m[c] else map[];
                    && (forall n :: n in l.store[c] <==>
                          n in base || Item(Some(n), if n in names then names[n] else Null) in items)
                    && (forall n | n in l.store[c] ::
                         if n in names && Item(Some(n), names[n]) in items then dec(names[n]) == Some(l.store[c][n])
                         else n in base && l.store[c][n] == base[n])
  }

  lemma NamedSnoc<T>(l: Loaded<T>, m: Nested<T>, c: string, init: seq<Item>, last: Item, names: map<string, Json>,
                     dec: Json -> Option<T>)
    requires Named(l, m, c, init, names, dec)
    requires last.key.Some? && last.key.value in names && last.value == names[last.key.value]
    requires dec(last.value).Some?
    ensures Named(LoadEntry(l.store, Some(c), last, dec), m, c, init + [last], names, dec)
  {
    assert forall i :: i in init + [last] <==> i in init || i == last;
  }

  lemma {:induction false} NamedCategory<T>(m: Nested<T>, c: string, items: seq<Item>, names: map<string, Json>,
                                            dec: Json -> Option<T>)
    requires forall i | i in items :: i.key.Some? && i.key.value in names && i.value == names[i.key.value]
    requires forall i | i in items :: dec(i.value).Some?
    ensures LoadCategory(m, Some(c), items, dec).ok
    ensures Named(LoadCategory(m, Some(c), items, dec), m, c, items, names, dec)
  {
    if items != [] {
      hide LoadEntry;
      var init, last := items[..|items| - 1], items[|items| - 1];
      assert last in items && forall i | i in init :: i in items;
      NamedCategory(m, c, init, names, dec);
      NamedSnoc(LoadCategory(m, Some(c), init, dec), m, c, init, last, names, dec);
      hide Named;
      assert items == init + [last];
    }
  }

  /** How far the inner loop gets: all items, or the first that does not convert. */
  lemma FirstUnread<T>(items: seq<Item>, dec: Json -> Option<T>) returns (p: nat)
    ensures p <= |items| && forall i | 0 <= i < p :: dec(items[i].value).Some?
    ensures p < |items| ==> dec(items[p].value).None?
  {
    p := 0;
    while p < |items| && dec(items[p].value).Some?
      invariant p <= |items| && forall i | 0 <= i < p :: dec(items[i].value).Some?
    {
      p := p + 1;
    }
  }

  /** An object as category: its names before the first value that does not convert. */
  lemma ObjectCategory<T>(m: Nested<T>, c: string, names: map<string, Json>, dec: Json -> Option<T>)
    requires c !in m
    ensures LoadCategory(m, Some(c), Items(Obj(names)), dec) ==
            Loaded(Next(m, c, Obj(names), dec), AllDecode(names, dec))
  {
    hide LoadCategory, Decoded, Named, Items;
    ItemsWalk(names);
    var items := Items(Obj(names));
    var p := FirstUnread(items, dec);
    var some := items[..p];
    assert forall i | i in some :: i in items;
    NamedCategory(m, c, some, names, dec);
    if p < |items| {
      UnreadEnds(m, c, items, p, dec);
    } else {
      assert some == items;
    }
    AllReadIff(items, names, p, dec);
    NamedIsDecoded(LoadCategory(m, Some(c), some, dec), m, c, items, names, p, dec);
  }

  lemma UnreadEnds<T>(m: Nested<T>, c: string, items: seq<Item>, p: nat, dec: Json -> Option<T>)
    requires p < |items| && dec(items[p].value).None? && LoadCategory(m, Some(c), items[..p], dec).ok
    ensures LoadCategory(m, Some(c), items, dec) == Loaded(LoadCategory(m, Some(c), items[..p], dec).store, false)
  {
    assert items[..p + 1][..p] == items[..p];
    ThrowEndsCategory(m, Some(c), items, p + 1, dec);
  }

  lemma AllReadIff<T>(items: seq<Item>, names: map<string, Json>, p: nat, dec: Json -> Option<T>)
    requires Complete(items, names) && p <= |items|
    requires (forall i | 0 <= i < p :: dec(items[i].value).Some?) && (p < |items| ==> dec(items[p].value).None?)
    ensures AllDecode(names, dec) <==> p == |items|
  {
    if p == |items| {
      forall n | n in names ensures dec(names[n]).Some? {
        var i :| 0 <= i < |items| && items[i].key == Some(n);
      }
    } else {
      assert items[p].key.value in names;
    }
  }

  /** The names met before the first failure are those that precede every failing name. */
  lemma MetIffPrecedes<T>(items: seq<Item>, names: map<string, Json>, p: nat, n: string, dec: Json -> Option<T>)
    requires Complete(items, names) && p <= |items| && n in names
    requires (forall i | 0 <= i < p :: dec(items[i].value).Some?) && (p < |items| ==> dec(items[p].value).None?)
    ensures Item(Some(n), names[n]) in items[..p] <==> dec(names[n]).Some? && Precedes(names, n, dec)
  {
    var k :| 0 <= k < |items| && items[k].key == Some(n);
    assert items[k] == Item(Some(n), names[n]);
    if k < p {
      assert items[..p][k] == items[k];
      forall f | f in names && dec(names[f]).None? ensures Text.Less(n, f) {
        var l :| 0 <= l < |items| && items[l].key == Some(f);
        assert p <= l;
      }
    } else {
      var f := items[p].key.value;
      assert f in names && dec(names[f]).None?;
      if Text.Less(n, f) {
        Text.LessAsymmetric(n, f);
      }
      forall i | 0 <= i < p ensures items[i].key != Some(n) {
        WalkMeetsOnce(items, names, i, k);
      }
    }
  }

  lemma NamedIsDecoded<T>(l: Loaded<T>, m: Nested<T>, c: string, items: seq<Item>, names: map<string, Json>, p: nat,
                          dec: Json -> Option<T>)
    requires c !in m && Complete(items, names) && p <= |items| && Named(l, m, c, items[..p], names, dec)
    requires (forall i | 0 <= i < p :: dec(items[i].value).Some?) && (p < |items| ==> dec(items[p].value).None?)
    ensures l.store == Next(m, c, Obj(names), dec)
  {
    hide Decoded, Precedes, Walk;
    var some, decoded := items[..p], Decoded(names, dec);
    forall n | n in names
      ensures n in decoded <==> Item(Some(n), names[n]) in some
      ensures n in decoded ==> dec(names[n]) == Some(decoded[n])
    {
      MetIffPrecedes(items, names, p, n, dec);
      InDecoded(names, n, dec);
    }
    SomeAreNamed(items, names, p);
    forall n | n in decoded ensures n in names {
      InDecoded(names, n, dec);
    }
    if some == [] {
      assert forall n :: n !in decoded;
    } else {
      assert some[0] in some && some[0].key.value in decoded;
      NamedEntries(l, m, c, some, names, dec, decoded);
    }
  }

  lemma InDecoded<T>(names: map<string, Json>, n: string, dec: Json -> Option<T>)
    ensures var d := Decoded(names, dec);
            && (n in d <==> n in names && dec(names[n]).Some? && Precedes(names, n, dec))
            && (n in d ==> dec(names[n]) == Some(d[n]))
  {
    hide Precedes;
  }

  lemma NamedEntries<T>(l: Loaded<T>, m: Nested<T>, c: string, some: seq<Item>, names: map<string, Json>,
                        dec: Json -> Option<T>, decoded: map<string, T>)
    requires c !in m && some != [] && Named(l, m, c, some, names, dec)
    requires forall i | i in some :: i.key.Some? && i.key.value in names && i.value == names[i.key.value]
    requires forall n :: n in decoded <==> n in names && Item(Some(n), names[n]) in some
    requires forall n | n in decoded :: dec(names[n]) == Some(decoded[n])
    ensures c in l.store && l.store == m[c := decoded]
  {
    var stored := l.store[c];
    forall n ensures n in stored <==> n in decoded {
      assert n !in names ==> Item(Some(n), Null) !in some;
    }
    assert stored == decoded;
  }

  lemma SomeAreNamed(items: seq<Item>, names: map<string, Json>, p: nat)
    requires Walk(items, names) && p <= |items|
    ensures forall i | i in items[..p] :: i.key.Some? && i.key.value in names && i.value == names[i.key.value]
  {
  }

  lemma EveryMemberIsMet(members: map<string, Json>, n: string)
    requires n in members
    ensures Item(Some(n), members[n]) in Items(Obj(members))
  {
    var keys := Text.Ascending(members.Keys);
    assert n in keys;
    var k :| 0 <= k < |keys| && keys[k] == n;
    assert Items(Obj(members))[k] == Item(Some(n), members[n]);
  }

  lemma {:induction false} NamelessCategory<T>(m: Nested<T>, c: string, items: seq<Item>, dec: Json -> Option<T>)
    requires items != [] && forall i | i in items :: i.key.None?
    ensures LoadCategory(m, Some(c), items, dec) ==
            Loaded(if c in m || dec(items[0].value).None? then m else m[c := map[]], false)
  {
    assert items[|items| - 1] in items;
    if |items| > 1 {
      NamelessCategory(m, c, items[..|items| - 1], dec);
    } else {
      assert items[..0] == [];
    }
  }

  lemma {:induction false} KeylessCategory<T>(m: Nested<T>, items: seq<Item>, dec: Json -> Option<T>)
    ensures LoadCategory(m, None, items, dec) == Loaded(m, items == [])
  {
    if items != [] {
      KeylessCategory(m, items[..|items| - 1], dec);
    }
  }

  /** Outside an object nothing is ever stored. */
  lemma {:induction false} KeylessLoad<T>(items: seq<Item>, dec: Json -> Option<T>)
    requires forall i | i in items :: i.key.None?
    ensures LoadItems(items, dec) == Loaded(map[], forall i | i in items :: Empty(i.value))
  {
    if items != [] {
      var init, last := items[..|items| - 1], items[|items| - 1];
      assert last in items && forall i | i in init :: i in items;
      assert forall i :: i in items <==> i in init || i == last;
      KeylessLoad(init, dec);
      KeylessCategory(map[], Items(last.value), dec);
    }
  }

  /** Members of an object in byte order, as the outer loop meets them. */
  ghost predicate Walk(items: seq<Item>, members: map<string, Json>) {
    && (forall i | 0 <= i < |items| ::
         items[i].key.Some? && items[i].key.value in members && items[i].value == members[items[i].key.value])
    && (forall i, k | 0 <= i < k < |items| :: Text.Less(items[i].key.value, items[k].key.value))
  }

  lemma ItemsWalk(members: map<string, Json>)
    ensures Walk(Items(Obj(members)), members)
    ensures forall c | c in members ::
              exists i :: 0 <= i < |Items(Obj(members))| && Items(Obj(members))[i].key == Some(c)
  {
    hide Walk, Items;
    SortedWalk(members);
    forall c | c in members
      ensures exists i :: 0 <= i < |Items(Obj(members))| && Items(Obj(members))[i].key == Some(c)
    {
      EveryMemberIsMet(members, c);
      var i :| 0 <= i < |Items(Obj(members))| && Items(Obj(members))[i] == Item(Some(c), members[c]);
    }
  }

  lemma SortedWalk(members: map<string, Json>)
    ensures Walk(Items(Obj(members)), members)
  {
    hide Text.Less, Items;
    Text.AscendingIsSorted(members.Keys);
    ItemsOfObject(members);
  }

  lemma ItemsOfObject(members: map<string, Json>)
    ensures var keys := Text.Ascending(members.Keys); var items := Items(Obj(members));
            |items| == |keys| && forall i | 0 <= i < |keys| :: items[i].key == Some(keys[i])
  {
  }

  /** A category of which something is stored. */
  ghost predicate Stored<T>(v: Json, dec: Json -> Option<T>) {
    v.Obj? && Decoded(v.members, dec) != map[]
  }

  /** The store after one more category, but for an empty one. */
  ghost function Next<T>(m: Nested<T>, c: string, v: Json, dec: Json -> Option<T>): Nested<T> {
    if Stored(v, dec) then m[c := Decoded(v.members, dec)] else m
  }

  /** Category c with entries to store is among the items. */
  ghost predicate Met<T>(items: seq<Item>, c: string, dec: Json -> Option<T>) {
    exists i :: 0 <= i < |items| && items[i].key == Some(c) && Stored(items[i].value, dec)
  }

  lemma MetSnoc<T>(init: seq<Item>, last: Item, c: string, dec: Json -> Option<T>)
    ensures Met(init + [last], c, dec) <==> Met(init, c, dec) || (last.key == Some(c) && Stored(last.value, dec))
  {
    hide Stored;
    var items := init + [last];
    if i :| 0 <= i < |init| && init[i].key == Some(c) && Stored(init[i].value, dec) {
      assert items[i] == init[i];
    }
    assert items[|init|] == last;
  }

  /** The store after some categories, but for an empty one. */
  ghost predicate Holds<T>(m: Nested<T>, items: seq<Item>, members: map<string, Json>, dec: Json -> Option<T>) {
    && (forall c :: c in m <==> Met(items, c, dec))
    && (forall c | c in m :: c in members && Stored(members[c], dec) && m[c] == Decoded(members[c].members, dec))
  }

  /** One category: what it stores, whether an empty category stays, and whether it throws. */
  lemma OneCategory<T>(m: Nested<T>, init: seq<Item>, last: Item, members: map<string, Json>, dec: Json -> Option<T>)
    requires Walk(init + [last], members) && Holds(m, init, members, dec)
    ensures last.key.Some?
    ensures var c := last.key.value; var m' := Next(m, c, last.value, dec);
            && LoadCategory(m, last.key, Items(last.value), dec) ==
               Loaded(if Shell(last.value, dec) then m'[c := map[]] else m', !Bad(last.value, dec))
            && Holds(m', init + [last], members, dec)
            && (Shell(last.value, dec) ==> c !in m')
  {
    hide LoadCategory, Walk, Next, Shell, Bad, Items;
    FreshCategory(init, last, members, dec);
    LastIsMember(init, last, members);
    CategoryLoads(m, last.key.value, last.value, dec);
    NextHolds(m, init, last, members, dec);
  }

  lemma CategoryLoads<T>(m: Nested<T>, c: string, v: Json, dec: Json -> Option<T>)
    requires c !in m
    ensures var m' := Next(m, c, v, dec);
            LoadCategory(m, Some(c), Items(v), dec) ==
            Loaded(if Shell(v, dec) then m'[c := map[]] else m', !Bad(v, dec))
  {
    hide LoadCategory, Decoded, AllDecode;
    if v.Obj? {
      ObjectCategory(m, c, v.members, dec);
    } else if Empty(v) {
      NothingToLoad(m, Some(c), dec);
    } else {
      NamelessCategory(m, c, Items(v), dec);
    }
  }

  lemma NextHolds<T>(m: Nested<T>, init: seq<Item>, last: Item, members: map<string, Json>, dec: Json -> Option<T>)
    requires last.key.Some? && last.key.value in members && last.value == members[last.key.value]
    requires Holds(m, init, members, dec) && !Met(init, last.key.value, dec)
    ensures var c := last.key.value; var m' := Next(m, c, last.value, dec);
            Holds(m', init + [last], members, dec) && (Shell(last.value, dec) ==> c !in m')
  {
    hide Decoded, Met;
    forall d
      ensures Met(init + [last], d, dec) <==> Met(init, d, dec) || (last.key == Some(d) && Stored(last.value, dec))
    {
      MetSnoc(init, last, d, dec);
    }
  }

  lemma NothingToLoad<T>(m: Nested<T>, c: Option<string>, dec: Json -> Option<T>)
    ensures LoadCategory(m, c, [], dec) == Loaded(m, true)
  {
  }

  lemma LastIsMember(init: seq<Item>, last: Item, members: map<string, Json>)
    requires Walk(init + [last], members)
    ensures last.key.Some? && last.key.value in members && last.value == members[last.key.value]
  {
    assert (init + [last])[|init|] == last;
  }

  lemma FreshCategory<T>(init: seq<Item>, last: Item, members: map<string, Json>, dec: Json -> Option<T>)
    requires Walk(init + [last], members)
    ensures last.key.Some? && !Met(init, last.key.value, dec)
  {
    var items := init + [last];
    assert items[|init|] == last;
    if i :| 0 <= i < |init| && init[i].key == last.key {
      assert Text.Less(items[i].key.value, items[|init|].key.value) && items[i] == init[i];
      Text.LessIrreflexive(last.key.value);
    }
  }

  lemma {:induction false} GoodPrefix<T>(items: seq<Item>, members: map<string, Json>, dec: Json -> Option<T>)
    requires Walk(items, members)
    requires forall i | 0 <= i < |items| :: !Bad(items[i].value, dec)
    ensures LoadItems(items, dec).ok && Holds(LoadItems(items, dec).store, items, members, dec)
  {
    if items != [] {
      hide Bad, Holds, LoadCategory, Walk, Next, Items;
      var n := |items| - 1;
      var init, last := items[..n], items[n];
      assert items == init + [last];
      WalkPrefix(items, members, n);
      GoodPrefix(init, members, dec);
      OneCategory(LoadItems(init, dec).store, init, last, members, dec);
      BadIfShell(last.value, dec);
    }
  }

  lemma BadIfShell<T>(v: Json, dec: Json -> Option<T>)
    ensures Shell(v, dec) ==> Bad(v, dec)
  {
  }

  /** How far the outer loop gets: all items, or the first bad one. */
  lemma FirstBad<T>(items: seq<Item>, dec: Json -> Option<T>) returns (b: nat)
    ensures b <= |items| && forall i | 0 <= i < b :: !Bad(items[i].value, dec)
    ensures b < |items| ==> Bad(items[b].value, dec)
  {
    hide Bad;
    b := 0;
    while b < |items| && !Bad(items[b].value, dec)
      invariant b <= |items| && forall i | 0 <= i < b :: !Bad(items[i].value, dec)
    {
      b := b + 1;
    }
  }

  /** The items up to and including the first bad one. */
  function Walked(items: seq<Item>, b: nat): seq<Item> {
    if b < |items| then items[..b + 1] else items
  }

  /** An object's load: the categories up to and into the first bad one, which may stay behind empty. */
  lemma WalkLoad<T>(items: seq<Item>, members: map<string, Json>, dec: Json -> Option<T>)
    returns (b: nat, m: Nested<T>)
    requires Walk(items, members)
    ensures b <= |items| && forall i | 0 <= i < b :: !Bad(items[i].value, dec)
    ensures b < |items| ==> Bad(items[b].value, dec) && items[b].key.Some?
    ensures Holds(m, Walked(items, b), members, dec)
    ensures b < |items| && Shell(items[b].value, dec) ==> items[b].key.value !in m
    ensures LoadItems(items, dec) ==
            Loaded(if b < |items| && Shell(items[b].value, dec) then m[items[b].key.value := map[]] else m,
                   b == |items|)
  {
    hide LoadItems, Holds, Bad, Shell, LoadCategory, Items, Walk;
    b := FirstBad(items, dec);
    WalkPrefix(items, members, b);
    GoodPrefix(items[..b], members, dec);
    m := LoadItems(items[..b], dec).store;
    if b < |items| {
      assert items[..b + 1] == items[..b] + [items[b]];
      WalkPrefix(items, members, b + 1);
      OneCategory(m, items[..b], items[b], members, dec);
      BadEndsLoad(items, b, dec);
      m := Next(m, items[b].key.value, items[b].value, dec);
    } else {
      assert items[..b] == items;
    }
  }

  lemma BadEndsLoad<T>(items: seq<Item>, b: nat, dec: Json -> Option<T>)
    requires b < |items| && LoadItems(items[..b], dec).ok
    requires !LoadCategory(LoadItems(items[..b], dec).store, items[b].key, Items(items[b].value), dec).ok
    ensures LoadItems(items, dec) ==
            LoadCategory(LoadItems(items[..b], dec).store, items[b].key, Items(items[b].value), dec)
  {
    hide LoadCategory, Items;
    assert items[..b + 1][..b] == items[..b];
    ThrowEndsLoad(items, b + 1, dec);
  }

  /** Every member of an object is walked over. */
  ghost predicate Complete(items: seq<Item>, members: map<string, Json>) {
    Walk(items, members) && forall c | c in members :: exists i :: 0 <= i < |items| && items[i].key == Some(c)
  }

  lemma ItemsComplete(j: Json) returns (items: seq<Item>)
    ensures items == Items(j)
    ensures j.Obj? ==> Complete(items, j.members)
    ensures !j.Obj? ==> forall i | i in items :: i.key.None?
  {
    items := Items(j);
    if j.Obj? {
      ItemsWalk(j.members);
    }
  }

  /** deserialize throws exactly on the values it is not shaped for. */
  lemma LoadThrowsIff<T>(j: Json, dec: Json -> Option<T>)
    ensures Load(j, dec).ok <==> WellShaped(j, dec)
  {
    hide LoadItems, Holds, Shell, AllDecode, Walk, Bad, Items;
    var items := ItemsComplete(j);
    if j.Obj? {
      var b, m := WalkLoad(items, j.members, dec);
      forall i | i in items
        ensures Bad(i.value, dec) <==> !(Empty(i.value) || (i.value.Obj? && AllDecode(i.value.members, dec)))
      {
        BadIff(i.value, dec);
      }
      if b < |items| {
        assert items[b] in items;
      } else {
        forall i | i in items ensures !Bad(i.value, dec) {
          var k :| 0 <= k < |items| && items[k] == i;
        }
      }
    } else {
      KeylessLoad(items, dec);
    }
  }

  lemma BadIff<T>(v: Json, dec: Json -> Option<T>)
    ensures Bad(v, dec) <==> !(Empty(v) || (v.Obj? && AllDecode(v.members, dec)))
  {
  }

  /** A load leaves an empty category behind exactly when its first failure is an entry that converts but has no
      name, inside an object. */
  lemma NoEmptyAfterLoadIff<T>(j: Json, dec: Json -> Option<T>)
    ensures NoEmptyCategory(Load(j, dec).store) <==> !LeavesEmpty(j, dec)
  {
    hide LoadItems, Holds, Shell, Bad, Walk, Items, Reached;
    var items := ItemsComplete(j);
    if j.Obj? {
      var b, m := WalkLoad(items, j.members, dec);
      HeldIsNotEmpty(m, Walked(items, b), j.members, dec);
      ShellIsFirstBad(items, j, b, dec);
      if b < |items| && Shell(items[b].value, dec) {
        assert Load(j, dec).store[items[b].key.value] == map[];
      }
    } else {
      KeylessLoad(items, dec);
    }
  }

  lemma ShellIsFirstBad<T>(items: seq<Item>, j: Json, b: nat, dec: Json -> Option<T>)
    requires j.Obj? && Complete(items, j.members) && b <= |items|
    requires (forall i | 0 <= i < b :: !Bad(items[i].value, dec)) && (b < |items| ==> Bad(items[b].value, dec))
    ensures LeavesEmpty(j, dec) <==> b < |items| && Shell(items[b].value, dec)
  {
    hide Bad, Shell;
    if b < |items| && Shell(items[b].value, dec) {
      ReachedIff(items, j.members, b, items[b].key.value, b, dec);
    }
    if c :| c in j.members && Shell(j.members[c], dec) && Reached(j.members, c, dec) {
      BadIfShell(j.members[c], dec);
      var k :| 0 <= k < |items| && items[k].key == Some(c);
      ReachedIff(items, j.members, b, c, k, dec);
    }
  }

  lemma WalkMeetsOnce(items: seq<Item>, members: map<string, Json>, i: nat, k: nat)
    requires Walk(items, members) && i < k < |items|
    ensures items[i].key != items[k].key
  {
    Text.LessIrreflexive(items[i].key.value);
  }

  /** A category that is an array throws, and is left behind empty. */
  lemma ArrayLeavesEmptyCategory<T>(dec: Json -> Option<T>)
    requires dec(Int(1)).Some?
    ensures var l := Load(Obj(map["c" := Arr([Int(1)])]), dec);
            l == Loaded(map["c" := map[]], false) && !NoEmptyCategory(l.store)
  {
    hide Text.Less, LoadItems, Holds;
    var j := Obj(map["c" := Arr([Int(1)])]);
    var items := ItemsComplete(j);
    assert "c" in j.members;
    if |items| > 1 {
      WalkMeetsOnce(items, j.members, 0, 1);
      assert false;
    }
    assert items[0].value == Arr([Int(1)]) && Bad(items[0].value, dec) && Shell(items[0].value, dec);
    var b, m := WalkLoad(items, j.members, dec);
    assert b == 0 && items[..1] == items;
    NothingHeld(m, items, j.members, dec);
    var store: Nested<T> := map["c" := map[]];
    assert "c" in store && store["c"] == map[];
  }

  lemma NothingHeld<T>(m: Nested<T>, items: seq<Item>, members: map<string, Json>, dec: Json -> Option<T>)
    requires Holds(m, items, members, dec) && forall i | 0 <= i < |items| :: !items[i].value.Obj?
    ensures m == map[]
  {
    assert forall c :: !Met(items, c, dec);
  }

  /** A value that does not convert ends a load without an empty category, whatever categories come after it. */
  lemma UnreadEndsWithoutEmpty<T>(dec: Json -> Option<T>)
    requires dec(Str("s")).None?
    ensures var j := Obj(map["a" := Obj(map["x" := Str("s")]), "c" := Arr([Int(1)])]);
            !Load(j, dec).ok && NoEmptyCategory(Load(j, dec).store)
  {
    hide Load, NoEmptyCategory, Items;
    var j := Obj(map["a" := Obj(map["x" := Str("s")]), "c" := Arr([Int(1)])]);
    assert "a" in j.members && "x" in j.members["a"].members && Bad(j.members["a"], dec);
    LoadThrowsIff(j, dec);
    NoEmptyAfterLoadIff(j, dec);
    EveryMemberIsMet(j.members, "a");
    assert !Text.Less("c", "a") && !Reached(j.members, "c", dec);
    assert forall c | c in j.members :: c == "a" || c == "c";
  }

  lemma HeldIsNotEmpty<T>(m: Nested<T>, items: seq<Item>, members: map<string, Json>, dec: Json -> Option<T>)
    requires Holds(m, items, members, dec)
    ensures NoEmptyCategory(m)
  {
  }

  /** The entries after a load are those before its first failure, whatever was stored before. */
  lemma LoadFlat<T>(j: Json, dec: Json -> Option<T>)
    ensures Flatten(Load(j, dec).store) == EntriesOf(j, dec)
  {
    hide Flatten, EntriesOf, Items, Bad, Holds, Walk, Shell, LoadItems;
    var items := ItemsComplete(j);
    if j.Obj? {
      var b, m := WalkLoad(items, j.members, dec);
      HeldFlat(m, items, j, b, dec);
      if b < |items| && Shell(items[b].value, dec) {
        EmptyCategoryIsFlat(m, items[b].key.value);
      }
    } else {
      KeylessLoad(items, dec);
      NoEntries(j, dec);
    }
  }

  lemma WalkPrefix(items: seq<Item>, members: map<string, Json>, b: nat)
    requires Walk(items, members) && b <= |items|
    ensures Walk(items[..b], members)
  {
    hide Text.Less;
  }

  lemma NoEntries<T>(j: Json, dec: Json -> Option<T>)
    requires !j.Obj?
    ensures Flatten(map[]) == EntriesOf(j, dec)
  {
  }

  lemma EmptyCategoryIsFlat<T>(m: Nested<T>, c: string)
    requires c !in m
    ensures Flatten(m[c := map[]]) == Flatten(m)
  {
  }

  lemma HeldFlat<T>(m: Nested<T>, items: seq<Item>, j: Json, b: nat, dec: Json -> Option<T>)
    requires j.Obj? && Complete(items, j.members) && Holds(m, Walked(items, b), j.members, dec) && b <= |items|
    requires (forall i | 0 <= i < b :: !Bad(items[i].value, dec)) && (b < |items| ==> Bad(items[b].value, dec))
    ensures Flatten(m) == EntriesOf(j, dec)
  {
    hide Bad, Flatten, EntriesOf;
    forall e: (string, string)
      ensures e in Flatten(m) <==> e in EntriesOf(j, dec)
      ensures e in Flatten(m) ==> Flatten(m)[e] == EntriesOf(j, dec)[e]
    {
      HeldEntry(m, items, j, b, e, dec);
    }
  }

  lemma HeldEntry<T>(m: Nested<T>, items: seq<Item>, j: Json, b: nat, e: (string, string), dec: Json -> Option<T>)
    requires j.Obj? && Complete(items, j.members) && Holds(m, Walked(items, b), j.members, dec) && b <= |items|
    requires (forall i | 0 <= i < b :: !Bad(items[i].value, dec)) && (b < |items| ==> Bad(items[b].value, dec))
    ensures e in Flatten(m) <==> e in EntriesOf(j, dec)
    ensures e in Flatten(m) ==> Flatten(m)[e] == EntriesOf(j, dec)[e]
  {
    hide Reached, Walk, Bad, Precedes, Met, Decoded;
    if e.0 in j.members && j.members[e.0].Obj? {
      InDecoded(j.members[e.0].members, e.1, dec);
      if Stored(j.members[e.0], dec) {
        MetIffReached(items, j.members, b, e.0, dec);
      }
    }
  }

  lemma MetIffReached<T>(items: seq<Item>, members: map<string, Json>, b: nat, c: string, dec: Json -> Option<T>)
    requires Complete(items, members) && b <= |items| && c in members && Stored(members[c], dec)
    requires (forall i | 0 <= i < b :: !Bad(items[i].value, dec)) && (b < |items| ==> Bad(items[b].value, dec))
    ensures Met(Walked(items, b), c, dec) <==> Reached(members, c, dec)
  {
    hide Stored, Bad, Reached;
    var k :| 0 <= k < |items| && items[k].key == Some(c);
    ReachedIff(items, members, b, c, k, dec);
    if k <= b {
      assert Walked(items, b)[k] == items[k];
    } else {
      forall i | 0 <= i <= b ensures items[i].key != Some(c) {
        WalkMeetsOnce(items, members, i, k);
      }
    }
  }

  lemma ReachedIff<T>(items: seq<Item>, members: map<string, Json>, b: nat, c: string, k: nat, dec: Json -> Option<T>)
    requires Complete(items, members) && b <= |items| && k < |items| && items[k].key == Some(c)
    requires (forall i | 0 <= i < b :: !Bad(items[i].value, dec)) && (b < |items| ==> Bad(items[b].value, dec))
    ensures Reached(members, c, dec) <==> k <= b
  {
    hide Bad;
    if k <= b {
      forall d | d in members && Bad(members[d], dec) ensures c == d || Text.Less(c, d) {
        var l :| 0 <= l < |items| && items[l].key == Some(d);
        assert b <= l;
      }
    } else {
      var d := items[b].key.value;
      assert Text.Less(d, c);
      Text.LessAsymmetric(d, c);
      WalkMeetsOnce(items, members, b, k);
      assert d in members && Bad(members[d], dec);
    }
  }

  // ---------- Whole histories ----------

  datatype Op<T> = Set(c: string, n: string, v: T) | Remove(c: string, n: string) | Deserialize(j: Json)

  ghost function RunNested<T>(m: Nested<T>, ops: seq<Op<T>>, dec: Json -> Option<T>): Nested<T> {
    if ops == [] then m
    else
      var before := RunNested(m, ops[..|ops| - 1], dec);
      match ops[|ops| - 1]
      case Set(c, n, v) => Put(before, c, n, v)
      case Remove(c, n) => Removed(before, c, n)
      case Deserialize(j) => Load(j, dec).store
  }

  ghost function RunFlat<T>(f: Flat<T>, ops: seq<Op<T>>, dec: Json -> Option<T>): Flat<T> {
    if ops == [] then f
    else
      var before := RunFlat(f, ops[..|ops| - 1], dec);
      match ops[|ops| - 1]
      case Set(c, n, v) => before[(c, n) := v]
      case Remove(c, n) => before - {(c, n)}
      case Deserialize(j) => EntriesOf(j, dec)
  }

  /** Over every history of calls, loads that throw included, the store and the flat map agree. */
  lemma {:induction false} HistoryIsFlat<T>(m: Nested<T>, ops: seq<Op<T>>, dec: Json -> Option<T>)
    ensures Flatten(RunNested(m, ops, dec)) == RunFlat(Flatten(m), ops, dec)
  {
    if ops != [] {
      HistoryIsFlat(m, ops[..|ops| - 1], dec);
      var before := RunNested(m, ops[..|ops| - 1], dec);
      match ops[|ops| - 1]
      case Set(c, n, v) => PutFlat(before, c, n, v);
      case Remove(c, n) => RemovedFlat(before, c, n);
      case Deserialize(j) => LoadFlat(j, dec);
    }
  }

  /** No history stores an empty category unless a load in it leaves one. */
  lemma {:induction false} HistoryHasNoEmptyCategory<T>(ops: seq<Op<T>>, dec: Json -> Option<T>)
    requires forall o | o in ops && o.Deserialize? :: !LeavesEmpty(o.j, dec)
    ensures NoEmptyCategory(RunNested(map[], ops, dec))
  {
    if ops != [] {
      var init, last := ops[..|ops| - 1], ops[|ops| - 1];
      assert last in ops && forall o | o in init :: o in ops;
      HistoryHasNoEmptyCategory(init, dec);
      var before := RunNested(map[], init, dec);
      match last
      case Set(c, n, v) => assert n in Put(before, c, n, v)[c];
      case Remove(c, n) => assert NoEmptyCategory(Removed(before, c, n));
      case Deserialize(j) => NoEmptyAfterLoadIff(j, dec);
    }
  }

  /** A category is empty at some point of a history if and only if the first failure of some load in it is an
      entry that converts but has no name, inside an object. */
  lemma NeverEmptyIff<T>(ops: seq<Op<T>>, dec: Json -> Option<T>)
    ensures (forall k: nat | k <= |ops| :: NoEmptyCategory(RunNested(map[], ops[..k], dec))) <==>
            (forall o | o in ops && o.Deserialize? :: !LeavesEmpty(o.j, dec))
  {
    hide NoEmptyCategory, LeavesEmpty, Load;
    if forall o | o in ops && o.Deserialize? :: !LeavesEmpty(o.j, dec) {
      forall k: nat | k <= |ops| ensures NoEmptyCategory(RunNested(map[], ops[..k], dec)) {
        assert forall o | o in ops[..k] :: o in ops;
        HistoryHasNoEmptyCategory(ops[..k], dec);
      }
    } else {
      var i :| 0 <= i < |ops| && ops[i].Deserialize? && LeavesEmpty(ops[i].j, dec);
      assert ops[..i + 1][..i] == ops[..i];
      NoEmptyAfterLoadIff(ops[i].j, dec);
      assert !NoEmptyCategory(RunNested(map[], ops[..i + 1], dec));
    }
  }

  // ---------- Round trip ----------

  function Full<T>(m: Nested<T>): Nested<T> {
    map c | c in m && m[c] != map[] :: m[c]
  }

  lemma UnloadMembers<T>(m: Nested<T>, enc: T -> Json)
    ensures var j := Unload(m, enc);
            && (forall c :: Has(j, c) <==> c in Full(m))
            && (forall c | c in Full(m) :: j.members[c] == Obj(Encoded(m[c], enc)))
            && (j.Null? || j.Obj?)
  {
    var full := map c | c in m && m[c] != map[] :: Obj(Encoded(m[c], enc));
    assert forall c :: c in full <==> c in Full(m);
  }

  /** Loading what a store serialized to, into any manager, restores the store less its empty categories. */
  lemma RoundTrip<T(!new)>(m: Nested<T>, enc: T -> Json, dec: Json -> Option<T>)
    requires forall v :: dec(enc(v)) == Some(v)
    ensures Load(Unload(m, enc), dec) == Loaded(Full(m), true)
  {
    var j := Unload(m, enc);
    UnloadMembers(m, enc);
    var items := ItemsComplete(j);
    if j.Obj? {
      forall c ensures c in j.members <==> c in Full(m) {
        assert Has(j, c) <==> c in Full(m);
      }
      RoundTripWalk(items, j.members, m, enc, dec);
    } else {
      forall c ensures c !in Full(m) {
        assert Has(j, c) <==> c in Full(m);
      }
      assert Full(m) == map[];
    }
  }

  lemma RoundTripWalk<T(!new)>(items: seq<Item>, members: map<string, Json>, m: Nested<T>, enc: T -> Json,
                               dec: Json -> Option<T>)
    requires forall v :: dec(enc(v)) == Some(v)
    requires Complete(items, members)
    requires forall c :: c in members <==> c in Full(m)
    requires forall c | c in members :: members[c] == Obj(Encoded(m[c], enc))
    ensures LoadItems(items, dec) == Loaded(Full(m), true)
  {
    hide Encoded, Decoded, LoadItems, Holds, Met, Shell;
    forall c | c in members ensures !Bad(members[c], dec) {
      EncodedDecode(m[c], enc, dec);
    }
    var b, r := WalkLoad(items, members, dec);
    assert b == |items|;
    RestoredCategories(items, members, m, r, enc, dec);
  }

  lemma RestoredCategories<T(!new)>(items: seq<Item>, members: map<string, Json>, m: Nested<T>, r: Nested<T>,
                                    enc: T -> Json, dec: Json -> Option<T>)
    requires forall v :: dec(enc(v)) == Some(v)
    requires Complete(items, members) && Holds(r, items, members, dec)
    requires forall c :: c in members <==> c in Full(m)
    requires forall c | c in members :: members[c] == Obj(Encoded(m[c], enc))
    ensures r == Full(m)
  {
    hide Encoded, Decoded;
    forall c | c in Full(m) ensures c in r && r[c] == m[c] {
      var i :| 0 <= i < |items| && items[i].key == Some(c);
      DecodedEncoded(m[c], enc, dec);
      assert items[i].value == members[c] && Stored(members[c], dec);
      assert Met(items, c, dec);
    }
    assert r.Keys == Full(m).Keys;
  }

  lemma EncodedDecode<T(!new)>(names: map<string, T>, enc: T -> Json, dec: Json -> Option<T>)
    requires forall v :: dec(enc(v)) == Some(v)
    ensures AllDecode(Encoded(names, enc), dec)
  {
  }

  lemma DecodedEncoded<T(!new)>(names: map<string, T>, enc: T -> Json, dec: Json -> Option<T>)
    requires names != map[] && forall v :: dec(enc(v)) == Some(v)
    ensures Encoded(names, enc) != map[] && Decoded(Encoded(names, enc), dec) == names
  {
    EncodedDecode(names, enc, dec);
    var n :| n in names;
    assert n in Encoded(names, enc);
    forall n | n in names ensures n in Decoded(Encoded(names, enc), dec) {
      assert Encoded(names, enc)[n] == enc(names[n]);
    }
    assert Decoded(Encoded(names, enc), dec).Keys == names.Keys;
  }

  /** Serializing a second time after a load changes nothing. */
  lemma SerializeAfterLoadIsStable<T(!new)>(j: Json, enc: T -> Json, dec: Json -> Option<T>)
    requires forall v :: dec(enc(v)) == Some(v)
    ensures var once := Unload(Load(j, dec).store, enc); Unload(Load(once, dec).store, enc) == once
  {
    var m := Load(j, dec).store;
    RoundTrip(m, enc, dec);
    UnloadOfFull(m, enc);
  }

  /** Empty categories leave no trace in the JSON. */
  lemma UnloadOfFull<T>(m: Nested<T>, enc: T -> Json)
    ensures Unload(Full(m), enc) == Unload(m, enc)
  {
    var f := Full(m);
    var a := map c | c in f && f[c] != map[] :: Obj(Encoded(f[c], enc));
    var b := map c | c in m && m[c] != map[] :: Obj(Encoded(m[c], enc));
    forall c ensures c in a <==> c in b {
      assert c in f <==> c in m && m[c] != map[];
    }
    forall c | c in a ensures a[c] == b[c] {
    }
    assert a == b;
  }
}
