/** JSON values as the program's library presents them once a text has been parsed. */
module JsonValues {
  import opened Options
  import Text

  datatype Json =
    | Null
    | Bool(b: bool)
    | Int(n: int)
    | Str(s: string)
    | Arr(items: seq<Json>)
    | Obj(members: map<string, Json>)

  /** Only an object can contain a key. */
  predicate Has(j: Json, key: string) {
    j.Obj? && key in j.members
  }

  /** Indexing a mutable value: a missing key reads as null. */
  function Field(j: Json, key: string): Json {
    if Has(j, key) then j.members[key] else Null
  }

  /** Containers and null can be empty; a scalar never is. */
  predicate Empty(j: Json) {
    j.Null? || (j.Arr? && j.items == []) || (j.Obj? && j.members == map[])
  }

  datatype Item = Item(key: Option<string>, value: Json)

  /** What a loop over a value meets, with the key where there is one: an object's members in
      key order, an array's elements, nothing for null, and a scalar itself once. */
  ghost function Items(j: Json): (r: seq<Item>)
    ensures r == [] <==> Empty(j)
    ensures j.Obj? ==> forall i | 0 <= i < |r| ::
              r[i].key.Some? && r[i].key.value in j.members && r[i].value == j.members[r[i].key.value]
    ensures !j.Obj? ==> forall i | 0 <= i < |r| :: r[i].key.None?
  {
    match j
    case Null => []
    case Arr(items) => seq(|items|, i requires 0 <= i < |items| => Item(None, items[i]))
    case Obj(members) =>
      var keys := Text.Ascending(members.Keys);
      seq(|keys|, i requires 0 <= i < |keys| => Item(Some(keys[i]), members[keys[i]]))
    case _ => [Item(None, j)]
  }

  /** The values a range-based loop over a value meets. */
  ghost function Elements(j: Json): seq<Json> {
    var items := Items(j);
    seq(|items|, i requires 0 <= i < |items| => items[i].value)
  }

  /** An array's elements, the values of an object's members, nothing for null, and a scalar itself. */
  lemma ElementsAre(j: Json)
    ensures j.Arr? ==> Elements(j) == j.items
    ensures j.Obj? ==> forall e :: e in Elements(j) <==> exists k :: k in j.members && j.members[k] == e
    ensures j.Null? ==> Elements(j) == []
    ensures !j.Arr? && !j.Obj? && !j.Null? ==> Elements(j) == [j]
  {
    if j.Obj? {
      var keys := Text.Ascending(j.members.Keys);
      forall k | k in j.members ensures j.members[k] in Elements(j) {
        assert k in keys;
        var i :| 0 <= i < |keys| && keys[i] == k;
        assert Elements(j)[i] == j.members[k];
      }
      forall e | e in Elements(j) ensures exists k :: k in j.members && j.members[k] == e {
        var i :| 0 <= i < |Elements(j)| && Elements(j)[i] == e;
        assert keys[i] in j.members && j.members[keys[i]] == e;
      }
    }
  }

  /** Walks a value. */
  method Iterate(j: Json) returns (r: seq<Item>)
    ensures r == Items(j)
  {
    match j
    case Null => r := [];
    case Arr(items) => r := seq(|items|, i requires 0 <= i < |items| => Item(None, items[i]));
    case Obj(members) =>
      var keys := Text.SortedKeys(members.Keys);
      r := seq(|keys|, i requires 0 <= i < |keys| => Item(Some(keys[i]), members[keys[i]]));
    case _ => r := [Item(None, j)];
  }

  // ---------- Integer widths ----------

  /** The two numbers are that many moduli apart. */
  predicate Apart(a: int, b: int, turns: int, modulus: nat) {
    a - b == turns * modulus
  }

  /** Conversion to a signed integer of the given modulus (2^16, 2^32 or 2^64). */
  function Signed(n: int, modulus: nat): (r: int)
    requires modulus >= 2 && modulus % 2 == 0
    ensures -(modulus / 2) <= r < modulus / 2
    ensures -(modulus / 2) <= n < modulus / 2 ==> r == n
    ensures exists turns :: Apart(r, n, turns, modulus)
  {
    assert Apart((n + modulus / 2) % modulus - modulus / 2, n, -((n + modulus / 2) / modulus), modulus);
    (n + modulus / 2) % modulus - modulus / 2
  }

  const TWO16: nat := 0x1_0000
  const TWO32: nat := 0x1_0000_0000
  const TWO64: nat := 0x1_0000_0000_0000_0000
}
