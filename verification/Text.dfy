/** Strings as the program compares them: by byte value for ordering, without regard to ASCII case for matching. */
module Text {
  import opened Sequences

  // ---------- Byte order ----------

  /** The order of std::string, character by character. */
  predicate Less(a: string, b: string) {
    b != [] && (a == [] || a[0] < b[0] || (a[0] == b[0] && Less(a[1..], b[1..])))
  }

  lemma {:induction false} LessIrreflexive(a: string)
    ensures !Less(a, a)
  {
    if a != [] {
      LessIrreflexive(a[1..]);
    }
  }

  lemma {:induction false} LessTransitive(a: string, b: string, c: string)
    requires Less(a, b) && Less(b, c)
    ensures Less(a, c)
  {
    if a != [] && a[0] == b[0] == c[0] {
      LessTransitive(a[1..], b[1..], c[1..]);
    }
  }

  lemma {:induction false} LessTotal(a: string, b: string)
    ensures Less(a, b) || a == b || Less(b, a)
  {
    if a != [] && b != [] && a[0] == b[0] {
      LessTotal(a[1..], b[1..]);
      if a[1..] == b[1..] {
        assert a == [a[0]] + a[1..] == b;
      }
    }
  }

  lemma LessAsymmetric(a: string, b: string)
    requires Less(a, b)
    ensures !Less(b, a)
  {
    if Less(b, a) {
      LessTransitive(a, b, a);
      LessIrreflexive(a);
    }
  }

  /** A string comes before each of its proper extensions. */
  lemma {:induction false} PrefixComesFirst(p: string, s: string)
    requires p < s
    ensures Less(p, s)
  {
    if p != [] {
      assert p[0] == s[0] && p[1..] < s[1..];
      PrefixComesFirst(p[1..], s[1..]);
    }
  }

  ghost predicate IsLeast(m: string, s: set<string>) {
    m in s && forall x | x in s :: x == m || Less(m, x)
  }

  lemma {:induction false} LeastExists(s: set<string>)
    requires s != {}
    ensures exists m :: IsLeast(m, s)
  {
    var a :| a in s;
    var t := s - {a};
    if t == {} {
      assert forall x | x in s :: x == a || x in t;
      assert IsLeast(a, s);
    } else {
      LeastExists(t);
      var m :| IsLeast(m, t);
      LeastOfTwo(a, m, s);
    }
  }

  lemma LeastOfTwo(a: string, m: string, s: set<string>)
    requires a in s && IsLeast(m, s - {a})
    ensures IsLeast(a, s) || IsLeast(m, s)
  {
    LessTotal(a, m);
    if Less(a, m) {
      forall x | x in s && x != a && x != m ensures Less(a, x) {
        assert x in s - {a};
        LessTransitive(a, m, x);
      }
    }
  }

  /** The keys of an ordered map, in the order a loop over it meets them. */
  ghost function Ascending(s: set<string>): (r: seq<string>)
    ensures forall x :: x in r <==> x in s
  {
    if s == {} then []
    else
      LeastExists(s);
      var m :| IsLeast(m, s);
      [m] + Ascending(s - {m})
  }

  lemma {:induction false} AscendingIsSorted(s: set<string>)
    ensures |Ascending(s)| == |s|
    ensures forall i, j | 0 <= i < j < |Ascending(s)| :: Less(Ascending(s)[i], Ascending(s)[j])
  {
    if s != {} {
      LeastExists(s);
      var m :| IsLeast(m, s);
      AscendingUnfolds(m, s);
      AscendingIsSorted(s - {m});
      var rest := Ascending(s - {m});
      forall j | 0 <= j < |rest| ensures Less(m, rest[j]) {
        assert rest[j] in rest;
      }
    }
  }

  /** The first key of an ordered map. */
  method First(s: set<string>) returns (m: string)
    requires s != {}
    ensures IsLeast(m, s)
  {
    m :| m in s;
    var rest := s - {m};
    while rest != {}
      invariant m in s && m !in rest && rest <= s
      invariant forall x | x in s && x !in rest :: x == m || Less(m, x)
      decreases rest
    {
      var a :| a in rest;
      LessTotal(a, m);
      if Less(a, m) {
        forall x | x in s && x !in rest && x != m ensures Less(a, x) {
          LessTransitive(a, m, x);
        }
        m := a;
      }
      rest := rest - {a};
    }
  }

  /** Walks an ordered map's keys. */
  method SortedKeys(s: set<string>) returns (r: seq<string>)
    ensures r == Ascending(s)
  {
    r := [];
    var todo := s;
    while todo != {}
      invariant r + Ascending(todo) == Ascending(s)
      decreases todo
    {
      hide Ascending, IsLeast;
      var m := First(todo);
      AscendingUnfolds(m, todo);
      Associative(r, [m], Ascending(todo - {m}));
      r, todo := r + [m], todo - {m};
    }
  }

  lemma AscendingUnfolds(m: string, s: set<string>)
    requires IsLeast(m, s)
    ensures Ascending(s) == [m] + Ascending(s - {m})
  {
    forall x | IsLeast(x, s) ensures x == m {
      if x != m {
        LessAsymmetric(m, x);
      }
    }
  }

  // ---------- Case-insensitive matching ----------

  /** Upper case of one byte; bytes outside a-z stand for themselves. */
  function Up(c: char): char {
    if 'a' <= c <= 'z' then (c as int - 32) as char else c
  }

  predicate IStartsWith(s: string, p: string) {
    |p| <= |s| && forall i | 0 <= i < |p| :: Up(s[i]) == Up(p[i])
  }

  predicate IEquals(a: string, b: string) {
    |a| == |b| && IStartsWith(a, b)
  }

  /** The same character, or the same letter of a-z large and small. */
  predicate SameLetter(a: char, b: char) {
    || a == b
    || ('a' <= a <= 'z' && b as int == a as int - 32)
    || ('a' <= b <= 'z' && a as int == b as int - 32)
  }

  /** The same text but for the case of letters. */
  predicate SameButCase(a: string, b: string) {
    |a| == |b| && forall i | 0 <= i < |a| :: SameLetter(a[i], b[i])
  }

  /** The text is the beginning of the key but for the case of letters. */
  predicate Abbreviates(text: string, key: string) {
    |text| <= |key| && SameButCase(key[..|text|], text)
  }

  lemma UpIff(a: char, b: char)
    ensures Up(a) == Up(b) <==> SameLetter(a, b)
  {
  }

  lemma IEqualsIff(a: string, b: string)
    ensures IEquals(a, b) <==> SameButCase(a, b)
  {
    hide SameLetter, Up;
    forall i | 0 <= i < |a| && i < |b| ensures Up(a[i]) == Up(b[i]) <==> SameLetter(a[i], b[i]) {
      UpIff(a[i], b[i]);
    }
  }

  /** Comparing with a text or with its lower-case form is the same. */
  lemma SameAsLower(a: string, b: string, lower: string)
    requires |lower| == |b| && forall i | 0 <= i < |b| :: Up(lower[i]) == Up(b[i])
    ensures SameButCase(a, b) <==> SameButCase(a, lower)
  {
    IEqualsIff(a, b);
    IEqualsIff(a, lower);
    hide SameButCase, Up;
    assert IEquals(a, b) <==> IEquals(a, lower);
  }

  lemma IStartsWithIff(key: string, text: string)
    ensures IStartsWith(key, text) <==> Abbreviates(text, key)
  {
    hide SameLetter, Up;
    forall i | 0 <= i < |text| && i < |key| ensures Up(key[i]) == Up(text[i]) <==> SameLetter(key[i], text[i]) {
      UpIff(key[i], text[i]);
    }
  }
}
