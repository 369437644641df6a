/**
 Sorting by keys: the derived order of the repository's records and
 enumerations is the lexicographic order of their keys, one component for
 each field.
 */
module Orders {

  type Key = seq<seq<int>>

  predicate Lex<T(==)>(le: (T, T) -> bool, a: seq<T>, b: seq<T>) {
    a == [] || (b != [] && if a[0] == b[0] then Lex(le, a[1..], b[1..]) else le(a[0], b[0]))
  }

  predicate IntLe(a: int, b: int) { a <= b }

  predicate PartLe(a: seq<int>, b: seq<int>) { Lex(IntLe, a, b) }

  predicate KeyLe(a: Key, b: Key) { Lex(PartLe, a, b) }

  ghost predicate IsTotalOrder<T(!new)>(le: (T, T) -> bool) {
    && (forall a, b :: le(a, b) || le(b, a))
    && (forall a, b :: le(a, b) && le(b, a) ==> a == b)
    && (forall a, b, c :: le(a, b) && le(b, c) ==> le(a, c))
  }

  lemma {:induction false} LexIsTotalOrder<T(!new)>(le: (T, T) -> bool, a: seq<T>, b: seq<T>, c: seq<T>)
    requires IsTotalOrder(le)
    ensures Lex(le, a, b) || Lex(le, b, a)
    ensures Lex(le, a, b) && Lex(le, b, a) ==> a == b
    ensures Lex(le, a, b) && Lex(le, b, c) ==> Lex(le, a, c)
    decreases |a| + |b| + |c|
  {
    if a != [] && b != [] {
      if c != [] {
        LexIsTotalOrder(le, a[1..], b[1..], c[1..]);
      } else {
        LexIsTotalOrder(le, a[1..], b[1..], []);
      }
      assert a == [a[0]] + a[1..] && b == [b[0]] + b[1..];
    }
  }

  lemma OneComponent<T>(le: (T, T) -> bool, x: T, y: T)
    ensures Lex(le, [x], [y]) <==> x == y || le(x, y)
  {
    assert Lex(le, [], []);
  }

  lemma PartsAreOrdered()
    ensures IsTotalOrder(PartLe)
  {
    forall a, b, c ensures PartLe(a, b) || PartLe(b, a)
                   ensures PartLe(a, b) && PartLe(b, a) ==> a == b
                   ensures PartLe(a, b) && PartLe(b, c) ==> PartLe(a, c) {
      LexIsTotalOrder(IntLe, a, b, c);
    }
  }

  lemma KeysAreOrdered(a: Key, b: Key, c: Key)
    ensures KeyLe(a, b) || KeyLe(b, a)
    ensures KeyLe(a, b) && KeyLe(b, a) ==> a == b
    ensures KeyLe(a, b) && KeyLe(b, c) ==> KeyLe(a, c)
  {
    PartsAreOrdered();
    LexIsTotalOrder(PartLe, a, b, c);
  }

  ghost predicate IsSorted<T>(s: seq<T>, key: T -> Key) {
    forall i: nat, j: nat :: i <= j < |s| ==> KeyLe(key(s[i]), key(s[j]))
  }

  // Puts `x` after everything not above it.
  method Insert<T>(s: seq<T>, x: T, key: T -> Key) returns (r: seq<T>)
    requires IsSorted(s, key)
    ensures IsSorted(r, key)
    ensures multiset(r) == multiset(s) + multiset{x}
  {
    hide KeyLe;
    var n: nat := |s|;
    while n > 0 && !KeyLe(key(s[n - 1]), key(x))
      invariant n <= |s|
      invariant forall i: nat :: n <= i < |s| ==> KeyLe(key(x), key(s[i]))
    {
      KeysAreOrdered(key(x), key(s[n - 1]), []);
      n := n - 1;
    }
    r := s[..n] + [x] + s[n..];
    assert s == s[..n] + s[n..];
    forall i: nat | i < n ensures KeyLe(key(s[i]), key(x)) {
      KeysAreOrdered(key(s[i]), key(s[n - 1]), key(x));
    }
    InsertedIsSorted(s, n, x, key);
  }

  lemma InsertedIsSorted<T>(s: seq<T>, n: nat, x: T, key: T -> Key)
    requires IsSorted(s, key) && n <= |s|
    requires forall i: nat :: i < n ==> KeyLe(key(s[i]), key(x))
    requires forall i: nat :: n <= i < |s| ==> KeyLe(key(x), key(s[i]))
    ensures IsSorted(s[..n] + [x] + s[n..], key)
  {
    hide KeyLe;
    var r := s[..n] + [x] + s[n..];
    KeysAreOrdered(key(x), key(x), key(x));
    forall i: nat, j: nat | i <= j < |r| ensures KeyLe(key(r[i]), key(r[j])) {
      var (si, sj) := (if i < n then i else i - 1, if j < n then j else j - 1);
      assert i != n ==> r[i] == s[si];
      assert j != n ==> r[j] == s[sj];
    }
  }

  // Callers learn only that the result is sorted, so nothing depends on how
  // elements with equal keys are ordered.
  method Sort<T>(s: seq<T>, key: T -> Key) returns (r: seq<T>)
    ensures IsSorted(r, key)
    ensures multiset(r) == multiset(s)
  {
    r := [];
    for i := 0 to |s|
      invariant IsSorted(r, key)
      invariant multiset(r) == multiset(s[..i])
    {
      assert s[..i + 1] == s[..i] + [s[i]];
      r := Insert(r, s[i], key);
    }
    assert s[..|s|] == s;
  }

  // ---------------------------------------------------------------------
  // The sorted listing of a set
  // ---------------------------------------------------------------------

  ghost predicate IsInjective<T(!new)>(key: T -> Key) {
    forall x, y :: key(x) == key(y) ==> x == y
  }

  predicate NoRepeats<T(==)>(s: seq<T>) { forall i: nat, j: nat :: i < j < |s| ==> s[i] != s[j] }

  ghost predicate IsLeast<T(!new)>(items: set<T>, x: T, key: T -> Key) {
    x in items && forall y :: y in items ==> KeyLe(key(x), key(y))
  }

  lemma {:induction false} LeastExists<T(!new)>(items: set<T>, key: T -> Key) returns (least: T)
    requires items != {}
    ensures IsLeast(items, least, key)
    decreases |items|
  {
    hide KeyLe;
    var x :| x in items;
    KeysAreOrdered(key(x), key(x), key(x));
    if items == {x} {
      least := x;
    } else {
      var rest := items - {x};
      assert rest != {};
      var other := LeastExists(rest, key);
      KeysAreOrdered(key(x), key(other), []);
      least := if KeyLe(key(x), key(other)) then x else other;
      forall y | y in items ensures KeyLe(key(least), key(y)) {
        assert y == x || y in rest;
        KeysAreOrdered(key(x), key(other), key(y));
      }
    }
  }

  // The elements of a set from the least up.
  ghost function Listing<T(!new)>(items: set<T>, key: T -> Key): seq<T> {
    if items == {} then []
    else
      SomeLeast(items, key);
      var x :| IsLeast(items, x, key);
      [x] + Listing(items - {x}, key)
  }

  lemma SomeLeast<T(!new)>(items: set<T>, key: T -> Key)
    requires items != {}
    ensures exists x :: IsLeast(items, x, key)
  {
    var least := LeastExists(items, key);
  }

  // Under keys that tell elements apart, a set has one sorted listing
  // without repeats.
  lemma {:induction false} ListingIsUnique<T(!new)>(s: seq<T>, items: set<T>, key: T -> Key)
    requires IsInjective(key)
    requires IsSorted(s, key) && NoRepeats(s)
    requires forall x :: x in s <==> x in items
    ensures s == Listing(items, key)
    decreases |s|
  {
    hide KeyLe;
    if s == [] {
      assert items == {};
    } else {
      assert s[0] in s;
      assert items != {};
      LeastIsFirst(s, items, key);
      forall x ensures x in s[1..] <==> x in items - {s[0]} {
        TailWithoutHead(s, x);
      }
      ListingIsUnique(s[1..], items - {s[0]}, key);
    }
  }

  lemma TailWithoutHead<T>(s: seq<T>, x: T)
    requires s != [] && NoRepeats(s)
    ensures x in s[1..] <==> (x in s && x != s[0])
  {
    if x in s[1..] {
      var i: nat :| i < |s[1..]| && s[1..][i] == x;
      assert s[i + 1] == x;
    }
    if x in s && x != s[0] {
      var i: nat :| i < |s| && s[i] == x;
      assert s[1..][i - 1] == x;
    }
  }

  lemma LeastIsFirst<T(!new)>(s: seq<T>, items: set<T>, key: T -> Key)
    requires IsInjective(key) && s != [] && IsSorted(s, key)
    requires forall x :: x in s <==> x in items
    ensures forall x :: IsLeast(items, x, key) <==> x == s[0]
  {
    hide KeyLe;
    forall y | y in items ensures KeyLe(key(s[0]), key(y)) {
      var j: nat :| j < |s| && s[j] == y;
    }
    assert s[0] in s;
    forall x | IsLeast(items, x, key) ensures x == s[0] {
      KeysAreOrdered(key(x), key(s[0]), []);
    }
  }

  lemma {:induction false} ListingFacts<T(!new)>(items: set<T>, key: T -> Key)
    requires IsInjective(key)
    ensures IsSorted(Listing(items, key), key) && NoRepeats(Listing(items, key))
    ensures forall x :: x in Listing(items, key) <==> x in items
    decreases |items|
  {
    hide KeyLe;
    if items != {} {
      SomeLeast(items, key);
      var x :| IsLeast(items, x, key) && Listing(items, key) == [x] + Listing(items - {x}, key);
      ListingFacts(items - {x}, key);
      var rest := Listing(items - {x}, key);
      KeysAreOrdered(key(x), key(x), key(x));
      forall i: nat | i < |rest| ensures rest[i] in items && rest[i] != x && KeyLe(key(x), key(rest[i])) {
        assert rest[i] in rest;
      }
    }
  }
}
