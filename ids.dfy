/**
 * Typed identifiers (src/matrix/ID.hpp). Every identifier kind wraps one
 * string; equality and ordering are those of the string. QString's `<`
 * compares character codes lexicographically, which `StringLess` models.
 */
module Ids {

  /** The direction of a pagination request. */
  datatype Direction = Forward | Backward

  /** `matrix::ID`: a string value behind an explicit wrapper. */
  datatype ID = ID(value: string)

  type TimelineCursor = ID
  type SyncCursor = ID
  type EventID = ID
  type RoomID = ID
  type EventType = ID
  type MessageType = ID
  type StateKey = ID
  type UserID = ID
  type TransactionID = ID

  /** Lexicographic order on character codes, as QString's operator<. */
  function StringLess(a: string, b: string): bool
  {
    if a == [] then b != []
    else if b == [] then false
    else if a[0] < b[0] then true
    else if a[0] == b[0] then StringLess(a[1..], b[1..])
    else false
  }

  /** `operator==(const ID &, const ID &)` */
  function Equal(x: ID, y: ID): (r: bool)
    ensures r <==> x == y
  {
    x.value == y.value
  }

  /** `operator!=`: the negation of `==` */
  function NotEqual(x: ID, y: ID): (r: bool)
    ensures r <==> !Equal(x, y)
  {
    x.value != y.value
  }

  /** `operator<`: the order of the underlying strings */
  function Less(x: ID, y: ID): bool {
    StringLess(x.value, y.value)
  }

  /** `UserID(const StateKey &)`: the same string under the user-id type. */
  function UserFromStateKey(key: StateKey): UserID {
    ID(key.value)
  }

  lemma {:induction false} StringLessIrreflexive(a: string)
    ensures !StringLess(a, a)
  {
    if a != [] {
      StringLessIrreflexive(a[1..]);
    }
  }

  lemma {:induction false} StringLessTransitive(a: string, b: string, c: string)
    requires StringLess(a, b) && StringLess(b, c)
    ensures StringLess(a, c)
  {
    if a != [] && b != [] && c != [] && a[0] == b[0] && b[0] == c[0] {
      StringLessTransitive(a[1..], b[1..], c[1..]);
    }
  }

  lemma {:induction false} StringLessTrichotomous(a: string, b: string)
    ensures a == b || StringLess(a, b) || StringLess(b, a)
  {
    if a != [] && b != [] && a[0] == b[0] {
      StringLessTrichotomous(a[1..], b[1..]);
      if a[1..] == b[1..] {
        assert a == [a[0]] + a[1..] && b == [b[0]] + b[1..];
      }
    }
  }

  /** ID's `<` is a strict total order, so sorting identifiers by it is well defined. */
  lemma LessIsStrictTotalOrder(x: ID, y: ID, z: ID)
    ensures !Less(x, x)
    ensures Less(x, y) && Less(y, z) ==> Less(x, z)
    ensures x == y || Less(x, y) || Less(y, x)
    ensures !(Less(x, y) && Less(y, x))
  {
    StringLessIrreflexive(x.value);
    if Less(x, y) && Less(y, z) {
      StringLessTransitive(x.value, y.value, z.value);
    }
    StringLessTrichotomous(x.value, y.value);
    if Less(x, y) && Less(y, x) {
      StringLessTransitive(x.value, y.value, x.value);
      StringLessIrreflexive(x.value);
    }
  }

  /** StringLess is a strict total order on strings. */
  lemma StringLessIsStrictTotalOrder(a: string, b: string, c: string)
    ensures !StringLess(a, a)
    ensures StringLess(a, b) && StringLess(b, c) ==> StringLess(a, c)
    ensures a == b || StringLess(a, b) || StringLess(b, a)
    ensures !(StringLess(a, b) && StringLess(b, a))
  {
    LessIsStrictTotalOrder(ID(a), ID(b), ID(c));
  }

  /** `m` is below every other member of `s`. */
  predicate IsLeast(m: string, s: set<string>) {
    m in s && forall y :: y in s && y != m ==> StringLess(m, y)
  }

  /** The least string of a non-empty set. */
  function MinString(s: set<string>): (m: string)
    requires s != {}
    ensures m in s
    ensures forall y :: y in s && y != m ==> StringLess(m, y)
  {
    MinExists(s);
    MinUnique(s);
    var m :| IsLeast(m, s);
    m
  }

  lemma {:induction false} MinExists(s: set<string>)
    requires s != {}
    ensures exists m :: IsLeast(m, s)
  {
    var x :| x in s;
    if s == {x} {
      assert IsLeast(x, s);
    } else {
      var rest := s - {x};
      MinExists(rest);
      var m :| IsLeast(m, rest);
      StringLessIsStrictTotalOrder(x, m, x);
      if StringLess(x, m) {
        forall y | y in s && y != x
          ensures StringLess(x, y)
        {
          if y != m {
            StringLessIsStrictTotalOrder(x, m, y);
          }
        }
        assert IsLeast(x, s);
      } else {
        assert IsLeast(m, s);
      }
    }
  }

  lemma MinUnique(s: set<string>)
    ensures forall m, m' :: IsLeast(m, s) && IsLeast(m', s) ==> m == m'
  {
    forall m, m' | IsLeast(m, s) && IsLeast(m', s)
      ensures m == m'
    {
      if m != m' {
        StringLessIsStrictTotalOrder(m, m', m);
      }
    }
  }

  /** The members of a finite set of strings in ascending order. */
  function SortedStrings(s: set<string>): seq<string>
    decreases s
  {
    if s == {} then []
    else
      var m := MinString(s);
      [m] + SortedStrings(s - {m})
  }

  /** `SortedStrings` lists each member of the set once, in strictly ascending order. */
  lemma {:induction false} SortedStringsSpec(s: set<string>)
    ensures var r := SortedStrings(s);
      |r| == |s| && (forall x :: x in r <==> x in s) &&
      forall i, j :: 0 <= i < j < |r| ==> StringLess(r[i], r[j])
    decreases s
  {
    if s != {} {
      var m := MinString(s);
      SortedStringsSpec(s - {m});
      var r := SortedStrings(s);
      assert r == [m] + SortedStrings(s - {m});
      forall i, j | 0 <= i < j < |r|
        ensures StringLess(r[i], r[j])
      {
        if i == 0 {
          assert r[j] in SortedStrings(s - {m});
        } else {
          assert r[i] == SortedStrings(s - {m})[i - 1] && r[j] == SortedStrings(s - {m})[j - 1];
        }
      }
    }
  }

  /** The user-id values of a set of identifiers. */
  function Values(s: set<ID>): (r: set<string>)
    ensures forall x :: x in s ==> x.value in r
    ensures forall v :: v in r ==> ID(v) in s
  {
    set x | x in s :: x.value
  }

  /** The least identifier of a non-empty set. */
  function MinId(s: set<ID>): (m: ID)
    requires s != {}
    ensures m in s
    ensures forall y :: y in s && y != m ==> Less(m, y)
  {
    var v := Values(s);
    var m := MinString(v);
    ID(m)
  }
}
