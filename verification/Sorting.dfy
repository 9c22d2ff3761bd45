/** `list.sort` under a total order, and why its result is the only sorted arrangement. */
module Sorting {

  ghost predicate TotalOrder<T(!new)>(le: (T, T) -> bool) {
    && (forall x, y :: le(x, y) || le(y, x))
    && (forall x, y :: le(x, y) && le(y, x) ==> x == y)
    && (forall x, y, z :: le(x, y) && le(y, z) ==> le(x, z))
  }

  ghost predicate Sorted<T>(s: seq<T>, le: (T, T) -> bool) {
    forall i, j :: 0 <= i < j < |s| ==> le(s[i], s[j])
  }

  function Insert<T>(s: seq<T>, x: T, le: (T, T) -> bool): (r: seq<T>)
    ensures multiset(r) == multiset(s) + multiset{x}
    ensures |r| == |s| + 1
  {
    if s == [] then [x]
    else if le(x, s[0]) then [x] + s
    else
      assert s == [s[0]] + s[1..];
      [s[0]] + Insert(s[1..], x, le)
  }

  function Sort<T>(s: seq<T>, le: (T, T) -> bool): (r: seq<T>)
    ensures multiset(r) == multiset(s)
    ensures |r| == |s|
  {
    if s == [] then []
    else
      assert s == s[..|s| - 1] + [s[|s| - 1]];
      var r := Insert(Sort(s[..|s| - 1], le), s[|s| - 1], le);
      assert |multiset(r)| == |r| && |multiset(s)| == |s|;
      r
  }

  lemma {:induction false} InsertSorted<T(!new)>(s: seq<T>, x: T, le: (T, T) -> bool)
    requires TotalOrder(le) && Sorted(s, le)
    ensures Sorted(Insert(s, x, le), le)
  {
    if s != [] && !le(x, s[0]) {
      InsertSorted(s[1..], x, le);
      var r := Insert(s[1..], x, le);
      forall i | 0 <= i < |r|
        ensures le(s[0], r[i])
      {
        assert r[i] in multiset(r);
        assert r[i] == x || r[i] in s[1..];
      }
    } else if s != [] {
      assert forall i :: 0 <= i < |s| ==> le(s[0], s[i]);
    }
  }

  lemma {:induction false} SortSorted<T(!new)>(s: seq<T>, le: (T, T) -> bool)
    requires TotalOrder(le)
    ensures Sorted(Sort(s, le), le)
  {
    if s != [] {
      SortSorted(s[..|s| - 1], le);
      InsertSorted(Sort(s[..|s| - 1], le), s[|s| - 1], le);
    }
  }

  /** Inserting an element of a sorted list where it first occurs gives the list back. */
  lemma {:induction false} InsertBack<T(!new)>(a: seq<T>, i: nat, le: (T, T) -> bool)
    requires TotalOrder(le) && Sorted(a, le) && i < |a| && a[i] !in a[..i]
    ensures Insert(a[..i] + a[i + 1..], a[i], le) == a
  {
    var rest := a[..i] + a[i + 1..];
    if i == 0 {
      assert [a[0]] + rest == a;
    } else {
      assert a[0] in a[..i] && rest[1..] == a[1..][..i - 1] + a[1..][i..];
      InsertBack(a[1..], i - 1, le);
      assert [a[0]] + a[1..] == a;
    }
  }

  function FirstIndex<T(==)>(a: seq<T>, x: T): (i: nat)
    requires x in a
    ensures i < |a| && a[i] == x && x !in a[..i]
  {
    if a[0] == x then 0 else
      var i := 1 + FirstIndex(a[1..], x);
      assert a[..i] == [a[0]] + a[1..][..i - 1];
      i
  }

  lemma ElementsWithout<T>(a: seq<T>, i: nat)
    requires i < |a|
    ensures multiset(a[..i] + a[i + 1..]) == multiset(a) - multiset{a[i]}
  {
    var before, after := a[..i], a[i + 1..];
    assert a == before + ([a[i]] + after);
    assert multiset(a) == multiset(before) + multiset([a[i]] + after);
    assert multiset([a[i]] + after) == multiset{a[i]} + multiset(after);
    assert multiset(before + after) == multiset(before) + multiset(after);
  }

  lemma WithoutSorted<T(!new)>(a: seq<T>, i: nat, le: (T, T) -> bool)
    requires i < |a| && Sorted(a, le)
    ensures Sorted(a[..i] + a[i + 1..], le)
  {
  }

  /** However the elements of `s` are put in order, the list is the one that sorting makes. */
  lemma {:induction false} OnlyArrangement<T(!new)>(a: seq<T>, s: seq<T>, le: (T, T) -> bool)
    requires TotalOrder(le) && Sorted(a, le) && multiset(a) == multiset(s)
    ensures a == Sort(s, le)
    decreases |s|
  {
    if s == [] {
      assert |multiset(a)| == 0;
    } else {
      var x := s[|s| - 1];
      assert x in multiset(s);
      var i := FirstIndex(a, x);
      ElementsWithout(a, i);
      ElementsWithout(s, |s| - 1);
      assert s[..|s| - 1] + s[|s|..] == s[..|s| - 1];
      WithoutSorted(a, i, le);
      OnlyArrangement(a[..i] + a[i + 1..], s[..|s| - 1], le);
      InsertBack(a, i, le);
    }
  }

  // ---- sorting rows by a key they are made from ------------------------------------------------------

  function Mapped<T, U>(s: seq<T>, f: T -> U): (r: seq<U>)
    ensures |r| == |s| && forall i :: 0 <= i < |s| ==> r[i] == f(s[i])
  {
    seq(|s|, i requires 0 <= i < |s| => f(s[i]))
  }

  lemma MappedAppend<T, U>(s: seq<T>, x: T, f: T -> U)
    ensures Mapped(s + [x], f) == Mapped(s, f) + [f(x)]
  {
  }

  lemma MappedCons<T, U>(x: T, s: seq<T>, f: T -> U)
    ensures Mapped([x] + s, f) == [f(x)] + Mapped(s, f)
    ensures ([f(x)] + Mapped(s, f))[1..] == Mapped(s, f)
  {
    forall i | 0 < i <= |s|
      ensures Mapped([x] + s, f)[i] == Mapped(s, f)[i - 1]
    {
      assert ([x] + s)[i] == s[i - 1];
    }
  }

  lemma {:induction false} InsertMapped<T(!new), U(!new)>(s: seq<T>, x: T, f: T -> U, le: (T, T) -> bool, ge: (U, U) -> bool)
    requires forall a, b :: ge(f(a), f(b)) == le(a, b)
    ensures Insert(Mapped(s, f), f(x), ge) == Mapped(Insert(s, x, le), f)
  {
    if s != [] && !le(x, s[0]) {
      InsertMapped(s[1..], x, f, le, ge);
      MappedCons(s[0], s[1..], f);
      MappedCons(s[0], Insert(s[1..], x, le), f);
      assert [s[0]] + s[1..] == s;
    } else {
      MappedCons(x, s, f);
    }
  }

  lemma {:induction false} SortMapped<T(!new), U(!new)>(s: seq<T>, f: T -> U, le: (T, T) -> bool, ge: (U, U) -> bool)
    requires forall a, b :: ge(f(a), f(b)) == le(a, b)
    ensures Sort(Mapped(s, f), ge) == Mapped(Sort(s, le), f)
  {
    if s != [] {
      var n := |s| - 1;
      SortMapped(s[..n], f, le, ge);
      assert Mapped(s, f)[..n] == Mapped(s[..n], f);
      InsertMapped(Sort(s[..n], le), s[n], f, le, ge);
    }
  }

  // ---- strings -----------------------------------------------------------------------------------

  /** Strings in dictionary order, as Python and SQLite compare them. */
  predicate StringLe(a: string, b: string) {
    a == "" || (b != "" && (a[0] < b[0] || (a[0] == b[0] && StringLe(a[1..], b[1..]))))
  }

  lemma {:induction false} StringLeTotal(a: string, b: string)
    ensures StringLe(a, b) || StringLe(b, a)
    ensures StringLe(a, b) && StringLe(b, a) ==> a == b
  {
    if a != "" && b != "" && a[0] == b[0] {
      StringLeTotal(a[1..], b[1..]);
      assert a == [a[0]] + a[1..] && b == [b[0]] + b[1..];
    }
  }

  lemma {:induction false} StringLeTransitive(a: string, b: string, c: string)
    requires StringLe(a, b) && StringLe(b, c)
    ensures StringLe(a, c)
  {
    if a != "" && a[0] == b[0] == c[0] {
      StringLeTransitive(a[1..], b[1..], c[1..]);
    }
  }

  lemma StringLeOrder()
    ensures TotalOrder(StringLe)
  {
    forall a, b ensures (StringLe(a, b) || StringLe(b, a)) && (StringLe(a, b) && StringLe(b, a) ==> a == b) {
      StringLeTotal(a, b);
    }
    forall a, b, c | StringLe(a, b) && StringLe(b, c) ensures StringLe(a, c) {
      StringLeTransitive(a, b, c);
    }
  }

  lemma {:induction false} LeastOf(names: set<string>) returns (least: string)
    requires names != {}
    ensures least in names && forall x :: x in names ==> StringLe(least, x)
    decreases names
  {
    StringLeOrder();
    var x :| x in names;
    least := x;
    if names != {x} {
      var y := LeastOf(names - {x});
      if StringLe(y, x) { least := y; }
    }
  }

  lemma LeastExists(names: set<string>)
    requires names != {}
    ensures exists least :: least in names && forall x :: x in names ==> StringLe(least, x)
  {
    var least := LeastOf(names);
  }

  ghost function Least(names: set<string>): (least: string)
    requires names != {}
    ensures least in names && forall x :: x in names ==> StringLe(least, x)
  {
    LeastExists(names);
    var least :| least in names && forall x :: x in names ==> StringLe(least, x);
    least
  }

  lemma OnlyLeast(names: set<string>, name: string)
    requires name in names && forall x :: x in names ==> StringLe(name, x)
    ensures name == Least(names)
  {
    StringLeTotal(name, Least(names));
  }

  /** The first of a set of names. */
  method LeastName(names: set<string>) returns (least: string)
    requires names != {}
    ensures least in names && forall x :: x in names ==> StringLe(least, x)
  {
    StringLeOrder();
    least :| least in names;
    var rest := names - {least};
    while rest != {}
      invariant rest <= names && least in names
      invariant forall x :: x in names - rest ==> StringLe(least, x)
      decreases rest
    {
      var x :| x in rest;
      rest := rest - {x};
      if !StringLe(least, x) {
        least := x;
      }
    }
  }
}
