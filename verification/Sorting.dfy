// Array.prototype.sort: a stable sort by a comparison, as a function. `le(a, b)`
// says that the comparator puts a before b or calls them equal.
module Sorting {
  function Insert<T>(le: (T, T) -> bool, x: T, s: seq<T>): seq<T> {
    if s == [] || le(x, s[0]) then [x] + s else [s[0]] + Insert(le, x, s[1..])
  }

  function Sort<T>(le: (T, T) -> bool, s: seq<T>): seq<T> {
    if s == [] then [] else Insert(le, s[0], Sort(le, s[1..]))
  }

  // A comparison that can be sorted by: total and transitive.
  ghost predicate Ranks<T(!new)>(le: (T, T) -> bool) {
    && (forall x, y :: le(x, y) || le(y, x))
    && (forall x, y, z :: le(x, y) && le(y, z) ==> le(x, z))
  }

  ghost predicate Sorted<T>(le: (T, T) -> bool, s: seq<T>) {
    forall i, j :: 0 <= i < j < |s| ==> le(s[i], s[j])
  }

  lemma ConsSorted<T(!new)>(le: (T, T) -> bool, x: T, s: seq<T>)
    requires Sorted(le, s) && forall e :: e in s ==> le(x, e)
    ensures Sorted(le, [x] + s)
  {
  }

  lemma FirstIsLeast<T(!new)>(le: (T, T) -> bool, s: seq<T>)
    requires Ranks(le) && Sorted(le, s) && s != []
    ensures forall e :: e in s ==> le(s[0], e)
  {
    assert le(s[0], s[0]);
  }

  lemma {:induction false} InsertSorts<T(!new)>(le: (T, T) -> bool, x: T, s: seq<T>)
    requires Ranks(le) && Sorted(le, s)
    ensures Sorted(le, Insert(le, x, s))
    ensures multiset(Insert(le, x, s)) == multiset(s) + multiset{x}
  {
    if s != [] {
      FirstIsLeast(le, s);
      if le(x, s[0]) {
        ConsSorted(le, x, s);
      } else {
        InsertSorts(le, x, s[1..]);
        assert s == [s[0]] + s[1..];
        var rest := Insert(le, x, s[1..]);
        forall e | e in rest ensures le(s[0], e) {
          assert e in multiset(rest);
          assert e == x || e in s[1..];
        }
        ConsSorted(le, s[0], rest);
      }
    }
  }

  lemma {:induction false} SortSorts<T(!new)>(le: (T, T) -> bool, s: seq<T>)
    requires Ranks(le)
    ensures Sorted(le, Sort(le, s))
    ensures multiset(Sort(le, s)) == multiset(s) && |Sort(le, s)| == |s|
  {
    if s != [] {
      SortSorts(le, s[1..]);
      InsertSorts(le, s[0], Sort(le, s[1..]));
      assert s == [s[0]] + s[1..];
    }
    assert |multiset(Sort(le, s))| == |multiset(s)|;
  }

  lemma SameElements<T>(a: seq<T>, b: seq<T>)
    requires multiset(a) == multiset(b)
    ensures forall e :: e in a <==> e in b
  {
    forall e ensures e in a <==> e in b { assert e in multiset(a) <==> e in multiset(b); }
  }

  // The first after sorting ranks before every element.
  lemma FirstRanksFirst<T(!new)>(le: (T, T) -> bool, s: seq<T>)
    requires Ranks(le) && s != []
    ensures Sort(le, s) != [] && Sort(le, s)[0] in s
    ensures forall e :: e in s ==> le(Sort(le, s)[0], e)
  {
    SortSorts(le, s);
    SameElements(s, Sort(le, s));
    FirstIsLeast(le, Sort(le, s));
  }

  lemma SameRest<T>(a: seq<T>, b: seq<T>)
    requires a != [] && b != [] && a[0] == b[0] && multiset(a) == multiset(b)
    ensures multiset(a[1..]) == multiset(b[1..])
  {
    assert a == [a[0]] + a[1..] && b == [b[0]] + b[1..];
    assert multiset(a[1..]) == multiset(a) - multiset{a[0]} == multiset(b[1..]);
  }

  ghost predicate NoTies<T>(le: (T, T) -> bool, s: seq<T>) {
    forall x, y :: x in s && y in s && le(x, y) && le(y, x) ==> x == y
  }

  // Where no two elements are called equal, there is only one sorted order.
  lemma {:induction false} SortedOnce<T(!new)>(le: (T, T) -> bool, a: seq<T>, b: seq<T>)
    requires Ranks(le) && Sorted(le, a) && Sorted(le, b) && multiset(a) == multiset(b) && NoTies(le, a)
    ensures a == b
  {
    SameElements(a, b);
    assert |multiset(a)| == |multiset(b)|;
    if a != [] {
      FirstIsLeast(le, a);
      FirstIsLeast(le, b);
      assert b[0] in a && a[0] in b;
      assert a[0] == b[0];
      SameRest(a, b);
      assert NoTies(le, a[1..]) by { assert forall x :: x in a[1..] ==> x in a; }
      SortedOnce(le, a[1..], b[1..]);
      assert a == [a[0]] + a[1..] && b == [b[0]] + b[1..];
    }
  }
}
