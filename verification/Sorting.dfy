/** Sorting by a two-string key, standing for sort.Strings and sort.Slice. */
module Sorting {
  import opened Text

  type Key = (string, string)

  predicate Before(a: Key, b: Key) { a != b && (if a.0 == b.0 then Le(a.1, b.1) else Le(a.0, b.0)) }

  lemma BeforeTrans(a: Key, b: Key, c: Key)
    requires Before(a, b) && Before(b, c)
    ensures Before(a, c)
  {
    LeTotal(a.0, c.0);
    LeTotal(a.1, c.1);
    LeTotal(a.0, b.0);
    LeTotal(a.1, b.1);
    if a.0 != b.0 && b.0 != c.0 { LeTrans(a.0, b.0, c.0); LeTotal(b.0, c.0); }
    if a.0 == b.0 && b.0 == c.0 { LeTrans(a.1, b.1, c.1); LeTotal(b.1, c.1); }
  }

  lemma BeforeTotal(a: Key, b: Key)
    ensures a == b || Before(a, b) || Before(b, a)
    ensures !(Before(a, b) && Before(b, a))
  {
    LeTotal(a.0, b.0);
    LeTotal(a.1, b.1);
  }

  /** Sorted with no two equal keys. */
  ghost predicate Ordered<T>(xs: seq<T>, key: T -> Key) {
    forall i, j :: 0 <= i < j < |xs| ==> Before(key(xs[i]), key(xs[j]))
  }

  ghost function Elems<T>(xs: seq<T>): set<T> { set x | x in xs }

  /** A set has at most one ordered listing, so the order it was collected in cannot show. */
  lemma {:induction false} OrderedUnique<T>(xs: seq<T>, ys: seq<T>, key: T -> Key)
    requires Ordered(xs, key) && Ordered(ys, key)
    requires Elems(xs) == Elems(ys)
    ensures xs == ys
  {
    assert xs != [] ==> xs[0] in Elems(ys);
    assert ys != [] ==> ys[0] in Elems(xs);
    if xs == [] || ys == [] {
    } else {
      FirstSame(xs, ys, key);
      TailElems(xs, key);
      TailElems(ys, key);
      OrderedUnique(xs[1..], ys[1..], key);
      assert xs == [xs[0]] + xs[1..] && ys == [ys[0]] + ys[1..];
    }
  }

  lemma FirstSame<T>(xs: seq<T>, ys: seq<T>, key: T -> Key)
    requires Ordered(xs, key) && Ordered(ys, key) && Elems(xs) == Elems(ys) && xs != [] && ys != []
    ensures xs[0] == ys[0]
  {
    assert xs[0] in Elems(ys) && ys[0] in Elems(xs);
    var i :| 0 <= i < |ys| && ys[i] == xs[0];
    var j :| 0 <= j < |xs| && xs[j] == ys[0];
    if i > 0 && j > 0 {
      BeforeTotal(key(xs[0]), key(ys[0]));
      assert false;
    }
  }

  lemma TailElems<T>(xs: seq<T>, key: T -> Key)
    requires Ordered(xs, key) && xs != []
    ensures Elems(xs[1..]) == Elems(xs) - {xs[0]}
  {
    BeforeTotal(key(xs[0]), key(xs[0]));
    assert forall x :: x in xs <==> x == xs[0] || x in xs[1..];
    assert forall x :: x in xs[1..] ==> Before(key(xs[0]), key(x));
  }

  /** Insertion sort of distinct elements with distinct keys. */
  method Sort<T(==)>(xs: seq<T>, key: T -> Key) returns (r: seq<T>)
    requires forall i, j :: 0 <= i < j < |xs| ==> key(xs[i]) != key(xs[j])
    ensures Ordered(r, key) && Elems(r) == Elems(xs) && |r| == |xs|
  {
    r := [];
    for n := 0 to |xs|
      invariant Ordered(r, key) && Elems(r) == Elems(xs[..n]) && |r| == n
    {
      var x := xs[n];
      assert forall y :: y in r ==> y in Elems(xs[..n]);
      assert forall y :: y in r ==> key(y) != key(x);
      var i := |r|;
      while i > 0 && Before(key(x), key(r[i - 1]))
        invariant 0 <= i <= |r|
        invariant forall k :: i <= k < |r| ==> Before(key(x), key(r[k]))
      {
        i := i - 1;
      }
      InsertKeeps(r, x, i, key);
      r := r[..i] + [x] + r[i..];
      assert xs[..n + 1] == xs[..n] + [x];
    }
    assert xs[..|xs|] == xs;
  }

  lemma InsertKeeps<T>(r: seq<T>, x: T, i: nat, key: T -> Key)
    requires i <= |r| && Ordered(r, key)
    requires forall y :: y in r ==> key(y) != key(x)
    requires forall k :: i <= k < |r| ==> Before(key(x), key(r[k]))
    requires i > 0 ==> !Before(key(x), key(r[i - 1]))
    ensures Ordered(r[..i] + [x] + r[i..], key)
    ensures Elems(r[..i] + [x] + r[i..]) == Elems(r) + {x}
  {
    var s := r[..i] + [x] + r[i..];
    forall k | 0 <= k < i ensures Before(key(r[k]), key(x)) {
      BeforeTotal(key(x), key(r[i - 1]));
      assert r[i - 1] in r;
      if k < i - 1 { BeforeTrans(key(r[k]), key(r[i - 1]), key(x)); }
    }
    assert r == r[..i] + r[i..];
  }

  function NameKey(s: string): Key { (s, "") }

  /** The one ordered listing of a set of names. */
  ghost function Sorted(names: set<string>): (r: seq<string>)
    ensures Ordered(r, NameKey) && Elems(r) == names
  {
    SortedExists(names);
    var r :| Ordered(r, NameKey) && Elems(r) == names;
    r
  }

  lemma {:induction false} SortedExists(names: set<string>)
    ensures exists r: seq<string> :: Ordered(r, NameKey) && Elems(r) == names
  {
    if names == {} {
      assert Ordered<string>([], NameKey) && Elems<string>([]) == names;
    } else {
      var x :| x in names;
      SortedExists(names - {x});
      var r: seq<string> :| Ordered(r, NameKey) && Elems(r) == names - {x};
      var s := InsertSomewhere(r, x);
      assert Elems(s) == names;
    }
  }

  lemma {:induction false} InsertSomewhere(r: seq<string>, x: string) returns (s: seq<string>)
    requires Ordered(r, NameKey) && x !in r
    ensures Ordered(s, NameKey) && Elems(s) == Elems(r) + {x}
  {
    var i := |r|;
    while i > 0 && Before(NameKey(x), NameKey(r[i - 1]))
      invariant 0 <= i <= |r|
      invariant forall k :: i <= k < |r| ==> Before(NameKey(x), NameKey(r[k]))
    {
      i := i - 1;
    }
    InsertKeeps(r, x, i, NameKey);
    s := r[..i] + [x] + r[i..];
  }

  lemma SortedIs(names: set<string>, r: seq<string>)
    requires Ordered(r, NameKey) && Elems(r) == names
    ensures r == Sorted(names)
  {
    OrderedUnique(r, Sorted(names), NameKey);
  }

  /** Ranging over a Go map or set: any order may come out, each name once. */
  method Range(names: set<string>) returns (r: seq<string>)
    ensures Elems(r) == names && |r| == |names|
    ensures forall i, j :: 0 <= i < j < |r| ==> r[i] != r[j]
  {
    r := [];
    var rest := names;
    while rest != {}
      invariant Elems(r) + rest == names && Elems(r) !! rest && |r| + |rest| == |names|
      invariant forall i, j :: 0 <= i < j < |r| ==> r[i] != r[j]
      decreases rest
    {
      var x :| x in rest;
      assert forall i :: 0 <= i < |r| ==> r[i] in Elems(r);
      r, rest := r + [x], rest - {x};
    }
  }

  method SortNames(names: set<string>) returns (r: seq<string>)
    ensures r == Sorted(names)
  {
    var raw := Range(names);
    r := Sort(raw, NameKey);
    SortedIs(names, r);
  }
}
