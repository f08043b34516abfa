/** Option and Result, the shapes that stand for the program's nil values and error returns. */
module Prelude {
  datatype Option<+T> = None | Some(value: T)

  datatype Result<+T, +E> = Ok(value: T) | Err(error: E) {
    predicate IsFailure() { Err? }

    function PropagateFailure<U>(): Result<U, E>
      requires Err?
    {
      Err(error)
    }

    function Extract(): T
      requires Ok?
    {
      value
    }
  }

  /** All the values, or the first error in list order: a Go loop that returns on the first error. */
  function Collect<T, E>(xs: seq<Result<T, E>>): Result<seq<T>, E> {
    if xs == [] then Ok([])
    else if xs[0].Err? then Err(xs[0].error)
    else match Collect(xs[1..])
      case Err(e) => Err(e)
      case Ok(rest) => Ok([xs[0].value] + rest)
  }

  lemma {:induction false} CollectOk<T, E>(xs: seq<Result<T, E>>)
    ensures Collect(xs).Ok? <==> forall i :: 0 <= i < |xs| ==> xs[i].Ok?
    ensures Collect(xs).Ok? ==>
              |Collect(xs).value| == |xs| && forall i :: 0 <= i < |xs| ==> xs[i] == Ok(Collect(xs).value[i])
  {
    if xs != [] {
      CollectOk(xs[1..]);
      if xs[0].Ok? && Collect(xs[1..]).Ok? {
        forall i | 0 <= i < |xs| ensures xs[i] == Ok(Collect(xs).value[i]) {
          if i > 0 { assert xs[i] == xs[1..][i - 1]; }
        }
      }
      if forall i :: 0 <= i < |xs| ==> xs[i].Ok? {
        assert forall i :: 0 <= i < |xs| - 1 ==> xs[1..][i] == xs[i + 1];
      }
    }
  }

  lemma {:induction false} CollectAppend<T, E>(xs: seq<Result<T, E>>, ys: seq<Result<T, E>>)
    ensures Collect(xs + ys) == (match Collect(xs)
                                 case Err(e) => Err(e)
                                 case Ok(vs) => match Collect(ys) case Err(e) => Err(e) case Ok(ws) => Ok(vs + ws))
  {
    if xs == [] {
      assert xs + ys == ys;
      if Collect(ys).Ok? { assert [] + Collect(ys).value == Collect(ys).value; }
    } else {
      assert (xs + ys)[1..] == xs[1..] + ys;
      CollectAppend(xs[1..], ys);
      if xs[0].Ok? && Collect(xs[1..]).Ok? && Collect(ys).Ok? {
        assert [xs[0].value] + (Collect(xs[1..]).value + Collect(ys).value)
            == ([xs[0].value] + Collect(xs[1..]).value) + Collect(ys).value;
      }
    }
  }

  lemma CollectOne<T, E>(x: Result<T, E>)
    ensures Collect([x]) == if x.Err? then Err(x.error) else Ok([x.value])
  {
    assert [x][1..] == [];
    if x.Ok? { assert [x.value] + [] == [x.value]; }
  }

  function Map<A, B>(f: A -> B, xs: seq<A>): (r: seq<B>)
    ensures |r| == |xs| && forall i :: 0 <= i < |r| ==> r[i] == f(xs[i])
  {
    seq(|xs|, i requires 0 <= i < |xs| => f(xs[i]))
  }

  /** The error of a list is that of its first element in error. */
  lemma {:induction false} CollectErr<T, E>(xs: seq<Result<T, E>>) returns (i: nat)
    requires Collect(xs).Err?
    ensures i < |xs| && xs[i].Err? && Collect(xs) == Err(xs[i].error) && forall j :: 0 <= j < i ==> xs[j].Ok?
  {
    if xs[0].Err? {
      i := 0;
    } else {
      var k := CollectErr(xs[1..]);
      i := k + 1;
    }
  }

  /** One turn of a loop that collects f over a list. */
  lemma CollectStep<A, B, E>(f: A -> Result<B, E>, xs: seq<A>, i: nat, got: seq<B>)
    requires i < |xs| && Collect(Map(f, xs[..i])) == Ok(got)
    ensures f(xs[i]).Err? ==> Collect(Map(f, xs)) == Err(f(xs[i]).error)
    ensures f(xs[i]).Ok? ==> Collect(Map(f, xs[..i + 1])) == Ok(got + [f(xs[i]).value])
  {
    CollectOne(f(xs[i]));
    assert Map(f, xs[..i + 1]) == Map(f, xs[..i]) + [f(xs[i])];
    CollectAppend(Map(f, xs[..i]), [f(xs[i])]);
    assert Map(f, xs) == Map(f, xs[..i + 1]) + Map(f, xs[i + 1..]);
    CollectAppend(Map(f, xs[..i + 1]), Map(f, xs[i + 1..]));
  }

  // ---- lists of lists ----

  lemma Joined<T>(a: seq<T>, b: seq<T>, c: seq<T>)
    ensures a + b + c == a + (b + c)
  {
  }

  function Concat<T>(xs: seq<seq<T>>): seq<T> { if xs == [] then [] else xs[0] + Concat(xs[1..]) }

  lemma {:induction false} ConcatSnoc<T>(xs: seq<seq<T>>, x: seq<T>)
    ensures Concat(xs + [x]) == Concat(xs) + x
  {
    if xs == [] {
      assert [x][1..] == [] && x + [] == x;
    } else {
      assert (xs + [x])[1..] == xs[1..] + [x];
      ConcatSnoc(xs[1..], x);
      assert xs[0] + (Concat(xs[1..]) + x) == (xs[0] + Concat(xs[1..])) + x;
    }
  }

  lemma {:induction false} ConcatAppend<T>(a: seq<seq<T>>, b: seq<seq<T>>)
    ensures Concat(a + b) == Concat(a) + Concat(b)
  {
    if a == [] {
      assert a + b == b;
    } else {
      assert (a + b)[1..] == a[1..] + b;
      ConcatAppend(a[1..], b);
      assert a[0] + (Concat(a[1..]) + Concat(b)) == (a[0] + Concat(a[1..])) + Concat(b);
    }
  }

  lemma ConcatAround<T>(a: seq<seq<T>>, x: seq<T>, b: seq<seq<T>>)
    ensures Concat(a + [x] + b) == Concat(a) + x + Concat(b)
  {
    ConcatAppend(a + [x], b);
    ConcatSnoc(a, x);
  }

  lemma ConcatAt<T>(xs: seq<seq<T>>, i: nat)
    requires i < |xs|
    ensures Concat(xs[..i + 1]) == Concat(xs[..i]) + xs[i]
    ensures Concat(xs) == Concat(xs[..i]) + xs[i] + Concat(xs[i + 1..])
  {
    CutAt(xs, i);
    ConcatSnoc(xs[..i], xs[i]);
    ConcatAround(xs[..i], xs[i], xs[i + 1..]);
  }

  lemma CutAt<T>(xs: seq<T>, i: nat)
    requires i < |xs|
    ensures xs[..i + 1] == xs[..i] + [xs[i]]
    ensures xs == xs[..i] + [xs[i]] + xs[i + 1..]
  {
  }

  lemma {:induction false} InConcat<T>(xss: seq<seq<T>>, xs: seq<T>, x: T)
    requires xs in xss && x in xs
    ensures x in Concat(xss)
  {
    if xs != xss[0] { InConcat(xss[1..], xs, x); }
  }
}
