/** The environment of the exec form: the client's own, then the bundle's pointers, then its secret variables. */
module ClientEnv {
  import opened Prelude
  import opened Text
  import opened Sorting
  import opened Wire

  type Pair = (string, string)

  /** One entry of the base environment, split at its first "="; one without "=" is dropped. */
  function BasePair(kv: string): seq<Pair> {
    var i := Find(kv, '=');
    if i < |kv| then [(kv[..i], kv[i + 1..])] else []
  }

  function BasePairs(base: seq<string>): seq<Pair> { Concat(Map(BasePair, base)) }

  function PointerPair(p: Pointer): Pair { (p.name, p.path) }

  function EnvPair(e: EnvV): Pair { (e.name, e.value) }

  /** Every assignment made, in order. */
  function Assigned(base: seq<string>, b: BundleV): seq<Pair> {
    BasePairs(base) + Map(PointerPair, b.pointers) + Map(EnvPair, b.env)
  }

  /** The names assigned, each once, in order of first appearance. */
  function Names(ps: seq<Pair>): seq<string> {
    if ps == [] then []
    else
      var before, n := Names(ps[..|ps| - 1]), ps[|ps| - 1].0;
      if n in before then before else before + [n]
  }

  /** The last value assigned to a name. */
  function Value(ps: seq<Pair>, n: string): string {
    if ps == [] then "" else if ps[|ps| - 1].0 == n then ps[|ps| - 1].1 else Value(ps[..|ps| - 1], n)
  }

  ghost predicate Holds(vals: map<string, string>, order: seq<string>, ps: seq<Pair>) {
    order == Names(ps) && vals.Keys == Elems(order) && forall n <- vals :: vals[n] == Value(ps, n)
  }

  /** The add closure. */
  method Add(vals: map<string, string>, order: seq<string>, name: string, val: string, ghost ps: seq<Pair>)
    returns (vals2: map<string, string>, order2: seq<string>)
    requires Holds(vals, order, ps)
    ensures Holds(vals2, order2, ps + [(name, val)])
  {
    assert (ps + [(name, val)])[..|ps|] == ps;
    assert name in order <==> name in Elems(order);
    order2 := if name !in vals then order + [name] else order;
    vals2 := vals[name := val];
  }

  lemma BaseSnoc(base: seq<string>, i: nat)
    requires i < |base|
    ensures BasePairs(base[..i + 1]) == BasePairs(base[..i]) + BasePair(base[i])
  {
    assert Map(BasePair, base[..i + 1]) == Map(BasePair, base[..i]) + [BasePair(base[i])];
    ConcatSnoc(Map(BasePair, base[..i]), BasePair(base[i]));
  }

  method AddEntry(vals0: map<string, string>, order0: seq<string>, kv: string, ghost ps: seq<Pair>)
    returns (vals: map<string, string>, order: seq<string>)
    requires Holds(vals0, order0, ps)
    ensures Holds(vals, order, ps + BasePair(kv))
  {
    vals, order := vals0, order0;
    assert ps + [] == ps;
    var eq := Find(kv, '=');
    if eq < |kv| { vals, order := Add(vals, order, kv[..eq], kv[eq + 1..], ps); }
  }

  method AddBase(base: seq<string>) returns (vals: map<string, string>, order: seq<string>)
    ensures Holds(vals, order, BasePairs(base))
  {
    vals, order := map[], [];
    ghost var ps := [];
    assert base[..0] == [];
    for i := 0 to |base|
      invariant Holds(vals, order, ps) && ps == BasePairs(base[..i])
    {
      BaseSnoc(base, i);
      vals, order := AddEntry(vals, order, base[i], ps);
      ps := ps + BasePair(base[i]);
    }
    assert base[..|base|] == base;
  }

  method AddPointers(vals0: map<string, string>, order0: seq<string>, pointers: seq<Pointer>, ghost front: seq<Pair>)
    returns (vals: map<string, string>, order: seq<string>)
    requires Holds(vals0, order0, front)
    ensures Holds(vals, order, front + Map(PointerPair, pointers))
  {
    vals, order := vals0, order0;
    ghost var ps := front;
    for i := 0 to |pointers|
      invariant Holds(vals, order, ps) && ps == front + Map(PointerPair, pointers[..i])
    {
      vals, order := Add(vals, order, pointers[i].name, pointers[i].path, ps);
      ps := ps + [(pointers[i].name, pointers[i].path)];
    }
    assert pointers[..|pointers|] == pointers;
  }

  method AddEnv(vals0: map<string, string>, order0: seq<string>, env: seq<EnvV>, ghost front: seq<Pair>)
    returns (vals: map<string, string>, order: seq<string>)
    requires Holds(vals0, order0, front)
    ensures Holds(vals, order, front + Map(EnvPair, env))
  {
    vals, order := vals0, order0;
    ghost var ps := front;
    for i := 0 to |env|
      invariant Holds(vals, order, ps) && ps == front + Map(EnvPair, env[..i])
    {
      vals, order := Add(vals, order, env[i].name, env[i].value, ps);
      ps := ps + [(env[i].name, env[i].value)];
    }
    assert env[..|env|] == env;
  }

  /** EnvFor. */
  method EnvFor(base: seq<string>, b: BundleV) returns (out: seq<string>)
    ensures var ps := Assigned(base, b); out == Map((n: string) => n + "=" + Value(ps, n), Names(ps))
  {
    var vals, order := AddBase(base);
    vals, order := AddPointers(vals, order, b.pointers, BasePairs(base));
    vals, order := AddEnv(vals, order, b.env, BasePairs(base) + Map(PointerPair, b.pointers));
    out := [];
    for i := 0 to |order|
      invariant |out| == i && forall k :: 0 <= k < i ==> order[k] in vals && out[k] == order[k] + "=" + vals[order[k]]
    {
      assert order[i] in Elems(order);
      out := out + [order[i] + "=" + vals[order[i]]];
    }
  }

  /** No name appears twice, and the names are exactly those assigned. */
  lemma {:induction false} NamesOnce(ps: seq<Pair>)
    ensures forall i, j :: 0 <= i < j < |Names(ps)| ==> Names(ps)[i] != Names(ps)[j]
    ensures forall n :: n in Names(ps) <==> exists k :: 0 <= k < |ps| && ps[k].0 == n
  {
    if ps != [] {
      var m := |ps| - 1;
      NamesOnce(ps[..m]);
      forall n ensures n in Names(ps) <==> exists k :: 0 <= k < |ps| && ps[k].0 == n {
        if n in Names(ps[..m]) {
          var k :| 0 <= k < m && ps[..m][k].0 == n;
          assert ps[k].0 == n;
        }
        if k :| 0 <= k < |ps| && ps[k].0 == n && k < m { assert ps[..m][k].0 == n; }
        assert ps[m].0 in Names(ps);
      }
    }
  }

  lemma {:induction false} ValueIs(ps: seq<Pair>, k: nat)
    requires k < |ps| && forall j :: k < j < |ps| ==> ps[j].0 != ps[k].0
    ensures Value(ps, ps[k].0) == ps[k].1
  {
    if k < |ps| - 1 { ValueIs(ps[..|ps| - 1], k); }
  }

  /** A delivered secret always reaches the app: it beats a pointer and anything in the client's own environment. */
  lemma SecretWins(base: seq<string>, b: BundleV, k: nat)
    requires k < |b.env| && forall j :: k < j < |b.env| ==> b.env[j].name != b.env[k].name
    ensures var ps := Assigned(base, b);
            b.env[k].name in Names(ps) && Value(ps, b.env[k].name) == b.env[k].value
  {
    var front := BasePairs(base) + Map(PointerPair, b.pointers);
    LastOfTail(front, Map(EnvPair, b.env), k);
  }

  lemma LastOfTail(front: seq<Pair>, tail: seq<Pair>, k: nat)
    requires k < |tail| && forall j :: k < j < |tail| ==> tail[j].0 != tail[k].0
    ensures tail[k].0 in Names(front + tail) && Value(front + tail, tail[k].0) == tail[k].1
  {
    var ps, i := front + tail, |front| + k;
    assert ps[i] == tail[k];
    forall j | i < j < |ps| ensures ps[j].0 != ps[i].0 {
      assert ps[j] == tail[j - |front|];
    }
    ValueIs(ps, i);
    NamesOnce(ps);
  }

  // ---- where there is no secret of the name ----

  /** An entry of the base environment is split at its first "="; one without "=" assigns nothing. */
  lemma BaseSplits(kv: string, name: string, val: string)
    ensures '=' !in name && kv == name + "=" + val ==> BasePair(kv) == [(name, val)]
    ensures '=' !in kv ==> BasePair(kv) == []
  {
    if '=' !in name && kv == name + "=" + val {
      assert kv[..|name|] == name && kv[|name| + 1..] == val;
      FindIs(kv, '=', |name|);
    }
  }

  /** The entry assigns to the name. */
  ghost predicate Assigns(kv: string, name: string) { '=' !in name && name + "=" <= kv }

  lemma {:induction false} BaseNames(base: seq<string>, name: string)
    requires forall kv <- base :: !Assigns(kv, name)
    ensures forall p <- BasePairs(base) :: p.0 != name
  {
    if base != [] {
      BaseNames(base[1..], name);
      assert Map(BasePair, base)[1..] == Map(BasePair, base[1..]);
      var kv := base[0];
      var i := Find(kv, '=');
      assert kv in base && !Assigns(kv, name);
      if i < |kv| { assert kv[..i] + "=" == kv[..i + 1] <= kv; }
      assert forall p <- BasePair(kv) :: p.0 != name;
    }
  }

  lemma BaseAround(a: seq<string>, kv: string, b: seq<string>)
    ensures BasePairs(a + [kv] + b) == BasePairs(a) + BasePair(kv) + BasePairs(b)
  {
    assert Map(BasePair, a + [kv] + b) == Map(BasePair, a) + [BasePair(kv)] + Map(BasePair, b);
    ConcatAround(Map(BasePair, a), BasePair(kv), Map(BasePair, b));
  }

  lemma LastReaches(front: seq<Pair>, name: string, val: string, tail: seq<Pair>)
    requires forall p <- tail :: p.0 != name
    ensures var ps := front + [(name, val)] + tail; name in Names(ps) && Value(ps, name) == val
  {
    var ps := front + [(name, val)] + tail;
    assert ps[|front|] == (name, val);
    forall j | |front| < j < |ps| ensures ps[j].0 != name {
      assert ps[j] == tail[j - |front| - 1] && tail[j - |front| - 1] in tail;
    }
    ValueIs(ps, |front|);
    NamesOnce(ps);
  }

  /** A pointer reaches the app unless a later pointer or a secret has its name. */
  lemma PointerReaches(base: seq<string>, b: BundleV, k: nat)
    requires k < |b.pointers| && forall j :: k < j < |b.pointers| ==> b.pointers[j].name != b.pointers[k].name
    requires forall e <- b.env :: e.name != b.pointers[k].name
    ensures var ps := Assigned(base, b);
            b.pointers[k].name in Names(ps) && Value(ps, b.pointers[k].name) == b.pointers[k].path
  {
    var pointers, p := Map(PointerPair, b.pointers), b.pointers[k];
    var front, tail := BasePairs(base) + pointers[..k], pointers[k + 1..] + Map(EnvPair, b.env);
    assert Assigned(base, b) == front + [(p.name, p.path)] + tail;
    forall q | q in tail ensures q.0 != p.name {
      var j :| 0 <= j < |tail| && tail[j] == q;
      if j < |pointers| - k - 1 { assert tail[j] == pointers[k + 1 + j]; }
      else { assert b.env[j - (|pointers| - k - 1)] in b.env; }
    }
    LastReaches(front, p.name, p.path, tail);
  }

  lemma GivenOthers(b: BundleV, name: string)
    requires (forall p <- b.pointers :: p.name != name) && (forall e <- b.env :: e.name != name)
    ensures forall q <- Map(PointerPair, b.pointers) + Map(EnvPair, b.env) :: q.0 != name
  {
    var given := Map(PointerPair, b.pointers) + Map(EnvPair, b.env);
    forall q | q in given ensures q.0 != name {
      var j :| 0 <= j < |given| && given[j] == q;
      if j < |b.pointers| { assert b.pointers[j] in b.pointers; } else { assert b.env[j - |b.pointers|] in b.env; }
    }
  }

  /** The client's own variable stays unless a later entry, a pointer or a secret has its name. */
  lemma BaseReaches(before: seq<string>, name: string, val: string, after: seq<string>, b: BundleV)
    requires '=' !in name && (forall kv <- after :: !Assigns(kv, name))
    requires (forall p <- b.pointers :: p.name != name) && (forall e <- b.env :: e.name != name)
    ensures var ps := Assigned(before + [name + "=" + val] + after, b); name in Names(ps) && Value(ps, name) == val
  {
    var kv, pointers, env := name + "=" + val, Map(PointerPair, b.pointers), Map(EnvPair, b.env);
    BaseSplits(kv, name, val);
    BaseAround(before, kv, after);
    BaseNames(after, name);
    GivenOthers(b, name);
    Joined(BasePairs(before) + [(name, val)], BasePairs(after), pointers);
    Joined(BasePairs(before) + [(name, val)], BasePairs(after) + pointers, env);
    Joined(BasePairs(after), pointers, env);
    Joined(BasePairs(before) + [(name, val)], BasePairs(after), pointers + env);
    LastReaches(BasePairs(before), name, val, BasePairs(after) + (pointers + env));
  }

  /** The k-th assignment is the first to the name. */
  ghost predicate FirstTo(ps: seq<Pair>, name: string, k: nat) {
    k < |ps| && ps[k].0 == name && forall j :: 0 <= j < k ==> ps[j].0 != name
  }

  /** The names come out in the order they are first assigned. */
  lemma {:induction false} NamesInOrder(ps: seq<Pair>, i: nat, j: nat, p: nat, q: nat)
    requires i < j < |Names(ps)| && FirstTo(ps, Names(ps)[i], p) && FirstTo(ps, Names(ps)[j], q)
    ensures p < q
  {
    var m := |ps| - 1;
    var before := Names(ps[..m]);
    NamesOnce(ps[..m]);
    if j < |before| {
      assert before[j] in before && before[i] in before;
      var k :| 0 <= k < m && ps[..m][k].0 == before[j];
      var l :| 0 <= l < m && ps[..m][l].0 == before[i];
      assert q <= k by { assert ps[k].0 == Names(ps)[j]; }
      assert p <= l by { assert ps[l].0 == Names(ps)[i]; }
      assert FirstTo(ps[..m], before[i], p) && FirstTo(ps[..m], before[j], q);
      NamesInOrder(ps[..m], i, j, p, q);
    } else {
      assert Names(ps)[j] == ps[m].0 && ps[m].0 !in before;
      assert forall k :: 0 <= k < m ==> ps[..m][k].0 != ps[m].0;
      assert forall k :: 0 <= k < m ==> ps[k] == ps[..m][k];
      assert before[i] in before;
      var l :| 0 <= l < m && ps[..m][l].0 == before[i];
      assert ps[l].0 == Names(ps)[i];
    }
  }
}
