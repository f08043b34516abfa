/** The staleness ledger: what was last injected where, and what has changed since. */
module Ledger {
  import opened Prelude
  import opened Sorting
  import opened SopsAge
  import opened Plans

  datatype Injection = Injection(cipherHash: string, injectedAt: nat)
  datatype Record = Record(service: string, mechanism: string, sources: map<string, Injection>, updatedAt: nat)
  datatype Drift = Drift(container: string, service: string, source: string, injectedHash: string, currentHash: string,
                         injectedAt: nat, missing: bool)

  type Records = map<string, Record>

  // ---- recording ----

  function FilePair(f: ManifestFile): (string, string) { (f.source, f.cipherHash) }

  function RenderPair(r: ManifestRender): (string, string) { (r.source, r.cipherHash) }

  function EnvPair(e: ManifestEnv): (string, string) { (e.source, e.cipherHash) }

  /** Every source a manifest names, with its hash, in order. */
  function Named(m: Manifest): seq<(string, string)> {
    Map(FilePair, m.files) + Map(RenderPair, m.renders) + Map(EnvPair, m.env)
  }

  /** Each source once, with the hash named last. */
  function Injected(pairs: seq<(string, string)>, now: nat): map<string, Injection> {
    if pairs == [] then map[]
    else
      var (source, hash) := pairs[|pairs| - 1];
      var before := Injected(pairs[..|pairs| - 1], now);
      if source == "" then before else before[source := Injection(hash, now)]
  }

  function RecordOf(m: Manifest, now: nat): Record { Record(m.service, m.mechanism, Injected(Named(m), now), now) }

  /** The k-th pair is the last to name the source. */
  ghost predicate LastNamed(pairs: seq<(string, string)>, s: string, k: nat) {
    k < |pairs| && pairs[k].0 == s && forall j :: k < j < |pairs| ==> pairs[j].0 != s
  }

  lemma {:induction false} InjectedIs(pairs: seq<(string, string)>, now: nat, s: string)
    ensures s in Injected(pairs, now) <==> s != "" && exists k: nat :: LastNamed(pairs, s, k)
    ensures forall k: nat :: LastNamed(pairs, s, k) && s != "" ==>
              s in Injected(pairs, now) && Injected(pairs, now)[s] == Injection(pairs[k].1, now)
  {
    if pairs != [] {
      var n := |pairs| - 1;
      var before := pairs[..n];
      InjectedIs(before, now, s);
      if pairs[n].0 == s {
        assert LastNamed(pairs, s, n);
      } else {
        forall k: nat ensures LastNamed(pairs, s, k) <==> LastNamed(before, s, k) {
          if LastNamed(before, s, k) { assert forall j :: k <= j < n ==> before[j] == pairs[j]; }
          if LastNamed(pairs, s, k) { assert forall j :: k <= j < n ==> before[j] == pairs[j]; }
        }
      }
    }
  }

  /** The pairs a manifest names are those of its files, its renders and its variables, in that order. */
  lemma NamedIs(m: Manifest)
    ensures var f, r, e := |m.files|, |m.renders|, |m.env|;
            && |Named(m)| == f + r + e
            && (forall i :: 0 <= i < f ==> Named(m)[i] == (m.files[i].source, m.files[i].cipherHash))
            && (forall i :: 0 <= i < r ==> Named(m)[f + i] == (m.renders[i].source, m.renders[i].cipherHash))
            && (forall i :: 0 <= i < e ==> Named(m)[f + r + i] == (m.env[i].source, m.env[i].cipherHash))
  {
  }

  /** The last hash the manifest names for the source. */
  ghost predicate NamesLast(m: Manifest, s: string, hash: string) {
    exists k: nat :: LastNamed(Named(m), s, k) && Named(m)[k].1 == hash
  }

  /** A record is of the manifest's service and mechanism, and holds each source it names with its last hash. */
  lemma RecordSays(m: Manifest, now: nat, s: string)
    ensures var r := RecordOf(m, now);
            && r.service == m.service && r.mechanism == m.mechanism && r.updatedAt == now
            && (s in r.sources <==> s != "" && exists hash :: NamesLast(m, s, hash))
            && (s in r.sources ==> NamesLast(m, s, r.sources[s].cipherHash) && r.sources[s].injectedAt == now)
  {
    InjectedIs(Named(m), now, s);
    if k: nat :| LastNamed(Named(m), s, k) { assert NamesLast(m, s, Named(m)[k].1); }
  }

  // ---- drift ----

  /** The source's ciphertext is not what was injected: another hash, or none to be had. */
  predicate Changed(rec: Record, source: string, store: Store) {
    source in rec.sources && HashOf(store, source) != Ok(rec.sources[source].cipherHash)
  }

  function Entry(container: string, rec: Record, source: string, store: Store): Drift
    requires source in rec.sources
  {
    var inj := rec.sources[source];
    match HashOf(store, source)
    case Err(_) => Drift(container, rec.service, source, inj.cipherHash, "", inj.injectedAt, true)
    case Ok(h) => Drift(container, rec.service, source, inj.cipherHash, h, inj.injectedAt, false)
  }

  function ByPlace(d: Drift): Key { (d.container, d.source) }

  /** The report lists exactly the recorded sources that changed, sorted by container then source, each once. */
  ghost predicate Reports(out: seq<Drift>, records: Records, store: Store) {
    && Ordered(out, ByPlace)
    && (forall d <- out :: d.container in records && Changed(records[d.container], d.source, store)
                           && d == Entry(d.container, records[d.container], d.source, store))
    && (forall c, s :: c in records && Changed(records[c], s, store) ==> Entry(c, records[c], s, store) in out)
  }

  /** There is one such report: neither map order nor the order of asking can show. */
  lemma ReportUnique(a: seq<Drift>, b: seq<Drift>, records: Records, store: Store)
    requires Reports(a, records, store) && Reports(b, records, store)
    ensures a == b
  {
    assert forall d <- a :: d in b;
    assert forall d <- b :: d in a;
    OrderedUnique(a, b, ByPlace);
  }

  /** The ledger in memory. */
  class Ledger {
    var records: Records

    constructor ()
      ensures records == map[]
    {
      records := map[];
    }

    /** RecordManifest, up to its save. */
    method RecordManifest(manifest: Option<Manifest>, now: nat) returns (ok: bool)
      modifies this
      ensures ok <==> manifest.Some? && manifest.value.container != ""
      ensures records == if ok then old(records)[manifest.value.container := RecordOf(manifest.value, now)]
                         else old(records)
    {
      if manifest.None? || manifest.value.container == "" { return false; }
      var m := manifest.value;
      var sources := GatherSources(m, now);
      records := records[m.container := Record(m.service, m.mechanism, sources, now)];
      ok := true;
    }

    /** Forget, up to its save; nothing is saved when nothing was known. */
    method Forget(container: string) returns (known: bool)
      modifies this
      ensures known <==> container in old(records)
      ensures records == old(records) - {container}
    {
      known := container in records;
      if known { records := records - {container}; }
    }

    /** Record: a copy of one container's record. */
    method RecordFor(container: string) returns (res: Option<Record>)
      ensures res == if container in records then Some(records[container]) else None
    {
      if container !in records { return None; }
      res := Some(records[container]);
    }

    /** Drift: compares each recorded hash with the current one, asking for no source's hash twice. */
    method FindDrift(hasher: Hasher) returns (out: seq<Drift>)
      modifies hasher
      ensures Reports(out, records, hasher.store)
      ensures old(hasher.calls) <= hasher.calls && NoRepeats(hasher.calls[|old(hasher.calls)|..])
    {
      var snapshot := records;
      var cache := new HashCache(hasher);
      var found := [];
      var containers := Sorting.Range(snapshot.Keys);
      for i := 0 to |containers|
        invariant cache.Valid() && FoundIn(found, snapshot, containers[..i], hasher.store)
      {
        var c := containers[i];
        assert c in Elems(containers);
        var here := DriftOf(c, snapshot[c], cache);
        FoundMore(found, here, snapshot, containers, i, hasher.store);
        found := found + here;
      }
      assert containers[..|containers|] == containers;
      assert forall c <- snapshot :: c in Elems(containers);
      out := Sort(found, ByPlace);
      assert forall d :: d in out <==> d in Elems(out);
      assert forall d :: d in found <==> d in Elems(found);
    }
  }

  /** The add closure of RecordManifest. */
  method Add(sources: map<string, Injection>, source: string, hash: string, now: nat, ghost ps: seq<(string, string)>)
    returns (r: map<string, Injection>)
    requires sources == Injected(ps, now)
    ensures r == Injected(ps + [(source, hash)], now)
  {
    assert (ps + [(source, hash)])[..|ps|] == ps;
    if source == "" { return sources; }
    r := sources[source := Injection(hash, now)];
  }

  /** The three loops of RecordManifest. */
  method GatherSources(m: Manifest, now: nat) returns (sources: map<string, Injection>)
    ensures sources == Injected(Named(m), now)
  {
    sources := map[];
    ghost var ps := [];
    for i := 0 to |m.files|
      invariant sources == Injected(ps, now) && ps == Map(FilePair, m.files[..i])
    {
      sources := Add(sources, m.files[i].source, m.files[i].cipherHash, now, ps);
      ps := ps + [FilePair(m.files[i])];
    }
    assert m.files[..|m.files|] == m.files;
    ghost var front := ps;
    for i := 0 to |m.renders|
      invariant sources == Injected(ps, now) && ps == front + Map(RenderPair, m.renders[..i])
    {
      sources := Add(sources, m.renders[i].source, m.renders[i].cipherHash, now, ps);
      ps := ps + [RenderPair(m.renders[i])];
    }
    assert m.renders[..|m.renders|] == m.renders;
    front := ps;
    for i := 0 to |m.env|
      invariant sources == Injected(ps, now) && ps == front + Map(EnvPair, m.env[..i])
    {
      sources := Add(sources, m.env[i].source, m.env[i].cipherHash, now, ps);
      ps := ps + [EnvPair(m.env[i])];
    }
    assert m.env[..|m.env|] == m.env;
  }

  ghost predicate Distinct(ds: seq<Drift>) { forall i, j :: 0 <= i < j < |ds| ==> ByPlace(ds[i]) != ByPlace(ds[j]) }

  /** The drift of the containers seen so far, in any order. */
  ghost predicate FoundIn(found: seq<Drift>, records: Records, containers: seq<string>, store: Store) {
    && Distinct(found)
    && (forall d <- found :: d.container in containers && d.container in records
                             && Changed(records[d.container], d.source, store)
                             && d == Entry(d.container, records[d.container], d.source, store))
    && (forall c, s :: c in containers && c in records && Changed(records[c], s, store) ==>
        Entry(c, records[c], s, store) in found)
  }

  ghost predicate FoundAt(here: seq<Drift>, c: string, rec: Record, store: Store) {
    && Distinct(here)
    && (forall d <- here :: d.container == c && Changed(rec, d.source, store) && d == Entry(c, rec, d.source, store))
    && (forall s :: Changed(rec, s, store) ==> Entry(c, rec, s, store) in here)
  }

  lemma FoundMore(found: seq<Drift>, here: seq<Drift>, records: Records, containers: seq<string>, i: nat, store: Store)
    requires i < |containers| && containers[i] in records && containers[i] !in containers[..i]
    requires FoundIn(found, records, containers[..i], store)
    requires FoundAt(here, containers[i], records[containers[i]], store)
    ensures FoundIn(found + here, records, containers[..i + 1], store)
  {
    assert containers[..i + 1] == containers[..i] + [containers[i]];
    assert forall d <- found :: d.container != containers[i];
  }

  /** The inner loop of Drift: one container's sources, in any order. */
  method DriftOf(c: string, rec: Record, cache: HashCache) returns (here: seq<Drift>)
    requires cache.Valid()
    modifies cache`known, cache.hasher
    ensures cache.Valid() && FoundAt(here, c, rec, cache.hasher.store)
  {
    here := [];
    var names := Sorting.Range(rec.sources.Keys);
    ghost var store := cache.hasher.store;
    for i := 0 to |names|
      invariant cache.Valid() && Distinct(here)
      invariant forall d <- here :: d.container == c && d.source in names[..i] && Changed(rec, d.source, store)
                                    && d == Entry(c, rec, d.source, store)
      invariant forall s <- names[..i] :: Changed(rec, s, store) ==> Entry(c, rec, s, store) in here
    {
      var s := names[i];
      assert s in Elems(names) && s !in names[..i];
      assert names[..i + 1] == names[..i] + [s];
      var inj := rec.sources[s];
      var cur := cache.HashOnce(s);
      if cur.Err? {
        here := here + [Drift(c, rec.service, s, inj.cipherHash, "", inj.injectedAt, true)];
      } else if cur.value != inj.cipherHash {
        here := here + [Drift(c, rec.service, s, inj.cipherHash, cur.value, inj.injectedAt, false)];
      }
    }
    assert names[..|names|] == names;
    assert forall s <- rec.sources :: s in Elems(names);
  }

  // ---- over whole runs ----

  datatype Op = Rec(manifest: Manifest, now: nat) | Drop(container: string)

  /** The records after a run of operations, the newest last. */
  function RecordsAfter(ops: seq<Op>): Records {
    if ops == [] then map[]
    else
      var before := RecordsAfter(ops[..|ops| - 1]);
      match ops[|ops| - 1]
      case Rec(m, now) => if m.container == "" then before else before[m.container := RecordOf(m, now)]
      case Drop(c) => before - {c}
  }

  predicate About(op: Op, c: string) { match op case Rec(m, _) => m.container == c case Drop(d) => d == c }

  /** The k-th operation is the container's latest injection and it has not been forgotten since. */
  ghost predicate LatestInjection(ops: seq<Op>, c: string, k: nat) {
    k < |ops| && ops[k].Rec? && About(ops[k], c) && forall j :: k < j < |ops| ==> !About(ops[j], c)
  }

  lemma {:induction false} RecordsAreLatest(ops: seq<Op>, c: string)
    requires c != ""
    ensures c in RecordsAfter(ops) <==> exists k: nat :: LatestInjection(ops, c, k)
    ensures forall k: nat :: LatestInjection(ops, c, k) ==>
              c in RecordsAfter(ops) && RecordsAfter(ops)[c] == RecordOf(ops[k].manifest, ops[k].now)
  {
    if ops != [] {
      var n := |ops| - 1;
      var before := ops[..n];
      RecordsAreLatest(before, c);
      if About(ops[n], c) {
        assert ops[n].Rec? ==> LatestInjection(ops, c, n);
      } else {
        forall k: nat ensures LatestInjection(ops, c, k) <==> LatestInjection(before, c, k) {
          if LatestInjection(before, c, k) { assert forall j :: k <= j < n ==> before[j] == ops[j]; }
          if LatestInjection(ops, c, k) { assert forall j :: k <= j < n ==> before[j] == ops[j]; }
        }
      }
    }
  }

  /** The manifest named the source, and the hash it named last is not the source's hash now. */
  ghost predicate Drifted(m: Manifest, s: string, store: Store) {
    s != "" && exists hash :: NamesLast(m, s, hash) && !(s in store && store[s].hash == Some(hash))
  }

  lemma LastOnce(m: Manifest, s: string, a: string, b: string)
    requires NamesLast(m, s, a) && NamesLast(m, s, b)
    ensures a == b
  {
    var j: nat :| LastNamed(Named(m), s, j) && Named(m)[j].1 == a;
    var k: nat :| LastNamed(Named(m), s, k) && Named(m)[k].1 == b;
    assert j == k by { assert !(j < k) && !(k < j); }
  }

  lemma ChangedIff(m: Manifest, now: nat, s: string, store: Store)
    ensures Changed(RecordOf(m, now), s, store) <==> Drifted(m, s, store)
  {
    RecordSays(m, now, s);
    var r := RecordOf(m, now);
    if hash :| NamesLast(m, s, hash) && s in r.sources { LastOnce(m, s, hash, r.sources[s].cipherHash); }
    if Drifted(m, s, store) {
      var hash :| NamesLast(m, s, hash) && !(s in store && store[s].hash == Some(hash));
      LastOnce(m, s, hash, r.sources[s].cipherHash);
    }
  }

  /**
    * Exact drift: after any run of records and forgets, (container, source) is reported exactly when the container's
    * latest injection named that source and its hash is now another one or cannot be read.
    */
  lemma DriftIsExact(ops: seq<Op>, out: seq<Drift>, store: Store, c: string, s: string)
    requires Reports(out, RecordsAfter(ops), store) && c != ""
    ensures (exists d :: d in out && d.container == c && d.source == s) <==>
            exists k: nat :: LatestInjection(ops, c, k) && Drifted(ops[k].manifest, s, store)
  {
    RecordsAreLatest(ops, c);
    var records := RecordsAfter(ops);
    if c in records {
      var k: nat :| LatestInjection(ops, c, k);
      ChangedIff(ops[k].manifest, ops[k].now, s, store);
      assert forall j: nat :: LatestInjection(ops, c, j) ==> j == k;
      if Changed(records[c], s, store) { assert Entry(c, records[c], s, store) in out; }
    }
  }

  /** What a reported drift says: who, what and when the injection was, and the hash now, or that there is none. */
  ghost predicate DriftSaid(m: Manifest, now: nat, store: Store, d: Drift) {
    && d.service == m.service && d.injectedAt == now && NamesLast(m, d.source, d.injectedHash)
    && if d.source in store && store[d.source].hash.Some?
       then !d.missing && d.currentHash == store[d.source].hash.value && d.currentHash != d.injectedHash
       else d.missing && d.currentHash == ""
  }

  /** Every reported drift is told as its container's latest injection and the sources now have it. */
  lemma DriftSays(ops: seq<Op>, out: seq<Drift>, store: Store, d: Drift)
    requires Reports(out, RecordsAfter(ops), store) && d in out && d.container != ""
    ensures exists k: nat :: LatestInjection(ops, d.container, k) && DriftSaid(ops[k].manifest, ops[k].now, store, d)
  {
    RecordsAreLatest(ops, d.container);
    var k: nat :| LatestInjection(ops, d.container, k);
    RecordSays(ops[k].manifest, ops[k].now, d.source);
    assert DriftSaid(ops[k].manifest, ops[k].now, store, d);
  }

  /** Right after the manifest built for a plan is recorded, with the sources unchanged, its container has no drift. */
  lemma NoDriftAfterRecording(p: Plan, store: Store, generated: string, now: nat, records: Records, out: seq<Drift>)
    requires ManifestOf(p, store, generated).Ok?
    requires var m := ManifestOf(p, store, generated).value;
             Reports(out, records[m.container := RecordOf(m, now)], store)
    ensures forall d <- out :: d.container != p.container
  {
    var m := ManifestOf(p, store, generated).value;
    BuiltHashes(p, store, generated);
    forall s | s in RecordOf(m, now).sources ensures !Changed(RecordOf(m, now), s, store) {
      InjectedIs(Named(m), now, s);
      var k: nat :| LastNamed(Named(m), s, k);
      assert Named(m)[k] in Named(m);
    }
  }

  /** Every hash in a built manifest is the current hash of the source beside it. */
  lemma BuiltHashes(p: Plan, store: Store, generated: string)
    requires ManifestOf(p, store, generated).Ok?
    ensures forall pair <- Named(ManifestOf(p, store, generated).value) :: HashOf(store, pair.0) == Ok(pair.1)
  {
    var ff, fr := (t: FileTarget) => FileEntry(store, t), (t: RenderTarget) => RenderEntry(store, t);
    var fe := (t: EnvTarget) => EnvEntry(store, t);
    CollectOk(Map(ff, p.files));
    CollectOk(Map(fr, p.renders));
    CollectOk(Map(fe, p.env));
    var m := ManifestOf(p, store, generated).value;
    forall i | 0 <= i < |m.files| ensures HashOf(store, m.files[i].source) == Ok(m.files[i].cipherHash) {
      assert Map(ff, p.files)[i] == Ok(m.files[i]);
    }
    forall i | 0 <= i < |m.renders| ensures HashOf(store, m.renders[i].source) == Ok(m.renders[i].cipherHash) {
      assert Map(fr, p.renders)[i] == Ok(m.renders[i]);
    }
    forall i | 0 <= i < |m.env| ensures HashOf(store, m.env[i].source) == Ok(m.env[i].cipherHash) {
      assert Map(fe, p.env)[i] == Ok(m.env[i]);
    }
  }
}
