/** The execution vocabulary: what a plan names, and the manifest that records a delivery. */
module Plans {
  import opened Prelude
  import opened Sorting
  import opened Dotenv
  import opened SopsAge

  const CLIENT := "client"
  const HOOK := "hook"
  const VOLUME := "volume"

  predicate ValidMechanism(m: string) { m == CLIENT || m == HOOK || m == VOLUME }

  predicate EnvAllowed(m: string) { m == CLIENT }

  const RENDER_DOTENV := "dotenv"
  const RENDER_ENVDIR := "envdir"

  datatype FileTarget = FileTarget(name: string, source: string, format: string, whole: bool, key: string,
                                   path: string, owner: string, mode: string, pointerVar: string)
  datatype EnvTarget = EnvTarget(varName: string, source: string, key: string, all: bool)
  datatype RenderTarget = RenderTarget(kind: string, source: string, path: string, owner: string, mode: string)
  datatype Plan = Plan(container: string, service: string, mechanism: string, env: seq<EnvTarget>,
                       files: seq<FileTarget>, renders: seq<RenderTarget>, envExposure: bool)

  /** Every source a plan reads. */
  ghost function SourcesOf(p: Plan): set<string> {
    (set t <- p.files :: t.source) + (set t <- p.renders :: t.source) + (set t <- p.env :: t.source)
  }

  datatype ManifestFile = ManifestFile(name: string, path: string, owner: string, mode: string, source: string,
                                       cipherHash: string, pointerVar: string)
  datatype ManifestRender = ManifestRender(kind: string, path: string, source: string, cipherHash: string)
  datatype ManifestEnv = ManifestEnv(varName: string, source: string, key: string, all: bool, cipherHash: string)
  datatype Manifest = Manifest(version: nat, container: string, service: string, mechanism: string, generated: string,
                               files: seq<ManifestFile>, renders: seq<ManifestRender>, env: seq<ManifestEnv>)

  /**
    * JSON marshalling and parsing, of which only their being inverse matters; a manifest without a version is
    * rejected.
    */
  datatype Codec = Codec(marshal: Manifest -> string, parse: string -> Option<Manifest>) {
    ghost predicate Inverse() { forall m: Manifest :: m.version > 0 ==> parse(marshal(m)) == Some(m) }
  }

  function FileEntry(store: Store, t: FileTarget): Result<ManifestFile, Failure> {
    var h :- HashOf(store, t.source);
    Ok(ManifestFile(t.name, t.path, t.owner, t.mode, t.source, h, t.pointerVar))
  }

  function RenderEntry(store: Store, t: RenderTarget): Result<ManifestRender, Failure> {
    var h :- HashOf(store, t.source);
    Ok(ManifestRender(t.kind, t.path, t.source, h))
  }

  function EnvEntry(store: Store, t: EnvTarget): Result<ManifestEnv, Failure> {
    var h :- HashOf(store, t.source);
    Ok(ManifestEnv(t.varName, t.source, t.key, t.all, h))
  }

  /** BuildManifest: one entry per delivery with its source's ciphertext hash, or the first hash failure. */
  function ManifestOf(p: Plan, store: Store, generated: string): Result<Manifest, Failure> {
    var files :- Collect(Map((t: FileTarget) => FileEntry(store, t), p.files));
    var renders :- Collect(Map((t: RenderTarget) => RenderEntry(store, t), p.renders));
    var env :- Collect(Map((t: EnvTarget) => EnvEntry(store, t), p.env));
    Ok(Manifest(1, p.container, p.service, p.mechanism, generated, files, renders, env))
  }

  /** The hashing side of an Opener, remembering which sources it was asked about. */
  class Hasher {
    const store: Store
    var calls: seq<string>

    constructor (store: Store)
      ensures this.store == store && calls == []
    {
      this.store := store;
      calls := [];
    }

    method SourceCipherHash(name: string) returns (res: Result<string, Failure>)
      modifies this
      ensures res == HashOf(store, name) && calls == old(calls) + [name]
    {
      calls := calls + [name];
      res := HashOf(store, name);
    }
  }

  ghost predicate NoRepeats(xs: seq<string>) { forall i, j :: 0 <= i < j < |xs| ==> xs[i] != xs[j] }

  /** The per-call hash cache of BuildManifest and Drift: asked-for hashes, so that none is asked for twice. */
  class HashCache {
    const hasher: Hasher
    ghost const before: seq<string>
    var known: map<string, Result<string, Failure>>

    ghost predicate Valid()
      reads this, hasher
    {
      && before <= hasher.calls
      && NoRepeats(hasher.calls[|before|..]) && Elems(hasher.calls[|before|..]) == known.Keys
      && forall s <- known.Keys :: known[s] == HashOf(hasher.store, s)
    }

    constructor (hasher: Hasher)
      ensures Valid() && this.hasher == hasher && before == hasher.calls
    {
      this.hasher := hasher;
      before := hasher.calls;
      known := map[];
    }

    method HashOnce(name: string) returns (res: Result<string, Failure>)
      requires Valid()
      modifies this`known, hasher
      ensures Valid() && res == HashOf(hasher.store, name)
    {
      if name in known { return known[name]; }
      ghost var asked := hasher.calls[|before|..];
      res := hasher.SourceCipherHash(name);
      assert hasher.calls[|before|..] == asked + [name];
      assert forall i :: 0 <= i < |asked| ==> asked[i] in Elems(asked);
      known := known[name := res];
    }
  }

  /** The file loop of BuildManifest. */
  method FileEntries(files: seq<FileTarget>, cache: HashCache) returns (res: Result<seq<ManifestFile>, Failure>)
    requires cache.Valid()
    modifies cache`known, cache.hasher
    ensures cache.Valid() && res == Collect(Map((t: FileTarget) => FileEntry(cache.hasher.store, t), files))
  {
    ghost var f := (t: FileTarget) => FileEntry(cache.hasher.store, t);
    var out := [];
    assert files[..0] == [] && Map(f, []) == [];
    for i := 0 to |files|
      invariant cache.Valid() && Collect(Map(f, files[..i])) == Ok(out)
    {
      var t := files[i];
      CollectStep(f, files, i, out);
      var h :- cache.HashOnce(t.source);
      out := out + [ManifestFile(t.name, t.path, t.owner, t.mode, t.source, h, t.pointerVar)];
    }
    assert files[..|files|] == files;
    res := Ok(out);
  }

  /** The render loop of BuildManifest. */
  method RenderEntries(renders: seq<RenderTarget>, cache: HashCache) returns (res: Result<seq<ManifestRender>, Failure>)
    requires cache.Valid()
    modifies cache`known, cache.hasher
    ensures cache.Valid() && res == Collect(Map((t: RenderTarget) => RenderEntry(cache.hasher.store, t), renders))
  {
    ghost var f := (t: RenderTarget) => RenderEntry(cache.hasher.store, t);
    var out := [];
    assert renders[..0] == [] && Map(f, []) == [];
    for i := 0 to |renders|
      invariant cache.Valid() && Collect(Map(f, renders[..i])) == Ok(out)
    {
      var t := renders[i];
      CollectStep(f, renders, i, out);
      var h :- cache.HashOnce(t.source);
      out := out + [ManifestRender(t.kind, t.path, t.source, h)];
    }
    assert renders[..|renders|] == renders;
    res := Ok(out);
  }

  /** The env loop of BuildManifest. */
  method EnvEntries(env: seq<EnvTarget>, cache: HashCache) returns (res: Result<seq<ManifestEnv>, Failure>)
    requires cache.Valid()
    modifies cache`known, cache.hasher
    ensures cache.Valid() && res == Collect(Map((t: EnvTarget) => EnvEntry(cache.hasher.store, t), env))
  {
    ghost var f := (t: EnvTarget) => EnvEntry(cache.hasher.store, t);
    var out := [];
    assert env[..0] == [] && Map(f, []) == [];
    for i := 0 to |env|
      invariant cache.Valid() && Collect(Map(f, env[..i])) == Ok(out)
    {
      var t := env[i];
      CollectStep(f, env, i, out);
      var h :- cache.HashOnce(t.source);
      out := out + [ManifestEnv(t.varName, t.source, t.key, t.all, h)];
    }
    assert env[..|env|] == env;
    res := Ok(out);
  }

  /** BuildManifest: the manifest of the plan, asking for no source's hash twice. */
  method BuildManifest(p: Plan, hasher: Hasher, generated: string) returns (res: Result<Manifest, Failure>)
    modifies hasher
    ensures res == ManifestOf(p, hasher.store, generated)
    ensures old(hasher.calls) <= hasher.calls && NoRepeats(hasher.calls[|old(hasher.calls)|..])
  {
    var cache := new HashCache(hasher);
    var files :- FileEntries(p.files, cache);
    var renders :- RenderEntries(p.renders, cache);
    var env :- EnvEntries(p.env, cache);
    res := Ok(Manifest(1, p.container, p.service, p.mechanism, generated, files, renders, env));
  }
}
