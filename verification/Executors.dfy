/** One plan executed two ways: written into a shared volume, or carried in a bundle and applied by the client. */
module Executors {
  import opened Prelude
  import opened Text
  import opened LockedMemory
  import opened Wire
  import opened Dotenv
  import opened SopsAge
  import opened Plans
  import opened Paths
  import opened Files
  import opened BuildBundle

  const MANIFEST_PATH := Written(Path(true, ROOT + ["manifest"]))
  const MANIFEST_OWNER := "0:0"
  const MANIFEST_MODE := "0444"

  // ---- the volume executor ----

  function VolumeFile(store: Store, t: FileTarget, mount: string): Result<Write, Failure> {
    var dst :- Rebase(t.path, mount);
    var data :- Secret(store, t);
    Ok(Write(Clean(dst), Rec(data, t.owner, t.mode)))
  }

  function VolumeKey(src: Source, t: RenderTarget, dst: string, key: string): Result<Write, Failure> {
    var v :- ValueOf(src, key);
    Ok(Write(Clean(JoinPath(dst, key)), Rec(v, t.owner, t.mode)))
  }

  /** The writes a render makes into the volume, up to and including the one that stops it. */
  function VolumeRender(store: Store, t: RenderTarget, mount: string): seq<Result<Write, Failure>> {
    match Rebase(t.path, mount)
    case Err(e) => [Err(e)]
    case Ok(dst) =>
      match Opened(store, t.source)
      case Err(e) => [Err(e)]
      case Ok(src) => VolumeRenderOf(src, t, dst)
  }

  function VolumeDotenv(src: Source, t: RenderTarget, dst: string, keys: seq<string>): Result<Write, Failure> {
    var text :- DotenvText(src, keys);
    Ok(Write(Clean(dst), Rec(text, t.owner, t.mode)))
  }

  function VolumeRenderOf(src: Source, t: RenderTarget, dst: string): seq<Result<Write, Failure>> {
    match KeysOf(src)
    case Err(e) => [Err(e)]
    case Ok(keys) =>
      if t.kind == RENDER_DOTENV then
        [VolumeDotenv(src, t, dst, keys)]
      else if t.kind == RENDER_ENVDIR then Map((k: string) => VolumeKey(src, t, dst, k), keys)
      else [Err(BadRenderKind)]
  }

  /** Every write applyVolume means to make before the manifest, in order; it stops at the first that is an error. */
  function VolumeIntents(p: Plan, store: Store, mount: string): seq<Result<Write, Failure>> {
    Map((t: FileTarget) => VolumeFile(store, t, mount), p.files)
    + Concat(Map((t: RenderTarget) => VolumeRender(store, t, mount), p.renders))
  }

  function VolumeManifest(m: string, mount: string): Write {
    Write(Clean(match Rebase(MANIFEST_PATH, mount) case Ok(d) => d case Err(_) => ""),
          Rec(m, MANIFEST_OWNER, MANIFEST_MODE))
  }

  /** The first n intents were carried out, and nothing else. */
  ghost predicate DidFirst(before: FileMap, after: FileMap, intents: seq<Result<Write, Failure>>, n: nat) {
    n <= |intents| && Collect(intents[..n]).Ok? && after == Apply(before, Collect(intents[..n]).value)
  }

  lemma DidNone(files: FileMap, intents: seq<Result<Write, Failure>>)
    ensures DidFirst(files, files, intents, 0)
  {
    assert intents[..0] == [];
  }

  lemma DidOneMore(before: FileMap, mid: FileMap, after: FileMap, intents: seq<Result<Write, Failure>>, n: nat)
    requires DidFirst(before, mid, intents, n) && n < |intents| && intents[n].Ok?
    requires after == mid[intents[n].value.path := intents[n].value.rec]
    ensures DidFirst(before, after, intents, n + 1)
  {
    assert intents[..n + 1] == intents[..n] + [intents[n]];
    CollectAppend(intents[..n], [intents[n]]);
    CollectOne(intents[n]);
    ApplySnoc(before, Collect(intents[..n]).value, intents[n].value);
  }

  /** WriteFile, its destination already rebased. */
  method WriteFile(host: Host, store: Store, t: FileTarget, dst: string, mem: Memory) returns (res: Result<(), Failure>)
    requires mem.Counted()
    modifies host`calls, host`temps, host`files, mem
    ensures mem.Counted() && Extends(old(mem.slots), mem.slots, {}) && host.temps == old(host.temps)
    ensures res.Ok? ==> Secret(store, t).Ok?
                        && host.files == old(host.files)[Clean(dst) := Rec(Secret(store, t).value, t.owner, t.mode)]
    ensures res.Err? ==> host.files == old(host.files)
    ensures host.Reliable() ==> (res.Ok? <==> Secret(store, t).Ok?)
                                && (Secret(store, t).Err? ==> res == Err(Secret(store, t).error))
  {
    var h :- OpenSource(store, t.source, mem);
    var temp :- host.BeginWrite();
    var data: Result<string, Failure>;
    if t.whole {
      data := h.WritePayload();
    } else {
      data := h.WriteValue(t.key);
    }
    res := host.EndWrite(temp, dst, t.owner, t.mode, data);
    h.Close();
  }

  /** The produce closure of a dotenv render: each key, "=", its value streamed from the backend, and a newline. */
  method ProduceDotenv(h: Handle, keys: seq<string>) returns (res: Result<string, Failure>)
    requires h.mem.Counted()
    modifies h.mem
    ensures h.mem.Counted() && Extends(old(h.mem.slots), h.mem.slots, {})
    ensures res == DotenvText(h.src, keys)
  {
    var text := "";
    assert keys[..0] == [];
    for i := 0 to |keys|
      invariant h.mem.Counted() && Extends(old(h.mem.slots), h.mem.slots, {})
      invariant DotenvText(h.src, keys[..i]) == Ok(text)
    {
      DotenvTextSnoc(h.src, keys, i);
      var v :- h.WriteValue(keys[i]);
      text := text + keys[i] + "=" + v + "\n";
    }
    assert keys[..|keys|] == keys;
    res := Ok(text);
  }

  /**
    * The outcome of running intents in order: on success all were carried out; on failure exactly the first few, and
    * when the system itself does not fail, the failure is that of the first intent that is an error.
    */
  ghost predicate Ran(before: FileMap, after: FileMap, intents: seq<Result<Write, Failure>>, res: Result<(), Failure>,
                      reliable: bool)
  {
    && (res.Ok? ==> DidFirst(before, after, intents, |intents|))
    && (res.Err? ==> exists n :: DidFirst(before, after, intents, n))
    && (reliable ==> match Collect(intents) case Ok(_) => res.Ok? case Err(e) => res == Err(e))
  }

  lemma {:induction false} ApplyAppend(files: FileMap, a: seq<Write>, b: seq<Write>)
    ensures Apply(files, a + b) == Apply(Apply(files, a), b)
  {
    if b == [] {
      assert a + b == a;
    } else {
      assert (a + b)[..|a + b| - 1] == a + b[..|b| - 1];
      ApplyAppend(files, a, b[..|b| - 1]);
    }
  }

  /** Two runs, the second after the whole of the first. */
  lemma RanThen(before: FileMap, mid: FileMap, after: FileMap, a: seq<Result<Write, Failure>>,
                b: seq<Result<Write, Failure>>, res: Result<(), Failure>, reliable: bool)
    requires Ran(before, mid, a, Ok(()), reliable) && Ran(mid, after, b, res, reliable)
    ensures Ran(before, after, a + b, res, reliable)
  {
    forall n: nat | DidFirst(mid, after, b, n) ensures DidFirst(before, after, a + b, |a| + n) {
      assert a[..|a|] == a && (a + b)[..|a| + n] == a + b[..n];
      CollectAppend(a, b[..n]);
      ApplyAppend(before, Collect(a).value, Collect(b[..n]).value);
    }
    assert a[..|a|] == a;
    CollectAppend(a, b);
  }

  /** A run that stopped early, with more meant to follow. */
  lemma RanStopped(before: FileMap, after: FileMap, a: seq<Result<Write, Failure>>, b: seq<Result<Write, Failure>>,
                   e: Failure, reliable: bool)
    requires Ran(before, after, a, Err(e), reliable)
    ensures Ran(before, after, a + b, Err(e), reliable)
  {
    forall n: nat | DidFirst(before, after, a, n) ensures DidFirst(before, after, a + b, n) {
      assert (a + b)[..n] == a[..n];
    }
    CollectAppend(a, b);
  }

  lemma RanNone(files: FileMap, reliable: bool)
    ensures Ran(files, files, [], Ok(()), reliable)
  {
    DidNone(files, []);
  }

  /** A single write, carried out or not. */
  lemma RanOne(before: FileMap, after: FileMap, x: Result<Write, Failure>, res: Result<(), Failure>, reliable: bool)
    requires res.Ok? ==> x.Ok? && after == before[x.value.path := x.value.rec]
    requires res.Err? ==> after == before
    requires reliable ==> (res.Ok? <==> x.Ok?) && (x.Err? ==> res == Err(x.error))
    ensures Ran(before, after, [x], res, reliable)
  {
    DidNone(before, [x]);
    CollectOne(x);
    if res.Ok? { DidOneMore(before, before, after, [x], 0); }
  }

  /** One run extends what has been done so far; when it failed, nothing that was meant to follow happens. */
  lemma RanNext(before: FileMap, mid: FileMap, after: FileMap, done: seq<Result<Write, Failure>>,
                xs: seq<Result<Write, Failure>>, rest: seq<Result<Write, Failure>>, res: Result<(), Failure>,
                reliable: bool)
    requires Ran(before, mid, done, Ok(()), reliable) && Ran(mid, after, xs, res, reliable)
    ensures res.Ok? ==> Ran(before, after, done + xs, Ok(()), reliable)
    ensures res.Err? ==> Ran(before, after, done + xs + rest, res, reliable)
  {
    RanThen(before, mid, after, done, xs, res, reliable);
    if res.Err? { RanStopped(before, after, done + xs, rest, res.error, reliable); }
  }

  /** One step of a loop of writes. */
  lemma RanStep(before: FileMap, mid: FileMap, after: FileMap, all: seq<Result<Write, Failure>>, i: nat,
                res: Result<(), Failure>, reliable: bool)
    requires i < |all| && Ran(before, mid, all[..i], Ok(()), reliable) && Ran(mid, after, [all[i]], res, reliable)
    ensures res.Ok? ==> Ran(before, after, all[..i + 1], Ok(()), reliable)
    ensures res.Err? ==> Ran(before, after, all, res, reliable)
  {
    RanNext(before, mid, after, all[..i], [all[i]], all[i + 1..], res, reliable);
    CutAt(all, i);
  }

  /** One file of an envdir render. */
  method WriteKey(host: Host, h: Handle, key: string, t: RenderTarget, dst: string) returns (res: Result<(), Failure>)
    requires h.mem.Counted()
    modifies host`calls, host`temps, host`files, h.mem
    ensures h.mem.Counted() && Extends(old(h.mem.slots), h.mem.slots, {}) && host.temps == old(host.temps)
    ensures Ran(old(host.files), host.files, [VolumeKey(h.src, t, dst, key)], res, host.Reliable())
  {
    res := WriteKeyFile(host, h, key, t, JoinPath(dst, key));
    RanOne(old(host.files), host.files, VolumeKey(h.src, t, dst, key), res, host.Reliable());
  }

  method WriteKeyFile(host: Host, h: Handle, key: string, t: RenderTarget, path: string)
    returns (res: Result<(), Failure>)
    requires h.mem.Counted()
    modifies host`calls, host`temps, host`files, h.mem
    ensures h.mem.Counted() && Extends(old(h.mem.slots), h.mem.slots, {}) && host.temps == old(host.temps)
    ensures var v := ValueOf(h.src, key);
            && (res.Ok? ==> v.Ok? && host.files == old(host.files)[Clean(path) := Rec(v.value, t.owner, t.mode)])
            && (res.Err? ==> host.files == old(host.files))
            && (host.Reliable() ==> (res.Ok? <==> v.Ok?) && (v.Err? ==> res == Err(v.error)))
  {
    var temp :- host.BeginWrite();
    var data := h.WriteValue(key);
    res := host.EndWrite(temp, path, t.owner, t.mode, data);
  }

  /** The envdir case of WriteRender: one file per key, each published as it is written. */
  method WriteEnvdir(host: Host, h: Handle, keys: seq<string>, t: RenderTarget, dst: string)
    returns (res: Result<(), Failure>)
    requires h.mem.Counted()
    modifies host`calls, host`temps, host`files, h.mem
    ensures h.mem.Counted() && Extends(old(h.mem.slots), h.mem.slots, {}) && host.temps == old(host.temps)
    ensures Ran(old(host.files), host.files, Map((k: string) => VolumeKey(h.src, t, dst, k), keys), res,
                host.Reliable())
  {
    ghost var all := Map((k: string) => VolumeKey(h.src, t, dst, k), keys);
    ghost var before, reliable := host.files, host.Reliable();
    RanNone(before, reliable);
    assert all[..0] == [];
    for i := 0 to |keys|
      invariant h.mem.Counted() && Extends(old(h.mem.slots), h.mem.slots, {}) && host.temps == old(host.temps)
      invariant Ran(before, host.files, all[..i], Ok(()), reliable)
    {
      ghost var mid := host.files;
      res := WriteKey(host, h, keys[i], t, dst);
      RanStep(before, mid, host.files, all, i, res, reliable);
      if res.Err? { return; }
    }
    assert all[..|keys|] == all;
    res := Ok(());
  }

  /** WriteRender, its destination already rebased. */
  method WriteRender(host: Host, store: Store, t: RenderTarget, dst: string, mem: Memory)
    returns (res: Result<(), Failure>)
    requires mem.Counted()
    modifies host`calls, host`temps, host`files, mem
    ensures mem.Counted() && Extends(old(mem.slots), mem.slots, {}) && host.temps == old(host.temps)
    ensures Ran(old(host.files), host.files,
                match Opened(store, t.source) case Err(e) => [Err(e)] case Ok(src) => VolumeRenderOf(src, t, dst),
                res, host.Reliable())
  {
    ghost var intents := match Opened(store, t.source)
                         case Err(e) => [Err(e)]
                         case Ok(src) => VolumeRenderOf(src, t, dst);
    DidNone(host.files, intents);
    var h := OpenSource(store, t.source, mem);
    if h.Err? { return Err(h.error); }
    var keys := h.value.Keys();
    if keys.Err? { return Err(keys.error); }
    if t.kind == RENDER_DOTENV {
      res := WriteDotenv(host, h.value, keys.value, t, dst);
      RanOne(old(host.files), host.files, intents[0], res, host.Reliable());
      assert intents == [intents[0]];
    } else if t.kind == RENDER_ENVDIR {
      res := WriteEnvdir(host, h.value, keys.value, t, dst);
    } else {
      res := Err(BadRenderKind);
    }
    h.value.Close();
  }

  /** The dotenv case of WriteRender: one file. */
  method WriteDotenv(host: Host, h: Handle, keys: seq<string>, t: RenderTarget, dst: string)
    returns (res: Result<(), Failure>)
    requires h.mem.Counted()
    modifies host`calls, host`temps, host`files, h.mem
    ensures h.mem.Counted() && Extends(old(h.mem.slots), h.mem.slots, {}) && host.temps == old(host.temps)
    ensures var text := DotenvText(h.src, keys);
            && (res.Ok? ==> text.Ok? && host.files == old(host.files)[Clean(dst) := Rec(text.value, t.owner, t.mode)])
            && (res.Err? ==> host.files == old(host.files))
            && (host.Reliable() ==> (res.Ok? <==> text.Ok?) && (text.Err? ==> res == Err(text.error)))
  {
    var temp :- host.BeginWrite();
    var text := ProduceDotenv(h, keys);
    res := host.EndWrite(temp, dst, t.owner, t.mode, text);
  }

  /** Rebase and write one file. */
  method WriteRebased(host: Host, t: FileTarget, store: Store, mount: string, mem: Memory)
    returns (res: Result<(), Failure>)
    requires mem.Counted()
    modifies host`calls, host`temps, host`files, mem
    ensures mem.Counted() && Extends(old(mem.slots), mem.slots, {}) && host.temps == old(host.temps)
    ensures Ran(old(host.files), host.files, [VolumeFile(store, t, mount)], res, host.Reliable())
  {
    var dst := Rebase(t.path, mount);
    if dst.Err? {
      res := Err(dst.error);
    } else {
      res := WriteFile(host, store, t, dst.value, mem);
    }
    RanOne(old(host.files), host.files, VolumeFile(store, t, mount), res, host.Reliable());
  }

  /** The file loop of applyVolume. */
  method WriteFiles(host: Host, files: seq<FileTarget>, store: Store, mount: string, mem: Memory)
    returns (res: Result<(), Failure>)
    requires mem.Counted()
    modifies host`calls, host`temps, host`files, mem
    ensures mem.Counted() && Extends(old(mem.slots), mem.slots, {}) && host.temps == old(host.temps)
    ensures Ran(old(host.files), host.files, Map((t: FileTarget) => VolumeFile(store, t, mount), files), res,
                host.Reliable())
  {
    ghost var intent := (t: FileTarget) => VolumeFile(store, t, mount);
    ghost var all := Map(intent, files);
    ghost var before, reliable := host.files, host.Reliable();
    RanNone(before, reliable);
    assert all[..0] == [];
    for i := 0 to |files|
      invariant mem.Counted() && Extends(old(mem.slots), mem.slots, {}) && host.temps == old(host.temps)
      invariant Ran(before, host.files, all[..i], Ok(()), reliable)
    {
      ghost var mid := host.files;
      res := WriteRebased(host, files[i], store, mount, mem);
      RanStep(before, mid, host.files, all, i, res, reliable);
      if res.Err? { return; }
    }
    assert all[..|files|] == all;
    res := Ok(());
  }

  /** Rebase and write one render. */
  method RenderRebased(host: Host, t: RenderTarget, store: Store, mount: string, mem: Memory)
    returns (res: Result<(), Failure>)
    requires mem.Counted()
    modifies host`calls, host`temps, host`files, mem
    ensures mem.Counted() && Extends(old(mem.slots), mem.slots, {}) && host.temps == old(host.temps)
    ensures Ran(old(host.files), host.files, VolumeRender(store, t, mount), res, host.Reliable())
  {
    var dst := Rebase(t.path, mount);
    if dst.Err? {
      res := Err(dst.error);
      RanOne(old(host.files), host.files, Err(dst.error), res, host.Reliable());
    } else {
      res := WriteRender(host, store, t, dst.value, mem);
    }
  }

  /** The render loop of applyVolume. */
  method WriteRenders(host: Host, renders: seq<RenderTarget>, store: Store, mount: string, mem: Memory)
    returns (res: Result<(), Failure>)
    requires mem.Counted()
    modifies host`calls, host`temps, host`files, mem
    ensures mem.Counted() && Extends(old(mem.slots), mem.slots, {}) && host.temps == old(host.temps)
    ensures Ran(old(host.files), host.files, Concat(Map((t: RenderTarget) => VolumeRender(store, t, mount), renders)),
                res, host.Reliable())
  {
    ghost var intents := (t: RenderTarget) => VolumeRender(store, t, mount);
    ghost var all := Map(intents, renders);
    ghost var before, reliable := host.files, host.Reliable();
    RanNone(before, reliable);
    assert all[..0] == [];
    for i := 0 to |renders|
      invariant mem.Counted() && Extends(old(mem.slots), mem.slots, {}) && host.temps == old(host.temps)
      invariant Ran(before, host.files, Concat(all[..i]), Ok(()), reliable)
    {
      ghost var mid := host.files;
      res := RenderRebased(host, renders[i], store, mount, mem);
      RanNext(before, mid, host.files, Concat(all[..i]), all[i], Concat(all[i + 1..]), res, reliable);
      ConcatAt(all, i);
      if res.Err? { return; }
    }
    assert all[..|renders|] == all;
    res := Ok(());
  }

  /** The end of applyVolume: the manifest, written at the rebased manifest path. */
  method PublishManifest(host: Host, p: Plan, store: Store, generated: string, codec: Codec, mount: string)
    returns (res: Result<(), Failure>)
    modifies host`calls, host`temps, host`files
    ensures host.temps == old(host.temps)
    ensures var m := ManifestOf(p, store, generated);
            && (res.Ok? ==> m.Ok? && var w := VolumeManifest(codec.marshal(m.value), mount);
                                     host.files == old(host.files)[w.path := w.rec])
            && (res.Err? ==> host.files == old(host.files))
            && (host.Reliable() ==> (res.Ok? <==> m.Ok?) && (m.Err? ==> res == Err(m.error)))
  {
    var hasher := new Hasher(store);
    var m :- BuildManifest(p, hasher, generated);
    ManifestRebases(mount);
    var dst := Rebase(MANIFEST_PATH, mount).value;
    res := host.WriteBytesFile(dst, MANIFEST_OWNER, MANIFEST_MODE, codec.marshal(m));
  }

  /**
    * applyVolume. It succeeds only after every planned file and then the manifest was written, in that order; when it
    * fails, exactly the first few planned files were written and the manifest was not. No plaintext buffer stays live
    * and no temporary stays behind either way.
    */
  method ApplyVolume(host: Host, p: Plan, store: Store, generated: string, codec: Codec, mount: string, mem: Memory)
    returns (res: Result<(), Failure>)
    requires mem.Counted()
    modifies host`calls, host`temps, host`files, mem
    ensures mem.Counted() && Extends(old(mem.slots), mem.slots, {}) && host.temps == old(host.temps)
    ensures p.env != [] ==> res == Err(EnvRefused)
    ensures p.env == [] && mount == "" ==> res == Err(NoMount)
    ensures p.env != [] || mount == "" ==> host.files == old(host.files)
    ensures res.Ok? ==>
              && Collect(VolumeIntents(p, store, mount)).Ok? && ManifestOf(p, store, generated).Ok?
              && host.files == Apply(old(host.files),
                                     Collect(VolumeIntents(p, store, mount)).value
                                     + [VolumeManifest(codec.marshal(ManifestOf(p, store, generated).value), mount)])
    ensures res.Err? ==> exists n :: DidFirst(old(host.files), host.files, VolumeIntents(p, store, mount), n)
    ensures host.Reliable() && p.env == [] && mount != "" ==>
              match (Collect(VolumeIntents(p, store, mount)), ManifestOf(p, store, generated))
              case (Err(e), _) => res == Err(e)
              case (Ok(_), Err(e)) => res == Err(e)
              case (Ok(_), Ok(_)) => res.Ok?
  {
    ghost var before, reliable := host.files, host.Reliable();
    ghost var a := Map((t: FileTarget) => VolumeFile(store, t, mount), p.files);
    ghost var b := Concat(Map((t: RenderTarget) => VolumeRender(store, t, mount), p.renders));
    assert VolumeIntents(p, store, mount) == a + b;
    DidNone(before, VolumeIntents(p, store, mount));
    if |p.env| > 0 { return Err(EnvRefused); }
    if mount == "" { return Err(NoMount); }
    res := WriteFiles(host, p.files, store, mount, mem);
    ghost var mid := host.files;
    if res.Err? {
      RanStopped(before, mid, a, b, res.error, reliable);
      return;
    }
    res := WriteRenders(host, p.renders, store, mount, mem);
    RanThen(before, mid, host.files, a, b, res, reliable);
    if res.Err? { return; }
    assert (a + b)[..|a + b|] == a + b;
    ghost var all := Collect(a + b).value;
    res := PublishManifest(host, p, store, generated, codec, mount);
    if res.Ok? { ApplySnoc(before, all, VolumeManifest(codec.marshal(ManifestOf(p, store, generated).value), mount)); }
  }

  lemma ManifestClean()
    ensures UnderRoot(MANIFEST_PATH) && BelowRoot(MANIFEST_PATH) == ["manifest"]
    ensures Clean(MANIFEST_PATH) == Path(true, ROOT + ["manifest"])
  {
    var parts := ROOT + ["manifest"];
    assert parts[..2] == ROOT && ROOT[..1] == ["run"] && ["run"][..0] == [];
    assert Good(true, ROOT);
    CleanWritten(Path(true, parts));
  }

  lemma ManifestSpelled()
    ensures MANIFEST_PATH == "/run/berm/manifest"
  {
    var parts := ROOT + ["manifest"];
    assert parts[1..] == ["berm", "manifest"] && ["berm", "manifest"][1..] == ["manifest"];
    assert Join(["manifest"], '/') == "manifest";
    assert Join(["berm", "manifest"], '/') == "berm/manifest";
    assert Join(parts, '/') == "run/berm/manifest";
  }

  lemma ManifestRebases(mount: string)
    ensures Rebase(MANIFEST_PATH, mount).Ok?
  {
    ManifestClean();
    RebaseAcceptsIff(MANIFEST_PATH, mount);
  }

  // ---- the client executor ----

  function FileWrite(f: FileV): Write { Write(Clean(f.path), Rec(f.data, f.owner, f.mode)) }

  /** Every write ApplyFiles means to make, in order: the files, then the manifest unless it is empty. */
  function ClientWrites(b: BundleV, manifestPath: string): seq<Write> {
    Map(FileWrite, b.files)
    + if b.manifest == "" then [] else [Write(Clean(manifestPath), Rec(b.manifest, MANIFEST_OWNER, MANIFEST_MODE))]
  }

  /** ApplyFiles. */
  method ApplyFiles(host: Host, b: BundleV, manifestPath: string) returns (res: Result<(), Failure>)
    modifies host`calls, host`temps, host`files
    ensures host.temps == old(host.temps)
    ensures res.Ok? ==> host.files == Apply(old(host.files), ClientWrites(b, manifestPath))
    ensures res.Err? ==> exists n :: 0 <= n < |ClientWrites(b, manifestPath)|
                                     && host.files == Apply(old(host.files), ClientWrites(b, manifestPath)[..n])
    ensures host.Reliable() ==> res.Ok?
  {
    ghost var ws, n := ClientWrites(b, manifestPath), |b.files|;
    assert ws[..0] == [];
    for i := 0 to |b.files|
      invariant host.temps == old(host.temps) && host.files == Apply(old(host.files), ws[..i])
    {
      var f := b.files[i];
      res := host.WriteBytesFile(f.path, f.owner, f.mode, f.data);
      if res.Err? { return; }
      assert ws[..i + 1] == ws[..i] + [FileWrite(f)];
      ApplySnoc(old(host.files), ws[..i], FileWrite(f));
    }
    if |b.manifest| > 0 {
      res := host.WriteBytesFile(manifestPath, MANIFEST_OWNER, MANIFEST_MODE, b.manifest);
      if res.Err? { return; }
      assert ws == ws[..n] + [ws[n]];
      ApplySnoc(old(host.files), ws[..n], ws[n]);
    } else {
      assert ws[..n] == ws;
    }
    res := Ok(());
  }
}
