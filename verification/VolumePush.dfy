/** A volume push of one plan as the sequence of writes the ready-signal argument is about. */
module VolumePush {
  import opened Prelude
  import opened Dotenv
  import opened SopsAge
  import opened Plans
  import opened Paths
  import opened Files
  import opened BuildBundle
  import opened Executors
  import opened Agreement
  import opened ReadySignal
  import LockedMemory

  function ManifestIntent(p: Plan, store: Store, generated: string, codec: Codec, mount: string)
    : Result<Write, Failure>
  {
    var m :- ManifestOf(p, store, generated);
    Ok(VolumeManifest(codec.marshal(m), mount))
  }

  /** Everything applyVolume means to write, the manifest last; one refusal when it does not begin at all. */
  function PushIntents(p: Plan, store: Store, generated: string, codec: Codec, mount: string): Intents {
    if p.env != [] then [Err(EnvRefused)]
    else if mount == "" then [Err(NoMount)]
    else VolumeIntents(p, store, mount) + [ManifestIntent(p, store, generated, codec, mount)]
  }

  function ManifestAt(mount: string): Path { Moved(Clean(MANIFEST_PATH), mount) }

  /** No key of any envdir render climbs above the volume root. */
  ghost predicate AllStay(p: Plan, store: Store) { forall t <- p.renders :: KeysStay(store, t) }

  /** As the container sees them, no planned target is the manifest path: no file, no render, no envdir key. */
  ghost predicate AvoidsManifest(p: Plan, store: Store) {
    && (forall t <- p.files :: Clean(t.path) != Clean(MANIFEST_PATH))
    && (forall t <- p.renders :: RenderAvoids(t, store))
  }

  ghost predicate RenderAvoids(t: RenderTarget, store: Store) {
    && (t.kind == RENDER_DOTENV ==> Clean(t.path) != Clean(MANIFEST_PATH))
    && (forall k <- FileKeys(store, t) :: Clean(t.path + "/" + k) != Clean(MANIFEST_PATH))
  }

  ghost predicate NoneAt(xs: Intents, path: Path) { forall x <- xs :: x.Ok? ==> x.value.path != path }

  lemma {:induction false} ConcatNoneAt(xss: seq<Intents>, path: Path)
    requires forall xs <- xss :: NoneAt(xs, path)
    ensures NoneAt(Concat(xss), path)
  {
    if xss != [] {
      ConcatNoneAt(xss[1..], path);
      assert NoneAt(xss[0], path);
    }
  }

  /** Of what the push may write, only the manifest goes to the manifest path. */
  ghost predicate LeavesManifest(p: Plan, store: Store, mount: string) {
    p.env == [] && mount != "" ==> NoneAt(VolumeIntents(p, store, mount), ManifestAt(mount))
  }

  /** What no delivery writes to, the push writes to at most as its manifest. */
  lemma IntentsNoneAt(p: Plan, store: Store, mount: string, path: Path)
    requires forall t <- p.files :: NoneAt([VolumeFile(store, t, mount)], path)
    requires forall t <- p.renders :: NoneAt(VolumeRender(store, t, mount), path)
    ensures NoneAt(VolumeIntents(p, store, mount), path)
  {
    var files := Map((t: FileTarget) => VolumeFile(store, t, mount), p.files);
    var renders := Map((t: RenderTarget) => VolumeRender(store, t, mount), p.renders);
    forall i | 0 <= i < |files| ensures files[i].Ok? ==> files[i].value.path != path {
      assert p.files[i] in p.files;
      assert files[i] in [VolumeFile(store, p.files[i], mount)];
    }
    forall i | 0 <= i < |renders| ensures NoneAt(renders[i], path) {
      assert p.renders[i] in p.renders;
    }
    ConcatNoneAt(renders, path);
  }

  // ---- the manifest path ----

  lemma FileAvoids(store: Store, t: FileTarget, mount: string)
    requires mount != "" && Clean(t.path) != Clean(MANIFEST_PATH)
    ensures NoneAt([VolumeFile(store, t, mount)], ManifestAt(mount))
  {
    RebaseAcceptsIff(t.path, mount);
    if UnderRoot(t.path) {
      FileAgrees(store, t, mount);
      ManifestClean();
      MovedInjective(Clean(t.path), Clean(MANIFEST_PATH), mount);
    }
  }

  /** A render writes nowhere but to its own path and to the paths of its keys. */
  lemma RenderNoneAt(store: Store, t: RenderTarget, mount: string, path: Path)
    requires mount != ""
    requires UnderRoot(t.path) && t.kind == RENDER_DOTENV ==> Moved(Clean(t.path), mount) != path
    requires forall k <- FileKeys(store, t) :: KeyPath(t.path, mount, k) != Ok(path)
    ensures NoneAt(VolumeRender(store, t, mount), path)
  {
    RebaseAcceptsIff(t.path, mount);
    if UnderRoot(t.path) && Opened(store, t.source).Ok? {
      RebaseLands(t.path, mount);
      var src, dst := Opened(store, t.source).value, Rebase(t.path, mount).value;
      if t.kind == RENDER_ENVDIR && KeysOf(src).Ok? {
        forall k | k in KeysOf(src).value ensures Clean(JoinPath(dst, k)) != path {
          assert k in FileKeys(store, t);
        }
      }
      RenderOfNoneAt(src, t, dst, path);
    }
  }

  lemma RenderOfNoneAt(src: Source, t: RenderTarget, dst: string, path: Path)
    requires t.kind == RENDER_DOTENV ==> Clean(dst) != path
    requires t.kind == RENDER_ENVDIR && KeysOf(src).Ok? ==>
               forall k <- KeysOf(src).value :: Clean(JoinPath(dst, k)) != path
    ensures NoneAt(VolumeRenderOf(src, t, dst), path)
  {
  }

  lemma RenderAvoidsManifest(store: Store, t: RenderTarget, mount: string)
    requires mount != "" && KeysStay(store, t) && RenderAvoids(t, store)
    ensures NoneAt(VolumeRender(store, t, mount), ManifestAt(mount))
  {
    ManifestClean();
    if UnderRoot(t.path) { MovedInjective(Clean(t.path), Clean(MANIFEST_PATH), mount); }
    forall k | k in FileKeys(store, t)
      ensures KeyPath(t.path, mount, k) != Ok(ManifestAt(mount))
    {
      KeyMoved(t.path, mount, k);
      MovedInjective(Clean(t.path + "/" + k), Clean(MANIFEST_PATH), mount);
    }
    RenderNoneAt(store, t, mount, ManifestAt(mount));
  }

  /** Container paths that avoid the manifest's keep the push off it, provided no key climbs above the volume root. */
  lemma TargetsAvoid(p: Plan, store: Store, mount: string)
    requires AllStay(p, store) && AvoidsManifest(p, store)
    ensures LeavesManifest(p, store, mount)
  {
    if mount != "" {
      forall t | t in p.files ensures NoneAt([VolumeFile(store, t, mount)], ManifestAt(mount)) {
        FileAvoids(store, t, mount);
      }
      forall t | t in p.renders ensures NoneAt(VolumeRender(store, t, mount), ManifestAt(mount)) {
        RenderAvoidsManifest(store, t, mount);
      }
      IntentsNoneAt(p, store, mount, ManifestAt(mount));
    }
  }

  /** A push whose deliveries leave the manifest path alone is orderly, whatever its sources hold. */
  lemma PlanOrderly(p: Plan, store: Store, generated: string, codec: Codec, mount: string)
    requires LeavesManifest(p, store, mount)
    ensures Orderly(PushIntents(p, store, generated, codec, mount), ManifestAt(mount))
  {
  }

  /** A push of plan p against some sources that leave the manifest path alone. */
  ghost predicate PushOf(xs: Intents, p: Plan, codec: Codec, mount: string) {
    exists store, generated :: LeavesManifest(p, store, mount)
                               && xs == PushIntents(p, store, generated, codec, mount)
  }

  /** Every push of the run is of plan p, each against the sources as they were when it began. */
  ghost predicate PushesOf(steps: seq<Step>, p: Plan, codec: Codec, mount: string) {
    forall st <- steps :: st.Begin? ==> PushOf(st.intents, p, codec, mount)
  }

  /**
    * However the pushes of one plan fail, crash, retry or interleave, no manifest ever stands over a partial
    * delivery.
    */
  lemma PushesSafe(files: FileMap, steps: seq<Step>, p: Plan, codec: Codec, mount: string)
    requires ManifestAt(mount) !in files && PushesOf(steps, p, codec, mount)
    requires Legal(State(files, map[], {}), steps)
    ensures Safe(After(State(files, map[], {}), steps), ManifestAt(mount))
  {
    forall st | st in steps && st.Begin? ensures Orderly(st.intents, ManifestAt(mount)) {
      var store, generated :| LeavesManifest(p, store, mount)
                              && st.intents == PushIntents(p, store, generated, codec, mount);
      PlanOrderly(p, store, generated, codec, mount);
    }
    ReadySignalSafe(files, steps, ManifestAt(mount));
  }

  /** ManifestReady: false while there is no manifest, an error when there is one that does not parse. */
  function ManifestReady(files: FileMap, path: Path, codec: Codec): Result<bool, Failure> {
    if path !in files then Ok(false)
    else if codec.parse(files[path].data).None? then Err(Malformed)
    else Ok(true)
  }

  lemma {:induction false} StartedBy(s: State, steps: seq<Step>, q: Intents)
    requires Legal(s, steps) && q in After(s, steps).started
    ensures q in s.started || exists st :: st in steps && st.Begin? && st.intents == q
    decreases |steps|
  {
    if steps != [] {
      var n := |steps| - 1;
      if q in After(s, steps[..n]).started {
        StartedBy(s, steps[..n], q);
      } else {
        assert steps[n] in steps;
      }
    }
  }

  /** Of all its intents only a push's manifest goes to the manifest path. */
  lemma OnlyManifestThere(p: Plan, store: Store, generated: string, codec: Codec, mount: string, rec: Rec)
    requires LeavesManifest(p, store, mount)
    requires HasAt(PushIntents(p, store, generated, codec, mount), Write(ManifestAt(mount), rec))
    ensures ManifestOf(p, store, generated).Ok? && rec.data == codec.marshal(ManifestOf(p, store, generated).value)
  {
    var all := VolumeIntents(p, store, mount);
    assert forall i :: 0 <= i < |all| && all[i].Ok? ==> all[i] in all && all[i].value.path != ManifestAt(mount);
  }

  lemma ManifestOfPushParses(xs: Intents, p: Plan, codec: Codec, mount: string, rec: Rec)
    requires PushOf(xs, p, codec, mount) && codec.Inverse() && HasAt(xs, Write(ManifestAt(mount), rec))
    ensures codec.parse(rec.data).Some?
  {
    var store, generated :| LeavesManifest(p, store, mount) && xs == PushIntents(p, store, generated, codec, mount);
    OnlyManifestThere(p, store, generated, codec, mount, rec);
  }

  /** The waiter never meets a corrupt manifest: in every such run it sees ready exactly when the manifest exists. */
  lemma WaiterSees(files: FileMap, steps: seq<Step>, p: Plan, codec: Codec, mount: string)
    requires ManifestAt(mount) !in files && PushesOf(steps, p, codec, mount) && codec.Inverse()
    requires Legal(State(files, map[], {}), steps)
    ensures var s := After(State(files, map[], {}), steps);
            ManifestReady(s.files, ManifestAt(mount), codec) == Ok(ManifestAt(mount) in s.files)
  {
    var s, at := After(State(files, map[], {}), steps), ManifestAt(mount);
    PushesSafe(files, steps, p, codec, mount);
    if at in s.files {
      var c: Intents :| c in s.started && Complete(s, c) && HasAt(c, Write(at, s.files[at]));
      StartedBy(State(files, map[], {}), steps, c);
      ManifestOfPushParses(c, p, codec, mount, s.files[at]);
    }
  }

  /**
    * A plan that delivers its i-th file to the manifest path, and some later file to a path none of the files up to it
    * has, is unsafe in some run, if the push can get as far as the i-th file.
    */
  lemma NamedManifestUnsafe(p: Plan, store: Store, generated: string, codec: Codec, mount: string, i: nat, j: nat)
    requires p.env == [] && mount != "" && i < j < |p.files|
    requires Clean(p.files[i].path) == Clean(MANIFEST_PATH)
    requires forall k :: 0 <= k <= i ==> UnderRoot(p.files[k].path) && Secret(store, p.files[k]).Ok?
    requires forall k :: 0 <= k <= i ==> Clean(p.files[j].path) != Clean(p.files[k].path)
    ensures !AlwaysSafe(PushIntents(p, store, generated, codec, mount), ManifestAt(mount))
  {
    var xs := PushIntents(p, store, generated, codec, mount);
    assert forall k :: 0 <= k < |p.files| ==> xs[k] == VolumeFile(store, p.files[k], mount);
    RebaseAcceptsIff(p.files[j].path, mount);
    forall k | 0 <= k <= i
      ensures xs[k].Ok? && xs[k].value.path == Moved(Clean(p.files[k].path), mount)
      ensures xs[j].Ok? ==> xs[j].value.path != xs[k].value.path
    {
      FileAgrees(store, p.files[k], mount);
      if xs[j].Ok? {
        FileAgrees(store, p.files[j], mount);
        MovedInjective(Clean(p.files[k].path), Clean(p.files[j].path), mount);
      }
    }
    assert Lands(xs, i);
    SafeIffOrderly(xs, ManifestAt(mount));
  }

  // ---- the push on a live host ----

  /** applyVolume is such a run: it leaves the first n intended writes, and all of them exactly when it succeeds. */
  method Push(host: Host, p: Plan, store: Store, generated: string, codec: Codec, mount: string,
              mem: LockedMemory.Memory)
    returns (res: Result<(), Failure>, ghost n: nat)
    requires mem.Counted()
    modifies host`calls, host`temps, host`files, mem
    ensures DidFirst(old(host.files), host.files, PushIntents(p, store, generated, codec, mount), n)
    ensures res.Ok? <==> n == |PushIntents(p, store, generated, codec, mount)|
    ensures host.temps == old(host.temps)
  {
    ghost var all, xs := VolumeIntents(p, store, mount), PushIntents(p, store, generated, codec, mount);
    res := ApplyVolume(host, p, store, generated, codec, mount, mem);
    if |p.env| > 0 || mount == "" {
      n := 0;
      DidNone(host.files, xs);
      return;
    }
    if res.Ok? {
      n := |xs|;
      assert xs[..n] == xs;
      CollectAppend(all, [xs[|all|]]);
      CollectOne(xs[|all|]);
    } else {
      n :| DidFirst(old(host.files), host.files, all, n);
      assert xs[..n] == all[..n];
    }
  }
}
