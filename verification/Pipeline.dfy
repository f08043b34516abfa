/** One client fetch from end to end: resolve, build, encode, decode, apply; and what it can depend on. */
module Pipeline {
  import opened Prelude
  import opened Sorting
  import opened LockedMemory
  import opened Wire
  import opened WireStream
  import opened Dotenv
  import opened SopsAge
  import opened Plans
  import opened Files
  import opened BuildBundle
  import opened Executors
  import opened Refs
  import opened Labels
  import opened Resolution
  import VolumePush

  /** What the daemon makes of a fetch. */
  datatype Outcome = Denied(reason: Class) | NotEnabled | Failed(error: Failure) | Sent(bundle: BundleV)

  function OutcomeFrom(plan: Result<Option<Resolved>, Class>, caller: string, store: Store, generated: string,
                       codec: Codec): Outcome {
    match plan
    case Err(c) => Denied(c)
    case Ok(None) => NotEnabled
    case Ok(Some(p)) =>
      match BundleOf(caller, DeliveryOf(p), store, generated, codec)
      case Err(e) => Failed(e)
      case Ok(b) => Sent(b)
  }

  ghost function OutcomeOf(input: Input, store: Store, generated: string, codec: Codec): Outcome {
    OutcomeFrom(PlanOf(input), input.service, store, generated, codec)
  }

  // ---- the gates of BuildBundle are already met by a resolved plan ----

  /** For the caller's own plan neither the scope check nor the env gate can refuse. */
  lemma OwnPlanPasses(input: Input, store: Store, generated: string, codec: Codec)
    requires PlanOf(input).Ok? && PlanOf(input).value.Some?
    ensures var d := DeliveryOf(PlanOf(input).value.value);
            BundleOf(input.service, d, store, generated, codec) == Contents(d, store, generated, codec)
  {
    var p := PlanOf(input).value.value;
    PlanReadsOnlyReadable(input);
    PlanService(input);
    GatesPass(input.config.value, p, input.service, store, generated, codec);
  }

  lemma GatesPass(cfg: Config, p: Resolved, caller: string, store: Store, generated: string, codec: Codec)
    requires Scoped(cfg, p) && (caller == "" || caller == p.service)
    ensures BundleOf(caller, DeliveryOf(p), store, generated, codec) == Contents(DeliveryOf(p), store, generated, codec)
  {
  }

  /** A bundle that is sent carries the manifest built for its container's own plan. */
  lemma SentManifest(input: Input, store: Store, generated: string, codec: Codec)
    requires OutcomeOf(input, store, generated, codec).Sent?
    ensures PlanOf(input).Ok? && PlanOf(input).value.Some?
    ensures var d, b := DeliveryOf(PlanOf(input).value.value), OutcomeOf(input, store, generated, codec).bundle;
            && d.container == input.container && ManifestOf(d, store, generated).Ok?
            && b.manifest == codec.marshal(ManifestOf(d, store, generated).value)
            && ManifestOf(d, store, generated).value.version == 1
            && ManifestOf(d, store, generated).value.container == d.container
  {
    PlanContainer(input);
    SentFrom(PlanOf(input).value.value, input.service, store, generated, codec);
  }

  lemma PlanContainer(input: Input)
    requires PlanOf(input).Ok? && PlanOf(input).value.Some?
    ensures PlanOf(input).value.value.container == input.container
  {
    PlanNames(input, input.config.value, ParseOf(input.labels));
  }

  lemma PlanNames(input: Input, cfg: Config, parsed: Result<Spec, Class>)
    requires PlanFrom(input, cfg, parsed).Ok? && PlanFrom(input, cfg, parsed).value.Some?
    ensures parsed.Ok?
    ensures var p := PlanFrom(input, cfg, parsed).value.value;
            p.container == input.container && p.service == ServiceOf(input, parsed.value)
  {
  }

  lemma SentFrom(p: Resolved, caller: string, store: Store, generated: string, codec: Codec)
    requires BundleOf(caller, DeliveryOf(p), store, generated, codec).Ok?
    ensures var d, b := DeliveryOf(p), BundleOf(caller, DeliveryOf(p), store, generated, codec).value;
            && ManifestOf(d, store, generated).Ok? && b.manifest == codec.marshal(ManifestOf(d, store, generated).value)
            && ManifestOf(d, store, generated).value.version == 1
            && ManifestOf(d, store, generated).value.container == d.container == p.container
  {
    ManifestNames(DeliveryOf(p), store, generated);
  }

  lemma ManifestNames(d: Plan, store: Store, generated: string)
    ensures ManifestOf(d, store, generated).Ok? ==>
              ManifestOf(d, store, generated).value.version == 1
                && ManifestOf(d, store, generated).value.container == d.container
  {
  }

  // ---- non-interference ----

  /** The two stores hold the same for every one of these names. */
  ghost predicate Agree(names: set<string>, a: Store, b: Store) {
    forall n <- names :: (n in a <==> n in b) && (n in a ==> a[n] == b[n])
  }

  /** The sources the container's service owns or is granted. */
  function ReadableSources(service: string, cfg: Config): set<string> {
    set n | n in cfg.sources && MayRead(service, n, cfg.sources[n])
  }

  lemma CollectMapSame<A, B>(f: A -> Result<B, Failure>, g: A -> Result<B, Failure>, xs: seq<A>)
    requires forall x <- xs :: f(x) == g(x)
    ensures Collect(Map(f, xs)) == Collect(Map(g, xs))
  {
    assert Map(f, xs) == Map(g, xs);
  }

  lemma ManifestSame(p: Plan, a: Store, b: Store, generated: string)
    requires Agree(SourcesOf(p), a, b)
    ensures ManifestOf(p, a, generated) == ManifestOf(p, b, generated)
  {
    CollectMapSame((t: FileTarget) => FileEntry(a, t), (t: FileTarget) => FileEntry(b, t), p.files);
    CollectMapSame((t: RenderTarget) => RenderEntry(a, t), (t: RenderTarget) => RenderEntry(b, t), p.renders);
    CollectMapSame((t: EnvTarget) => EnvEntry(a, t), (t: EnvTarget) => EnvEntry(b, t), p.env);
  }

  /** A bundle depends on no source its plan does not name. */
  lemma BundleSame(caller: string, p: Plan, a: Store, b: Store, generated: string, codec: Codec)
    requires Agree(SourcesOf(p), a, b)
    ensures BundleOf(caller, p, a, generated, codec) == BundleOf(caller, p, b, generated, codec)
  {
    CollectMapSame((t: FileTarget) => FileItem(a, t), (t: FileTarget) => FileItem(b, t), p.files);
    CollectMapSame((t: RenderTarget) => RenderItems(a, t), (t: RenderTarget) => RenderItems(b, t), p.renders);
    CollectMapSame((t: EnvTarget) => EnvItems(a, t), (t: EnvTarget) => EnvItems(b, t), p.env);
    ManifestSame(p, a, b, generated);
  }

  lemma PlanNamesReadable(cfg: Config, p: Resolved)
    requires Scoped(cfg, p)
    ensures SourcesOf(DeliveryOf(p)) <= ReadableSources(p.service, cfg)
  {
    var d := DeliveryOf(p);
    forall t | t in d.files ensures t.source in ReadableSources(p.service, cfg) {
      var i :| 0 <= i < |d.files| && d.files[i] == t;
      assert FileScoped(cfg, p.service, p.files[i]);
    }
    forall t | t in d.renders ensures t.source in ReadableSources(p.service, cfg) {
      var i :| 0 <= i < |d.renders| && d.renders[i] == t;
      assert RenderScoped(cfg, p.service, p.renders[i]);
    }
    forall t | t in d.env ensures t.source in ReadableSources(p.service, cfg) {
      var i :| 0 <= i < |d.env| && d.env[i] == t;
      assert EnvScoped(cfg, p.service, p.env[i]);
    }
  }

  /** The service a plan for this input is scoped to. */
  ghost function ServiceFor(input: Input): string
    requires ParseOf(input.labels).Ok?
  {
    ServiceOf(input, ParseOf(input.labels).value)
  }

  lemma PlanService(input: Input)
    requires PlanOf(input).Ok? && PlanOf(input).value.Some?
    ensures input.config.Some? && ParseOf(input.labels).Ok? && PlanOf(input).value.value.service == ServiceFor(input)
  {
    PlanNames(input, input.config.value, ParseOf(input.labels));
  }

  lemma OutcomeSame(p: Resolved, caller: string, cfg: Config, a: Store, b: Store, generated: string, codec: Codec)
    requires Scoped(cfg, p) && Agree(ReadableSources(p.service, cfg), a, b)
    ensures OutcomeFrom(Ok(Some(p)), caller, a, generated, codec)
            == OutcomeFrom(Ok(Some(p)), caller, b, generated, codec)
  {
    PlanNamesReadable(cfg, p);
    BundleSame(caller, DeliveryOf(p), a, b, generated, codec);
  }

  /**
    * Non-interference. Two stores that agree on what the service owns or is granted give the same outcome, the same
    * bundle or the same failure: no byte delivered depends on a source the service may not read.
    */
  lemma NonInterference(input: Input, a: Store, b: Store, generated: string, codec: Codec)
    requires input.config.Some? && ParseOf(input.labels).Ok? ==>
               Agree(ReadableSources(ServiceFor(input), input.config.value), a, b)
    ensures OutcomeOf(input, a, generated, codec) == OutcomeOf(input, b, generated, codec)
  {
    var plan := PlanOf(input);
    if plan.Ok? && plan.value.Some? {
      PlanService(input);
      PlanReadsOnlyReadable(input);
      OutcomeSame(plan.value.value, input.service, input.config.value, a, b, generated, codec);
    }
  }

  /** What a volume push writes depends on no source its plan does not name. */
  lemma PushSame(p: Plan, a: Store, b: Store, generated: string, codec: Codec, mount: string)
    requires Agree(SourcesOf(p), a, b)
    ensures VolumePush.PushIntents(p, a, generated, codec, mount)
            == VolumePush.PushIntents(p, b, generated, codec, mount)
  {
    assert Map((t: FileTarget) => VolumeFile(a, t, mount), p.files)
        == Map((t: FileTarget) => VolumeFile(b, t, mount), p.files);
    assert Map((t: RenderTarget) => VolumeRender(a, t, mount), p.renders)
        == Map((t: RenderTarget) => VolumeRender(b, t, mount), p.renders);
    ManifestSame(p, a, b, generated);
  }

  /** Non-interference of a push: nothing it writes, its manifest included, depends on a source it may not read. */
  lemma VolumeNonInterference(input: Input, a: Store, b: Store, generated: string, codec: Codec, mount: string)
    requires PlanOf(input).Ok? && PlanOf(input).value.Some?
    requires input.config.Some? && ParseOf(input.labels).Ok? ==>
               Agree(ReadableSources(ServiceFor(input), input.config.value), a, b)
    ensures var d := DeliveryOf(PlanOf(input).value.value);
            VolumePush.PushIntents(d, a, generated, codec, mount)
            == VolumePush.PushIntents(d, b, generated, codec, mount)
  {
    PlanService(input);
    PlanReadsOnlyReadable(input);
    PlanNamesReadable(input.config.value, PlanOf(input).value.value);
    PushSame(DeliveryOf(PlanOf(input).value.value), a, b, generated, codec, mount);
  }

  // ---- the whole fetch ----

  /** handleFetch after authentication: the bundle goes out on the connection and its memory is given back. */
  method Serve(input: Input, store: Store, generated: string, codec: Codec, w: Writer, mem: Memory)
    returns (out: Outcome, ok: bool)
    requires mem.Counted()
    modifies mem, w
    ensures mem.Counted() && NothingStranded(old(mem.slots), mem.slots)
    ensures out == OutcomeOf(input, store, generated, codec)
    ensures ok <==> out.Sent? && Encodable(out.bundle)
    ensures ok ==> w.out == old(w.out) + PutResponse(out.bundle)
  {
    ok := false;
    var plan := Resolve(input);
    if plan.Err? { return Denied(plan.error), false; }
    if plan.value.None? { return NotEnabled, false; }
    var d := ToDelivery(plan.value.value);
    var b := Build(input.service, d, store, generated, codec, mem);
    if b.Err? { return Failed(b.error), false; }
    ghost var built := mem.slots;
    out := Sent(b.value.Value());
    ok := EncodeBundle(w, b.value);
    GiveBack(b.value, old(mem.slots));
  }

  /** The deferred bundle.Destroy: nothing allocated since `before` stays live. */
  method GiveBack(b: Bundle, ghost before: seq<Slot>)
    requires b.Valid(|before|) && Kept(before, b.mem.slots, |before|)
    modifies b, b.mem
    ensures b.mem.Counted() && NothingStranded(before, b.mem.slots)
  {
    assert forall id <- b.locked :: id in Elems(b.locked);
    ghost var own, slots := Elems(b.locked), b.mem.slots;
    b.Destroy();
    assert forall i :: |before| <= i < |slots| ==> (slots[i].Live? <==> i in own);
  }

  /** The client's side: read the reply, write its files, give the memory back. */
  method Receive(reply: string, host: Host, mem: Memory)
    returns (got: Result<BundleV, Error>, applied: Result<(), Failure>)
    requires mem.Counted()
    modifies mem, host`calls, host`temps, host`files
    ensures mem.Counted() && NothingStranded(old(mem.slots), mem.slots) && host.temps == old(host.temps)
    ensures match GetResponse(reply) case Ok((v, _)) => got == Ok(v) case Err(e) => got == Err(e)
    ensures got.Err? ==> host.files == old(host.files) && applied == Err(Io)
    ensures got.Ok? && applied.Ok? ==> host.files == Apply(old(host.files), ClientWrites(got.value, MANIFEST_PATH))
    ensures got.Ok? && host.Reliable() ==> applied.Ok?
  {
    applied := Err(Io);
    var r := new Reader(reply, mem);
    assert r.Rest() == reply;
    var b := ReadResponse(r, mem);
    if b.Err? { return Err(b.error), Err(Io); }
    got := Ok(b.value.Value());
    applied := ApplyFiles(host, b.value.Value(), MANIFEST_PATH);
    GiveBack(b.value, old(mem.slots));
  }

  /**
    * A fetch from labels to files. For a bundle within the protocol's limits, what ends up in the container is exactly
    * the plan's files and then its manifest; one that goes out with a field over the decoder's cap changes nothing
    * there. Neither side keeps a plaintext buffer, whatever happened.
    */
  method Fetch(input: Input, store: Store, generated: string, codec: Codec, server: Memory, client: Memory, host: Host)
    returns (out: Outcome, applied: Result<(), Failure>)
    requires server.Counted() && client.Counted() && server != client
    modifies server, client, host`calls, host`temps, host`files
    ensures server.Counted() && NothingStranded(old(server.slots), server.slots)
    ensures client.Counted() && NothingStranded(old(client.slots), client.slots)
    ensures out == OutcomeOf(input, store, generated, codec)
    ensures !out.Sent? ==> host.files == old(host.files)
    ensures out.Sent? && Fits(out.bundle) && applied.Ok? ==>
              host.files == Apply(old(host.files), ClientWrites(out.bundle, MANIFEST_PATH))
    ensures out.Sent? && Fits(out.bundle) && host.Reliable() ==> applied.Ok?
    ensures out.Sent? && Prefixed(out.bundle) && !Fits(out.bundle) ==>
              Encodable(out.bundle) && applied.Err? && host.files == old(host.files)
  {
    applied := Err(Io);
    var w := new Writer();
    var ok;
    out, ok := Serve(input, store, generated, codec, w, server);
    if out.Sent? { PrefixedIsEncodable(out.bundle); }
    if ok { applied := Deliver(w.out, out.bundle, host, client); }
  }

  lemma PrefixedIsEncodable(b: BundleV)
    ensures Fits(b) ==> Prefixed(b)
    ensures Prefixed(b) ==> Encodable(b)
    ensures "" + PutResponse(b) == PutResponse(b)
  {
    if Fits(b) { FitsPrefixed(b); }
    if Prefixed(b) { PrefixedEncodable(b); }
  }

  /** The client receives what was sent. */
  method Deliver(reply: string, ghost sent: BundleV, host: Host, mem: Memory) returns (applied: Result<(), Failure>)
    requires mem.Counted() && reply == PutResponse(sent)
    modifies mem, host`calls, host`temps, host`files
    ensures mem.Counted() && NothingStranded(old(mem.slots), mem.slots)
    ensures Fits(sent) && applied.Ok? ==> host.files == Apply(old(host.files), ClientWrites(sent, MANIFEST_PATH))
    ensures Fits(sent) && host.Reliable() ==> applied.Ok?
    ensures Prefixed(sent) && !Fits(sent) ==> applied.Err? && host.files == old(host.files)
  {
    assert reply + "" == reply;
    if Fits(sent) { RoundTrip(sent, ""); }
    if Prefixed(sent) { ReadOrTooLong(sent, ""); }
    var got;
    got, applied := Receive(reply, host, mem);
  }

  lemma FitsPrefixed(b: BundleV)
    requires Fits(b)
    ensures Prefixed(b)
  {
    assert forall f <- b.files :: FileFits(f);
    assert forall e <- b.env :: EnvFits(e);
  }

  lemma PrefixedEncodable(b: BundleV)
    requires Prefixed(b)
    ensures Encodable(b)
  {
    forall f | f in b.files ensures Narrow(f.path) && Narrow(f.owner) && Narrow(f.mode) { assert FilePrefixed(f); }
    forall e | e in b.env ensures Narrow(e.name) { assert EnvPrefixed(e); }
    forall p | p in b.pointers ensures Narrow(p.name) && Narrow(p.path) { assert PointerFits(p); }
  }
}
