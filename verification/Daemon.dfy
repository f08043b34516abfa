/** The control loop: lifecycle events, volume pushes and the periodic reconcile. */
module Daemon {
  import opened Prelude
  import opened LockedMemory
  import opened Dotenv
  import opened SopsAge
  import opened Plans
  import opened Paths
  import opened Files
  import opened Executors
  import opened Agreement
  import opened Refs
  import opened Doorways
  import opened Resolution
  import Wire
  import opened WireStream
  import Ledger
  import Pipeline
  import ClientTracker

  /** A container as the runtime reports it. */
  datatype Container = Container(id: string, labels: Doorways.Labels, service: string, name: string)

  datatype Event = Started(container: Option<Container>) | Stopped(id: string) | Died(id: string)
    | Destroyed(id: string)

  /** A standing validation error, held until a clean injection or the container's end. */
  datatype Standing = Standing(service: string, reason: Class, since: nat)

  predicate Sticky(c: Class) { c == MissingSource || c == UngrantedRef || c == EnvNoAck }

  /** stickyStore.add: the first time is kept. */
  function StandingWith(m: map<string, Standing>, id: string, service: string, c: Class, now: nat)
    : map<string, Standing>
  {
    m[id := Standing(service, c, if id in m then m[id].since else now)]
  }

  const MANIFEST_NAME := "manifest"

  class Daemon {
    const cfg: Config
    const codec: Codec
    const stamp: nat -> string
    const defaultDelivery: string
    const volumes: string
    const host: Host
    const mem: Memory
    const ledger: Ledger.Ledger
    const tracker: ClientTracker.Tracker
    var standing: map<string, Standing>

    constructor (cfg: Config, codec: Codec, stamp: nat -> string, defaultDelivery: string, volumes: string, host: Host,
                 mem: Memory, ledger: Ledger.Ledger, tracker: ClientTracker.Tracker)
      ensures this.cfg == cfg && this.codec == codec && this.stamp == stamp && this.defaultDelivery == defaultDelivery
      ensures this.volumes == volumes && this.host == host && this.mem == mem && this.ledger == ledger
              && this.tracker == tracker
      ensures standing == map[]
    {
      this.cfg, this.codec, this.stamp, this.defaultDelivery, this.volumes := cfg, codec, stamp, defaultDelivery,
        volumes;
      this.host, this.mem, this.ledger, this.tracker := host, mem, ledger, tracker;
      standing := map[];
    }

    function InputFor(c: Container, service: string): Input {
      Input(c.labels, c.id, service, "", Some(cfg), defaultDelivery)
    }

    /** The plan a container has, if its identity and labels give one. */
    ghost function PlanFor(c: Container): Option<Resolved> {
      var service := ServiceName(c.labels, c.service, c.name);
      if service.Err? then None
      else
        var plan := PlanOf(InputFor(c, service.value));
        if plan.Ok? then plan.value else None
    }

    /** Where the container's volume is mounted in the daemon. */
    function MountOf(c: Container, p: Resolved): string { JoinPath(volumes, VolumeName(c.labels, p.service)) }

    function ReadyFile(mount: string): Path { Clean(JoinPath(mount, MANIFEST_NAME)) }

    /** A planned volume container whose volume is mounted here and does not hold a manifest yet. */
    predicate Awaits(c: Container, plan: Option<Resolved>, mounts: set<Path>, files: FileMap) {
      plan.Some? && plan.value.mechanism == VOLUME && Clean(MountOf(c, plan.value)) in mounts
      && ReadyFile(MountOf(c, plan.value)) !in files
    }

    ghost predicate Unserved(c: Container, mounts: set<Path>, files: FileMap) { Awaits(c, PlanFor(c), mounts, files) }

    /**
      * The plan of a container: of its labels, for the service its identity gives, under the daemon's berm.yml and
      * default delivery.
      */
    lemma PlanForIs(c: Container, p: Resolved)
      ensures PlanFor(c) == Some(p) <==>
                var service := ServiceName(c.labels, c.service, c.name);
                service.Ok?
                && PlanOf(Input(c.labels, c.id, service.value, "", Some(cfg), defaultDelivery)) == Ok(Some(p))
    {
    }

    /**
      * A container is to be pushed to when its plan is for a volume, the volume is mounted here, and its manifest is
      * not there.
      */
    lemma UnservedIff(c: Container, mounts: set<Path>, files: FileMap)
      ensures Unserved(c, mounts, files) <==>
                PlanFor(c).Some? && PlanFor(c).value.mechanism == "volume"
                && var mount := JoinPath(volumes, VolumeName(c.labels, PlanFor(c).value.service));
                   Clean(mount) in mounts && Clean(JoinPath(mount, "manifest")) !in files
    {
    }

    ghost predicate AllServed(cs: seq<Container>, mounts: set<Path>, files: FileMap) {
      forall c <- cs :: !Unserved(c, mounts, files)
    }

    /** Every source the plan needs can be read, so only the system itself could make a push fail. */
    ghost predicate Pushable(d: Plan, mount: string, store: Store, now: nat) {
      d.env == [] && Collect(VolumeIntents(d, store, mount)).Ok? && ManifestOf(d, store, stamp(now)).Ok?
    }

    /** Everything the plan delivers was written, its manifest last and where a reconcile looks for it. */
    ghost predicate Placed(before: FileMap, after: FileMap, d: Plan, mount: string, store: Store, now: nat) {
      && Pushable(d, mount, store, now) && ReadyFile(mount) in after
      && after == Apply(before, VolumeWrites(d, store, stamp(now), codec, mount))
    }

    /** The ledger after a push of the plan has been recorded. */
    ghost function Recorded(records: Ledger.Records, d: Plan, store: Store, now: nat): Ledger.Records
      requires ManifestOf(d, store, stamp(now)).Ok?
    {
      if d.container == "" then records
      else records[d.container := Ledger.RecordOf(ManifestOf(d, store, stamp(now)).value, now)]
    }

    /** The write half of pushVolume: files are only ever added or replaced, and success puts the manifest in place. */
    method WriteVolume(d: Plan, name: string, store: Store, now: nat) returns (ok: bool)
      requires mem.Counted()
      modifies host`calls, host`temps, host`files, mem
      ensures mem.Counted() && Extends(old(mem.slots), mem.slots, {})
      ensures old(host.files).Keys <= host.files.Keys
      ensures ok ==> Placed(old(host.files), host.files, d, JoinPath(volumes, name), store, now)
      ensures host.Reliable() && Pushable(d, JoinPath(volumes, name), store, now) ==> ok
    {
      JoinNonEmpty(volumes, name);
      var mount := JoinPath(volumes, name);
      var res := ApplyVolume(host, d, store, stamp(now), codec, mount, mem);
      if res.Err? {
        ghost var n :| DidFirst(old(host.files), host.files, VolumeIntents(d, store, mount), n);
        DidGrows(old(host.files), host.files, VolumeIntents(d, store, mount), n);
        return false;
      }
      ManifestLands(old(host.files), Collect(VolumeIntents(d, store, mount)).value,
                    codec.marshal(ManifestOf(d, store, stamp(now)).value), volumes, name);
      ok := true;
    }

    /** recordInjection: the ledger takes the manifest, and no error stands against the container any more. */
    method RecordInjection(m: Manifest, now: nat)
      modifies this`standing, ledger
      ensures standing == old(standing) - {m.container}
      ensures ledger.records == if m.container == "" then old(ledger.records)
                                else old(ledger.records)[m.container := Ledger.RecordOf(m, now)]
    {
      var recorded := ledger.RecordManifest(Some(m), now);
      standing := standing - {m.container};
    }

    /** The record half of pushVolume, from a freshly built manifest. */
    method RecordPush(d: Plan, store: Store, now: nat) returns (ok: bool)
      modifies this`standing, ledger
      ensures ok <==> ManifestOf(d, store, stamp(now)).Ok?
      ensures ok ==> standing == old(standing) - {d.container}
                     && ledger.records == Recorded(old(ledger.records), d, store, now)
      ensures !ok ==> ledger.records == old(ledger.records) && standing == old(standing)
    {
      var hasher := new Hasher(store);
      var m := BuildManifest(d, hasher, stamp(now));
      if m.Err? { return false; }
      RecordInjection(m.value, now);
      ok := true;
    }

    /** The rest of pushVolume, its plan translated and its volume named. */
    method Push(d: Plan, name: string, store: Store, now: nat) returns (ok: bool)
      requires mem.Counted()
      modifies this`standing, host`calls, host`temps, host`files, mem, ledger
      ensures mem.Counted() && Extends(old(mem.slots), mem.slots, {})
      ensures old(host.files).Keys <= host.files.Keys
      ensures host.Reliable() && Pushable(d, JoinPath(volumes, name), store, now) ==> ok
      ensures ok ==> Placed(old(host.files), host.files, d, JoinPath(volumes, name), store, now)
      ensures ok ==> standing == old(standing) - {d.container}
                     && ledger.records == Recorded(old(ledger.records), d, store, now)
      ensures !ok ==> ledger.records == old(ledger.records) && standing == old(standing)
    {
      ok := WriteVolume(d, name, store, now);
      if !ok { return; }
      ok := RecordPush(d, store, now);
    }

    /** pushVolume. A push that succeeds leaves every write in place, the injection recorded and no standing error. */
    method PushVolume(p: Resolved, c: Container, store: Store, now: nat) returns (ok: bool)
      requires mem.Counted()
      modifies this`standing, host`calls, host`temps, host`files, mem, ledger
      ensures mem.Counted() && Extends(old(mem.slots), mem.slots, {})
      ensures old(host.files).Keys <= host.files.Keys
      ensures host.Reliable() && Pushable(DeliveryOf(p), MountOf(c, p), store, now) ==> ok
      ensures ok ==> Placed(old(host.files), host.files, DeliveryOf(p), MountOf(c, p), store, now)
      ensures ok ==> standing == old(standing) - {p.container}
                     && ledger.records == Recorded(old(ledger.records), DeliveryOf(p), store, now)
      ensures !ok ==> ledger.records == old(ledger.records) && standing == old(standing)
    {
      var d := ToDelivery(p);
      ok := Push(d, VolumeName(c.labels, p.service), store, now);
    }

    /** A reconcile pass's turn for a container once its labels are resolved. */
    method ReconcilePlanned(c: Container, plan: Option<Resolved>, mounts: set<Path>, store: Store, now: nat)
      returns (tried: bool, ok: bool)
      requires mem.Counted()
      modifies this`standing, host`calls, host`temps, host`files, mem, ledger
      ensures mem.Counted() && Extends(old(mem.slots), mem.slots, {})
      ensures old(host.files).Keys <= host.files.Keys
      ensures tried <==> Awaits(c, plan, mounts, old(host.files))
      ensures tried && host.Reliable() && Pushable(DeliveryOf(plan.value), MountOf(c, plan.value), store, now) ==> ok
      ensures !tried ==> ok && host.files == old(host.files)
      ensures !tried ==> ledger.records == old(ledger.records) && standing == old(standing)
      ensures ok ==> !Awaits(c, plan, mounts, host.files)
    {
      if plan.None? || plan.value.mechanism != VOLUME { return false, true; }
      var mount := MountOf(c, plan.value);
      if Clean(mount) !in mounts { return false, true; }
      if Clean(JoinPath(mount, MANIFEST_NAME)) in host.files { return false, true; }
      tried := true;
      ok := PushVolume(plan.value, c, store, now);
    }

    /** The container's plan, or none: reconcile stays silent about what handleStart alerts on. */
    method QuietPlan(c: Container) returns (plan: Option<Resolved>)
      ensures plan == PlanFor(c)
    {
      var service := ServiceName(c.labels, c.service, c.name);
      if service.Err? { return None; }
      var resolved := Resolve(InputFor(c, service.value));
      plan := if resolved.Ok? then resolved.value else None;
    }

    /** One container of a reconcile pass: pushed only when it is a mounted volume container without its manifest. */
    method ReconcileOne(c: Container, mounts: set<Path>, store: Store, now: nat) returns (tried: bool, ok: bool)
      requires mem.Counted()
      modifies this`standing, host`calls, host`temps, host`files, mem, ledger
      ensures mem.Counted() && Extends(old(mem.slots), mem.slots, {})
      ensures old(host.files).Keys <= host.files.Keys
      ensures tried <==> Unserved(c, mounts, old(host.files))
      ensures !tried ==> ok && host.files == old(host.files)
      ensures !tried ==> ledger.records == old(ledger.records) && standing == old(standing)
      ensures ok ==> !Unserved(c, mounts, host.files)
    {
      var plan := QuietPlan(c);
      tried, ok := ReconcilePlanned(c, plan, mounts, store, now);
    }

    lemma ServedMore(cs: seq<Container>, i: nat, mounts: set<Path>, before: FileMap, after: FileMap)
      requires i < |cs| && AllServed(cs[..i], mounts, before) && !Unserved(cs[i], mounts, after)
      requires before.Keys <= after.Keys
      ensures AllServed(cs[..i + 1], mounts, after)
    {
      assert cs[..i + 1] == cs[..i] + [cs[i]];
      forall c | c in cs[..i] ensures !Unserved(c, mounts, after) {
        assert !Unserved(c, mounts, before);
      }
    }

    /** One turn of reconcileVolumes. */
    method ReconcileAt(listing: seq<Container>, i: nat, mounts: set<Path>, store: Store, now: nat)
      returns (tried: bool, ok: bool)
      requires mem.Counted() && i < |listing|
      modifies this`standing, host`calls, host`temps, host`files, mem, ledger
      ensures mem.Counted() && Extends(old(mem.slots), mem.slots, {})
      ensures old(host.files).Keys <= host.files.Keys
      ensures tried ==> !AllServed(listing, mounts, old(host.files))
      ensures tried <==> Unserved(listing[i], mounts, old(host.files))
      ensures !tried ==> ok && host.files == old(host.files)
      ensures !tried ==> ledger.records == old(ledger.records) && standing == old(standing)
      ensures ok && AllServed(listing[..i], mounts, old(host.files)) ==> AllServed(listing[..i + 1], mounts, host.files)
    {
      assert listing[i] in listing;
      tried, ok := ReconcileOne(listing[i], mounts, store, now);
      if ok && AllServed(listing[..i], mounts, old(host.files)) {
        ServedMore(listing, i, mounts, old(host.files), host.files);
      }
    }

    /** A listed container of this id is to be pushed to. */
    ghost predicate Wanting(listing: seq<Container>, id: string, mounts: set<Path>, files: FileMap) {
      exists c <- listing :: c.id == id && Unserved(c, mounts, files)
    }

    ghost predicate AllWanting(ids: seq<string>, listing: seq<Container>, mounts: set<Path>, files: FileMap) {
      forall id <- ids :: Wanting(listing, id, mounts, files)
    }

    lemma OneMoreWanting(ids: seq<string>, listing: seq<Container>, i: nat, mounts: set<Path>, before: FileMap,
                         now: FileMap)
      requires AllWanting(ids, listing, mounts, before)
      requires i < |listing| && Unserved(listing[i], mounts, now) && before.Keys <= now.Keys
      ensures AllWanting(ids + [listing[i].id], listing, mounts, before)
    {
      assert listing[i] in listing && Unserved(listing[i], mounts, before);
    }

    /** reconcileVolumes, on one listing. */
    method ReconcileVolumes(listing: seq<Container>, mounts: set<Path>, store: Store, now: nat)
      returns (pushed: seq<string>, clean: bool)
      requires mem.Counted()
      modifies this`standing, host`calls, host`temps, host`files, mem, ledger
      ensures mem.Counted() && Extends(old(mem.slots), mem.slots, {})
      ensures old(host.files).Keys <= host.files.Keys
      ensures clean ==> AllServed(listing, mounts, host.files)
      ensures AllWanting(pushed, listing, mounts, old(host.files))
      ensures AllServed(listing, mounts, old(host.files)) ==>
                pushed == [] && clean && host.files == old(host.files) && ledger.records == old(ledger.records)
                && standing == old(standing)
    {
      pushed, clean := [], true;
      ghost var settled := AllServed(listing, mounts, host.files);
      assert listing[..0] == [];
      for i := 0 to |listing|
        invariant mem.Counted() && Extends(old(mem.slots), mem.slots, {})
        invariant old(host.files).Keys <= host.files.Keys
        invariant clean ==> AllServed(listing[..i], mounts, host.files)
        invariant AllWanting(pushed, listing, mounts, old(host.files))
        invariant settled ==> pushed == [] && clean && host.files == old(host.files)
        invariant settled ==> ledger.records == old(ledger.records) && standing == old(standing)
      {
        ghost var files := host.files;
        var tried, ok := ReconcileAt(listing, i, mounts, store, now);
        if tried {
          OneMoreWanting(pushed, listing, i, mounts, old(host.files), files);
          pushed := pushed + [listing[i].id];
        }
        if !ok { clean := false; }
      }
      assert listing[..|listing|] == listing;
    }

    /** Quiescence: after a pass whose pushes all succeeded, another pass over the same listing pushes nothing. */
    method TwoPasses(listing: seq<Container>, mounts: set<Path>, store: Store, later: Store, now: nat, soon: nat)
      returns (clean: bool, pushed: seq<string>)
      requires mem.Counted()
      modifies this`standing, host`calls, host`temps, host`files, mem, ledger
      ensures clean ==> pushed == []
    {
      var first, again;
      first, clean := ReconcileVolumes(listing, mounts, store, now);
      pushed, again := ReconcileVolumes(listing, mounts, later, soon);
    }

    /** alertValidation, for a classified failure: a sticky one is left standing. */
    method AlertValidation(id: string, service: string, c: Class, now: nat)
      modifies this`standing
      ensures standing == if Sticky(c) then StandingWith(old(standing), id, service, c, now) else old(standing)
      ensures c in {MissingSource, UngrantedRef, EnvNoAck} ==>
                standing == old(standing)[id := Standing(service, c,
                                                         if id in old(standing) then old(standing)[id].since else now)]
      ensures c !in {MissingSource, UngrantedRef, EnvNoAck} ==> standing == old(standing)
    {
      if Sticky(c) {
        if id !in standing {
          standing := standing[id := Standing(service, c, now)];
        } else {
          standing := standing[id := standing[id].(service := service, reason := c)];
        }
      }
    }

    /** The ledger after recordFromBundleManifest: unchanged when the manifest does not parse or names no container. */
    function RecordedFrom(records: Ledger.Records, manifest: string, now: nat): Ledger.Records {
      match codec.parse(manifest)
      case None => records
      case Some(m) => if m.container == "" then records else records[m.container := Ledger.RecordOf(m, now)]
    }

    /** The standing errors after it: the container of the manifest has none. */
    function ClearedFrom(before: map<string, Standing>, manifest: string): map<string, Standing> {
      match codec.parse(manifest)
      case None => before
      case Some(m) => before - {m.container}
    }

    /** recordFromBundleManifest. */
    method RecordFromBundle(manifest: string, now: nat)
      modifies this`standing, ledger
      ensures ledger.records == RecordedFrom(old(ledger.records), manifest, now)
      ensures standing == ClearedFrom(old(standing), manifest)
    {
      var m := codec.parse(manifest);
      if m.None? { return; }
      RecordInjection(m.value, now);
    }

    /**
      * handleFetch, once the peer is authenticated as container id of a service: the expectation of its fetch ends
      * first, then the bundle goes out or the failure is alerted, and what went out is recorded from its own
      * manifest.
      */
    method HandleFetch(id: string, service: string, labels: Doorways.Labels, store: Store, now: nat, w: Writer)
      returns (out: Pipeline.Outcome, ok: bool)
      requires mem.Counted()
      modifies this`standing, mem, ledger, tracker, w
      ensures mem.Counted() && NothingStranded(old(mem.slots), mem.slots)
      ensures tracker.View() == ClientTracker.Next(old(tracker.View()), ClientTracker.Arrive(id))
      ensures out == Pipeline.OutcomeOf(Input(labels, id, service, "", Some(cfg), defaultDelivery), store, stamp(now),
                                        codec)
      ensures ok <==> out.Sent? && Wire.Encodable(out.bundle)
      ensures ok ==> w.out == old(w.out) + Wire.PutResponse(out.bundle)
                     && ledger.records == RecordedFrom(old(ledger.records), out.bundle.manifest, now)
                     && standing == ClearedFrom(old(standing), out.bundle.manifest)
      ensures !ok ==> ledger.records == old(ledger.records)
      ensures !ok ==>
                standing == if out.Denied? && Sticky(out.reason)
                            then StandingWith(old(standing), id, service, out.reason, now) else old(standing)
    {
      tracker.Arrived(id);
      out, ok := Pipeline.Serve(Input(labels, id, service, "", Some(cfg), defaultDelivery), store, stamp(now), codec,
                                w, mem);
      if out.Denied? { AlertValidation(id, service, out.reason, now); }
      if ok { RecordFromBundle(out.bundle.manifest, now); }
    }

    /** What a fetch delivered is recorded as that delivery, and until a source changes its container has no drift. */
    lemma FetchedHasNoDrift(id: string, service: string, labels: Doorways.Labels, store: Store, now: nat,
                            records: Ledger.Records, report: seq<Ledger.Drift>)
      requires var out := Pipeline.OutcomeOf(Input(labels, id, service, "", Some(cfg), defaultDelivery), store,
                                             stamp(now), codec);
               out.Sent? && Ledger.Reports(report, RecordedFrom(records, out.bundle.manifest, now), store)
      requires codec.Inverse() && id != ""
      ensures forall d <- report :: d.container != id
    {
      var input := Input(labels, id, service, "", Some(cfg), defaultDelivery);
      Pipeline.SentManifest(input, store, stamp(now), codec);
      var d := DeliveryOf(PlanOf(input).value.value);
      Ledger.NoDriftAfterRecording(d, store, stamp(now), now, records, report);
    }

    /** handleStart once the labels are resolved: acts by mechanism, or alerts. */
    method Act(c: Container, service: string, plan: Result<Option<Resolved>, Class>, store: Store, now: nat)
      requires mem.Counted()
      modifies this`standing, host`calls, host`temps, host`files, mem, ledger, tracker
      ensures mem.Counted() && Extends(old(mem.slots), mem.slots, {})
      ensures old(host.files).Keys <= host.files.Keys
      ensures var mech := if plan.Ok? && plan.value.Some? then plan.value.value.mechanism else "";
              && (mech != VOLUME ==> host.files == old(host.files) && ledger.records == old(ledger.records))
              && (mech == VOLUME && host.Reliable()
                  && Pushable(DeliveryOf(plan.value.value), MountOf(c, plan.value.value), store, now) ==>
                    Placed(old(host.files), host.files, DeliveryOf(plan.value.value), MountOf(c, plan.value.value),
                           store, now)
                    && ledger.records == Recorded(old(ledger.records), DeliveryOf(plan.value.value), store, now)
                    && standing == old(standing) - {DeliveryOf(plan.value.value).container})
              && tracker.View() == if mech == CLIENT && tracker.timeout > 0
                                   then ClientTracker.Next(old(tracker.View()), ClientTracker.Expect(c.id, service))
                                   else old(tracker.View())
      ensures plan.Err? ==>
                standing == if Sticky(plan.error) then StandingWith(old(standing), c.id, service, plan.error, now)
                            else old(standing)
      ensures plan.Ok? && (plan.value.None? || plan.value.value.mechanism != VOLUME) ==> standing == old(standing)
    {
      if plan.Err? {
        AlertValidation(c.id, service, plan.error, now);
        return;
      }
      if plan.value.None? { return; }
      var p := plan.value.value;
      if p.mechanism == VOLUME {
        var _ := PushVolume(p, c, store, now);
      } else if p.mechanism == CLIENT {
        tracker.Expect(c.id, service);
      }
    }

    /** The mechanism a started container is served by; empty when it is not to be served. */
    ghost function MechanismFor(container: Option<Container>): string {
      var plan := if container.Some? then PlanFor(container.value) else None;
      if plan.Some? then plan.value.mechanism else ""
    }

    /** What a start leaves standing for a container that is not pushed to: a sticky refusal of its labels, if any. */
    ghost function StandingAfter(before: map<string, Standing>, container: Option<Container>, now: nat)
      : map<string, Standing>
    {
      if container.None? then before
      else
        var c := container.value;
        var service := ServiceName(c.labels, c.service, c.name);
        if service.Err? then before
        else
          var plan := PlanOf(InputFor(c, service.value));
          if plan.Err? && Sticky(plan.error) then StandingWith(before, c.id, service.value, plan.error, now) else before
    }

    /** handleStart. Only a volume container is pushed to, and only a client container is expected to fetch. */
    method HandleStart(container: Option<Container>, store: Store, now: nat)
      requires mem.Counted()
      modifies this`standing, host`calls, host`temps, host`files, mem, ledger, tracker
      ensures mem.Counted() && Extends(old(mem.slots), mem.slots, {})
      ensures old(host.files).Keys <= host.files.Keys
      ensures MechanismFor(container) != VOLUME ==>
                host.files == old(host.files) && ledger.records == old(ledger.records)
                && standing == StandingAfter(old(standing), container, now)
      ensures MechanismFor(container) == VOLUME ==>
                var d, mount := DeliveryOf(PlanFor(container.value).value),
                  MountOf(container.value, PlanFor(container.value).value);
                host.Reliable() && Pushable(d, mount, store, now) ==>
                  Placed(old(host.files), host.files, d, mount, store, now)
                  && ledger.records == Recorded(old(ledger.records), d, store, now)
                  && standing == old(standing) - {d.container}
      ensures MechanismFor(container) != CLIENT || tracker.timeout <= 0 ==> tracker.View() == old(tracker.View())
      ensures MechanismFor(container) == CLIENT && tracker.timeout > 0 ==>
                var service := ServiceName(container.value.labels, container.value.service, container.value.name).value;
                tracker.View() == ClientTracker.Next(old(tracker.View()),
                                                     ClientTracker.Expect(container.value.id, service))
    {
      if container.None? { return; }
      var c := container.value;
      var service := ServiceName(c.labels, c.service, c.name);
      if service.Err? { return; }
      var plan := Resolve(InputFor(c, service.value));
      Act(c, service.value, plan, store, now);
    }

    /**
      * handleEvent. When a container is destroyed its record, its standing error and its expectation go. They stay gone
      * unless an injection of it is in flight meanwhile (see PushLock.ReturnsIff): this is one call by itself.
      */
    method HandleEvent(ev: Event, store: Store, now: nat)
      requires mem.Counted()
      modifies this`standing, host`calls, host`temps, host`files, mem, ledger, tracker
      ensures mem.Counted() && Extends(old(mem.slots), mem.slots, {})
      ensures old(host.files).Keys <= host.files.Keys
      ensures !ev.Started? ==>
                host.files == old(host.files)
                  && tracker.View() == ClientTracker.Next(old(tracker.View()), ClientTracker.Arrive(ev.id))
      ensures ev.Destroyed? ==> ledger.records == old(ledger.records) - {ev.id} && standing == old(standing) - {ev.id}
      ensures ev.Stopped? || ev.Died? ==> ledger.records == old(ledger.records) && standing == old(standing)
    {
      match ev
      case Started(c) => HandleStart(c, store, now);
      case Stopped(id) => tracker.Cancel(id);
      case Died(id) => tracker.Cancel(id);
      case Destroyed(id) =>
        tracker.Cancel(id);
        var _ := ledger.Forget(id);
        standing := standing - {id};
    }
  }

  lemma {:induction false} ApplyGrows(files: FileMap, ws: seq<Write>)
    ensures files.Keys <= Apply(files, ws).Keys
  {
    if ws != [] { ApplyGrows(files, ws[..|ws| - 1]); }
  }

  lemma DidGrows(before: FileMap, after: FileMap, intents: seq<Result<Write, Failure>>, n: nat)
    requires DidFirst(before, after, intents, n)
    ensures before.Keys <= after.Keys
  {
    ApplyGrows(before, Collect(intents[..n]).value);
  }

  /** The manifest a push wrote is the file a reconcile looks for. */
  lemma ManifestLands(before: FileMap, ws: seq<Write>, m: string, volumes: string, name: string)
    ensures var mount := JoinPath(volumes, name);
            var after := Apply(before, ws + [VolumeManifest(m, mount)]);
            before.Keys <= after.Keys && Clean(JoinPath(mount, MANIFEST_NAME)) in after
  {
    var mount := JoinPath(volumes, name);
    JoinNonEmpty(volumes, name);
    ManifestClean();
    RebaseLands(MANIFEST_PATH, mount);
    CleanChild(mount, MANIFEST_NAME);
    ApplyGrows(before, ws + [VolumeManifest(m, mount)]);
    ApplySnoc(before, ws, VolumeManifest(m, mount));
  }
}
