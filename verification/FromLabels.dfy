/** From the labels to what the container gets: each delivery a label asks for, told without the plan in between. */
module FromLabels {
  import opened Prelude
  import opened Sorting
  import opened Wire
  import opened SopsAge
  import opened Plans
  import opened Refs
  import opened Doorways
  import opened Labels
  import opened Resolution
  import opened Delivered
  import opened Paths
  import opened Files
  import opened Executors
  import opened ClientEnv
  import Pipeline

  type Text = map<string, string>

  /** What a label says; empty when it is not there. */
  ghost function Label(m: Text, s: string): string { if s in m then m[s] else "" }

  /** The data is what the text of a reference names, a bare key being one of the default source. */
  ghost predicate Referred(store: Store, source: string, text: string, data: string) {
    exists ref, name, whole, key ::
      RefText(text, ref) && RefMeans(source, ref, name, whole, key) && Secrets(store, name, whole, key, data)
  }

  /** The default source: the label's, else the service's own; the service is the caller's, else the label's. */
  ghost predicate DefaultSource(input: Input, m: Text, source: string) {
    FirstSet(source, Label(m, "source"), input.service, Label(m, "name"), "")
  }

  /** A file as the labels of its name ask for it. */
  ghost predicate FileAsked(input: Input, cfg: Config, m: Text, source: string, store: Store, n: string, f: FileV) {
    && FirstSet(f.path, Label(m, "file." + (n + ".path")), "", "", "/run/berm/" + n)
    && FirstSet(f.owner, Label(m, "file." + (n + ".owner")), Label(m, "owner"), input.user, "0:0")
    && FirstSet(f.mode, Label(m, "file." + (n + ".mode")), Label(m, "mode"), cfg.mode, "0400")
    && var from := "file." + (n + ".from");
       if from in m then Referred(store, source, m[from], f.data) else Secrets(store, source, true, "", f.data)
  }

  /** A whole-source render as its label asks for it. */
  ghost predicate RenderAsked(input: Input, cfg: Config, m: Text, source: string, kind: string, t: RenderTarget) {
    && t.kind == kind && t.source == source && t.path == Label(m, kind)
    && FirstSet(t.owner, Label(m, "owner"), input.user, "", "0:0")
    && FirstSet(t.mode, Label(m, "mode"), cfg.mode, "", "0400")
  }

  // ---- the way from labels to targets ----

  /** Everything a plan for these labels rests on. */
  datatype Way = Way(m: Text, spec: Spec, cfg: Config, choice: Choice, list: seq<EnvDelivery>,
                     renames: seq<EnvDelivery>, plan: Plan)

  ghost predicate Followed(input: Input, w: Way) {
    && input.config == Some(w.cfg) && Merged(input.labels) == Ok(w.m)
    && FieldsSaid(w.m, w.spec) && FilesSaid(w.m, w.spec.files)
    && w.spec.env == w.list + w.renames && ListSaid(w.m, w.list) && RenamesSaid(w.m, w.renames)
    && Chooses(input, w.spec, w.cfg, w.choice)
  }

  /** The targets of the plan, against the spec. */
  ghost predicate Targets(input: Input, w: Way) {
    && |w.plan.files| == |w.spec.files|
    && (forall i :: 0 <= i < |w.plan.files| ==>
          FileTargetMeans(input, w.spec, w.cfg, w.choice, w.spec.files[i], w.plan.files[i]))
    && |w.plan.env| == |w.spec.env|
    && (forall i :: 0 <= i < |w.plan.env| ==> EnvTargetMeans(w.choice, w.spec.env[i], w.plan.env[i]))
  }

  ghost predicate FileTargetMeans(input: Input, spec: Spec, cfg: Config, x: Choice, f: FileDelivery, t: FileTarget) {
    exists b :: FileMeans(input, spec, cfg, x, f, b) && FileCopied(b, t)
  }

  ghost predicate EnvTargetMeans(x: Choice, e: EnvDelivery, t: EnvTarget) {
    exists b :: EnvMeans(x, e, b) && EnvCopied(b, t)
  }

  lemma WayOf(input: Input) returns (w: Way)
    requires PlanOf(input).Ok? && PlanOf(input).value.Some?
    ensures Followed(input, w) && w.plan == DeliveryOf(PlanOf(input).value.value)
    ensures ResolveSpec(input, w.spec, w.cfg) == Ok(PlanOf(input).value.value)
  {
    var spec, cfg := ParseOf(input.labels).value, input.config.value;
    var list, renames := SpecSays(input.labels);
    var r := ResolverOf(input, spec, cfg);
    var x := Choice(r.service, r.source, MechanismOf(input, spec, cfg));
    ChoiceIs(input, spec, cfg, x);
    w := Way(Merged(input.labels).value, spec, cfg, x, list, renames, DeliveryOf(PlanOf(input).value.value));
  }

  lemma TargetsMean(input: Input, w: Way, p: Resolved)
    requires Followed(input, w) && ResolveSpec(input, w.spec, w.cfg) == Ok(p) && w.plan == DeliveryOf(p)
    ensures Targets(input, w)
  {
    PlanMeans(input, w.spec, w.cfg, w.choice);
    DeliveryCopies(p);
    forall i | 0 <= i < |w.plan.files|
      ensures FileTargetMeans(input, w.spec, w.cfg, w.choice, w.spec.files[i], w.plan.files[i])
    {
      assert FileMeans(input, w.spec, w.cfg, w.choice, w.spec.files[i], p.files[i]);
    }
    forall i | 0 <= i < |w.plan.env| ensures EnvTargetMeans(w.choice, w.spec.env[i], w.plan.env[i]) {
      assert EnvMeans(w.choice, w.spec.env[i], p.env[i]);
    }
  }

  lemma SourceIs(input: Input, w: Way, source: string)
    requires Followed(input, w) && DefaultSource(input, w.m, source)
    ensures w.choice.source == source
  {
  }

  /** The bundle is made of the pieces of the plan these labels ask for. */
  ghost predicate Made(input: Input, w: Way, store: Store, x: Pieces, b: BundleV) {
    && Followed(input, w) && Targets(input, w) && PiecesHold(w.plan, store, x)
    && b.files == x.files + Concat(x.renders) && b.env == Concat(x.env) && b.pointers == Concat(x.pointers)
  }

  lemma Sent(input: Input, store: Store, generated: string, codec: Codec) returns (w: Way, x: Pieces)
    requires Pipeline.OutcomeOf(input, store, generated, codec).Sent?
    ensures PlanOf(input).Ok? && PlanOf(input).value.Some?
    ensures w.plan == DeliveryOf(PlanOf(input).value.value)
    ensures ResolveSpec(input, w.spec, w.cfg) == Ok(PlanOf(input).value.value)
    ensures Made(input, w, store, x, Pipeline.OutcomeOf(input, store, generated, codec).bundle)
  {
    w := WayOf(input);
    TargetsMean(input, w, PlanOf(input).value.value);
    Pipeline.OwnPlanPasses(input, store, generated, codec);
    x := BundleHolds(w.plan, store, generated, codec);
  }

  // ---- files ----

  lemma FileIsAsked(input: Input, w: Way, store: Store, f: FileDelivery, t: FileTarget, v: FileV)
    requires Followed(input, w) && FileSaid(w.m, f)
    requires FileTargetMeans(input, w.spec, w.cfg, w.choice, f, t) && FileHolds(store, t, v)
    ensures FileAsked(input, w.cfg, w.m, w.choice.source, store, f.name, v)
  {
    var b :| FileMeans(input, w.spec, w.cfg, w.choice, f, b) && FileCopied(b, t);
    var from := "file." + (f.name + ".from");
    if from in w.m {
      assert RefText(w.m[from], f.from) && RefMeans(w.choice.source, f.from, b.source, b.whole, b.key);
    }
  }

  lemma NamedFile(m: Text, fs: seq<FileDelivery>, n: string, a: string) returns (i: nat)
    requires FilesSaid(m, fs) && n != "" && '/' !in n && a in {"from", "path", "owner", "mode"}
    requires "file." + (n + "." + a) in m
    ensures i < |fs| && fs[i].name == n && FileSaid(m, fs[i])
  {
    var f :| f in fs && f.name == n;
    i :| 0 <= i < |fs| && fs[i] == f;
  }

  /**
    * Every file a label asks for is in the bundle sent: at the path, with the owner and mode and holding the secret its
    * own labels name, or the container's, the daemon's and the built-in defaults for what they leave open.
    */
  lemma FileDelivered(input: Input, store: Store, generated: string, codec: Codec, m: Text, cfg: Config, source: string,
                      n: string, a: string)
    requires Pipeline.OutcomeOf(input, store, generated, codec).Sent?
    requires Merged(input.labels) == Ok(m) && input.config == Some(cfg) && DefaultSource(input, m, source)
    requires n != "" && '/' !in n && a in {"from", "path", "owner", "mode"} && "file." + (n + "." + a) in m
    ensures exists f <- Pipeline.OutcomeOf(input, store, generated, codec).bundle.files ::
              FileAsked(input, cfg, m, source, store, n, f)
  {
    var w, x := Sent(input, store, generated, codec);
    var i := NamedFile(m, w.spec.files, n, a);
    SourceIs(input, w, source);
    FileIsAsked(input, w, store, w.spec.files[i], w.plan.files[i], x.files[i]);
    assert x.files[i] == (x.files + Concat(x.renders))[i];
  }

  /** The same of a push: every file a label asks for is among the writes of one that comes to its manifest. */
  lemma FilePushed(input: Input, store: Store, mount: string, m: Text, cfg: Config, source: string, n: string,
                   a: string)
    requires PlanOf(input).Ok? && PlanOf(input).value.Some? && mount != ""
    requires Collect(VolumeIntents(DeliveryOf(PlanOf(input).value.value), store, mount)).Ok?
    requires Merged(input.labels) == Ok(m) && input.config == Some(cfg) && DefaultSource(input, m, source)
    requires n != "" && '/' !in n && a in {"from", "path", "owner", "mode"} && "file." + (n + "." + a) in m
    ensures exists w <- Collect(VolumeIntents(DeliveryOf(PlanOf(input).value.value), store, mount)).value ::
              WriteAsked(input, cfg, m, source, store, n, mount, w)
  {
    var way := WayOf(input);
    TargetsMean(input, way, PlanOf(input).value.value);
    var files, renders := VolumeHolds(way.plan, store, mount);
    var i := NamedFile(m, way.spec.files, n, a);
    SourceIs(input, way, source);
    WriteIsAsked(input, way, store, way.spec.files[i], way.plan.files[i], mount, files[i]);
    assert files[i] == (files + Concat(renders))[i];
  }

  lemma WriteIsAsked(input: Input, way: Way, store: Store, f: FileDelivery, t: FileTarget, mount: string, w: Write)
    requires Followed(input, way) && FileSaid(way.m, f)
    requires FileTargetMeans(input, way.spec, way.cfg, way.choice, f, t) && WriteHolds(store, t, mount, w)
    ensures WriteAsked(input, way.cfg, way.m, way.choice.source, store, f.name, mount, w)
  {
    var v := FileV(t.path, t.owner, t.mode, w.rec.data);
    FileIsAsked(input, way, store, f, t, v);
    assert FileWritten(v, mount, w);
  }

  ghost predicate WriteAsked(input: Input, cfg: Config, m: Text, source: string, store: Store, n: string,
                             mount: string, w: Write)
  {
    exists f :: FileAsked(input, cfg, m, source, store, n, f) && FileWritten(f, mount, w)
  }

  /** The write of a file: moved from under the volume root to under the mount. */
  ghost predicate FileWritten(f: FileV, mount: string, w: Write) {
    && UnderRoot(f.path) && w.path == Path(IsAbs(mount), Clean(mount).parts + BelowRoot(f.path))
    && w.rec == Rec(f.data, f.owner, f.mode)
  }

  // ---- renders ----

  /** A render a label asks for is in the bundle sent, all of its files together and in key order. */
  lemma RenderDelivered(input: Input, store: Store, generated: string, codec: Codec, m: Text, cfg: Config,
                        source: string, kind: string)
    requires Pipeline.OutcomeOf(input, store, generated, codec).Sent?
    requires Merged(input.labels) == Ok(m) && input.config == Some(cfg) && DefaultSource(input, m, source)
    requires kind in {"dotenv", "envdir"} && kind in m && m[kind] != ""
    ensures exists t, fs :: RenderAsked(input, cfg, m, source, kind, t) && RenderHolds(store, t, fs)
              && Within(fs, Pipeline.OutcomeOf(input, store, generated, codec).bundle.files)
  {
    var w, x := Sent(input, store, generated, codec);
    var i := RenderTargetAt(input, w, PlanOf(input).value.value, kind);
    SourceIs(input, w, source);
    PieceWithin(x.files, x.renders, i);
    assert RenderHolds(store, w.plan.renders[i], x.renders[i]);
  }

  /** The files stand in the list, one after the other. */
  ghost predicate Within(fs: seq<FileV>, all: seq<FileV>) { exists a, b :: all == a + fs + b }

  lemma PieceWithin(front: seq<FileV>, pieces: seq<seq<FileV>>, i: nat)
    requires i < |pieces|
    ensures Within(pieces[i], front + Concat(pieces))
  {
    var a, b := Concat(pieces[..i]), Concat(pieces[i + 1..]);
    ConcatAt(pieces, i);
    Joined(front, a + pieces[i], b);
    Joined(front, a, pieces[i]);
    assert front + Concat(pieces) == (front + a) + pieces[i] + b;
  }

  lemma RenderTargetAt(input: Input, w: Way, p: Resolved, kind: string) returns (i: nat)
    requires Followed(input, w) && ResolveSpec(input, w.spec, w.cfg) == Ok(p) && w.plan == DeliveryOf(p)
    requires kind in {"dotenv", "envdir"} && kind in w.m && w.m[kind] != ""
    ensures i < |w.plan.renders| && RenderAsked(input, w.cfg, w.m, w.choice.source, kind, w.plan.renders[i])
  {
    RendersMean(input, w.spec, w.cfg, w.choice);
    DeliveryCopies(p);
    i := if kind == "dotenv" then 0 else |p.renders| - 1;
    assert RenderMeans(input, w.spec, w.cfg, w.choice, kind, w.m[kind], p.renders[i]);
  }

  // ---- variables ----

  ghost predicate SetsName(vs: seq<EnvV>, name: string) { exists v <- vs :: v.name == name }

  ghost predicate NoneAfter(pieces: seq<seq<EnvV>>, i: nat, name: string) {
    forall j :: i < j < |pieces| ==> !SetsName(pieces[j], name)
  }

  /** The last of a list of variables that has the name. */
  lemma {:induction false} LastWith(vs: seq<EnvV>, name: string) returns (k: nat)
    requires SetsName(vs, name)
    ensures k < |vs| && vs[k].name == name && forall j :: k < j < |vs| ==> vs[j].name != name
  {
    var n := |vs| - 1;
    if vs[n].name == name {
      k := n;
    } else {
      var v :| v in vs && v.name == name;
      assert v in vs[..n];
      k := LastWith(vs[..n], name);
      assert forall j :: k < j < n ==> vs[..n][j].name != name;
    }
  }

  lemma {:induction false} NoneSets(xss: seq<seq<EnvV>>, name: string)
    requires forall xs <- xss :: !SetsName(xs, name)
    ensures !SetsName(Concat(xss), name)
  {
    if xss != [] {
      NoneSets(xss[1..], name);
      assert !SetsName(xss[0], name);
    }
  }

  /** What the app sees of a variable. */
  ghost predicate Sees(base: seq<string>, b: BundleV, name: string, val: string) {
    name in ClientEnv.Names(Assigned(base, b)) && Value(Assigned(base, b), name) == val
  }

  ghost predicate PieceSeen(base: seq<string>, b: BundleV, piece: seq<EnvV>, name: string) {
    exists v <- piece :: v.name == name && Sees(base, b, name, v.value)
  }

  /** The last of a name in a piece, with none after the piece, is the last of that name in all. */
  lemma LastOfAll(front: seq<EnvV>, piece: seq<EnvV>, tail: seq<EnvV>, q: nat, name: string)
    requires q < |piece| && (forall j :: q < j < |piece| ==> piece[j].name != name) && !SetsName(tail, name)
    ensures forall j :: |front| + q < j < |front + piece + tail| ==> (front + piece + tail)[j].name != name
  {
    var all := front + piece + tail;
    forall j | |front| + q < j < |all| ensures all[j].name != name {
      if j < |front| + |piece| {
        assert all[j] == piece[j - |front|];
      } else {
        assert all[j] == tail[j - |front| - |piece|] && tail[j - |front| - |piece|] in tail;
      }
    }
  }

  /** The app sees, of all variables of a name, the last of the last target that sets it. */
  lemma LastPieceWins(base: seq<string>, b: BundleV, pieces: seq<seq<EnvV>>, i: nat, name: string)
    requires b.env == Concat(pieces) && i < |pieces| && SetsName(pieces[i], name)
    requires NoneAfter(pieces, i, name)
    ensures PieceSeen(base, b, pieces[i], name)
  {
    var front, piece, tail := Concat(pieces[..i]), pieces[i], Concat(pieces[i + 1..]);
    ConcatAt(pieces, i);
    assert forall xs <- pieces[i + 1..] :: !SetsName(xs, name);
    NoneSets(pieces[i + 1..], name);
    var q := LastWith(piece, name);
    LastOfAll(front, piece, tail, q, name);
    SeenAt(base, b, front, piece, tail, q);
  }

  lemma SeenAt(base: seq<string>, b: BundleV, front: seq<EnvV>, piece: seq<EnvV>, tail: seq<EnvV>, q: nat)
    requires b.env == front + piece + tail && q < |piece|
    requires forall j :: |front| + q < j < |b.env| ==> b.env[j].name != piece[q].name
    ensures PieceSeen(base, b, piece, piece[q].name)
  {
    var k := |front| + q;
    assert b.env[k] == piece[q];
    SecretWins(base, b, k);
    assert piece[q] in piece && Sees(base, b, piece[q].name, piece[q].value);
  }

  /** A keyed target sets its one variable. */
  lemma KeyedSets(w: Way, store: Store, e: EnvDelivery, t: EnvTarget, vs: seq<EnvV>, text: string,
                  varName: Option<string>)
    requires EnvTargetMeans(w.choice, e, t) && EnvHolds(store, t, vs)
    requires KeySaid(text, varName, e) && (varName.Some? ==> varName.value != "")
    ensures SetsOne(store, w.choice.source, vs, e.varName, text)
  {
    var b :| EnvMeans(w.choice, e, b) && EnvCopied(b, t);
    RefTextIff(text, e.ref);
    PrintParseRef(text);
    assert e.varName != "";
    assert RefMeans(w.choice.source, e.ref, b.source, false, b.key);
  }

  lemma RenamesApart(m: Text, es: seq<EnvDelivery>, i: nat, j: nat)
    requires RenamesSaid(m, es) && i < j < |es|
    ensures es[i].varName != es[j].varName
  {
    assert Before(ByVar(es[i]), ByVar(es[j]));
  }

  lemma EnvLength(input: Input, w: Way, store: Store, x: Pieces, b: BundleV)
    requires Made(input, w, store, x, b)
    ensures |x.env| == |w.list| + |w.renames| && b.env == Concat(x.env) && RenamesSaid(w.m, w.renames)
  {
  }

  lemma EnvAt(input: Input, w: Way, store: Store, x: Pieces, b: BundleV, i: nat)
    requires Made(input, w, store, x, b) && i < |x.env|
    ensures i < |w.plan.env| && i < |w.spec.env| && w.spec.env[i] == (w.list + w.renames)[i]
    ensures EnvTargetMeans(w.choice, w.spec.env[i], w.plan.env[i]) && EnvHolds(store, w.plan.env[i], x.env[i])
  {
  }

  /** One variable, with the value the text names. */
  ghost predicate SetsOne(store: Store, source: string, vs: seq<EnvV>, name: string, text: string) {
    |vs| == 1 && vs[0].name == name && Referred(store, source, text, vs[0].value)
  }

  /** The renamed targets set just their own variables. */
  lemma RenameSets(input: Input, w: Way, store: Store, x: Pieces, b: BundleV, i: nat)
    requires Made(input, w, store, x, b) && i < |w.renames|
    ensures var v, s, at := w.renames[i].varName, "env." + w.renames[i].varName, |w.list| + i;
            at < |x.env| && s in w.m && SetsOne(store, w.choice.source, x.env[at], v, w.m[s])
  {
    var e, at := w.renames[i], |w.list| + i;
    EnvLength(input, w, store, x, b);
    EnvAt(input, w, store, x, b, at);
    assert e in w.renames && RenameSaid(w.m, e);
    KeyedSets(w, store, e, w.plan.env[at], x.env[at], w.m["env." + e.varName], Some(e.varName));
  }

  lemma OthersApart(store: Store, source: string, vs: seq<EnvV>, name: string, text: string, other: string)
    requires SetsOne(store, source, vs, name, text)
    ensures SetsName(vs, other) <==> other == name
  {
    assert vs[0] in vs;
  }

  /** The piece sets the renamed variable, to what its label names. */
  ghost predicate RenamePiece(m: Text, store: Store, source: string, v: string, env: seq<seq<EnvV>>, at: nat) {
    at < |env| && "env." + v in m && SetsOne(store, source, env[at], v, m["env." + v])
  }

  /** The pieces of the renamed variables, after the first n. */
  ghost predicate RenamePieces(m: Text, store: Store, source: string, n: nat, es: seq<EnvDelivery>,
                               env: seq<seq<EnvV>>)
  {
    && |env| == n + |es| && RenamesSaid(m, es)
    && forall k: nat :: k < |es| ==> RenamePiece(m, store, source, es[k].varName, env, n + k)
  }

  lemma RenamesMade(input: Input, w: Way, store: Store, x: Pieces, b: BundleV)
    requires Made(input, w, store, x, b)
    ensures RenamePieces(w.m, store, w.choice.source, |w.list|, w.renames, x.env) && b.env == Concat(x.env)
  {
    EnvLength(input, w, store, x, b);
    forall k: nat | k < |w.renames|
      ensures RenamePiece(w.m, store, w.choice.source, w.renames[k].varName, x.env, |w.list| + k)
    {
      RenameSets(input, w, store, x, b, k);
    }
  }

  lemma RenameSilent(m: Text, store: Store, source: string, n: nat, es: seq<EnvDelivery>, env: seq<seq<EnvV>>,
                     k: nat, name: string)
    requires RenamePieces(m, store, source, n, es, env) && k < |es| && es[k].varName != name
    ensures Silent(env, n, k, name)
  {
    var v := es[k].varName;
    assert RenamePiece(m, store, source, v, env, n + k);
    OthersApart(store, source, env[n + k], v, m["env." + v], name);
  }

  ghost predicate Silent(pieces: seq<seq<EnvV>>, n: nat, k: nat, name: string) {
    n + k < |pieces| && !SetsName(pieces[n + k], name)
  }

  lemma SilentFrom(pieces: seq<seq<EnvV>>, n: nat, first: nat, count: nat, name: string)
    requires |pieces| == n + count && forall k: nat :: first <= k < count ==> Silent(pieces, n, k, name)
    ensures forall j :: n + first <= j < |pieces| ==> !SetsName(pieces[j], name)
  {
    forall j: nat | n + first <= j < |pieces| ensures !SetsName(pieces[j], name) {
      assert Silent(pieces, n, j - n, name);
    }
  }

  /** After a renamed variable's own target none sets it. */
  lemma RenameIsLast(m: Text, store: Store, source: string, n: nat, es: seq<EnvDelivery>, env: seq<seq<EnvV>>, i: nat)
    requires RenamePieces(m, store, source, n, es, env) && i < |es|
    ensures NoneAfter(env, n + i, es[i].varName)
  {
    forall k: nat | i + 1 <= k < |es| ensures Silent(env, n, k, es[i].varName) {
      RenamesApart(m, es, i, k);
      RenameSilent(m, store, source, n, es, env, k, es[i].varName);
    }
    SilentFrom(env, n, i + 1, |es|, es[i].varName);
  }

  /** Nothing after the list sets a variable that no rename label names. */
  lemma NoRenameSets(m: Text, store: Store, source: string, n: nat, es: seq<EnvDelivery>, env: seq<seq<EnvV>>,
                     name: string)
    requires RenamePieces(m, store, source, n, es, env) && "env." + name !in m
    ensures n <= |env| && forall j :: n <= j < |env| ==> !SetsName(env[j], name)
  {
    forall k: nat | 0 <= k < |es| ensures Silent(env, n, k, name) {
      assert RenamePiece(m, store, source, es[k].varName, env, n + k);
      RenameSilent(m, store, source, n, es, env, k, name);
    }
    SilentFrom(env, n, 0, |es|, name);
  }

  lemma RenameAt(m: Text, es: seq<EnvDelivery>, name: string) returns (i: nat)
    requires RenamesSaid(m, es) && name != "" && name != "acknowledge" && "env." + name in m
    ensures i < |es| && es[i].varName == name
  {
    var s := "env." + name;
    assert s[4..] == name && s[..4] == "env." && "env.acknowledge"[4..] == "acknowledge";
    assert AsksEnv(s) && s != "env" && AskedBy(s, es);
    var e :| e in es && "env." + e.varName == s;
    assert ("env." + e.varName)[4..] == e.varName;
    i :| 0 <= i < |es| && es[i] == e;
  }

  /** The app sees under the name a value that the text names. */
  ghost predicate RefSeen(base: seq<string>, b: BundleV, store: Store, source: string, text: string, name: string) {
    exists val :: Referred(store, source, text, val) && Sees(base, b, name, val)
  }

  /** The i-th piece sets the one variable, to what the text names, and no later piece sets it. */
  ghost predicate LastSets(b: BundleV, store: Store, source: string, pieces: seq<seq<EnvV>>, i: nat, name: string,
                           text: string)
  {
    && b.env == Concat(pieces) && i < |pieces| && SetsOne(store, source, pieces[i], name, text)
    && NoneAfter(pieces, i, name)
  }

  lemma OneSeen(base: seq<string>, b: BundleV, store: Store, source: string, pieces: seq<seq<EnvV>>, i: nat,
                name: string, text: string)
    requires LastSets(b, store, source, pieces, i, name, text)
    ensures RefSeen(base, b, store, source, text, name)
  {
    OthersApart(store, source, pieces[i], name, text, name);
    LastPieceWins(base, b, pieces, i, name);
    OnlyOne(base, b, store, source, pieces[i], name, text);
  }

  lemma OnlyOne(base: seq<string>, b: BundleV, store: Store, source: string, piece: seq<EnvV>, name: string,
                text: string)
    requires SetsOne(store, source, piece, name, text) && PieceSeen(base, b, piece, name)
    ensures RefSeen(base, b, store, source, text, name)
  {
    var v :| v in piece && v.name == name && Sees(base, b, name, v.value);
    assert v == piece[0];
  }

  /**
    * A renamed variable always reaches the app: under the variable's own name, whatever the client's environment, the
    * pointers and berm.env set, it has the value of the key its label names.
    */
  lemma RenamedVariableSeen(input: Input, store: Store, generated: string, codec: Codec, m: Text, source: string,
                            name: string, base: seq<string>)
    requires Pipeline.OutcomeOf(input, store, generated, codec).Sent?
    requires Merged(input.labels) == Ok(m) && DefaultSource(input, m, source)
    requires name != "" && name != "acknowledge" && "env." + name in m
    ensures RefSeen(base, Pipeline.OutcomeOf(input, store, generated, codec).bundle, store, source, m["env." + name],
                    name)
  {
    var w, x := Sent(input, store, generated, codec);
    SourceIs(input, w, source);
    var b := Pipeline.OutcomeOf(input, store, generated, codec).bundle;
    RenamesMade(input, w, store, x, b);
    RenameSeen(m, store, source, |w.list|, w.renames, x.env, b, name, base);
  }

  lemma RenameSeen(m: Text, store: Store, source: string, n: nat, es: seq<EnvDelivery>, env: seq<seq<EnvV>>,
                   b: BundleV, name: string, base: seq<string>)
    requires RenamePieces(m, store, source, n, es, env) && b.env == Concat(env)
    requires name != "" && name != "acknowledge" && "env." + name in m
    ensures RefSeen(base, b, store, source, m["env." + name], name)
  {
    var i := RenameAt(m, es, name);
    assert RenamePiece(m, store, source, es[i].varName, env, n + i);
    RenameIsLast(m, store, source, n, es, env, i);
    OneSeen(base, b, store, source, env, n + i, name, m["env." + name]);
  }

  /** The value some key of a dotenv source has, as the app sees it. */
  ghost predicate KeySeen(base: seq<string>, b: BundleV, plain: string, key: string) {
    exists val :: Gives(plain, key, val) && Sees(base, b, key, val)
  }

  /** Every listed key that no rename label takes. */
  ghost predicate KeysSeen(base: seq<string>, b: BundleV, m: Text, plain: string, keys: seq<string>) {
    forall key <- keys :: "env." + key !in m ==> KeySeen(base, b, plain, key)
  }

  lemma AllPieceSeen(base: seq<string>, b: BundleV, pieces: seq<seq<EnvV>>, plain: string, keys: seq<string>,
                     key: string)
    requires b.env == Concat(pieces) && pieces != [] && AllHolds(plain, keys, pieces[0]) && key in keys
    requires NoneAfter(pieces, 0, key)
    ensures KeySeen(base, b, plain, key)
  {
    var k :| 0 <= k < |keys| && keys[k] == key;
    assert pieces[0][k] in pieces[0];
    LastPieceWins(base, b, pieces, 0, key);
    var v :| v in pieces[0] && v.name == key && Sees(base, b, key, v.value);
    var q :| 0 <= q < |pieces[0]| && pieces[0][q] == v;
    assert Gives(plain, key, v.value) && Sees(base, b, key, v.value);
  }

  /** With berm.env=all every key of the source reaches the app under its own name, unless a rename label takes it. */
  lemma AllKeysSeen(input: Input, store: Store, generated: string, codec: Codec, m: Text, source: string,
                    base: seq<string>)
    requires Pipeline.OutcomeOf(input, store, generated, codec).Sent?
    requires Merged(input.labels) == Ok(m) && DefaultSource(input, m, source) && Label(m, "env") == "all"
    ensures exists plain, keys :: Decrypts(store, source, "dotenv", plain) && Listed(plain, keys)
              && KeysSeen(base, Pipeline.OutcomeOf(input, store, generated, codec).bundle, m, plain, keys)
  {
    var w, x := Sent(input, store, generated, codec);
    var b := Pipeline.OutcomeOf(input, store, generated, codec).bundle;
    SourceIs(input, w, source);
    RenamesMade(input, w, store, x, b);
    var plain, keys := AllPiece(input, w, store, x, b);
    forall key | key in keys && "env." + key !in m ensures KeySeen(base, b, plain, key) {
      NoRenameSets(m, store, source, 1, w.renames, x.env, key);
      AllPieceSeen(base, b, x.env, plain, keys, key);
    }
  }

  lemma AllPiece(input: Input, w: Way, store: Store, x: Pieces, b: BundleV) returns (plain: string, keys: seq<string>)
    requires Made(input, w, store, x, b) && Label(w.m, "env") == "all"
    ensures |w.list| == 1 && x.env != []
    ensures Decrypts(store, w.choice.source, "dotenv", plain) && Listed(plain, keys) && AllHolds(plain, keys, x.env[0])
  {
    EnvLength(input, w, store, x, b);
    ListIsAll(input, w);
    EnvAt(input, w, store, x, b, 0);
    var e :| EnvMeans(w.choice, w.spec.env[0], e) && EnvCopied(e, w.plan.env[0]);
    plain, keys :| Decrypts(store, w.choice.source, "dotenv", plain) && Listed(plain, keys)
                   && AllHolds(plain, keys, x.env[0]);
  }

  lemma ListIsAll(input: Input, w: Way)
    requires Followed(input, w) && Label(w.m, "env") == "all"
    ensures w.list == [EnvDelivery("", UNSET, true)]
  {
  }

  /** A later part of the list has the key too. */
  ghost predicate ListedAgain(parts: seq<string>, i: nat, key: string) {
    exists j, r :: i < j < |parts| && KeyRef(parts[j], r) && r.key == key
  }

  /**
    * A key listed in berm.env reaches the app under its own name, unless a later part of the list has that key too or a
    * rename label takes the name.
    */
  lemma ListedKeySeen(input: Input, store: Store, generated: string, codec: Codec, m: Text, source: string,
                      parts: seq<string>, i: nat, ref: Ref, base: seq<string>)
    requires Pipeline.OutcomeOf(input, store, generated, codec).Sent?
    requires Merged(input.labels) == Ok(m) && DefaultSource(input, m, source)
    requires "env" in m && m["env"] != "all" && PartsOf(m["env"], parts) && i < |parts| && KeyRef(parts[i], ref)
    requires "env." + ref.key !in m && !ListedAgain(parts, i, ref.key)
    ensures RefSeen(base, Pipeline.OutcomeOf(input, store, generated, codec).bundle, store, source, parts[i], ref.key)
  {
    var w, x := Sent(input, store, generated, codec);
    var b := Pipeline.OutcomeOf(input, store, generated, codec).bundle;
    SourceIs(input, w, source);
    RenamesMade(input, w, store, x, b);
    ListIs(input, w, parts);
    ListSets(input, w, store, x, b, parts, i, ref);
    NoRenameSets(m, store, source, |w.list|, w.renames, x.env, ref.key);
    ListedIsLast(input, w, store, x, b, parts, i, ref.key);
    OneSeen(base, b, store, source, x.env, i, ref.key, parts[i]);
  }

  lemma ListedIsLast(input: Input, w: Way, store: Store, x: Pieces, b: BundleV, parts: seq<string>, i: nat,
                     key: string)
    requires Made(input, w, store, x, b) && EachSaid(parts, w.list) && |parts| <= |x.env|
    requires !ListedAgain(parts, i, key)
    ensures forall j :: i < j < |parts| ==> !SetsName(x.env[j], key)
  {
    forall j | i < j < |parts| ensures !SetsName(x.env[j], key) {
      var r := w.list[j].ref;
      assert KeyRef(parts[j], r);
      ListSets(input, w, store, x, b, parts, j, r);
      OthersApart(store, w.choice.source, x.env[j], r.key, parts[j], key);
    }
  }

  lemma ListIs(input: Input, w: Way, parts: seq<string>)
    requires Followed(input, w) && "env" in w.m && w.m["env"] != "all" && PartsOf(w.m["env"], parts)
    ensures EachSaid(parts, w.list)
  {
    var other :| PartsOf(w.m["env"], other) && EachSaid(other, w.list);
    PartsAre(w.m["env"], parts);
    PartsAre(w.m["env"], other);
  }

  lemma ListSets(input: Input, w: Way, store: Store, x: Pieces, b: BundleV, parts: seq<string>, i: nat, ref: Ref)
    requires Made(input, w, store, x, b) && EachSaid(parts, w.list) && i < |parts| && KeyRef(parts[i], ref)
    ensures i < |x.env| && SetsOne(store, w.choice.source, x.env[i], ref.key, parts[i])
  {
    EnvLength(input, w, store, x, b);
    EnvAt(input, w, store, x, b, i);
    RefTextIff(parts[i], ref);
    RefTextIff(parts[i], w.list[i].ref);
    KeyedSets(w, store, w.list[i], w.plan.env[i], x.env[i], parts[i], None);
  }

  // ---- pointers ----

  /** The file of one key comes with a pointer variable named for the key, that holds its path. */
  lemma PointerSent(input: Input, store: Store, generated: string, codec: Codec, m: Text, cfg: Config, source: string,
                    n: string, a: string)
    requires Pipeline.OutcomeOf(input, store, generated, codec).Sent?
    requires Merged(input.labels) == Ok(m) && input.config == Some(cfg) && DefaultSource(input, m, source)
    requires n != "" && '/' !in n && a in {"from", "path", "owner", "mode"} && "file." + (n + "." + a) in m
    ensures var b := Pipeline.OutcomeOf(input, store, generated, codec).bundle;
            exists f <- b.files ::
              FileAsked(input, cfg, m, source, store, n, f)
              && forall ref :: "file." + (n + ".from") in m && KeyRef(m["file." + (n + ".from")], ref) ==>
                   Pointer(ref.key + "_FILE", f.path) in b.pointers
  {
    var w, x := Sent(input, store, generated, codec);
    var i := NamedFile(m, w.spec.files, n, a);
    SourceIs(input, w, source);
    FileIsAsked(input, w, store, w.spec.files[i], w.plan.files[i], x.files[i]);
    assert x.files[i] == (x.files + Concat(x.renders))[i];
    var from := "file." + (n + ".from");
    forall ref | from in m && KeyRef(m[from], ref)
      ensures Pointer(ref.key + "_FILE", x.files[i].path) in Concat(x.pointers)
    {
      PointerOfKey(input, w, w.spec.files[i], w.plan.files[i], x.pointers[i], ref);
      InConcat(x.pointers, x.pointers[i], Pointer(ref.key + "_FILE", x.files[i].path));
    }
  }

  lemma PointerOfKey(input: Input, w: Way, f: FileDelivery, t: FileTarget, ps: seq<Pointer>, ref: Ref)
    requires FileSaid(w.m, f) && FileTargetMeans(input, w.spec, w.cfg, w.choice, f, t) && PointerHolds(t, ps)
    requires "file." + (f.name + ".from") in w.m && KeyRef(w.m["file." + (f.name + ".from")], ref)
    ensures ps == [Pointer(ref.key + "_FILE", t.path)]
  {
    var b :| FileMeans(input, w.spec, w.cfg, w.choice, f, b) && FileCopied(b, t);
    RefTextIff(w.m["file." + (f.name + ".from")], ref);
    RefTextIff(w.m["file." + (f.name + ".from")], f.from);
  }
}
