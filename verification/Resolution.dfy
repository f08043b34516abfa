/** The label compiler's second half: parsed labels checked against berm.yml into a plan, or refused by class. */
module Resolution {
  import opened Prelude
  import opened SopsAge
  import opened Plans
  import opened Refs
  import opened Doorways
  import opened Labels

  datatype SourceCfg = SourceCfg(format: string, owner: string, access: seq<string>)
  datatype Config = Config(sources: map<string, SourceCfg>, delivery: string, mode: string)
  datatype Input = Input(labels: Doorways.Labels, container: string, service: string, user: string,
                         config: Option<Config>, defaultDelivery: string)

  datatype EnvBinding = EnvBinding(varName: string, source: string, key: string, all: bool)
  datatype FileBinding = FileBinding(name: string, source: string, format: string, whole: bool, key: string,
                                     path: string, owner: string, mode: string, pointerVar: string)
  datatype RenderBinding = RenderBinding(kind: string, source: string, format: string, path: string, owner: string,
                                         mode: string)
  datatype Resolved = Resolved(container: string, service: string, mechanism: string, env: seq<EnvBinding>,
                               files: seq<FileBinding>, renders: seq<RenderBinding>, envExposure: bool)

  function FirstNonEmpty(a: string, b: string): string { if a != "" then a else b }

  /** What the resolution helpers share for one container. */
  datatype Resolver = Resolver(cfg: Config, service: string, source: string, user: string, owner: string, mode: string)

  function FormatOf(src: SourceCfg): Result<string, Class> {
    if src.format == "" then Ok(DOTENV) else if ValidFormat(src.format) then Ok(src.format) else Err(BadConfig)
  }

  /** Strict exact-name ownership; a source without an owner is owned under its own name. */
  predicate Owns(service: string, name: string, src: SourceCfg) { FirstNonEmpty(src.owner, name) == service }

  predicate MayRead(service: string, name: string, src: SourceCfg) { Owns(service, name, src) || service in src.access }

  datatype Target = Target(source: string, format: string, whole: bool, key: string)

  function RefSourceName(r: Resolver, ref: Ref): string { if ref.kind == RefKey then r.source else ref.source }

  /** The format a reference of each shape needs. */
  function WantedFormat(ref: Ref): string { if ref.kind == RefSource then BINARY else DOTENV }

  function ResolveRef(r: Resolver, ref: Ref): Result<Target, Class> {
    var name := RefSourceName(r, ref);
    if name !in r.cfg.sources then Err(MissingSource)
    else
      var src := r.cfg.sources[name];
      var format :- FormatOf(src);
      if format != WantedFormat(ref) then Err(WrongRefShape)
      else if !MayRead(r.service, name, src) then Err(UngrantedRef)
      else Ok(Target(name, format, ref.kind == RefSource, if ref.kind == RefSource then "" else ref.key))
  }

  function ResolveEnv(r: Resolver, e: EnvDelivery): Result<EnvBinding, Class> {
    if e.all then
      if r.source !in r.cfg.sources then Err(MissingSource)
      else
        var format :- FormatOf(r.cfg.sources[r.source]);
        if format != DOTENV then Err(WrongRefShape)
        else if !Owns(r.service, r.source, r.cfg.sources[r.source]) then Err(AllCrossService)
        else Ok(EnvBinding("", r.source, "", true))
    else
      var t :- ResolveRef(r, e.ref);
      Ok(EnvBinding(e.varName, t.source, t.key, false))
  }

  function FromOf(r: Resolver, f: FileDelivery): Ref {
    if f.from == UNSET then Ref(RefSource, r.source, "") else f.from
  }

  function ResolveFile(r: Resolver, f: FileDelivery): Result<FileBinding, Class> {
    var t :- ResolveRef(r, FromOf(r, f));
    Ok(FileBinding(f.name, t.source, t.format, t.whole, t.key,
                   FirstNonEmpty(f.path, "/run/berm/" + f.name),
                   FirstNonEmpty(f.owner, FirstNonEmpty(r.owner, FirstNonEmpty(r.user, "0:0"))),
                   FirstNonEmpty(f.mode, FirstNonEmpty(r.mode, FirstNonEmpty(r.cfg.mode, "0400"))),
                   if t.whole then "" else t.key + "_FILE"))
  }

  function ResolveRender(r: Resolver, kind: string, path: string): Result<RenderBinding, Class> {
    if r.source !in r.cfg.sources then Err(MissingSource)
    else
      var src := r.cfg.sources[r.source];
      var format :- FormatOf(src);
      if format != DOTENV then Err(WrongRefShape)
      else if !MayRead(r.service, r.source, src) then Err(UngrantedRef)
      else Ok(RenderBinding(kind, r.source, format, path,
                            FirstNonEmpty(r.owner, FirstNonEmpty(r.user, "0:0")),
                            FirstNonEmpty(r.mode, FirstNonEmpty(r.cfg.mode, "0400"))))
  }

  /** The whole-source renders a spec asks for, dotenv before envdir. */
  function RendersAsked(spec: Spec): seq<(string, string)> {
    (if spec.dotenv != "" then [(RENDER_DOTENV, spec.dotenv)] else [])
    + (if spec.envdir != "" then [(RENDER_ENVDIR, spec.envdir)] else [])
  }

  function MechanismOf(input: Input, spec: Spec, cfg: Config): string {
    FirstNonEmpty(spec.delivery, FirstNonEmpty(input.defaultDelivery, cfg.delivery))
  }

  function ServiceOf(input: Input, spec: Spec): string { FirstNonEmpty(input.service, spec.name) }

  function ResolverOf(input: Input, spec: Spec, cfg: Config): Resolver {
    var service := ServiceOf(input, spec);
    Resolver(cfg, service, FirstNonEmpty(spec.source, service), input.user, spec.owner, spec.mode)
  }

  /** Everything after the spec has parsed as enabled. */
  function ResolveSpec(input: Input, spec: Spec, cfg: Config): Result<Resolved, Class> {
    var mech := MechanismOf(input, spec, cfg);
    if ServiceOf(input, spec) == "" || !ValidMechanism(mech) then Err(BadConfig)
    else if spec.env != [] && !EnvAllowed(mech) then Err(EnvWrongMechanism)
    else
      var r := ResolverOf(input, spec, cfg);
      var env :- Collect(Map((e: EnvDelivery) => ResolveEnv(r, e), spec.env));
      var files :- Collect(Map((f: FileDelivery) => ResolveFile(r, f), spec.files));
      var renders :- Collect(Map((a: (string, string)) => ResolveRender(r, a.0, a.1), RendersAsked(spec)));
      Ok(Resolved(input.container, r.service, mech, env, files, renders, env != []))
  }

  function PlanFrom(input: Input, cfg: Config, parsed: Result<Spec, Class>): Result<Option<Resolved>, Class> {
    var spec :- parsed;
    if !spec.enabled then Ok(None)
    else
      var plan :- ResolveSpec(input, spec, cfg);
      Ok(Some(plan))
  }

  /** Resolve: None for a container that is not enabled. */
  ghost function PlanOf(input: Input): Result<Option<Resolved>, Class> {
    if input.config.None? then Err(BadConfig) else PlanFrom(input, input.config.value, ParseOf(input.labels))
  }

  method BindEnv(r: Resolver, es: seq<EnvDelivery>) returns (res: Result<seq<EnvBinding>, Class>)
    ensures res == Collect(Map((e: EnvDelivery) => ResolveEnv(r, e), es))
  {
    ghost var f := (e: EnvDelivery) => ResolveEnv(r, e);
    var out := [];
    assert es[..0] == [] && Map(f, []) == [];
    for i := 0 to |es|
      invariant Collect(Map(f, es[..i])) == Ok(out)
    {
      CollectStep(f, es, i, out);
      var b :- ResolveEnv(r, es[i]);
      out := out + [b];
    }
    assert es[..|es|] == es;
    res := Ok(out);
  }

  method BindFiles(r: Resolver, fs: seq<FileDelivery>) returns (res: Result<seq<FileBinding>, Class>)
    ensures res == Collect(Map((f: FileDelivery) => ResolveFile(r, f), fs))
  {
    ghost var f := (d: FileDelivery) => ResolveFile(r, d);
    var out := [];
    assert fs[..0] == [] && Map(f, []) == [];
    for i := 0 to |fs|
      invariant Collect(Map(f, fs[..i])) == Ok(out)
    {
      CollectStep(f, fs, i, out);
      var b :- ResolveFile(r, fs[i]);
      out := out + [b];
    }
    assert fs[..|fs|] == fs;
    res := Ok(out);
  }

  /** The plan-building loops of Resolve. */
  method Bind(r: Resolver, spec: Spec, plan0: Resolved) returns (res: Result<Resolved, Class>)
    requires plan0.env == [] && plan0.files == [] && plan0.renders == [] && !plan0.envExposure
    ensures var env := Collect(Map((e: EnvDelivery) => ResolveEnv(r, e), spec.env));
            var files := Collect(Map((f: FileDelivery) => ResolveFile(r, f), spec.files));
            var renders := Collect(Map((a: (string, string)) => ResolveRender(r, a.0, a.1), RendersAsked(spec)));
            res == if env.Err? then Err(env.error) else if files.Err? then Err(files.error)
                   else if renders.Err? then Err(renders.error)
                   else Ok(plan0.(env := env.value, files := files.value, renders := renders.value,
                                  envExposure := env.value != []))
  {
    var env :- BindEnv(r, spec.env);
    var plan := plan0.(env := env);
    if |plan.env| > 0 { plan := plan.(envExposure := true); }
    var files :- BindFiles(r, spec.files);
    plan := plan.(files := files);
    res := BindRenders(r, spec, plan);
  }

  method BindRenders(r: Resolver, spec: Spec, plan0: Resolved) returns (res: Result<Resolved, Class>)
    requires plan0.renders == []
    ensures var renders := Collect(Map((a: (string, string)) => ResolveRender(r, a.0, a.1), RendersAsked(spec)));
            res == if renders.Err? then Err(renders.error) else Ok(plan0.(renders := renders.value))
  {
    var plan := plan0;
    ghost var asked := RendersAsked(spec);
    ghost var f := (a: (string, string)) => ResolveRender(r, a.0, a.1);
    assert asked[..0] == [] && Map(f, []) == [];
    if spec.dotenv != "" {
      CollectStep(f, asked, 0, []);
      var b :- ResolveRender(r, RENDER_DOTENV, spec.dotenv);
      plan := plan.(renders := plan.renders + [b]);
    }
    assert Collect(Map(f, asked[..|plan.renders|])) == Ok(plan.renders);
    if spec.envdir != "" {
      CollectStep(f, asked, |plan.renders|, plan.renders);
      var b :- ResolveRender(r, RENDER_ENVDIR, spec.envdir);
      plan := plan.(renders := plan.renders + [b]);
    }
    assert asked[..|plan.renders|] == asked;
    res := Ok(plan);
  }

  method Resolve(input: Input) returns (res: Result<Option<Resolved>, Class>)
    ensures res == PlanOf(input)
  {
    if input.config.None? { return Err(BadConfig); }
    var cfg := input.config.value;
    var spec :- Parse(input.labels);
    if !spec.enabled { return Ok(None); }
    var service := FirstNonEmpty(input.service, spec.name);
    if service == "" { return Err(BadConfig); }
    var r := Resolver(cfg, service, FirstNonEmpty(spec.source, service), input.user, spec.owner, spec.mode);
    var mech := spec.delivery;
    if mech == "" { mech := input.defaultDelivery; }
    if mech == "" { mech := cfg.delivery; }
    if !ValidMechanism(mech) { return Err(BadConfig); }
    if |spec.env| > 0 && !EnvAllowed(mech) { return Err(EnvWrongMechanism); }
    var plan :- Bind(r, spec, Resolved(input.container, service, mech, [], [], [], false));
    res := Ok(Some(plan));
  }

  // ---- the choices made for a container ----

  /** Of a value that several places may set, the first that does. */
  ghost predicate FirstSet(v: string, a: string, b: string, c: string, last: string) {
    if a != "" then v == a else if b != "" then v == b else if c != "" then v == c else v == last
  }

  /** Whose container it is, the source its deliveries default to, and the mechanism that serves it. */
  datatype Choice = Choice(service: string, source: string, mechanism: string)

  /**
    * The service is the authenticated one, else the label's; the default source is the label's, else the service's own;
    * the mechanism is the label's, else the daemon's, else berm.yml's.
    */
  ghost predicate Chooses(input: Input, spec: Spec, cfg: Config, x: Choice) {
    && FirstSet(x.service, input.service, spec.name, "", "")
    && FirstSet(x.source, spec.source, x.service, "", "")
    && FirstSet(x.mechanism, spec.delivery, input.defaultDelivery, cfg.delivery, "")
  }

  lemma ChoiceIs(input: Input, spec: Spec, cfg: Config, x: Choice)
    ensures Chooses(input, spec, cfg, x) <==>
              var r := ResolverOf(input, spec, cfg); x == Choice(r.service, r.source, MechanismOf(input, spec, cfg))
    ensures var r := ResolverOf(input, spec, cfg);
            r.cfg == cfg && r.user == input.user && r.owner == spec.owner && r.mode == spec.mode
  {
  }

  // ---- when a plan comes out ----

  ghost predicate HasFormat(src: SourceCfg, format: string) {
    src.format == format || (src.format == "" && format == "dotenv")
  }

  ghost predicate OwnedBy(service: string, name: string, src: SourceCfg) {
    if src.owner != "" then src.owner == service else name == service
  }

  /** The source is there, of the format, and the service owns it or is on its access list. */
  ghost predicate Readable(cfg: Config, service: string, name: string, format: string) {
    && name in cfg.sources && HasFormat(cfg.sources[name], format)
    && (OwnedBy(service, name, cfg.sources[name]) || service in cfg.sources[name].access)
  }

  /** What a reference reads: a key of the default source or of the one named, or the whole of the one named. */
  ghost predicate RefReads(source: string, ref: Ref, name: string, format: string) {
    match ref.kind
    case RefKey => name == source && format == "dotenv"
    case RefSourceKey => name == ref.source && format == "dotenv"
    case RefSource => name == ref.source && format == "binary"
  }

  ghost predicate RefAllowed(cfg: Config, x: Choice, ref: Ref) {
    forall name, format :: RefReads(x.source, ref, name, format) ==> Readable(cfg, x.service, name, format)
  }

  ghost predicate EnvAdmitted(cfg: Config, x: Choice, e: EnvDelivery) {
    if e.all
    then Readable(cfg, x.service, x.source, "dotenv") && OwnedBy(x.service, x.source, cfg.sources[x.source])
    else RefAllowed(cfg, x, e.ref)
  }

  /** A file without a reference is the whole default source. */
  ghost predicate FileAdmitted(cfg: Config, x: Choice, f: FileDelivery) {
    if f.from == UNSET then Readable(cfg, x.service, x.source, "binary") else RefAllowed(cfg, x, f.from)
  }

  /** The rules an enabled container's parsed labels must meet. */
  ghost predicate SpecAdmitted(cfg: Config, x: Choice, spec: Spec) {
    && x.service != "" && x.mechanism in {"client", "hook", "volume"}
    && (spec.env != [] ==> x.mechanism == "client")
    && (forall e <- spec.env :: EnvAdmitted(cfg, x, e))
    && (forall f <- spec.files :: FileAdmitted(cfg, x, f))
    && (spec.dotenv != "" || spec.envdir != "" ==> Readable(cfg, x.service, x.source, "dotenv"))
  }

  /** The rules a container must meet to be given a plan. */
  ghost predicate Admissible(input: Input) {
    && input.config.Some? && ParseOf(input.labels).Ok? && ParseOf(input.labels).value.enabled
    && forall x :: Chooses(input, ParseOf(input.labels).value, input.config.value, x) ==>
         SpecAdmitted(input.config.value, x, ParseOf(input.labels).value)
  }

  lemma CollectMapOk<A, B>(f: A -> Result<B, Class>, xs: seq<A>)
    ensures Collect(Map(f, xs)).Ok? <==> forall x <- xs :: f(x).Ok?
    ensures Collect(Map(f, xs)).Ok? ==>
              |Collect(Map(f, xs)).value| == |xs|
              && forall i :: 0 <= i < |xs| ==> f(xs[i]) == Ok(Collect(Map(f, xs)).value[i])
  {
    CollectOk(Map(f, xs));
    assert forall i :: 0 <= i < |xs| ==> Map(f, xs)[i] == f(xs[i]);
  }

  /** The choice a resolver stands for. */
  ghost function ChoiceOf(r: Resolver, mechanism: string): Choice { Choice(r.service, r.source, mechanism) }

  lemma FormatIs(src: SourceCfg, format: string)
    requires format == "dotenv" || format == "binary"
    ensures FormatOf(src) == Ok(format) <==> HasFormat(src, format)
  {
  }

  lemma RefIff(r: Resolver, mech: string, ref: Ref)
    ensures ResolveRef(r, ref).Ok? <==> RefAllowed(r.cfg, ChoiceOf(r, mech), ref)
  {
    var x := ChoiceOf(r, mech);
    assert RefReads(x.source, ref, RefSourceName(r, ref), WantedFormat(ref));
    assert forall n, f :: RefReads(x.source, ref, n, f) ==> n == RefSourceName(r, ref) && f == WantedFormat(ref);
  }

  lemma FileAllowedIff(r: Resolver, mech: string, f: FileDelivery)
    ensures ResolveFile(r, f).Ok? <==> FileAdmitted(r.cfg, ChoiceOf(r, mech), f)
  {
    RefIff(r, mech, FromOf(r, f));
    if f.from == UNSET { RefReadsWhole(r, mech, FromOf(r, f)); }
  }

  lemma RefReadsWhole(r: Resolver, mech: string, ref: Ref)
    requires ref.kind == RefSource
    ensures RefAllowed(r.cfg, ChoiceOf(r, mech), ref) <==> Readable(r.cfg, r.service, ref.source, "binary")
  {
    assert RefReads(r.source, ref, ref.source, "binary");
  }

  lemma EnvIff(r: Resolver, mech: string, es: seq<EnvDelivery>)
    ensures Collect(Map((e: EnvDelivery) => ResolveEnv(r, e), es)).Ok? <==>
              forall e <- es :: EnvAdmitted(r.cfg, ChoiceOf(r, mech), e)
  {
    CollectMapOk((e: EnvDelivery) => ResolveEnv(r, e), es);
    forall e ensures ResolveEnv(r, e).Ok? <==> EnvAdmitted(r.cfg, ChoiceOf(r, mech), e) { EnvAllowedIff(r, mech, e); }
  }

  lemma EnvAllowedIff(r: Resolver, mech: string, e: EnvDelivery)
    ensures ResolveEnv(r, e).Ok? <==> EnvAdmitted(r.cfg, ChoiceOf(r, mech), e)
  {
    if !e.all { RefIff(r, mech, e.ref); }
  }

  lemma FilesIff(r: Resolver, mech: string, fs: seq<FileDelivery>)
    ensures Collect(Map((f: FileDelivery) => ResolveFile(r, f), fs)).Ok? <==>
              forall f <- fs :: FileAdmitted(r.cfg, ChoiceOf(r, mech), f)
  {
    CollectMapOk((f: FileDelivery) => ResolveFile(r, f), fs);
    forall f ensures ResolveFile(r, f).Ok? <==> FileAdmitted(r.cfg, ChoiceOf(r, mech), f) {
      FileAllowedIff(r, mech, f);
    }
  }

  lemma RendersIff(r: Resolver, asked: seq<(string, string)>)
    ensures Collect(Map((a: (string, string)) => ResolveRender(r, a.0, a.1), asked)).Ok? <==>
              (asked != [] ==> Readable(r.cfg, r.service, r.source, "dotenv"))
  {
    CollectMapOk((a: (string, string)) => ResolveRender(r, a.0, a.1), asked);
    assert forall k, path :: ResolveRender(r, k, path).Ok? <==> Readable(r.cfg, r.service, r.source, "dotenv");
    assert asked != [] ==> asked[0] in asked;
  }

  lemma SpecIff(input: Input, spec: Spec, cfg: Config, x: Choice)
    requires Chooses(input, spec, cfg, x)
    ensures ResolveSpec(input, spec, cfg).Ok? <==> SpecAdmitted(cfg, x, spec)
  {
    var r := ResolverOf(input, spec, cfg);
    ChoiceIs(input, spec, cfg, x);
    EnvIff(r, x.mechanism, spec.env);
    FilesIff(r, x.mechanism, spec.files);
    RendersIff(r, RendersAsked(spec));
  }

  /** Resolve returns a plan exactly for the admissible containers. */
  lemma PlanIffAdmissible(input: Input)
    ensures PlanOf(input).Ok? && PlanOf(input).value.Some? <==> Admissible(input)
  {
    var parsed := ParseOf(input.labels);
    if input.config.Some? && parsed.Ok? {
      var spec, cfg := parsed.value, input.config.value;
      var r := ResolverOf(input, spec, cfg);
      ChoiceIs(input, spec, cfg, ChoiceOf(r, MechanismOf(input, spec, cfg)));
      forall x | Chooses(input, spec, cfg, x)
        ensures ResolveSpec(input, spec, cfg).Ok? <==> SpecAdmitted(cfg, x, spec)
      {
        SpecIff(input, spec, cfg, x);
      }
    }
  }

  /** What is wrong with reading a source in a format, by class; with `owned`, reading is not enough. */
  ghost predicate Breaks(cfg: Config, service: string, name: string, format: string, owned: bool, c: Class) {
    if name !in cfg.sources then c == MissingSource
    else
      var src := cfg.sources[name];
      if !HasFormat(src, "dotenv") && !HasFormat(src, "binary") then c == BadConfig
      else if !HasFormat(src, format) then c == WrongRefShape
      else if OwnedBy(service, name, src) then false
      else if owned then c == AllCrossService
      else service !in src.access && c == UngrantedRef
  }

  /** A source breaks a rule exactly when it may not be read (or is not owned), and then exactly one. */
  lemma BreaksOnce(cfg: Config, service: string, name: string, format: string, owned: bool, c: Class, d: Class)
    requires format == "dotenv" || format == "binary"
    ensures Breaks(cfg, service, name, format, owned, c) && Breaks(cfg, service, name, format, owned, d) ==> c == d
    ensures (exists e :: Breaks(cfg, service, name, format, owned, e)) <==>
              !Readable(cfg, service, name, format) || (owned && !OwnedBy(service, name, cfg.sources[name]))
  {
    var e := if name !in cfg.sources then MissingSource
             else if !HasFormat(cfg.sources[name], "dotenv") && !HasFormat(cfg.sources[name], "binary") then BadConfig
             else if !HasFormat(cfg.sources[name], format) then WrongRefShape
             else if owned then AllCrossService else UngrantedRef;
    assert !Readable(cfg, service, name, format) || (owned && !OwnedBy(service, name, cfg.sources[name])) ==>
             Breaks(cfg, service, name, format, owned, e);
  }

  ghost predicate RefBreaks(cfg: Config, x: Choice, ref: Ref, c: Class) {
    exists name, format :: RefReads(x.source, ref, name, format) && Breaks(cfg, x.service, name, format, false, c)
  }

  /** A reference is refused with exactly the class of the rule it breaks. */
  lemma RefusalClasses(r: Resolver, mech: string, ref: Ref, c: Class)
    ensures ResolveRef(r, ref) == Err(c) <==> RefBreaks(r.cfg, ChoiceOf(r, mech), ref, c)
  {
    var name, format := RefSourceName(r, ref), WantedFormat(ref);
    assert RefReads(r.source, ref, name, format);
    assert forall n, f :: RefReads(r.source, ref, n, f) ==> n == name && f == format;
    if name in r.cfg.sources {
      FormatIs(r.cfg.sources[name], "dotenv");
      FormatIs(r.cfg.sources[name], "binary");
    }
  }

  ghost predicate EnvBreaks(cfg: Config, x: Choice, e: EnvDelivery, c: Class) {
    if e.all then Breaks(cfg, x.service, x.source, "dotenv", true, c) else RefBreaks(cfg, x, e.ref, c)
  }

  ghost predicate FileBreaks(cfg: Config, x: Choice, f: FileDelivery, c: Class) {
    if f.from == UNSET then Breaks(cfg, x.service, x.source, "binary", false, c) else RefBreaks(cfg, x, f.from, c)
  }

  /** The i-th env delivery is the first to break a rule. */
  ghost predicate FirstBadEnv(cfg: Config, x: Choice, es: seq<EnvDelivery>, i: nat, c: Class) {
    i < |es| && EnvBreaks(cfg, x, es[i], c) && forall k :: 0 <= k < i ==> EnvAdmitted(cfg, x, es[k])
  }

  ghost predicate FirstBadFile(cfg: Config, x: Choice, fs: seq<FileDelivery>, i: nat, c: Class) {
    i < |fs| && FileBreaks(cfg, x, fs[i], c) && forall k :: 0 <= k < i ==> FileAdmitted(cfg, x, fs[k])
  }

  /** The first delivery of the spec that breaks a rule, env before files before renders, and the class of that rule. */
  ghost predicate FirstBroken(cfg: Config, x: Choice, spec: Spec, c: Class) {
    || (exists i :: FirstBadEnv(cfg, x, spec.env, i, c))
    || ((forall e <- spec.env :: EnvAdmitted(cfg, x, e)) && exists i :: FirstBadFile(cfg, x, spec.files, i, c))
    || ((forall e <- spec.env :: EnvAdmitted(cfg, x, e)) && (forall f <- spec.files :: FileAdmitted(cfg, x, f))
        && (spec.dotenv != "" || spec.envdir != "") && Breaks(cfg, x.service, x.source, "dotenv", false, c))
  }

  /**
    * Every refusal says what is wrong: no service or mechanism, env on a mechanism that cannot set it, or else the
    * class of the rule that the first offending delivery breaks.
    */
  lemma RefusalIs(input: Input, spec: Spec, cfg: Config, x: Choice)
    requires Chooses(input, spec, cfg, x) && ResolveSpec(input, spec, cfg).Err?
    ensures var c := ResolveSpec(input, spec, cfg).error;
            if x.service == "" || x.mechanism !in {"client", "hook", "volume"} then c == BadConfig
            else if spec.env != [] && x.mechanism != "client" then c == EnvWrongMechanism
            else FirstBroken(cfg, x, spec, c)
  {
    var r, mech := ResolverOf(input, spec, cfg), x.mechanism;
    ChoiceIs(input, spec, cfg, x);
    if x.service != "" && mech in {"client", "hook", "volume"} && (spec.env == [] || mech == "client") {
      EnvIff(r, mech, spec.env);
      FilesIff(r, mech, spec.files);
      var c := ResolveSpec(input, spec, cfg).error;
      if Collect(Map((e: EnvDelivery) => ResolveEnv(r, e), spec.env)).Err? {
        var i := EnvRefused(r, mech, spec.env);
        assert FirstBadEnv(cfg, x, spec.env, i, c);
      } else if Collect(Map((f: FileDelivery) => ResolveFile(r, f), spec.files)).Err? {
        var i := FileRefused(r, mech, spec.files);
        assert FirstBadFile(cfg, x, spec.files, i, c);
      } else {
        RenderRefused(r, RendersAsked(spec));
      }
    }
  }

  lemma EnvRefused(r: Resolver, mech: string, es: seq<EnvDelivery>) returns (i: nat)
    requires Collect(Map((e: EnvDelivery) => ResolveEnv(r, e), es)).Err?
    ensures FirstBadEnv(r.cfg, ChoiceOf(r, mech), es, i, Collect(Map((e: EnvDelivery) => ResolveEnv(r, e), es)).error)
  {
    var f := (e: EnvDelivery) => ResolveEnv(r, e);
    i := CollectErr(Map(f, es));
    EnvClass(r, mech, es[i]);
    forall k | 0 <= k < i ensures EnvAdmitted(r.cfg, ChoiceOf(r, mech), es[k]) {
      assert Map(f, es)[k] == f(es[k]);
      EnvAllowedIff(r, mech, es[k]);
    }
  }

  lemma EnvClass(r: Resolver, mech: string, e: EnvDelivery)
    requires ResolveEnv(r, e).Err?
    ensures EnvBreaks(r.cfg, ChoiceOf(r, mech), e, ResolveEnv(r, e).error)
  {
    if e.all {
      if r.source in r.cfg.sources {
        FormatIs(r.cfg.sources[r.source], "dotenv");
        FormatIs(r.cfg.sources[r.source], "binary");
      }
    } else {
      RefusalClasses(r, mech, e.ref, ResolveEnv(r, e).error);
    }
  }

  lemma FileRefused(r: Resolver, mech: string, fs: seq<FileDelivery>) returns (i: nat)
    requires Collect(Map((f: FileDelivery) => ResolveFile(r, f), fs)).Err?
    ensures FirstBadFile(r.cfg, ChoiceOf(r, mech), fs, i,
                         Collect(Map((f: FileDelivery) => ResolveFile(r, f), fs)).error)
  {
    var f := (d: FileDelivery) => ResolveFile(r, d);
    i := CollectErr(Map(f, fs));
    FileClass(r, mech, fs[i]);
    forall k | 0 <= k < i ensures FileAdmitted(r.cfg, ChoiceOf(r, mech), fs[k]) {
      assert Map(f, fs)[k] == f(fs[k]);
      FileAllowedIff(r, mech, fs[k]);
    }
  }

  lemma FileClass(r: Resolver, mech: string, f: FileDelivery)
    requires ResolveFile(r, f).Err?
    ensures FileBreaks(r.cfg, ChoiceOf(r, mech), f, ResolveFile(r, f).error)
  {
    RefusalClasses(r, mech, FromOf(r, f), ResolveFile(r, f).error);
  }

  lemma RenderRefused(r: Resolver, asked: seq<(string, string)>)
    requires Collect(Map((a: (string, string)) => ResolveRender(r, a.0, a.1), asked)).Err?
    ensures asked != []
    ensures Breaks(r.cfg, r.service, r.source, "dotenv", false,
                   Collect(Map((a: (string, string)) => ResolveRender(r, a.0, a.1), asked)).error)
  {
    var i := CollectErr(Map((a: (string, string)) => ResolveRender(r, a.0, a.1), asked));
    if r.source in r.cfg.sources {
      FormatIs(r.cfg.sources[r.source], "dotenv");
      FormatIs(r.cfg.sources[r.source], "binary");
    }
  }

  ghost predicate EnvScoped(cfg: Config, service: string, b: EnvBinding) {
    && b.source in cfg.sources && MayRead(service, b.source, cfg.sources[b.source])
    && (b.all ==> Owns(service, b.source, cfg.sources[b.source]))
  }

  ghost predicate FileScoped(cfg: Config, service: string, b: FileBinding) {
    && b.source in cfg.sources && MayRead(service, b.source, cfg.sources[b.source])
    && b.format == if b.whole then BINARY else DOTENV
  }

  ghost predicate RenderScoped(cfg: Config, service: string, b: RenderBinding) {
    && b.source in cfg.sources && MayRead(service, b.source, cfg.sources[b.source])
    && b.format == DOTENV
  }

  /** A plan names only sources its service may read, in the format the delivery needs; env only for the client. */
  ghost predicate Scoped(cfg: Config, p: Resolved) {
    && (forall b <- p.env :: EnvScoped(cfg, p.service, b))
    && (forall b <- p.files :: FileScoped(cfg, p.service, b))
    && (forall b <- p.renders :: RenderScoped(cfg, p.service, b))
    && (p.env != [] ==> p.mechanism == CLIENT) && p.envExposure == (p.env != []) && p.service != ""
  }

  lemma CollectAll<A, B>(f: A -> Result<B, Class>, xs: seq<A>, good: B -> bool)
    requires Collect(Map(f, xs)).Ok? && forall x <- xs :: f(x).Ok? ==> good(f(x).value)
    ensures forall b <- Collect(Map(f, xs)).value :: good(b)
    ensures Collect(Map(f, xs)).value == [] <==> xs == []
  {
    CollectMapOk(f, xs);
  }

  lemma EnvAllScoped(r: Resolver, es: seq<EnvDelivery>)
    requires Collect(Map((e: EnvDelivery) => ResolveEnv(r, e), es)).Ok?
    ensures forall b <- Collect(Map((e: EnvDelivery) => ResolveEnv(r, e), es)).value :: EnvScoped(r.cfg, r.service, b)
    ensures Collect(Map((e: EnvDelivery) => ResolveEnv(r, e), es)).value == [] <==> es == []
  {
    forall e | ResolveEnv(r, e).Ok? ensures EnvScoped(r.cfg, r.service, ResolveEnv(r, e).value) {}
    CollectAll((e: EnvDelivery) => ResolveEnv(r, e), es, (b: EnvBinding) => EnvScoped(r.cfg, r.service, b));
  }

  lemma FilesScoped(r: Resolver, fs: seq<FileDelivery>)
    requires Collect(Map((f: FileDelivery) => ResolveFile(r, f), fs)).Ok?
    ensures forall b <- Collect(Map((f: FileDelivery) => ResolveFile(r, f), fs)).value ::
            FileScoped(r.cfg, r.service, b)
  {
    forall f | ResolveFile(r, f).Ok? ensures FileScoped(r.cfg, r.service, ResolveFile(r, f).value) {}
    CollectAll((f: FileDelivery) => ResolveFile(r, f), fs, (b: FileBinding) => FileScoped(r.cfg, r.service, b));
  }

  lemma RendersScoped(r: Resolver, asked: seq<(string, string)>)
    requires Collect(Map((a: (string, string)) => ResolveRender(r, a.0, a.1), asked)).Ok?
    ensures forall b <- Collect(Map((a: (string, string)) => ResolveRender(r, a.0, a.1), asked)).value ::
              RenderScoped(r.cfg, r.service, b)
  {
    CollectAll((a: (string, string)) => ResolveRender(r, a.0, a.1), asked,
               (b: RenderBinding) => RenderScoped(r.cfg, r.service, b));
  }

  lemma PlanScoped(input: Input, spec: Spec, cfg: Config)
    requires ResolveSpec(input, spec, cfg).Ok?
    ensures Scoped(cfg, ResolveSpec(input, spec, cfg).value)
  {
    var r := ResolverOf(input, spec, cfg);
    EnvAllScoped(r, spec.env);
    FilesScoped(r, spec.files);
    RendersScoped(r, RendersAsked(spec));
  }

  lemma PlanReadsOnlyReadable(input: Input)
    requires PlanOf(input).Ok? && PlanOf(input).value.Some?
    ensures Scoped(input.config.value, PlanOf(input).value.value)
  {
    PlanScoped(input, ParseOf(input.labels).value, input.config.value);
  }

  // ---- what a plan says ----

  /** What a reference delivers: a key of the default source or of the one named, or the whole of the one named. */
  ghost predicate RefMeans(source: string, ref: Ref, name: string, whole: bool, key: string) {
    match ref.kind
    case RefKey => name == source && key == ref.key && !whole
    case RefSourceKey => name == ref.source && key == ref.key && !whole
    case RefSource => name == ref.source && key == "" && whole
  }

  /**
    * A file's binding: its path or the default one, its owner and mode or the container's, the daemon's or the built-in
    * ones, and a pointer named for its key exactly when it has one.
    */
  ghost predicate FileMeans(input: Input, spec: Spec, cfg: Config, x: Choice, f: FileDelivery, b: FileBinding) {
    && b.name == f.name && FirstSet(b.path, f.path, "", "", "/run/berm/" + f.name)
    && FirstSet(b.owner, f.owner, spec.owner, input.user, "0:0")
    && FirstSet(b.mode, f.mode, spec.mode, cfg.mode, "0400")
    && (f.from != UNSET ==> RefMeans(x.source, f.from, b.source, b.whole, b.key))
    && (f.from == UNSET ==> b.source == x.source && b.whole && b.key == "")
    && b.format == (if b.whole then "binary" else "dotenv")
    && b.pointerVar == (if b.whole then "" else b.key + "_FILE")
  }

  ghost predicate EnvMeans(x: Choice, e: EnvDelivery, b: EnvBinding) {
    if e.all then b == EnvBinding("", x.source, "", true)
    else b.varName == e.varName && !b.all && RefMeans(x.source, e.ref, b.source, e.ref.kind == RefSource, b.key)
  }

  /** A plan has one binding for each delivery of the spec, in order, and each says what the labels and defaults say. */
  lemma PlanMeans(input: Input, spec: Spec, cfg: Config, x: Choice)
    requires Chooses(input, spec, cfg, x) && ResolveSpec(input, spec, cfg).Ok?
    ensures var p := ResolveSpec(input, spec, cfg).value;
            && p.container == input.container && p.service == x.service && p.mechanism == x.mechanism
            && (p.envExposure <==> spec.env != [])
            && |p.env| == |spec.env| && (forall i :: 0 <= i < |p.env| ==> EnvMeans(x, spec.env[i], p.env[i]))
            && |p.files| == |spec.files|
            && forall i :: 0 <= i < |p.files| ==> FileMeans(input, spec, cfg, x, spec.files[i], p.files[i])
  {
    ChoiceIs(input, spec, cfg, x);
    EnvAllMean(ResolverOf(input, spec, cfg), x, spec.env);
    FilesMean(input, spec, cfg, x);
  }

  lemma EnvAllMean(r: Resolver, x: Choice, es: seq<EnvDelivery>)
    requires Collect(Map((e: EnvDelivery) => ResolveEnv(r, e), es)).Ok? && x.source == r.source
    ensures var bs := Collect(Map((e: EnvDelivery) => ResolveEnv(r, e), es)).value;
            |bs| == |es| && forall i :: 0 <= i < |bs| ==> EnvMeans(x, es[i], bs[i])
  {
    CollectMapOk((e: EnvDelivery) => ResolveEnv(r, e), es);
    forall e | ResolveEnv(r, e).Ok? ensures EnvMeans(x, e, ResolveEnv(r, e).value) { EnvIsMeant(r, x, e); }
  }

  lemma EnvIsMeant(r: Resolver, x: Choice, e: EnvDelivery)
    requires ResolveEnv(r, e).Ok? && x.source == r.source
    ensures EnvMeans(x, e, ResolveEnv(r, e).value)
  {
    if !e.all { assert ResolveRef(r, e.ref).Ok?; }
  }

  lemma FilesMean(input: Input, spec: Spec, cfg: Config, x: Choice)
    requires Chooses(input, spec, cfg, x)
    requires Collect(Map((f: FileDelivery) => ResolveFile(ResolverOf(input, spec, cfg), f), spec.files)).Ok?
    ensures var bs := Collect(Map((f: FileDelivery) => ResolveFile(ResolverOf(input, spec, cfg), f), spec.files)).value;
            |bs| == |spec.files|
            && forall i :: 0 <= i < |bs| ==> FileMeans(input, spec, cfg, x, spec.files[i], bs[i])
  {
    var r := ResolverOf(input, spec, cfg);
    CollectMapOk((f: FileDelivery) => ResolveFile(r, f), spec.files);
    forall f | ResolveFile(r, f).Ok? ensures FileMeans(input, spec, cfg, x, f, ResolveFile(r, f).value) {
      FileIsMeant(input, spec, cfg, x, f);
    }
  }

  lemma FileIsMeant(input: Input, spec: Spec, cfg: Config, x: Choice, f: FileDelivery)
    requires Chooses(input, spec, cfg, x) && ResolveFile(ResolverOf(input, spec, cfg), f).Ok?
    ensures FileMeans(input, spec, cfg, x, f, ResolveFile(ResolverOf(input, spec, cfg), f).value)
  {
    ChoiceIs(input, spec, cfg, x);
    assert ResolveRef(ResolverOf(input, spec, cfg), FromOf(ResolverOf(input, spec, cfg), f)).Ok?;
  }

  /**
    * The whole-source renders of a plan: the default source to each path asked for, dotenv before envdir, with the
    * container's owner and mode.
    */
  lemma RendersMean(input: Input, spec: Spec, cfg: Config, x: Choice)
    requires Chooses(input, spec, cfg, x) && ResolveSpec(input, spec, cfg).Ok?
    ensures var bs := ResolveSpec(input, spec, cfg).value.renders;
            && |bs| == (if spec.dotenv != "" then 1 else 0) + (if spec.envdir != "" then 1 else 0)
            && (spec.dotenv != "" ==> RenderMeans(input, spec, cfg, x, "dotenv", spec.dotenv, bs[0]))
            && (spec.envdir != "" ==> RenderMeans(input, spec, cfg, x, "envdir", spec.envdir, bs[|bs| - 1]))
  {
    ChoiceIs(input, spec, cfg, x);
    var r := ResolverOf(input, spec, cfg);
    CollectMapOk((a: (string, string)) => ResolveRender(r, a.0, a.1), RendersAsked(spec));
  }

  ghost predicate RenderMeans(input: Input, spec: Spec, cfg: Config, x: Choice, kind: string, path: string,
                              b: RenderBinding)
  {
    && b.kind == kind && b.path == path && b.source == x.source && b.format == "dotenv"
    && FirstSet(b.owner, spec.owner, input.user, "", "0:0") && FirstSet(b.mode, spec.mode, cfg.mode, "", "0400")
  }

  /** Every source has exactly one owner, and whoever else reads it is named in its access list. */
  lemma OneOwner(name: string, src: SourceCfg, service: string)
    ensures exists o :: Owns(o, name, src) && (src.owner == "" ==> o == name) && (src.owner != "" ==> o == src.owner)
    ensures forall a, b :: Owns(a, name, src) && Owns(b, name, src) ==> a == b
    ensures MayRead(service, name, src) && !Owns(service, name, src) ==> service in src.access
  {
    assert Owns(FirstNonEmpty(src.owner, name), name, src);
  }

  // ---- grants only ever add ----

  /** The same berm.yml, with names added to access lists. */
  ghost predicate MoreGrants(a: Config, b: Config) {
    && a.sources.Keys == b.sources.Keys && a.delivery == b.delivery && a.mode == b.mode
    && forall n <- a.sources :: a.sources[n].format == b.sources[n].format && a.sources[n].owner == b.sources[n].owner
                                && forall s <- a.sources[n].access :: s in b.sources[n].access
  }

  lemma CollectKept<A, B>(f: A -> Result<B, Class>, g: A -> Result<B, Class>, xs: seq<A>)
    requires forall x <- xs :: f(x).Ok? ==> g(x) == f(x)
    requires Collect(Map(f, xs)).Ok?
    ensures Collect(Map(g, xs)) == Collect(Map(f, xs))
  {
    CollectMapOk(f, xs);
    assert Map(g, xs) == Map(f, xs);
  }

  lemma RefKept(r: Resolver, more: Config, ref: Ref)
    requires MoreGrants(r.cfg, more) && ResolveRef(r, ref).Ok?
    ensures ResolveRef(r.(cfg := more), ref) == ResolveRef(r, ref)
  {
  }

  lemma EnvKept(r: Resolver, more: Config, e: EnvDelivery)
    requires MoreGrants(r.cfg, more) && ResolveEnv(r, e).Ok?
    ensures ResolveEnv(r.(cfg := more), e) == ResolveEnv(r, e)
  {
    if !e.all { RefKept(r, more, e.ref); }
  }

  lemma SpecKept(input: Input, spec: Spec, cfg: Config, more: Config)
    requires MoreGrants(cfg, more) && ResolveSpec(input, spec, cfg).Ok?
    ensures ResolveSpec(input.(config := Some(more)), spec, more) == ResolveSpec(input, spec, cfg)
  {
    var r, r2 := ResolverOf(input, spec, cfg), ResolverOf(input.(config := Some(more)), spec, more);
    assert r2 == r.(cfg := more);
    EnvAllKept(r, more, spec.env);
    FilesKept(r, more, spec.files);
    RendersKept(r, more, RendersAsked(spec));
  }

  lemma EnvAllKept(r: Resolver, more: Config, es: seq<EnvDelivery>)
    requires MoreGrants(r.cfg, more)
    ensures var r2 := r.(cfg := more);
            var e1, e2 := (e: EnvDelivery) => ResolveEnv(r, e), (e: EnvDelivery) => ResolveEnv(r2, e);
            Collect(Map(e1, es)).Ok? ==> Collect(Map(e2, es)) == Collect(Map(e1, es))
  {
    var r2 := r.(cfg := more);
    var e1, e2 := (e: EnvDelivery) => ResolveEnv(r, e), (e: EnvDelivery) => ResolveEnv(r2, e);
    forall e | e in es && e1(e).Ok? ensures e2(e) == e1(e) { EnvKept(r, more, e); }
    if Collect(Map(e1, es)).Ok? { CollectKept(e1, e2, es); }
  }

  lemma FilesKept(r: Resolver, more: Config, fs: seq<FileDelivery>)
    requires MoreGrants(r.cfg, more)
    ensures var r2 := r.(cfg := more);
            var f1, f2 := (f: FileDelivery) => ResolveFile(r, f), (f: FileDelivery) => ResolveFile(r2, f);
            Collect(Map(f1, fs)).Ok? ==> Collect(Map(f2, fs)) == Collect(Map(f1, fs))
  {
    var r2 := r.(cfg := more);
    var f1, f2 := (f: FileDelivery) => ResolveFile(r, f), (f: FileDelivery) => ResolveFile(r2, f);
    forall f | f in fs && f1(f).Ok? ensures f2(f) == f1(f) { RefKept(r, more, FromOf(r, f)); }
    if Collect(Map(f1, fs)).Ok? { CollectKept(f1, f2, fs); }
  }

  lemma RendersKept(r: Resolver, more: Config, asked: seq<(string, string)>)
    requires MoreGrants(r.cfg, more)
    ensures var r2 := r.(cfg := more);
            var a1, a2 := (a: (string, string)) => ResolveRender(r, a.0, a.1),
                          (a: (string, string)) => ResolveRender(r2, a.0, a.1);
            Collect(Map(a1, asked)).Ok? ==> Collect(Map(a2, asked)) == Collect(Map(a1, asked))
  {
    var r2 := r.(cfg := more);
    var a1, a2 := (a: (string, string)) => ResolveRender(r, a.0, a.1),
                  (a: (string, string)) => ResolveRender(r2, a.0, a.1);
    if Collect(Map(a1, asked)).Ok? { CollectKept(a1, a2, asked); }
  }

  /** Adding names to access lists never turns success into failure, nor changes the plan. */
  lemma GrantsMonotone(input: Input, more: Config)
    requires input.config.Some? && MoreGrants(input.config.value, more)
    requires PlanOf(input).Ok?
    ensures PlanOf(input.(config := Some(more))) == PlanOf(input)
  {
    FromKept(input, input.config.value, more, ParseOf(input.labels));
  }

  lemma FromKept(input: Input, cfg: Config, more: Config, parsed: Result<Spec, Class>)
    requires MoreGrants(cfg, more) && PlanFrom(input, cfg, parsed).Ok?
    ensures PlanFrom(input.(config := Some(more)), more, parsed) == PlanFrom(input, cfg, parsed)
  {
    if parsed.value.enabled { SpecKept(input, parsed.value, cfg, more); }
  }

  // ---- ToDelivery ----

  function EnvTargetOf(b: EnvBinding): EnvTarget { EnvTarget(b.varName, b.source, b.key, b.all) }

  function FileTargetOf(b: FileBinding): FileTarget {
    FileTarget(b.name, b.source, b.format, b.whole, b.key, b.path, b.owner, b.mode, b.pointerVar)
  }

  function RenderTargetOf(b: RenderBinding): RenderTarget { RenderTarget(b.kind, b.source, b.path, b.owner, b.mode) }

  function DeliveryOf(p: Resolved): Plan {
    Plan(p.container, p.service, p.mechanism, Map(EnvTargetOf, p.env), Map(FileTargetOf, p.files),
         Map(RenderTargetOf, p.renders), p.envExposure)
  }

  /** Translating a plan copies it: the same targets in the same order, field by field. */
  lemma DeliveryCopies(p: Resolved)
    ensures var d := DeliveryOf(p);
            && d.container == p.container && d.service == p.service && d.mechanism == p.mechanism
            && d.envExposure == p.envExposure
            && |d.env| == |p.env| && (forall i :: 0 <= i < |p.env| ==> EnvCopied(p.env[i], d.env[i]))
            && |d.files| == |p.files| && (forall i :: 0 <= i < |p.files| ==> FileCopied(p.files[i], d.files[i]))
            && |d.renders| == |p.renders|
            && forall i :: 0 <= i < |p.renders| ==> RenderCopied(p.renders[i], d.renders[i])
  {
  }

  ghost predicate EnvCopied(b: EnvBinding, t: EnvTarget) {
    t.varName == b.varName && t.source == b.source && t.key == b.key && t.all == b.all
  }

  ghost predicate FileCopied(b: FileBinding, t: FileTarget) {
    && t.name == b.name && t.source == b.source && t.format == b.format && t.whole == b.whole && t.key == b.key
    && t.path == b.path && t.owner == b.owner && t.mode == b.mode && t.pointerVar == b.pointerVar
  }

  ghost predicate RenderCopied(b: RenderBinding, t: RenderTarget) {
    t.kind == b.kind && t.source == b.source && t.path == b.path && t.owner == b.owner && t.mode == b.mode
  }

  /** ToDelivery: a plan in the execution layer's terms. */
  method ToDelivery(p: Resolved) returns (d: Plan)
    ensures d == DeliveryOf(p)
  {
    d := Plan(p.container, p.service, p.mechanism, [], [], [], p.envExposure);
    for i := 0 to |p.env|
      invariant d == Plan(p.container, p.service, p.mechanism, Map(EnvTargetOf, p.env[..i]), [], [], p.envExposure)
    {
      var b := p.env[i];
      d := d.(env := d.env + [EnvTarget(b.varName, b.source, b.key, b.all)]);
      assert d.env == Map(EnvTargetOf, p.env[..i + 1]);
    }
    assert p.env[..|p.env|] == p.env;
    for i := 0 to |p.files|
      invariant d == Plan(p.container, p.service, p.mechanism, Map(EnvTargetOf, p.env),
                          Map(FileTargetOf, p.files[..i]), [], p.envExposure)
    {
      var b := p.files[i];
      d := d.(files := d.files + [FileTarget(b.name, b.source, b.format, b.whole, b.key, b.path, b.owner, b.mode,
                                             b.pointerVar)]);
      assert d.files == Map(FileTargetOf, p.files[..i + 1]);
    }
    assert p.files[..|p.files|] == p.files;
    for i := 0 to |p.renders|
      invariant d == Plan(p.container, p.service, p.mechanism, Map(EnvTargetOf, p.env), Map(FileTargetOf, p.files),
                          Map(RenderTargetOf, p.renders[..i]), p.envExposure)
    {
      var b := p.renders[i];
      d := d.(renders := d.renders + [RenderTarget(b.kind, b.source, b.path, b.owner, b.mode)]);
      assert d.renders == Map(RenderTargetOf, p.renders[..i + 1]);
    }
    assert p.renders[..|p.renders|] == p.renders;
  }
}
