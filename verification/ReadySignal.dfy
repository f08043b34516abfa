/**
  * The manifest as ready signal, over whole runs: any number of pushes into one volume, from any daemon, interleaved at
  * every system call, failing or crashing anywhere, retried without limit.
  */
module ReadySignal {
  import opened Prelude
  import opened Dotenv
  import opened Paths
  import opened Files
  import opened Executors

  /** What one push means to write, in order: the planned files, then the manifest. It stops at the first error. */
  type Intents = seq<Result<Write, Failure>>

  /** A push in flight: how many of its writes are published, and what the temporary of the next one holds so far. */
  datatype Push = Push(intents: Intents, done: nat, temp: Option<string>)

  /** The volume, the pushes in flight, and every push ever started. */
  datatype State = State(files: FileMap, pushes: map<nat, Push>, started: set<Intents>)

  datatype Step =
    | Begin(id: nat, intents: Intents)
    | Open(id: nat)
    | Append(id: nat, bytes: string)
    | Publish(id: nat)
    | Finish(id: nat)
    | Fail(id: nat)
    | Crash

  predicate Enabled(s: State, step: Step) {
    match step
    case Begin(id, _) => id !in s.pushes
    case Open(id) => id in s.pushes && var p := s.pushes[id]; p.done < |p.intents| && p.temp.None?
    case Append(id, bytes) =>
      id in s.pushes && var p := s.pushes[id];
      p.done < |p.intents| && p.intents[p.done].Ok? && p.temp.Some?
      && p.temp.value + bytes <= p.intents[p.done].value.rec.data
    case Publish(id) =>
      id in s.pushes && var p := s.pushes[id];
      p.done < |p.intents| && p.intents[p.done].Ok? && p.temp == Some(p.intents[p.done].value.rec.data)
    case Finish(id) => id in s.pushes && s.pushes[id].done == |s.pushes[id].intents|
    case Fail(id) => id in s.pushes
    case Crash => true
  }

  function Do(s: State, step: Step): State
    requires Enabled(s, step)
  {
    match step
    case Begin(id, intents) => s.(pushes := s.pushes[id := Push(intents, 0, None)], started := s.started + {intents})
    case Open(id) => s.(pushes := s.pushes[id := s.pushes[id].(temp := Some(""))])
    case Append(id, bytes) =>
      s.(pushes := s.pushes[id := s.pushes[id].(temp := Some(s.pushes[id].temp.value + bytes))])
    case Publish(id) =>
      var p := s.pushes[id];
      var w := p.intents[p.done].value;
      s.(files := s.files[w.path := w.rec], pushes := s.pushes[id := Push(p.intents, p.done + 1, None)])
    case Finish(id) => s.(pushes := s.pushes - {id})
    case Fail(id) => s.(pushes := s.pushes - {id})
    case Crash => s.(pushes := map[])
  }

  predicate Legal(s: State, steps: seq<Step>)
    decreases |steps|, 0
  {
    steps == [] ||
    var n := |steps| - 1;
    Legal(s, steps[..n]) && Enabled(After(s, steps[..n]), steps[n])
  }

  function After(s: State, steps: seq<Step>): State
    requires Legal(s, steps)
    decreases |steps|, 1
  {
    if steps == [] then s else Do(After(s, steps[..|steps| - 1]), steps[|steps| - 1])
  }

  /** The path holds, whole, a record some started push meant to write there. */
  ghost predicate FromPush(s: State, path: Path) {
    path in s.files && exists p, k :: p in s.started && 0 <= k < |p| && p[k] == Ok(Write(path, s.files[path]))
  }

  /** Everything the push meant to write is there, with complete content. */
  ghost predicate Complete(s: State, p: Intents) {
    forall k :: 0 <= k < |p| ==> p[k].Ok? && FromPush(s, p[k].value.path)
  }

  ghost predicate HasAt(p: Intents, w: Write) { exists k :: 0 <= k < |p| && p[k] == Ok(w) }

  /** The ready signal does not lie: what stands at the manifest path is of a push whose every file is there. */
  ghost predicate Safe(s: State, manifest: Path) {
    manifest in s.files ==>
      exists p :: p in s.started && Complete(s, p) && HasAt(p, Write(manifest, s.files[manifest]))
  }

  /** The push can get as far as its i-th write. */
  ghost predicate Lands(p: Intents, i: nat) { i < |p| && forall k :: 0 <= k <= i ==> p[k].Ok? }

  /** Whenever the push can write the manifest path, nothing it has yet to write is at a path it has not written yet. */
  ghost predicate Orderly(p: Intents, manifest: Path) {
    forall i: nat :: Lands(p, i) && p[i].value.path == manifest ==>
      forall j :: i < j < |p| ==> p[j].Ok? && exists k :: 0 <= k <= i && p[k].value.path == p[j].value.path
  }

  ghost predicate Inv(s: State, manifest: Path) {
    && (forall p <- s.started :: Orderly(p, manifest))
    && (forall id <- s.pushes :: Progress(s, s.pushes[id]))
    && Safe(s, manifest)
  }

  ghost predicate Progress(s: State, p: Push) {
    && p.intents in s.started && p.done <= |p.intents|
    && forall k :: 0 <= k < p.done ==> p.intents[k].Ok? && FromPush(s, p.intents[k].value.path)
  }

  /** Nothing published is ever unpublished: only replaced by another complete record. */
  lemma FromPushStays(s: State, step: Step, path: Path)
    requires Enabled(s, step) && FromPush(s, path)
    requires forall id <- s.pushes :: s.pushes[id].intents in s.started
    ensures FromPush(Do(s, step), path)
  {
    var t := Do(s, step);
    var p, k :| p in s.started && 0 <= k < |p| && p[k] == Ok(Write(path, s.files[path]));
    if step.Publish? && t.files[path] != s.files[path] {
      var mine := s.pushes[step.id];
      assert mine.intents[mine.done] == Ok(Write(path, t.files[path]));
    }
  }

  lemma CompleteStays(s: State, step: Step, p: Intents)
    requires Enabled(s, step) && Complete(s, p)
    requires forall id <- s.pushes :: s.pushes[id].intents in s.started
    ensures Complete(Do(s, step), p)
  {
    forall k | 0 <= k < |p| ensures FromPush(Do(s, step), p[k].value.path) {
      FromPushStays(s, step, p[k].value.path);
    }
  }

  lemma ProgressStays(s: State, step: Step, p: Push)
    requires Enabled(s, step) && Progress(s, p)
    requires forall id <- s.pushes :: s.pushes[id].intents in s.started
    ensures Progress(Do(s, step), p)
  {
    forall k | 0 <= k < p.done ensures FromPush(Do(s, step), p.intents[k].value.path) {
      FromPushStays(s, step, p.intents[k].value.path);
    }
  }

  /** The push that just published has published everything up to and including that write. */
  lemma PublishProgress(s: State, id: nat)
    requires Enabled(s, Publish(id)) && Progress(s, s.pushes[id])
    requires forall id <- s.pushes :: s.pushes[id].intents in s.started
    ensures Progress(Do(s, Publish(id)), Do(s, Publish(id)).pushes[id])
  {
    var p, t := s.pushes[id], Do(s, Publish(id));
    ProgressStays(s, Publish(id), p);
    assert p.intents[p.done] == Ok(Write(p.intents[p.done].value.path, t.files[p.intents[p.done].value.path]));
    assert FromPush(t, p.intents[p.done].value.path);
  }

  lemma StepKeepsProgress(s: State, step: Step, manifest: Path)
    requires Inv(s, manifest) && Enabled(s, step)
    ensures forall id <- Do(s, step).pushes :: Progress(Do(s, step), Do(s, step).pushes[id])
  {
    var t := Do(s, step);
    assert forall id <- s.pushes :: s.pushes[id].intents in s.started;
    forall id | id in t.pushes ensures Progress(t, t.pushes[id]) {
      if id in s.pushes {
        ProgressStays(s, step, s.pushes[id]);
        if step.Publish? && step.id == id { PublishProgress(s, id); }
      }
    }
  }

  lemma StepKeepsSafe(s: State, step: Step, manifest: Path)
    requires Inv(s, manifest) && Enabled(s, step)
    ensures Safe(Do(s, step), manifest)
  {
    var t := Do(s, step);
    if manifest in t.files {
      if manifest in s.files && t.files[manifest] == s.files[manifest] {
        SameManifest(s, step, manifest);
      } else {
        NewManifest(s, step, manifest);
      }
    }
  }

  lemma SameManifest(s: State, step: Step, manifest: Path)
    requires Inv(s, manifest) && Enabled(s, step) && manifest in s.files && manifest in Do(s, step).files
    requires Do(s, step).files[manifest] == s.files[manifest]
    ensures Safe(Do(s, step), manifest)
  {
    var p :| p in s.started && Complete(s, p) && HasAt(p, Write(manifest, s.files[manifest]));
    assert forall id <- s.pushes :: s.pushes[id].intents in s.started;
    CompleteStays(s, step, p);
    assert p in Do(s, step).started;
  }

  lemma NewManifest(s: State, step: Step, manifest: Path)
    requires Inv(s, manifest) && Enabled(s, step) && manifest in Do(s, step).files
    requires manifest in s.files ==> Do(s, step).files[manifest] != s.files[manifest]
    ensures Safe(Do(s, step), manifest)
  {
    var t := Do(s, step);
    var p := t.pushes[step.id];
    StepKeepsProgress(s, step, manifest);
    PublishedManifest(t, p, manifest);
    assert p.intents[p.done - 1] == Ok(Write(manifest, t.files[manifest]));
  }

  /** An orderly push that has just published the manifest path has every one of its files in place. */
  lemma PublishedManifest(t: State, p: Push, manifest: Path)
    requires Progress(t, p) && Orderly(p.intents, manifest)
    requires p.done > 0 && p.intents[p.done - 1].value.path == manifest
    ensures Complete(t, p.intents)
  {
    var i := p.done - 1;
    assert Lands(p.intents, i);
    forall j | 0 <= j < |p.intents| ensures p.intents[j].Ok? && FromPush(t, p.intents[j].value.path) {
      if j > i {
        var k :| 0 <= k <= i && p.intents[k].value.path == p.intents[j].value.path;
      }
    }
  }

  ghost predicate OrderlyStarts(steps: seq<Step>, manifest: Path) {
    forall st <- steps :: st.Begin? ==> Orderly(st.intents, manifest)
  }

  lemma {:induction false} RunKeepsInv(s: State, steps: seq<Step>, manifest: Path)
    requires Legal(s, steps) && Inv(s, manifest) && OrderlyStarts(steps, manifest)
    ensures Inv(After(s, steps), manifest)
    decreases |steps|
  {
    if steps != [] {
      var n := |steps| - 1;
      RunKeepsInv(s, steps[..n], manifest);
      StepKeepsProgress(After(s, steps[..n]), steps[n], manifest);
      StepKeepsSafe(After(s, steps[..n]), steps[n], manifest);
    }
  }

  /** From a volume without a manifest, no run of orderly pushes ever shows a manifest over a partial delivery. */
  lemma ReadySignalSafe(files: FileMap, steps: seq<Step>, manifest: Path)
    requires manifest !in files && OrderlyStarts(steps, manifest)
    requires Legal(State(files, map[], {}), steps)
    ensures Safe(After(State(files, map[], {}), steps), manifest)
  {
    RunKeepsInv(State(files, map[], {}), steps, manifest);
  }

  // ---- the condition is exact ----

  const EMPTY: State := State(map[], map[], {})

  ghost predicate OnlyStarts(steps: seq<Step>, p: Intents) { forall st <- steps :: st.Begin? ==> st.intents == p }

  /** Every run of retries and replicas of this one push keeps the ready signal honest. */
  ghost predicate AlwaysSafe(p: Intents, manifest: Path) {
    forall steps :: Legal(EMPTY, steps) && OnlyStarts(steps, p) ==> Safe(After(EMPTY, steps), manifest)
  }

  /** The steps are a run of pushes of p from s to t. */
  ghost predicate RunsTo(s: State, steps: seq<Step>, p: Intents, t: State) {
    Legal(s, steps) && OnlyStarts(steps, p) && After(s, steps) == t
  }

  lemma Extend(s: State, steps: seq<Step>, p: Intents, t: State, step: Step)
    requires RunsTo(s, steps, p, t) && Enabled(t, step) && (step.Begin? ==> step.intents == p)
    ensures RunsTo(s, steps + [step], p, Do(t, step))
  {
    assert (steps + [step])[..|steps|] == steps;
  }

  /** One more write of a lone push: its temporary is opened, filled and renamed. */
  lemma RunOneMore(s: State, before: seq<Step>, p: Intents, n: nat, files: FileMap) returns (steps: seq<Step>)
    requires n < |p| && p[n].Ok?
    requires RunsTo(s, before, p, State(files, map[0 := Push(p, n, None)], {p}))
    ensures RunsTo(s, steps, p, State(files[p[n].value.path := p[n].value.rec], map[0 := Push(p, n + 1, None)], {p}))
  {
    var data := p[n].value.rec.data;
    assert "" + data == data;
    var idle := State(files, map[0 := Push(p, n, None)], {p});
    var empty := State(files, map[0 := Push(p, n, Some(""))], {p});
    var full := State(files, map[0 := Push(p, n, Some(data))], {p});
    Extend(s, before, p, idle, Open(0));
    assert Do(idle, Open(0)) == empty;
    Extend(s, before + [Open(0)], p, empty, Append(0, data));
    assert Do(empty, Append(0, data)) == full;
    Extend(s, before + [Open(0)] + [Append(0, data)], p, full, Publish(0));
    steps := before + [Open(0)] + [Append(0, data)] + [Publish(0)];
  }

  /** Whatever a push by itself can leave behind is what some run leaves behind. */
  lemma {:induction false} RunTo(files: FileMap, after: FileMap, p: Intents, n: nat) returns (steps: seq<Step>)
    requires DidFirst(files, after, p, n)
    ensures RunsTo(State(files, map[], {}), steps, p, State(after, map[0 := Push(p, n, None)], {p}))
  {
    var start := State(files, map[], {});
    if n == 0 {
      assert p[..0] == [];
      Extend(start, [], p, start, Begin(0, p));
      steps := [] + [Begin(0, p)];
      assert Do(start, Begin(0, p)) == State(after, map[0 := Push(p, 0, None)], {p});
    } else {
      var before := DidOneLess(files, after, p, n);
      var most := RunTo(files, before, p, n - 1);
      steps := RunOneMore(start, most, p, n - 1, before);
    }
  }

  lemma DidOneLess(files: FileMap, after: FileMap, p: Intents, n: nat) returns (before: FileMap)
    requires DidFirst(files, after, p, n) && n > 0
    ensures DidFirst(files, before, p, n - 1) && p[n - 1].Ok?
    ensures after == before[p[n - 1].value.path := p[n - 1].value.rec]
  {
    CollectOk(p[..n]);
    CollectOk(p[..n - 1]);
    assert p[..n][n - 1].Ok?;
    assert forall k :: 0 <= k < n - 1 ==> p[..n - 1][k] == p[..n][k];
    before := Apply(files, Collect(p[..n - 1]).value);
    DidOneMore(files, before, before[p[n - 1].value.path := p[n - 1].value.rec], p, n - 1);
  }

  /** Starting from nothing, a path is there only if one of the writes done was to it. */
  lemma OnlyWritten(after: FileMap, p: Intents, n: nat, path: Path)
    requires DidFirst(map[], after, p, n) && path in after
    ensures exists k :: 0 <= k < n && p[k].Ok? && p[k].value.path == path
  {
    CollectOk(p[..n]);
    var ws := Collect(p[..n]).value;
    ApplyIsLast(map[], ws, path);
    LastIs(ws, path);
    var w :| w in ws && w.path == path;
    var k :| 0 <= k < |ws| && ws[k] == w;
    assert p[..n][k] == Ok(ws[k]);
  }

  /** Every run is safe exactly when the push writes nothing new after it can have written the manifest path. */
  lemma SafeIffOrderly(p: Intents, manifest: Path)
    ensures AlwaysSafe(p, manifest) <==> Orderly(p, manifest)
  {
    if Orderly(p, manifest) {
      forall steps | Legal(EMPTY, steps) && OnlyStarts(steps, p) ensures Safe(After(EMPTY, steps), manifest) {
        ReadySignalSafe(map[], steps, manifest);
      }
    }
    if AlwaysSafe(p, manifest) {
      forall i: nat | Lands(p, i) && p[i].value.path == manifest
        ensures forall j :: i < j < |p| ==> p[j].Ok? && exists k :: 0 <= k <= i && p[k].value.path == p[j].value.path
      {
        AfterManifest(p, manifest, i);
      }
    }
  }

  lemma AfterManifest(p: Intents, manifest: Path, i: nat)
    requires AlwaysSafe(p, manifest) && Lands(p, i) && p[i].value.path == manifest
    ensures forall j :: i < j < |p| ==> p[j].Ok? && exists k :: 0 <= k <= i && p[k].value.path == p[j].value.path
  {
    CollectOk(p[..i + 1]);
    var ws := Collect(p[..i + 1]).value;
    var after := Apply(map[], ws);
    var steps := RunTo(map[], after, p, i + 1);
    assert p[..i + 1][i] == Ok(ws[i]);
    LastIs(ws, manifest);
    assert ws[i] in ws;
    ApplyIsLast(map[], ws, manifest);
    assert Safe(After(EMPTY, steps), manifest);
    forall j | i < j < |p| ensures p[j].Ok? && exists k :: 0 <= k <= i && p[k].value.path == p[j].value.path {
      assert Complete(State(after, map[0 := Push(p, i + 1, None)], {p}), p);
      OnlyWritten(after, p, i + 1, p[j].value.path);
    }
  }
}
