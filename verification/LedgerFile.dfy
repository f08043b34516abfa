/** Persisting the ledger: concurrent operations, each followed by its own save, with failures and crashes anywhere. */
module LedgerFile {
  import opened Prelude
  import opened Ledger

  /** The ledger's JSON form, of which only its being invertible matters. */
  datatype Format = Format(marshal: Records -> string, parse: string -> Option<Records>) {
    ghost predicate Inverse() { forall r: Records :: parse(marshal(r)) == Some(r) }
  }

  /** An operation that has changed memory and not finished saving: yet to take its snapshot, or writing one out. */
  datatype Save = Waiting | Snapped(version: nat, snap: Records, temp: string)

  /**
    * Memory and how many changes it has seen, the published file and the version it was a snapshot of, the saves under
    * way, and every value memory has had.
    */
  datatype State = State(up: bool, memory: Records, version: nat, disk: Option<string>, diskVersion: nat,
                         saves: map<nat, Save>, had: set<Records>)

  datatype Step =
    | Change(id: nat, op: Op)
    | Snapshot(id: nat)
    | Append(id: nat, bytes: string)
    | Publish(id: nat)
    | Fail(id: nat)
    | Crash
    | Restart

  /** Memory after one operation. */
  function Changed(r: Records, op: Op): Records {
    match op
    case Rec(m, now) => if m.container == "" then r else r[m.container := RecordOf(m, now)]
    case Drop(c) => r - {c}
  }

  /** Operations that return before saving: a record without a container, a forget of an unknown one. */
  predicate NothingToSave(r: Records, op: Op) { match op case Rec(m, _) => m.container == "" case Drop(c) => c !in r }

  predicate Enabled(s: State, f: Format, step: Step) {
    match step
    case Change(id, _) => s.up && id !in s.saves
    case Snapshot(id) => s.up && id in s.saves && s.saves[id].Waiting?
    case Append(id, bytes) =>
      s.up && id in s.saves && s.saves[id].Snapped? && s.saves[id].temp + bytes <= f.marshal(s.saves[id].snap)
    case Publish(id) => s.up && id in s.saves && s.saves[id].Snapped? && s.saves[id].temp == f.marshal(s.saves[id].snap)
    case Fail(id) => s.up && id in s.saves
    case Crash => s.up
    case Restart => !s.up && (s.disk.Some? ==> f.parse(s.disk.value).Some?)
  }

  function Do(s: State, f: Format, step: Step): State
    requires Enabled(s, f, step)
  {
    match step
    case Change(id, op) =>
      if NothingToSave(s.memory, op) then s
      else
        var m := Changed(s.memory, op);
        s.(memory := m, version := s.version + 1, saves := s.saves[id := Waiting], had := s.had + {m})
    case Snapshot(id) => s.(saves := s.saves[id := Snapped(s.version, s.memory, "")])
    case Append(id, bytes) => s.(saves := s.saves[id := s.saves[id].(temp := s.saves[id].temp + bytes)])
    case Publish(id) =>
      s.(disk := Some(s.saves[id].temp), diskVersion := s.saves[id].version, saves := s.saves - {id})
    case Fail(id) => s.(saves := s.saves - {id})
    case Crash => s.(up := false, saves := map[])
    case Restart =>
      var m := if s.disk.Some? then f.parse(s.disk.value).value else map[];
      s.(up := true, memory := m, version := 0, diskVersion := 0, had := s.had + {m})
  }

  predicate Legal(s: State, f: Format, steps: seq<Step>)
    decreases |steps|, 0
  {
    steps == [] ||
    var n := |steps| - 1;
    Legal(s, f, steps[..n]) && Enabled(After(s, f, steps[..n]), f, steps[n])
  }

  function After(s: State, f: Format, steps: seq<Step>): State
    requires Legal(s, f, steps)
    decreases |steps|, 1
  {
    if steps == [] then s else Do(After(s, f, steps[..|steps| - 1]), f, steps[|steps| - 1])
  }

  /** A daemon about to start on what it finds at the ledger's path. */
  function Start(disk: Option<string>): State { State(false, map[], 0, disk, 0, map[], {}) }

  // ---- the published file is never anything but a whole snapshot ----

  ghost predicate Whole(s: State, f: Format, initial: Option<string>) {
    && (s.disk == initial || exists r :: r in s.had && s.disk == Some(f.marshal(r)))
    && (forall id <- s.saves :: s.saves[id].Snapped? ==> s.saves[id].snap in s.had)
    && (s.up ==> s.memory in s.had)
  }

  lemma StepWhole(s: State, f: Format, step: Step, initial: Option<string>)
    requires Whole(s, f, initial) && Enabled(s, f, step)
    ensures Whole(Do(s, f, step), f, initial)
  {
    var t := Do(s, f, step);
    if step.Publish? {
      assert t.disk == Some(f.marshal(s.saves[step.id].snap)) && s.saves[step.id].snap in t.had;
    } else if s.disk != initial {
      var r :| r in s.had && s.disk == Some(f.marshal(r));
      assert r in t.had;
    }
  }

  /**
    * Crash consistency: wherever operations, saves, failures, crashes and restarts interleave, the published file is
    * what was there at first or a complete snapshot the ledger in memory really had.
    */
  lemma {:induction false} CrashConsistent(disk: Option<string>, f: Format, steps: seq<Step>)
    requires Legal(Start(disk), f, steps)
    ensures Whole(After(Start(disk), f, steps), f, disk)
    decreases |steps|
  {
    if steps != [] {
      var n := |steps| - 1;
      CrashConsistent(disk, f, steps[..n]);
      StepWhole(After(Start(disk), f, steps[..n]), f, steps[n], disk);
    }
  }

  /** A file once readable stays readable, so a restart never fails on what the daemon itself wrote. */
  lemma RestartPossible(disk: Option<string>, f: Format, steps: seq<Step>)
    requires Legal(Start(disk), f, steps) && f.Inverse()
    requires disk.Some? ==> f.parse(disk.value).Some?
    requires !After(Start(disk), f, steps).up
    ensures Enabled(After(Start(disk), f, steps), f, Restart)
  {
    CrashConsistent(disk, f, steps);
  }

  // ---- when the file is also current ----

  /** Nothing fails or crashes, and no save publishes an older snapshot over a newer one. */
  ghost predicate InOrder(s: State, f: Format, steps: seq<Step>)
    requires Legal(s, f, steps)
    decreases |steps|
  {
    steps == [] ||
    var n := |steps| - 1;
    var before := After(s, f, steps[..n]);
    && InOrder(s, f, steps[..n])
    && !steps[n].Fail? && !steps[n].Crash? && !steps[n].Restart?
    && (steps[n].Publish? ==> before.saves[steps[n].id].version >= before.diskVersion)
  }

  predicate Covers(save: Save, version: nat) { save.Waiting? || save.version == version }

  /** The newest version is on disk or some save will still put it there; each version is one value of memory. */
  ghost predicate Tracking(s: State, f: Format) {
    && s.diskVersion <= s.version
    && (s.diskVersion == s.version || exists id :: id in s.saves && Covers(s.saves[id], s.version))
    && (forall id <- s.saves :: s.saves[id].Snapped? ==>
          s.saves[id].version <= s.version && (s.saves[id].version == s.version ==> s.saves[id].snap == s.memory))
    && (s.diskVersion == s.version > 0 ==> s.disk == Some(f.marshal(s.memory)))
  }

  lemma StepTracking(s: State, f: Format, step: Step)
    requires Tracking(s, f) && Enabled(s, f, step)
    requires !step.Fail? && !step.Crash? && !step.Restart?
    requires step.Publish? ==> s.saves[step.id].version >= s.diskVersion
    ensures Tracking(Do(s, f, step), f)
  {
    var t := Do(s, f, step);
    if t.diskVersion != t.version {
      if step.Change? && !NothingToSave(s.memory, step.op) {
        assert Covers(t.saves[step.id], t.version);
      } else {
        var id :| id in s.saves && Covers(s.saves[id], s.version);
        assert id in t.saves && Covers(t.saves[id], t.version);
      }
    }
  }

  lemma {:induction false} RunTracking(s: State, f: Format, steps: seq<Step>)
    requires Legal(s, f, steps) && Tracking(s, f) && InOrder(s, f, steps)
    ensures Tracking(After(s, f, steps), f)
    decreases |steps|
  {
    if steps != [] {
      var n := |steps| - 1;
      RunTracking(s, f, steps[..n]);
      StepTracking(After(s, f, steps[..n]), f, steps[n]);
    }
  }

  /** A daemon that has just started has nothing unsaved. */
  ghost predicate Fresh(s: State) { s.up && s.version == s.diskVersion == 0 && s.saves == map[] }

  /** Where saves publish in order and none fails, once all are done the file is the ledger in memory. */
  lemma InOrderIsCurrent(s: State, f: Format, steps: seq<Step>)
    requires Fresh(s) && Legal(s, f, steps) && InOrder(s, f, steps)
    requires After(s, f, steps).saves == map[]
    ensures var t := After(s, f, steps); t.version > 0 ==> t.disk == Some(f.marshal(t.memory))
  {
    RunTracking(s, f, steps);
  }

  /** No operation starts while another is saving. */
  ghost predicate Sequential(s: State, f: Format, steps: seq<Step>)
    requires Legal(s, f, steps)
    decreases |steps|
  {
    steps == [] ||
    var n := |steps| - 1;
    Sequential(s, f, steps[..n]) && (steps[n].Change? ==> After(s, f, steps[..n]).saves == map[])
  }

  ghost predicate OneAtATime(s: State, f: Format) {
    && (!s.up ==> s.saves == map[])
    && (forall i, j :: i in s.saves && j in s.saves ==> i == j)
    && (forall id <- s.saves :: s.saves[id].Snapped? ==> s.saves[id].snap == s.memory)
  }

  lemma {:induction false} SequentialRun(s: State, f: Format, steps: seq<Step>)
    requires Legal(s, f, steps) && OneAtATime(s, f) && Sequential(s, f, steps)
    ensures OneAtATime(After(s, f, steps), f)
    decreases |steps|
  {
    if steps != [] {
      var n := |steps| - 1;
      SequentialRun(s, f, steps[..n]);
    }
  }

  /** In a sequential run an operation whose save succeeds leaves the file equal to memory, whatever failed before. */
  lemma SequentialIsCurrent(s: State, f: Format, steps: seq<Step>)
    requires s.saves == map[] && Legal(s, f, steps) && Sequential(s, f, steps)
    requires steps != [] && steps[|steps| - 1].Publish?
    ensures var t := After(s, f, steps); t.disk == Some(f.marshal(t.memory)) && t.saves == map[]
  {
    SequentialRun(s, f, steps[..|steps| - 1]);
  }

  // ---- exactly when it can stay behind ----

  /** What every reachable state of a running daemon keeps about its saves. */
  ghost predicate Sane(s: State, f: Format) {
    forall id <- s.saves :: s.saves[id].Snapped? ==> s.saves[id].temp <= f.marshal(s.saves[id].snap)
  }

  lemma StepSane(s: State, f: Format, step: Step)
    requires Sane(s, f) && (!s.up ==> s.saves == map[]) && Enabled(s, f, step)
    ensures Sane(Do(s, f, step), f) && (!Do(s, f, step).up ==> Do(s, f, step).saves == map[])
  {
  }

  lemma {:induction false} RunSane(disk: Option<string>, f: Format, steps: seq<Step>)
    requires Legal(Start(disk), f, steps)
    ensures Sane(After(Start(disk), f, steps), f)
    ensures !After(Start(disk), f, steps).up ==> After(Start(disk), f, steps).saves == map[]
    decreases |steps|
  {
    if steps != [] {
      var n := |steps| - 1;
      RunSane(disk, f, steps[..n]);
      StepSane(After(Start(disk), f, steps[..n]), f, steps[n]);
    }
  }

  /** Saves go on, but no operation begins and nothing fails. */
  ghost predicate Quiet(steps: seq<Step>) { forall st <- steps :: st.Snapshot? || st.Append? || st.Publish? }

  /** Some way of finishing the saves under way leaves a file that is not the ledger in memory. */
  ghost predicate CanStale(s: State, f: Format) {
    exists steps :: Quiet(steps) && Legal(s, f, steps) && Stale(After(s, f, steps), f)
  }

  ghost predicate Stale(t: State, f: Format) { t.saves == map[] && t.disk != Some(f.marshal(t.memory)) }

  /** Every snapshot under way is of the ledger in memory, and so is the file unless a save is still to come. */
  ghost predicate AllCurrent(s: State, f: Format) {
    && (forall id <- s.saves :: s.saves[id].Snapped? ==> s.saves[id].snap == s.memory)
    && (s.saves != map[] || s.disk == Some(f.marshal(s.memory)))
  }

  lemma {:induction false} CurrentStays(s: State, f: Format, steps: seq<Step>)
    requires AllCurrent(s, f) && Legal(s, f, steps) && Quiet(steps)
    ensures AllCurrent(After(s, f, steps), f)
    decreases |steps|
  {
    if steps != [] {
      var n := |steps| - 1;
      assert steps[n] in steps;
      CurrentStays(s, f, steps[..n]);
    }
  }

  lemma {:induction false} Follow(s: State, f: Format, a: seq<Step>, b: seq<Step>)
    requires Legal(s, f, a) && Legal(After(s, f, a), f, b)
    ensures Legal(s, f, a + b) && After(s, f, a + b) == After(After(s, f, a), f, b)
    decreases |b|
  {
    if b == [] {
      assert a + b == a;
    } else {
      var n := |b| - 1;
      Follow(s, f, a, b[..n]);
      assert (a + b)[..|a + b| - 1] == a + b[..n];
    }
  }

  /** What a save under way writes, or would write if it took its snapshot now. */
  function SnapOf(s: State, id: nat): Records
    requires id in s.saves
  {
    if s.saves[id].Waiting? then s.memory else s.saves[id].snap
  }

  /** A save by itself can always run to its end. */
  lemma FinishOne(s: State, f: Format, id: nat) returns (steps: seq<Step>)
    requires s.up && Sane(s, f) && id in s.saves
    ensures Quiet(steps) && Legal(s, f, steps)
    ensures var t := After(s, f, steps);
            t.up && t.saves == s.saves - {id} && t.memory == s.memory && t.disk == Some(f.marshal(SnapOf(s, id)))
  {
    if s.saves[id].Waiting? {
      var t := Do(s, f, Snapshot(id));
      steps := FinishSnapped(t, f, id);
      OneStep(s, f, Snapshot(id));
      Follow(s, f, [Snapshot(id)], steps);
      steps := [Snapshot(id)] + steps;
    } else {
      steps := FinishSnapped(s, f, id);
    }
  }

  lemma OneStep(s: State, f: Format, step: Step)
    requires Enabled(s, f, step)
    ensures Legal(s, f, [step]) && After(s, f, [step]) == Do(s, f, step)
  {
    assert [step][..0] == [];
  }

  lemma FinishSnapped(s: State, f: Format, id: nat) returns (steps: seq<Step>)
    requires s.up && Sane(s, f) && id in s.saves && s.saves[id].Snapped?
    ensures Quiet(steps) && Legal(s, f, steps)
    ensures var t := After(s, f, steps);
            t.up && t.saves == s.saves - {id} && t.memory == s.memory
            && t.disk == Some(f.marshal(s.saves[id].snap))
  {
    var save := s.saves[id];
    var text := f.marshal(save.snap);
    var rest := text[|save.temp|..];
    assert save.temp + rest == text;
    var t := Do(s, f, Append(id, rest));
    OneStep(s, f, Append(id, rest));
    OneStep(t, f, Publish(id));
    Follow(s, f, [Append(id, rest)], [Publish(id)]);
    steps := [Append(id, rest)] + [Publish(id)];
  }

  lemma {:induction false} FinishAllBut(s: State, f: Format, keep: nat) returns (steps: seq<Step>)
    requires s.up && Sane(s, f) && keep in s.saves
    ensures Quiet(steps) && Legal(s, f, steps)
    ensures var t := After(s, f, steps); t.up && t.saves == map[keep := s.saves[keep]] && t.memory == s.memory
    decreases |s.saves|
  {
    if other :| other in s.saves && other != keep {
      var first := FinishOne(s, f, other);
      var t := After(s, f, first);
      assert t.saves.Keys == s.saves.Keys - {other};
      assert |t.saves| == |t.saves.Keys| && |s.saves| == |s.saves.Keys|;
      var more := FinishAllBut(t, f, keep);
      Follow(s, f, first, more);
      steps := first + more;
    } else {
      steps := [];
      assert s.saves == map[keep := s.saves[keep]];
    }
  }

  /**
    * Once all saves are done, nothing failing and no other operation beginning, the file can differ from memory exactly
    * when, as the operation begins, some save has taken a snapshot that is not what the operation makes of memory.
    */
  lemma StaleIff(s: State, f: Format, id: nat, op: Op)
    requires s.up && Sane(s, f) && f.Inverse() && id !in s.saves && !NothingToSave(s.memory, op)
    ensures CanStale(Do(s, f, Change(id, op)), f)
            <==> exists j :: j in s.saves && s.saves[j].Snapped? && s.saves[j].snap != Changed(s.memory, op)
  {
    var t := Do(s, f, Change(id, op));
    if j :| j in s.saves && s.saves[j].Snapped? && s.saves[j].snap != t.memory {
      assert Sane(t, f) && j in t.saves && t.saves[j] == s.saves[j];
      LastWins(t, f, j);
    } else {
      assert AllCurrent(t, f) by { assert id in t.saves; }
      forall steps | Quiet(steps) && Legal(t, f, steps) ensures !Stale(After(t, f, steps), f) {
        CurrentStays(t, f, steps);
      }
    }
  }

  /** A snapshot of anything but memory, published last, stays. */
  lemma LastWins(t: State, f: Format, j: nat)
    requires t.up && Sane(t, f) && f.Inverse() && j in t.saves && SnapOf(t, j) != t.memory
    ensures CanStale(t, f)
  {
    var before := FinishAllBut(t, f, j);
    var u := After(t, f, before);
    var last := FinishOne(u, f, j);
    Follow(t, f, before, last);
    assert After(u, f, last).saves == map[];
    assert f.parse(f.marshal(SnapOf(t, j))) != f.parse(f.marshal(t.memory));
    assert Quiet(before + last) && Stale(After(t, f, before + last), f);
  }

  /**
    * Without that the file can stay behind: of two concurrent operations the first takes its snapshot, the second
    * changes, saves and returns success, and then the first publishes its older snapshot over it.
    */
  lemma OlderCanWin(s: State, f: Format, a: Op, b: Op) returns (steps: seq<Step>)
    requires Fresh(s) && f.Inverse()
    requires !NothingToSave(s.memory, a) && !NothingToSave(Changed(s.memory, a), b)
    requires Changed(Changed(s.memory, a), b) != Changed(s.memory, a)
    ensures Legal(s, f, steps) && NoFailure(steps)
    ensures var t := After(s, f, steps);
            t.saves == map[] && t.memory == Changed(Changed(s.memory, a), b)
              && t.disk == Some(f.marshal(Changed(s.memory, a)))
            && t.disk != Some(f.marshal(t.memory))
  {
    var m1 := Changed(s.memory, a);
    var m2 := Changed(m1, b);
    steps := SecondOvertakes(s, f, a, b, m1, m2);
    steps := FirstLands(s, f, steps, m1, m2, s.had + {m1} + {m2});
    assert f.parse(f.marshal(m1)) != f.parse(f.marshal(m2));
  }

  function Raced(s: State, m1: Records, m2: Records, had: set<Records>): State {
    s.(memory := m2, version := 2, saves := map[0 := Snapped(1, m1, ""), 1 := Snapped(2, m2, "")], had := had)
  }

  function FirstWaits(s: State, m1: Records, had: set<Records>): State {
    s.(memory := m1, version := 1, saves := map[0 := Snapped(1, m1, "")], had := had)
  }

  lemma FirstSnaps(s: State, f: Format, a: Op, m1: Records) returns (steps: seq<Step>)
    requires Fresh(s) && m1 == Changed(s.memory, a) && !NothingToSave(s.memory, a)
    ensures NoFailure(steps) && RunsTo(s, f, steps, FirstWaits(s, m1, s.had + {m1}))
  {
    var s1 := s.(memory := m1, version := 1, saves := map[0 := Waiting], had := s.had + {m1});
    steps := Then(s, f, [], s, Change(0, a), s1);
    steps := Then(s, f, steps, s1, Snapshot(0), FirstWaits(s, m1, s.had + {m1}));
  }

  lemma SecondOvertakes(s: State, f: Format, a: Op, b: Op, m1: Records, m2: Records) returns (steps: seq<Step>)
    requires Fresh(s) && m1 == Changed(s.memory, a) && m2 == Changed(m1, b)
    requires !NothingToSave(s.memory, a) && !NothingToSave(m1, b)
    ensures NoFailure(steps) && RunsTo(s, f, steps, Raced(s, m1, m2, s.had + {m1} + {m2}))
  {
    var s2, had := FirstWaits(s, m1, s.had + {m1}), s.had + {m1} + {m2};
    var s3 := s.(memory := m2, version := 2, saves := map[0 := Snapped(1, m1, ""), 1 := Waiting], had := had);
    steps := FirstSnaps(s, f, a, m1);
    steps := Then(s, f, steps, s2, Change(1, b), s3);
    steps := Then(s, f, steps, s3, Snapshot(1), Raced(s, m1, m2, had));
  }

  lemma FirstLands(s: State, f: Format, before: seq<Step>, m1: Records, m2: Records, had: set<Records>)
    returns (steps: seq<Step>)
    requires s.up && NoFailure(before) && RunsTo(s, f, before, Raced(s, m1, m2, had))
    ensures NoFailure(steps)
    ensures RunsTo(s, f, steps,
                   s.(memory := m2, version := 2, disk := Some(f.marshal(m1)), diskVersion := 1, saves := map[],
                      had := had))
  {
    var t1, t2 := f.marshal(m1), f.marshal(m2);
    assert "" + t1 == t1 && "" + t2 == t2;
    var s4 := Raced(s, m1, m2, had);
    var s5 := s4.(saves := map[0 := Snapped(1, m1, ""), 1 := Snapped(2, m2, t2)]);
    var s6 := s5.(disk := Some(t2), diskVersion := 2, saves := map[0 := Snapped(1, m1, "")]);
    var s7 := s6.(saves := map[0 := Snapped(1, m1, t1)]);
    steps := Then(s, f, before, s4, Append(1, t2), s5);
    steps := Then(s, f, steps, s5, Publish(1), s6);
    steps := Then(s, f, steps, s6, Append(0, t1), s7);
    steps := Then(s, f, steps, s7, Publish(0), s7.(disk := Some(t1), diskVersion := 1, saves := map[]));
  }

  ghost predicate NoFailure(steps: seq<Step>) { forall st <- steps :: !st.Fail? && !st.Crash? }

  ghost predicate RunsTo(s: State, f: Format, steps: seq<Step>, t: State) {
    Legal(s, f, steps) && After(s, f, steps) == t
  }

  lemma Then(s: State, f: Format, steps: seq<Step>, t: State, step: Step, u: State) returns (more: seq<Step>)
    requires RunsTo(s, f, steps, t) && Enabled(t, f, step) && Do(t, f, step) == u
    requires NoFailure(steps) && !step.Fail? && !step.Crash?
    ensures RunsTo(s, f, more, u) && NoFailure(more)
  {
    more := steps + [step];
    assert more[..|steps|] == steps;
  }

  // ---- the ledger it saves ----

  /** The memory of this machine changes as the ledger's records do over a run of the same operations. */
  lemma ChangedIsRecorded(ops: seq<Op>, op: Op)
    ensures RecordsAfter(ops + [op]) == Changed(RecordsAfter(ops), op)
    ensures NothingToSave(RecordsAfter(ops), op) ==> RecordsAfter(ops + [op]) == RecordsAfter(ops)
  {
    assert (ops + [op])[..|ops|] == ops;
  }
}
