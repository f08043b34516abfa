/** Injections in flight: pushes under the per-container lock, fetches under none, and the ledger record each leaves. */
module PushLock {
  import opened Prelude

  /**
    * Where an injection stands. A push wants its container's key, waits on the key's mutex, holds it, and has recorded
    * itself before it lets go; a fetch takes no lock.
    */
  datatype Stage = Wanting | Waiting(mutex: nat) | Pushing(mutex: nat) | Recorded(mutex: nat) | Serving | Served
  datatype Worker = Worker(key: string, stage: Stage)

  /** The key map, who holds each mutex ever made, the injections in flight, and the containers with a record. */
  datatype State = State(held: map<string, nat>, owner: seq<Option<nat>>, workers: map<nat, Worker>,
                         records: set<string>)

  /** Forget is the event loop's, for a destroyed container; it takes no container's lock. */
  datatype Step = Push(id: nat, key: string) | Fetch(id: nat, key: string) | Lookup(id: nat) | Acquire(id: nat)
    | Record(id: nat) | Release(id: nat) | Forget(key: string)

  const START := State(map[], [], map[], {})

  predicate Holds(w: Worker) { w.stage.Pushing? || w.stage.Recorded? }

  predicate MayRecord(w: Worker) { !w.stage.Recorded? && !w.stage.Served? }

  predicate Enabled(s: State, step: Step) {
    match step
    case Push(id, _) => id !in s.workers
    case Fetch(id, _) => id !in s.workers
    case Lookup(id) => id in s.workers && s.workers[id].stage.Wanting?
    case Acquire(id) =>
      id in s.workers && s.workers[id].stage.Waiting?
      && s.workers[id].stage.mutex < |s.owner| && s.owner[s.workers[id].stage.mutex].None?
    case Record(id) => id in s.workers && (s.workers[id].stage.Pushing? || s.workers[id].stage.Serving?)
    case Release(id) =>
      id in s.workers && (Holds(s.workers[id]) ==> s.workers[id].stage.mutex < |s.owner|)
      && !s.workers[id].stage.Wanting? && !s.workers[id].stage.Waiting?
    case Forget(_) => true
  }

  function Do(s: State, step: Step): State
    requires Enabled(s, step)
  {
    match step
    case Push(id, key) => s.(workers := s.workers[id := Worker(key, Wanting)])
    case Fetch(id, key) => s.(workers := s.workers[id := Worker(key, Serving)])
    case Lookup(id) =>
      var key := s.workers[id].key;
      if key in s.held then s.(workers := s.workers[id := Worker(key, Waiting(s.held[key]))])
      else s.(held := s.held[key := |s.owner|], owner := s.owner + [None],
              workers := s.workers[id := Worker(key, Waiting(|s.owner|))])
    case Acquire(id) =>
      var w := s.workers[id];
      s.(owner := s.owner[w.stage.mutex := Some(id)], workers := s.workers[id := w.(stage := Pushing(w.stage.mutex))])
    case Record(id) =>
      var w := s.workers[id];
      s.(records := s.records + {w.key},
         workers := s.workers[id := w.(stage := if w.stage.Pushing? then Recorded(w.stage.mutex) else Served)])
    case Release(id) =>
      var w := s.workers[id];
      s.(owner := if Holds(w) then s.owner[w.stage.mutex := None] else s.owner, workers := s.workers - {id})
    case Forget(key) => s.(records := s.records - {key})
  }

  predicate Legal(s: State, steps: seq<Step>)
    decreases |steps|
  {
    steps == [] || (Enabled(s, steps[0]) && Legal(Do(s, steps[0]), steps[1..]))
  }

  function After(s: State, steps: seq<Step>): State
    requires Legal(s, steps)
    decreases |steps|
  {
    if steps == [] then s else After(Do(s, steps[0]), steps[1..])
  }

  // ---- exclusion ----

  ghost predicate Inv(s: State) {
    && (forall k <- s.held :: s.held[k] < |s.owner|)
    && (forall id <- s.workers :: s.workers[id].stage.Waiting? || Holds(s.workers[id]) ==>
          s.workers[id].key in s.held && s.workers[id].stage.mutex == s.held[s.workers[id].key])
    && (forall id <- s.workers :: Holds(s.workers[id]) ==> s.owner[s.workers[id].stage.mutex] == Some(id))
    && (forall m :: 0 <= m < |s.owner| && s.owner[m].Some? ==>
          s.owner[m].value in s.workers && Holds(s.workers[s.owner[m].value])
            && s.workers[s.owner[m].value].stage.mutex == m)
  }

  predicate InFlight(s: State, id: nat) { id in s.workers && Holds(s.workers[id]) }

  /** At most one push per container is in flight. */
  ghost predicate Exclusive(s: State) {
    forall i, j :: InFlight(s, i) && InFlight(s, j) && s.workers[i].key == s.workers[j].key ==> i == j
  }

  lemma StartInv()
    ensures Inv(START)
  {
  }

  lemma LookupKeepsInv(s: State, id: nat)
    requires Inv(s) && Enabled(s, Lookup(id))
    ensures Inv(Do(s, Lookup(id)))
  {
  }

  lemma AcquireKeepsInv(s: State, id: nat)
    requires Inv(s) && Enabled(s, Acquire(id))
    ensures Inv(Do(s, Acquire(id)))
  {
  }

  lemma ReleaseKeepsInv(s: State, id: nat)
    requires Inv(s) && Enabled(s, Release(id))
    ensures Inv(Do(s, Release(id)))
  {
  }

  /** A key keeps the mutex it was first given. */
  lemma DoKeepsInv(s: State, step: Step)
    requires Inv(s) && Enabled(s, step)
    ensures Inv(Do(s, step))
    ensures forall k <- s.held :: k in Do(s, step).held && Do(s, step).held[k] == s.held[k]
  {
    match step
    case Lookup(id) => LookupKeepsInv(s, id);
    case Acquire(id) => AcquireKeepsInv(s, id);
    case Release(id) => ReleaseKeepsInv(s, id);
    case _ =>
  }

  /** In every interleaving the map only grows and pushes to one container exclude each other. */
  lemma {:induction false} PushesExclude(s: State, steps: seq<Step>)
    requires Inv(s) && Legal(s, steps)
    ensures Inv(After(s, steps)) && Exclusive(After(s, steps))
    ensures forall k <- s.held :: k in After(s, steps).held && After(s, steps).held[k] == s.held[k]
    decreases |steps|
  {
    if steps != [] {
      DoKeepsInv(s, steps[0]);
      PushesExclude(Do(s, steps[0]), steps[1..]);
    }
  }

  // ---- records after a forget ----

  /** Some injection of the container is in flight and has not recorded itself yet. */
  ghost predicate Pending(s: State, key: string) {
    exists id :: id in s.workers && s.workers[id].key == key && MayRecord(s.workers[id])
  }

  predicate Starts(step: Step, key: string) { (step.Push? || step.Fetch?) && step.key == key }

  ghost predicate NoneStarts(steps: seq<Step>, key: string) { forall st <- steps :: !Starts(st, key) }

  lemma {:induction false} StaysForgotten(s: State, steps: seq<Step>, key: string)
    requires key !in s.records && !Pending(s, key) && Legal(s, steps) && NoneStarts(steps, key)
    ensures key !in After(s, steps).records
    decreases |steps|
  {
    if steps != [] {
      var t := Do(s, steps[0]);
      assert !Starts(steps[0], key);
      forall id | id in t.workers && t.workers[id].key == key ensures !MayRecord(t.workers[id]) {
        if id in s.workers { assert s.workers[id].key == key ==> !MayRecord(s.workers[id]); }
      }
      StaysForgotten(t, steps[1..], key);
    }
  }

  /** A record found after a forget is of an injection that was in flight at the forget or began after it. */
  lemma RecordAfterForget(s: State, key: string, steps: seq<Step>)
    requires Legal(Do(s, Forget(key)), steps) && key in After(Do(s, Forget(key)), steps).records
    ensures Pending(s, key) || exists st :: st in steps && Starts(st, key)
  {
    if !Pending(s, key) && NoneStarts(steps, key) {
      assert !Pending(Do(s, Forget(key)), key);
      StaysForgotten(Do(s, Forget(key)), steps, key);
    }
  }

  lemma Prefixed(s: State, step: Step, rest: seq<Step>) returns (steps: seq<Step>)
    requires Enabled(s, step) && Legal(Do(s, step), rest)
    ensures steps == [step] + rest && Legal(s, steps) && After(s, steps) == After(Do(s, step), rest)
  {
    steps := [step] + rest;
    assert steps[1..] == rest;
  }

  lemma RecordNow(s: State, id: nat, key: string) returns (steps: seq<Step>)
    requires Enabled(s, Record(id)) && s.workers[id].key == key
    ensures Legal(s, steps) && NoneStarts(steps, key) && key in After(s, steps).records
  {
    steps := Prefixed(s, Record(id), []);
  }

  /** A push that waits can get its mutex, after whoever holds it lets go, and then record itself. */
  lemma RecordWaiting(s: State, id: nat, key: string) returns (steps: seq<Step>)
    requires Inv(s) && id in s.workers && s.workers[id].key == key && s.workers[id].stage.Waiting?
    ensures Legal(s, steps) && NoneStarts(steps, key) && key in After(s, steps).records
  {
    var owner := s.owner[s.workers[id].stage.mutex];
    if owner.None? {
      steps := RecordNow(Do(s, Acquire(id)), id, key);
      steps := Prefixed(s, Acquire(id), steps);
    } else {
      var t := Do(s, Release(owner.value));
      DoKeepsInv(s, Release(owner.value));
      steps := RecordNow(Do(t, Acquire(id)), id, key);
      steps := Prefixed(t, Acquire(id), steps);
      steps := Prefixed(s, Release(owner.value), steps);
    }
  }

  lemma RecordLater(s: State, id: nat, key: string) returns (steps: seq<Step>)
    requires Inv(s) && id in s.workers && s.workers[id].key == key && MayRecord(s.workers[id])
    ensures Legal(s, steps) && NoneStarts(steps, key) && key in After(s, steps).records
  {
    if s.workers[id].stage.Wanting? {
      DoKeepsInv(s, Lookup(id));
      steps := RecordWaiting(Do(s, Lookup(id)), id, key);
      steps := Prefixed(s, Lookup(id), steps);
    } else if s.workers[id].stage.Waiting? {
      steps := RecordWaiting(s, id, key);
    } else {
      steps := RecordNow(s, id, key);
    }
  }

  /** With no injection of the container beginning any more, a forgotten record can come back. */
  ghost predicate CanReturn(s: State, key: string) {
    exists steps :: Legal(s, steps) && NoneStarts(steps, key) && key in After(s, steps).records
  }

  /** It can exactly when an injection of the container is in flight, not yet recorded, at the forget. */
  lemma ReturnsIff(s: State, key: string)
    requires Inv(s)
    ensures CanReturn(Do(s, Forget(key)), key) <==> Pending(s, key)
  {
    var t := Do(s, Forget(key));
    if id :| id in s.workers && s.workers[id].key == key && MayRecord(s.workers[id]) {
      DoKeepsInv(s, Forget(key));
      var steps := RecordLater(t, id, key);
    } else {
      forall steps | Legal(t, steps) && NoneStarts(steps, key) ensures key !in After(t, steps).records {
        StaysForgotten(t, steps, key);
      }
    }
  }

  // ---- the key map itself ----

  /** keyedMutex: the map under its own lock; a mutex is made once per key and only ever handed out. */
  class KeyedMutex {
    var held: map<string, nat>
    var made: nat

    ghost predicate Valid()
      reads this
    {
      forall k <- held :: held[k] < made
    }

    constructor ()
      ensures Valid() && held == map[] && made == 0
    {
      held, made := map[], 0;
    }

    /** The part of lock under k.mu: the key's mutex, made now if there is none. */
    method Lookup(key: string) returns (mutex: nat)
      requires Valid()
      modifies this
      ensures Valid() && key in held && held[key] == mutex
      ensures held == if key in old(held) then old(held) else old(held)[key := old(made)]
      ensures made == old(made) + (if key in old(held) then 0 else 1)
    {
      if key !in held {
        held := held[key := made];
        made := made + 1;
      }
      mutex := held[key];
    }
  }
}
