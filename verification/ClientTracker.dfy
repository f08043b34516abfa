/** The client-timeout tracker: registrations, their timers, and callbacks that may already be on their way. */
module ClientTracker {
  import opened Sorting

  /**
    * A timer counts down, then its callback is queued for the lock, then it is over; stopping ends only a count-down.
    */
  datatype Phase = Armed | Queued | Over
  datatype Timer = Timer(container: string, phase: Phase)
  datatype Pending = Pending(service: string, timer: nat)

  /** The tracker, its timers, and how every accepted registration ended. */
  datatype State = State(pending: map<string, Pending>, stopped: bool, timers: seq<Timer>,
                         accepted: nat, expired: nat, cleared: nat, dropped: nat, alerts: seq<(string, string)>)

  datatype Op = Expect(container: string, service: string) | Arrive(container: string) | Expire(timer: nat)
    | Fire(timer: nat) | Stop

  const START := State(map[], false, [], 0, 0, 0, 0, [])

  predicate Enabled(s: State, op: Op) {
    match op
    case Expire(t) => t < |s.timers| && s.timers[t].phase == Armed
    case Fire(t) => t < |s.timers| && s.timers[t].phase == Queued
    case _ => true
  }

  /** timer.Stop. */
  function Halt(ts: seq<Timer>, t: nat): seq<Timer> {
    if t < |ts| && ts[t].phase == Armed then ts[t := ts[t].(phase := Over)] else ts
  }

  function HaltAll(ts: seq<Timer>, live: set<nat>): seq<Timer> {
    seq(|ts|, i requires 0 <= i < |ts| => if i in live && ts[i].phase == Armed then ts[i].(phase := Over) else ts[i])
  }

  function LiveTimers(pending: map<string, Pending>): set<nat> { set c | c in pending :: pending[c].timer }

  function Next(s: State, op: Op): State
    requires Enabled(s, op)
  {
    match op
    case Expect(c, service) =>
      if s.stopped || c in s.pending then s
      else s.(pending := s.pending[c := Pending(service, |s.timers|)], timers := s.timers + [Timer(c, Armed)],
              accepted := s.accepted + 1)
    case Arrive(c) =>
      if c !in s.pending then s
      else s.(pending := s.pending - {c}, timers := Halt(s.timers, s.pending[c].timer), cleared := s.cleared + 1)
    case Expire(t) => s.(timers := s.timers[t := s.timers[t].(phase := Queued)])
    case Fire(t) =>
      var c := s.timers[t].container;
      var over := s.(timers := s.timers[t := s.timers[t].(phase := Over)]);
      if c !in s.pending then over
      else over.(pending := s.pending - {c}, expired := s.expired + 1, alerts := s.alerts + [(c, s.pending[c].service)])
    case Stop =>
      s.(pending := map[], stopped := true, timers := HaltAll(s.timers, LiveTimers(s.pending)),
         dropped := s.dropped + |s.pending|)
  }

  predicate Legal(s: State, ops: seq<Op>)
    decreases |ops|
  {
    ops == [] || (Enabled(s, ops[0]) && Legal(Next(s, ops[0]), ops[1..]))
  }

  function After(s: State, ops: seq<Op>): State
    requires Legal(s, ops)
    decreases |ops|
  {
    if ops == [] then s else After(Next(s, ops[0]), ops[1..])
  }

  // ---- what every interleaving keeps ----

  /** A registration's own timer is still counting down or its callback is queued. */
  ghost predicate Watched(s: State, c: string)
    requires c in s.pending
  {
    var t := s.pending[c].timer;
    t < |s.timers| && s.timers[t].container == c && s.timers[t].phase != Over
  }

  ghost predicate Inv(s: State) {
    && s.accepted == s.expired + s.cleared + s.dropped + |s.pending|
    && |s.alerts| == s.expired
    && (forall c <- s.pending :: Watched(s, c))
    && (s.stopped ==> s.pending == map[])
  }

  lemma StartInv()
    ensures Inv(START)
  {
  }

  lemma RemovedOne(m: map<string, Pending>, c: string)
    requires c in m
    ensures |m - {c}| == |m| - 1
  {
    assert m.Keys == (m - {c}).Keys + {c};
    assert |m.Keys| == |(m - {c}).Keys| + 1;
  }

  lemma ExpectKeepsInv(s: State, c: string, service: string)
    requires Inv(s)
    ensures Inv(Next(s, Expect(c, service)))
  {
    var u := Next(s, Expect(c, service));
    forall d | d in s.pending ensures Watched(u, d) { assert Watched(s, d); }
    if u != s { assert |u.pending| == |s.pending| + 1; }
  }

  lemma ArriveKeepsInv(s: State, c: string)
    requires Inv(s) && c in s.pending
    ensures Inv(Next(s, Arrive(c)))
  {
    var u := Next(s, Arrive(c));
    RemovedOne(s.pending, c);
    assert Watched(s, c);
    forall d | d in u.pending ensures Watched(u, d) { assert Watched(s, d); }
  }

  lemma ExpireKeepsInv(s: State, t: nat)
    requires Inv(s) && Enabled(s, Expire(t))
    ensures Inv(Next(s, Expire(t)))
  {
    var u := Next(s, Expire(t));
    forall d | d in u.pending ensures Watched(u, d) { assert Watched(s, d); }
  }

  lemma FireKeepsInv(s: State, t: nat)
    requires Inv(s) && Enabled(s, Op.Fire(t))
    ensures Inv(Next(s, Op.Fire(t)))
  {
    var u := Next(s, Op.Fire(t));
    var c := s.timers[t].container;
    if c in s.pending { RemovedOne(s.pending, c); }
    forall d | d in u.pending ensures Watched(u, d) { assert Watched(s, d); }
  }

  lemma NextKeepsInv(s: State, op: Op)
    requires Inv(s) && Enabled(s, op)
    ensures Inv(Next(s, op))
  {
    match op
    case Expect(c, service) => ExpectKeepsInv(s, c, service);
    case Arrive(c) => if c in s.pending { ArriveKeepsInv(s, c); }
    case Expire(t) => ExpireKeepsInv(s, t);
    case Fire(t) => FireKeepsInv(s, t);
    case Stop =>
  }

  /**
    * Conservation: over every interleaving of registrations, arrivals, expiries, queued callbacks and stop, each
    * accepted registration has expired, been cleared, been dropped by stop, or is pending with its own timer still
    * live.
    */
  lemma {:induction false} Conservation(s: State, ops: seq<Op>)
    requires Inv(s) && Legal(s, ops)
    ensures Inv(After(s, ops))
    decreases |ops|
  {
    if ops != [] {
      NextKeepsInv(s, ops[0]);
      Conservation(Next(s, ops[0]), ops[1..]);
    }
  }

  /** Once stopped, nothing is ever pending, accepted or newly expired again. */
  lemma {:induction false} StoppedForGood(s: State, ops: seq<Op>)
    requires Inv(s) && s.stopped && Legal(s, ops)
    ensures var t := After(s, ops);
            t.stopped && t.pending == map[] && t.expired == s.expired && t.accepted == s.accepted
              && t.alerts == s.alerts
    decreases |ops|
  {
    if ops != [] {
      NextKeepsInv(s, ops[0]);
      StoppedForGood(Next(s, ops[0]), ops[1..]);
    }
  }

  /** No registration can be lost: its own timer, run to its end, still raises the alert. */
  lemma TimerRunsOut(s: State, c: string) returns (ops: seq<Op>)
    requires Inv(s) && c in s.pending
    ensures Legal(s, ops) && c !in After(s, ops).pending
    ensures After(s, ops).alerts == s.alerts + [(c, s.pending[c].service)]
  {
    var t := s.pending[c].timer;
    assert Watched(s, c);
    if s.timers[t].phase == Armed {
      var queued := Next(s, Expire(t));
      ops := Prefixed(queued, Op.Fire(t), []);
      ops := Prefixed(s, Expire(t), ops);
    } else {
      ops := Prefixed(s, Op.Fire(t), []);
    }
  }

  lemma Prefixed(s: State, op: Op, rest: seq<Op>) returns (ops: seq<Op>)
    requires Enabled(s, op) && Legal(Next(s, op), rest)
    ensures ops == [op] + rest && Legal(s, ops) && After(s, ops) == After(Next(s, op), rest)
  {
    ops := [op] + rest;
    assert ops[1..] == rest;
  }

  // ---- whose timer fires ----

  /** A run in which the registration with timer k is expired by the callback of another timer. */
  ghost predicate Stolen(s: State, c: string, k: nat, ops: seq<Op>, t: nat) {
    && Legal(s, ops)
    && var u := After(s, ops);
       c in u.pending && u.pending[c].timer == k && t != k && Enabled(u, Fire(t)) && u.timers[t].container == c
  }

  /** Counting down for the container, or its callback queued. */
  predicate Live(t: Timer, c: string) { t.container == c && t.phase != Over }

  ghost predicate OnlyOwn(s: State, c: string, k: nat) {
    k < |s.timers| && (c in s.pending && s.pending[c].timer == k ==>
                         forall t :: 0 <= t < |s.timers| && Live(s.timers[t], c) ==> t == k)
  }

  lemma NextOnlyOwn(s: State, op: Op, c: string, k: nat)
    requires Inv(s) && OnlyOwn(s, c, k) && Enabled(s, op)
    ensures OnlyOwn(Next(s, op), c, k)
  {
  }

  lemma {:induction false} OnlyOwnStays(s: State, ops: seq<Op>, c: string, k: nat)
    requires Inv(s) && OnlyOwn(s, c, k) && Legal(s, ops)
    ensures OnlyOwn(After(s, ops), c, k)
    decreases |ops|
  {
    if ops != [] {
      NextKeepsInv(s, ops[0]);
      NextOnlyOwn(s, ops[0], c, k);
      OnlyOwnStays(Next(s, ops[0]), ops[1..], c, k);
    }
  }

  /**
    * A registration may be expired before its own deadline exactly when, as it is made, an earlier timer for the same
    * container is still live: callbacks match by container only.
    */
  lemma StolenIff(s: State, c: string, service: string)
    requires Inv(s) && !s.stopped && c !in s.pending
    ensures (exists ops, t :: Stolen(Next(s, Expect(c, service)), c, |s.timers|, ops, t)) <==>
            exists t :: 0 <= t < |s.timers| && Live(s.timers[t], c)
  {
    var k, n := |s.timers|, Next(s, Expect(c, service));
    NextKeepsInv(s, Expect(c, service));
    if t :| 0 <= t < |s.timers| && Live(s.timers[t], c) {
      if s.timers[t].phase == Armed {
        var ops := Prefixed(n, Expire(t), []);
        assert Stolen(n, c, k, ops, t);
      } else {
        assert Stolen(n, c, k, [], t);
      }
    } else {
      forall ops, t ensures !Stolen(n, c, k, ops, t) {
        if Legal(n, ops) { OnlyOwnStays(n, ops, c, k); }
      }
    }
  }

  /**
    * Such a callback does get there: a fetch between the expiry and the callback, then a restart of the container. The
    * second registration is gone while its own timer still counts down.
    */
  lemma StaleCallback(c: string, service: string) returns (ops: seq<Op>)
    ensures Legal(START, ops) && var s := After(START, ops);
            c !in s.pending && s.accepted == 2 && s.cleared == 1 && s.expired == 1
            && s.timers == [Timer(c, Over), Timer(c, Armed)]
  {
    var again := Op.Expect(c, service);
    var s1 := Next(START, again);
    var s2 := Next(s1, Expire(0));
    var s3 := Next(s2, Arrive(c));
    var s4 := Next(s3, again);
    assert s3 == State(map[], false, [Timer(c, Queued)], 1, 0, 1, 0, []);
    assert s4.timers == [Timer(c, Queued), Timer(c, Armed)];
    ops := Prefixed(s4, Op.Fire(0), []);
    ops := Prefixed(s3, again, ops);
    ops := Prefixed(s2, Arrive(c), ops);
    ops := Prefixed(s1, Expire(0), ops);
    ops := Prefixed(START, again, ops);
  }

  // ---- the tracker itself ----

  /** clientTracker; each method runs under its mutex, so any history is a sequence of whole calls. */
  class Tracker {
    const timeout: int
    var pending: map<string, Pending>
    var stopped: bool
    var timers: seq<Timer>
    var alerts: seq<(string, string)>
    ghost var accepted: nat
    ghost var expired: nat
    ghost var cleared: nat
    ghost var dropped: nat

    ghost function View(): State
      reads this
    {
      State(pending, stopped, timers, accepted, expired, cleared, dropped, alerts)
    }

    constructor (timeout: int)
      ensures this.timeout == timeout && View() == START
    {
      this.timeout := timeout;
      pending, stopped, timers, alerts := map[], false, [], [];
      accepted, expired, cleared, dropped := 0, 0, 0, 0;
    }

    /** expect; a timeout that is not positive turns the check off. */
    method Expect(container: string, service: string)
      modifies this
      ensures View() == if timeout <= 0 then old(View()) else Next(old(View()), Op.Expect(container, service))
    {
      if timeout <= 0 || stopped || container in pending { return; }
      timers := timers + [Timer(container, Armed)];
      pending := pending[container := Pending(service, |timers| - 1)];
      accepted := accepted + 1;
    }

    method StopTimer(t: nat)
      modifies this`timers
      ensures timers == Halt(old(timers), t)
    {
      if t < |timers| && timers[t].phase == Armed { timers := timers[t := timers[t].(phase := Over)]; }
    }

    /** arrived. */
    method Arrived(container: string)
      modifies this
      ensures View() == Next(old(View()), Arrive(container))
    {
      if container in pending {
        StopTimer(pending[container].timer);
        pending := pending - {container};
        cleared := cleared + 1;
      }
    }

    /** cancel. */
    method Cancel(container: string)
      modifies this
      ensures View() == Next(old(View()), Arrive(container))
    {
      Arrived(container);
    }

    /** The runtime's side of a timer reaching its deadline. */
    method Deadline(t: nat)
      requires Enabled(View(), Expire(t))
      modifies this
      ensures View() == Next(old(View()), Expire(t))
    {
      timers := timers[t := timers[t].(phase := Queued)];
    }

    /** fire, called by the callback of timer t. */
    method Fire(t: nat)
      requires Enabled(View(), Op.Fire(t))
      modifies this
      ensures View() == Next(old(View()), Op.Fire(t))
    {
      var container := timers[t].container;
      timers := timers[t := timers[t].(phase := Over)];
      if container !in pending { return; }
      var p := pending[container];
      pending := pending - {container};
      expired := expired + 1;
      alerts := alerts + [(container, p.service)];
    }

    /** One turn of stop's loop. */
    method DropOne(container: string)
      requires container in pending
      modifies this`pending, this`timers, this`dropped
      ensures pending == old(pending) - {container} && dropped == old(dropped) + 1
      ensures timers == Halt(old(timers), old(pending[container].timer))
    {
      StopTimer(pending[container].timer);
      pending := pending - {container};
      dropped := dropped + 1;
    }

    /** The loop of stop over the pending map, in the order it happened to give. */
    method DropAll(ids: seq<string>)
      requires Elems(ids) == pending.Keys && forall j, k :: 0 <= j < k < |ids| ==> ids[j] != ids[k]
      modifies this`pending, this`timers, this`dropped
      ensures pending == map[] && dropped == old(dropped) + |ids|
      ensures timers == HaltAll(old(timers), LiveTimers(old(pending)))
    {
      ghost var was, ts := pending, timers;
      HaltNone(ts);
      assert was - Elems(ids[..0]) == was && LiveOf(was, ids[..0]) == {};
      for i := 0 to |ids|
        invariant dropped == old(dropped) + i && timers == HaltAll(ts, LiveOf(was, ids[..i]))
        invariant pending == was - Elems(ids[..i])
      {
        LeftOver(was, ids, i);
        HaltMore(ts, was, ids, i);
        DropOne(ids[i]);
      }
      AllLeft(was, ids);
    }

    /** stop: every pending timer is stopped, in whatever order the map gives them. */
    method Stop()
      modifies this
      ensures View() == Next(old(View()), Op.Stop)
    {
      stopped := true;
      var ids := Range(pending.Keys);
      assert |pending.Keys| == |pending|;
      DropAll(ids);
    }
  }

  lemma LeftOver(was: map<string, Pending>, ids: seq<string>, i: nat)
    requires i < |ids| && Elems(ids) == was.Keys && forall j, k :: 0 <= j < k < |ids| ==> ids[j] != ids[k]
    ensures ids[i] in was - Elems(ids[..i])
    ensures was - Elems(ids[..i + 1]) == was - Elems(ids[..i]) - {ids[i]}
  {
    assert ids[i] in Elems(ids) && ids[i] !in ids[..i];
    assert ids[..i + 1] == ids[..i] + [ids[i]];
    assert Elems(ids[..i + 1]) == Elems(ids[..i]) + {ids[i]};
  }

  lemma AllLeft(was: map<string, Pending>, ids: seq<string>)
    requires Elems(ids) == was.Keys
    ensures was - Elems(ids[..|ids|]) == map[]
    ensures LiveOf(was, ids[..|ids|]) == LiveTimers(was)
  {
    assert ids[..|ids|] == ids;
    assert forall c <- was :: c in Elems(ids);
  }

  ghost function LiveOf(was: map<string, Pending>, ids: seq<string>): set<nat> {
    set c | c in was && c in ids :: was[c].timer
  }

  lemma HaltNone(ts: seq<Timer>)
    ensures HaltAll(ts, {}) == ts
  {
  }

  lemma HaltMore(ts: seq<Timer>, was: map<string, Pending>, ids: seq<string>, i: nat)
    requires i < |ids| && ids[i] in was
    ensures HaltAll(ts, LiveOf(was, ids[..i + 1])) == Halt(HaltAll(ts, LiveOf(was, ids[..i])), was[ids[i]].timer)
  {
    assert ids[..i + 1] == ids[..i] + [ids[i]];
    assert LiveOf(was, ids[..i + 1]) == LiveOf(was, ids[..i]) + {was[ids[i]].timer};
  }
}
