/** Locked buffers: which exist, what they hold, and which have been destroyed. */
module LockedMemory {

  datatype Slot = Live(bytes: string) | Freed

  /** What a Go []byte over a locked buffer is: nil, a bufferless empty slice, or a view of one buffer. */
  datatype View = Nil | Empty | Of(id: nat)

  function Bytes(v: View, slots: seq<Slot>): string {
    if v.Of? && v.id < |slots| && slots[v.id].Live? then slots[v.id].bytes else ""
  }

  function Size(s: Slot): nat { if s.Live? then |s.bytes| else 0 }

  function LiveUpTo(slots: seq<Slot>, n: nat): nat
    requires n <= |slots|
  {
    if n == 0 then 0 else LiveUpTo(slots, n - 1) + Size(slots[n - 1])
  }

  function LiveBytes(slots: seq<Slot>): nat { LiveUpTo(slots, |slots|) }

  /** From slot `base` on, exactly the buffers in `own` are live. */
  ghost predicate Owned(slots: seq<Slot>, base: nat, own: set<nat>) {
    && base <= |slots|
    && (forall i <- own :: base <= i < |slots|)
    && (forall i :: base <= i < |slots| ==> (slots[i].Live? <==> i in own))
  }

  /** Slots below `base` are as they were. */
  ghost predicate Kept(before: seq<Slot>, after: seq<Slot>, base: nat) {
    base <= |before| && base <= |after| && after[..base] == before[..base]
  }

  /** Nothing allocated since `before` is still live, and nothing older was touched. */
  ghost predicate NothingStranded(before: seq<Slot>, after: seq<Slot>) {
    Kept(before, after, |before|) && Owned(after, |before|, {})
  }

  /** Slots were only added, and of the added ones exactly `live` are live. */
  ghost predicate Extends(before: seq<Slot>, after: seq<Slot>, live: set<nat>) {
    before <= after && Owned(after, |before|, live)
  }

  lemma OwnedExtends(before: seq<Slot>, after: seq<Slot>, base: nat, own: set<nat>, live: set<nat>)
    requires Owned(before, base, own) && Extends(before, after, live)
    ensures Owned(after, base, own + live) && own !! live
  {
  }

  lemma OwnedSnoc(slots: seq<Slot>, base: nat, own: set<nat>, s: Slot)
    requires Owned(slots, base, own)
    ensures Owned(slots + [s], base, if s.Live? then own + {|slots|} else own)
  {
  }

  lemma {:induction false} LiveUpToSame(a: seq<Slot>, b: seq<Slot>, n: nat)
    requires n <= |a| && n <= |b| && forall i :: 0 <= i < n ==> a[i] == b[i]
    ensures LiveUpTo(a, n) == LiveUpTo(b, n)
  {
    if n > 0 { LiveUpToSame(a, b, n - 1); }
  }

  lemma LiveBytesSnoc(slots: seq<Slot>, s: Slot)
    ensures LiveBytes(slots + [s]) == LiveBytes(slots) + Size(s)
  {
    LiveUpToSame(slots + [s], slots, |slots|);
  }

  lemma {:induction false} LiveBytesUpdate(slots: seq<Slot>, i: nat, s: Slot, n: nat)
    requires i < n <= |slots|
    ensures LiveUpTo(slots[i := s], n) == LiveUpTo(slots, n) - Size(slots[i]) + Size(s)
  {
    if i == n - 1 { LiveUpToSame(slots[i := s], slots, i); } else { LiveBytesUpdate(slots, i, s, n - 1); }
  }

  lemma {:induction false} LiveBytesFreed(slots: seq<Slot>, base: nat, n: nat)
    requires Owned(slots, base, {}) && base <= n <= |slots|
    ensures LiveUpTo(slots, n) == LiveUpTo(slots, base)
  {
    if n > base {
      assert slots[n - 1].Freed?;
      LiveBytesFreed(slots, base, n - 1);
    }
  }

  class Memory {
    var slots: seq<Slot>
    ghost var live: nat  // LiveBytes(slots), see Counted
    ghost var read: nat  // bytes taken in from peers so far
    ghost var lead: int  // the most by which live has been above read at any one moment, since it was last started

    ghost predicate Counted() reads this { live == LiveBytes(slots) }

    constructor ()
      ensures slots == [] && live == 0 && read == 0 && lead == 0 && Counted()
    {
      slots := [];
      live, read, lead := 0, 0, 0;
    }

    /** Watch from here on how far live runs ahead of read. */
    ghost method StartLead()
      modifies this`lead
      ensures lead == live - read
    {
      lead := live - read;
    }

    /** memguard.NewBuffer: n zero bytes. */
    method NewBuffer(n: nat) returns (id: nat)
      requires Counted()
      modifies this`slots, this`live, this`lead
      ensures Counted() && live == old(live) + n
      ensures lead == if live - read > old(lead) then live - read else old(lead)
      ensures id == |old(slots)| && slots == old(slots) + [Live(seq(n, _ => 0 as char))]
    {
      id := |slots|;
      LiveBytesSnoc(slots, Live(seq(n, _ => 0 as char)));
      slots := slots + [Live(seq(n, _ => 0 as char))];
      live := live + n;
      if live - read > lead { lead := live - read; }
    }

    method Fill(id: nat, data: string)
      requires Counted()
      requires id < |slots| && slots[id].Live? && |data| == |slots[id].bytes|
      modifies this`slots
      ensures Counted()
      ensures slots == old(slots)[id := Live(data)]
    {
      LiveBytesUpdate(slots, id, Live(data), |slots|);
      slots := slots[id := Live(data)];
    }

    /** LockedBuffer.Destroy; a second call does nothing. */
    method Destroy(id: nat)
      requires Counted()
      requires id < |slots|
      modifies this`slots, this`live
      ensures Counted() && live == old(live) - Size(old(slots)[id])
      ensures slots == old(slots)[id := Freed]
    {
      LiveBytesUpdate(slots, id, Freed, |slots|);
      slots := slots[id := Freed];
      live := LiveBytes(slots);
    }

    /** A fresh buffer holding a copy of data. */
    method NewCopy(data: string) returns (id: nat)
      requires Counted()
      modifies this`slots, this`live, this`lead
      ensures Counted() && live == old(live) + |data|
      ensures id == |old(slots)| && slots == old(slots) + [Live(data)]
    {
      id := NewBuffer(|data|);
      Fill(id, data);
    }
  }
}
