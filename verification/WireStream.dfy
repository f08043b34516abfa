/** The codec as it runs: bytes taken off and put on a connection, secrets decoded into locked buffers. */
module WireStream {
  import opened Prelude
  import opened Sorting
  import opened LockedMemory
  import opened Wire
  import Hook

  datatype File = File(path: string, owner: string, mode: string, data: View)
  datatype EnvVar = EnvVar(name: string, value: View)

  function FileValue(f: File, slots: seq<Slot>): FileV { FileV(f.path, f.owner, f.mode, Bytes(f.data, slots)) }

  function EnvValue(e: EnvVar, slots: seq<Slot>): EnvV { EnvV(e.name, Bytes(e.value, slots)) }

  function FileValues(fs: seq<File>, slots: seq<Slot>): (r: seq<FileV>)
    ensures |r| == |fs| && forall i :: 0 <= i < |r| ==> r[i] == FileValue(fs[i], slots)
  {
    seq(|fs|, i requires 0 <= i < |fs| => FileValue(fs[i], slots))
  }

  function EnvValues(es: seq<EnvVar>, slots: seq<Slot>): (r: seq<EnvV>)
    ensures |r| == |es| && forall i :: 0 <= i < |r| ==> r[i] == EnvValue(es[i], slots)
  {
    seq(|es|, i requires 0 <= i < |es| => EnvValue(es[i], slots))
  }

  /** The view is bufferless or over one of the buffers in `own`. */
  ghost predicate ViewsOnly(v: View, own: set<nat>) { v.Of? ==> v.id in own }

  /** wire.Bundle: what it carries, and the locked buffers that back its secrets. */
  class Bundle {
    const mem: Memory
    var files: seq<File>
    var env: seq<EnvVar>
    var pointers: seq<Pointer>
    var manifest: string
    var locked: seq<nat>

    /** Every secret is a view of a buffer the bundle owns, and those are the only live buffers from `base` on. */
    ghost predicate Valid(base: nat)
      reads this, mem
    {
      && mem.Counted()
      && Owned(mem.slots, base, Elems(locked))
      && (forall f <- files :: ViewsOnly(f.data, Elems(locked)))
      && (forall e <- env :: ViewsOnly(e.value, Elems(locked)))
    }

    function Value(): BundleV
      reads this, mem
    {
      BundleV(FileValues(files, mem.slots), EnvValues(env, mem.slots), pointers, manifest)
    }

    constructor (mem: Memory)
      ensures this.mem == mem && files == [] && env == [] && pointers == [] && manifest == "" && locked == []
    {
      this.mem := mem;
      files, env, pointers, manifest, locked := [], [], [], "", [];
    }

    /** The same while a reader of the source holds live buffers of its own. */
    ghost predicate Shares(base: nat, others: set<nat>)
      reads this, mem
    {
      && mem.Counted()
      && Owned(mem.slots, base, Elems(locked) + others) && Elems(locked) !! others
      && (forall f <- files :: ViewsOnly(f.data, Elems(locked)))
      && (forall e <- env :: ViewsOnly(e.value, Elems(locked)))
    }

    /** track: take over a live buffer. */
    method Track(id: nat) returns (v: View)
      modifies this`locked
      ensures v == Of(id) && locked == old(locked) + [id]
      ensures Elems(locked) == Elems(old(locked)) + {id}
    {
      locked := locked + [id];
      v := Of(id);
    }

    /** AddSecret: copy src into a buffer of the bundle's own. */
    method AddSecret(src: string, ghost base: nat, ghost others: set<nat>) returns (v: View)
      requires Shares(base, others)
      modifies this`locked, mem
      ensures Shares(base, others) && Bytes(v, mem.slots) == src && ViewsOnly(v, Elems(locked))
      ensures old(mem.slots) <= mem.slots && Elems(old(locked)) <= Elems(locked)
      ensures v == if src == "" then Empty else Of(|old(mem.slots)|)
    {
      if src == "" { return Empty; }
      ghost var own := Elems(locked) + others;
      var id := mem.NewCopy(src);
      OwnedSnoc(old(mem.slots), base, own, Live(src));
      v := Track(id);
      assert Elems(locked) + others == own + {id};
    }

    /** Destroy: free every owned buffer and drop every view. */
    method Destroy()
      requires mem.Counted() && forall id <- locked :: id < |mem.slots|
      modifies this, mem`slots, mem`live
      ensures mem.Counted()
      ensures |mem.slots| == |old(mem.slots)|
      ensures forall i :: 0 <= i < |mem.slots| ==>
                mem.slots[i] == if i in old(locked) then Freed else old(mem.slots)[i]
      ensures locked == [] && pointers == old(pointers) && manifest == old(manifest)
      ensures (forall f <- files :: f.data == Nil) && (forall e <- env :: e.value == Nil)
      ensures |files| == |old(files)| && |env| == |old(env)|
    {
      for i := 0 to |locked|
        invariant mem.Counted() && |mem.slots| == |old(mem.slots)| && locked == old(locked)
        invariant files == old(files) && env == old(env) && pointers == old(pointers) && manifest == old(manifest)
        invariant forall k :: 0 <= k < |mem.slots| ==>
                    mem.slots[k] == if k in locked[..i] then Freed else old(mem.slots)[k]
      {
        assert locked[i] in locked;
        mem.Destroy(locked[i]);
        assert locked[..i + 1] == locked[..i] + [locked[i]];
      }
      assert locked[..|locked|] == locked;
      locked := [];
      ghost var freed := mem.slots;
      for i := 0 to |files|
        invariant mem.Counted() && mem.slots == freed && locked == [] && pointers == old(pointers)
                  && manifest == old(manifest)
        invariant env == old(env)
        invariant |files| == |old(files)| && forall k :: 0 <= k < i ==> files[k].data == Nil
      {
        files := files[i := files[i].(data := Nil)];
      }
      for i := 0 to |env|
        invariant mem.Counted() && mem.slots == freed && locked == [] && pointers == old(pointers)
                  && manifest == old(manifest)
        invariant |files| == |old(files)| && forall f <- files :: f.data == Nil
        invariant |env| == |old(env)| && forall k :: 0 <= k < i ==> env[k].value == Nil
      {
        env := env[i := env[i].(value := Nil)];
      }
    }
  }

  /** Bytes already owned read the same after more slots are added. */
  lemma StableValues(fs: seq<File>, es: seq<EnvVar>, own: set<nat>, before: seq<Slot>, after: seq<Slot>)
    requires forall f <- fs :: ViewsOnly(f.data, own)
    requires forall e <- es :: ViewsOnly(e.value, own)
    requires |before| <= |after| && forall i <- own :: i < |before| && after[i] == before[i]
    ensures FileValues(fs, after) == FileValues(fs, before)
    ensures EnvValues(es, after) == EnvValues(es, before)
  {
    forall f | f in fs ensures FileValue(f, after) == FileValue(f, before) {}
    forall e | e in es ensures EnvValue(e, after) == EnvValue(e, before) {}
  }

  /** A connection being read: everything the peer will ever send, and how far the reader has got. */
  class Reader {
    const data: string
    var pos: nat
    ghost const mem: Memory  // whose count of bytes taken in this reader advances

    constructor (data: string, ghost mem: Memory)
      ensures this.data == data && pos == 0 && this.mem == mem
    {
      this.data := data;
      this.mem := mem;
      pos := 0;
    }

    predicate Valid() reads this { pos <= |data| }

    function Rest(): string
      reads this
      requires Valid()
    {
      data[pos..]
    }

    /** io.ReadFull of n bytes. */
    method ReadFull(n: nat) returns (res: Result<string, Error>)
      requires Valid()
      modifies this`pos, mem`read
      ensures Valid() && old(pos) <= pos && mem.read - pos == old(mem.read - pos)
      ensures Took(Get(old(Rest()), n), res, this)
      ensures res.Ok? ==> pos == old(pos) + n
    {
      if |data| - pos < n {
        mem.read := mem.read + |data| - pos;
        pos := |data|;
        return Err(Truncated);
      }
      assert data[pos..pos + n] == data[pos..][..n] && data[pos + n..] == data[pos..][n..];
      res := Ok(data[pos..pos + n]);
      pos := pos + n;
      mem.read := mem.read + n;
    }

    method ReadU32() returns (res: Result<nat, Error>)
      requires Valid()
      modifies this`pos, mem`read
      ensures Valid() && old(pos) <= pos && mem.read - pos == old(mem.read - pos)
      ensures Took(GetU32(old(Rest())), res, this)
    {
      var h :- ReadFull(4);
      res := Ok(U32(h));
    }

    method ReadU16String() returns (res: Result<string, Error>)
      requires Valid()
      modifies this`pos, mem`read
      ensures Valid() && old(pos) <= pos && mem.read - pos == old(mem.read - pos)
      ensures Took(Get16(old(Rest())), res, this)
    {
      var h :- ReadFull(2);
      res := ReadFull(U16(h));
    }

    method ReadU32Plain() returns (res: Result<string, Error>)
      requires Valid()
      modifies this`pos, mem`read
      ensures Valid() && old(pos) <= pos && mem.read - pos == old(mem.read - pos)
      ensures Took(Get32(old(Rest())), res, this)
    {
      var n :- ReadU32();
      if n > MAX_FIELD { return Err(TooLong); }
      res := ReadFull(n);
    }
  }

  /** The reader did what `want` says: same value and rest on success, same error otherwise. */
  ghost predicate Took<T>(want: Result<(T, string), Error>, got: Result<T, Error>, r: Reader)
    reads r
    requires r.Valid()
  {
    match want
    case Ok((x, t)) => got == Ok(x) && r.Rest() == t
    case Err(e) => got == Err(e)
  }

  /**
    * Locked bytes are paid for by bytes taken in: `ahead` is what live was above read at the start. They may run ahead
    * of it by one field, and never have by more at any moment since.
    */
  ghost predicate Paid(ahead: int, mem: Memory)
    reads mem
  {
    mem.live - mem.read <= ahead && mem.lead <= ahead + MAX_FIELD
  }

  /** readU32Locked after its length: n bytes off the connection, straight into a locked buffer. */
  method ReadLocked(r: Reader, n: nat, mem: Memory) returns (res: Result<nat, Error>)
    requires r.Valid() && mem.Counted() && r.mem == mem
    modifies r`pos, mem
    ensures r.Valid() && old(r.pos) <= r.pos && mem.Counted() && mem.read - r.pos == old(mem.read - r.pos)
    ensures match Get(old(r.Rest()), n)
            case Ok((p, t)) => res == Ok(|old(mem.slots)|) && mem.slots == old(mem.slots) + [Live(p)] && r.Rest() == t
            case Err(e) => res == Err(e) && mem.slots == old(mem.slots) + [Freed]
    ensures forall ahead :: old(Paid(ahead, mem)) && n <= MAX_FIELD ==> Paid(ahead, mem)
  {
    var id := mem.NewBuffer(n);
    var got := r.ReadFull(n);
    if got.Err? {
      mem.Destroy(id);
      return Err(got.error);
    }
    mem.Fill(id, got.value);
    res := Ok(id);
  }

  /** readU32Locked: a secret field, its buffer tracked by the bundle; on error no buffer of the field stays live. */
  method ReadU32Locked(r: Reader, b: Bundle, ghost base: nat) returns (res: Result<View, Error>)
    requires r.Valid() && b.Valid(base) && r.mem == b.mem
    modifies r`pos, b`locked, b.mem
    ensures r.Valid() && old(r.pos) <= r.pos && b.Valid(base) && b.mem.read - r.pos == old(b.mem.read - r.pos)
    ensures old(b.mem.slots) <= b.mem.slots && Elems(old(b.locked)) <= Elems(b.locked)
    ensures match Get32(old(r.Rest()))
            case Ok((p, t)) => res.Ok? && Bytes(res.value, b.mem.slots) == p && r.Rest() == t
                               && ViewsOnly(res.value, Elems(b.locked)) && (p == "" <==> res.value == Empty)
            case Err(e) => res == Err(e) && b.locked == old(b.locked)
    ensures forall ahead :: old(Paid(ahead, b.mem)) ==> Paid(ahead, b.mem)
  {
    var n :- r.ReadU32();
    if n > MAX_FIELD { return Err(TooLong); }
    if n == 0 { return Ok(Empty); }
    ghost var s0, own := b.mem.slots, Elems(b.locked);
    var got := ReadLocked(r, n, b.mem);
    OwnedSnoc(s0, base, own, b.mem.slots[|s0|]);
    if got.Err? { return Err(got.error); }
    var v := b.Track(got.value);
    res := Ok(v);
  }

  /** A run of entries read one after another: `spots` are the rests of the stream between them. */
  ghost predicate Chain<T>(get: string -> Result<(T, string), Error>, xs: seq<T>, spots: seq<string>) {
    |spots| == |xs| + 1 && forall k :: 0 <= k < |xs| ==> get(spots[k]) == Ok((xs[k], spots[k + 1]))
  }

  lemma {:induction false} ChainReads<T>(n: nat, get: string -> Result<(T, string), Error>, xs: seq<T>,
                                         spots: seq<string>)
    requires Chain(get, xs, spots) && |xs| <= n
    ensures |xs| == n ==> GetMany(n, get, spots[0]) == Ok((xs, spots[n]))
    ensures |xs| < n && get(spots[|xs|]).Err? ==> GetMany(n, get, spots[0]) == Err(get(spots[|xs|]).error)
  {
    if xs != [] {
      assert Chain(get, xs[1..], spots[1..]) by {
        assert forall k :: 0 <= k < |xs| - 1 ==> xs[1..][k] == xs[k + 1] && spots[1..][k] == spots[k + 1];
      }
      ChainReads(n - 1, get, xs[1..], spots[1..]);
      assert [xs[0]] + xs[1..] == xs;
    }
  }

  lemma ChainSnoc<T>(get: string -> Result<(T, string), Error>, xs: seq<T>, spots: seq<string>, x: T, next: string)
    requires Chain(get, xs, spots) && get(spots[|xs|]) == Ok((x, next))
    ensures Chain(get, xs + [x], spots + [next])
  {
  }

  /**
    * The memory and the connection as they were when decoding began: ahead is live above read, offset read above pos.
    */
  datatype Start = Start(slots: seq<Slot>, pos: nat, ahead: int, offset: int)

  /** Everything decoding keeps true of the bundle and the memory it grows into. */
  ghost predicate Decoding(r: Reader, b: Bundle, at: Start)
    reads r, b, b.mem
  {
    && r.mem == b.mem && r.Valid() && at.pos <= r.pos && b.mem.read - r.pos == at.offset
    && b.Valid(|at.slots|) && at.slots <= b.mem.slots
    && Paid(at.ahead, b.mem)
  }

  method ReadNames(r: Reader) returns (res: Result<(string, string, string), Error>)
    requires r.Valid()
    modifies r`pos, r.mem`read
    ensures r.Valid() && old(r.pos) <= r.pos && r.mem.read - r.pos == old(r.mem.read - r.pos)
    ensures Took(GetNames(old(r.Rest())), res, r)
  {
    var path :- r.ReadU16String();
    var owner :- r.ReadU16String();
    var mode :- r.ReadU16String();
    res := Ok((path, owner, mode));
  }

  /** The fields of one file, its data in a buffer of the bundle. */
  method ReadFileFields(r: Reader, b: Bundle, ghost at: Start) returns (res: Result<File, Error>)
    requires Decoding(r, b, at)
    modifies r`pos, b`locked, b.mem
    ensures Decoding(r, b, at) && FileValues(b.files, b.mem.slots) == FileValues(b.files, old(b.mem.slots))
    ensures match GetFile(old(r.Rest()))
            case Ok((f, t)) => res.Ok? && r.Rest() == t && FileValue(res.value, b.mem.slots) == f
                               && ViewsOnly(res.value.data, Elems(b.locked))
            case Err(e) => res == Err(e)
  {
    ghost var slots0, own := b.mem.slots, Elems(b.locked);
    var names :- ReadNames(r);
    var data := ReadU32Locked(r, b, |at.slots|);
    StableValues(b.files, [], own, slots0, b.mem.slots);
    if data.Err? { return Err(data.error); }
    res := Ok(File(names.0, names.1, names.2, data.value));
  }

  /** b.Files = append(b.Files, f), f's data being the bundle's own. */
  method AppendFile(b: Bundle, f: File, ghost base: nat)
    requires b.Valid(base) && ViewsOnly(f.data, Elems(b.locked))
    modifies b`files
    ensures b.Valid(base)
    ensures FileValues(b.files, b.mem.slots) == FileValues(old(b.files), b.mem.slots) + [FileValue(f, b.mem.slots)]
  {
    b.files := b.files + [f];
  }

  /** One turn of the file loop of decodeBundle. */
  method DecodeFile(r: Reader, b: Bundle, ghost at: Start) returns (res: Result<(), Error>)
    requires Decoding(r, b, at)
    modifies r`pos, b`locked, b`files, b.mem
    ensures Decoding(r, b, at)
    ensures match GetFile(old(r.Rest()))
            case Ok((f, t)) =>
              res.Ok? && r.Rest() == t
              && FileValues(b.files, b.mem.slots) == FileValues(old(b.files), old(b.mem.slots)) + [f]
            case Err(e) => res == Err(e)
  {
    var f := ReadFileFields(r, b, at);
    if f.Err? { return Err(f.error); }
    AppendFile(b, f.value, |at.slots|);
    res := Ok(());
  }

  /** One turn of the env loop of decodeBundle; the files already read stay as they are. */
  method DecodeEnv(r: Reader, b: Bundle, ghost at: Start) returns (res: Result<(), Error>)
    requires Decoding(r, b, at)
    modifies r`pos, b`locked, b`env, b.mem
    ensures Decoding(r, b, at)
    ensures FileValues(b.files, b.mem.slots) == FileValues(b.files, old(b.mem.slots))
    ensures match GetEnv(old(r.Rest()))
            case Ok((e, t)) =>
              res.Ok? && r.Rest() == t
              && EnvValues(b.env, b.mem.slots) == EnvValues(old(b.env), old(b.mem.slots)) + [e]
            case Err(e) => res == Err(e)
  {
    ghost var slots0, own := b.mem.slots, Elems(b.locked);
    var name :- r.ReadU16String();
    var value := ReadU32Locked(r, b, |at.slots|);
    StableValues(b.files, b.env, own, slots0, b.mem.slots);
    if value.Err? { return Err(value.error); }
    b.env := b.env + [EnvVar(name, value.value)];
    res := Ok(());
  }

  /** The file loop of decodeBundle, its count already read. */
  method DecodeFiles(r: Reader, b: Bundle, n: nat, ghost at: Start) returns (res: Result<(), Error>)
    requires Decoding(r, b, at) && b.files == []
    modifies r`pos, b`locked, b`files, b.mem
    ensures Decoding(r, b, at)
    ensures match GetMany(n, GetFile, old(r.Rest()))
            case Ok((fs, t)) => res.Ok? && FileValues(b.files, b.mem.slots) == fs && r.Rest() == t
            case Err(e) => res == Err(e)
  {
    ghost var start := r.Rest();
    ghost var spots := [start];
    for i := 0 to n
      invariant Decoding(r, b, at) && |b.files| == i
      invariant Chain(GetFile, FileValues(b.files, b.mem.slots), spots) && spots[0] == start && spots[i] == r.Rest()
    {
      ghost var done := FileValues(b.files, b.mem.slots);
      var turn := DecodeFile(r, b, at);
      if turn.Err? {
        ChainReads(n, GetFile, done, spots);
        return turn;
      }
      ChainSnoc(GetFile, done, spots, FileValues(b.files, b.mem.slots)[i], r.Rest());
      spots := spots + [r.Rest()];
    }
    ChainReads(n, GetFile, FileValues(b.files, b.mem.slots), spots);
    res := Ok(());
  }

  /** The env loop of decodeBundle, its count already read. */
  method DecodeEnvs(r: Reader, b: Bundle, n: nat, ghost at: Start) returns (res: Result<(), Error>)
    requires Decoding(r, b, at) && b.env == []
    modifies r`pos, b`locked, b`env, b.mem
    ensures Decoding(r, b, at)
    ensures FileValues(b.files, b.mem.slots) == FileValues(b.files, old(b.mem.slots))
    ensures match GetMany(n, GetEnv, old(r.Rest()))
            case Ok((es, t)) => res.Ok? && EnvValues(b.env, b.mem.slots) == es && r.Rest() == t
            case Err(e) => res == Err(e)
  {
    ghost var start := r.Rest();
    ghost var spots := [start];
    for i := 0 to n
      invariant Decoding(r, b, at) && |b.env| == i
      invariant FileValues(b.files, b.mem.slots) == FileValues(b.files, old(b.mem.slots))
      invariant Chain(GetEnv, EnvValues(b.env, b.mem.slots), spots) && spots[0] == start && spots[i] == r.Rest()
    {
      ghost var done := EnvValues(b.env, b.mem.slots);
      var turn := DecodeEnv(r, b, at);
      if turn.Err? {
        ChainReads(n, GetEnv, done, spots);
        return turn;
      }
      ChainSnoc(GetEnv, done, spots, EnvValues(b.env, b.mem.slots)[i], r.Rest());
      spots := spots + [r.Rest()];
    }
    ChainReads(n, GetEnv, EnvValues(b.env, b.mem.slots), spots);
    res := Ok(());
  }

  method ReadPointer(r: Reader) returns (res: Result<Pointer, Error>)
    requires r.Valid()
    modifies r`pos, r.mem`read
    ensures r.Valid() && old(r.pos) <= r.pos && r.mem.read - r.pos == old(r.mem.read - r.pos)
    ensures Took(GetPointer(old(r.Rest())), res, r)
  {
    var name :- r.ReadU16String();
    var path :- r.ReadU16String();
    res := Ok(Pointer(name, path));
  }

  /** The pointer loop of decodeBundle; pointers hold no secret. */
  method DecodePointers(r: Reader) returns (res: Result<seq<Pointer>, Error>)
    requires r.Valid()
    modifies r`pos, r.mem`read
    ensures r.Valid() && old(r.pos) <= r.pos && r.mem.read - r.pos == old(r.mem.read - r.pos)
    ensures Took(GetCounted(GetPointer, old(r.Rest())), res, r)
  {
    var n :- r.ReadU32();
    var ps := [];
    ghost var start := r.Rest();
    ghost var spots := [start];
    for i := 0 to n
      invariant r.Valid() && old(r.pos) <= r.pos && |ps| == i && r.mem.read - r.pos == old(r.mem.read - r.pos)
      invariant Chain(GetPointer, ps, spots) && spots[0] == start && spots[i] == r.Rest()
    {
      var p := ReadPointer(r);
      if p.Err? {
        ChainReads(n, GetPointer, ps, spots);
        return Err(p.error);
      }
      ps := ps + [p.value];
      spots := spots + [r.Rest()];
    }
    ChainReads(n, GetPointer, ps, spots);
    res := Ok(ps);
  }

  /** The file section of decodeBundle: its count, then that many files. */
  method DecodeFileSection(r: Reader, b: Bundle, ghost at: Start) returns (res: Result<(), Error>)
    requires Decoding(r, b, at) && b.files == []
    modifies r`pos, b`locked, b`files, b.mem
    ensures Decoding(r, b, at)
    ensures match GetCounted(GetFile, old(r.Rest()))
            case Ok((fs, t)) => res.Ok? && FileValues(b.files, b.mem.slots) == fs && r.Rest() == t
            case Err(e) => res == Err(e)
  {
    var n :- r.ReadU32();
    res := DecodeFiles(r, b, n, at);
  }

  /** The environment section. */
  method DecodeEnvSection(r: Reader, b: Bundle, ghost at: Start) returns (res: Result<(), Error>)
    requires Decoding(r, b, at) && b.env == []
    modifies r`pos, b`locked, b`env, b.mem
    ensures Decoding(r, b, at)
    ensures FileValues(b.files, b.mem.slots) == FileValues(b.files, old(b.mem.slots))
    ensures match GetCounted(GetEnv, old(r.Rest()))
            case Ok((es, t)) => res.Ok? && EnvValues(b.env, b.mem.slots) == es && r.Rest() == t
            case Err(e) => res == Err(e)
  {
    var n :- r.ReadU32();
    res := DecodeEnvs(r, b, n, at);
  }

  /** decodeBundle before its deferred cleanup. */
  method DecodeBody(r: Reader, b: Bundle, ghost at: Start) returns (res: Result<(), Error>)
    requires Decoding(r, b, at)
    requires b.files == [] && b.env == [] && b.pointers == []
    modifies r`pos, b, b.mem
    ensures Decoding(r, b, at)
    ensures match GetBundle(old(r.Rest()))
            case Ok((v, t)) => res.Ok? && b.Value() == v && r.Rest() == t
            case Err(e) => res == Err(e)
  {
    var _ :- DecodeFileSection(r, b, at);
    var _ :- DecodeEnvSection(r, b, at);
    var ps :- DecodePointers(r);
    b.pointers := ps;
    var m :- r.ReadU32Plain();
    b.manifest := m;
    res := Ok(());
  }

  /**
    * decodeBundle. On success the bundle's buffers are the only new live ones; on any malformed field none is left
    * live. At no moment are more new bytes live than the reader has taken in by then, plus one capped field: that is
    * what `lead`, started here, measures.
    */
  method DecodeBundle(r: Reader, mem: Memory) returns (res: Result<Bundle, Error>)
    requires r.Valid() && mem.Counted() && r.mem == mem
    modifies r`pos, mem
    ensures r.Valid() && mem.Counted() && Kept(old(mem.slots), mem.slots, |old(mem.slots)|)
    ensures match GetBundle(old(r.Rest()))
            case Ok((v, t)) => res.Ok? && fresh(res.value) && res.value.mem == mem && res.value.Value() == v
                               && res.value.Valid(|old(mem.slots)|) && r.Rest() == t
            case Err(e) => res == Err(e) && NothingStranded(old(mem.slots), mem.slots) && mem.live == old(mem.live)
    ensures old(r.pos) <= r.pos && mem.read - r.pos == old(mem.read - r.pos)
    ensures Paid(old(mem.live - mem.read), mem)
  {
    mem.StartLead();
    ghost var before := mem.slots;
    ghost var at := Start(mem.slots, r.pos, mem.live - mem.read, mem.read - r.pos);
    var b := new Bundle(mem);
    var done := DecodeBody(r, b, at);
    if done.Err? {
      assert forall id <- b.locked :: id in Elems(b.locked);
      b.Destroy();
      LiveBytesFreed(mem.slots, |before|, |mem.slots|);
      LiveUpToSame(mem.slots, before, |before|);
      return Err(done.error);
    }
    res := Ok(b);
  }

  /** ReadResponse. */
  method ReadResponse(r: Reader, mem: Memory) returns (res: Result<Bundle, Error>)
    requires r.Valid() && mem.Counted() && r.mem == mem
    modifies r`pos, mem
    ensures r.Valid() && mem.Counted() && Kept(old(mem.slots), mem.slots, |old(mem.slots)|)
    ensures match GetResponse(old(r.Rest()))
            case Ok((v, t)) => res.Ok? && fresh(res.value) && res.value.mem == mem && res.value.Value() == v
                               && res.value.Valid(|old(mem.slots)|) && r.Rest() == t
            case Err(e) => res == Err(e) && NothingStranded(old(mem.slots), mem.slots) && mem.live == old(mem.live)
    ensures Paid(old(mem.live - mem.read), mem)
  {
    mem.StartLead();
    var h :- r.ReadFull(2);
    if h[0] != VERSION { return Err(BadVersion); }
    if h[1] == MSG_ERROR {
      var reason :- r.ReadU16String();
      return Err(Refused(reason));
    }
    if h[1] != MSG_BUNDLE { return Err(BadType); }
    res := DecodeBundle(r, mem);
  }

  /** A connection being written. */
  class Writer {
    var out: string

    constructor ()
      ensures out == ""
    {
      out := "";
    }

    method WriteU32(n: nat)
      modifies this
      ensures out == old(out) + Be32(n % TWO_32)
    {
      out := out + Be32(n % TWO_32);
    }

    /** writeU16Bytes: refused when the length, narrowed to uint32, is above 0xffff. */
    method WriteU16Bytes(p: string) returns (ok: bool)
      modifies this
      ensures ok == Narrow(p) && out == if ok then old(out) + Put16(p) else old(out)
    {
      var n := |p| % TWO_32;
      if n > 0xffff { return false; }
      assert n == |p| % 0x1_0000;
      out := out + Be16(n);
      out := out + p;
      assert old(out) + Be16(n) + p == old(out) + Put16(p);
      ok := true;
    }

    method WriteU32Bytes(p: string)
      modifies this
      ensures out == old(out) + Put32(p)
    {
      WriteU32(|p|);
      out := out + p;
      assert old(out) + Be32(|p| % TWO_32) + p == old(out) + Put32(p);
    }
  }

  /** One more entry written after the first i. */
  lemma PutOneMore<T>(o: string, xs: seq<T>, i: nat, put: T -> string)
    requires i < |xs|
    ensures o + PutMany(xs[..i], put) + put(xs[i]) == o + PutMany(xs[..i + 1], put)
  {
    assert xs[..i + 1] == xs[..i] + [xs[i]];
    PutManySnoc(xs[..i], xs[i], put);
    Cat2(o, PutMany(xs[..i], put), put(xs[i]));
  }

  lemma {:induction false} PutManySnoc<T>(xs: seq<T>, x: T, put: T -> string)
    ensures PutMany(xs + [x], put) == PutMany(xs, put) + put(x)
  {
    if xs == [] {
      assert [x][1..] == [];
    } else {
      assert (xs + [x])[1..] == xs[1..] + [x];
      PutManySnoc(xs[1..], x, put);
      Cat2(put(xs[0]), PutMany(xs[1..], put), put(x));
    }
  }

  method EncodeFile(w: Writer, f: FileV) returns (ok: bool)
    modifies w
    ensures ok == (Narrow(f.path) && Narrow(f.owner) && Narrow(f.mode))
    ensures ok ==> w.out == old(w.out) + PutFile(f)
  {
    ghost var o := w.out;
    ok := w.WriteU16Bytes(f.path);
    if !ok { return; }
    ok := w.WriteU16Bytes(f.owner);
    if !ok { return; }
    ok := w.WriteU16Bytes(f.mode);
    if !ok { return; }
    w.WriteU32Bytes(f.data);
    Cat4(o, Put16(f.path), Put16(f.owner), Put16(f.mode), Put32(f.data));
    Cat3(Put16(f.path), Put16(f.owner), Put16(f.mode), Put32(f.data));
  }

  method EncodeVar(w: Writer, e: EnvV) returns (ok: bool)
    modifies w
    ensures ok == Narrow(e.name) && (ok ==> w.out == old(w.out) + PutEnv(e))
  {
    ok := w.WriteU16Bytes(e.name);
    if !ok { return; }
    w.WriteU32Bytes(e.value);
    Cat2(old(w.out), Put16(e.name), Put32(e.value));
  }

  method EncodePointer(w: Writer, p: Pointer) returns (ok: bool)
    modifies w
    ensures ok == (Narrow(p.name) && Narrow(p.path)) && (ok ==> w.out == old(w.out) + PutPointer(p))
  {
    ok := w.WriteU16Bytes(p.name);
    if !ok { return; }
    ok := w.WriteU16Bytes(p.path);
    Cat2(old(w.out), Put16(p.name), Put16(p.path));
  }

  method EncodeFiles(w: Writer, fs: seq<FileV>) returns (ok: bool)
    modifies w
    ensures ok == forall f <- fs :: Narrow(f.path) && Narrow(f.owner) && Narrow(f.mode)
    ensures ok ==> w.out == old(w.out) + PutCounted(fs, PutFile)
  {
    w.WriteU32(|fs|);
    ghost var head := w.out;
    for i := 0 to |fs|
      invariant forall f <- fs[..i] :: Narrow(f.path) && Narrow(f.owner) && Narrow(f.mode)
      invariant w.out == head + PutMany(fs[..i], PutFile)
    {
      ok := EncodeFile(w, fs[i]);
      if !ok { return; }
      PutOneMore(head, fs, i, PutFile);
    }
    assert fs[..|fs|] == fs;
    Cat2(old(w.out), Be32(|fs| % TWO_32), PutMany(fs, PutFile));
    ok := true;
  }

  method EncodeEnv(w: Writer, es: seq<EnvV>) returns (ok: bool)
    modifies w
    ensures ok == forall e <- es :: Narrow(e.name)
    ensures ok ==> w.out == old(w.out) + PutCounted(es, PutEnv)
  {
    w.WriteU32(|es|);
    ghost var head := w.out;
    for i := 0 to |es|
      invariant forall e <- es[..i] :: Narrow(e.name)
      invariant w.out == head + PutMany(es[..i], PutEnv)
    {
      ok := EncodeVar(w, es[i]);
      if !ok { return; }
      PutOneMore(head, es, i, PutEnv);
    }
    assert es[..|es|] == es;
    Cat2(old(w.out), Be32(|es| % TWO_32), PutMany(es, PutEnv));
    ok := true;
  }

  method EncodePointers(w: Writer, ps: seq<Pointer>) returns (ok: bool)
    modifies w
    ensures ok == forall p <- ps :: Narrow(p.name) && Narrow(p.path)
    ensures ok ==> w.out == old(w.out) + PutCounted(ps, PutPointer)
  {
    w.WriteU32(|ps|);
    ghost var head := w.out;
    for i := 0 to |ps|
      invariant forall p <- ps[..i] :: Narrow(p.name) && Narrow(p.path)
      invariant w.out == head + PutMany(ps[..i], PutPointer)
    {
      ok := EncodePointer(w, ps[i]);
      if !ok { return; }
      PutOneMore(head, ps, i, PutPointer);
    }
    assert ps[..|ps|] == ps;
    Cat2(old(w.out), Be32(|ps| % TWO_32), PutMany(ps, PutPointer));
    ok := true;
  }

  /** EncodeBundle: no error exactly when every name passes its length check, and then exactly the bundle's frame. */
  method EncodeBundle(w: Writer, b: Bundle) returns (ok: bool)
    modifies w
    ensures ok == Encodable(b.Value())
    ensures ok ==> w.out == old(w.out) + PutResponse(b.Value())
  {
    var v := b.Value();
    ghost var o := w.out;
    w.out := w.out + [VERSION, MSG_BUNDLE];
    ok := EncodeFiles(w, v.files);
    if !ok { return; }
    ok := EncodeEnv(w, v.env);
    if !ok { return; }
    ok := EncodePointers(w, v.pointers);
    if !ok { return; }
    w.WriteU32Bytes(v.manifest);
    Sections(o, v);
  }

  lemma Sections(o: string, v: BundleV)
    ensures o + [VERSION, MSG_BUNDLE] + PutCounted(v.files, PutFile) + PutCounted(v.env, PutEnv)
            + PutCounted(v.pointers, PutPointer) + Put32(v.manifest) == o + PutResponse(v)
  {
    var f, e, p := PutCounted(v.files, PutFile), PutCounted(v.env, PutEnv), PutCounted(v.pointers, PutPointer);
    Cat4(o + [VERSION, MSG_BUNDLE], f, e, p, Put32(v.manifest));
    Cat3(f, e, p, Put32(v.manifest));
    Cat2(o, [VERSION, MSG_BUNDLE], PutBundle(v));
  }

  /** writeStringMap past its count: keys collected in any order, sorted, and written. */
  method WritePairs(w: Writer, m: map<string, string>) returns (ok: bool)
    modifies w
    ensures ok == forall k <- m.Keys :: Narrow(k) && Narrow(m[k])
    ensures ok ==> w.out == old(w.out) + PutMany(Hook.SortedPairs(m), Hook.PutAnnotation)
  {
    var keys := SortNames(m.Keys);
    assert forall k :: k in keys <==> k in Elems(keys);
    ghost var pairs := Hook.SortedPairs(m);
    for i := 0 to |keys|
      invariant forall k <- keys[..i] :: Narrow(k) && Narrow(m[k])
      invariant w.out == old(w.out) + PutMany(pairs[..i], Hook.PutAnnotation)
    {
      assert pairs[i] == Hook.Annotation(keys[i], m[keys[i]]);
      ok := WritePair(w, keys[i], m[keys[i]]);
      if !ok { return; }
      PutOneMore(old(w.out), pairs, i, Hook.PutAnnotation);
    }
    assert pairs[..|keys|] == pairs;
    ok := true;
  }

  method WritePair(w: Writer, k: string, v: string) returns (ok: bool)
    modifies w
    ensures ok == (Narrow(k) && Narrow(v))
    ensures ok ==> w.out == old(w.out) + Hook.PutAnnotation(Hook.Annotation(k, v))
  {
    ok := w.WriteU16Bytes(k);
    if !ok { return; }
    ok := w.WriteU16Bytes(v);
    Cat2(old(w.out), Put16(k), Put16(v));
  }

  /** WriteHookRequest: one frame per id and map, whatever order the map is ranged in. */
  method WriteHookRequest(w: Writer, id: string, m: map<string, string>) returns (ok: bool)
    modifies w
    ensures ok == Hook.HookEncodable(id, m)
    ensures ok ==> w.out == old(w.out) + Hook.PutHook(id, m)
  {
    if id == "" { return false; }
    ghost var o, h, c := w.out, [VERSION, MSG_HOOK], Be16(|m| % 0x1_0000);
    w.out := w.out + [VERSION, MSG_HOOK];
    ok := w.WriteU16Bytes(id);
    if !ok { return; }
    if |m| > 0xffff { return false; }
    Hook.NoWrap16(|m|);
    w.out := w.out + Be16(|m|);
    ok := WritePairs(w, m);
    if !ok { return; }
    Cat4(o, h, Put16(id), c, PutMany(Hook.SortedPairs(m), Hook.PutAnnotation));
    Cat3(h, Put16(id), c, PutMany(Hook.SortedPairs(m), Hook.PutAnnotation));
  }

  method ReadPair(r: Reader) returns (res: Result<Hook.Annotation, Error>)
    requires r.Valid()
    modifies r`pos, r.mem`read
    ensures r.Valid()
    ensures Took(Hook.GetAnnotation(old(r.Rest())), res, r)
  {
    var k :- r.ReadU16String();
    var v :- r.ReadU16String();
    res := Ok(Hook.Annotation(k, v));
  }

  /** readStringMap: each pair overwrites an earlier one with its key. */
  method ReadStringMap(r: Reader) returns (res: Result<map<string, string>, Error>)
    requires r.Valid()
    modifies r`pos, r.mem`read
    ensures r.Valid()
    ensures Took(Hook.GetMap(old(r.Rest())), res, r)
  {
    var h :- r.ReadFull(2);
    var n := U16(h);
    var m: map<string, string> := map[];
    ghost var got: seq<Hook.Annotation> := [];
    ghost var start := r.Rest();
    ghost var spots := [start];
    for i := 0 to n
      invariant r.Valid() && |got| == i && m == Hook.MapOf(got)
      invariant Chain(Hook.GetAnnotation, got, spots) && spots[0] == start && spots[i] == r.Rest()
    {
      var a := ReadPair(r);
      if a.Err? {
        ChainReads(n, Hook.GetAnnotation, got, spots);
        return Err(a.error);
      }
      m := m[a.value.key := a.value.value];
      Hook.MapOfOneMore(got, a.value);
      got := got + [a.value];
      spots := spots + [r.Rest()];
    }
    ChainReads(n, Hook.GetAnnotation, got, spots);
    res := Ok(m);
  }

  /** ReadHookBody. */
  method ReadHookBody(r: Reader) returns (res: Result<(string, map<string, string>), Error>)
    requires r.Valid()
    modifies r`pos, r.mem`read
    ensures r.Valid()
    ensures Took(Hook.GetHookBody(old(r.Rest())), res, r)
  {
    var id :- r.ReadU16String();
    if id == "" { return Err(EmptyId); }
    var m :- ReadStringMap(r);
    res := Ok((id, m));
  }
}
