/** The client-fetch handler: a plan turned into a bundle whose every secret sits in the bundle's own locked memory. */
module BuildBundle {
  import opened Prelude
  import opened Sorting
  import opened LockedMemory
  import opened Wire
  import opened WireStream
  import opened Dotenv
  import opened SopsAge
  import opened Plans

  // ---- what the bundle should hold ----

  /** The secret a file target names. */
  function Secret(store: Store, t: FileTarget): Result<string, Failure> {
    var src :- Opened(store, t.source);
    if t.whole then PayloadOf(src) else ValueOf(src, t.key)
  }

  function FileItem(store: Store, t: FileTarget): Result<FileV, Failure> {
    var data :- Secret(store, t);
    Ok(FileV(t.path, t.owner, t.mode, data))
  }

  function PointerOf(t: FileTarget): seq<Pointer> {
    if t.pointerVar == "" then [] else [Pointer(t.pointerVar, t.path)]
  }

  /** The dotenv text of the listed keys, each looked up in turn. */
  function DotenvText(src: Source, keys: seq<string>): Result<string, Failure> {
    if keys == [] then Ok("")
    else
      var v :- ValueOf(src, keys[0]);
      var rest :- DotenvText(src, keys[1..]);
      Ok(keys[0] + "=" + v + "\n" + rest)
  }

  /** One file per key, under the render's directory. */
  function EnvdirItem(src: Source, t: RenderTarget, key: string): Result<FileV, Failure> {
    var v :- ValueOf(src, key);
    Ok(FileV(t.path + "/" + key, t.owner, t.mode, v))
  }

  function RenderItems(store: Store, t: RenderTarget): Result<seq<FileV>, Failure> {
    var src :- Opened(store, t.source);
    RenderOf(src, t)
  }

  function RenderOf(src: Source, t: RenderTarget): Result<seq<FileV>, Failure> {
    var keys :- KeysOf(src);
    if t.kind == RENDER_DOTENV then
      var text :- DotenvText(src, keys);
      Ok([FileV(t.path, t.owner, t.mode, text)])
    else if t.kind == RENDER_ENVDIR then Collect(Map((k: string) => EnvdirItem(src, t, k), keys))
    else Err(BadRenderKind)
  }

  function EnvAllItem(src: Source, key: string): Result<EnvV, Failure> {
    var v :- ValueOf(src, key);
    Ok(EnvV(key, v))
  }

  function EnvItems(store: Store, t: EnvTarget): Result<seq<EnvV>, Failure> {
    var src :- Opened(store, t.source);
    EnvOf(src, t)
  }

  function EnvOf(src: Source, t: EnvTarget): Result<seq<EnvV>, Failure> {
    if t.all then
      var keys :- KeysOf(src);
      Collect(Map((k: string) => EnvAllItem(src, k), keys))
    else
      var v :- ValueOf(src, t.key);
      Ok([EnvV(if t.varName == "" then t.key else t.varName, v)])
  }

  /**
    * The scope check and the env gate, then files, renders, env and manifest, or the first failure met in that order.
    */
  function BundleOf(caller: string, p: Plan, store: Store, generated: string, codec: Codec): Result<BundleV, Failure> {
    if caller != "" && p.service != "" && caller != p.service then Err(ScopeMismatch)
    else if p.env != [] && !EnvAllowed(p.mechanism) then Err(EnvRefused)
    else Contents(p, store, generated, codec)
  }

  function Contents(p: Plan, store: Store, generated: string, codec: Codec): Result<BundleV, Failure> {
    var files :- Collect(Map((t: FileTarget) => FileItem(store, t), p.files));
    var renders :- Collect(Map((t: RenderTarget) => RenderItems(store, t), p.renders));
    var env :- Collect(Map((t: EnvTarget) => EnvItems(store, t), p.env));
    var m :- ManifestOf(p, store, generated);
    Ok(BundleV(files + Concat(renders), Concat(env), Concat(Map(PointerOf, p.files)), codec.marshal(m)))
  }

  /** A dotenv render of a source whose keys can be listed always succeeds, and is the source's rendered text. */
  lemma DotenvTextIsRender(src: Source)
    requires KeysOf(src).Ok?
    ensures DotenvText(src, KeysOf(src).value) == Render(src.plain.value)
  {
    var es := Parse(Lines(src.plain.value)).value;
    TextOfKeys(src, es, Looked(es));
    assert KeysIn(Looked(es)) == KeysIn(es);
  }

  lemma {:induction false} TextOfKeys(src: Source, es: seq<Entry>, ls: seq<Entry>)
    requires KeysOf(src).Ok? && es == Parse(Lines(src.plain.value)).value
    requires forall l <- ls :: l.key in KeysIn(es) && l.value == Lookup(es, l.key)
    ensures DotenvText(src, KeysIn(ls)) == Ok(Rendered(ls))
  {
    if ls != [] {
      ListedKeysRead(src, ls[0].key);
      TextOfKeys(src, es, ls[1..]);
      assert KeysIn(ls)[1..] == KeysIn(ls[1..]);
    }
  }

  lemma {:induction false} DotenvTextSnoc(src: Source, keys: seq<string>, i: nat)
    requires i < |keys|
    ensures DotenvText(src, keys[..i]).Ok? && ValueOf(src, keys[i]).Err? ==>
              DotenvText(src, keys) == Err(ValueOf(src, keys[i]).error)
    ensures DotenvText(src, keys[..i]).Ok? && ValueOf(src, keys[i]).Ok? ==>
              DotenvText(src, keys[..i + 1]) ==
              Ok(DotenvText(src, keys[..i]).value + keys[i] + "=" + ValueOf(src, keys[i]).value + "\n")
  {
    if i == 0 {
      assert keys[..1][1..] == [] && keys[..1] == [keys[0]] && keys[..0] == [];
      if ValueOf(src, keys[0]).Ok? {
        var k, v := keys[0], ValueOf(src, keys[0]).value;
        assert "" + k + "=" + v + "\n" == k + "=" + v + "\n" + "";
      }
    } else {
      assert keys[..i][1..] == keys[1..][..i - 1] && keys[..i + 1][1..] == keys[1..][..i];
      DotenvTextSnoc(src, keys[1..], i - 1);
      var a, b := DotenvText(src, keys[..i]), DotenvText(src, keys[1..][..i - 1]);
      if a.Ok? && ValueOf(src, keys[i]).Ok? {
        var head, tail := keys[0] + "=" + ValueOf(src, keys[0]).value + "\n", b.value;
        var k, v := keys[i], ValueOf(src, keys[i]).value;
        assert head + (tail + k + "=" + v + "\n") == head + tail + k + "=" + v + "\n";
      }
    }
  }

  lemma ConcatSnocAfter<T>(head: seq<T>, xs: seq<seq<T>>, x: seq<T>)
    ensures head + Concat(xs + [x]) == head + Concat(xs) + x
  {
    ConcatSnoc(xs, x);
  }

  // ---- building it ----

  method OpenSource(store: Store, name: string, mem: Memory) returns (res: Result<Handle, Failure>)
    ensures match Opened(store, name)
            case Ok(src) => res.Ok? && fresh(res.value) && res.value.src == src && res.value.mem == mem
                            && res.value.retained == []
            case Err(e) => res == Err(e)
  {
    var src :- Opened(store, name);
    var h := new Handle(src, mem);
    res := Ok(h);
  }

  /** After a read through a handle, the bundle still holds exactly its own buffers besides the handle's. */
  lemma StillShares(b: Bundle, base: nat, before: seq<Slot>, kept: seq<nat>, now: seq<nat>)
    requires b.mem.Counted() && Retains(before, b.mem.slots, kept, now)
    requires Owned(before, base, Elems(b.locked) + Elems(kept)) && Elems(b.locked) !! Elems(kept)
    requires forall f <- b.files :: ViewsOnly(f.data, Elems(b.locked))
    requires forall e <- b.env :: ViewsOnly(e.value, Elems(b.locked))
    ensures b.Shares(base, Elems(now))
    ensures FileValues(b.files, b.mem.slots) == FileValues(b.files, before)
    ensures EnvValues(b.env, b.mem.slots) == EnvValues(b.env, before)
  {
    var live := Elems(now[|kept|..]);
    OwnedExtends(before, b.mem.slots, base, Elems(b.locked) + Elems(kept), live);
    assert now == kept + now[|kept|..];
    assert Elems(now) == Elems(kept) + live;
    assert Elems(b.locked) + Elems(kept) + live == Elems(b.locked) + Elems(now);
    StableValues(b.files, b.env, Elems(b.locked), before, b.mem.slots);
  }

  /** One value read through the handle and copied into the bundle's memory. */
  method TakeValue(b: Bundle, h: Handle, key: string, ghost base: nat) returns (res: Result<View, Failure>)
    requires h.mem == b.mem && b.Shares(base, Elems(h.retained))
    modifies b`locked, b.mem, h`retained
    ensures b.Shares(base, Elems(h.retained)) && old(b.mem.slots) <= b.mem.slots && b.Value() == old(b.Value())
    ensures match ValueOf(h.src, key)
            case Ok(v) => res.Ok? && Bytes(res.value, b.mem.slots) == v && ViewsOnly(res.value, Elems(b.locked))
            case Err(e) => res == Err(e)
  {
    var raw := h.Value(key);
    StillShares(b, base, old(b.mem.slots), old(h.retained), h.retained);
    if raw.Err? { return Err(raw.error); }
    ghost var slots0, own := b.mem.slots, Elems(b.locked);
    var v := b.AddSecret(Bytes(raw.value, b.mem.slots), base, Elems(h.retained));
    StableValues(b.files, b.env, own, slots0, b.mem.slots);
    res := Ok(v);
  }

  /** The deferred op.Close(): the handle's buffers go, the bundle's stay. */
  method Finish(b: Bundle, h: Handle, ghost base: nat)
    requires h.mem == b.mem && b.Shares(base, Elems(h.retained))
    modifies b.mem`slots, b.mem`live, h`retained
    ensures b.Valid(base) && b.Value() == old(b.Value()) && Kept(old(b.mem.slots), b.mem.slots, base)
  {
    assert forall id <- h.retained :: id in Elems(h.retained);
    h.Close();
    assert forall i :: 0 <= i < |b.mem.slots| && b.mem.slots[i] != old(b.mem.slots)[i] ==> i in Elems(old(h.retained));
    StableValues(b.files, b.env, Elems(b.locked), old(b.mem.slots), b.mem.slots);
  }

  /** addFile. */
  method AddFile(b: Bundle, store: Store, t: FileTarget, ghost base: nat) returns (res: Result<(), Failure>)
    requires b.Valid(base)
    modifies b`files, b`pointers, b`locked, b.mem
    ensures b.Valid(base) && Kept(old(b.mem.slots), b.mem.slots, base)
    ensures match FileItem(store, t)
            case Ok(f) => res.Ok? && b.Value() == old(b.Value()).(files := old(b.Value()).files + [f],
                                                                   pointers := old(b.pointers) + PointerOf(t))
            case Err(e) => res == Err(e) && b.Value() == old(b.Value())
  {
    var h :- OpenSource(store, t.source, b.mem);
    res := ReadFile(b, h, t, base);
    Finish(b, h, base);
  }

  method ReadFile(b: Bundle, h: Handle, t: FileTarget, ghost base: nat) returns (res: Result<(), Failure>)
    requires h.mem == b.mem && h.retained == [] && b.Valid(base)
    modifies b`files, b`pointers, b`locked, b.mem, h`retained
    ensures b.Shares(base, Elems(h.retained)) && Kept(old(b.mem.slots), b.mem.slots, base)
    ensures match (if t.whole then PayloadOf(h.src) else ValueOf(h.src, t.key))
            case Ok(v) => res.Ok? && b.Value() == old(b.Value()).(
                            files := old(b.Value()).files + [FileV(t.path, t.owner, t.mode, v)],
                            pointers := old(b.pointers) + PointerOf(t))
            case Err(e) => res == Err(e) && b.Value() == old(b.Value())
  {
    assert Elems(b.locked) + Elems(h.retained) == Elems(b.locked);
    var v: View;
    if t.whole {
      v :- TakePayload(b, h, base);
    } else {
      v :- TakeValue(b, h, t.key, base);
    }
    b.files := b.files + [File(t.path, t.owner, t.mode, v)];
    if t.pointerVar != "" { b.pointers := b.pointers + [Pointer(t.pointerVar, t.path)]; }
    assert b.Value().files == old(b.Value()).files + [FileV(t.path, t.owner, t.mode, Bytes(v, b.mem.slots))];
    res := Ok(());
  }

  method TakePayload(b: Bundle, h: Handle, ghost base: nat) returns (res: Result<View, Failure>)
    requires h.mem == b.mem && b.Shares(base, Elems(h.retained))
    modifies b`locked, b.mem, h`retained
    ensures b.Shares(base, Elems(h.retained)) && old(b.mem.slots) <= b.mem.slots && b.Value() == old(b.Value())
    ensures match PayloadOf(h.src)
            case Ok(v) => res.Ok? && Bytes(res.value, b.mem.slots) == v && ViewsOnly(res.value, Elems(b.locked))
            case Err(e) => res == Err(e)
  {
    var raw := h.Payload();
    StillShares(b, base, old(b.mem.slots), old(h.retained), h.retained);
    if raw.Err? { return Err(raw.error); }
    ghost var slots0, own := b.mem.slots, Elems(b.locked);
    var v := b.AddSecret(Bytes(raw.value, b.mem.slots), base, Elems(h.retained));
    StableValues(b.files, b.env, own, slots0, b.mem.slots);
    res := Ok(v);
  }

  /** memguard.Stream: what has been sealed into it and not yet flushed. */
  class Stream {
    const mem: Memory
    var sealed: string

    constructor (mem: Memory)
      ensures this.mem == mem && sealed == ""
    {
      this.mem := mem;
      sealed := "";
    }

    method Write(p: string)
      modifies this
      ensures sealed == old(sealed) + p
    {
      sealed := sealed + p;
    }

    /** Flush: everything written so far, in one fresh locked buffer. */
    method Flush() returns (id: nat)
      requires mem.Counted()
      modifies this, mem
      ensures mem.Counted() && sealed == "" && id == |old(mem.slots)|
      ensures mem.slots == old(mem.slots) + [Live(old(sealed))]
    {
      id := mem.NewCopy(sealed);
      sealed := "";
    }

    /** drainStream: flush and destroy, so that nothing written is left anywhere. */
    method Drain()
      requires mem.Counted()
      modifies this, mem
      ensures mem.Counted() && sealed == "" && mem.slots == old(mem.slots) + [Freed]
    {
      var id := Flush();
      mem.Destroy(id);
    }
  }

  /** One more slot that is already free changes nothing for the bundle. */
  lemma FreedSlot(b: Bundle, base: nat, others: set<nat>, before: seq<Slot>)
    requires b.mem.Counted() && b.mem.slots == before + [Freed]
    requires Owned(before, base, Elems(b.locked) + others) && Elems(b.locked) !! others
    requires forall f <- b.files :: ViewsOnly(f.data, Elems(b.locked))
    requires forall e <- b.env :: ViewsOnly(e.value, Elems(b.locked))
    ensures b.Shares(base, others)
    ensures FileValues(b.files, b.mem.slots) == FileValues(b.files, before)
    ensures EnvValues(b.env, b.mem.slots) == EnvValues(b.env, before)
  {
    OwnedSnoc(before, base, Elems(b.locked) + others, Freed);
    StableValues(b.files, b.env, Elems(b.locked), before, b.mem.slots);
  }

  /** The key loop of the dotenv render: each value goes from the handle into the stream. */
  method SealValues(b: Bundle, h: Handle, keys: seq<string>, stream: Stream, ghost base: nat)
    returns (res: Result<(), Failure>)
    requires h.mem == b.mem && stream.mem == b.mem && b.Shares(base, Elems(h.retained)) && stream.sealed == ""
    modifies b.mem, h`retained, stream
    ensures b.Shares(base, Elems(h.retained)) && old(b.mem.slots) <= b.mem.slots && b.Value() == old(b.Value())
    ensures match DotenvText(h.src, keys)
            case Ok(text) => res.Ok? && stream.sealed == text
            case Err(e) => res == Err(e)
  {
    assert keys[..0] == [];
    for i := 0 to |keys|
      invariant b.Shares(base, Elems(h.retained)) && old(b.mem.slots) <= b.mem.slots && b.Value() == old(b.Value())
      invariant DotenvText(h.src, keys[..i]) == Ok(stream.sealed)
    {
      DotenvTextSnoc(h.src, keys, i);
      ghost var slots0, kept := b.mem.slots, h.retained;
      var v := h.Value(keys[i]);
      StillShares(b, base, slots0, kept, h.retained);
      if v.Err? { return Err(v.error); }
      assert stream.sealed + (keys[i] + "=") == stream.sealed + keys[i] + "=";
      stream.Write(keys[i] + "=");
      stream.Write(Bytes(v.value, b.mem.slots));
      stream.Write("\n");
    }
    assert keys[..|keys|] == keys;
    res := Ok(());
  }

  /** The dotenv case of addRender: the stream is flushed into one buffer, copied, and destroyed. */
  method ReadDotenv(b: Bundle, h: Handle, keys: seq<string>, t: RenderTarget, ghost base: nat)
    returns (res: Result<(), Failure>)
    requires h.mem == b.mem && b.Shares(base, Elems(h.retained))
    modifies b`files, b`locked, b.mem, h`retained
    ensures b.Shares(base, Elems(h.retained)) && Kept(old(b.mem.slots), b.mem.slots, |old(b.mem.slots)|)
    ensures match DotenvText(h.src, keys)
            case Ok(text) => res.Ok? && b.Value() == old(b.Value()).(
                               files := old(b.Value()).files + [FileV(t.path, t.owner, t.mode, text)])
            case Err(e) => res == Err(e)
  {
    var stream := new Stream(b.mem);
    var sealed := SealValues(b, h, keys, stream, base);
    ghost var slots0, kept := b.mem.slots, Elems(h.retained);
    if sealed.Err? {
      stream.Drain();
      FreedSlot(b, base, kept, slots0);
      return sealed;
    }
    var id := stream.Flush();
    OwnedSnoc(slots0, base, Elems(b.locked) + kept, b.mem.slots[id]);
    assert Elems(b.locked) + kept + {id} == Elems(b.locked) + (kept + {id});
    StableValues(b.files, b.env, Elems(b.locked), slots0, b.mem.slots);
    AddRendered(b, id, t, base, kept);
    res := Ok(());
  }

  /** Copy the flushed buffer into the bundle, then destroy it. */
  method AddRendered(b: Bundle, id: nat, t: RenderTarget, ghost base: nat, ghost kept: set<nat>)
    requires b.Shares(base, kept + {id}) && id !in kept && b.mem.slots[id].Live?
    modifies b`files, b`locked, b.mem
    ensures b.Shares(base, kept) && Kept(old(b.mem.slots), b.mem.slots, id)
    ensures b.Value() == old(b.Value()).(
                           files := old(b.Value()).files + [FileV(t.path, t.owner, t.mode, old(b.mem.slots)[id].bytes)])
  {
    ghost var slots0, own := b.mem.slots, Elems(b.locked);
    var v := b.AddSecret(Bytes(Of(id), b.mem.slots), base, kept + {id});
    StableValues(b.files, b.env, own, slots0, b.mem.slots);
    b.files := b.files + [File(t.path, t.owner, t.mode, v)];
    assert b.Value().files == old(b.Value()).files + [FileV(t.path, t.owner, t.mode, slots0[id].bytes)];
    ghost var slots1 := b.mem.slots;
    b.mem.Destroy(id);
    StableValues(b.files, b.env, Elems(b.locked), slots1, b.mem.slots);
  }

  /** One file of an envdir render. */
  method TakeKeyFile(b: Bundle, h: Handle, key: string, t: RenderTarget, ghost base: nat)
    returns (res: Result<(), Failure>)
    requires h.mem == b.mem && b.Shares(base, Elems(h.retained))
    modifies b`files, b`locked, b.mem, h`retained
    ensures b.Shares(base, Elems(h.retained)) && old(b.mem.slots) <= b.mem.slots
    ensures match EnvdirItem(h.src, t, key)
            case Ok(f) => res.Ok? && b.Value() == old(b.Value()).(files := old(b.Value()).files + [f])
            case Err(e) => res == Err(e)
  {
    var v :- TakeValue(b, h, key, base);
    b.files := b.files + [File(t.path + "/" + key, t.owner, t.mode, v)];
    assert b.Value().files
        == old(b.Value()).files + [FileV(t.path + "/" + key, t.owner, t.mode, Bytes(v, b.mem.slots))];
    res := Ok(());
  }

  /** The envdir case of addRender: one file per key. */
  method ReadEnvdir(b: Bundle, h: Handle, keys: seq<string>, t: RenderTarget, ghost base: nat)
    returns (res: Result<(), Failure>)
    requires h.mem == b.mem && b.Shares(base, Elems(h.retained))
    modifies b`files, b`locked, b.mem, h`retained
    ensures b.Shares(base, Elems(h.retained)) && old(b.mem.slots) <= b.mem.slots
    ensures match Collect(Map((k: string) => EnvdirItem(h.src, t, k), keys))
            case Ok(fs) => res.Ok? && b.Value() == old(b.Value()).(files := old(b.Value()).files + fs)
            case Err(e) => res == Err(e)
  {
    ghost var was := b.Value();
    ghost var item := (k: string) => EnvdirItem(h.src, t, k);
    ghost var got: seq<FileV> := [];
    assert keys[..0] == [] && Map(item, []) == [] && was.files + [] == was.files;
    for i := 0 to |keys|
      invariant b.Shares(base, Elems(h.retained)) && old(b.mem.slots) <= b.mem.slots
      invariant Collect(Map(item, keys[..i])) == Ok(got) && b.Value() == was.(files := was.files + got)
    {
      CollectStep(item, keys, i, got);
      var _ :- TakeKeyFile(b, h, keys[i], t, base);
      assert was.files + got + [item(keys[i]).value] == was.files + (got + [item(keys[i]).value]);
      got := got + [item(keys[i]).value];
    }
    assert keys[..|keys|] == keys;
    res := Ok(());
  }

  /** addRender. */
  method AddRender(b: Bundle, store: Store, t: RenderTarget, ghost base: nat) returns (res: Result<(), Failure>)
    requires b.Valid(base)
    modifies b`files, b`locked, b.mem
    ensures b.Valid(base) && Kept(old(b.mem.slots), b.mem.slots, base)
    ensures match RenderItems(store, t)
            case Ok(fs) => res.Ok? && b.Value() == old(b.Value()).(files := old(b.Value()).files + fs)
            case Err(e) => res == Err(e)
  {
    var h :- OpenSource(store, t.source, b.mem);
    res := ReadRender(b, h, t, base);
    Finish(b, h, base);
  }

  method ReadRender(b: Bundle, h: Handle, t: RenderTarget, ghost base: nat) returns (res: Result<(), Failure>)
    requires h.mem == b.mem && h.retained == [] && b.Valid(base)
    modifies b`files, b`locked, b.mem, h`retained
    ensures b.Shares(base, Elems(h.retained)) && Kept(old(b.mem.slots), b.mem.slots, base)
    ensures match RenderOf(h.src, t)
            case Ok(fs) => res.Ok? && b.Value() == old(b.Value()).(files := old(b.Value()).files + fs)
            case Err(e) => res == Err(e)
  {
    assert Elems(b.locked) + Elems(h.retained) == Elems(b.locked);
    var keys := h.Keys();
    RetainsNone(old(b.mem.slots), b.mem.slots, h.retained);
    StillShares(b, base, old(b.mem.slots), h.retained, h.retained);
    if keys.Err? { return Err(keys.error); }
    if t.kind == RENDER_DOTENV {
      res := ReadDotenv(b, h, keys.value, t, base);
    } else if t.kind == RENDER_ENVDIR {
      res := ReadEnvdir(b, h, keys.value, t, base);
    } else {
      res := Err(BadRenderKind);
    }
  }

  /** One variable of an env expansion. */
  method TakeKeyVar(b: Bundle, h: Handle, key: string, ghost base: nat) returns (res: Result<(), Failure>)
    requires h.mem == b.mem && b.Shares(base, Elems(h.retained))
    modifies b`env, b`locked, b.mem, h`retained
    ensures b.Shares(base, Elems(h.retained)) && old(b.mem.slots) <= b.mem.slots
    ensures match EnvAllItem(h.src, key)
            case Ok(e) => res.Ok? && b.Value() == old(b.Value()).(env := old(b.Value()).env + [e])
            case Err(e) => res == Err(e)
  {
    var v :- TakeValue(b, h, key, base);
    b.env := b.env + [EnvVar(key, v)];
    assert b.Value().env == old(b.Value()).env + [EnvV(key, Bytes(v, b.mem.slots))];
    res := Ok(());
  }

  /** addEnv's expansion of the all sentinel: one variable per key, named for it. */
  method ReadEnvAll(b: Bundle, h: Handle, keys: seq<string>, ghost base: nat) returns (res: Result<(), Failure>)
    requires h.mem == b.mem && b.Shares(base, Elems(h.retained))
    modifies b`env, b`locked, b.mem, h`retained
    ensures b.Shares(base, Elems(h.retained)) && old(b.mem.slots) <= b.mem.slots
    ensures match Collect(Map((k: string) => EnvAllItem(h.src, k), keys))
            case Ok(es) => res.Ok? && b.Value() == old(b.Value()).(env := old(b.Value()).env + es)
            case Err(e) => res == Err(e)
  {
    ghost var was := b.Value();
    ghost var item := (k: string) => EnvAllItem(h.src, k);
    ghost var got: seq<EnvV> := [];
    assert keys[..0] == [] && Map(item, []) == [] && was.env + [] == was.env;
    for i := 0 to |keys|
      invariant b.Shares(base, Elems(h.retained)) && old(b.mem.slots) <= b.mem.slots
      invariant Collect(Map(item, keys[..i])) == Ok(got) && b.Value() == was.(env := was.env + got)
    {
      CollectStep(item, keys, i, got);
      var _ :- TakeKeyVar(b, h, keys[i], base);
      assert was.env + got + [item(keys[i]).value] == was.env + (got + [item(keys[i]).value]);
      got := got + [item(keys[i]).value];
    }
    assert keys[..|keys|] == keys;
    res := Ok(());
  }

  /** addEnv. */
  method AddEnv(b: Bundle, store: Store, t: EnvTarget, ghost base: nat) returns (res: Result<(), Failure>)
    requires b.Valid(base)
    modifies b`env, b`locked, b.mem
    ensures b.Valid(base) && Kept(old(b.mem.slots), b.mem.slots, base)
    ensures match EnvItems(store, t)
            case Ok(es) => res.Ok? && b.Value() == old(b.Value()).(env := old(b.Value()).env + es)
            case Err(e) => res == Err(e)
  {
    var h :- OpenSource(store, t.source, b.mem);
    res := ReadEnv(b, h, t, base);
    Finish(b, h, base);
  }

  method ReadEnv(b: Bundle, h: Handle, t: EnvTarget, ghost base: nat) returns (res: Result<(), Failure>)
    requires h.mem == b.mem && h.retained == [] && b.Valid(base)
    modifies b`env, b`locked, b.mem, h`retained
    ensures b.Shares(base, Elems(h.retained)) && Kept(old(b.mem.slots), b.mem.slots, base)
    ensures match EnvOf(h.src, t)
            case Ok(es) => res.Ok? && b.Value() == old(b.Value()).(env := old(b.Value()).env + es)
            case Err(e) => res == Err(e)
  {
    assert Elems(b.locked) + Elems(h.retained) == Elems(b.locked);
    if t.all {
      var keys := h.Keys();
      RetainsNone(old(b.mem.slots), b.mem.slots, h.retained);
      StillShares(b, base, old(b.mem.slots), h.retained, h.retained);
      if keys.Err? { return Err(keys.error); }
      res := ReadEnvAll(b, h, keys.value, base);
      return;
    }
    var v :- TakeValue(b, h, t.key, base);
    var name := t.varName;
    if name == "" { name := t.key; }
    b.env := b.env + [EnvVar(name, v)];
    assert b.Value().env == old(b.Value()).env + [EnvV(name, Bytes(v, b.mem.slots))];
    res := Ok(());
  }

  /** The file loop of BuildBundle. */
  method FillFiles(b: Bundle, files: seq<FileTarget>, store: Store, ghost base: nat) returns (res: Result<(), Failure>)
    requires b.Valid(base) && b.Value() == BundleV([], [], [], "")
    modifies b, b.mem
    ensures b.Valid(base) && Kept(old(b.mem.slots), b.mem.slots, base)
    ensures match Collect(Map((t: FileTarget) => FileItem(store, t), files))
            case Ok(fs) => res.Ok? && b.Value() == BundleV(fs, [], Concat(Map(PointerOf, files)), "")
            case Err(e) => res == Err(e)
  {
    ghost var file := (t: FileTarget) => FileItem(store, t);
    ghost var fs: seq<FileV> := [];
    assert files[..0] == [] && Map(file, []) == [] && Map(PointerOf, []) == [];
    for i := 0 to |files|
      invariant b.Valid(base) && Kept(old(b.mem.slots), b.mem.slots, base)
      invariant Collect(Map(file, files[..i])) == Ok(fs)
      invariant b.Value() == BundleV(fs, [], Concat(Map(PointerOf, files[..i])), "")
    {
      CollectStep(file, files, i, fs);
      assert Map(PointerOf, files[..i + 1]) == Map(PointerOf, files[..i]) + [PointerOf(files[i])];
      ConcatSnoc(Map(PointerOf, files[..i]), PointerOf(files[i]));
      var _ :- AddFile(b, store, files[i], base);
      fs := fs + [file(files[i]).value];
    }
    assert files[..|files|] == files;
    res := Ok(());
  }

  /** The render loop of BuildBundle. */
  method FillRenders(b: Bundle, renders: seq<RenderTarget>, store: Store, ghost base: nat)
    returns (res: Result<(), Failure>)
    requires b.Valid(base)
    modifies b, b.mem
    ensures b.Valid(base) && Kept(old(b.mem.slots), b.mem.slots, base)
    ensures match Collect(Map((t: RenderTarget) => RenderItems(store, t), renders))
            case Ok(rs) => res.Ok? && b.Value() == old(b.Value()).(files := old(b.Value()).files + Concat(rs))
            case Err(e) => res == Err(e)
  {
    ghost var was := b.Value();
    ghost var render := (t: RenderTarget) => RenderItems(store, t);
    ghost var rs: seq<seq<FileV>> := [];
    assert renders[..0] == [] && Map(render, []) == [] && was.files + [] == was.files;
    for i := 0 to |renders|
      invariant b.Valid(base) && Kept(old(b.mem.slots), b.mem.slots, base)
      invariant Collect(Map(render, renders[..i])) == Ok(rs) && b.Value() == was.(files := was.files + Concat(rs))
    {
      CollectStep(render, renders, i, rs);
      var _ :- AddRender(b, store, renders[i], base);
      ghost var r := render(renders[i]).value;
      ConcatSnocAfter(was.files, rs, r);
      rs := rs + [r];
    }
    assert renders[..|renders|] == renders;
    res := Ok(());
  }

  /** The env loop of BuildBundle. */
  method FillEnv(b: Bundle, env: seq<EnvTarget>, store: Store, ghost base: nat) returns (res: Result<(), Failure>)
    requires b.Valid(base) && b.env == []
    modifies b, b.mem
    ensures b.Valid(base) && Kept(old(b.mem.slots), b.mem.slots, base)
    ensures match Collect(Map((t: EnvTarget) => EnvItems(store, t), env))
            case Ok(es) => res.Ok? && b.Value() == old(b.Value()).(env := Concat(es))
            case Err(e) => res == Err(e)
  {
    ghost var was := b.Value();
    ghost var item := (t: EnvTarget) => EnvItems(store, t);
    ghost var es: seq<seq<EnvV>> := [];
    assert env[..0] == [] && Map(item, []) == [];
    for i := 0 to |env|
      invariant b.Valid(base) && Kept(old(b.mem.slots), b.mem.slots, base)
      invariant Collect(Map(item, env[..i])) == Ok(es) && b.Value() == was.(env := Concat(es))
    {
      CollectStep(item, env, i, es);
      var _ :- AddEnv(b, store, env[i], base);
      ghost var e := item(env[i]).value;
      ConcatSnoc(es, e);
      es := es + [e];
    }
    assert env[..|env|] == env;
    res := Ok(());
  }

  /** BuildBundle before its deferred cleanup. */
  method Fill(b: Bundle, p: Plan, store: Store, generated: string, codec: Codec, ghost base: nat)
    returns (res: Result<(), Failure>)
    requires b.Valid(base) && b.Value() == BundleV([], [], [], "")
    modifies b, b.mem
    ensures b.Valid(base) && Kept(old(b.mem.slots), b.mem.slots, base)
    ensures match Contents(p, store, generated, codec)
            case Ok(v) => res.Ok? && b.Value() == v
            case Err(e) => res == Err(e)
  {
    var _ :- FillFiles(b, p.files, store, base);
    var _ :- FillRenders(b, p.renders, store, base);
    assert |b.env| == |b.Value().env|;
    var _ :- FillEnv(b, p.env, store, base);
    var hasher := new Hasher(store);
    var m :- BuildManifest(p, hasher, generated);
    b.manifest := codec.marshal(m);
    res := Ok(());
  }

  /**
    * BuildBundle. Whatever step fails, no buffer allocated on the way is left live; on success the bundle's own buffers
    * are the only live ones, and its secrets are readable although every handle and stream is gone.
    */
  method Build(caller: string, p: Plan, store: Store, generated: string, codec: Codec, mem: Memory)
    returns (res: Result<Bundle, Failure>)
    requires mem.Counted()
    modifies mem
    ensures mem.Counted() && Kept(old(mem.slots), mem.slots, |old(mem.slots)|)
    ensures match BundleOf(caller, p, store, generated, codec)
            case Ok(v) => res.Ok? && fresh(res.value) && res.value.mem == mem && res.value.Value() == v
                          && res.value.Valid(|old(mem.slots)|)
            case Err(e) => res == Err(e) && NothingStranded(old(mem.slots), mem.slots)
  {
    if caller != "" && p.service != "" && caller != p.service { return Err(ScopeMismatch); }
    if |p.env| > 0 && !EnvAllowed(p.mechanism) { return Err(EnvRefused); }
    var b := new Bundle(mem);
    var filled := Fill(b, p, store, generated, codec, |mem.slots|);
    if filled.Err? {
      assert forall id <- b.locked :: id in Elems(b.locked);
      b.Destroy();
      return Err(filled.error);
    }
    res := Ok(b);
  }
}
