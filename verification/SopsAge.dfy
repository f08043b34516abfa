/** Sources, and the SOPS/age handle over one: every read decrypts afresh and cleans up after itself. */
module SopsAge {
  import opened Prelude
  import opened Sorting
  import opened LockedMemory
  import opened Dotenv

  const DOTENV := "dotenv"
  const BINARY := "binary"

  /** One sealed source during one injection: `plain` is None when sops fails, `hash` when the file cannot be read. */
  datatype Source = Source(format: string, opens: bool, plain: Option<string>, hash: Option<string>)

  type Store = map<string, Source>

  predicate ValidFormat(format: string) { format == DOTENV || format == BINARY }

  function Opened(store: Store, name: string): Result<Source, Failure> {
    if name in store && ValidFormat(store[name].format) && store[name].opens then Ok(store[name]) else Err(NoSource)
  }

  function HashOf(store: Store, name: string): Result<string, Failure> {
    if name in store && store[name].hash.Some? then Ok(store[name].hash.value) else Err(NoHash)
  }

  /** The plaintext a read in the given format sees. */
  function Plain(src: Source, format: string): Result<string, Failure> {
    if src.format != format then Err(WrongFormat)
    else if src.plain.None? then Err(Decrypt)
    else Ok(src.plain.value)
  }

  function KeysOf(src: Source): Result<seq<string>, Failure> {
    var text :- Plain(src, DOTENV);
    var es :- Parse(Lines(text));
    Ok(KeysIn(es))
  }

  function ValueOf(src: Source, key: string): Result<string, Failure> {
    var text :- Plain(src, DOTENV);
    var found :- FindIn(Lines(text), key);
    if found.None? then Err(NoSuchKey) else Ok(found.value)
  }

  function PayloadOf(src: Source): Result<string, Failure> { Plain(src, BINARY) }

  /** The value of every listed key can be read: a render cannot fail on a lookup. */
  lemma ListedKeysRead(src: Source, key: string)
    requires KeysOf(src).Ok? && key in KeysOf(src).value
    ensures ValueOf(src, key) == Ok(Lookup(Parse(Lines(src.plain.value)).value, key))
  {
    FindWhenParsed(Lines(src.plain.value), key);
  }

  /** An empty plaintext reads as no keys at all, which is how the handle treats its missing buffer. */
  lemma EmptyText(key: string)
    ensures Parse(Lines("")) == Ok([]) && FindIn(Lines(""), key) == Ok(None)
  {
    assert Lines("") == [""];
    ParseOne("");
    assert [""][1..] == [];
  }

  /** sopsAgeOpened: it holds no plaintext but the buffers behind values it has returned. */
  class Handle {
    const src: Source
    const mem: Memory
    var retained: seq<nat>

    constructor (src: Source, mem: Memory)
      ensures this.src == src && this.mem == mem && retained == []
    {
      this.src, this.mem := src, mem;
      retained := [];
    }

    /** captureDecrypt: one transit page, destroyed; then the plaintext in one buffer, or none when it is empty. */
    method CaptureDecrypt() returns (res: Result<Option<nat>, Failure>)
      requires mem.Counted()
      modifies mem
      ensures mem.Counted()
      ensures src.plain.None? ==> res == Err(Decrypt) && Extends(old(mem.slots), mem.slots, {})
      ensures src.plain == Some("") ==> res == Ok(None) && Extends(old(mem.slots), mem.slots, {})
      ensures src.plain.Some? && src.plain.value != "" ==>
                res.Ok? && res.value.Some? && Extends(old(mem.slots), mem.slots, {res.value.value})
                && mem.slots[res.value.value] == Live(src.plain.value)
    {
      var transit := mem.NewBuffer(4096);
      mem.Destroy(transit);
      if src.plain.None? { return Err(Decrypt); }
      var buf := mem.NewCopy(src.plain.value);
      if |src.plain.value| == 0 {
        mem.Destroy(buf);
        return Ok(None);
      }
      res := Ok(Some(buf));
    }

    /** Keys: names only, so the buffer is destroyed before returning. */
    method Keys() returns (res: Result<seq<string>, Failure>)
      requires mem.Counted()
      modifies mem
      ensures mem.Counted() && res == KeysOf(src) && Extends(old(mem.slots), mem.slots, {})
    {
      if src.format != DOTENV { return Err(WrongFormat); }
      EmptyText("");
      var buf :- CaptureDecrypt();
      if buf.None? { return Ok([]); }
      res := DotenvKeys(Bytes(Of(buf.value), mem.slots));
      mem.Destroy(buf.value);
    }

    /** copyLocked: a buffer of its own for one value, kept for Close; none for an empty value. */
    method CopyLocked(data: string) returns (v: View)
      requires mem.Counted()
      modifies mem, this`retained
      ensures mem.Counted() && Bytes(v, mem.slots) == data
      ensures if data == "" then v == Empty && mem.slots == old(mem.slots) && retained == old(retained)
              else v == Of(|old(mem.slots)|) && mem.slots == old(mem.slots) + [Live(data)]
                   && retained == old(retained) + [|old(mem.slots)|]
    {
      if data == "" { return Empty; }
      var id := mem.NewCopy(data);
      retained := retained + [id];
      v := Of(id);
    }

    /** Where the value of a key lies in a fresh whole-source buffer; no buffer is left when there is none. */
    method Locate(key: string) returns (res: Result<(nat, Range), Failure>)
      requires mem.Counted()
      modifies mem
      ensures mem.Counted()
      ensures match ValueOf(src, key)
              case Err(e) => res == Err(e) && Extends(old(mem.slots), mem.slots, {})
              case Ok(v) => res.Ok? && var (id, at) := res.value;
                            && Extends(old(mem.slots), mem.slots, {id}) && mem.slots[id].Live?
                            && at.lo <= at.hi <= |mem.slots[id].bytes| && mem.slots[id].bytes[at.lo..at.hi] == v
    {
      if src.format != DOTENV { return Err(WrongFormat); }
      EmptyText(key);
      var buf :- CaptureDecrypt();
      if buf.None? { return Err(NoSuchKey); }
      var found := DotenvFind(Bytes(Of(buf.value), mem.slots), key);
      if found.Err? || found.value.None? {
        mem.Destroy(buf.value);
        return if found.Err? then Err(found.error) else Err(NoSuchKey);
      }
      res := Ok((buf.value, found.value.value));
    }

    /** Value: the one value copied into a buffer of its own before the whole-source buffer is destroyed. */
    method Value(key: string) returns (res: Result<View, Failure>)
      requires mem.Counted()
      modifies mem, this`retained
      ensures mem.Counted()
      ensures match ValueOf(src, key)
              case Ok(v) => res.Ok? && Bytes(res.value, mem.slots) == v && (res.value.Of? ==> res.value.id in retained)
              case Err(e) => res == Err(e)
      ensures Retains(old(mem.slots), mem.slots, old(retained), retained)
    {
      var found := Locate(key);
      if found.Err? {
        RetainsNone(old(mem.slots), mem.slots, retained);
        return Err(found.error);
      }
      var (id, at) := found.value;
      var v := CopyLocked(mem.slots[id].bytes[at.lo..at.hi]);
      mem.Destroy(id);
      if retained == old(retained) { RetainsNone(old(mem.slots), mem.slots, retained); }
      res := Ok(v);
    }

    /** WriteValue: the bytes written to the destination, straight from the whole-source buffer. */
    method WriteValue(key: string) returns (res: Result<string, Failure>)
      requires mem.Counted()
      modifies mem
      ensures mem.Counted() && res == ValueOf(src, key) && Extends(old(mem.slots), mem.slots, {})
    {
      var found :- Locate(key);
      var (id, at) := found;
      res := Ok(mem.slots[id].bytes[at.lo..at.hi]);
      mem.Destroy(id);
    }

    /** Payload: the whole-source buffer itself is kept for Close. */
    method Payload() returns (res: Result<View, Failure>)
      requires mem.Counted()
      modifies mem, this`retained
      ensures mem.Counted()
      ensures match PayloadOf(src)
              case Ok(v) => res.Ok? && Bytes(res.value, mem.slots) == v && (res.value.Of? ==> res.value.id in retained)
              case Err(e) => res == Err(e)
      ensures Retains(old(mem.slots), mem.slots, old(retained), retained)
    {
      Unchanged(mem.slots, retained);
      if src.format != BINARY { return Err(WrongFormat); }
      var buf := CaptureDecrypt();
      if buf.Err? || buf.value.None? {
        RetainsNone(old(mem.slots), mem.slots, retained);
        return if buf.Err? then Err(buf.error) else Ok(Empty);
      }
      retained := retained + [buf.value.value];
      res := Ok(Of(buf.value.value));
    }

    /** WritePayload: sops's output straight to the destination, through no buffer at all. */
    method WritePayload() returns (res: Result<string, Failure>)
      ensures res == PayloadOf(src)
    {
      if src.format != BINARY { return Err(WrongFormat); }
      if src.plain.None? { return Err(Decrypt); }
      res := Ok(src.plain.value);
    }

    /** Close: destroy every buffer kept behind a returned value. */
    method Close()
      requires mem.Counted() && forall id <- retained :: id < |mem.slots|
      modifies mem`slots, mem`live, this`retained
      ensures mem.Counted() && retained == [] && |mem.slots| == |old(mem.slots)|
      ensures forall i :: 0 <= i < |mem.slots| ==>
                mem.slots[i] == if i in old(retained) then Freed else old(mem.slots)[i]
    {
      for i := 0 to |retained|
        invariant mem.Counted() && |mem.slots| == |old(mem.slots)| && retained == old(retained)
        invariant forall k :: 0 <= k < |mem.slots| ==>
                    mem.slots[k] == if k in retained[..i] then Freed else old(mem.slots)[k]
      {
        assert retained[i] in retained && retained[..i + 1] == retained[..i] + [retained[i]];
        mem.Destroy(retained[i]);
      }
      assert retained[..|retained|] == retained;
      retained := [];
    }
  }

  /** Of the slots added, exactly those of the ids newly retained are live. */
  ghost predicate Retains(before: seq<Slot>, after: seq<Slot>, kept: seq<nat>, now: seq<nat>) {
    kept <= now && Extends(before, after, Elems(now[|kept|..]))
  }

  lemma Unchanged(slots: seq<Slot>, kept: seq<nat>)
    ensures Retains(slots, slots, kept, kept)
  {
    assert kept[|kept|..] == [];
  }

  lemma RetainsNone(before: seq<Slot>, after: seq<Slot>, kept: seq<nat>)
    requires Extends(before, after, {})
    ensures Retains(before, after, kept, kept)
  {
    assert Elems(kept[|kept|..]) == {};
  }
}
