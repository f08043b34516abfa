/** Files on a host: temp-then-rename writes, any step of which the system may fail. */
module Files {
  import opened Prelude
  import opened Dotenv
  import opened Paths

  datatype Rec = Rec(data: string, owner: string, mode: string)
  datatype Write = Write(path: Path, rec: Rec)

  type FileMap = map<Path, Rec>

  /** The files after a run of writes: the last write to a path stays. */
  function Apply(files: FileMap, ws: seq<Write>): FileMap {
    if ws == [] then files
    else
      var w := ws[|ws| - 1];
      Apply(files, ws[..|ws| - 1])[w.path := w.rec]
  }

  /** The last write to a path, if there is one. */
  function Last(ws: seq<Write>, path: Path): Option<Rec> {
    if ws == [] then None
    else if ws[|ws| - 1].path == path then Some(ws[|ws| - 1].rec)
    else Last(ws[..|ws| - 1], path)
  }

  lemma {:induction false} ApplyIsLast(files: FileMap, ws: seq<Write>, path: Path)
    ensures path in Apply(files, ws) <==> path in files || Last(ws, path).Some?
    ensures path in Apply(files, ws) ==>
              Apply(files, ws)[path] == match Last(ws, path) case Some(r) => r case None => files[path]
  {
    if ws != [] { ApplyIsLast(files, ws[..|ws| - 1], path); }
  }

  lemma {:induction false} LastIs(ws: seq<Write>, path: Path)
    ensures Last(ws, path).Some? <==> exists w :: w in ws && w.path == path
  {
    if ws != [] {
      LastIs(ws[..|ws| - 1], path);
      assert ws == ws[..|ws| - 1] + [ws[|ws| - 1]];
    }
  }

  lemma ApplySnoc(files: FileMap, ws: seq<Write>, w: Write)
    ensures Apply(files, ws + [w]) == Apply(files, ws)[w.path := w.rec]
  {
    assert (ws + [w])[..|ws|] == ws;
  }

  /** The host's files, its temporaries, and which of the system calls to come will fail. */
  class Host {
    const fails: nat -> bool
    var files: FileMap
    var temps: map<nat, string>
    var calls: nat

    constructor (fails: nat -> bool, files: FileMap)
      ensures this.fails == fails && this.files == files && temps == map[] && calls == 0
    {
      this.fails, this.files := fails, files;
      temps, calls := map[], 0;
    }

    ghost predicate Reliable() { forall n :: !fails(n) }

    method Call() returns (ok: bool)
      modifies this`calls
      ensures Reliable() ==> ok
    {
      ok := !fails(calls);
      calls := calls + 1;
    }

    /** WriteTmpfsFile up to its temporary: owner, mode, directory and tmpfs checks come before any plaintext. */
    method BeginWrite() returns (res: Result<nat, Failure>)
      modifies this`calls, this`temps
      ensures res.Ok? ==> res.value !in old(temps) && temps == old(temps)[res.value := ""]
      ensures res.Err? ==> res == Err(Io) && temps == old(temps)
      ensures Reliable() ==> res.Ok?
    {
      var owner := Call();
      if !owner { return Err(Io); }
      var mode := Call();
      if !mode { return Err(Io); }
      var mkdir := Call();
      if !mkdir { return Err(Io); }
      var tmpfs := Call();
      if !tmpfs { return Err(Io); }
      var create := Call();
      if !create { return Err(Io); }
      var t := FreshName(temps.Keys);
      temps := temps[t := ""];
      res := Ok(t);
    }

    /** The rest of WriteTmpfsFile: produce, chmod, chown, sync, close, rename; on any failure the temporary goes. */
    method EndWrite(t: nat, path: string, owner: string, mode: string, produced: Result<string, Failure>)
      returns (res: Result<(), Failure>)
      requires t in temps
      modifies this`calls, this`temps, this`files
      ensures temps == old(temps) - {t}
      ensures res.Ok? ==> produced.Ok? && files == old(files)[Clean(path) := Rec(produced.value, owner, mode)]
      ensures res.Err? ==> files == old(files)
      ensures Reliable() ==> (res.Ok? <==> produced.Ok?) && (produced.Err? ==> res == Err(produced.error))
    {
      var published := false;
      res := FinishTemp(t, produced);
      if res.Ok? {
        var rename := Call();
        if rename {
          files := files[Clean(path) := Rec(temps[t], owner, mode)];
          temps := temps - {t};
          published := true;
        } else {
          res := Err(Io);
        }
      }
      if !published { temps := temps - {t}; }
    }

    /** Fill the temporary and settle its mode, owner and bytes on the device. */
    method FinishTemp(t: nat, produced: Result<string, Failure>) returns (res: Result<(), Failure>)
      requires t in temps
      modifies this`calls, this`temps
      ensures temps.Keys == old(temps).Keys && temps - {t} == old(temps) - {t}
      ensures res.Ok? ==> produced.Ok? && temps[t] == produced.value
      ensures Reliable() ==> (res.Ok? <==> produced.Ok?) && (produced.Err? ==> res == Err(produced.error))
    {
      if produced.Err? { return Err(produced.error); }
      temps := temps[t := produced.value];
      var chmod := Call();
      if !chmod { return Err(Io); }
      var chown := Call();
      if !chown { return Err(Io); }
      var sync := Call();
      if !sync { return Err(Io); }
      var close := Call();
      if !close { return Err(Io); }
      res := Ok(());
    }

    /** WriteBytesFile: content already in memory. */
    method WriteBytesFile(path: string, owner: string, mode: string, data: string) returns (res: Result<(), Failure>)
      modifies this`calls, this`temps, this`files
      ensures temps == old(temps)
      ensures res.Ok? ==> files == old(files)[Clean(path) := Rec(data, owner, mode)]
      ensures res.Err? ==> files == old(files)
      ensures Reliable() ==> res.Ok?
    {
      var t :- BeginWrite();
      res := EndWrite(t, path, owner, mode, Ok(data));
    }
  }

  /** os.CreateTemp: some name not in use. */
  method FreshName(used: set<nat>) returns (n: nat)
    ensures n !in used
  {
    n := 0;
    var seen := {};
    while n in used
      invariant seen <= used && forall k <- seen :: k < n
      decreases used - seen
    {
      seen := seen + {n};
      n := n + 1;
    }
  }
}
