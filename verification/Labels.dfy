/** The label compiler's first half: a container's labels parsed into its delivery intent. */
module Labels {
  import opened Prelude
  import opened Text
  import opened Sorting
  import opened Plans
  import opened Refs
  import opened Doorways

  datatype EnvDelivery = EnvDelivery(varName: string, ref: Ref, all: bool)
  datatype FileDelivery = FileDelivery(name: string, from: Ref, path: string, owner: string, mode: string)
  datatype Spec = Spec(enabled: bool, name: string, source: string, delivery: string, volume: string, envAck: bool,
                       env: seq<EnvDelivery>, files: seq<FileDelivery>, dotenv: string, envdir: string,
                       owner: string, mode: string)

  const INERT := Spec(false, "", "", "", "", false, [], [], "", "", "", "")

  // ---- label values ----

  predicate Digits(s: string) { s != "" && forall c <- s :: Digit(c) }

  /** uid[:gid], numeric. */
  predicate OwnerText(s: string) {
    var i := Find(s, ':');
    Digits(s[..i]) && (i < |s| ==> Digits(s[i + 1..]))
  }

  lemma OwnerTextIff(s: string)
    ensures OwnerText(s) <==> Digits(s) || exists uid, gid :: Digits(uid) && Digits(gid) && s == uid + ":" + gid
  {
    var i := Find(s, ':');
    if i < |s| { assert s == s[..i] + ":" + s[i + 1..]; } else { assert s[..i] == s; }
    if Digits(s) {
      assert ':' !in s;
      assert s[..|s|] == s;
      FindIs(s, ':', |s|);
    }
    if uid, gid :| Digits(uid) && Digits(gid) && s == uid + ":" + gid {
      assert ':' !in uid;
      assert s[..|uid|] == uid && s[|uid| + 1..] == gid;
      FindIs(s, ':', |uid|);
    }
  }

  /** Three or four octal digits. */
  predicate ModeText(s: string) { 3 <= |s| <= 4 && forall c <- s :: '0' <= c <= '7' }

  predicate Rooted(s: string) { HasPrefix(s, "/") }

  // ---- env labels ----

  /** The csv parts that name something. */
  function NonBlank(parts: seq<string>): seq<string> {
    if parts == [] then []
    else (if TrimSpace(parts[0]) == "" then [] else [TrimSpace(parts[0])]) + NonBlank(parts[1..])
  }

  /** A reference that can become one variable: it must name a key. */
  function EnvRef(varName: Option<string>, text: string): Result<EnvDelivery, Class> {
    var ref :- ParseRef(text);
    if ref.kind == RefSource then Err(WrongRefShape)
    else Ok(EnvDelivery(if varName.Some? then varName.value else ref.key, ref, false))
  }

  /** The berm.env value: the sentinel, or every reference of the list in order. */
  function EnvListOf(val: string): Result<seq<EnvDelivery>, Class> {
    if val == "all" then Ok([EnvDelivery("", UNSET, true)])
    else Collect(Map((part: string) => EnvRef(None, part), NonBlank(Split(val, ','))))
  }

  lemma {:induction false} NonBlankAppend(a: seq<string>, b: seq<string>)
    ensures NonBlank(a + b) == NonBlank(a) + NonBlank(b)
  {
    if a == [] {
      assert a + b == b;
    } else {
      assert (a + b)[1..] == a[1..] + b;
      NonBlankAppend(a[1..], b);
    }
  }

  /** Where the i-th part stands among those that are not blank. */
  lemma NonBlankAt(parts: seq<string>, i: nat)
    requires i < |parts|
    ensures var all, n, t := NonBlank(parts), |NonBlank(parts[..i])|, TrimSpace(parts[i]);
            && n <= |all| && all[..n] == NonBlank(parts[..i])
            && (t == "" ==> NonBlank(parts[..i + 1]) == NonBlank(parts[..i]))
            && (t != "" ==> n < |all| && all[n] == t && NonBlank(parts[..i + 1]) == all[..n + 1])
  {
    NonBlankAround(parts[..i], parts[i], parts[i + 1..]);
    assert parts[..i + 1] == parts[..i] + [parts[i]];
    assert parts == parts[..i] + [parts[i]] + parts[i + 1..];
  }

  lemma NonBlankAround(a: seq<string>, x: string, b: seq<string>)
    ensures NonBlank(a + [x]) == NonBlank(a) + if TrimSpace(x) == "" then [] else [TrimSpace(x)]
    ensures NonBlank(a + [x] + b) == NonBlank(a + [x]) + NonBlank(b)
  {
    NonBlankOne(x);
    NonBlankAppend(a, [x]);
    NonBlankAppend(a + [x], b);
  }

  lemma NonBlankOne(part: string)
    ensures NonBlank([part]) == if TrimSpace(part) == "" then [] else [TrimSpace(part)]
  {
    assert [part][1..] == [];
  }

  /** parseEnvList. */
  method ParseEnvList(val: string) returns (res: Result<seq<EnvDelivery>, Class>)
    ensures res == EnvListOf(val)
  {
    if val == "all" { return Ok([EnvDelivery("", UNSET, true)]); }
    var parts := Split(val, ',');
    var list := [];
    ghost var f, all := (part: string) => EnvRef(None, part), NonBlank(parts);
    assert NonBlank(parts[..0]) == [] && all[..0] == [] && Map(f, []) == [];
    for i := 0 to |parts|
      invariant |NonBlank(parts[..i])| <= |all| && all[..|NonBlank(parts[..i])|] == NonBlank(parts[..i])
      invariant Collect(Map(f, NonBlank(parts[..i]))) == Ok(list)
    {
      NonBlankAt(parts, i);
      var part := TrimSpace(parts[i]);
      if part != "" {
        CollectStep(f, all, |NonBlank(parts[..i])|, list);
        var ref :- ParseRef(part);
        if ref.kind == RefSource { return Err(WrongRefShape); }
        list := list + [EnvDelivery(ref.key, ref, false)];
      }
    }
    assert parts[..|parts|] == parts;
    res := Ok(list);
  }

  /** parseEnvVar. */
  function RenameOf(varName: string, val: string): Result<EnvDelivery, Class> {
    if varName == "" then Err(UnknownSuffix) else EnvRef(Some(varName), val)
  }

  // ---- file labels ----

  datatype FileKey = FileKey(name: string, attr: string)

  const FROM := "from"
  const PATH := "path"
  const OWNER := "owner"
  const MODE := "mode"

  predicate FileAttr(a: string) { a == FROM || a == PATH || a == OWNER || a == MODE }

  predicate FileName(n: string) { n != "" && '/' !in n }

  function FileLabel(k: FileKey): string { "file." + (k.name + "." + k.attr) }

  /** Index of the last dot, if any. */
  function LastDot(s: string): (i: Option<nat>)
    ensures i.None? ==> '.' !in s
    ensures i.Some? ==> i.value < |s| && s[i.value] == '.' && '.' !in s[i.value + 1..]
  {
    if s == "" then None
    else if s[|s| - 1] == '.' then Some(|s| - 1)
    else
      var i := LastDot(s[..|s| - 1]);
      assert s == s[..|s| - 1] + [s[|s| - 1]];
      assert i.Some? ==> s[i.value + 1..] == s[..|s| - 1][i.value + 1..] + [s[|s| - 1]];
      i
  }

  /** The delivery and attribute a file label is for: split at the last dot. */
  function SplitFile(rest: string): Result<FileKey, Class> {
    var i := LastDot(rest);
    if i.None? then Err(UnknownSuffix)
    else
      var k := FileKey(rest[..i.value], rest[i.value + 1..]);
      if !FileName(k.name) || !FileAttr(k.attr) then Err(UnknownSuffix) else Ok(k)
  }

  lemma LastDotIs(s: string, i: nat)
    requires i < |s| && s[i] == '.' && '.' !in s[i + 1..]
    ensures LastDot(s) == Some(i)
  {
    var j := LastDot(s);
    assert s[i] in s;
    assert forall k :: i < k < |s| ==> s[k] in s[i + 1..];
    assert forall k :: j.value < k < |s| ==> s[k] in s[j.value + 1..];
  }

  lemma SplitFileBack(k: FileKey)
    requires FileAttr(k.attr) && FileName(k.name)
    ensures SplitFile(k.name + "." + k.attr) == Ok(k)
  {
    var rest := k.name + "." + k.attr;
    assert '.' !in k.attr;
    assert rest[|k.name| + 1..] == k.attr && rest[..|k.name|] == k.name;
    LastDotIs(rest, |k.name|);
  }

  lemma SplitFileForth(rest: string, k: FileKey)
    requires SplitFile(rest) == Ok(k)
    ensures rest == k.name + "." + k.attr && FileName(k.name) && FileAttr(k.attr)
  {
  }

  lemma SameTail(p: string, a: string, b: string)
    requires p + a == p + b
    ensures a == b
  {
    assert (p + a)[|p|..] == a && (p + b)[|p|..] == b;
  }

  /** Splitting loses nothing, and every delivery name, dots and all, can be split off again. */
  lemma SplitFileIff(rest: string, k: FileKey)
    ensures SplitFile(rest) == Ok(k) <==> "file." + rest == FileLabel(k) && FileName(k.name) && FileAttr(k.attr)
  {
    if SplitFile(rest) == Ok(k) { SplitFileForth(rest, k); }
    if "file." + rest == FileLabel(k) && FileName(k.name) && FileAttr(k.attr) {
      SameTail("file.", rest, k.name + "." + k.attr);
      SplitFileBack(k);
    }
  }

  lemma FileLabelInjective(j: FileKey, k: FileKey)
    requires FileLabel(j) == FileLabel(k) && FileAttr(j.attr) && FileAttr(k.attr) && FileName(j.name)
             && FileName(k.name)
    ensures j == k
  {
    var rest := j.name + "." + j.attr;
    assert "file." + rest == FileLabel(j);
    SplitFileIff(rest, j);
    SplitFileIff(rest, k);
  }

  function ErrorOf<T>(r: Result<T, Class>): Option<Class> { match r case Err(c) => Some(c) case Ok(_) => None }

  /** Whether an attribute accepts a value. */
  function AttrError(attr: string, val: string): Option<Class> {
    if attr == FROM then ErrorOf(ParseRef(val))
    else if (attr == PATH && Rooted(val)) || (attr == OWNER && OwnerText(val)) || (attr == MODE && ModeText(val))
      then None
    else Some(Malformed)
  }

  function FileError(rest: string, val: string): Option<Class> {
    match SplitFile(rest)
    case Err(c) => Some(c)
    case Ok(k) => AttrError(k.attr, val)
  }

  // ---- one label at a time ----

  predicate IsRename(suffix: string) { HasPrefix(suffix, "env.") && suffix != "env.acknowledge" }

  predicate IsFile(suffix: string) { HasPrefix(suffix, "file.") }

  /** Whether, and how, a label that sets a single field makes the container fail. */
  function ScalarError(suffix: string, val: string): Option<Class> {
    if suffix == "enable" || suffix == "name" || suffix == "volume" || suffix == "env.acknowledge" then None
    else if suffix == "source" then if IsSource(val) then None else Some(Malformed)
    else if suffix == "delivery" then if ValidMechanism(val) then None else Some(Malformed)
    else if suffix == "owner" then if OwnerText(val) then None else Some(Malformed)
    else if suffix == "mode" then if ModeText(val) then None else Some(Malformed)
    else if suffix == "dotenv" || suffix == "envdir" then if Rooted(val) then None else Some(Malformed)
    else if suffix == "rotate" then Some(RotateReserved)
    else Some(UnknownSuffix)
  }

  /** Whether, and how, a label by itself makes the container fail. */
  function LabelError(suffix: string, val: string): Option<Class> {
    if suffix == "env" then ErrorOf(EnvListOf(val))
    else if IsRename(suffix) then ErrorOf(RenameOf(suffix[4..], val))
    else if IsFile(suffix) then FileError(suffix[5..], val)
    else ScalarError(suffix, val)
  }

  ghost predicate Accepted(m: map<string, string>) { forall s <- m :: LabelError(s, m[s]).None? }

  ghost predicate HasEnv(m: map<string, string>) { "env" in m || exists s <- m :: IsRename(s) }

  // ---- what accepted labels say ----

  ghost function FileNames(m: map<string, string>): set<string> {
    set s | s in m && IsFile(s) && SplitFile(s[5..]).Ok? :: SplitFile(s[5..]).value.name
  }

  /** A file delivery reads exactly its own labels. */
  function FileOf(m: map<string, string>, n: string): FileDelivery {
    var from := Get(m, FileLabel(FileKey(n, FROM)));
    FileDelivery(n, if ParseRef(from).Ok? then ParseRef(from).value else UNSET, Get(m, FileLabel(FileKey(n, PATH))),
                 Get(m, FileLabel(FileKey(n, OWNER))), Get(m, FileLabel(FileKey(n, MODE))))
  }

  /** One delivery per name, in name order. */
  ghost function FilesOf(m: map<string, string>): seq<FileDelivery> {
    Map((n: string) => FileOf(m, n), Sorted(FileNames(m)))
  }

  ghost function EnvListIn(m: map<string, string>): seq<EnvDelivery> {
    if "env" in m && EnvListOf(m["env"]).Ok? then EnvListOf(m["env"]).value else []
  }

  ghost function RenameNames(m: map<string, string>): set<string> {
    set s | s in m && IsRename(s) :: s[4..]
  }

  function RenameIn(m: map<string, string>, varName: string): EnvDelivery {
    var r := RenameOf(varName, Get(m, "env." + varName));
    if r.Ok? then r.value else EnvDelivery(varName, UNSET, false)
  }

  /** One renamed variable per label, in variable order. */
  ghost function RenamesOf(m: map<string, string>): seq<EnvDelivery> {
    Map((v: string) => RenameIn(m, v), Sorted(RenameNames(m)))
  }

  ghost function SpecOf(m: map<string, string>): Spec {
    Spec(true, Get(m, "name"), Get(m, "source"), Get(m, "delivery"), Get(m, "volume"),
         Get(m, "env.acknowledge") == "true",
         EnvListIn(m) + RenamesOf(m), FilesOf(m), Get(m, "dotenv"), Get(m, "envdir"), Get(m, "owner"), Get(m, "mode"))
  }

  /** The failure of the first failing label in suffix order. */
  function FirstError(m: map<string, string>, suffixes: seq<string>): Option<Class>
    requires forall s <- suffixes :: s in m
  {
    if suffixes == [] then None
    else if LabelError(suffixes[0], m[suffixes[0]]).Some? then LabelError(suffixes[0], m[suffixes[0]])
    else FirstError(m, suffixes[1..])
  }

  ghost function ParseMerged(m: map<string, string>): Result<Spec, Class> {
    if Get(m, "enable") != "true" then Ok(INERT)
    else
      assert forall s <- Sorted(m.Keys) :: s in Elems(Sorted(m.Keys));
      match FirstError(m, Sorted(m.Keys))
      case Some(c) => Err(c)
      case None => if HasEnv(m) && Get(m, "env.acknowledge") != "true" then Err(EnvNoAck) else Ok(SpecOf(m))
  }

  /** Parse. */
  ghost function ParseOf(labels: Labels): Result<Spec, Class> {
    var m :- Merged(labels);
    ParseMerged(m)
  }

  // ---- the loop of Parse ----

  /** What Parse has gathered from the suffixes seen so far. */
  datatype Draft = Draft(spec: Spec, files: map<string, FileDelivery>, envList: seq<EnvDelivery>,
                         renames: seq<EnvDelivery>, hasEnv: bool)

  function Scalars(m: map<string, string>): Spec {
    Spec(true, Get(m, "name"), Get(m, "source"), Get(m, "delivery"), Get(m, "volume"),
         Get(m, "env.acknowledge") == "true",
         [], [], Get(m, "dotenv"), Get(m, "envdir"), Get(m, "owner"), Get(m, "mode"))
  }

  ghost predicate FilesRead(files: map<string, FileDelivery>, m: map<string, string>) {
    files.Keys == FileNames(m) && forall n <- files :: files[n] == FileOf(m, n)
  }

  ghost predicate RenamesRead(renames: seq<EnvDelivery>, m: map<string, string>) {
    && (forall e <- renames :: e.varName in RenameNames(m) && e == RenameIn(m, e.varName))
    && (forall v <- RenameNames(m) :: RenameIn(m, v) in renames)
    && (forall i, j :: 0 <= i < j < |renames| ==> renames[i].varName != renames[j].varName)
  }

  ghost predicate Drafted(d: Draft, m: map<string, string>) {
    && d.spec == Scalars(m) && FilesRead(d.files, m)
    && d.envList == EnvListIn(m) && RenamesRead(d.renames, m) && d.hasEnv == HasEnv(m)
  }

  lemma FilesUnrelated(m: map<string, string>, suffix: string, val: string)
    requires !IsFile(suffix) && suffix !in m
    ensures FileNames(m[suffix := val]) == FileNames(m)
    ensures forall n :: FileOf(m[suffix := val], n) == FileOf(m, n)
  {
    var after := m[suffix := val];
    assert forall s :: s in after && IsFile(s) <==> s in m && IsFile(s);
    forall k: FileKey ensures Get(after, FileLabel(k)) == Get(m, FileLabel(k)) {
      assert FileLabel(k)[..5] == "file.";
    }
  }

  lemma RenamesUnrelated(m: map<string, string>, suffix: string, val: string)
    requires !IsRename(suffix) && suffix !in m
    ensures RenameNames(m[suffix := val]) == RenameNames(m)
    ensures forall v <- RenameNames(m) :: RenameIn(m[suffix := val], v) == RenameIn(m, v)
  {
    var after := m[suffix := val];
    assert forall s :: s in after && IsRename(s) <==> s in m && IsRename(s);
    forall v | v in RenameNames(m) ensures "env." + v != suffix {
      var s :| s in m && IsRename(s) && s[4..] == v;
      assert s == "env." + v;
    }
  }

  lemma FilesReadUnrelated(files: map<string, FileDelivery>, m: map<string, string>, suffix: string, val: string)
    requires FilesRead(files, m) && !IsFile(suffix) && suffix !in m
    ensures FilesRead(files, m[suffix := val])
  {
    FilesUnrelated(m, suffix, val);
  }

  lemma RenamesReadUnrelated(renames: seq<EnvDelivery>, m: map<string, string>, suffix: string, val: string)
    requires RenamesRead(renames, m) && !IsRename(suffix) && suffix !in m
    ensures RenamesRead(renames, m[suffix := val])
  {
    RenamesUnrelated(m, suffix, val);
  }

  lemma EnvUnrelated(m: map<string, string>, suffix: string, val: string)
    requires suffix != "env"
    ensures EnvListIn(m[suffix := val]) == EnvListIn(m)
    ensures HasEnv(m[suffix := val]) == (HasEnv(m) || IsRename(suffix))
  {
    var after := m[suffix := val];
    assert forall s <- m :: s in after;
    assert suffix in after;
  }

  lemma RenameAdded(m: map<string, string>, suffix: string, val: string, renames: seq<EnvDelivery>)
    requires IsRename(suffix) && suffix !in m && RenamesRead(renames, m) && RenameOf(suffix[4..], val).Ok?
    ensures RenamesRead(renames + [RenameOf(suffix[4..], val).value], m[suffix := val])
  {
    var after, v := m[suffix := val], suffix[4..];
    assert suffix == "env." + v;
    assert RenameIn(after, v) == RenameOf(v, val).value;
    forall w | w in RenameNames(m) ensures w != v && w in RenameNames(after) && RenameIn(after, w) == RenameIn(m, w) {
      var s :| s in m && IsRename(s) && s[4..] == w;
      assert s == "env." + w;
      assert s in after;
    }
    assert suffix in after;
    assert RenameNames(after) == RenameNames(m) + {v};
  }

  lemma FileLabelSplits(k: FileKey)
    requires FileName(k.name) && FileAttr(k.attr)
    ensures IsFile(FileLabel(k)) && SplitFile(FileLabel(k)[5..]) == Ok(k)
  {
    var rest := k.name + "." + k.attr;
    assert FileLabel(k) == "file." + rest && FileLabel(k)[5..] == rest;
    SplitFileIff(rest, k);
  }

  lemma FileNamesAdded(m: map<string, string>, k: FileKey, val: string)
    requires FileName(k.name) && FileAttr(k.attr)
    ensures FileNames(m[FileLabel(k) := val]) == FileNames(m) + {k.name}
  {
    var l, after := FileLabel(k), m[FileLabel(k) := val];
    FileLabelSplits(k);
    assert l in after;
    forall n | n in FileNames(after) ensures n in FileNames(m) + {k.name} {
      var s :| s in after && IsFile(s) && SplitFile(s[5..]).Ok? && SplitFile(s[5..]).value.name == n;
    }
    forall n | n in FileNames(m) ensures n in FileNames(after) {
      var s :| s in m && IsFile(s) && SplitFile(s[5..]).Ok? && SplitFile(s[5..]).value.name == n;
      assert s in after;
    }
  }

  /** A file label changes one field of one delivery. */
  lemma FileAdded(m: map<string, string>, k: FileKey, val: string)
    requires FileName(k.name) && FileAttr(k.attr) && FileLabel(k) !in m && AttrError(k.attr, val).None?
    ensures forall n :: n != k.name && FileName(n) ==> FileOf(m[FileLabel(k) := val], n) == FileOf(m, n)
    ensures FileOf(m[FileLabel(k) := val], k.name) == SetAttr(FileOf(m, k.name), k.attr, val)
  {
    var after := m[FileLabel(k) := val];
    forall n, a | FileName(n) && FileAttr(a) && FileKey(n, a) != k
      ensures Get(after, FileLabel(FileKey(n, a))) == Get(m, FileLabel(FileKey(n, a)))
    {
      if FileLabel(FileKey(n, a)) == FileLabel(k) { FileLabelInjective(FileKey(n, a), k); }
    }
    assert Get(after, FileLabel(k)) == val;
  }

  function SetAttr(f: FileDelivery, attr: string, val: string): FileDelivery
    requires AttrError(attr, val).None?
  {
    if attr == FROM then f.(from := ParseRef(val).value)
    else if attr == PATH then f.(path := val)
    else if attr == OWNER then f.(owner := val)
    else f.(mode := val)
  }

  lemma NoFileYet(m: map<string, string>, n: string)
    requires FileName(n) && n !in FileNames(m)
    ensures FileOf(m, n) == FileDelivery(n, UNSET, "", "", "")
  {
    forall a | FileAttr(a) ensures FileLabel(FileKey(n, a)) !in m {
      FileLabelSplits(FileKey(n, a));
    }
  }

  /** One attribute of parseFile's inner switch. */
  method TakeAttr(fd: FileDelivery, attr: string, val: string) returns (res: Result<FileDelivery, Class>)
    requires FileAttr(attr)
    ensures match AttrError(attr, val)
            case Some(c) => res == Err(c)
            case None => res == Ok(SetAttr(fd, attr, val))
  {
    if attr == FROM {
      var ref :- ParseRef(val);
      return Ok(fd.(from := ref));
    }
    if attr == PATH {
      if !HasPrefix(val, "/") { return Err(Malformed); }
      return Ok(fd.(path := val));
    }
    if attr == OWNER {
      if !OwnerText(val) { return Err(Malformed); }
      return Ok(fd.(owner := val));
    }
    if !ModeText(val) { return Err(Malformed); }
    res := Ok(fd.(mode := val));
  }

  lemma FilesReadAdded(files: map<string, FileDelivery>, m: map<string, string>, k: FileKey, val: string)
    requires FilesRead(files, m) && FileName(k.name) && FileAttr(k.attr) && FileLabel(k) !in m
             && AttrError(k.attr, val).None?
    ensures FilesRead(files[k.name := SetAttr(FileOf(m, k.name), k.attr, val)], m[FileLabel(k) := val])
  {
    var after, now := m[FileLabel(k) := val], files[k.name := SetAttr(FileOf(m, k.name), k.attr, val)];
    FileNamesAdded(m, k, val);
    FileAdded(m, k, val);
    FileNamesValid(m);
    forall n | n in now ensures now[n] == FileOf(after, n) {
      if n != k.name { assert n in files && FileName(n); }
    }
  }

  lemma FileNamesValid(m: map<string, string>)
    ensures forall n <- FileNames(m) :: FileName(n)
  {
  }

  /** parseFile. */
  method ParseFile(files: map<string, FileDelivery>, rest: string, val: string, ghost m: map<string, string>)
    returns (res: Result<map<string, FileDelivery>, Class>)
    requires "file." + rest !in m && FilesRead(files, m)
    ensures match FileError(rest, val)
            case Some(c) => res == Err(c)
            case None => res.Ok? && FilesRead(res.value, m["file." + rest := val])
  {
    var i := LastDot(rest);
    if i.None? { return Err(UnknownSuffix); }
    var name, attr := rest[..i.value], rest[i.value + 1..];
    if name == "" || '/' in name { return Err(UnknownSuffix); }
    if !FileAttr(attr) { return Err(UnknownSuffix); }
    var fd := if name in files then files[name] else FileDelivery(name, UNSET, "", "", "");
    if name !in FileNames(m) { NoFileYet(m, name); }
    var changed :- TakeAttr(fd, attr, val);
    SplitFileIff(rest, FileKey(name, attr));
    FilesReadAdded(files, m, FileKey(name, attr), val);
    res := Ok(files[name := changed]);
  }

  /** The cases of Parse's switch that set one field of the spec. */
  method TakeScalar(was: Spec, suffix: string, val: string, ghost m: map<string, string>)
    returns (res: Result<Spec, Class>)
    requires was == Scalars(m)
    ensures match ScalarError(suffix, val)
            case Some(c) => res == Err(c)
            case None => res == Ok(Scalars(m[suffix := val]))
  {
    var spec := was;
    if suffix == "enable" {
    } else if suffix == "name" {
      spec := spec.(name := val);
    } else if suffix == "source" {
      if !IsSource(val) { return Err(Malformed); }
      spec := spec.(source := val);
    } else if suffix == "delivery" {
      if !ValidMechanism(val) { return Err(Malformed); }
      spec := spec.(delivery := val);
    } else if suffix == "volume" {
      spec := spec.(volume := val);
    } else if suffix == "owner" {
      if !OwnerText(val) { return Err(Malformed); }
      spec := spec.(owner := val);
    } else if suffix == "mode" {
      if !ModeText(val) { return Err(Malformed); }
      spec := spec.(mode := val);
    } else if suffix == "dotenv" {
      if !HasPrefix(val, "/") { return Err(Malformed); }
      spec := spec.(dotenv := val);
    } else if suffix == "envdir" {
      if !HasPrefix(val, "/") { return Err(Malformed); }
      spec := spec.(envdir := val);
    } else if suffix == "rotate" {
      return Err(RotateReserved);
    } else if suffix == "env.acknowledge" {
      spec := spec.(envAck := val == "true");
    } else {
      return Err(UnknownSuffix);
    }
    res := Ok(spec);
  }

  lemma ScalarsUnrelated(m: map<string, string>, suffix: string, val: string)
    requires suffix == "env" || IsRename(suffix) || IsFile(suffix)
    ensures Scalars(m[suffix := val]) == Scalars(m)
  {
    assert IsFile(suffix) ==> suffix[4] == '.' && suffix[0] == 'f';
    assert IsRename(suffix) ==> suffix[3] == '.' && suffix[0] == 'e';
  }

  method TakeEnv(d: Draft, val: string, ghost m: map<string, string>) returns (res: Result<Draft, Class>)
    requires Drafted(d, m) && "env" !in m
    ensures match ErrorOf(EnvListOf(val))
            case Some(c) => res == Err(c)
            case None => res.Ok? && Drafted(res.value, m["env" := val])
  {
    FilesReadUnrelated(d.files, m, "env", val);
    RenamesReadUnrelated(d.renames, m, "env", val);
    ScalarsUnrelated(m, "env", val);
    var list :- ParseEnvList(val);
    res := Ok(d.(envList := list, hasEnv := true));
  }

  method TakeRename(d: Draft, suffix: string, val: string, ghost m: map<string, string>)
    returns (res: Result<Draft, Class>)
    requires Drafted(d, m) && suffix !in m && IsRename(suffix)
    ensures match ErrorOf(RenameOf(suffix[4..], val))
            case Some(c) => res == Err(c)
            case None => res.Ok? && Drafted(res.value, m[suffix := val])
  {
    var e :- RenameOf(suffix[4..], val);
    assert suffix[0] == 'e' && suffix[3] == '.';
    FilesReadUnrelated(d.files, m, suffix, val);
    ScalarsUnrelated(m, suffix, val);
    EnvUnrelated(m, suffix, val);
    RenameAdded(m, suffix, val, d.renames);
    res := Ok(d.(renames := d.renames + [e], hasEnv := true));
  }

  method TakeFile(d: Draft, suffix: string, val: string, ghost m: map<string, string>)
    returns (res: Result<Draft, Class>)
    requires Drafted(d, m) && suffix !in m && IsFile(suffix)
    ensures match FileError(suffix[5..], val)
            case Some(c) => res == Err(c)
            case None => res.Ok? && Drafted(res.value, m[suffix := val])
  {
    assert suffix == "file." + suffix[5..] && suffix[0] == 'f';
    RenamesReadUnrelated(d.renames, m, suffix, val);
    ScalarsUnrelated(m, suffix, val);
    EnvUnrelated(m, suffix, val);
    var files :- ParseFile(d.files, suffix[5..], val, m);
    res := Ok(d.(files := files));
  }

  method TakeField(d: Draft, suffix: string, val: string, ghost m: map<string, string>)
    returns (res: Result<Draft, Class>)
    requires Drafted(d, m) && suffix !in m && suffix != "env" && !IsRename(suffix) && !IsFile(suffix)
    ensures match ScalarError(suffix, val)
            case Some(c) => res == Err(c)
            case None => res.Ok? && Drafted(res.value, m[suffix := val])
  {
    FilesReadUnrelated(d.files, m, suffix, val);
    RenamesReadUnrelated(d.renames, m, suffix, val);
    EnvUnrelated(m, suffix, val);
    var spec :- TakeScalar(d.spec, suffix, val, m);
    res := Ok(d.(spec := spec));
  }

  /** One turn of Parse's loop. */
  method Take(d: Draft, suffix: string, val: string, ghost m: map<string, string>) returns (res: Result<Draft, Class>)
    requires Drafted(d, m) && suffix !in m
    ensures match LabelError(suffix, val)
            case Some(c) => res == Err(c)
            case None => res.Ok? && Drafted(res.value, m[suffix := val])
  {
    if suffix == "env" {
      res := TakeEnv(d, val, m);
    } else if IsRename(suffix) {
      res := TakeRename(d, suffix, val, m);
    } else if IsFile(suffix) {
      res := TakeFile(d, suffix, val, m);
    } else {
      res := TakeField(d, suffix, val, m);
    }
  }

  // ---- Parse ----

  function ByVar(e: EnvDelivery): Key { (e.varName, "") }

  function ByName(f: FileDelivery): Key { (f.name, "") }

  /** Sorting the renames gathered in any order gives the one listing by variable. */
  lemma RenamesSorted(renames: seq<EnvDelivery>, m: map<string, string>, r: seq<EnvDelivery>)
    requires RenamesRead(renames, m) && Ordered(r, ByVar) && Elems(r) == Elems(renames)
    ensures r == RenamesOf(m)
  {
    var want := RenamesOf(m);
    RenamesListed(m);
    forall e | e in Elems(r) ensures e in Elems(want) {
      assert e in Elems(renames) && e in renames;
      assert RenameIn(m, e.varName) in want;
    }
    forall e | e in Elems(want) ensures e in Elems(r) {
      assert e in want && e in renames;
    }
    OrderedUnique(r, want, ByVar);
  }

  lemma RenamesListed(m: map<string, string>)
    ensures Ordered(RenamesOf(m), ByVar)
    ensures forall v <- RenameNames(m) :: RenameIn(m, v) in RenamesOf(m)
    ensures forall e <- RenamesOf(m) :: e.varName in RenameNames(m) && e == RenameIn(m, e.varName)
  {
    var names, want := Sorted(RenameNames(m)), RenamesOf(m);
    assert forall i :: 0 <= i < |names| ==> names[i] in Elems(names) && want[i].varName == names[i];
    forall i, j | 0 <= i < j < |want| ensures Before(ByVar(want[i]), ByVar(want[j])) {
      assert Before(NameKey(names[i]), NameKey(names[j]));
    }
    forall v | v in RenameNames(m) ensures RenameIn(m, v) in want {
      assert v in Elems(names);
      var i :| 0 <= i < |names| && names[i] == v;
      assert want[i] == RenameIn(m, v);
    }
  }

  /** Deliveries come out in name order, so no two share a name. */
  lemma FilesOrdered(m: map<string, string>)
    ensures Ordered(FilesOf(m), ByName)
  {
    var names, fs := Sorted(FileNames(m)), FilesOf(m);
    forall i, j | 0 <= i < j < |fs| ensures Before(ByName(fs[i]), ByName(fs[j])) {
      assert Before(NameKey(names[i]), NameKey(names[j]));
    }
  }

  lemma {:induction false} FirstErrorIs(m: map<string, string>, suffixes: seq<string>, i: nat)
    requires forall s <- suffixes :: s in m
    requires i <= |suffixes| && forall k :: 0 <= k < i ==> LabelError(suffixes[k], m[suffixes[k]]).None?
    ensures i == |suffixes| ==> FirstError(m, suffixes) == None
    ensures i < |suffixes| && LabelError(suffixes[i], m[suffixes[i]]).Some? ==>
              FirstError(m, suffixes) == LabelError(suffixes[i], m[suffixes[i]])
  {
    if i > 0 {
      assert forall k :: 0 <= k < |suffixes| - 1 ==> suffixes[1..][k] == suffixes[k + 1];
      FirstErrorIs(m, suffixes[1..], i - 1);
    }
  }

  function Restrict(m: map<string, string>, names: seq<string>): map<string, string> {
    map s | s in names && s in m :: m[s]
  }

  lemma RestrictStep(m: map<string, string>, suffixes: seq<string>, i: nat)
    requires Ordered(suffixes, NameKey) && i < |suffixes| && suffixes[i] in m
    ensures suffixes[i] !in Restrict(m, suffixes[..i])
    ensures Restrict(m, suffixes[..i + 1]) == Restrict(m, suffixes[..i])[suffixes[i] := m[suffixes[i]]]
  {
    forall k | 0 <= k < i ensures suffixes[k] != suffixes[i] {
      assert Before(NameKey(suffixes[k]), NameKey(suffixes[i]));
    }
    assert suffixes[..i + 1] == suffixes[..i] + [suffixes[i]];
  }

  const NOTHING := Draft(INERT.(enabled := true), map[], [], [], false)

  lemma NothingDrafted()
    ensures Drafted(NOTHING, map[])
  {
  }

  ghost predicate NoneFails(m: map<string, string>, suffixes: seq<string>, n: nat)
    requires n <= |suffixes| && forall s <- suffixes :: s in m
  {
    forall k :: 0 <= k < n ==> LabelError(suffixes[k], m[suffixes[k]]).None?
  }

  /** One turn of Parse's loop, as the loop sees it. */
  method TakeAt(d: Draft, m: map<string, string>, suffixes: seq<string>, i: nat) returns (res: Result<Draft, Class>)
    requires Ordered(suffixes, NameKey) && i < |suffixes| && forall s <- suffixes :: s in m
    requires Drafted(d, Restrict(m, suffixes[..i])) && NoneFails(m, suffixes, i)
    ensures res.Ok? ==> Drafted(res.value, Restrict(m, suffixes[..i + 1])) && NoneFails(m, suffixes, i + 1)
    ensures res.Err? ==> FirstError(m, suffixes) == Some(res.error)
  {
    FirstErrorIs(m, suffixes, i);
    RestrictStep(m, suffixes, i);
    res := Take(d, suffixes[i], m[suffixes[i]], Restrict(m, suffixes[..i]));
  }

  /** The loop of Parse over the suffixes in order. */
  method Gather(m: map<string, string>, suffixes: seq<string>) returns (res: Result<Draft, Class>)
    requires Ordered(suffixes, NameKey) && Elems(suffixes) == m.Keys && forall s <- suffixes :: s in m
    ensures res.Ok? ==> FirstError(m, suffixes) == None && Drafted(res.value, m)
    ensures res.Err? ==> FirstError(m, suffixes) == Some(res.error)
  {
    var d := NOTHING;
    NothingDrafted();
    assert Restrict(m, suffixes[..0]) == map[];
    for i := 0 to |suffixes|
      invariant Drafted(d, Restrict(m, suffixes[..i])) && NoneFails(m, suffixes, i)
    {
      d :- TakeAt(d, m, suffixes, i);
    }
    FirstErrorIs(m, suffixes, |suffixes|);
    RestrictAll(m, suffixes);
    assert suffixes[..|suffixes|] == suffixes;
    res := Ok(d);
  }

  lemma RestrictAll(m: map<string, string>, suffixes: seq<string>)
    requires Elems(suffixes) == m.Keys
    ensures Restrict(m, suffixes) == m
  {
    assert forall s <- m :: s in Elems(suffixes);
  }

  /** The deliveries of a name map, in name order. */
  method ListFiles(files: map<string, FileDelivery>) returns (fs: seq<FileDelivery>)
    ensures |fs| == |Sorted(files.Keys)|
    ensures forall k :: 0 <= k < |fs| ==> Sorted(files.Keys)[k] in files && fs[k] == files[Sorted(files.Keys)[k]]
  {
    var names := SortNames(files.Keys);
    fs := [];
    for i := 0 to |names|
      invariant |fs| == i && forall k :: 0 <= k < i ==> names[k] in files && fs[k] == files[names[k]]
    {
      assert names[i] in Elems(names);
      fs := fs + [files[names[i]]];
    }
  }

  /** The end of Parse: the env gate, then env and file deliveries in order. */
  method Assemble(d: Draft, ghost m: map<string, string>) returns (res: Result<Spec, Class>)
    requires Drafted(d, m)
    ensures res == if HasEnv(m) && Get(m, "env.acknowledge") != "true" then Err(EnvNoAck) else Ok(SpecOf(m))
  {
    if d.hasEnv && !d.spec.envAck { return Err(EnvNoAck); }
    var renames := Sort(d.renames, ByVar);
    RenamesSorted(d.renames, m, renames);
    var files := ListFiles(d.files);
    assert files == FilesOf(m);
    res := Ok(d.spec.(env := d.envList + renames, files := files));
  }

  /** Parse: the same outcome whatever order the labels are visited in. */
  method Parse(labels: Labels) returns (res: Result<Spec, Class>)
    ensures res == ParseOf(labels)
  {
    var m :- MergeDoorways(labels);
    if Get(m, "enable") != "true" { return Ok(INERT); }
    var suffixes := SortNames(m.Keys);
    assert forall s <- suffixes :: s in Elems(suffixes);
    var d :- Gather(m, suffixes);
    res := Assemble(d, m);
  }

  // ---- what Parse promises ----

  lemma {:induction false} AcceptedIff(m: map<string, string>, names: seq<string>)
    requires forall s <- names :: s in m
    ensures FirstError(m, names).None? <==> forall s <- names :: LabelError(s, m[s]).None?
  {
    if names != [] { AcceptedIff(m, names[1..]); }
  }

  /** Moving any set of labels to the other prefix leaves Parse unchanged. */
  lemma ParseMovedSame(labels: Labels, keys: set<string>)
    requires Movable(labels, keys)
    ensures ParseOf(MoveLabels(labels, keys)) == ParseOf(labels)
  {
    MovedSame(labels, keys);
  }

  /** For labels accepted as enabled, the readers of single labels see the parsed name and volume. */
  lemma ReadersSeeSpec(labels: Labels, service: string)
    requires ParseOf(labels).Ok? && ParseOf(labels).value.enabled
    ensures var spec := ParseOf(labels).value;
            && BermName(labels) == Ok(spec.name)
            && VolumeName(labels, service) == if spec.volume != "" then spec.volume else "berm-" + service
  {
    NameAndVolumeAgree(labels, service);
  }

  /** A container that neither door enables fails exactly when its labels conflict, and is inert otherwise. */
  lemma DisabledFailsIff(labels: Labels)
    requires Get(labels, PRIMARY + "enable") != "true" && Get(labels, ALIAS + "enable") != "true"
    ensures ParseOf(labels).Err? <==> Conflict(labels)
    ensures ParseOf(labels).Ok? ==> ParseOf(labels) == Ok(INERT)
  {
    if !Conflict(labels) { ReadersAgree(labels, "enable"); }
  }

  /** Merging comes before the enable gate, so a container that is not enabled can still fail. */
  lemma DisabledCanFail()
    ensures var labels := map["berm.mode" := "0400", "tagwright.secret.mode" := "0440"];
            ParseOf(labels) == Err(CrossPrefixConflict)
              && Get(labels, "berm.enable") == Get(labels, "tagwright.secret.enable") == ""
  {
    var labels := map["berm.mode" := "0400", "tagwright.secret.mode" := "0440"];
    DoorKeys("mode");
    assert PRIMARY + "mode" == "berm.mode" && ALIAS + "mode" == "tagwright.secret.mode";
    assert Carries(labels, "mode", labels["berm.mode"]) && Carries(labels, "mode", labels["tagwright.secret.mode"]);
  }

  /** What an attribute of a delivery was written as; empty when it was not. */
  function AttrText(f: FileDelivery, attr: string): string {
    if attr == FROM then (if f.from == UNSET then "" else PrintRef(f.from))
    else if attr == PATH then f.path
    else if attr == OWNER then f.owner
    else f.mode
  }

  /**
    * Regrouping file labels loses nothing: from the deliveries one can read back exactly which file labels there were,
    * and what each said. Each label is one field of the one delivery of its name.
    */
  lemma FilesLossless(m: map<string, string>, k: FileKey)
    requires Accepted(m) && FileName(k.name) && FileAttr(k.attr)
    ensures FileLabel(k) in m <==> exists f <- FilesOf(m) :: f.name == k.name && AttrText(f, k.attr) != ""
    ensures FileLabel(k) in m ==> forall f <- FilesOf(m) :: f.name == k.name ==> AttrText(f, k.attr) == m[FileLabel(k)]
  {
    FileLabelSplits(k);
    AttrReads(m, k);
    FilesListed(m);
    if FileLabel(k) in m {
      assert k.name in FileNames(m);
      assert FileOf(m, k.name) in FilesOf(m);
    }
  }

  lemma FilesListed(m: map<string, string>)
    ensures forall f <- FilesOf(m) :: f == FileOf(m, f.name)
    ensures forall n <- FileNames(m) :: FileOf(m, n) in FilesOf(m)
  {
    var names, fs := Sorted(FileNames(m)), FilesOf(m);
    assert forall i :: 0 <= i < |fs| ==> fs[i] == FileOf(m, names[i]);
    forall n | n in FileNames(m) ensures FileOf(m, n) in fs {
      assert n in Elems(names);
      var i :| 0 <= i < |names| && names[i] == n;
      assert fs[i] in fs;
    }
  }

  lemma AttrReads(m: map<string, string>, k: FileKey)
    requires Accepted(m) && FileName(k.name) && FileAttr(k.attr)
    ensures AttrText(FileOf(m, k.name), k.attr) == Get(m, FileLabel(k))
    ensures FileLabel(k) in m ==> m[FileLabel(k)] != ""
  {
    if FileLabel(k) in m {
      LabelAttr(k, m[FileLabel(k)]);
      if k.attr == FROM { PrintParseRef(m[FileLabel(k)]); }
    } else {
      assert ParseRef("").Err?;
    }
  }

  lemma LabelAttr(k: FileKey, val: string)
    requires FileName(k.name) && FileAttr(k.attr)
    ensures LabelError(FileLabel(k), val) == AttrError(k.attr, val)
    ensures AttrError(k.attr, val).None? ==> val != ""
  {
    FileLabelSplits(k);
    StartsWithF(FileLabel(k));
  }

  lemma StartsWithF(s: string)
    requires s != "" && s[0] == 'f'
    ensures s != "env" && !IsRename(s)
  {
    if |s| >= 4 { assert s[..4][0] == 'f'; }
  }

  // ---- what a label must be ----

  /** A reference that names a key. */
  ghost predicate KeyRef(text: string, ref: Ref) { RefText(text, ref) && ref.kind != RefSource }

  ghost predicate IsKeyRef(text: string) { exists ref :: KeyRef(text, ref) }

  /** The parts of a csv value that are not blank, trimmed, in order. */
  ghost predicate PartsOf(val: string, parts: seq<string>) {
    exists pieces: seq<seq<string>> :: PiecesOf(Split(val, ','), pieces) && parts == Concat(pieces)
  }

  ghost predicate PiecesOf(raw: seq<string>, pieces: seq<seq<string>>) {
    |pieces| == |raw|
    && forall i :: 0 <= i < |raw| ==> pieces[i] == if TrimSpace(raw[i]) == "" then [] else [TrimSpace(raw[i])]
  }

  lemma {:induction false} NonBlankPieces(raw: seq<string>) returns (pieces: seq<seq<string>>)
    ensures PiecesOf(raw, pieces) && NonBlank(raw) == Concat(pieces)
  {
    if raw == [] {
      pieces := [];
    } else {
      var rest := NonBlankPieces(raw[1..]);
      pieces := [if TrimSpace(raw[0]) == "" then [] else [TrimSpace(raw[0])]] + rest;
      assert pieces[1..] == rest;
    }
  }

  lemma PartsAre(val: string, parts: seq<string>)
    ensures PartsOf(val, parts) <==> parts == NonBlank(Split(val, ','))
  {
    var pieces := NonBlankPieces(Split(val, ','));
    if PartsOf(val, parts) {
      var other: seq<seq<string>> :| PiecesOf(Split(val, ','), other) && parts == Concat(other);
      assert other == pieces;
    }
  }

  lemma EnvRefIff(v: Option<string>, text: string)
    ensures EnvRef(v, text).Ok? <==> IsKeyRef(text)
    ensures EnvRef(v, text).Ok? ==>
              var e := EnvRef(v, text).value;
              !e.all && KeyRef(text, e.ref) && e.varName == (if v.Some? then v.value else e.ref.key)
  {
    if EnvRef(v, text).Ok? {
      RefTextIff(text, ParseRef(text).value);
      assert KeyRef(text, ParseRef(text).value);
    }
    if ref :| KeyRef(text, ref) { RefTextIff(text, ref); }
  }

  /** What berm.env may hold: the sentinel, or references to keys only. */
  ghost predicate EnvSound(val: string) { val == "all" || forall parts :: PartsOf(val, parts) ==> AllKeyRefs(parts) }

  ghost predicate AllKeyRefs(parts: seq<string>) { forall p <- parts :: IsKeyRef(p) }

  lemma EnvSoundIff(val: string)
    ensures EnvListOf(val).Ok? <==> EnvSound(val)
  {
    var parts := NonBlank(Split(val, ','));
    PartsAre(val, parts);
    var f := (part: string) => EnvRef(None, part);
    CollectOk(Map(f, parts));
    forall p ensures f(p).Ok? <==> IsKeyRef(p) { EnvRefIff(None, p); }
    assert forall i :: 0 <= i < |parts| ==> Map(f, parts)[i] == f(parts[i]) && parts[i] in parts;
    forall other | PartsOf(val, other) ensures other == parts { PartsAre(val, other); }
  }

  ghost predicate ModeSound(v: string) { (|v| == 3 || |v| == 4) && forall c <- v :: c in "01234567" }

  ghost predicate AttrSound(attr: string, v: string) {
    || (attr == "from" && exists ref :: RefText(v, ref))
    || (attr == "path" && HasPrefix(v, "/"))
    || (attr == "owner" && OwnerText(v))
    || (attr == "mode" && ModeSound(v))
  }

  ghost predicate ScalarSound(s: string, v: string) {
    || s == "enable" || s == "name" || s == "volume" || s == "env.acknowledge"
    || (s == "source" && IsSource(v))
    || (s == "delivery" && (v == "client" || v == "hook" || v == "volume"))
    || (s == "owner" && OwnerText(v)) || (s == "mode" && ModeSound(v))
    || ((s == "dotenv" || s == "envdir") && HasPrefix(v, "/"))
  }

  ghost predicate RenameSound(s: string, v: string) {
    exists name :: name != "" && name != "acknowledge" && s == "env." + name && IsKeyRef(v)
  }

  ghost predicate FileSound(s: string, v: string) {
    exists name, attr :: name != "" && '/' !in name && s == "file." + (name + "." + attr) && AttrSound(attr, v)
  }

  /** The labels of the grammar and the values each of them takes. */
  ghost predicate LabelSound(s: string, v: string) {
    ScalarSound(s, v) || (s == "env" && EnvSound(v)) || RenameSound(s, v) || FileSound(s, v)
  }

  lemma ModeIs(v: string)
    ensures ModeText(v) <==> ModeSound(v)
  {
    forall c ensures '0' <= c <= '7' <==> c in "01234567" { OctalIs(c); }
  }

  lemma OctalIs(c: char)
    ensures '0' <= c <= '7' <==> c in "01234567"
  {
    var s := "01234567";
    if '0' <= c <= '7' { assert s[c as int - '0' as int] == c; }
  }

  lemma AttrIff(attr: string, v: string)
    ensures FileAttr(attr) && AttrError(attr, v).None? <==> AttrSound(attr, v)
  {
    ModeIs(v);
    if ParseRef(v).Ok? { RefTextIff(v, ParseRef(v).value); }
    if ref :| RefText(v, ref) { RefTextIff(v, ref); }
  }

  lemma RenameIff(s: string, v: string)
    ensures IsRename(s) && RenameOf(s[4..], v).Ok? <==> RenameSound(s, v)
  {
    if IsRename(s) {
      EnvRefIff(Some(s[4..]), v);
      assert s == "env." + s[4..];
    }
    if name :| name != "" && name != "acknowledge" && s == "env." + name && IsKeyRef(v) {
      assert s[..4] == "env." && s[4..] == name && "env.acknowledge"[4..] == "acknowledge";
      EnvRefIff(Some(name), v);
    }
  }

  lemma FileIff(s: string, v: string)
    ensures IsFile(s) && FileError(s[5..], v).None? <==> FileSound(s, v)
  {
    if IsFile(s) && SplitFile(s[5..]).Ok? {
      var k := SplitFile(s[5..]).value;
      SplitFileForth(s[5..], k);
      AttrIff(k.attr, v);
      assert s == "file." + s[5..];
    }
    if name, attr :| FileName(name) && s == "file." + (name + "." + attr) && AttrSound(attr, v) {
      AttrIff(attr, v);
      FileLabelSplits(FileKey(name, attr));
    }
  }

  /** The accepted labels are exactly those of the grammar. */
  lemma LabelIff(s: string, v: string)
    ensures LabelError(s, v).None? <==> LabelSound(s, v)
  {
    RenameIff(s, v);
    FileIff(s, v);
    EnvSoundIff(v);
    ModeIs(v);
    KindsApart(s);
  }

  /** No label is of two kinds. */
  lemma KindsApart(s: string)
    ensures !(IsRename(s) && IsFile(s))
    ensures IsRename(s) || IsFile(s) || s == "env" ==> forall v :: !ScalarSound(s, v)
    ensures !IsRename("env") && !IsFile("env")
    ensures IsRename(s) ==> s[0] == 'e' && s[3] == '.'
    ensures IsFile(s) ==> s[0] == 'f' && s[4] == '.'
  {
    if IsRename(s) { assert s[..4][0] == 'e' && s[..4][3] == '.'; }
    if IsFile(s) { assert s[..5][0] == 'f' && s[..5][4] == '.'; }
  }

  /** A suffix the grammar has, whatever its value. */
  ghost predicate KnownSuffix(s: string) {
    || s in {"enable", "name", "source", "delivery", "volume", "env", "env.acknowledge", "owner", "mode", "dotenv",
             "envdir"}
    || (exists name :: name != "" && name != "acknowledge" && s == "env." + name)
    || (exists name, attr :: name != "" && '/' !in name && attr in {"from", "path", "owner", "mode"}
                             && s == "file." + (name + "." + attr))
  }

  lemma KnownRename(s: string)
    ensures IsRename(s) ==> (s[4..] == "" <==> !KnownSuffix(s))
  {
    KindsApart(s);
    if IsRename(s) {
      assert s == "env." + s[4..];
      assert s[4..] == "acknowledge" ==> s == "env.acknowledge";
      assert forall name :: s == "env." + name ==> s[4..] == name;
      assert forall rest :: s != "file." + rest;
    }
  }

  lemma KnownFile(s: string)
    ensures IsFile(s) ==> (SplitFile(s[5..]).Ok? <==> KnownSuffix(s))
  {
    KindsApart(s);
    if IsFile(s) {
      assert s == "file." + s[5..] && s[0] == 'f' && s[4] == '.';
      if SplitFile(s[5..]).Ok? { SplitFileForth(s[5..], SplitFile(s[5..]).value); }
      if name, attr :| FileName(name) && attr in {"from", "path", "owner", "mode"}
                       && s == "file." + (name + "." + attr)
      {
        FileLabelSplits(FileKey(name, attr));
      }
    }
  }

  /**
    * How a label fails: rotate is reserved, a suffix the grammar does not have is unknown, a variable cannot be a whole
    * source, and any other fault is a malformed value.
    */
  lemma LabelClass(s: string, v: string, c: Class)
    requires LabelError(s, v) == Some(c)
    ensures c == RotateReserved || c == UnknownSuffix || c == WrongRefShape || c == Malformed
    ensures c == RotateReserved <==> s == "rotate"
    ensures c == UnknownSuffix <==> !KnownSuffix(s) && s != "rotate"
    ensures c == WrongRefShape ==> s == "env" || IsRename(s)
    ensures IsRename(s) && KnownSuffix(s) ==> (c == WrongRefShape <==> IsSource(v))
  {
    KindsApart(s);
    assert "rotate"[0] == 'r';
    KnownRename(s);
    KnownFile(s);
    if s == "env" { ListClass(v); }
    if IsRename(s) {
      if ParseRef(v).Ok? { PrintParseRef(v); }
      if IsSource(v) { RefTextIff(v, Ref(RefSource, v, "")); }
    }
    ParseRefIff(v);
  }

  lemma ListClass(v: string)
    ensures EnvListOf(v).Err? ==> EnvListOf(v).error == WrongRefShape || EnvListOf(v).error == Malformed
  {
    var parts := NonBlank(Split(v, ','));
    var f := (part: string) => EnvRef(None, part);
    if Collect(Map(f, parts)).Err? {
      var i := CollectErr(Map(f, parts));
      ParseRefIff(parts[i]);
      assert Map(f, parts)[i] == f(parts[i]);
    }
  }

  // ---- when an enabled container is accepted, and what its spec says ----

  /** A label asks for variables. */
  ghost predicate AsksEnv(s: string) { s == "env" || (HasPrefix(s, "env.") && s != "env.acknowledge") }

  /** The label is there with that value. */
  ghost predicate Set(m: map<string, string>, s: string, v: string) { s in m && m[s] == v }

  /**
    * Exactly which labels are accepted as an enabled container: they do not conflict, say enable, each is of the
    * grammar with a value it takes, and variables are acknowledged.
    */
  lemma EnabledIff(labels: Labels)
    ensures ParseOf(labels).Ok? && ParseOf(labels).value.enabled <==>
              && !Conflict(labels)
              && var m := Merged(labels).value;
                 Set(m, "enable", "true") && (forall s <- m :: LabelSound(s, m[s]))
                 && ((exists s <- m :: AsksEnv(s)) ==> Set(m, "env.acknowledge", "true"))
  {
    if !Conflict(labels) && Get(Merged(labels).value, "enable") == "true" {
      var m := Merged(labels).value;
      var names := Sorted(m.Keys);
      assert forall s <- names :: s in Elems(names);
      AcceptedIff(m, names);
      assert forall s <- m :: s in Elems(names);
      forall s | s in m ensures LabelError(s, m[s]).None? <==> LabelSound(s, m[s]) { LabelIff(s, m[s]); }
      assert HasEnv(m) <==> exists s <- m :: AsksEnv(s);
    }
  }

  lemma AcceptedLabels(labels: Labels)
    requires ParseOf(labels).Ok? && ParseOf(labels).value.enabled
    ensures Merged(labels).Ok? && Accepted(Merged(labels).value)
    ensures ParseOf(labels).value == SpecOf(Merged(labels).value)
  {
    var m := Merged(labels).value;
    var names := Sorted(m.Keys);
    assert forall s <- names :: s in Elems(names);
    AcceptedIff(m, names);
    assert forall s <- m :: s in Elems(names);
  }

  /** The text is what the label says, empty when there is no such label. */
  ghost predicate Says(m: map<string, string>, s: string, text: string) {
    if s in m then text == m[s] else text == ""
  }

  /** Each field of a spec is what its own label says. */
  ghost predicate FieldsSaid(m: map<string, string>, spec: Spec) {
    && Says(m, "name", spec.name) && Says(m, "source", spec.source) && Says(m, "delivery", spec.delivery)
    && Says(m, "volume", spec.volume) && Says(m, "dotenv", spec.dotenv) && Says(m, "envdir", spec.envdir)
    && Says(m, "owner", spec.owner) && Says(m, "mode", spec.mode)
    && (spec.envAck <==> Set(m, "env.acknowledge", "true"))
  }

  /** The delivery of one key, under the key's own name or the variable's. */
  ghost predicate KeySaid(text: string, varName: Option<string>, e: EnvDelivery) {
    !e.all && KeyRef(text, e.ref) && e.varName == (if varName.Some? then varName.value else e.ref.key)
  }

  /** The deliveries of berm.env: none, the sentinel, or one for each part of the list, named for its key. */
  ghost predicate ListSaid(m: map<string, string>, es: seq<EnvDelivery>) {
    if "env" !in m then es == []
    else if m["env"] == "all" then es == [EnvDelivery("", UNSET, true)]
    else exists parts :: PartsOf(m["env"], parts) && EachSaid(parts, es)
  }

  ghost predicate EachSaid(parts: seq<string>, es: seq<EnvDelivery>) {
    |es| == |parts| && forall i :: 0 <= i < |es| ==> KeySaid(parts[i], None, es[i])
  }

  /** The deliveries of the berm.env.VAR labels, one for each, by variable. */
  ghost predicate RenamesSaid(m: map<string, string>, es: seq<EnvDelivery>) {
    && Ordered(es, ByVar)
    && (forall e <- es :: RenameSaid(m, e))
    && (forall s {:trigger AskedBy(s, es)} :: s in m && AsksEnv(s) && s != "env" ==> AskedBy(s, es))
  }

  /** One of the deliveries is the label's. */
  ghost predicate AskedBy(s: string, es: seq<EnvDelivery>) { exists e <- es :: "env." + e.varName == s }

  ghost predicate RenameSaid(m: map<string, string>, e: EnvDelivery) {
    var s := "env." + e.varName;
    e.varName != "" && s != "env.acknowledge" && s in m && KeySaid(m[s], Some(e.varName), e)
  }

  /** A file delivery: each field is what its own label says. */
  ghost predicate FileSaid(m: map<string, string>, f: FileDelivery) {
    && f.name != "" && '/' !in f.name
    && Says(m, "file." + (f.name + ".path"), f.path) && Says(m, "file." + (f.name + ".owner"), f.owner)
    && Says(m, "file." + (f.name + ".mode"), f.mode)
    && var s := "file." + (f.name + ".from");
       if s in m then RefText(m[s], f.from) && f.from != UNSET else f.from == UNSET
  }

  /** The file deliveries: one for each name some label gives, by name. */
  ghost predicate FilesSaid(m: map<string, string>, fs: seq<FileDelivery>) {
    && Ordered(fs, ByName)
    && (forall f <- fs :: FileSaid(m, f))
    && (forall n, a ::
          n != "" && '/' !in n && a in {"from", "path", "owner", "mode"} && "file." + (n + "." + a) in m ==>
            exists f <- fs :: f.name == n)
  }

  lemma FieldsSay(m: map<string, string>)
    ensures FieldsSaid(m, SpecOf(m))
  {
  }

  lemma ListSays(m: map<string, string>)
    requires Accepted(m)
    ensures ListSaid(m, EnvListIn(m))
  {
    if "env" in m && m["env"] != "all" {
      var parts, es := NonBlank(Split(m["env"], ',')), EnvListIn(m);
      PartsAre(m["env"], parts);
      assert LabelError("env", m["env"]).None?;
      var f := (part: string) => EnvRef(None, part);
      CollectOk(Map(f, parts));
      forall i | 0 <= i < |es| ensures KeySaid(parts[i], None, es[i]) {
        assert Map(f, parts)[i] == f(parts[i]);
        EnvRefIff(None, parts[i]);
      }
      assert EachSaid(parts, es);
    }
  }

  lemma RenamesSay(m: map<string, string>)
    requires Accepted(m)
    ensures RenamesSaid(m, RenamesOf(m))
  {
    var es := RenamesOf(m);
    RenamesListed(m);
    forall e | e in es ensures RenameSaid(m, e) {
      var s :| s in m && IsRename(s) && s[4..] == e.varName;
      assert s == "env." + e.varName && LabelError(s, m[s]).None?;
      EnvRefIff(Some(e.varName), m[s]);
    }
    forall s | s in m && AsksEnv(s) && s != "env" ensures AskedBy(s, es) {
      assert s == "env." + s[4..] && s[4..] in RenameNames(m);
      assert RenameIn(m, s[4..]) in es;
    }
  }

  lemma FromSays(m: map<string, string>, n: string)
    requires Accepted(m) && FileName(n)
    ensures var l, ref := FileLabel(FileKey(n, FROM)), FileOf(m, n).from;
            if l in m then RefText(m[l], ref) && ref != UNSET else ref == UNSET
  {
    var l := FileLabel(FileKey(n, FROM));
    if l in m {
      LabelAttr(FileKey(n, FROM), m[l]);
      PrintParseRef(m[l]);
      RefTextIff(m[l], ParseRef(m[l]).value);
    } else {
      assert ParseRef("").Err?;
    }
  }

  lemma FileLabels(n: string)
    ensures FileLabel(FileKey(n, FROM)) == "file." + (n + ".from")
    ensures FileLabel(FileKey(n, PATH)) == "file." + (n + ".path")
    ensures FileLabel(FileKey(n, OWNER)) == "file." + (n + ".owner")
    ensures FileLabel(FileKey(n, MODE)) == "file." + (n + ".mode")
  {
    assert n + "." + FROM == n + ".from" && n + "." + PATH == n + ".path";
    assert n + "." + OWNER == n + ".owner" && n + "." + MODE == n + ".mode";
  }

  lemma FileSays(m: map<string, string>, n: string)
    requires Accepted(m) && n in FileNames(m)
    ensures FileSaid(m, FileOf(m, n))
  {
    FileNamesValid(m);
    FileLabels(n);
    FromSays(m, n);
  }

  lemma FilesSay(m: map<string, string>)
    requires Accepted(m)
    ensures FilesSaid(m, FilesOf(m))
  {
    FilesOrdered(m);
    FilesListed(m);
    forall f | f in FilesOf(m) ensures FileSaid(m, f) {
      FileFromNames(m, f);
      FileSays(m, f.name);
    }
    forall n, a | n != "" && '/' !in n && a in {"from", "path", "owner", "mode"} && "file." + (n + "." + a) in m
      ensures exists f <- FilesOf(m) :: f.name == n
    {
      FileLabelSplits(FileKey(n, a));
      assert n in FileNames(m);
      assert FileOf(m, n) in FilesOf(m);
    }
  }

  lemma FileFromNames(m: map<string, string>, f: FileDelivery)
    requires f in FilesOf(m)
    ensures f.name in FileNames(m)
  {
    var names, fs := Sorted(FileNames(m)), FilesOf(m);
    var i :| 0 <= i < |fs| && fs[i] == f;
    assert names[i] in Elems(names);
  }

  /**
    * What an accepted spec says, label by label: every field is its own label's, the variables are those of berm.env in
    * list order and then those of the berm.env.VAR labels by variable, and the files are those the file labels name.
    */
  lemma SpecSays(labels: Labels) returns (list: seq<EnvDelivery>, renames: seq<EnvDelivery>)
    requires ParseOf(labels).Ok? && ParseOf(labels).value.enabled
    ensures Merged(labels).Ok?
    ensures var m, spec := Merged(labels).value, ParseOf(labels).value;
            && FieldsSaid(m, spec) && FilesSaid(m, spec.files)
            && spec.env == list + renames && ListSaid(m, list) && RenamesSaid(m, renames)
  {
    AcceptedLabels(labels);
    var m := Merged(labels).value;
    FieldsSay(m);
    ListSays(m);
    RenamesSay(m);
    FilesSay(m);
    list, renames := EnvListIn(m), RenamesOf(m);
  }
}
