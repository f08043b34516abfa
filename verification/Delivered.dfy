/** What a delivery holds, said by the plan's targets and the plaintext of its sources alone. */
module Delivered {
  import opened Prelude
  import opened Wire
  import opened Dotenv
  import opened SopsAge
  import opened Plans
  import opened Paths
  import opened Files
  import opened BuildBundle
  import opened Executors
  import opened Agreement

  // ---- one value ----

  /** The text's first line that assigns to the key assigns the data, and every line before it is well formed. */
  ghost predicate Gives(plain: string, key: string, data: string) {
    exists i: nat :: FirstAssigning(Lines(plain), key, i) && Lines(plain)[i] == key + "=" + data
  }

  /** The source is there, can be decrypted in the format, and this is its plaintext. */
  ghost predicate Decrypts(store: Store, source: string, format: string, plain: string) {
    source in store && store[source].opens && store[source].format == format && store[source].plain == Some(plain)
  }

  /** The data is the whole plaintext of a binary source, or the value a dotenv source gives the key. */
  ghost predicate Secrets(store: Store, source: string, whole: bool, key: string, data: string) {
    if whole then Decrypts(store, source, "binary", data)
    else exists plain :: Decrypts(store, source, "dotenv", plain) && Gives(plain, key, data)
  }

  lemma SecretHeld(store: Store, source: string, whole: bool, key: string, src: Source, data: string)
    requires Opened(store, source) == Ok(src)
    requires if whole then PayloadOf(src) == Ok(data) else ValueOf(src, key) == Ok(data)
    ensures Secrets(store, source, whole, key, data)
  {
    if !whole {
      assert Decrypts(store, source, "dotenv", src.plain.value);
      FoundIff(Lines(src.plain.value), key, data);
    }
  }

  // ---- files and pointers ----

  /** A file target's file: where, whose and how the target says, and the secret it names. */
  ghost predicate FileHolds(store: Store, t: FileTarget, f: FileV) {
    f.path == t.path && f.owner == t.owner && f.mode == t.mode && Secrets(store, t.source, t.whole, t.key, f.data)
  }

  lemma FileHeld(store: Store, t: FileTarget)
    requires FileItem(store, t).Ok?
    ensures FileHolds(store, t, FileItem(store, t).value)
  {
    SecretHeld(store, t.source, t.whole, t.key, Opened(store, t.source).value, Secret(store, t).value);
  }

  /** A target's pointer variable, when it has one, points at its file. */
  ghost predicate PointerHolds(t: FileTarget, ps: seq<Pointer>) {
    ps == if t.pointerVar == "" then [] else [Pointer(t.pointerVar, t.path)]
  }

  // ---- renders ----

  /** The keys of a dotenv text, one for each assigning line. */
  ghost predicate Listed(plain: string, keys: seq<string>) {
    Parse(Lines(plain)).Ok? && keys == KeysIn(Parse(Lines(plain)).value)
  }

  /** One line for each key, in order, with the value the text gives it. */
  ghost predicate LinesOf(plain: string, keys: seq<string>, lines: seq<string>) {
    |lines| == |keys| && forall i :: 0 <= i < |keys| ==> LineOf(plain, keys[i], lines[i])
  }

  ghost predicate LineOf(plain: string, key: string, line: string) {
    exists v :: Gives(plain, key, v) && line == key + "=" + v + "\n"
  }

  ghost predicate DotenvHolds(t: RenderTarget, plain: string, keys: seq<string>, fs: seq<FileV>) {
    exists lines :: LinesOf(plain, keys, lines) && fs == [FileV(t.path, t.owner, t.mode, Concat(lines))]
  }

  ghost predicate EnvdirHolds(t: RenderTarget, plain: string, keys: seq<string>, fs: seq<FileV>) {
    |fs| == |keys|
    && forall i :: 0 <= i < |fs| ==>
         fs[i].path == t.path + "/" + keys[i] && fs[i].owner == t.owner && fs[i].mode == t.mode
         && Gives(plain, keys[i], fs[i].data)
  }

  /** A render target's files: one dotenv file of every key of its source, or one file per key. */
  ghost predicate RenderHolds(store: Store, t: RenderTarget, fs: seq<FileV>) {
    exists plain, keys :: Decrypts(store, t.source, "dotenv", plain) && Listed(plain, keys)
      && ((t.kind == "dotenv" && DotenvHolds(t, plain, keys, fs))
          || (t.kind == "envdir" && EnvdirHolds(t, plain, keys, fs)))
  }

  lemma {:induction false} TextLines(src: Source, keys: seq<string>) returns (lines: seq<string>)
    requires Plain(src, DOTENV).Ok? && DotenvText(src, keys).Ok?
    ensures LinesOf(src.plain.value, keys, lines) && DotenvText(src, keys).value == Concat(lines)
  {
    if keys == [] {
      lines := [];
    } else {
      var v := ValueOf(src, keys[0]).value;
      var rest := TextLines(src, keys[1..]);
      lines := [keys[0] + "=" + v + "\n"] + rest;
      FoundIff(Lines(src.plain.value), keys[0], v);
      assert Gives(src.plain.value, keys[0], v);
      assert lines[1..] == rest;
      forall i | 0 < i < |keys| ensures LineOf(src.plain.value, keys[i], lines[i]) {
        assert keys[i] == keys[1..][i - 1] && lines[i] == rest[i - 1];
      }
    }
  }

  lemma EnvdirFiles(src: Source, t: RenderTarget, keys: seq<string>)
    requires Plain(src, DOTENV).Ok? && Collect(Map((k: string) => EnvdirItem(src, t, k), keys)).Ok?
    ensures EnvdirHolds(t, src.plain.value, keys, Collect(Map((k: string) => EnvdirItem(src, t, k), keys)).value)
  {
    var item := (k: string) => EnvdirItem(src, t, k);
    var fs := Collect(Map(item, keys)).value;
    CollectOk(Map(item, keys));
    forall i | 0 <= i < |fs|
      ensures fs[i].path == t.path + "/" + keys[i] && fs[i].owner == t.owner && fs[i].mode == t.mode
              && Gives(src.plain.value, keys[i], fs[i].data)
    {
      assert Map(item, keys)[i] == Ok(fs[i]) == EnvdirItem(src, t, keys[i]);
      FoundIff(Lines(src.plain.value), keys[i], fs[i].data);
    }
  }

  lemma RenderHeld(store: Store, t: RenderTarget)
    requires RenderItems(store, t).Ok?
    ensures RenderHolds(store, t, RenderItems(store, t).value)
  {
    var src, fs := Opened(store, t.source).value, RenderItems(store, t).value;
    var plain, keys := src.plain.value, KeysOf(src).value;
    assert Decrypts(store, t.source, "dotenv", plain) && Listed(plain, keys);
    if t.kind == RENDER_DOTENV {
      var lines := TextLines(src, keys);
      assert DotenvHolds(t, plain, keys, fs);
    } else {
      EnvdirFiles(src, t, keys);
    }
  }

  // ---- variables ----

  ghost predicate AllHolds(plain: string, keys: seq<string>, vs: seq<EnvV>) {
    |vs| == |keys| && forall i :: 0 <= i < |vs| ==> vs[i].name == keys[i] && Gives(plain, keys[i], vs[i].value)
  }

  /** An env target's variables: every key of its source under its own name, or the one key under its variable's. */
  ghost predicate EnvHolds(store: Store, t: EnvTarget, vs: seq<EnvV>) {
    if t.all then
      exists plain, keys :: Decrypts(store, t.source, "dotenv", plain) && Listed(plain, keys)
                            && AllHolds(plain, keys, vs)
    else
      |vs| == 1 && vs[0].name == (if t.varName != "" then t.varName else t.key)
      && Secrets(store, t.source, false, t.key, vs[0].value)
  }

  lemma EnvHeld(store: Store, t: EnvTarget)
    requires EnvItems(store, t).Ok?
    ensures EnvHolds(store, t, EnvItems(store, t).value)
  {
    var src, vs := Opened(store, t.source).value, EnvItems(store, t).value;
    if t.all {
      var plain, keys := src.plain.value, KeysOf(src).value;
      var item := (k: string) => EnvAllItem(src, k);
      CollectOk(Map(item, keys));
      forall i | 0 <= i < |vs| ensures vs[i].name == keys[i] && Gives(plain, keys[i], vs[i].value) {
        assert Map(item, keys)[i] == Ok(vs[i]) == EnvAllItem(src, keys[i]);
        FoundIff(Lines(plain), keys[i], vs[i].value);
      }
      assert Decrypts(store, t.source, "dotenv", plain) && Listed(plain, keys) && AllHolds(plain, keys, vs);
    } else {
      SecretHeld(store, t.source, false, t.key, src, ValueOf(src, t.key).value);
    }
  }

  // ---- the bundle ----

  /** The parts of a bundle, one for each target of the plan and in its order. */
  datatype Pieces = Pieces(files: seq<FileV>, renders: seq<seq<FileV>>, env: seq<seq<EnvV>>,
                           pointers: seq<seq<Pointer>>)

  ghost predicate PiecesHold(p: Plan, store: Store, x: Pieces) {
    && |x.files| == |p.files| && (forall i :: 0 <= i < |p.files| ==> FileHolds(store, p.files[i], x.files[i]))
    && |x.renders| == |p.renders|
    && (forall i :: 0 <= i < |p.renders| ==> RenderHolds(store, p.renders[i], x.renders[i]))
    && |x.env| == |p.env| && (forall i :: 0 <= i < |p.env| ==> EnvHolds(store, p.env[i], x.env[i]))
    && |x.pointers| == |p.files| && (forall i :: 0 <= i < |p.files| ==> PointerHolds(p.files[i], x.pointers[i]))
  }

  lemma CollectHolds<A, B>(f: A -> Result<B, Failure>, xs: seq<A>)
    requires Collect(Map(f, xs)).Ok?
    ensures |Collect(Map(f, xs)).value| == |xs|
    ensures forall i :: 0 <= i < |xs| ==> f(xs[i]) == Ok(Collect(Map(f, xs)).value[i])
  {
    CollectOk(Map(f, xs));
    assert forall i :: 0 <= i < |xs| ==> Map(f, xs)[i] == f(xs[i]);
  }

  /**
    * A bundle holds, in the order of the plan, the file of each file target, the files of each render, the variables of
    * each env target and the pointer of each file that has one, and nothing else.
    */
  lemma BundleHolds(p: Plan, store: Store, generated: string, codec: Codec) returns (x: Pieces)
    requires Contents(p, store, generated, codec).Ok?
    ensures PiecesHold(p, store, x)
    ensures var b := Contents(p, store, generated, codec).value;
            b.files == x.files + Concat(x.renders) && b.env == Concat(x.env) && b.pointers == Concat(x.pointers)
  {
    var file, render := (t: FileTarget) => FileItem(store, t), (t: RenderTarget) => RenderItems(store, t);
    var env := (t: EnvTarget) => EnvItems(store, t);
    CollectHolds(file, p.files);
    CollectHolds(render, p.renders);
    CollectHolds(env, p.env);
    x := Pieces(Collect(Map(file, p.files)).value, Collect(Map(render, p.renders)).value,
                Collect(Map(env, p.env)).value, Map(PointerOf, p.files));
    forall i | 0 <= i < |p.files| ensures FileHolds(store, p.files[i], x.files[i]) { FileHeld(store, p.files[i]); }
    forall i | 0 <= i < |p.renders| ensures RenderHolds(store, p.renders[i], x.renders[i]) {
      RenderHeld(store, p.renders[i]);
    }
    forall i | 0 <= i < |p.env| ensures EnvHolds(store, p.env[i], x.env[i]) { EnvHeld(store, p.env[i]); }
  }

  /** A bundle is refused to a caller of another service and, with variables, on any mechanism but the client's. */
  lemma GatesAre(caller: string, p: Plan, store: Store, generated: string, codec: Codec)
    ensures BundleOf(caller, p, store, generated, codec) ==
            if caller != "" && p.service != "" && caller != p.service then Err(ScopeMismatch)
            else if p.env != [] && p.mechanism != "client" then Err(EnvRefused)
            else Contents(p, store, generated, codec)
  {
  }

  // ---- the volume ----

  /** A file target's write: the same, at the path moved from under the volume root to under the mount. */
  ghost predicate WriteHolds(store: Store, t: FileTarget, mount: string, w: Write) {
    && UnderRoot(t.path) && w.path == Path(IsAbs(mount), Clean(mount).parts + BelowRoot(t.path))
    && w.rec.owner == t.owner && w.rec.mode == t.mode && Secrets(store, t.source, t.whole, t.key, w.rec.data)
  }

  lemma WriteHeld(store: Store, t: FileTarget, mount: string)
    requires mount != "" && VolumeFile(store, t, mount).Ok?
    ensures WriteHolds(store, t, mount, VolumeFile(store, t, mount).value)
  {
    RebaseAcceptsIff(t.path, mount);
    RebaseLands(t.path, mount);
    FileHeld(store, t);
  }

  /** Where a render's file goes: the moved path of the render itself, or under it for a key. */
  ghost predicate RenderLands(t: RenderTarget, mount: string, f: FileV, path: Path) {
    && UnderRoot(t.path)
    && if t.kind == "dotenv" then path == Path(IsAbs(mount), Clean(mount).parts + BelowRoot(t.path))
       else exists key :: f.path == t.path + "/" + key && KeyPath(t.path, mount, key) == Ok(path)
  }

  /** A render's writes are the files it makes, each with its owner and mode and landed. */
  ghost predicate RenderWritesHold(store: Store, t: RenderTarget, mount: string, ws: seq<Write>) {
    exists fs: seq<FileV> :: RenderHolds(store, t, fs) && |fs| == |ws|
      && forall i :: 0 <= i < |ws| ==>
           ws[i].rec == Rec(fs[i].data, fs[i].owner, fs[i].mode) && RenderLands(t, mount, fs[i], ws[i].path)
  }

  lemma KeysWritten(src: Source, t: RenderTarget, dst: string, keys: seq<string>)
    requires Collect(Map((k: string) => VolumeKey(src, t, dst, k), keys)).Ok?
    ensures var ws := Collect(Map((k: string) => VolumeKey(src, t, dst, k), keys)).value;
            var fs := Collect(Map((k: string) => EnvdirItem(src, t, k), keys));
            && fs.Ok? && |fs.value| == |ws| == |keys|
            && forall i :: 0 <= i < |ws| ==>
                 ws[i] == Write(Clean(JoinPath(dst, keys[i])), Rec(fs.value[i].data, t.owner, t.mode))
                 && fs.value[i].path == t.path + "/" + keys[i] && fs.value[i].owner == t.owner
                 && fs.value[i].mode == t.mode
  {
    var w, f := (k: string) => VolumeKey(src, t, dst, k), (k: string) => EnvdirItem(src, t, k);
    CollectHolds(w, keys);
    forall i | 0 <= i < |keys| ensures f(keys[i]).Ok? { assert w(keys[i]).Ok?; }
    CollectOk(Map(f, keys));
    CollectHolds(f, keys);
  }

  lemma RenderWritesHeld(store: Store, t: RenderTarget, mount: string)
    requires mount != "" && Collect(VolumeRender(store, t, mount)).Ok?
    ensures RenderWritesHold(store, t, mount, Collect(VolumeRender(store, t, mount)).value)
  {
    OkParts(store, t, mount);
    var src, dst := Opened(store, t.source).value, Rebase(t.path, mount).value;
    if t.kind == RENDER_ENVDIR {
      EnvdirWritesHeld(store, t, mount, src, dst, KeysOf(src).value);
    } else {
      DotenvWriteHeld(store, t, mount, src, dst, KeysOf(src).value);
    }
  }

  lemma DotenvWriteHeld(store: Store, t: RenderTarget, mount: string, src: Source, dst: string, keys: seq<string>)
    requires mount != "" && Rebase(t.path, mount) == Ok(dst) && Opened(store, t.source) == Ok(src)
    requires KeysOf(src) == Ok(keys) && t.kind == RENDER_DOTENV && Collect([VolumeDotenv(src, t, dst, keys)]).Ok?
    ensures RenderWritesHold(store, t, mount, Collect([VolumeDotenv(src, t, dst, keys)]).value)
  {
    RebaseAcceptsIff(t.path, mount);
    RebaseLands(t.path, mount);
    var w := VolumeDotenv(src, t, dst, keys);
    CollectOne(w);
    var fs := [FileV(t.path, t.owner, t.mode, w.value.rec.data)];
    assert RenderOf(src, t) == Ok(fs);
    RenderHeld(store, t);
    assert RenderLands(t, mount, fs[0], w.value.path);
  }

  lemma EnvdirWritesHeld(store: Store, t: RenderTarget, mount: string, src: Source, dst: string, keys: seq<string>)
    requires Rebase(t.path, mount) == Ok(dst) && Opened(store, t.source) == Ok(src)
    requires KeysOf(src) == Ok(keys) && t.kind == RENDER_ENVDIR
    requires Collect(Map((k: string) => VolumeKey(src, t, dst, k), keys)).Ok?
    ensures RenderWritesHold(store, t, mount, Collect(Map((k: string) => VolumeKey(src, t, dst, k), keys)).value)
  {
    RebaseAcceptsIff(t.path, mount);
    KeysWritten(src, t, dst, keys);
    RenderHeld(store, t);
    var ws := Collect(Map((k: string) => VolumeKey(src, t, dst, k), keys)).value;
    var fs := Collect(Map((k: string) => EnvdirItem(src, t, k), keys)).value;
    assert RenderItems(store, t) == Ok(fs);
    forall i | 0 <= i < |ws| ensures RenderLands(t, mount, fs[i], ws[i].path) {
      assert KeyPath(t.path, mount, keys[i]) == Ok(ws[i].path);
    }
  }

  lemma OkParts(store: Store, t: RenderTarget, mount: string)
    requires Collect(VolumeRender(store, t, mount)).Ok?
    ensures Rebase(t.path, mount).Ok? && Opened(store, t.source).Ok? && KeysOf(Opened(store, t.source).value).Ok?
    ensures t.kind == RENDER_DOTENV || t.kind == RENDER_ENVDIR
  {
    CollectOk(VolumeRender(store, t, mount));
  }

  /** Collecting a list of lists is collecting each and joining them. */
  lemma {:induction false} CollectPieces<T>(xss: seq<seq<Result<T, Failure>>>) returns (vss: seq<seq<T>>)
    requires Collect(Concat(xss)).Ok?
    ensures |vss| == |xss| && forall i :: 0 <= i < |xss| ==> Collect(xss[i]) == Ok(vss[i])
    ensures Collect(Concat(xss)).value == Concat(vss)
  {
    if xss == [] {
      vss := [];
    } else {
      CollectAppend(xss[0], Concat(xss[1..]));
      var rest := CollectPieces(xss[1..]);
      vss := [Collect(xss[0]).value] + rest;
      assert vss[1..] == rest;
    }
  }

  /** A push that comes to its manifest has made each file target's write and then each render's writes, in order. */
  lemma VolumeHolds(p: Plan, store: Store, mount: string) returns (files: seq<Write>, renders: seq<seq<Write>>)
    requires mount != "" && Collect(VolumeIntents(p, store, mount)).Ok?
    ensures Collect(VolumeIntents(p, store, mount)).value == files + Concat(renders)
    ensures |files| == |p.files| && forall i :: 0 <= i < |files| ==> WriteHolds(store, p.files[i], mount, files[i])
    ensures |renders| == |p.renders|
            && forall i :: 0 <= i < |renders| ==> RenderWritesHold(store, p.renders[i], mount, renders[i])
  {
    var file := (t: FileTarget) => VolumeFile(store, t, mount);
    var render := (t: RenderTarget) => VolumeRender(store, t, mount);
    CollectAppend(Map(file, p.files), Concat(Map(render, p.renders)));
    CollectHolds(file, p.files);
    files := Collect(Map(file, p.files)).value;
    renders := CollectPieces(Map(render, p.renders));
    forall i | 0 <= i < |files| ensures WriteHolds(store, p.files[i], mount, files[i]) {
      WriteHeld(store, p.files[i], mount);
    }
    forall i | 0 <= i < |renders| ensures RenderWritesHold(store, p.renders[i], mount, renders[i]) {
      assert Map(render, p.renders)[i] == render(p.renders[i]);
      RenderWritesHeld(store, p.renders[i], mount);
    }
  }

  /** The manifest's write: at the mount's own manifest, owned by root and readable by all. */
  lemma ManifestWrite(m: string, mount: string)
    requires mount != ""
    ensures VolumeManifest(m, mount)
            == Write(Path(IsAbs(mount), Clean(mount).parts + ["manifest"]), Rec(m, "0:0", "0444"))
  {
    ManifestClean();
    RebaseLands(MANIFEST_PATH, mount);
  }

  lemma {:induction false} WriteStands(files: FileMap, ws: seq<Write>, i: nat)
    requires i < |ws| && forall j :: i < j < |ws| ==> ws[j].path != ws[i].path
    ensures ws[i].path in Apply(files, ws) && Apply(files, ws)[ws[i].path] == ws[i].rec
  {
    if i < |ws| - 1 { WriteStands(files, ws[..|ws| - 1], i); }
  }

  /** After a push succeeds, a file target's file stands in the volume, unless a later write of the plan replaces it. */
  lemma VolumeFileLeft(p: Plan, store: Store, generated: string, codec: Codec, mount: string, before: FileMap, i: nat)
    requires mount != "" && Collect(VolumeIntents(p, store, mount)).Ok? && ManifestOf(p, store, generated).Ok?
    requires i < |p.files| && UnderRoot(p.files[i].path)
    requires var ws := VolumeWrites(p, store, generated, codec, mount);
             i < |ws| && forall j :: i < j < |ws| ==> ws[j].path != ws[i].path
    ensures var after := Apply(before, VolumeWrites(p, store, generated, codec, mount));
            var at := Path(IsAbs(mount), Clean(mount).parts + BelowRoot(p.files[i].path));
            at in after && WriteHolds(store, p.files[i], mount, Write(at, after[at]))
  {
    var files, renders := VolumeHolds(p, store, mount);
    var ws := VolumeWrites(p, store, generated, codec, mount);
    assert ws[i] == files[i];
    WriteStands(before, ws, i);
  }

  // ---- the manifest ----

  /** The manifest says of each delivery what the plan says, with the hash its source has. */
  ghost predicate ManifestHolds(p: Plan, store: Store, generated: string, m: Manifest) {
    && m.version == 1 && m.container == p.container && m.service == p.service && m.mechanism == p.mechanism
    && m.generated == generated
    && |m.files| == |p.files| && (forall i :: 0 <= i < |p.files| ==> FileListed(store, p.files[i], m.files[i]))
    && |m.renders| == |p.renders|
    && (forall i :: 0 <= i < |p.renders| ==> RenderListed(store, p.renders[i], m.renders[i]))
    && |m.env| == |p.env| && (forall i :: 0 <= i < |p.env| ==> EnvListed(store, p.env[i], m.env[i]))
  }

  ghost predicate Hashed(store: Store, source: string, hash: string) {
    source in store && store[source].hash == Some(hash)
  }

  ghost predicate FileListed(store: Store, t: FileTarget, f: ManifestFile) {
    && f.name == t.name && f.path == t.path && f.owner == t.owner && f.mode == t.mode && f.source == t.source
    && f.pointerVar == t.pointerVar && Hashed(store, t.source, f.cipherHash)
  }

  ghost predicate RenderListed(store: Store, t: RenderTarget, r: ManifestRender) {
    r.kind == t.kind && r.path == t.path && r.source == t.source && Hashed(store, t.source, r.cipherHash)
  }

  ghost predicate EnvListed(store: Store, t: EnvTarget, e: ManifestEnv) {
    && e.varName == t.varName && e.source == t.source && e.key == t.key && e.all == t.all
    && Hashed(store, t.source, e.cipherHash)
  }

  lemma HashedIff(store: Store, source: string)
    ensures HashOf(store, source).Ok? <==> exists h :: Hashed(store, source, h)
    ensures HashOf(store, source).Ok? ==> Hashed(store, source, HashOf(store, source).value)
  {
    if HashOf(store, source).Ok? { assert Hashed(store, source, HashOf(store, source).value); }
  }

  /** A manifest comes out when every source of the plan can be hashed, and only then. */
  lemma ManifestIff(p: Plan, store: Store, generated: string)
    ensures ManifestOf(p, store, generated).Ok? <==> forall s <- SourcesOf(p) :: exists h :: Hashed(store, s, h)
  {
    forall s ensures HashOf(store, s).Ok? <==> exists h :: Hashed(store, s, h) { HashedIff(store, s); }
    CollectOkIff((t: FileTarget) => FileEntry(store, t), p.files);
    CollectOkIff((t: RenderTarget) => RenderEntry(store, t), p.renders);
    CollectOkIff((t: EnvTarget) => EnvEntry(store, t), p.env);
    if forall s <- SourcesOf(p) :: HashOf(store, s).Ok? {
      forall t | t in p.files ensures FileEntry(store, t).Ok? { assert t.source in SourcesOf(p); }
      forall t | t in p.renders ensures RenderEntry(store, t).Ok? { assert t.source in SourcesOf(p); }
      forall t | t in p.env ensures EnvEntry(store, t).Ok? { assert t.source in SourcesOf(p); }
    }
  }

  /** What a manifest says was delivered is what the plan delivers, each source with its own hash. */
  lemma ManifestSays(p: Plan, store: Store, generated: string)
    requires ManifestOf(p, store, generated).Ok?
    ensures ManifestHolds(p, store, generated, ManifestOf(p, store, generated).value)
  {
    forall s ensures HashOf(store, s).Ok? ==> Hashed(store, s, HashOf(store, s).value) { HashedIff(store, s); }
    CollectHolds((t: FileTarget) => FileEntry(store, t), p.files);
    CollectHolds((t: RenderTarget) => RenderEntry(store, t), p.renders);
    CollectHolds((t: EnvTarget) => EnvEntry(store, t), p.env);
  }

  lemma CollectOkIff<A, B>(f: A -> Result<B, Failure>, xs: seq<A>)
    ensures Collect(Map(f, xs)).Ok? <==> forall x <- xs :: f(x).Ok?
  {
    CollectOk(Map(f, xs));
    assert forall i :: 0 <= i < |xs| ==> Map(f, xs)[i] == f(xs[i]);
  }
}
