/** The two executors of one plan leave the same files, up to the move of the volume root to the volume's mount. */
module Agreement {
  import opened Prelude
  import opened Text
  import opened Wire
  import opened Dotenv
  import opened SopsAge
  import opened Plans
  import opened Paths
  import opened Files
  import opened BuildBundle
  import opened Executors

  /** The keys an envdir render makes files of, where it can list them and its directory can be rebased. */
  function FileKeys(store: Store, t: RenderTarget): seq<string> {
    if t.kind == RENDER_ENVDIR && UnderRoot(t.path) && Opened(store, t.source).Ok?
       && KeysOf(Opened(store, t.source).value).Ok?
    then KeysOf(Opened(store, t.source).value).value else []
  }

  /** No key of an envdir render climbs above the volume root. */
  ghost predicate KeysStay(store: Store, t: RenderTarget) {
    forall k <- FileKeys(store, t) :: UnderRoot(t.path) && KeyStays(t.path, k)
  }

  /** What volume mode can deliver, and deliver to the same places: no env, and every path under the volume root. */
  ghost predicate Deliverable(p: Plan, store: Store) {
    && p.env == []
    && (forall t <- p.files :: UnderRoot(t.path))
    && (forall t <- p.renders :: UnderRoot(t.path) && KeysStay(store, t))
  }

  predicate Below(q: Path) { q.rooted && ROOT <= q.parts }

  /** Where a container path under the volume root lies on the daemon's side. */
  function Moved(q: Path, mount: string): Path {
    if Below(q) then Path(IsAbs(mount), Clean(mount).parts + q.parts[|ROOT|..]) else q
  }

  function MovedWrite(w: Write, mount: string): Write { Write(Moved(w.path, mount), w.rec) }

  function MovedFile(mount: string): FileV -> Write { (f: FileV) => MovedWrite(FileWrite(f), mount) }

  lemma MovedInjective(p: Path, q: Path, mount: string)
    requires Below(p) && Below(q)
    ensures Moved(p, mount) == Moved(q, mount) <==> p == q
  {
    SameBelow(Clean(mount).parts, p.parts[|ROOT|..], q.parts[|ROOT|..]);
    assert p.parts == ROOT + p.parts[|ROOT|..] && q.parts == ROOT + q.parts[|ROOT|..];
  }

  // ---- one delivery at a time ----

  /** The same outcome, with each value changed by h. */
  function Then<A, B>(r: Result<A, Failure>, h: A -> B): Result<B, Failure> {
    match r case Err(e) => Err(e) case Ok(v) => Ok(h(v))
  }

  lemma FileAgrees(store: Store, t: FileTarget, mount: string)
    requires UnderRoot(t.path) && mount != ""
    ensures VolumeFile(store, t, mount) == Then(FileItem(store, t), MovedFile(mount))
  {
    RebaseLands(t.path, mount);
  }

  /** A key that stays makes its file at the moved place. */
  lemma KeyMoved(path: string, mount: string, key: string)
    requires UnderRoot(path) && mount != "" && KeyStays(path, key)
    ensures Below(Clean(path + "/" + key)) && KeyPath(path, mount, key) == Ok(Moved(Clean(path + "/" + key), mount))
  {
    KeyMoves(path, mount, key);
    var below := PushAll(true, BelowRoot(path), Split(key, '/'));
    assert (ROOT + below)[|ROOT|..] == below;
  }

  lemma KeyAgrees(src: Source, t: RenderTarget, key: string, mount: string)
    requires UnderRoot(t.path) && mount != "" && KeyStays(t.path, key)
    ensures Rebase(t.path, mount).Ok?
    ensures VolumeKey(src, t, Rebase(t.path, mount).value, key) == Then(EnvdirItem(src, t, key), MovedFile(mount))
    ensures Below(Clean(t.path + "/" + key))
  {
    RebaseAcceptsIff(t.path, mount);
    KeyMoved(t.path, mount, key);
  }

  lemma RenderAgrees(store: Store, t: RenderTarget, mount: string)
    requires UnderRoot(t.path) && mount != "" && KeysStay(store, t)
    ensures Collect(VolumeRender(store, t, mount))
            == Then(RenderItems(store, t), (fs: seq<FileV>) => Map(MovedFile(mount), fs))
  {
    RebaseLands(t.path, mount);
    var dst := Rebase(t.path, mount).value;
    match Opened(store, t.source)
    case Err(e) => CollectOne<Write, Failure>(Err(e));
    case Ok(src) => RenderOfAgrees(src, t, dst, mount);
  }

  lemma RenderOfAgrees(src: Source, t: RenderTarget, dst: string, mount: string)
    requires UnderRoot(t.path) && mount != "" && Rebase(t.path, mount) == Ok(dst)
    requires t.kind == RENDER_ENVDIR && KeysOf(src).Ok? ==> forall k <- KeysOf(src).value :: KeyStays(t.path, k)
    ensures Collect(VolumeRenderOf(src, t, dst))
            == Then(RenderOf(src, t), (fs: seq<FileV>) => Map(MovedFile(mount), fs))
  {
    match KeysOf(src)
    case Err(e) => CollectOne<Write, Failure>(Err(e));
    case Ok(keys) =>
      if t.kind == RENDER_DOTENV {
        DotenvAgrees(src, t, dst, keys, mount);
      } else if t.kind == RENDER_ENVDIR {
        forall k | k in keys
          ensures VolumeKey(src, t, dst, k) == Then(EnvdirItem(src, t, k), MovedFile(mount))
        {
          KeyAgrees(src, t, k, mount);
        }
        CollectMapThen((k: string) => EnvdirItem(src, t, k), (k: string) => VolumeKey(src, t, dst, k),
                       MovedFile(mount), keys);
      } else {
        CollectOne<Write, Failure>(Err(BadRenderKind));
      }
  }

  lemma DotenvAgrees(src: Source, t: RenderTarget, dst: string, keys: seq<string>, mount: string)
    requires UnderRoot(t.path) && mount != "" && Rebase(t.path, mount) == Ok(dst)
    requires t.kind == RENDER_DOTENV && KeysOf(src) == Ok(keys)
    ensures Collect(VolumeRenderOf(src, t, dst))
            == Then(RenderOf(src, t), (fs: seq<FileV>) => Map(MovedFile(mount), fs))
  {
    RebaseLands(t.path, mount);
    var w := VolumeDotenv(src, t, dst, keys);
    CollectOne(w);
    if w.Ok? { MapOne(MovedFile(mount), FileV(t.path, t.owner, t.mode, DotenvText(src, keys).value)); }
  }

  lemma MapOne<A, B>(h: A -> B, a: A)
    ensures Map(h, [a]) == [h(a)]
  {
  }

  lemma MapAppend<A, B>(h: A -> B, a: seq<A>, b: seq<A>)
    ensures Map(h, a + b) == Map(h, a) + Map(h, b)
  {
  }

  lemma {:induction false} CollectMapThen<A, B, C>(f: A -> Result<B, Failure>, g: A -> Result<C, Failure>,
                                                   h: B -> C, xs: seq<A>)
    requires forall x <- xs :: g(x) == Then(f(x), h)
    ensures Collect(Map(g, xs)) == Then(Collect(Map(f, xs)), (bs: seq<B>) => Map(h, bs))
  {
    if xs == [] {
      assert Map(f, xs) == [] && Map(g, xs) == [];
      assert Map(h, []) == [];
    } else {
      CollectMapThen(f, g, h, xs[1..]);
      assert Map(f, xs)[1..] == Map(f, xs[1..]) && Map(g, xs)[1..] == Map(g, xs[1..]);
      assert xs[0] in xs;
      if f(xs[0]).Ok? && Collect(Map(f, xs[1..])).Ok? {
        var b, bs := f(xs[0]).value, Collect(Map(f, xs[1..])).value;
        assert Map(h, [b] + bs) == [h(b)] + Map(h, bs);
      }
    }
  }

  lemma {:induction false} CollectConcatThen<A, B, C>(f: A -> Result<seq<B>, Failure>, g: A -> seq<Result<C, Failure>>,
                                                      h: B -> C, xs: seq<A>)
    requires forall x <- xs :: Collect(g(x)) == Then(f(x), (bs: seq<B>) => Map(h, bs))
    ensures Collect(Concat(Map(g, xs))) == Then(Collect(Map(f, xs)), (bss: seq<seq<B>>) => Map(h, Concat(bss)))
  {
    if xs == [] {
      assert Map(f, xs) == [] && Map(g, xs) == [];
      assert Map(h, []) == [];
    } else {
      CollectConcatThen(f, g, h, xs[1..]);
      assert Map(f, xs)[1..] == Map(f, xs[1..]) && Map(g, xs)[1..] == Map(g, xs[1..]);
      assert xs[0] in xs;
      CollectAppend(g(xs[0]), Concat(Map(g, xs[1..])));
      if f(xs[0]).Ok? && Collect(Map(f, xs[1..])).Ok? {
        var bs, bss := f(xs[0]).value, Collect(Map(f, xs[1..])).value;
        assert ([bs] + bss)[1..] == bss;
        MapAppend(h, bs, Concat(bss));
      }
    }
  }

  // ---- the whole plan ----

  /**
    * For one plan both executors fail with the same failure, or the volume's writes are the bundle's files in the same
    * order, moved: same content, owner and mode.
    */
  lemma ExecutorsAgree(p: Plan, store: Store, generated: string, codec: Codec, mount: string)
    requires Deliverable(p, store) && mount != ""
    ensures match (Collect(VolumeIntents(p, store, mount)), ManifestOf(p, store, generated))
            case (Err(e), _) => Contents(p, store, generated, codec) == Err(e)
            case (Ok(_), Err(e)) => Contents(p, store, generated, codec) == Err(e)
            case (Ok(ws), Ok(m)) =>
              && Contents(p, store, generated, codec).Ok?
              && ws == Map(MovedFile(mount), Contents(p, store, generated, codec).value.files)
              && Contents(p, store, generated, codec).value.manifest == codec.marshal(m)
  {
    FilesAgree(p, store, mount);
    RendersAgree(p, store, mount);
    CollectAppend(Map((t: FileTarget) => VolumeFile(store, t, mount), p.files),
                  Concat(Map((t: RenderTarget) => VolumeRender(store, t, mount), p.renders)));
    assert Map((t: EnvTarget) => EnvItems(store, t), p.env) == [];
    var files := Collect(Map((t: FileTarget) => FileItem(store, t), p.files));
    var renders := Collect(Map((t: RenderTarget) => RenderItems(store, t), p.renders));
    if files.Ok? && renders.Ok? { MapAppend(MovedFile(mount), files.value, Concat(renders.value)); }
  }

  lemma FilesAgree(p: Plan, store: Store, mount: string)
    requires Deliverable(p, store) && mount != ""
    ensures Collect(Map((t: FileTarget) => VolumeFile(store, t, mount), p.files))
         == Then(Collect(Map((t: FileTarget) => FileItem(store, t), p.files)),
                 (fs: seq<FileV>) => Map(MovedFile(mount), fs))
  {
    var ff, vf := (t: FileTarget) => FileItem(store, t), (t: FileTarget) => VolumeFile(store, t, mount);
    forall t | t in p.files ensures vf(t) == Then(ff(t), MovedFile(mount)) {
      FileAgrees(store, t, mount);
    }
    CollectMapThen(ff, vf, MovedFile(mount), p.files);
  }

  lemma RendersAgree(p: Plan, store: Store, mount: string)
    requires Deliverable(p, store) && mount != ""
    ensures Collect(Concat(Map((t: RenderTarget) => VolumeRender(store, t, mount), p.renders)))
         == Then(Collect(Map((t: RenderTarget) => RenderItems(store, t), p.renders)),
                 (fss: seq<seq<FileV>>) => Map(MovedFile(mount), Concat(fss)))
  {
    var fr, vr := (t: RenderTarget) => RenderItems(store, t), (t: RenderTarget) => VolumeRender(store, t, mount);
    forall t | t in p.renders ensures Collect(vr(t)) == Then(fr(t), (bs: seq<FileV>) => Map(MovedFile(mount), bs)) {
      RenderAgrees(store, t, mount);
    }
    CollectConcatThen(fr, vr, MovedFile(mount), p.renders);
  }

  /** Moving every write moves every last writer. */
  lemma {:induction false} LastMoved(ws: seq<Write>, q: Path, mount: string)
    requires Below(q) && forall w <- ws :: Below(w.path)
    ensures Last(Map((w: Write) => MovedWrite(w, mount), ws), Moved(q, mount)) == Last(ws, q)
  {
    var mv := (w: Write) => MovedWrite(w, mount);
    if ws != [] {
      var n := |ws| - 1;
      assert Map(mv, ws)[..n] == Map(mv, ws[..n]);
      LastMoved(ws[..n], q, mount);
      MovedInjective(ws[n].path, q, mount);
    }
  }

  // ---- every delivered file lies under the volume root ----

  ghost predicate AllBelow(fs: seq<FileV>) { forall f <- fs :: Below(FileWrite(f).path) }

  lemma RenderBelow(store: Store, t: RenderTarget)
    requires UnderRoot(t.path) && KeysStay(store, t) && RenderItems(store, t).Ok?
    ensures AllBelow(RenderItems(store, t).value)
  {
    if t.kind == RENDER_ENVDIR {
      var src := Opened(store, t.source).value;
      var keys, fs := KeysOf(src).value, RenderItems(store, t).value;
      var item := (k: string) => EnvdirItem(src, t, k);
      CollectOk(Map(item, keys));
      forall i | 0 <= i < |fs| ensures Below(FileWrite(fs[i]).path) {
        assert Map(item, keys)[i] == Ok(fs[i]);
        assert keys[i] in keys;
        KeyAgrees(src, t, keys[i], "/");
      }
    }
  }

  lemma {:induction false} ConcatBelow(fss: seq<seq<FileV>>)
    requires forall fs <- fss :: AllBelow(fs)
    ensures AllBelow(Concat(fss))
  {
    if fss != [] {
      ConcatBelow(fss[1..]);
      assert AllBelow(fss[0]);
    }
  }

  lemma ContentsBelow(p: Plan, store: Store, generated: string, codec: Codec)
    requires Deliverable(p, store) && Contents(p, store, generated, codec).Ok?
    ensures AllBelow(Contents(p, store, generated, codec).value.files)
  {
    var ff, fr := (t: FileTarget) => FileItem(store, t), (t: RenderTarget) => RenderItems(store, t);
    var files, renders := Collect(Map(ff, p.files)).value, Collect(Map(fr, p.renders)).value;
    CollectOk(Map(ff, p.files));
    CollectOk(Map(fr, p.renders));
    forall i | 0 <= i < |files| ensures Below(FileWrite(files[i]).path) {
      assert Map(ff, p.files)[i] == Ok(files[i]) && p.files[i] in p.files;
    }
    forall i | 0 <= i < |renders| ensures AllBelow(renders[i]) {
      assert Map(fr, p.renders)[i] == Ok(renders[i]) && p.renders[i] in p.renders;
      RenderBelow(store, p.renders[i]);
    }
    ConcatBelow(renders);
  }

  // ---- the files left behind ----

  /** Everything a successful applyVolume writes. */
  function VolumeWrites(p: Plan, store: Store, generated: string, codec: Codec, mount: string): seq<Write>
    requires Collect(VolumeIntents(p, store, mount)).Ok? && ManifestOf(p, store, generated).Ok?
  {
    Collect(VolumeIntents(p, store, mount)).value
    + [VolumeManifest(codec.marshal(ManifestOf(p, store, generated).value), mount)]
  }

  /** A JSON manifest is never the empty text, which the client would take for no manifest. */
  lemma WritesAgree(p: Plan, store: Store, generated: string, codec: Codec, mount: string)
    requires Deliverable(p, store) && mount != ""
    requires Collect(VolumeIntents(p, store, mount)).Ok? && ManifestOf(p, store, generated).Ok?
    requires codec.marshal(ManifestOf(p, store, generated).value) != ""
    ensures Contents(p, store, generated, codec).Ok?
    ensures var cs := ClientWrites(Contents(p, store, generated, codec).value, MANIFEST_PATH);
            && VolumeWrites(p, store, generated, codec, mount) == Map((w: Write) => MovedWrite(w, mount), cs)
            && forall w <- cs :: Below(w.path)
  {
    ExecutorsAgree(p, store, generated, codec, mount);
    ContentsBelow(p, store, generated, codec);
    ManifestMoves(codec.marshal(ManifestOf(p, store, generated).value), mount);
    var m := Write(Clean(MANIFEST_PATH),
                   Rec(codec.marshal(ManifestOf(p, store, generated).value), MANIFEST_OWNER, MANIFEST_MODE));
    MovedAll(Contents(p, store, generated, codec).value.files, m, mount);
  }

  lemma MovedAll(fs: seq<FileV>, m: Write, mount: string)
    requires AllBelow(fs) && Below(m.path)
    ensures Map(MovedFile(mount), fs) + [MovedWrite(m, mount)]
            == Map((w: Write) => MovedWrite(w, mount), Map(FileWrite, fs) + [m])
    ensures forall w <- Map(FileWrite, fs) + [m] :: Below(w.path)
  {
    forall i | 0 <= i < |fs| ensures Below(Map(FileWrite, fs)[i].path) {
      assert fs[i] in fs;
    }
  }

  lemma ManifestMoves(m: string, mount: string)
    requires mount != ""
    ensures Below(Clean(MANIFEST_PATH))
    ensures VolumeManifest(m, mount)
            == MovedWrite(Write(Clean(MANIFEST_PATH), Rec(m, MANIFEST_OWNER, MANIFEST_MODE)), mount)
  {
    ManifestClean();
    RebaseLands(MANIFEST_PATH, mount);
  }

  /**
    * After both executors have succeeded, each path under the volume root holds the same content, owner and mode in the
    * volume as in the container, last writer winning on both sides; a path neither of them names is left as it was.
    */
  lemma SameFilesLeft(p: Plan, store: Store, generated: string, codec: Codec, mount: string,
                      volume: FileMap, container: FileMap, q: Path)
    requires Deliverable(p, store) && mount != "" && Below(q)
    requires Collect(VolumeIntents(p, store, mount)).Ok? && ManifestOf(p, store, generated).Ok?
    requires codec.marshal(ManifestOf(p, store, generated).value) != ""
    ensures Contents(p, store, generated, codec).Ok?
    ensures var cs := ClientWrites(Contents(p, store, generated, codec).value, MANIFEST_PATH);
            var inVolume := Apply(volume, VolumeWrites(p, store, generated, codec, mount));
            var inContainer := Apply(container, cs);
            if exists w :: w in cs && w.path == q
            then Moved(q, mount) in inVolume && q in inContainer && inVolume[Moved(q, mount)] == inContainer[q]
            else SameAt(inVolume, volume, Moved(q, mount)) && SameAt(inContainer, container, q)
  {
    WritesAgree(p, store, generated, codec, mount);
    var cs := ClientWrites(Contents(p, store, generated, codec).value, MANIFEST_PATH);
    LastMoved(cs, q, mount);
    LastIs(cs, q);
    ApplyIsLast(volume, VolumeWrites(p, store, generated, codec, mount), Moved(q, mount));
    ApplyIsLast(container, cs, q);
  }

  ghost predicate SameAt(a: FileMap, b: FileMap, path: Path) {
    (path in a <==> path in b) && (path in a ==> a[path] == b[path])
  }
}
