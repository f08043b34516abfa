/** What a volume push can reach: exactly when it stays inside its mount, and what keys that climb do. */
module Containment {
  import opened Prelude
  import opened Text
  import opened Dotenv
  import opened SopsAge
  import opened Plans
  import opened Paths
  import opened Files
  import opened BuildBundle
  import opened Executors
  import opened Agreement
  import opened ReadySignal
  import opened VolumePush

  /** However far a run of these intents gets, it changes nothing outside the mount. */
  ghost predicate NeverOutside(xs: Intents, mount: string) {
    forall before: FileMap, after: FileMap, n: nat, r: Path ::
      !Inside(mount, r) && DidFirst(before, after, xs, n) ==> SameAt(after, before, r)
  }

  lemma NoneDone(before: FileMap, after: FileMap, xs: Intents, n: nat, r: Path)
    requires DidFirst(before, after, xs, n) && forall i :: 0 <= i < n ==> xs[i].Ok? ==> xs[i].value.path != r
    ensures SameAt(after, before, r)
  {
    CollectOk(xs[..n]);
    var ws := Collect(xs[..n]).value;
    forall w | w in ws ensures w.path != r {
      var k :| 0 <= k < |ws| && ws[k] == w;
      assert xs[..n][k] == Ok(w);
    }
    LastIs(ws, r);
    ApplyIsLast(before, ws, r);
  }

  /** What the push can get as far as writing, one run from nothing leaves there. */
  lemma Reaches(xs: Intents, i: nat)
    requires Lands(xs, i)
    ensures exists after :: DidFirst(map[], after, xs, i + 1) && xs[i].value.path in after
  {
    CollectOk(xs[..i + 1]);
    var ws := Collect(xs[..i + 1]).value;
    assert xs[..i + 1][i] == Ok(ws[i]);
    assert ws[i] in ws;
    LastIs(ws, xs[i].value.path);
    ApplyIsLast(map[], ws, xs[i].value.path);
    assert DidFirst(map[], Apply(map[], ws), xs, i + 1);
  }

  /** A push never changes anything outside the mount exactly when all it can get as far as writing is inside. */
  lemma OutsideIff(xs: Intents, mount: string)
    ensures NeverOutside(xs, mount) <==> forall i: nat :: Lands(xs, i) ==> Inside(mount, xs[i].value.path)
  {
    if NeverOutside(xs, mount) {
      forall i: nat | Lands(xs, i) ensures Inside(mount, xs[i].value.path) {
        Reaches(xs, i);
        var after :| DidFirst(map[], after, xs, i + 1) && xs[i].value.path in after;
        assert Inside(mount, xs[i].value.path) || SameAt(after, map[], xs[i].value.path);
      }
    }
    if forall i: nat :: Lands(xs, i) ==> Inside(mount, xs[i].value.path) {
      forall before: FileMap, after: FileMap, n: nat, r: Path | !Inside(mount, r) && DidFirst(before, after, xs, n)
        ensures SameAt(after, before, r)
      {
        CollectOk(xs[..n]);
        forall i | 0 <= i < n ensures xs[i].Ok? && xs[i].value.path != r {
          assert forall k :: 0 <= k < n ==> xs[..n][k].Ok?;
          assert Lands(xs, i);
        }
        NoneDone(before, after, xs, n, r);
      }
    }
  }

  // ---- a plan ----

  lemma FileInside(store: Store, t: FileTarget, mount: string, r: Path)
    requires mount != "" && !Inside(mount, r)
    ensures NoneAt([VolumeFile(store, t, mount)], r)
  {
    RebaseAcceptsIff(t.path, mount);
    if UnderRoot(t.path) { RebaseLands(t.path, mount); }
  }

  lemma RenderInside(store: Store, t: RenderTarget, mount: string, r: Path)
    requires mount != "" && !Inside(mount, r) && KeysStay(store, t)
    ensures NoneAt(VolumeRender(store, t, mount), r)
  {
    forall k | k in FileKeys(store, t) ensures KeyPath(t.path, mount, k) != Ok(r) {
      KeyMoves(t.path, mount, k);
    }
    RenderNoneAt(store, t, mount, r);
  }

  lemma ManifestInside(p: Plan, store: Store, generated: string, codec: Codec, mount: string, r: Path)
    requires mount != "" && !Inside(mount, r)
    ensures NoneAt([ManifestIntent(p, store, generated, codec, mount)], r)
  {
    ManifestClean();
    RebaseLands(MANIFEST_PATH, mount);
  }

  lemma PushInside(p: Plan, store: Store, generated: string, codec: Codec, mount: string, r: Path)
    requires AllStay(p, store) && !Inside(mount, r)
    ensures NoneAt(PushIntents(p, store, generated, codec, mount), r)
  {
    if mount != "" {
      forall t | t in p.files ensures NoneAt([VolumeFile(store, t, mount)], r) { FileInside(store, t, mount, r); }
      forall t | t in p.renders ensures NoneAt(VolumeRender(store, t, mount), r) { RenderInside(store, t, mount, r); }
      IntentsNoneAt(p, store, mount, r);
      ManifestInside(p, store, generated, codec, mount, r);
    }
  }

  /** However far a push gets, it changes nothing outside the mount, if no key climbs above the volume root. */
  lemma NothingOutside(p: Plan, store: Store, generated: string, codec: Codec, mount: string)
    requires AllStay(p, store)
    ensures NeverOutside(PushIntents(p, store, generated, codec, mount), mount)
  {
    var xs := PushIntents(p, store, generated, codec, mount);
    forall i: nat | Lands(xs, i) ensures Inside(mount, xs[i].value.path) {
      assert xs[i] in xs;
      if !Inside(mount, xs[i].value.path) { PushInside(p, store, generated, codec, mount, xs[i].value.path); }
    }
    OutsideIff(xs, mount);
  }

  // ---- and exactly when ----

  /** Nothing in the plan or its sources stops a push: every path rebases, every value is there, every kind is known. */
  ghost predicate Feasible(p: Plan, store: Store) {
    && p.env == []
    && (forall t <- p.files :: UnderRoot(t.path) && Secret(store, t).Ok?)
    && (forall t <- p.renders :: RenderFeasible(store, t))
  }

  ghost predicate RenderFeasible(store: Store, t: RenderTarget) {
    && UnderRoot(t.path) && (t.kind == RENDER_DOTENV || t.kind == RENDER_ENVDIR)
    && Opened(store, t.source).Ok? && KeysOf(Opened(store, t.source).value).Ok?
  }

  ghost predicate AllOk(xs: Intents) { forall x <- xs :: x.Ok? }

  lemma RenderOk(store: Store, t: RenderTarget, mount: string)
    requires RenderFeasible(store, t)
    ensures AllOk(VolumeRender(store, t, mount))
  {
    RebaseAcceptsIff(t.path, mount);
    var src := Opened(store, t.source).value;
    DotenvTextIsRender(src);
    forall k | k in KeysOf(src).value ensures ValueOf(src, k).Ok? { ListedKeysRead(src, k); }
  }

  lemma {:induction false} ConcatOk(xss: seq<Intents>)
    requires forall xs <- xss :: AllOk(xs)
    ensures AllOk(Concat(xss))
  {
    if xss != [] {
      ConcatOk(xss[1..]);
      assert AllOk(xss[0]);
    }
  }

  lemma IntentsOk(p: Plan, store: Store, mount: string)
    requires Feasible(p, store)
    ensures AllOk(VolumeIntents(p, store, mount))
  {
    var files := Map((t: FileTarget) => VolumeFile(store, t, mount), p.files);
    var renders := Map((t: RenderTarget) => VolumeRender(store, t, mount), p.renders);
    forall i | 0 <= i < |files| ensures files[i].Ok? {
      assert p.files[i] in p.files;
      RebaseAcceptsIff(p.files[i].path, mount);
    }
    forall i | 0 <= i < |renders| ensures AllOk(renders[i]) {
      assert p.renders[i] in p.renders;
      RenderOk(store, p.renders[i], mount);
    }
    ConcatOk(renders);
  }

  /** Every key of every envdir render is among what the push means to write. */
  lemma KeyIntended(p: Plan, store: Store, mount: string, t: RenderTarget, key: string)
    requires t in p.renders && key in FileKeys(store, t)
    ensures Rebase(t.path, mount).Ok?
    ensures VolumeKey(Opened(store, t.source).value, t, Rebase(t.path, mount).value, key)
            in VolumeIntents(p, store, mount)
  {
    RebaseAcceptsIff(t.path, mount);
    var src, dst := Opened(store, t.source).value, Rebase(t.path, mount).value;
    var renders := Map((t: RenderTarget) => VolumeRender(store, t, mount), p.renders);
    var i :| 0 <= i < |p.renders| && p.renders[i] == t;
    var k :| 0 <= k < |KeysOf(src).value| && KeysOf(src).value[k] == key;
    assert renders[i][k] == VolumeKey(src, t, dst, key);
    InConcat(renders, renders[i], VolumeKey(src, t, dst, key));
  }

  /** A key that climbs takes a push that nothing stops out of some mount. */
  lemma ClimbsOut(p: Plan, store: Store, generated: string, codec: Codec, t: RenderTarget, key: string)
    requires Feasible(p, store) && t in p.renders && key in FileKeys(store, t) && !KeyStays(t.path, key)
    ensures var mount := FarMount(Fresh(key));
            mount != "" && !NeverOutside(PushIntents(p, store, generated, codec, mount), mount)
  {
    var mount := FarMount(Fresh(key));
    var all, xs := VolumeIntents(p, store, mount), PushIntents(p, store, generated, codec, mount);
    KeyEscapes(t.path, key);
    KeyIntended(p, store, mount, t, key);
    IntentsOk(p, store, mount);
    var i: nat :| i < |all| && all[i] == VolumeKey(Opened(store, t.source).value, t, Rebase(t.path, mount).value, key);
    assert forall k :: 0 <= k < |all| ==> xs[k] == all[k] && all[k] in all;
    assert Lands(xs, i) && Ok(xs[i].value.path) == KeyPath(t.path, mount, key);
    OutsideIff(xs, mount);
  }

  /** A push that nothing stops stays inside its mount, whatever the mount, exactly when no key climbs too high. */
  lemma ContainedIff(p: Plan, store: Store, generated: string, codec: Codec)
    requires Feasible(p, store)
    ensures (forall mount :: mount != "" ==> NeverOutside(PushIntents(p, store, generated, codec, mount), mount))
            <==> AllStay(p, store)
  {
    if AllStay(p, store) {
      forall mount | mount != "" ensures NeverOutside(PushIntents(p, store, generated, codec, mount), mount) {
        NothingOutside(p, store, generated, codec, mount);
      }
    } else {
      var t :| t in p.renders && !KeysStay(store, t);
      var key :| key in FileKeys(store, t) && !(UnderRoot(t.path) && KeyStays(t.path, key));
      ClimbsOut(p, store, generated, codec, t, key);
    }
  }

  // ---- keys that climb: two inputs ----

  /** An envdir render of one source. */
  predicate OneEnvdir(p: Plan, t: RenderTarget) {
    p.env == [] && p.files == [] && p.renders == [t] && t.kind == RENDER_ENVDIR
  }

  predicate Holds(store: Store, name: string, text: string) {
    name in store && store[name].format == DOTENV && store[name].opens && store[name].plain == Some(text)
  }

  function KeyWrite(t: RenderTarget, mount: string, e: Entry): Result<Write, Failure> {
    var path :- KeyPath(t.path, mount, e.key);
    Ok(Write(path, Rec(e.value, t.owner, t.mode)))
  }

  lemma DirectoryIs(run: string, berm: string, dir: string)
    requires run == "run" && berm == "berm" && Normal(dir)
    ensures var path := "/" + run + "/" + berm + "/" + dir; UnderRoot(path) && BelowRoot(path) == [dir]
  {
    FarMountIs(run);
    CleanChild("/" + run, berm);
    CleanChild("/" + run + "/" + berm, dir);
    assert ROOT == [run] + [berm];
  }

  lemma EntriesRead(src: Source, es: seq<Entry>)
    requires src.format == DOTENV && src.plain == Some(Rendered(es)) && Carriable(es)
    ensures KeysOf(src) == Ok(KeysIn(es))
    ensures forall i :: 0 <= i < |es| ==> ValueOf(src, es[i].key) == Ok(Lookup(es, es[i].key))
  {
    RenderedReads(es);
    forall i | 0 <= i < |es| ensures ValueOf(src, es[i].key) == Ok(Lookup(es, es[i].key)) {
      assert KeysIn(es)[i] in KeysIn(es);
      ListedKeysRead(src, es[i].key);
    }
  }

  /** What an envdir render of a source with these entries means to write. */
  lemma EntriesWritten(p: Plan, t: RenderTarget, store: Store, es: seq<Entry>, mount: string)
    requires OneEnvdir(p, t) && UnderRoot(t.path) && Holds(store, t.source, Rendered(es)) && Carriable(es)
    ensures FileKeys(store, t) == KeysIn(es)
    ensures VolumeIntents(p, store, mount)
            == Map((e: Entry) => KeyWrite(t, mount, e), Looked(es))
  {
    RebaseAcceptsIff(t.path, mount);
    EntriesRead(store[t.source], es);
    OnlyRender(p, t, store, mount);
    assert Opened(store, t.source) == Ok(store[t.source]);
  }

  lemma OnlyRender(p: Plan, t: RenderTarget, store: Store, mount: string)
    requires p.files == [] && p.renders == [t]
    ensures VolumeIntents(p, store, mount) == VolumeRender(store, t, mount)
  {
    var renders := Map((t: RenderTarget) => VolumeRender(store, t, mount), [t]);
    assert renders == [VolumeRender(store, t, mount)] && renders[1..] == [];
    assert Concat(renders) == renders[0] + [];
  }

  /** A key that goes two steps up and then down by ordinary names. */
  ghost predicate TwoUp(key: string, rest: seq<string>) {
    Split(key, '/') == ["..", ".."] + rest && forall i :: 0 <= i < |rest| ==> Normal(rest[i])
  }

  /** Such a key, from a directory right below another, ends up beside that other. */
  lemma TwoUpPushed(above: seq<string>, dir: string, cs: seq<string>, rest: seq<string>)
    requires above != [] && dir != ".." && above[|above| - 1] != ".."
    requires cs == ["..", ".."] + rest && forall i :: 0 <= i < |rest| ==> Normal(rest[i])
    ensures PushAll(true, above + [dir], cs) == above[..|above| - 1] + rest
  {
    assert cs[1..][1..] == rest && cs[0] == ".." && cs[1..][0] == "..";
    assert (above + [dir])[..|above|] == above;
    PushAllNormal(true, above[..|above| - 1], rest);
  }

  /** Beside the mount, in the volume. */
  lemma TwoUpInVolume(path: string, mount: string, dir: string, rest: seq<string>, key: string)
    requires UnderRoot(path) && BelowRoot(path) == [dir] && TwoUp(key, rest)
    requires IsAbs(mount) && Clean(mount).parts != []
    ensures KeyPath(path, mount, key) == Ok(Path(true, Clean(mount).parts[..|Clean(mount).parts| - 1] + rest))
  {
    var parts := Clean(mount).parts;
    CleanGood(mount);
    GoodParts(true, parts);
    BelowPlain(path);
    KeyPathIs(path, mount, key);
    TwoUpPushed(parts, dir, Split(key, '/'), rest);
  }

  /** Beside the volume root, in the container. */
  lemma TwoUpInContainer(path: string, dir: string, rest: seq<string>, key: string)
    requires UnderRoot(path) && BelowRoot(path) == [dir] && TwoUp(key, rest)
    ensures Clean(path + "/" + key) == Path(true, ROOT[..1] + rest)
  {
    BelowPlain(path);
    PathIsBelow(path);
    KeyLands(path, key);
    TwoUpPushed(ROOT, dir, Split(key, '/'), rest);
  }

  lemma SplitName(name: string, more: string)
    requires '/' !in name
    ensures Split(name + "/" + more, '/') == [name] + Split(more, '/')
  {
    assert name + "/" + more == name + ['/'] + more;
    SplitPlain(name);
    SplitAppend(name, more, '/');
  }

  lemma SplitTwice(up: string, rest: seq<string>)
    requires '/' !in up && rest != [] && NoneHas(rest, '/')
    ensures Split(up + "/" + (up + "/" + Join(rest, '/')), '/') == [up, up] + rest
  {
    SplitName(up, Join(rest, '/'));
    SplitName(up, up + "/" + Join(rest, '/'));
    SplitJoin(rest, '/');
    assert [up] + ([up] + rest) == [up, up] + rest;
  }

  /** The keys the two inputs have: "../../" and the rest. */
  lemma TwoUpIs(up: string, rest: seq<string>)
    requires up == ".." && rest != [] && forall i :: 0 <= i < |rest| ==> Normal(rest[i])
    ensures TwoUp(up + "/" + (up + "/" + Join(rest, '/')), rest)
  {
    SplitTwice(up, rest);
  }

  lemma OneEntry(key: string, value: string)
    requires '=' !in key && '\n' !in key && '\n' !in value && key != "" && key[0] != '#'
    ensures var es := [Entry(key, value)];
            Carriable(es) && Rendered(es) == key + "=" + value + "\n" && Looked(es) == es
  {
    var es := [Entry(key, value)];
    assert es[1..] == [];
    assert Rendered(es) == key + "=" + value + "\n" + Rendered([]);
    assert First(es, key) == Some(value);
  }

  /** One climbing key, by its components: the push leaves the mount. */
  lemma EscapesBeside(p: Plan, t: RenderTarget, store: Store, generated: string, codec: Codec, key: string,
                      value: string, mount: string, dir: string, name: string)
    requires OneEnvdir(p, t) && UnderRoot(t.path) && BelowRoot(t.path) == [dir] && TwoUp(key, [name])
    requires '=' !in key && '\n' !in key && '\n' !in value && key != "" && key[0] != '#'
    requires Holds(store, t.source, key + "=" + value + "\n")
    requires IsAbs(mount) && |Clean(mount).parts| == 1 && Clean(mount).parts != [name]
    ensures VolumeIntents(p, store, mount) == [Ok(Write(Path(true, [name]), Rec(value, t.owner, t.mode)))]
    ensures !NeverOutside(PushIntents(p, store, generated, codec, mount), mount)
  {
    var es := [Entry(key, value)];
    OneEntry(key, value);
    EntriesWritten(p, t, store, es, mount);
    TwoUpInVolume(t.path, mount, dir, [name], key);
    assert Clean(mount).parts[..0] + [name] == [name];
    var xs := PushIntents(p, store, generated, codec, mount);
    assert VolumeIntents(p, store, mount) == [Ok(Write(Path(true, [name]), Rec(value, t.owner, t.mode)))];
    assert xs[0] == Ok(Write(Path(true, [name]), Rec(value, t.owner, t.mode))) && Lands(xs, 0);
    assert !Inside(mount, Path(true, [name])) by {
      assert Clean(mount).parts <= [name] ==> Clean(mount).parts == [name];
    }
    OutsideIff(xs, mount);
  }

  /** An ordinary key, in the volume and in the container. */
  lemma PlainKeyLands(path: string, mount: string, dir: string, key: string)
    requires UnderRoot(path) && BelowRoot(path) == [dir] && mount != "" && Normal(key)
    ensures KeyPath(path, mount, key) == Ok(Path(IsAbs(mount), Clean(mount).parts + [dir, key]))
    ensures Clean(path + "/" + key) == Path(true, ROOT + [dir, key])
  {
    SplitPlain(key);
    StaysWithoutClimbing(1, [key]);
    PushAllNormal(true, [dir], [key]);
    KeyMoves(path, mount, key);
    assert [dir] + [key] == [dir, key];
  }

  lemma TwoEntries(key: string, value: string, other: string, more: string)
    requires '=' !in key && '\n' !in key && '\n' !in value && key != "" && key[0] != '#'
    requires '=' !in other && '\n' !in other && '\n' !in more && other != "" && other[0] != '#' && other != key
    ensures var es := [Entry(key, value), Entry(other, more)];
            Carriable(es) && Rendered(es) == key + "=" + value + "\n" + other + "=" + more + "\n" && Looked(es) == es
  {
    var es := [Entry(key, value), Entry(other, more)];
    OneEntry(other, more);
    assert es[1..] == [Entry(other, more)];
    assert First(es, other) == First(es[1..], other) == Some(more);
  }

  /** The manifest path as a climbing key can name it. */
  ghost predicate ManifestKey(p: Plan, t: RenderTarget, store: Store, key: string, other: string, mount: string,
                              dir: string, v: string, name: string)
  {
    && OneEnvdir(p, t) && UnderRoot(t.path) && BelowRoot(t.path) == [dir] && TwoUp(key, [name, "manifest"])
    && Normal(other) && '=' !in other && '\n' !in other && other[0] != '#' && other != key
    && '=' !in key && '\n' !in key && key != "" && key[0] != '#'
    && Holds(store, t.source, key + "=1\n" + other + "=2\n")
    && IsAbs(mount) && Clean(mount) == Path(true, [v, name]) && name != "berm"
  }

  lemma ManifestEntries(key: string, other: string) returns (es: seq<Entry>)
    requires '=' !in key && '\n' !in key && key != "" && key[0] != '#'
    requires '=' !in other && '\n' !in other && other != "" && other[0] != '#' && other != key
    ensures Carriable(es) && Rendered(es) == key + "=1\n" + other + "=2\n"
    ensures Looked(es) == es == [Entry(key, "1"), Entry(other, "2")] && KeysIn(es) == [key, other]
  {
    es := [Entry(key, "1"), Entry(other, "2")];
    TwoEntries(key, "1", other, "2");
    assert key + "=" + "1" + "\n" + other + "=" + "2" + "\n" == key + "=1\n" + other + "=2\n";
  }

  lemma ManifestKeyPaths(t: RenderTarget, key: string, other: string, mount: string, dir: string, v: string,
                         name: string)
    requires UnderRoot(t.path) && BelowRoot(t.path) == [dir] && TwoUp(key, [name, "manifest"]) && Normal(other)
    requires IsAbs(mount) && Clean(mount) == Path(true, [v, name])
    ensures KeyPath(t.path, mount, key) == Ok(Path(true, [v, name, "manifest"]))
    ensures KeyPath(t.path, mount, other) == Ok(Path(true, [v, name, dir, other]))
    ensures ManifestAt(mount) == Path(true, [v, name, "manifest"])
  {
    TwoUpInVolume(t.path, mount, dir, [name, "manifest"], key);
    PlainKeyLands(t.path, mount, dir, other);
    ManifestClean();
    assert [v, name][..1] + [name, "manifest"] == [v, name, "manifest"];
    assert [v, name] + [dir, other] == [v, name, dir, other];
    assert [v, name] + ["manifest"] == [v, name, "manifest"];
  }

  lemma ManifestKeyWrites(p: Plan, t: RenderTarget, store: Store, key: string, other: string, mount: string,
                          dir: string, v: string, name: string)
    requires ManifestKey(p, t, store, key, other, mount, dir, v, name)
    ensures FileKeys(store, t) == [key, other]
    ensures VolumeIntents(p, store, mount)
            == [Ok(Write(Path(true, [v, name, "manifest"]), Rec("1", t.owner, t.mode))),
                Ok(Write(Path(true, [v, name, dir, other]), Rec("2", t.owner, t.mode)))]
    ensures ManifestAt(mount) == Path(true, [v, name, "manifest"])
  {
    var es := ManifestEntries(key, other);
    EntriesWritten(p, t, store, es, mount);
    ManifestKeyPaths(t, key, other, mount, dir, v, name);
  }

  lemma ManifestKeyAvoids(p: Plan, t: RenderTarget, store: Store, key: string, other: string, mount: string,
                          dir: string, v: string, name: string)
    requires ManifestKey(p, t, store, key, other, mount, dir, v, name)
    ensures AvoidsManifest(p, store)
  {
    ManifestKeyWrites(p, t, store, key, other, mount, dir, v, name);
    TwoUpInContainer(t.path, dir, [name, "manifest"], key);
    PlainKeyLands(t.path, mount, dir, other);
    ManifestClean();
    var found, manifest := ROOT[..1] + [name, "manifest"], ROOT + ["manifest"];
    assert found[1] == name && manifest[1] == "berm";
    assert |ROOT + [dir, other]| == 4 && |manifest| == 3;
  }

  /** No container path of the plan is the manifest path, and yet a key goes there in the volume, ahead of more. */
  lemma ManifestKeyUnsafe(p: Plan, t: RenderTarget, store: Store, generated: string, codec: Codec, key: string,
                          other: string, mount: string, dir: string, v: string, name: string)
    requires ManifestKey(p, t, store, key, other, mount, dir, v, name)
    ensures !LeavesManifest(p, store, mount)
    ensures !AlwaysSafe(PushIntents(p, store, generated, codec, mount), ManifestAt(mount))
  {
    ManifestKeyWrites(p, t, store, key, other, mount, dir, v, name);
    var all, xs := VolumeIntents(p, store, mount), PushIntents(p, store, generated, codec, mount);
    assert all[0] in all;
    assert xs[0] == all[0] && xs[1] == all[1];
    assert |xs[0].value.path.parts| == 3 && |xs[1].value.path.parts| == 4;
    assert Lands(xs, 0);
    SafeIffOrderly(xs, ManifestAt(mount));
  }

  /** The same with its texts put together from the names in them. */
  lemma ClimbingNames(p: Plan, t: RenderTarget, store: Store, generated: string, codec: Codec, run: string,
                      berm: string, dir: string, v: string, up: string, name: string)
    requires run == "run" && berm == "berm" && Normal(dir) && Normal(v) && up == ".." && Normal(name) && name != v
    requires '=' !in name && '\n' !in name
    requires OneEnvdir(p, t) && t.path == "/" + run + "/" + berm + "/" + dir
    requires Holds(store, t.source, up + "/" + (up + "/" + name) + "=" + "1" + "\n")
    ensures VolumeIntents(p, store, "/" + v) == [Ok(Write(Path(true, [name]), Rec("1", t.owner, t.mode)))]
    ensures !NeverOutside(PushIntents(p, store, generated, codec, "/" + v), "/" + v)
  {
    var key := up + "/" + (up + "/" + name);
    DirectoryIs(run, berm, dir);
    FarMountIs(v);
    TwoUpIs(up, [name]);
    assert Join([name], '/') == name;
    assert '=' !in key && '\n' !in key && key[0] == '.';
    EscapesBeside(p, t, store, generated, codec, key, "1", "/" + v, dir, name);
  }

  /**
    * A source with the line ../../x=1, rendered as an envdir to /run/berm/d, makes the daemon write /x when the volume
    * is mounted at /v.
    */
  lemma ClimbingKeyEscapes(p: Plan, t: RenderTarget, store: Store, generated: string, codec: Codec)
    requires OneEnvdir(p, t) && t.path == "/run/berm/d" && Holds(store, t.source, "../../x=1\n")
    ensures VolumeIntents(p, store, "/v") == [Ok(Write(Path(true, ["x"]), Rec("1", t.owner, t.mode)))]
    ensures !NeverOutside(PushIntents(p, store, generated, codec, "/v"), "/v")
  {
    assert "/" + "run" + "/" + "berm" + "/" + "d" == "/run/berm/d" && "/" + "v" == "/v";
    assert ".." + "/" + (".." + "/" + "x") + "=" + "1" + "\n" == "../../x=1\n";
    ClimbingNames(p, t, store, generated, codec, "run", "berm", "d", "v", "..", "x");
  }

  lemma MountNames(v: string, name: string)
    requires Normal(v) && Normal(name)
    ensures var mount := "/" + v + "/" + name; IsAbs(mount) && Clean(mount) == Path(true, [v, name])
  {
    FarMountIs(v);
    CleanChild("/" + v, name);
    assert [v] + [name] == [v, name];
  }

  function UpTwice(up: string, name: string, last: string): string { up + "/" + (up + "/" + (name + "/" + last)) }

  lemma UpTwiceIs(up: string, name: string, last: string)
    requires up == ".." && Normal(name) && Normal(last)
    ensures TwoUp(UpTwice(up, name, last), [name, last])
  {
    TwoUpIs(up, [name, last]);
    assert [name, last][1..] == [last];
    assert Join([last], '/') == last;
    assert Join([name, last], '/') == name + "/" + last;
  }

  lemma UpTwiceBytes(up: string, name: string, last: string, c: char)
    requires up == ".." && c !in name && c !in last && c != '.' && c != '/'
    ensures var key := UpTwice(up, name, last); key != "" && key[0] == '.' && '/' in key && c !in key
  {
    var key := UpTwice(up, name, last);
    assert key[2] == '/';
  }

  /** The same with its texts put together from the names in them. */
  lemma ManifestNames(p: Plan, t: RenderTarget, store: Store, generated: string, codec: Codec, run: string,
                      berm: string, dir: string, v: string, name: string, up: string, last: string, other: string)
    requires run == "run" && berm == "berm" && up == ".." && last == "manifest" && name != "berm"
    requires Normal(dir) && Normal(v) && Normal(name) && '=' !in name && '\n' !in name
    requires Normal(other) && '=' !in other && '\n' !in other && other[0] != '#'
    requires OneEnvdir(p, t) && t.path == "/" + run + "/" + berm + "/" + dir
    requires Holds(store, t.source, UpTwice(up, name, last) + "=1\n" + other + "=2\n")
    ensures var mount := "/" + v + "/" + name;
            && AvoidsManifest(p, store) && !LeavesManifest(p, store, mount)
            && !AlwaysSafe(PushIntents(p, store, generated, codec, mount), ManifestAt(mount))
  {
    var key, mount := UpTwice(up, name, last), "/" + v + "/" + name;
    DirectoryIs(run, berm, dir);
    MountNames(v, name);
    UpTwiceIs(up, name, last);
    UpTwiceBytes(up, name, last, '=');
    UpTwiceBytes(up, name, last, '\n');
    ManifestKeyAvoids(p, t, store, key, other, mount, dir, v, name);
    ManifestKeyUnsafe(p, t, store, generated, codec, key, other, mount, dir, v, name);
  }

  /**
    * A source with the lines ../../a/manifest=1 and B=2, rendered as an envdir to /run/berm/d, names no path of the
    * container that is the manifest's, and mounted at /v/a puts the 1 where the manifest goes before it writes B.
    */
  lemma ClimbingKeyIsManifest(p: Plan, t: RenderTarget, store: Store, generated: string, codec: Codec)
    requires OneEnvdir(p, t) && t.path == "/run/berm/d" && Holds(store, t.source, "../../a/manifest=1\nB=2\n")
    ensures AvoidsManifest(p, store) && !LeavesManifest(p, store, "/v/a")
    ensures !AlwaysSafe(PushIntents(p, store, generated, codec, "/v/a"), ManifestAt("/v/a"))
  {
    assert "/" + "run" + "/" + "berm" + "/" + "d" == "/run/berm/d" && "/" + "v" + "/" + "a" == "/v/a";
    assert UpTwice("..", "a", "manifest") == "../../a/manifest";
    assert UpTwice("..", "a", "manifest") + "=1\n" + "B" + "=2\n" == "../../a/manifest=1\nB=2\n";
    ManifestNames(p, t, store, generated, codec, "run", "berm", "d", "v", "a", "..", "manifest", "B");
  }
}
