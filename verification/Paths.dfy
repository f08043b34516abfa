/** Lexical paths: Clean, Join and Rel of path/filepath, and the rebase of a container path into a volume mount. */
module Paths {
  import opened Prelude
  import opened Text
  import opened Dotenv

  /** A cleaned path: absolute or relative, and its components. Two path texts name one file when these are equal. */
  datatype Path = Path(rooted: bool, parts: seq<string>)

  predicate Normal(c: string) { c != "" && c != "." && c != ".." && '/' !in c }

  /** The component stack of a cleaned path: ".." only at the bottom of a relative one. */
  ghost predicate Good(rooted: bool, parts: seq<string>) {
    parts == [] ||
    var n := |parts| - 1;
    && Good(rooted, parts[..n])
    && (Normal(parts[n]) || (!rooted && parts[n] == ".." && (n == 0 || parts[n - 1] == "..")))
  }

  function Push(rooted: bool, parts: seq<string>, c: string): seq<string> {
    var n := |parts|;
    if c == "" || c == "." then parts
    else if c != ".." then parts + [c]
    else if n > 0 && parts[n - 1] != ".." then parts[..n - 1]
    else if rooted then parts
    else parts + [c]
  }

  function PushAll(rooted: bool, parts: seq<string>, cs: seq<string>): seq<string>
    decreases |cs|
  {
    if cs == [] then parts else PushAll(rooted, Push(rooted, parts, cs[0]), cs[1..])
  }

  predicate IsAbs(s: string) { s != "" && s[0] == '/' }

  /** filepath.Clean, as components. */
  function Clean(s: string): Path { Path(IsAbs(s), PushAll(IsAbs(s), [], Split(s, '/'))) }

  /** A cleaned path written out. */
  function Written(p: Path): string {
    if p.parts == [] then (if p.rooted then "/" else ".")
    else (if p.rooted then "/" else "") + Join(p.parts, '/')
  }

  /** filepath.Join of a non-empty path and one more element. */
  function JoinPath(dir: string, rel: string): string { Written(Clean(dir + "/" + rel)) }

  lemma {:induction false} PushAllAppend(rooted: bool, parts: seq<string>, a: seq<string>, b: seq<string>)
    ensures PushAll(rooted, parts, a + b) == PushAll(rooted, PushAll(rooted, parts, a), b)
    decreases |a|
  {
    if a == [] {
      assert a + b == b;
    } else {
      assert (a + b)[1..] == a[1..] + b;
      PushAllAppend(rooted, Push(rooted, parts, a[0]), a[1..], b);
    }
  }

  lemma {:induction false} PushAllGood(rooted: bool, parts: seq<string>, cs: seq<string>)
    requires Good(rooted, parts) && NoneHas(cs, '/')
    ensures Good(rooted, PushAll(rooted, parts, cs))
    decreases |cs|
  {
    if cs != [] {
      var next := Push(rooted, parts, cs[0]);
      assert '/' !in cs[0];
      if |next| > |parts| { assert next[..|parts|] == parts; }
      assert forall i :: 0 <= i < |cs| - 1 ==> cs[1..][i] == cs[i + 1];
      PushAllGood(rooted, next, cs[1..]);
    }
  }

  lemma CleanGood(s: string)
    ensures Good(IsAbs(s), Clean(s).parts)
  {
    SplitPieces(s, '/');
    PushAllGood(IsAbs(s), [], Split(s, '/'));
  }

  lemma {:induction false} GoodParts(rooted: bool, parts: seq<string>)
    requires Good(rooted, parts)
    ensures NoneHas(parts, '/')
    ensures rooted ==> forall i :: 0 <= i < |parts| ==> Normal(parts[i])
    ensures forall i :: 0 <= i < |parts| ==> parts[i] != ""
  {
    if parts != [] { GoodParts(rooted, parts[..|parts| - 1]); }
  }

  /** Pushing the components of a good stack one by one rebuilds it. */
  lemma {:induction false} PushAllRebuilds(rooted: bool, parts: seq<string>)
    requires Good(rooted, parts)
    ensures PushAll(rooted, [], parts) == parts
  {
    if parts != [] {
      var n := |parts| - 1;
      PushAllRebuilds(rooted, parts[..n]);
      assert parts == parts[..n] + [parts[n]];
      PushAllAppend(rooted, [], parts[..n], [parts[n]]);
      assert [parts[n]][1..] == [];
    }
  }

  lemma {:induction false} PushAllNormal(rooted: bool, parts: seq<string>, cs: seq<string>)
    requires forall i :: 0 <= i < |cs| ==> Normal(cs[i])
    ensures PushAll(rooted, parts, cs) == parts + cs
    decreases |cs|
  {
    if cs == [] {
      assert parts + cs == parts;
    } else {
      assert forall i :: 0 <= i < |cs| - 1 ==> cs[1..][i] == cs[i + 1];
      PushAllNormal(rooted, parts + [cs[0]], cs[1..]);
      assert parts + cs == parts + [cs[0]] + cs[1..];
    }
  }

  /** Writing a cleaned path out and cleaning it again gives it back. */
  lemma CleanWritten(p: Path)
    requires Good(p.rooted, p.parts)
    ensures Clean(Written(p)) == p
  {
    GoodParts(p.rooted, p.parts);
    PushAllRebuilds(p.rooted, p.parts);
    if p.parts == [] { CleanEmpty(); } else { CleanParts(p); }
  }

  lemma CleanEmpty()
    ensures Clean("/") == Path(true, []) && Clean(".") == Path(false, [])
  {
    SplitPlain("");
    SplitPlain(".");
    SplitAppend("", "", '/');
    assert "" + ['/'] + "" == "/";
    assert ["", ""][1..] == [""] && [""][1..] == [] && ["."][1..] == [];
    assert [""] + [""] == ["", ""];
  }

  lemma CleanParts(p: Path)
    requires p.parts != [] && p.parts[0] != "" && NoneHas(p.parts, '/') && PushAll(p.rooted, [], p.parts) == p.parts
    ensures Clean(Written(p)) == p
  {
    FirstByte(p.parts);
    SplitJoin(p.parts, '/');
    if p.rooted {
      SplitRooted(p.parts);
    } else {
      assert Written(p) == Join(p.parts, '/');
    }
  }

  /** A rooted path text splits into an empty piece, which cleaning skips, and the components. */
  lemma SplitRooted(parts: seq<string>)
    requires parts != [] && NoneHas(parts, '/')
    ensures Split("/" + Join(parts, '/'), '/') == [""] + parts
    ensures PushAll(true, [], [""] + parts) == PushAll(true, [], parts)
  {
    SplitPlain("");
    SplitJoin(parts, '/');
    SplitAppend("", Join(parts, '/'), '/');
    assert "" + ['/'] + Join(parts, '/') == "/" + Join(parts, '/');
    assert ([""] + parts)[1..] == parts;
  }

  lemma SplitPlain(s: string)
    requires '/' !in s
    ensures Split(s, '/') == [s]
  {
    assert s[..|s|] == s;
    FindIs(s, '/', |s|);
  }

  lemma FirstByte(parts: seq<string>)
    requires parts != [] && parts[0] != "" && NoneHas(parts, '/')
    ensures Join(parts, '/') != "" && Join(parts, '/')[0] == parts[0][0] != '/'
  {
    assert parts[0][0] in parts[0];
  }

  /** A path text followed by one more element, as components. */
  lemma CleanJoined(dir: string, rel: string)
    requires dir != ""
    ensures Clean(dir + "/" + rel) == Path(IsAbs(dir), PushAll(IsAbs(dir), Clean(dir).parts, Split(rel, '/')))
  {
    assert dir + "/" + rel == dir + ['/'] + rel;
    SplitAppend(dir, rel, '/');
    PushAllAppend(IsAbs(dir), [], Split(dir, '/'), Split(rel, '/'));
  }

  /** A file named by a single ordinary component under a directory. */
  lemma CleanChild(dir: string, key: string)
    requires dir != "" && Normal(key)
    ensures Clean(dir + "/" + key) == Path(IsAbs(dir), Clean(dir).parts + [key])
  {
    CleanJoined(dir, key);
    SplitPlain(key);
    PushAllNormal(IsAbs(dir), Clean(dir).parts, [key]);
  }

  /** A file of any name under a directory: joining and cleaning afterwards is pushing the name's components. */
  lemma KeyLands(dir: string, key: string)
    requires dir != ""
    ensures Clean(dir + "/" + key) == Path(IsAbs(dir), PushAll(IsAbs(dir), Clean(dir).parts, Split(key, '/')))
    ensures Clean(JoinPath(dir, key)) == Clean(dir + "/" + key)
  {
    CleanJoined(dir, key);
    CleanGood(dir + "/" + key);
    CleanWritten(Clean(dir + "/" + key));
  }

  /** Cleaning drops empty and "." elements, and ".." takes back the element before it; it never climbs above "/". */
  lemma CleanLaws(dir: string, c: string)
    requires dir != "" && Normal(c)
    ensures Clean(dir + "/" + "") == Clean(dir) && Clean(dir + "/" + ".") == Clean(dir)
    ensures Clean((dir + "/" + c) + "/" + "..") == Clean(dir)
    ensures Clean(dir) == Path(true, []) ==> Clean(dir + "/" + "..") == Clean(dir)
  {
    CleanJoined(dir, "");
    CleanJoined(dir, ".");
    CleanJoined(dir, "..");
    CleanChild(dir, c);
    CleanJoined(dir + "/" + c, "..");
    SplitPlain("");
    SplitPlain(".");
    SplitPlain("..");
    var parts := Clean(dir).parts;
    assert [""][1..] == [] && ["."][1..] == [] && [".."][1..] == [];
    assert (parts + [c])[..|parts|] == parts;
  }

  // ---- names that stay below a directory ----

  /** Followed from depth directories down, the components never climb above where those began. */
  predicate StaysIn(depth: nat, cs: seq<string>)
    decreases |cs|
  {
    cs == [] ||
    if cs[0] == "" || cs[0] == "." then StaysIn(depth, cs[1..])
    else if cs[0] == ".." then depth > 0 && StaysIn(depth - 1, cs[1..])
    else StaysIn(depth + 1, cs[1..])
  }

  /** Components that stay in leave the bottom of the stack alone, and do the same above it whatever it is. */
  lemma {:induction false} PushAllStays(rooted: bool, base: seq<string>, xs: seq<string>, cs: seq<string>)
    requires ".." !in xs && StaysIn(|xs|, cs)
    ensures PushAll(rooted, base + xs, cs) == base + PushAll(true, xs, cs)
    decreases |cs|
  {
    if cs != [] {
      var next := Push(true, xs, cs[0]);
      assert Push(rooted, base + xs, cs[0]) == base + next;
      PushAllStays(rooted, base, next, cs[1..]);
    }
  }

  lemma {:induction false} PushAllFrom(rooted: bool, parts: seq<string>, cs: seq<string>, m: string)
    requires m !in parts && m !in cs
    ensures m !in PushAll(rooted, parts, cs)
    decreases |cs|
  {
    if cs != [] { PushAllFrom(rooted, Push(rooted, parts, cs[0]), cs[1..], m); }
  }

  /** Components that do not stay in take back the directory itself, and cannot get back under it without its name. */
  lemma {:induction false} PushAllClimbs(m: string, xs: seq<string>, cs: seq<string>)
    requires Normal(m) && ".." !in xs && m !in cs && !StaysIn(|xs|, cs)
    ensures !([m] <= PushAll(true, [m] + xs, cs))
    decreases |cs|
  {
    var stack, rest := [m] + xs, cs[1..];
    if cs[0] == ".." && xs == [] {
      assert stack[..0] == [];
      PushAllFrom(true, [], rest, m);
    } else {
      var next := Push(true, xs, cs[0]);
      assert Push(true, stack, cs[0]) == [m] + next;
      PushAllClimbs(m, next, rest);
    }
  }

  lemma {:induction false} StaysWithoutClimbing(depth: nat, cs: seq<string>)
    requires ".." !in cs
    ensures StaysIn(depth, cs)
    decreases |cs|
  {
    if cs != [] {
      StaysWithoutClimbing(if cs[0] == "" || cs[0] == "." then depth else depth + 1, cs[1..]);
    }
  }

  // ---- rebasing ----

  const ROOT: seq<string> := ["run", "berm"]

  /** How many leading components two paths share. */
  function Shared(a: seq<string>, b: seq<string>): (n: nat)
    ensures n <= |a| && n <= |b| && a[..n] == b[..n]
    ensures n < |a| && n < |b| ==> a[n] != b[n]
  {
    if a == [] || b == [] || a[0] != b[0] then 0
    else
      var n := 1 + Shared(a[1..], b[1..]);
      assert a[..n] == [a[0]] + a[1..][..n - 1] && b[..n] == [b[0]] + b[1..][..n - 1];
      n
  }

  /** filepath.Rel between two absolute cleaned paths: up to where they part, then down. */
  function RelParts(base: seq<string>, target: seq<string>): seq<string> {
    var n := Shared(base, target);
    seq(|base| - n, _ => "..") + target[n..]
  }

  function Rel(base: seq<string>, target: seq<string>): string {
    var r := RelParts(base, target);
    if r == [] then "." else Join(r, '/')
  }

  /** rebaseIntoVolume. */
  function Rebase(path: string, mount: string): Result<string, Failure> {
    if !IsAbs(path) then Err(OutsideVolume)
    else
      var rel := Rel(ROOT, Clean(path).parts);
      if rel == ".." || HasPrefix(rel, "../") then Err(OutsideVolume) else Ok(JoinPath(mount, rel))
  }

  /** The volume root itself or anything lexically below it. */
  predicate UnderRoot(path: string) { IsAbs(path) && ROOT <= Clean(path).parts }

  function BelowRoot(path: string): seq<string>
    requires UnderRoot(path)
  {
    Clean(path).parts[|ROOT|..]
  }

  lemma ClimbsOut(r: seq<string>)
    requires r != [] && NoneHas(r, '/')
    ensures (Join(r, '/') == ".." || HasPrefix(Join(r, '/'), "../")) <==> r[0] == ".."
  {
    var s := Join(r, '/');
    assert s[..|r[0]|] == r[0];
    FindIs(s, '/', |r[0]|);
    if r[0] == ".." && |r| > 1 { assert s == "../" + Join(r[1..], '/'); }
    if HasPrefix(s, "../") {
      assert s[..2] == s[..3][..2] == ".." && s[2] == s[..3][2];
      FindIs(s, '/', 2);
    }
  }

  lemma {:induction false} SharedAll(a: seq<string>, b: seq<string>)
    ensures Shared(a, b) == |a| <==> a <= b
  {
    if a != [] && b != [] && a[0] == b[0] {
      SharedAll(a[1..], b[1..]);
      assert a <= b <==> a[1..] <= b[1..] by {
        assert a == [a[0]] + a[1..] && b == [b[0]] + b[1..];
      }
    }
  }

  /** The way from the volume root to a cleaned absolute path starts by climbing exactly when the path is not below. */
  lemma RelClimbs(t: seq<string>)
    requires Good(true, t)
    ensures var r := RelParts(ROOT, t);
            NoneHas(r, '/') && (ROOT <= t <==> r == [] || r[0] != "..") && (r == [] ==> t == ROOT)
  {
    GoodParts(true, t);
    SharedAll(ROOT, t);
    var n, r := Shared(ROOT, t), RelParts(ROOT, t);
    var up := |ROOT| - n;
    assert forall i :: up <= i < |r| ==> r[i] == t[i - up + n];
    if up == 0 && r != [] { assert r[0] == t[n]; }
  }

  /** Rebasing accepts exactly the absolute paths that clean to the volume root or below it. */
  lemma RebaseAcceptsIff(path: string, mount: string)
    ensures Rebase(path, mount).Ok? <==> UnderRoot(path)
  {
    if IsAbs(path) {
      CleanGood(path);
      RelClimbs(Clean(path).parts);
      var r := RelParts(ROOT, Clean(path).parts);
      if r != [] { ClimbsOut(r); }
    }
  }

  /** An accepted path lands under the mount, at the same place it had under the volume root. */
  lemma RebaseLands(path: string, mount: string)
    requires UnderRoot(path) && mount != ""
    ensures Rebase(path, mount).Ok?
    ensures Clean(Rebase(path, mount).value) == Path(IsAbs(mount), Clean(mount).parts + BelowRoot(path))
  {
    RebaseAcceptsIff(path, mount);
    var t := Clean(path).parts;
    CleanGood(path);
    GoodParts(true, t);
    SharedAll(ROOT, t);
    var r := RelParts(ROOT, t);
    assert r == BelowRoot(path);
    JoinLands(mount, r);
  }

  lemma JoinLands(mount: string, r: seq<string>)
    requires mount != "" && forall i :: 0 <= i < |r| ==> Normal(r[i])
    ensures Clean(JoinPath(mount, if r == [] then "." else Join(r, '/'))) == Path(IsAbs(mount), Clean(mount).parts + r)
  {
    var rel := if r == [] then "." else Join(r, '/');
    CleanJoined(mount, rel);
    if r == [] {
      SplitPlain(".");
      assert ["."][1..] == [];
      assert Clean(mount).parts + r == Clean(mount).parts;
    } else {
      SplitJoin(r, '/');
      PushAllNormal(IsAbs(mount), Clean(mount).parts, r);
    }
    CleanGood(mount + "/" + rel);
    CleanWritten(Clean(mount + "/" + rel));
  }

  /** The mount itself or anything lexically below it. */
  predicate Inside(mount: string, path: Path) { path.rooted == IsAbs(mount) && Clean(mount).parts <= path.parts }

  /** Where an envdir render puts the file of a key in the volume: its own path rebased, and the key joined to it. */
  function KeyPath(path: string, mount: string, key: string): Result<Path, Failure> {
    var dst :- Rebase(path, mount);
    Ok(Clean(JoinPath(dst, key)))
  }

  /** From the render's directory the key never climbs above the volume root. */
  predicate KeyStays(path: string, key: string)
    requires UnderRoot(path)
  {
    StaysIn(|BelowRoot(path)|, Split(key, '/'))
  }

  lemma JoinNonEmpty(dir: string, rel: string)
    ensures JoinPath(dir, rel) != ""
  {
    var s := dir + "/" + rel;
    CleanGood(s);
    GoodParts(IsAbs(s), Clean(s).parts);
    if Clean(s).parts != [] { FirstByte(Clean(s).parts); }
  }

  /** The volume path of any key: its components pushed on the mount and the way down to the render's directory. */
  lemma KeyPathIs(path: string, mount: string, key: string)
    requires UnderRoot(path) && mount != ""
    ensures KeyPath(path, mount, key)
            == Ok(Path(IsAbs(mount), PushAll(IsAbs(mount), Clean(mount).parts + BelowRoot(path), Split(key, '/'))))
  {
    RebaseLands(path, mount);
    JoinNonEmpty(mount, Rel(ROOT, Clean(path).parts));
    KeyLands(Rebase(path, mount).value, key);
  }

  lemma BelowPlain(path: string)
    requires UnderRoot(path)
    ensures ".." !in BelowRoot(path)
  {
    CleanGood(path);
    GoodParts(true, Clean(path).parts);
  }

  /** A key that stays is at the same place under the mount as it is under the volume root in the container. */
  lemma KeyMoves(path: string, mount: string, key: string)
    requires UnderRoot(path) && mount != "" && KeyStays(path, key)
    ensures var below := PushAll(true, BelowRoot(path), Split(key, '/'));
            && KeyPath(path, mount, key) == Ok(Path(IsAbs(mount), Clean(mount).parts + below))
            && Clean(path + "/" + key) == Path(true, ROOT + below)
  {
    BelowPlain(path);
    KeyPathIs(path, mount, key);
    PushAllStays(IsAbs(mount), Clean(mount).parts, BelowRoot(path), Split(key, '/'));
    PathIsBelow(path);
    KeyLands(path, key);
    PushAllStays(true, ROOT, BelowRoot(path), Split(key, '/'));
  }

  function FarMount(m: string): string { "/" + m }

  /** A name that no component of the key can be. */
  function Fresh(key: string): string { seq(|key| + 1, _ => 'm') }

  lemma FarMountIs(m: string)
    requires Normal(m)
    ensures Clean(FarMount(m)) == Path(true, [m]) && IsAbs(FarMount(m))
  {
    assert Good(true, [m]) by { assert [m][..0] == []; }
    CleanWritten(Path(true, [m]));
  }

  lemma FreshIs(key: string)
    ensures Normal(Fresh(key)) && Fresh(key) !in Split(key, '/')
  {
    var m := Fresh(key);
    assert m[0] == 'm';
    forall c | c in Split(key, '/') ensures |c| < |m| { SplitShort(key, c); }
  }

  lemma {:induction false} SplitShort(s: string, c: string)
    requires c in Split(s, '/')
    ensures |c| <= |s|
    decreases |s|
  {
    var i := Find(s, '/');
    if i < |s| && c != s[..i] { SplitShort(s[i + 1..], c); }
  }

  lemma KeyEscapes(path: string, key: string)
    requires UnderRoot(path) && !KeyStays(path, key)
    ensures var mount := FarMount(Fresh(key));
            mount != "" && KeyPath(path, mount, key).Ok? && !Inside(mount, KeyPath(path, mount, key).value)
  {
    var m := Fresh(key);
    FreshIs(key);
    FarMountIs(m);
    BelowPlain(path);
    KeyPathIs(path, FarMount(m), key);
    PushAllClimbs(m, BelowRoot(path), Split(key, '/'));
  }

  /** The render's path can be rebased, and the key's file is then inside the mount. */
  ghost predicate KeyInside(path: string, mount: string, key: string) {
    KeyPath(path, mount, key).Ok? && Inside(mount, KeyPath(path, mount, key).value)
  }

  /** The file of an envdir key is inside the mount, whatever the mount, exactly when the key never climbs too high. */
  lemma KeyInsideIff(path: string, key: string)
    requires UnderRoot(path)
    ensures (forall mount :: mount != "" ==> KeyInside(path, mount, key)) <==> KeyStays(path, key)
  {
    if KeyStays(path, key) {
      forall mount | mount != "" ensures KeyInside(path, mount, key) { KeyMoves(path, mount, key); }
    } else {
      KeyEscapes(path, key);
      assert !KeyInside(path, FarMount(Fresh(key)), key);
    }
  }

  /** Distinct files under the volume root keep distinct destinations, and equal ones equal destinations. */
  lemma RebaseInjective(p: string, q: string, mount: string)
    requires UnderRoot(p) && UnderRoot(q) && mount != ""
    ensures Rebase(p, mount).Ok? && Rebase(q, mount).Ok?
    ensures Clean(Rebase(p, mount).value) == Clean(Rebase(q, mount).value) <==> Clean(p) == Clean(q)
  {
    RebaseLands(p, mount);
    RebaseLands(q, mount);
    SameBelow(Clean(mount).parts, BelowRoot(p), BelowRoot(q));
    PathIsBelow(p);
    PathIsBelow(q);
    SameBelow(ROOT, BelowRoot(p), BelowRoot(q));
  }

  lemma PathIsBelow(p: string)
    requires UnderRoot(p)
    ensures Clean(p) == Path(true, ROOT + BelowRoot(p))
  {
  }

  lemma SameBelow(base: seq<string>, a: seq<string>, b: seq<string>)
    ensures base + a == base + b <==> a == b
  {
    assert (base + a)[|base|..] == a && (base + b)[|base|..] == b;
  }
}
