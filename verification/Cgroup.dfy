/** Who is calling: the container id in a process's cgroup file, or a refusal. */
module Cgroup {
  import opened Prelude
  import opened Text
  import opened Sorting

  datatype IdError = NoId | Ambiguous | ScanFailed

  const KNOWN: seq<string> := ["docker-", "libpod-", "crio-", "cri-containerd-", "containerd-"]

  /** The longest line a bufio.Scanner hands out. */
  const MAX_LINE := 65535

  predicate Hex(c: char) { '0' <= c <= '9' || 'a' <= c <= 'f' }

  predicate Hex64(s: string) { |s| == 64 && forall c <- s :: Hex(c) }

  method IsHex64(s: string) returns (ok: bool)
    ensures ok == Hex64(s)
  {
    if |s| != 64 { return false; }
    for i := 0 to |s|
      invariant forall k :: 0 <= k < i ==> Hex(s[k])
    {
      if !Hex(s[i]) { return false; }
    }
    ok := true;
  }

  /** A segment without the systemd unit suffixes. */
  function Bare(seg: string): string { TrimSuffix(TrimSuffix(seg, ".scope"), ".service") }

  /** The segment is this id by itself or behind one of the prefixes. */
  ghost predicate Carries(seg: string, prefixes: seq<string>, id: string) {
    Hex64(id) && (Bare(seg) == id || exists p :: p in prefixes && Bare(seg) == p + id)
  }

  /** idFromSegment, trying the prefixes in the order given. */
  method IdFromSegment(seg: string, prefixes: seq<string>) returns (id: Option<string>)
    ensures id.Some? ==> Carries(seg, prefixes, id.value)
    ensures id.None? ==> forall x :: !Carries(seg, prefixes, x)
  {
    var bare := TrimSuffix(seg, ".scope");
    bare := TrimSuffix(bare, ".service");
    var hex := IsHex64(bare);
    if hex { return Some(bare); }
    for i := 0 to |prefixes|
      invariant forall k, x :: 0 <= k < i && Hex64(x) ==> bare != prefixes[k] + x
    {
      var p := prefixes[i];
      if HasPrefix(bare, p) {
        hex := IsHex64(bare[|p|..]);
        if hex {
          assert bare == p + bare[|p|..];
          return Some(bare[|p|..]);
        }
      }
      forall x | Hex64(x) ensures bare != p + x {
        assert (p + x)[|p|..] == x && (p + x)[..|p|] == p;
      }
    }
    id := None;
  }

  /** A segment carries at most one id, so the order of the known prefixes cannot matter. */
  lemma OneIdPerSegment(seg: string, x: string, y: string)
    requires Carries(seg, KNOWN, x) && Carries(seg, KNOWN, y)
    ensures x == y
  {
    var p := PrefixUsed(seg, x);
    var q := PrefixUsed(seg, y);
    var s := Bare(seg);
    assert |p| == |q|;
    assert s[|p|..] == x && s[|q|..] == y;
  }

  /** The prefix in front of the id; none counts as the empty one. Known prefixes end where no id can. */
  lemma PrefixUsed(seg: string, x: string) returns (p: string)
    requires Carries(seg, KNOWN, x)
    ensures (p == "" || p in KNOWN) && Bare(seg) == p + x
  {
    if Bare(seg) == x {
      p := "";
      assert "" + x == x;
    } else {
      p :| p in KNOWN && Bare(seg) == p + x;
    }
  }

  lemma PrefixOrderIrrelevant(prefixes: seq<string>, seg: string, x: string)
    requires Elems(prefixes) == Elems(KNOWN)
    ensures Carries(seg, prefixes, x) <==> Carries(seg, KNOWN, x)
  {
    assert forall p :: p in prefixes <==> p in Elems(prefixes);
    assert forall p :: p in KNOWN <==> p in Elems(KNOWN);
  }

  lemma OtherSuffix(s: string, suffix: string, i: nat)
    requires i < |suffix| <= |s| && s[|s| - |suffix| + i] != suffix[i]
    ensures TrimSuffix(s, suffix) == s
  {
    assert s[|s| - |suffix|..][i] == s[|s| - |suffix| + i];
  }

  lemma OwnSuffix(s: string, suffix: string)
    ensures TrimSuffix(s + suffix, suffix) == s
  {
    assert (s + suffix)[|s|..] == suffix && (s + suffix)[..|s|] == s;
  }

  /** Every shape of segment a known runtime writes carries its id. */
  lemma KnownShapes(p: string, id: string)
    requires |id| == 64 && forall c <- id :: '0' <= c <= '9' || 'a' <= c <= 'f'
    requires p in {"", "docker-", "libpod-", "crio-", "cri-containerd-", "containerd-"}
    ensures Carries(p + id, KNOWN, id) && Carries(p + id + ".scope", KNOWN, id)
            && Carries(p + id + ".service", KNOWN, id)
  {
    var s := p + id;
    assert s[|s| - 8] == id[56] && s[|s| - 6] == id[58] && id[56] in id && id[58] in id;
    BareShapes(s, id[56], id[58]);
    assert p == "" ==> p + id == id;
  }

  lemma BareShapes(s: string, c: char, d: char)
    requires |s| >= 8 && s[|s| - 8] == c != '.' && s[|s| - 6] == d != '.'
    ensures Bare(s) == s && Bare(s + ".scope") == s && Bare(s + ".service") == s
  {
    OtherSuffix(s, ".scope", 0);
    OtherSuffix(s, ".service", 0);
    OwnSuffix(s, ".scope");
    OwnSuffix(s, ".service");
    assert (s + ".service")[|s| + 2] == 'e';
    OtherSuffix(s + ".service", ".scope", 0);
  }

  // ---- lines ----

  /** What follows the second colon of a line, if it has two. */
  function PathOf(line: string): Option<string> {
    var i := Find(line, ':');
    if i == |line| then None
    else
      var rest := line[i + 1..];
      var j := Find(rest, ':');
      if j == |rest| then None else Some(rest[j + 1..])
  }

  lemma PathSplits(line: string, path: string) returns (a: string, b: string)
    requires PathOf(line) == Some(path)
    ensures ':' !in a && ':' !in b && line == a + [':'] + b + [':'] + path
  {
    var i := Find(line, ':');
    var rest := line[i + 1..];
    var j := Find(rest, ':');
    a, b := line[..i], rest[..j];
    CutColon(line, i);
    CutColon(rest, j);
    Reassociate(a, b, path);
  }

  lemma Reassociate(a: string, b: string, path: string)
    ensures a + [':'] + (b + [':'] + path) == a + [':'] + b + [':'] + path
  {
  }

  lemma CutColon(s: string, i: nat)
    requires i < |s| && s[i] == ':'
    ensures s == s[..i] + [':'] + s[i + 1..]
  {
  }

  lemma PathJoins(a: string, b: string, path: string)
    requires ':' !in a && ':' !in b
    ensures PathOf(a + [':'] + b + [':'] + path) == Some(path)
  {
    var line, rest := a + [':'] + b + [':'] + path, b + [':'] + path;
    assert line[..|a|] == a && line[|a| + 1..] == rest;
    FindIs(line, ':', |a|);
    assert rest[..|b|] == b && rest[|b| + 1..] == path;
    FindIs(rest, ':', |b|);
  }

  /** The path is what follows two fields that hold no colon; it may hold colons itself. */
  lemma PathOfIff(line: string, path: string)
    ensures PathOf(line) == Some(path) <==>
              exists a, b :: ':' !in a && ':' !in b && line == a + [':'] + b + [':'] + path
  {
    if PathOf(line) == Some(path) { var a, b := PathSplits(line, path); }
    if a, b :| ':' !in a && ':' !in b && line == a + [':'] + b + [':'] + path { PathJoins(a, b, path); }
  }

  function SegmentsOf(line: string): seq<string> {
    var path := PathOf(TrimSpace(line));
    if TrimSpace(line) == "" || path.None? then [] else Split(path.value, '/')
  }

  /** Some path segment of some well-formed line carries the id. */
  ghost predicate Names(lines: seq<string>, id: string) {
    exists line, seg :: line in lines && seg in SegmentsOf(line) && Carries(seg, KNOWN, id)
  }

  predicate Scannable(lines: seq<string>) { forall line <- lines :: |line| <= MAX_LINE }

  /** The answer for a file naming these ids: the one id there is, and otherwise no guess. */
  ghost predicate Answers(lines: seq<string>, res: Result<string, IdError>) {
    match res
    case Ok(x) => Names(lines, x) && forall y :: Names(lines, y) ==> y == x
    case Err(NoId) => forall x :: !Names(lines, x)
    case Err(Ambiguous) => exists x, y :: Names(lines, x) && Names(lines, y) && x != y
    case Err(ScanFailed) => false
  }

  /** Exactly one answer fits, so the parser says Ok(x) exactly when x is the only id, Ambiguous exactly for two. */
  lemma AnswerUnique(lines: seq<string>, a: Result<string, IdError>, b: Result<string, IdError>)
    requires Answers(lines, a) && Answers(lines, b)
    ensures a == b
  {
    if a.Err? && a.error.Ambiguous? {
      var x, y :| Names(lines, x) && Names(lines, y) && x != y;
    }
    if b.Err? && b.error.Ambiguous? {
      var x, y :| Names(lines, x) && Names(lines, y) && x != y;
    }
  }

  /** Neither the order of the lines nor their repetition changes the answer. */
  lemma OrderIrrelevant(a: seq<string>, b: seq<string>, res: Result<string, IdError>)
    requires Elems(a) == Elems(b) && Answers(a, res)
    ensures Answers(b, res)
  {
    assert forall line :: line in a <==> line in b by {
      assert forall line :: line in a <==> line in Elems(a);
      assert forall line :: line in b <==> line in Elems(b);
    }
    assert forall x :: Names(a, x) <==> Names(b, x);
  }

  ghost predicate Seen(lines: seq<string>, segs: seq<string>, id: string) {
    Names(lines, id) || exists s :: s in segs && Carries(s, KNOWN, id)
  }

  /** What has been found after the lines before, and then the segments given. */
  ghost predicate SoFar(found: Option<string>, lines: seq<string>, segs: seq<string>) {
    && (found.Some? ==> Hex64(found.value) && Seen(lines, segs, found.value))
    && (forall x :: Names(lines, x) ==> found == Some(x))
    && (forall s, x :: s in segs && Carries(s, KNOWN, x) ==> found == Some(x))
  }

  /** One segment, folded into what was found before it. */
  method TakeSegment(found0: Option<string>, seg: string, ghost before: seq<string>, ghost segs: seq<string>)
    returns (res: Result<Option<string>, ()>)
    requires SoFar(found0, before, segs)
    ensures res.Ok? ==> SoFar(res.value, before, segs + [seg])
    ensures res.Err? ==> found0.Some? && exists y :: y != found0.value && Carries(seg, KNOWN, y)
  {
    var id := IdFromSegment(seg, KNOWN);
    if id.None? { return Ok(found0); }
    if found0.Some? && found0.value != id.value { return Err(()); }
    forall x | Carries(seg, KNOWN, x) ensures x == id.value { OneIdPerSegment(seg, x, id.value); }
    assert seg in segs + [seg];
    res := Ok(id);
  }

  /** The segments of one line, folded into what was found before it. */
  method TakeLine(found0: Option<string>, line: string, ghost before: seq<string>)
    returns (res: Result<Option<string>, ()>)
    requires SoFar(found0, before, [])
    ensures res.Ok? ==> SoFar(res.value, before + [line], [])
    ensures res.Err? ==> Answers(before + [line], Err(Ambiguous))
  {
    var segs := SegmentsOf(line);
    ghost var stop;
    res, stop := TakeSegments(found0, segs, before);
    if res.Ok? { LineDone(res.value, before, line); } else { TwoNamed(before, line, stop.0, stop.1); }
  }

  /** The i-th segment carries an id other than x, found before it. */
  ghost predicate Clash(before: seq<string>, segs: seq<string>, i: nat, x: string) {
    i < |segs| && SoFar(Some(x), before, segs[..i]) && exists y :: y != x && Carries(segs[i], KNOWN, y)
  }

  method TakeSegmentAt(found: Option<string>, segs: seq<string>, i: nat, ghost before: seq<string>)
    returns (res: Result<Option<string>, ()>)
    requires i < |segs| && SoFar(found, before, segs[..i])
    ensures res.Ok? ==> SoFar(res.value, before, segs[..i + 1])
    ensures res.Err? ==> found.Some? && Clash(before, segs, i, found.value)
  {
    res := TakeSegment(found, segs[i], before, segs[..i]);
    assert segs[..i + 1] == segs[..i] + [segs[i]];
  }

  /** The segment loop; when it stops at a second id, `stop` is where, and the id it had. */
  method TakeSegments(found0: Option<string>, segs: seq<string>, ghost before: seq<string>)
    returns (res: Result<Option<string>, ()>, ghost stop: (nat, string))
    requires SoFar(found0, before, [])
    ensures res.Ok? ==> SoFar(res.value, before, segs)
    ensures res.Err? ==> Clash(before, segs, stop.0, stop.1)
  {
    var found := found0;
    stop := (0, "");
    assert segs[..0] == [];
    for i := 0 to |segs|
      invariant SoFar(found, before, segs[..i])
    {
      var next := TakeSegmentAt(found, segs, i, before);
      if next.Err? { return Err(()), (i, found.value); }
      found := next.value;
    }
    assert segs[..|segs|] == segs;
    res := Ok(found);
  }

  lemma LineDone(found: Option<string>, before: seq<string>, line: string)
    requires SoFar(found, before, SegmentsOf(line))
    ensures SoFar(found, before + [line], [])
  {
    NamesSnoc(before, line);
  }

  lemma TwoNamed(before: seq<string>, line: string, i: nat, x: string)
    requires Clash(before, SegmentsOf(line), i, x)
    ensures exists x, y :: Names(before + [line], x) && Names(before + [line], y) && x != y
  {
    var segs := SegmentsOf(line);
    NamesSnoc(before, line);
    var y :| y != x && Carries(segs[i], KNOWN, y);
    assert forall s <- segs[..i] :: s in segs;
    assert segs[i] in segs;
    assert Names(before + [line], x) && Names(before + [line], y);
  }

  lemma NamesSnoc(before: seq<string>, line: string)
    ensures forall x :: Names(before + [line], x) <==>
              Names(before, x) || exists s :: s in SegmentsOf(line) && Carries(s, KNOWN, x)
  {
    assert line in before + [line];
  }

  /** parseCgroupContainerID. A line too long for the scanner stops it, unless two ids were met before. */
  method ParseCgroup(content: string) returns (res: Result<string, IdError>)
    ensures Scannable(Split(content, '\n')) ==> Answers(Split(content, '\n'), res)
    ensures !Scannable(Split(content, '\n')) ==> res.Err? && !res.error.NoId?
  {
    var lines := Split(content, '\n');
    var found: Option<string> := None;
    assert lines[..0] == [];
    for i := 0 to |lines|
      invariant SoFar(found, lines[..i], []) && forall k :: 0 <= k < i ==> |lines[k]| <= MAX_LINE
    {
      if |lines[i]| > MAX_LINE { return Err(ScanFailed); }
      var next := TakeLine(found, lines[i], lines[..i]);
      assert lines[..i + 1] == lines[..i] + [lines[i]];
      if next.Err? {
        StaysAmbiguous(lines, i + 1);
        return Err(Ambiguous);
      }
      found := next.value;
    }
    assert lines[..|lines|] == lines;
    AllSeen(found, lines);
    res := if found.Some? then Ok(found.value) else Err(NoId);
  }

  lemma StaysAmbiguous(lines: seq<string>, n: nat)
    requires n <= |lines| && Answers(lines[..n], Err(Ambiguous))
    ensures Answers(lines, Err(Ambiguous))
  {
    var x, y :| Names(lines[..n], x) && Names(lines[..n], y) && x != y;
    assert forall line <- lines[..n] :: line in lines;
    assert Names(lines, x) && Names(lines, y);
  }

  lemma AllSeen(found: Option<string>, lines: seq<string>)
    requires SoFar(found, lines, [])
    ensures Answers(lines, if found.Some? then Ok(found.value) else Err(NoId))
  {
  }
}
