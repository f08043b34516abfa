/** The dotenv text of a source: what its lines mean, and that rendering it changes nothing a reader can see. */
module Dotenv {
  import opened Prelude
  import opened Text

  datatype Failure = Malformed | NoSuchKey | WrongFormat | Decrypt | NoSource | NoHash
                   | ScopeMismatch | EnvRefused | BadRenderKind | NoMount | OutsideVolume | Io

  datatype Entry = Entry(key: string, value: string)

  predicate Skipped(line: string) { line == "" || line[0] == '#' }

  /** dotenvLineKey: split at the first '='. */
  function LineEntry(line: string): Option<Entry> {
    var eq := Find(line, '=');
    if eq == |line| then None else Some(Entry(line[..eq], line[eq + 1..]))
  }

  predicate BadLine(line: string) { !Skipped(line) && LineEntry(line).None? }

  predicate Names(line: string, key: string) {
    !Skipped(line) && LineEntry(line).Some? && LineEntry(line).value.key == key
  }

  /** What a list of lines says: its entries in order, or that a line is malformed. */
  function Parse(lines: seq<string>): Result<seq<Entry>, Failure> {
    if lines == [] then Ok([])
    else if Skipped(lines[0]) then Parse(lines[1..])
    else if LineEntry(lines[0]).None? then Err(Malformed)
    else
      var rest :- Parse(lines[1..]);
      Ok([LineEntry(lines[0]).value] + rest)
  }

  function First(es: seq<Entry>, key: string): Option<string> {
    if es == [] then None else if es[0].key == key then Some(es[0].value) else First(es[1..], key)
  }

  /** dotenvFind over the lines: it stops at the first line that names the key. */
  function FindIn(lines: seq<string>, key: string): Result<Option<string>, Failure> {
    if lines == [] then Ok(None)
    else if Skipped(lines[0]) then FindIn(lines[1..], key)
    else if LineEntry(lines[0]).None? then Err(Malformed)
    else if LineEntry(lines[0]).value.key == key then Ok(Some(LineEntry(lines[0]).value.value))
    else FindIn(lines[1..], key)
  }

  function KeysIn(es: seq<Entry>): (ks: seq<string>)
    ensures |ks| == |es| && forall i :: 0 <= i < |ks| ==> ks[i] == es[i].key
  {
    seq(|es|, i requires 0 <= i < |es| => es[i].key)
  }

  function Lines(data: string): seq<string> { Split(data, '\n') }

  // ---- the loops ----

  method DotenvKeys(data: string) returns (res: Result<seq<string>, Failure>)
    ensures match Parse(Lines(data)) case Ok(es) => res == Ok(KeysIn(es)) case Err(e) => res == Err(e)
  {
    var lines := Split(data, '\n');
    var keys: seq<string> := [];
    ghost var es: seq<Entry> := [];
    assert lines[..0] == [];
    for i := 0 to |lines|
      invariant keys == KeysIn(es)
      invariant Parse(lines[..i]) == Ok(es)
    {
      assert lines == lines[..i] + lines[i..] && lines[..i + 1] == lines[..i] + [lines[i]];
      ParseAppend(lines[..i], lines[i..]);
      ParseAppend(lines[..i], [lines[i]]);
      ParseOne(lines[i]);
      if Skipped(lines[i]) {
        assert es + [] == es;
        continue;
      }
      var e := LineEntry(lines[i]);
      if e.None? { return Err(Malformed); }
      keys := keys + [e.value.key];
      es := es + [e.value];
    }
    assert lines[..|lines|] == lines;
    res := Ok(keys);
  }

  /** A slice of the text: Go hands out data[lo:hi], not a copy. */
  datatype Range = Range(lo: nat, hi: nat)

  method DotenvFind(data: string, key: string) returns (res: Result<Option<Range>, Failure>)
    ensures match FindIn(Lines(data), key)
            case Err(e) => res == Err(e)
            case Ok(None) => res == Ok(None)
            case Ok(Some(v)) =>
              res.Ok? && res.value.Some?
              && var Range(lo, hi) := res.value.value; lo <= hi <= |data| && data[lo..hi] == v
  {
    var lines := Split(data, '\n');
    var at: nat := 0;
    ghost var starts := LineStarts(data);
    for i := 0 to |lines|
      invariant FindIn(lines, key) == FindIn(lines[i..], key)
      invariant i < |lines| ==> at == starts[i]
    {
      var line, end := lines[i], at + |lines[i]|;
      at := end + 1;
      if Skipped(line) { continue; }
      var e := LineEntry(line);
      if e.None? { return Err(Malformed); }
      if e.value.key == key {
        ValueAtEnd(data, line, end);
        return Ok(Some(Range(end - |e.value.value|, end)));
      }
    }
    res := Ok(None);
  }

  lemma ValueAtEnd(data: string, line: string, end: nat)
    requires |line| <= end <= |data| && data[end - |line|..end] == line && LineEntry(line).Some?
    ensures var v := LineEntry(line).value.value; |v| <= end && data[end - |v|..end] == v
  {
    var v := LineEntry(line).value.value;
    assert line[|line| - |v|..] == v;
    assert data[end - |v|..end] == data[end - |line|..end][|line| - |v|..];
  }

  ghost predicate StartsAt(data: string, line: string, at: nat) {
    at + |line| <= |data| && data[at..at + |line|] == line
  }

  lemma StartsLater(data: string, k: nat, line: string, at: nat)
    requires k <= |data| && StartsAt(data[k..], line, at)
    ensures StartsAt(data, line, at + k)
  {
    assert data[k..][at..at + |line|] == data[at + k..at + k + |line|];
  }

  /** Where each line of the text begins. */
  lemma {:induction false} LineStarts(data: string) returns (starts: seq<nat>)
    ensures |starts| == |Lines(data)| && starts[0] == 0
    ensures forall i :: 0 <= i < |starts| ==> StartsAt(data, Lines(data)[i], starts[i])
    ensures forall i :: 0 < i < |starts| ==> starts[i] == starts[i - 1] + |Lines(data)[i - 1]| + 1
    decreases |data|
  {
    var n, lines := Find(data, '\n'), Lines(data);
    starts := [0];
    assert data[0..n] == data[..n] && data[..|data|] == data;
    if n < |data| {
      var k := n + 1;
      var rest := LineStarts(data[k..]);
      starts := [0] + seq(|rest|, i requires 0 <= i < |rest| => rest[i] + k);
      AllLater(data, k, Lines(data[k..]), rest, starts[1..]);
      assert lines == [data[..n]] + Lines(data[k..]);
    }
  }

  lemma AllLater(data: string, k: nat, lines: seq<string>, rest: seq<nat>, starts: seq<nat>)
    requires k <= |data| && |rest| == |starts| == |lines|
    requires forall i :: 0 <= i < |rest| ==> StartsAt(data[k..], lines[i], rest[i]) && starts[i] == rest[i] + k
    ensures forall i :: 0 <= i < |starts| ==> StartsAt(data, lines[i], starts[i])
  {
    forall i | 0 <= i < |starts| ensures StartsAt(data, lines[i], starts[i]) {
      StartsLater(data, k, lines[i], rest[i]);
    }
  }

  lemma ParseOne(line: string)
    ensures Parse([line]) == if Skipped(line) then Ok([])
                             else if LineEntry(line).None? then Err(Malformed)
                             else Ok([LineEntry(line).value])
  {
    assert [line][1..] == [];
    assert forall e: Entry :: [e] + [] == [e];
  }

  lemma {:induction false} ParseAppend(a: seq<string>, b: seq<string>)
    ensures Parse(a + b) == match Parse(a)
                            case Err(e) => Err(e)
                            case Ok(es) => match Parse(b) case Err(e) => Err(e) case Ok(fs) => Ok(es + fs)
  {
    if a == [] {
      assert a + b == b;
      if Parse(b).Ok? { assert [] + Parse(b).value == Parse(b).value; }
    } else {
      assert (a + b)[1..] == a[1..] + b;
      ParseAppend(a[1..], b);
      if !Skipped(a[0]) && LineEntry(a[0]).Some? && Parse(a[1..]).Ok? && Parse(b).Ok? {
        var x := LineEntry(a[0]).value;
        assert [x] + (Parse(a[1..]).value + Parse(b).value) == ([x] + Parse(a[1..]).value) + Parse(b).value;
      }
    }
  }

  // ---- what a lookup finds ----

  /** When the key list succeeds, no lookup errors, and it finds exactly the listed keys. */
  lemma {:induction false} FindWhenParsed(lines: seq<string>, key: string)
    requires Parse(lines).Ok?
    ensures FindIn(lines, key) == Ok(First(Parse(lines).value, key))
    ensures First(Parse(lines).value, key).Some? <==> key in KeysIn(Parse(lines).value)
  {
    if lines != [] {
      FindWhenParsed(lines[1..], key);
      if !Skipped(lines[0]) {
        var es, rest := Parse(lines).value, Parse(lines[1..]).value;
        assert es[1..] == rest;
        assert KeysIn(es) == [es[0].key] + KeysIn(rest);
      }
    }
  }

  /** The key list fails exactly when some line is malformed. */
  lemma {:induction false} ParseFailsIff(lines: seq<string>)
    ensures Parse(lines).Err? <==> exists i :: 0 <= i < |lines| && BadLine(lines[i])
  {
    if lines != [] {
      ParseFailsIff(lines[1..]);
      assert forall i :: 0 <= i < |lines| - 1 ==> lines[1..][i] == lines[i + 1];
      if exists i :: 0 <= i < |lines| && BadLine(lines[i]) {
        var i :| 0 <= i < |lines| && BadLine(lines[i]);
        if i > 0 { assert BadLine(lines[1..][i - 1]); }
      }
    }
  }

  /** A lookup fails exactly when a malformed line comes before every line that names the key. */
  lemma {:induction false} FindFailsIff(lines: seq<string>, key: string)
    ensures FindIn(lines, key).Err? <==>
            exists i :: 0 <= i < |lines| && BadLine(lines[i]) && forall j :: 0 <= j < i ==> !Names(lines[j], key)
  {
    if lines != [] {
      var rest := lines[1..];
      FindFailsIff(rest, key);
      assert forall i :: 0 <= i < |rest| ==> rest[i] == lines[i + 1];
      if FindIn(rest, key).Err? && !Names(lines[0], key) && !BadLine(lines[0]) {
        var i :| 0 <= i < |rest| && BadLine(rest[i]) && forall j :: 0 <= j < i ==> !Names(rest[j], key);
        assert BadLine(lines[i + 1]) && forall j :: 0 <= j < i + 1 ==> !Names(lines[j], key) by {
          assert forall j :: 1 <= j < i + 1 ==> lines[j] == rest[j - 1];
        }
      }
      if i :| 0 <= i < |lines| && BadLine(lines[i]) && forall j :: 0 <= j < i ==> !Names(lines[j], key) {
        if i > 0 {
          assert BadLine(rest[i - 1]) && forall j :: 0 <= j < i - 1 ==> !Names(rest[j], key);
        }
      }
    }
  }

  /** The key list of these two lines fails, and a lookup of the first key does not see the second line. */
  lemma LaterLineUnseen()
    ensures Parse(["K=v", "bad"]) == Err(Malformed)
    ensures FindIn(["K=v", "bad"], "K") == Ok(Some("v"))
  {
  }

  // ---- lines, by their text ----

  /** The line assigns to the key: it starts with the key and "=", and is no comment. */
  ghost predicate Assigns(line: string, key: string) {
    '=' !in key && HasPrefix(line, key + "=") && line[0] != '#'
  }

  ghost predicate Corrupt(line: string) { line != "" && line[0] != '#' && '=' !in line }

  /** What single lines mean: the key ends at the first "=", and without one a line that is no comment is malformed. */
  lemma LineIs(line: string, key: string)
    ensures BadLine(line) <==> Corrupt(line)
    ensures Names(line, key) <==> Assigns(line, key)
    ensures Names(line, key) ==> LineEntry(line) == Some(Entry(key, line[|key| + 1..]))
  {
    var eq := Find(line, '=');
    assert eq == |line| ==> line[..eq] == line;
    if Assigns(line, key) {
      assert line[..|key|] == key && line[|key|] == (key + "=")[|key|];
      FindIs(line, '=', |key|);
    }
    if Names(line, key) { assert line[..|key| + 1] == key + "="; }
  }

  /** A blank line or a comment, wherever it stands, changes neither the entries nor any lookup. */
  lemma {:induction false} CommentIgnored(a: seq<string>, line: string, b: seq<string>, key: string)
    requires line == "" || line[0] == '#'
    ensures Parse(a + [line] + b) == Parse(a + b)
    ensures FindIn(a + [line] + b, key) == FindIn(a + b, key)
  {
    if a == [] {
      assert (a + [line] + b)[1..] == b == a + b;
    } else {
      assert (a + [line] + b)[1..] == a[1..] + [line] + b && (a + b)[1..] == a[1..] + b;
      CommentIgnored(a[1..], line, b, key);
    }
  }

  /** The entries of a text are those of its assigning lines, in order; one malformed line and there are none. */
  lemma LineEntries(a: seq<string>, line: string, b: seq<string>, key: string, value: string)
    requires Assigns(line, key) && line == key + "=" + value && Parse(a).Ok? && Parse(b).Ok?
    ensures Parse(a + [line] + b) == Ok(Parse(a).value + [Entry(key, value)] + Parse(b).value)
  {
    LineIs(line, key);
    assert line[|key| + 1..] == value;
    ParseOne(line);
    ParseAppend(a, [line]);
    ParseAppend(a + [line], b);
  }

  /** The i-th line is the first to assign to the key, and no malformed line comes before it. */
  ghost predicate FirstAssigning(lines: seq<string>, key: string, i: nat) {
    i < |lines| && Assigns(lines[i], key) && forall j :: 0 <= j < i ==> !Assigns(lines[j], key) && !Corrupt(lines[j])
  }

  /** A lookup finds exactly the text after the "=" of the first line that assigns to the key. */
  lemma {:induction false} FoundIff(lines: seq<string>, key: string, value: string)
    ensures FindIn(lines, key) == Ok(Some(value)) <==>
              exists i: nat :: FirstAssigning(lines, key, i) && lines[i] == key + "=" + value
  {
    if lines != [] {
      var rest := lines[1..];
      FoundIff(rest, key, value);
      LineIs(lines[0], key);
      assert forall i :: 0 <= i < |rest| ==> rest[i] == lines[i + 1];
      if Names(lines[0], key) {
        assert lines[0] == key + "=" + lines[0][|key| + 1..] by { assert lines[0][..|key| + 1] == key + "="; }
        assert lines[0] == key + "=" + value ==> lines[0][|key| + 1..] == value;
        assert FirstAssigning(lines, key, 0);
        assert forall i: nat :: FirstAssigning(lines, key, i) ==> i == 0;
      } else if !BadLine(lines[0]) {
        forall i: nat ensures FirstAssigning(lines, key, i + 1) <==> FirstAssigning(rest, key, i) {
          LaterAssigning(lines, key, i);
        }
        if i: nat :| FirstAssigning(rest, key, i) && rest[i] == key + "=" + value {
          assert FirstAssigning(lines, key, i + 1);
        }
        if i: nat :| FirstAssigning(lines, key, i) && lines[i] == key + "=" + value {
          assert i > 0 && FirstAssigning(rest, key, i - 1);
        }
      }
    }
  }

  lemma LaterAssigning(lines: seq<string>, key: string, i: nat)
    requires lines != [] && !Assigns(lines[0], key) && !Corrupt(lines[0])
    ensures FirstAssigning(lines, key, i + 1) <==> FirstAssigning(lines[1..], key, i)
  {
    var rest := lines[1..];
    assert forall j :: 0 <= j < |rest| ==> rest[j] == lines[j + 1];
    if FirstAssigning(rest, key, i) {
      forall j | 0 <= j < i + 1 ensures !Assigns(lines[j], key) && !Corrupt(lines[j]) {
        if j > 0 { assert lines[j] == rest[j - 1]; }
      }
    }
  }

  // ---- rendering ----

  /** The text a dotenv render writes for these entries. */
  function Rendered(es: seq<Entry>): string {
    if es == [] then "" else es[0].key + "=" + es[0].value + "\n" + Rendered(es[1..])
  }

  /** Each key with the value a lookup gives it: a repeated key repeats its first value. */
  function Looked(es: seq<Entry>): (r: seq<Entry>)
    ensures |r| == |es| && forall i :: 0 <= i < |r| ==> r[i] == Entry(es[i].key, Lookup(es, es[i].key))
  {
    seq(|es|, i requires 0 <= i < |es| => Entry(es[i].key, Lookup(es, es[i].key)))
  }

  function Lookup(es: seq<Entry>, key: string): string {
    match First(es, key)
    case Some(v) => v
    case None => ""
  }

  lemma {:induction false} FirstOfEach(es: seq<Entry>)
    ensures forall i :: 0 <= i < |es| ==> First(es, es[i].key).Some?
  {
    if es != [] {
      FirstOfEach(es[1..]);
      assert forall i :: 1 <= i < |es| ==> es[1..][i - 1] == es[i];
    }
  }

  /** Entries that a line can carry unchanged. */
  ghost predicate Carriable(es: seq<Entry>) {
    forall e <- es :: '=' !in e.key && '\n' !in e.key && '\n' !in e.value && (e.key == "" || e.key[0] != '#')
  }

  function EntryLine(e: Entry): string { e.key + "=" + e.value }

  lemma EntryLineReads(e: Entry)
    requires Carriable([e])
    ensures !Skipped(EntryLine(e)) && LineEntry(EntryLine(e)) == Some(e) && '\n' !in EntryLine(e)
  {
    assert e in [e];
    var line := EntryLine(e);
    assert line[..|e.key|] == e.key && line[|e.key| + 1..] == e.value;
    FindIs(line, '=', |e.key|);
  }

  lemma {:induction false} ParseCarriable(lines: seq<string>)
    requires Parse(lines).Ok? && NoneHas(lines, '\n')
    ensures Carriable(Parse(lines).value)
  {
    if lines != [] {
      assert NoneHas(lines[1..], '\n') by {
        assert forall i :: 0 <= i < |lines| - 1 ==> lines[1..][i] == lines[i + 1];
      }
      ParseCarriable(lines[1..]);
      if !Skipped(lines[0]) {
        var line, e := lines[0], LineEntry(lines[0]).value;
        assert forall c <- e.value :: c in line;
        assert forall c <- e.key :: c in line;
        assert e.key != "" ==> e.key[0] == line[0];
      }
    }
  }

  /** A line without a newline, then its newline, is one line of the text. */
  lemma LineFirst(line: string, rest: string)
    requires '\n' !in line
    ensures Lines(line + ['\n'] + rest) == [line] + Lines(rest)
  {
    SplitAppend(line, rest, '\n');
    assert line[..|line|] == line;
    FindIs(line, '\n', |line|);
  }

  /** Rendered text parses back to exactly the entries it was rendered from. */
  lemma {:induction false} RenderedReads(es: seq<Entry>)
    requires Carriable(es)
    ensures Parse(Lines(Rendered(es))) == Ok(es)
  {
    if es == [] {
      assert Lines("") == [""];
    } else {
      EntryLineReads(es[0]) by { assert es[0] in es; }
      RenderedReads(es[1..]);
      RenderedOneMore(es[0], es[1..]);
      assert [es[0]] + es[1..] == es;
    }
  }

  lemma RenderedOneMore(e: Entry, es: seq<Entry>)
    requires !Skipped(EntryLine(e)) && LineEntry(EntryLine(e)) == Some(e) && '\n' !in EntryLine(e)
    requires Parse(Lines(Rendered(es))) == Ok(es)
    ensures Parse(Lines(Rendered([e] + es))) == Ok([e] + es)
  {
    var line := EntryLine(e);
    assert ([e] + es)[1..] == es;
    assert Rendered([e] + es) == line + ['\n'] + Rendered(es);
    LineFirst(line, Rendered(es));
    ParseAppend([line], Lines(Rendered(es)));
    ParseOne(line);
  }

  lemma {:induction false} FirstIs(es: seq<Entry>, i: nat)
    requires i < |es| && forall j :: 0 <= j < i ==> es[j].key != es[i].key
    ensures First(es, es[i].key) == Some(es[i].value)
  {
    if i > 0 { FirstIs(es[1..], i - 1); }
  }

  lemma {:induction false} FirstAt(es: seq<Entry>, key: string) returns (i: nat)
    ensures First(es, key).Some? ==> i < |es| && es[i].key == key && First(es, key) == Some(es[i].value)
                                     && forall j :: 0 <= j < i ==> es[j].key != key
    ensures First(es, key).None? ==> forall e <- es :: e.key != key
  {
    i := 0;
    if es != [] && es[0].key != key {
      i := FirstAt(es[1..], key);
      i := i + 1;
      assert forall j :: 1 <= j < |es| ==> es[j] == es[1..][j - 1];
    }
  }

  /** A lookup cannot tell the entries from the looked-up entries. */
  lemma FirstLooked(es: seq<Entry>, key: string)
    ensures First(Looked(es), key) == First(es, key)
  {
    var i := FirstAt(es, key);
    var k := FirstAt(Looked(es), key);
    assert forall j :: 0 <= j < |es| ==> es[j] in es;
    if First(es, key).Some? { FirstIs(Looked(es), i); }
  }

  lemma LookedTwice(es: seq<Entry>)
    ensures Looked(Looked(es)) == Looked(es)
  {
    forall i | 0 <= i < |es| ensures Looked(Looked(es))[i] == Looked(es)[i] { FirstLooked(es, es[i].key); }
  }

  /** The dotenv render of a source's text. */
  function Render(data: string): Result<string, Failure> {
    var es :- Parse(Lines(data));
    Ok(Rendered(Looked(es)))
  }

  lemma LookedCarriable(es: seq<Entry>)
    requires Carriable(es)
    ensures Carriable(Looked(es))
  {
    forall x | x in Looked(es) ensures Carriable([x]) {
      var i :| 0 <= i < |es| && Looked(es)[i] == x;
      var k := FirstAt(es, es[i].key);
      FirstOfEach(es);
      assert es[i] in es && es[k] in es;
    }
    assert forall x <- Looked(es) :: x in [x];
  }

  /**
    * Rendering is a fixed point of parsing: same keys, same value for every key, and rendering again changes nothing.
    */
  lemma RenderFixedPoint(data: string, key: string)
    requires Parse(Lines(data)).Ok?
    ensures var es := Parse(Lines(data)).value; var text := Render(data).value;
            && Parse(Lines(text)).Ok?
            && KeysIn(Parse(Lines(text)).value) == KeysIn(es)
            && FindIn(Lines(text), key) == FindIn(Lines(data), key)
            && Render(text) == Ok(text)
  {
    var es := Parse(Lines(data)).value;
    SplitPieces(data, '\n');
    ParseCarriable(Lines(data));
    LookedCarriable(es);
    RenderedReads(Looked(es));
    FindWhenParsed(Lines(data), key);
    FindWhenParsed(Lines(Render(data).value), key);
    FirstLooked(es, key);
    LookedTwice(es);
  }
}
