/** The request side of the protocol: the two-byte fetch request and the hook request with its annotation map. */
module Hook {
  import opened Prelude
  import opened Sorting
  import opened Wire

  datatype Annotation = Annotation(key: string, value: string)
  datatype RequestType = Fetch | HookRequest

  predicate AnnotationFits(a: Annotation) { Short(a.key) && Short(a.value) }

  function PutAnnotation(a: Annotation): string { Put16(a.key) + Put16(a.value) }

  function GetAnnotation(s: string): Result<(Annotation, string), Error> {
    var (key, s1) :- Get16(s);
    var (value, s2) :- Get16(s1);
    Ok((Annotation(key, value), s2))
  }

  /** readStringMap's m[k] = v over the pairs in stream order: a repeated key keeps its last value. */
  function MapOf(pairs: seq<Annotation>): map<string, string> {
    if pairs == [] then map[]
    else var a := pairs[|pairs| - 1]; MapOf(pairs[..|pairs| - 1])[a.key := a.value]
  }

  lemma MapOfOneMore(pairs: seq<Annotation>, a: Annotation)
    ensures MapOf(pairs + [a]) == MapOf(pairs)[a.key := a.value]
  {
    assert (pairs + [a])[..|pairs|] == pairs;
  }

  function Listing(m: map<string, string>, keys: seq<string>): (r: seq<Annotation>)
    requires forall k <- keys :: k in m
    ensures |r| == |keys| && forall i :: 0 <= i < |r| ==> r[i] == Annotation(keys[i], m[keys[i]])
  {
    seq(|keys|, i requires 0 <= i < |keys| => Annotation(keys[i], m[keys[i]]))
  }

  ghost function SortedPairs(m: map<string, string>): seq<Annotation> {
    assert forall k <- Sorted(m.Keys) :: k in Elems(Sorted(m.Keys));
    Listing(m, Sorted(m.Keys))
  }

  /** The frame WriteHookRequest writes: a function of the map alone, whatever order Go ranges over it. */
  ghost function PutHook(id: string, m: map<string, string>): string {
    [VERSION, MSG_HOOK] + Put16(id) + Be16(|m| % 0x1_0000) + PutMany(SortedPairs(m), PutAnnotation)
  }

  predicate HookEncodable(id: string, m: map<string, string>) {
    id != "" && Narrow(id) && |m| <= 0xffff && forall k <- m.Keys :: Narrow(k) && Narrow(m[k])
  }

  predicate HookFits(id: string, m: map<string, string>) {
    id != "" && Short(id) && |m| <= 0xffff && forall k <- m.Keys :: Short(k) && Short(m[k])
  }

  /** ReadRequestHeader. */
  function GetHeader(s: string): Result<(RequestType, string), Error> {
    var (h, t) :- Get(s, 2);
    if h[0] != VERSION then Err(BadVersion)
    else if h[1] == MSG_FETCH then Ok((Fetch, t))
    else if h[1] == MSG_HOOK then Ok((HookRequest, t))
    else Err(BadType)
  }

  function GetMap(s: string): Result<(map<string, string>, string), Error> {
    var (h, t) :- Get(s, 2);
    var (pairs, u) :- GetMany(U16(h), GetAnnotation, t);
    Ok((MapOf(pairs), u))
  }

  /** ReadHookBody. */
  function GetHookBody(s: string): Result<((string, map<string, string>), string), Error> {
    var (id, t) :- Get16(s);
    if id == "" then Err(EmptyId)
    else
      var (m, u) :- GetMap(t);
      Ok(((id, m), u))
  }

  /** ReadHookRequest. */
  function GetHook(s: string): Result<((string, map<string, string>), string), Error> {
    var (kind, t) :- GetHeader(s);
    if kind != HookRequest then Err(BadType) else GetHookBody(t)
  }

  lemma {:induction false} MapOfListing(m: map<string, string>, keys: seq<string>)
    requires forall k <- keys :: k in m
    ensures MapOf(Listing(m, keys)) == map k | k in keys :: m[k]
  {
    var r := Listing(m, keys);
    if keys != [] {
      var n := |keys| - 1;
      assert r[..n] == Listing(m, keys[..n]);
      MapOfListing(m, keys[..n]);
      assert keys == keys[..n] + [keys[n]];
    }
  }

  lemma GetPutAnnotation(a: Annotation, t: string)
    requires AnnotationFits(a)
    ensures GetAnnotation(PutAnnotation(a) + t) == Ok((a, t))
  {
    Cat2(Put16(a.key), Put16(a.value), t);
    Get16Put16(a.key, Put16(a.value) + t);
    Get16Put16(a.value, t);
  }

  lemma SortedPairsOf(m: map<string, string>)
    ensures |SortedPairs(m)| == |m| && MapOf(SortedPairs(m)) == m
  {
    var keys := Sorted(m.Keys);
    assert forall k <- keys :: k in Elems(keys);
    MapOfListing(m, keys);
    assert forall k :: k in keys <==> k in Elems(keys);
    DistinctCount(keys);
  }

  lemma {:induction false} DistinctCount(keys: seq<string>)
    requires Ordered(keys, NameKey)
    ensures |Elems(keys)| == |keys|
  {
    if keys != [] {
      var n := |keys| - 1;
      DistinctCount(keys[..n]);
      forall k <- keys[..n] ensures k != keys[n] { BeforeTotal(NameKey(k), NameKey(keys[n])); }
      assert Elems(keys) == Elems(keys[..n]) + {keys[n]};
    }
  }

  lemma MapReadsBack(m: map<string, string>, t: string)
    requires |m| <= 0xffff && forall k <- m.Keys :: Short(k) && Short(m[k])
    ensures GetMap(Be16(|m|) + (PutMany(SortedPairs(m), PutAnnotation) + t)) == Ok((m, t))
  {
    var pairs := SortedPairs(m);
    var keys := Sorted(m.Keys);
    SortedPairsOf(m);
    forall a, u: string | a in pairs ensures GetAnnotation(PutAnnotation(a) + u) == Ok((a, u)) {
      assert forall k <- keys :: k in Elems(keys);
      GetPutAnnotation(a, u);
    }
    assert forall a <- pairs :: Inverts(a, PutAnnotation, GetAnnotation);
    Cut(Be16(|m|), PutMany(pairs, PutAnnotation) + t);
    Be16U16(|m|);
    GetPutMany(pairs, PutAnnotation, GetAnnotation, t);
  }

  /** A hook request that fits reads back to the same id and the same map, and leaves exactly what follows it. */
  lemma HookRoundTrip(id: string, m: map<string, string>, t: string)
    requires HookFits(id, m)
    ensures GetHook(PutHook(id, m) + t) == Ok(((id, m), t))
  {
    NoWrap16(|m|);
    HookBodyReadsBack(id, m, t);
    HookOf(Put16(id), Be16(|m|), PutMany(SortedPairs(m), PutAnnotation), t);
  }

  lemma NoWrap16(n: nat)
    requires n <= 0xffff
    ensures n % 0x1_0000 == n
  {
  }

  lemma HookOf(id: string, count: string, pairs: string, t: string)
    ensures GetHook([VERSION, MSG_HOOK] + id + count + pairs + t) == GetHookBody(id + (count + (pairs + t)))
  {
    var h := [VERSION, MSG_HOOK];
    Cat4(h, id, count, pairs, t);
    Cut(h, id + (count + (pairs + t)));
  }

  lemma HookBodyReadsBack(id: string, m: map<string, string>, t: string)
    requires HookFits(id, m)
    ensures GetHookBody(Put16(id) + (Be16(|m|) + (PutMany(SortedPairs(m), PutAnnotation) + t))) == Ok(((id, m), t))
  {
    MapReadsBack(m, t);
    Get16Put16(id, Be16(|m|) + (PutMany(SortedPairs(m), PutAnnotation) + t));
  }

  /** Two hook requests that fit and share a frame are the same request. */
  lemma HookInjective(id: string, m: map<string, string>, t: string, id': string, m': map<string, string>, t': string)
    requires HookFits(id, m) && HookFits(id', m') && PutHook(id, m) + t == PutHook(id', m') + t'
    ensures id == id' && m == m' && t == t'
  {
    HookRoundTrip(id, m, t);
    HookRoundTrip(id', m', t');
  }

  /** A hook request cut short anywhere is rejected. */
  lemma HookPrefixRejected(id: string, m: map<string, string>, n: nat)
    requires HookFits(id, m) && n < |PutHook(id, m)|
    ensures GetHook(PutHook(id, m)[..n]).Err?
  {
    var f := PutHook(id, m);
    var s := f[..n];
    assert f == s + f[n..] && f + "" == f;
    assert |f[n..]| > 0;
    HookRoundTrip(id, m, "");
    if GetHook(s).Ok? {
      GetHookExtends(s, f[n..]);
      assert false;
    }
  }

  // ---- reading more bytes never changes what was already read ----

  lemma Get16Extends(s: string, t: string)
    requires Get16(s).Ok?
    ensures Get16(s + t) == Ok((Get16(s).value.0, Get16(s).value.1 + t))
  {
    var n := U16(s[..2]);
    assert (s + t)[..2] == s[..2] && (s + t)[2..] == s[2..] + t;
    assert (s[2..] + t)[..n] == s[2..][..n] && (s[2..] + t)[n..] == s[2..][n..] + t;
  }

  lemma {:induction false} AnnotationsExtend(n: nat, s: string, t: string)
    requires GetMany(n, GetAnnotation, s).Ok?
    ensures var (xs, u) := GetMany(n, GetAnnotation, s).value;
            GetMany(n, GetAnnotation, s + t) == Ok((xs, u + t))
    decreases n
  {
    if n > 0 {
      Get16Extends(s, t);
      Get16Extends(Get16(s).value.1, t);
      AnnotationsExtend(n - 1, GetAnnotation(s).value.1, t);
    }
  }

  lemma GetHookExtends(s: string, t: string)
    requires GetHook(s).Ok?
    ensures var (x, u) := GetHook(s).value; GetHook(s + t) == Ok((x, u + t))
  {
    var b := s[2..];
    assert (s + t)[..2] == s[..2] && (s + t)[2..] == b + t;
    Get16Extends(b, t);
    var c := Get16(b).value.1;
    assert (c + t)[..2] == c[..2] && (c + t)[2..] == c[2..] + t;
    AnnotationsExtend(U16(c[..2]), c[2..], t);
  }

  // ---- the layout ----

  lemma OnePair(key: string, value: string)
    ensures PutMany(SortedPairs(map[key := value]), PutAnnotation) == Put16(key) + Put16(value)
    ensures |map[key := value]| == 1
  {
    var m, a := map[key := value], Annotation(key, value);
    assert m.Keys == {key};
    SortedIs({key}, [key]);
    assert SortedPairs(m) == [a] && [a][1..] == [];
    assert PutMany([a], PutAnnotation) == PutAnnotation(a) + "";
    assert |m| == |m.Keys|;
  }

  /** The layout, byte by byte, of a hook request with a short id and one short annotation. */
  lemma FrameOfOneAnnotation(id: string, key: string, value: string)
    requires |id| < 256 && |key| < 256 && |value| < 256
    ensures PutHook(id, map[key := value])
         == ['\U{2}', '\U{4}'] + (['\0', |id| as char] + id) + ['\0', '\U{1}']
            + ((['\0', |key| as char] + key) + (['\0', |value| as char] + value))
  {
    OnePair(key, value);
    OneHook(id, map[key := value]);
    FieldLayout(id);
    FieldLayout(key);
    FieldLayout(value);
  }

  lemma OneHook(id: string, m: map<string, string>)
    requires |m| == 1
    ensures PutHook(id, m)
         == ['\U{2}', '\U{4}'] + Put16(id) + ['\0', '\U{1}'] + PutMany(SortedPairs(m), PutAnnotation)
  {
    assert Be16(1) == ['\0', '\U{1}'];
  }

  /** The two-byte headers: what a request is, or why it is none. */
  lemma HeaderIs(version: char, kind: char, t: string)
    ensures GetHeader([version, kind] + t)
         == if version != '\U{2}' then Err(BadVersion)
            else if kind == '\U{1}' then Ok((Fetch, t))
            else if kind == '\U{4}' then Ok((HookRequest, t))
            else Err(BadType)
  {
    var s := [version, kind] + t;
    assert s[..2] == [version, kind] && s[2..] == t;
  }

  /** A refusal: its header and its reason, whatever follows. */
  lemma RefusalFrame(reason: string, t: string)
    requires Short(reason)
    ensures GetResponse(['\U{2}', '\U{3}'] + (Put16(reason) + t)) == Err(Refused(reason))
  {
    var s := ['\U{2}', '\U{3}'] + (Put16(reason) + t);
    assert s[..2] == ['\U{2}', '\U{3}'] && s[2..] == Put16(reason) + t;
    Get16Put16(reason, t);
  }
}
