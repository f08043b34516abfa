/** The frame layout as values: what each byte of a frame means, and what the decoder makes of any bytes. */
module Wire {
  import opened Prelude

  const MAX_FIELD: nat := 64 * 1024 * 1024
  const TWO_32: nat := 0x1_0000_0000
  const VERSION: char := 2 as char
  const MSG_FETCH: char := 1 as char
  const MSG_BUNDLE: char := 2 as char
  const MSG_ERROR: char := 3 as char
  const MSG_HOOK: char := 4 as char

  datatype Error = Truncated | TooLong | BadVersion | BadType | Refused(reason: string) | EmptyId

  datatype FileV = FileV(path: string, owner: string, mode: string, data: string)
  datatype EnvV = EnvV(name: string, value: string)
  datatype Pointer = Pointer(name: string, path: string)
  datatype BundleV = BundleV(files: seq<FileV>, env: seq<EnvV>, pointers: seq<Pointer>, manifest: string)

  /** Every char is one byte. */
  ghost predicate IsBytes(s: string) { forall i :: 0 <= i < |s| ==> s[i] as int < 256 }

  // ---- integers, big-endian ----

  function Be16(n: nat): (s: string)
    ensures |s| == 2
  {
    [(n / 256 % 256) as char, (n % 256) as char]
  }

  function Be32(n: nat): (s: string)
    ensures |s| == 4
  {
    Be16(n / 65536) + Be16(n % 65536)
  }

  function U16(s: string): nat
    requires |s| >= 2
  {
    s[0] as int * 256 + s[1] as int
  }

  function U32(s: string): nat
    requires |s| >= 4
  {
    U16(s) * 65536 + U16(s[2..])
  }

  lemma Be16U16(n: nat)
    requires n < 65536
    ensures U16(Be16(n)) == n
  {
  }

  lemma Be32U32(n: nat)
    requires n < TWO_32
    ensures U32(Be32(n)) == n
  {
    assert Be32(n)[2..] == Be16(n % 65536);
    Be16U16(n / 65536);
    Be16U16(n % 65536);
  }

  lemma U16Be16(s: string)
    requires |s| == 2 && IsBytes(s)
    ensures U16(s) < 65536 && Be16(U16(s)) == s
  {
    var a, b := s[0] as int, s[1] as int;
    assert (a * 256 + b) / 256 == a && (a * 256 + b) % 256 == b;
  }

  lemma U32Be32(s: string)
    requires |s| == 4 && IsBytes(s)
    ensures U32(s) < TWO_32 && Be32(U32(s)) == s
  {
    U16Be16(s[..2]);
    U16Be16(s[2..]);
    var h, l := U16(s), U16(s[2..]);
    assert (h * 65536 + l) / 65536 == h && (h * 65536 + l) % 65536 == l;
    assert s == s[..2] + s[2..];
  }

  // ---- reading ----

  function Get(s: string, n: nat): Result<(string, string), Error> {
    if |s| < n then Err(Truncated) else Ok((s[..n], s[n..]))
  }

  function GetU32(s: string): Result<(nat, string), Error> {
    var (h, t) :- Get(s, 4);
    Ok((U32(h), t))
  }

  function Get16(s: string): Result<(string, string), Error> {
    var (h, t) :- Get(s, 2);
    Get(t, U16(h))
  }

  function Get32(s: string): Result<(string, string), Error> {
    var (n, t) :- GetU32(s);
    if n > MAX_FIELD then Err(TooLong) else Get(t, n)
  }

  /** A file entry's path, owner and mode. */
  function GetNames(s: string): Result<((string, string, string), string), Error> {
    var (path, s1) :- Get16(s);
    var (owner, s2) :- Get16(s1);
    var (mode, s3) :- Get16(s2);
    Ok(((path, owner, mode), s3))
  }

  function GetFile(s: string): Result<(FileV, string), Error> {
    var (names, t) :- GetNames(s);
    var (data, u) :- Get32(t);
    Ok((FileV(names.0, names.1, names.2, data), u))
  }

  function GetEnv(s: string): Result<(EnvV, string), Error> {
    var (name, s1) :- Get16(s);
    var (value, s2) :- Get32(s1);
    Ok((EnvV(name, value), s2))
  }

  function GetPointer(s: string): Result<(Pointer, string), Error> {
    var (name, s1) :- Get16(s);
    var (path, s2) :- Get16(s1);
    Ok((Pointer(name, path), s2))
  }

  function GetMany<T>(n: nat, get: string -> Result<(T, string), Error>, s: string): Result<(seq<T>, string), Error>
    decreases n
  {
    if n == 0 then Ok(([], s))
    else
      var (x, t) :- get(s);
      var (xs, u) :- GetMany(n - 1, get, t);
      Ok(([x] + xs, u))
  }

  function GetCounted<T>(get: string -> Result<(T, string), Error>, s: string): Result<(seq<T>, string), Error> {
    var (n, t) :- GetU32(s);
    GetMany(n, get, t)
  }

  /** decodeBundle: the body of a bundle frame and what is left of the stream after it. */
  function GetBundle(s: string): Result<(BundleV, string), Error> {
    var (files, s1) :- GetCounted(GetFile, s);
    var (env, s2) :- GetCounted(GetEnv, s1);
    var (pointers, s3) :- GetCounted(GetPointer, s2);
    var (manifest, s4) :- Get32(s3);
    Ok((BundleV(files, env, pointers, manifest), s4))
  }

  /** ReadResponse. */
  function GetResponse(s: string): Result<(BundleV, string), Error> {
    var (h, t) :- Get(s, 2);
    if h[0] != VERSION then Err(BadVersion)
    else if h[1] == MSG_ERROR then
      var (reason, _) :- Get16(t);
      Err(Refused(reason))
    else if h[1] == MSG_BUNDLE then GetBundle(t)
    else Err(BadType)
  }

  // ---- writing; a Go length is narrowed to uint32 before it is written ----

  function Put16(p: string): string { Be16(|p| % TWO_32) + p }

  function Put32(p: string): string { Be32(|p| % TWO_32) + p }

  function PutFile(f: FileV): string { Put16(f.path) + Put16(f.owner) + Put16(f.mode) + Put32(f.data) }

  function PutEnv(e: EnvV): string { Put16(e.name) + Put32(e.value) }

  function PutPointer(p: Pointer): string { Put16(p.name) + Put16(p.path) }

  function PutMany<T>(xs: seq<T>, put: T -> string): string {
    if xs == [] then "" else put(xs[0]) + PutMany(xs[1..], put)
  }

  function PutCounted<T>(xs: seq<T>, put: T -> string): string { Be32(|xs| % TWO_32) + PutMany(xs, put) }

  function PutBundle(b: BundleV): string {
    PutCounted(b.files, PutFile) + PutCounted(b.env, PutEnv) + PutCounted(b.pointers, PutPointer) + Put32(b.manifest)
  }

  /** The frame EncodeBundle writes when no name is too long for its prefix. */
  function PutResponse(b: BundleV): string { [VERSION, MSG_BUNDLE] + PutBundle(b) }

  /**
    * The layout, byte by byte, of a bundle of one file with short names: big-endian counts and lengths before
    * contents.
    */
  lemma FrameOfOneFile(f: FileV)
    requires |f.path| < 256 && |f.owner| < 256 && |f.mode| < 256 && |f.data| < 256
    ensures PutResponse(BundleV([f], [], [], ""))
         == ['\U{2}', '\U{2}'] + ['\0', '\0', '\0', '\U{1}']
            + (['\0', |f.path| as char] + f.path) + (['\0', |f.owner| as char] + f.owner)
            + (['\0', |f.mode| as char] + f.mode) + (['\0', '\0', '\0', |f.data| as char] + f.data)
            + ['\0', '\0', '\0', '\0'] + ['\0', '\0', '\0', '\0'] + ['\0', '\0', '\0', '\0']
  {
    var zero := ['\0', '\0', '\0', '\0'];
    assert Be32(0) == zero && Be32(1) == ['\0', '\0', '\0', '\U{1}'];
    FieldLayout(f.path);
    FieldLayout(f.owner);
    FieldLayout(f.mode);
    FieldLayout(f.data);
    OneEntry(f);
    NoEntries();
    Reassociate([VERSION, MSG_BUNDLE], Be32(1), Put16(f.path), Put16(f.owner), Put16(f.mode), Put32(f.data), zero);
  }

  lemma FieldLayout(p: string)
    requires |p| < 256
    ensures Put16(p) == ['\0', |p| as char] + p && Put32(p) == ['\0', '\0', '\0', |p| as char] + p
  {
  }

  lemma OneEntry(f: FileV)
    ensures PutCounted([f], PutFile) == Be32(1) + (Put16(f.path) + Put16(f.owner) + Put16(f.mode) + Put32(f.data))
  {
    assert [f][1..] == [] && PutMany([f], PutFile) == PutFile(f) + "";
    assert PutFile(f) + "" == PutFile(f);
    assert |[f]| % TWO_32 == 1;
  }

  lemma NoEntries()
    ensures PutCounted<EnvV>([], PutEnv) == Be32(0) && PutCounted<Pointer>([], PutPointer) == Be32(0)
            && Put32("") == Be32(0)
  {
    assert Be32(0) + "" == Be32(0);
  }

  lemma Reassociate(h: string, n: string, a: string, b: string, c: string, d: string, z: string)
    ensures h + (n + (a + b + c + d) + z + z + z) == h + n + a + b + c + d + z + z + z
  {
  }

  // ---- which fields fit ----

  /** writeU16's check, made on the narrowed length. */
  predicate Narrow(p: string) { |p| % TWO_32 <= 0xffff }

  /** Every name passes writeU16's check, so EncodeBundle reports no error. */
  predicate Encodable(b: BundleV) {
    && (forall f <- b.files :: Narrow(f.path) && Narrow(f.owner) && Narrow(f.mode))
    && (forall e <- b.env :: Narrow(e.name))
    && (forall p <- b.pointers :: Narrow(p.name) && Narrow(p.path))
  }

  predicate Short(p: string) { |p| <= 0xffff }

  predicate Capped(p: string) { |p| <= MAX_FIELD }

  predicate FileFits(f: FileV) { Short(f.path) && Short(f.owner) && Short(f.mode) && Capped(f.data) }

  predicate EnvFits(e: EnvV) { Short(e.name) && Capped(e.value) }

  predicate PointerFits(p: Pointer) { Short(p.name) && Short(p.path) }

  /** Every field fits its length prefix and the decoder's cap. */
  predicate Fits(b: BundleV) {
    && |b.files| < TWO_32 && (forall f <- b.files :: FileFits(f))
    && |b.env| < TWO_32 && (forall e <- b.env :: EnvFits(e))
    && |b.pointers| < TWO_32 && (forall p <- b.pointers :: PointerFits(p))
    && Capped(b.manifest)
  }

  // ---- reading back what was written ----

  /** Cutting a known prefix off a longer string. */
  lemma Cut(a: string, t: string)
    ensures (a + t)[..|a|] == a && (a + t)[|a|..] == t
  {
  }

  /** Regrouping a concatenation. */
  lemma Cat2(a: string, b: string, t: string)
    ensures (a + b) + t == a + (b + t)
  {
  }

  lemma Cat3(a: string, b: string, c: string, t: string)
    ensures a + b + c + t == a + (b + (c + t))
  {
  }

  lemma Cat4(a: string, b: string, c: string, d: string, t: string)
    ensures a + b + c + d + t == a + (b + (c + (d + t)))
  {
    Cat3(a, b, c, d + t);
    Cat2(a + b + c, d, t);
  }

  lemma Get16Put16(p: string, t: string)
    requires Short(p)
    ensures Get16(Put16(p) + t) == Ok((p, t))
  {
    Cat2(Be16(|p|), p, t);
    Cut(Be16(|p|), p + t);
    Be16U16(|p|);
    Cut(p, t);
  }

  lemma GetU32Be32(n: nat, t: string)
    requires n < TWO_32
    ensures GetU32(Be32(n) + t) == Ok((n, t))
  {
    Cut(Be32(n), t);
    Be32U32(n);
  }

  lemma NoWrap(n: nat)
    requires n < TWO_32
    ensures n % TWO_32 == n
  {
  }

  lemma GetPutPointer(p: Pointer, t: string)
    requires PointerFits(p)
    ensures GetPointer(PutPointer(p) + t) == Ok((p, t))
  {
    Cat2(Put16(p.name), Put16(p.path), t);
    Get16Put16(p.name, Put16(p.path) + t);
    Get16Put16(p.path, t);
  }

  /** Everything has a length its prefix can hold, the decoder's cap aside. */
  predicate Prefixed(b: BundleV) {
    && |b.files| < TWO_32 && (forall f <- b.files :: FilePrefixed(f))
    && |b.env| < TWO_32 && (forall e <- b.env :: EnvPrefixed(e))
    && |b.pointers| < TWO_32 && (forall p <- b.pointers :: PointerFits(p))
    && |b.manifest| < TWO_32
  }

  predicate FilePrefixed(f: FileV) { Short(f.path) && Short(f.owner) && Short(f.mode) && |f.data| < TWO_32 }

  predicate EnvPrefixed(e: EnvV) { Short(e.name) && |e.value| < TWO_32 }

  /** What is over the cap is turned down, what is not is read back. */
  function Read<T>(fits: bool, x: T, t: string): Result<(T, string), Error> {
    if fits then Ok((x, t)) else Err(TooLong)
  }

  lemma Get32Prefixed(p: string, t: string)
    requires |p| < TWO_32
    ensures Get32(Put32(p) + t) == Read(Capped(p), p, t)
  {
    NoWrap(|p|);
    Cat2(Be32(|p|), p, t);
    GetU32Be32(|p|, p + t);
    Cut(p, t);
  }

  lemma GetFilePrefixed(f: FileV, t: string)
    requires FilePrefixed(f)
    ensures GetFile(PutFile(f) + t) == Read(FileFits(f), f, t)
  {
    var t3 := Put32(f.data) + t;
    var t2 := Put16(f.mode) + t3;
    var t1 := Put16(f.owner) + t2;
    Cat4(Put16(f.path), Put16(f.owner), Put16(f.mode), Put32(f.data), t);
    Get16Put16(f.path, t1);
    Get16Put16(f.owner, t2);
    Get16Put16(f.mode, t3);
    Get32Prefixed(f.data, t);
  }

  lemma GetEnvPrefixed(e: EnvV, t: string)
    requires EnvPrefixed(e)
    ensures GetEnv(PutEnv(e) + t) == Read(EnvFits(e), e, t)
  {
    Cat2(Put16(e.name), Put32(e.value), t);
    Get16Put16(e.name, Put32(e.value) + t);
    Get32Prefixed(e.value, t);
  }

  ghost predicate Reads<T(!new)>(x: T, fits: T -> bool, put: T -> string, get: string -> Result<(T, string), Error>) {
    forall t: string :: get(put(x) + t) == Read(fits(x), x, t)
  }

  ghost predicate AllFit<T>(xs: seq<T>, fits: T -> bool) { forall x <- xs :: fits(x) }

  /** The first entry over the cap ends the loop with its error. */
  lemma {:induction false} GetManyPrefixed<T(!new)>(xs: seq<T>, fits: T -> bool, put: T -> string,
                                              get: string -> Result<(T, string), Error>, t: string)
    requires forall x <- xs :: Reads(x, fits, put, get)
    ensures GetMany(|xs|, get, PutMany(xs, put) + t) == Read(AllFit(xs, fits), xs, t)
  {
    if xs == [] {
      assert PutMany(xs, put) + t == t;
    } else {
      var u := PutMany(xs[1..], put) + t;
      Cat2(put(xs[0]), PutMany(xs[1..], put), t);
      assert Reads(xs[0], fits, put, get);
      GetManyPrefixed(xs[1..], fits, put, get, t);
      assert [xs[0]] + xs[1..] == xs;
      assert AllFit(xs, fits) <==> fits(xs[0]) && AllFit(xs[1..], fits);
    }
  }

  /** get reads back whatever put wrote for x, and no more. */
  ghost predicate Inverts<T(!new)>(x: T, put: T -> string, get: string -> Result<(T, string), Error>) {
    forall t: string :: get(put(x) + t) == Ok((x, t))
  }

  lemma GetPutMany<T(!new)>(xs: seq<T>, put: T -> string, get: string -> Result<(T, string), Error>, t: string)
    requires forall x <- xs :: Inverts(x, put, get)
    ensures GetMany(|xs|, get, PutMany(xs, put) + t) == Ok((xs, t))
  {
    var any := (x: T) => true;
    forall x | x in xs ensures Reads(x, any, put, get) { assert Inverts(x, put, get); }
    GetManyPrefixed(xs, any, put, get, t);
  }

  lemma GetCountedPrefixed<T(!new)>(xs: seq<T>, fits: T -> bool, put: T -> string,
                                    get: string -> Result<(T, string), Error>, t: string)
    requires |xs| < TWO_32 && forall x <- xs :: Reads(x, fits, put, get)
    ensures GetCounted(get, PutCounted(xs, put) + t) == Read(AllFit(xs, fits), xs, t)
  {
    NoWrap(|xs|);
    GetManyPrefixed(xs, fits, put, get, t);
    Cat2(Be32(|xs|), PutMany(xs, put), t);
    GetU32Be32(|xs|, PutMany(xs, put) + t);
  }

  lemma AllPrefixed(b: BundleV)
    requires Prefixed(b)
    ensures forall f <- b.files :: Reads(f, FileFits, PutFile, GetFile)
    ensures forall e <- b.env :: Reads(e, EnvFits, PutEnv, GetEnv)
    ensures forall p <- b.pointers :: Reads(p, PointerFits, PutPointer, GetPointer)
  {
    forall f, t: string | f in b.files ensures GetFile(PutFile(f) + t) == Read(FileFits(f), f, t) {
      GetFilePrefixed(f, t);
    }
    forall e, t: string | e in b.env ensures GetEnv(PutEnv(e) + t) == Read(EnvFits(e), e, t) { GetEnvPrefixed(e, t); }
    forall p, t: string | p in b.pointers ensures GetPointer(PutPointer(p) + t) == Read(PointerFits(p), p, t) {
      GetPutPointer(p, t);
    }
  }

  /** With lengths the prefixes hold, a frame reads back, or is turned down for its first field over the cap. */
  lemma ReadOrTooLong(b: BundleV, t: string)
    requires Prefixed(b)
    ensures GetResponse(PutResponse(b) + t) == Read(Fits(b), b, t)
  {
    AllPrefixed(b);
    var t3 := Put32(b.manifest) + t;
    var t2 := PutCounted(b.pointers, PutPointer) + t3;
    var t1 := PutCounted(b.env, PutEnv) + t2;
    Cat4(PutCounted(b.files, PutFile), PutCounted(b.env, PutEnv), PutCounted(b.pointers, PutPointer),
         Put32(b.manifest), t);
    Cat2([VERSION, MSG_BUNDLE], PutBundle(b), t);
    Cut([VERSION, MSG_BUNDLE], PutBundle(b) + t);
    GetCountedPrefixed(b.files, FileFits, PutFile, GetFile, t1);
    GetCountedPrefixed(b.env, EnvFits, PutEnv, GetEnv, t2);
    GetCountedPrefixed(b.pointers, PointerFits, PutPointer, GetPointer, t3);
    Get32Prefixed(b.manifest, t);
    FitsParts(b);
  }

  lemma FitsParts(b: BundleV)
    requires Prefixed(b)
    ensures Fits(b) <==> AllFit(b.files, FileFits) && AllFit(b.env, EnvFits) && AllFit(b.pointers, PointerFits)
                         && Capped(b.manifest)
  {
  }

  /** The frame of a bundle whose fields fit is self-delimiting: it reads back and leaves exactly what follows it. */
  lemma RoundTrip(b: BundleV, t: string)
    requires Fits(b)
    ensures GetResponse(PutResponse(b) + t) == Ok((b, t))
  {
    assert forall f <- b.files :: FileFits(f);
    assert forall e <- b.env :: EnvFits(e);
    ReadOrTooLong(b, t);
  }

  lemma OneFile(b: BundleV, f: FileV)
    requires b == BundleV([f], [], [], "")
    ensures Fits(b) <==> FileFits(f)
    ensures Prefixed(b) <==> FilePrefixed(f)
    ensures Encodable(b) <==> Narrow(f.path) && Narrow(f.owner) && Narrow(f.mode)
  {
    assert b.files[0] == f && f in b.files;
  }

  /** The encoder sends what the decoder turns down: one file a byte over the cap. */
  lemma SentButTooLong(f: FileV, t: string)
    requires Short(f.path) && Short(f.owner) && Short(f.mode) && |f.data| == MAX_FIELD + 1
    ensures var b := BundleV([f], [], [], "");
            Encodable(b) && !Fits(b) && GetResponse(PutResponse(b) + t) == Err(TooLong)
  {
    var b := BundleV([f], [], [], "");
    assert !FileFits(f) && FilePrefixed(f) && Narrow(f.path) && Narrow(f.owner) && Narrow(f.mode);
    OneFile(b, f);
    ReadOrTooLong(b, t);
  }

  // ---- an accepted frame is the frame of what it decodes to ----

  lemma Uncut(s: string, n: nat)
    requires n <= |s|
    ensures s == s[..n] + s[n..]
    ensures IsBytes(s) ==> IsBytes(s[n..])
  {
  }

  lemma Get16Exact(s: string)
    requires IsBytes(s) && Get16(s).Ok?
    ensures var (p, t) := Get16(s).value; Short(p) && s == Put16(p) + t && IsBytes(t)
  {
    var (p, t) := Get16(s).value;
    var n := U16(s[..2]);
    U16Be16(s[..2]);
    Uncut(s, 2);
    Uncut(s[2..], n);
    assert p == s[2..][..n] && t == s[2..][n..];
    Cat2(s[..2], p, t);
  }

  lemma GetU32Exact(s: string)
    requires IsBytes(s) && GetU32(s).Ok?
    ensures var (n, t) := GetU32(s).value; n < TWO_32 && s == Be32(n) + t && IsBytes(t)
  {
    U32Be32(s[..4]);
    Uncut(s, 4);
  }

  lemma Get32Exact(s: string)
    requires IsBytes(s) && Get32(s).Ok?
    ensures var (p, t) := Get32(s).value; Capped(p) && s == Put32(p) + t && IsBytes(t)
  {
    GetU32Exact(s);
    var (p, t) := Get32(s).value;
    var (n, u) := GetU32(s).value;
    Uncut(u, n);
    NoWrap(n);
    Cat2(Be32(n), p, t);
  }

  lemma GetFileExact(s: string)
    requires IsBytes(s) && GetFile(s).Ok?
    ensures var (f, t) := GetFile(s).value; FileFits(f) && s == PutFile(f) + t && IsBytes(t)
  {
    Get16Exact(s);
    var (path, s1) := Get16(s).value;
    Get16Exact(s1);
    var (owner, s2) := Get16(s1).value;
    Get16Exact(s2);
    var (mode, s3) := Get16(s2).value;
    Get32Exact(s3);
    var (data, s4) := Get32(s3).value;
    Cat4(Put16(path), Put16(owner), Put16(mode), Put32(data), s4);
  }

  lemma GetEnvExact(s: string)
    requires IsBytes(s) && GetEnv(s).Ok?
    ensures var (e, t) := GetEnv(s).value; EnvFits(e) && s == PutEnv(e) + t && IsBytes(t)
  {
    Get16Exact(s);
    var (name, s1) := Get16(s).value;
    Get32Exact(s1);
    var (value, s2) := Get32(s1).value;
    Cat2(Put16(name), Put32(value), s2);
  }

  lemma GetPointerExact(s: string)
    requires IsBytes(s) && GetPointer(s).Ok?
    ensures var (p, t) := GetPointer(s).value; PointerFits(p) && s == PutPointer(p) + t && IsBytes(t)
  {
    Get16Exact(s);
    var (name, s1) := Get16(s).value;
    Get16Exact(s1);
    var (path, s2) := Get16(s1).value;
    Cat2(Put16(name), Put16(path), s2);
  }

  /** Whatever get accepts is what put writes for it, and it fits. */
  ghost predicate Exact<T(!new)>(fits: T -> bool, put: T -> string, get: string -> Result<(T, string), Error>) {
    forall s: string {:trigger get(s)} :: IsBytes(s) && get(s).Ok? ==>
      var (x, t) := get(s).value; fits(x) && s == put(x) + t && IsBytes(t)
  }

  lemma {:induction false} GetManyExact<T(!new)>(n: nat, fits: T -> bool, put: T -> string,
                                           get: string -> Result<(T, string), Error>, s: string)
    requires Exact(fits, put, get) && IsBytes(s) && GetMany(n, get, s).Ok?
    ensures var (xs, t) := GetMany(n, get, s).value;
            |xs| == n && (forall x <- xs :: fits(x)) && s == PutMany(xs, put) + t && IsBytes(t)
    decreases n
  {
    if n == 0 {
      assert s == PutMany<T>([], put) + s;
    } else {
      var (x, t) := get(s).value;
      GetManyExact(n - 1, fits, put, get, t);
      var (xs, u) := GetMany(n - 1, get, t).value;
      assert ([x] + xs)[1..] == xs;
      Cat2(put(x), PutMany(xs, put), u);
    }
  }

  lemma GetCountedExact<T(!new)>(fits: T -> bool, put: T -> string, get: string -> Result<(T, string), Error>,
                                 s: string)
    requires Exact(fits, put, get) && IsBytes(s) && GetCounted(get, s).Ok?
    ensures var (xs, t) := GetCounted(get, s).value;
            |xs| < TWO_32 && (forall x <- xs :: fits(x)) && s == PutCounted(xs, put) + t && IsBytes(t)
  {
    GetU32Exact(s);
    var (n, u) := GetU32(s).value;
    GetManyExact(n, fits, put, get, u);
    var (xs, t) := GetMany(n, get, u).value;
    NoWrap(n);
    Cat2(Be32(n), PutMany(xs, put), t);
  }

  lemma AllExact()
    ensures Exact(FileFits, PutFile, GetFile)
    ensures Exact(EnvFits, PutEnv, GetEnv)
    ensures Exact(PointerFits, PutPointer, GetPointer)
  {
    forall s: string | IsBytes(s) && GetFile(s).Ok?
      ensures var (f, t) := GetFile(s).value; FileFits(f) && s == PutFile(f) + t && IsBytes(t)
    { GetFileExact(s); }
    forall s: string | IsBytes(s) && GetEnv(s).Ok?
      ensures var (e, t) := GetEnv(s).value; EnvFits(e) && s == PutEnv(e) + t && IsBytes(t)
    { GetEnvExact(s); }
    forall s: string | IsBytes(s) && GetPointer(s).Ok?
      ensures var (p, t) := GetPointer(s).value; PointerFits(p) && s == PutPointer(p) + t && IsBytes(t)
    { GetPointerExact(s); }
  }

  /** On any bytes at all: an accepted frame is the encoding of what it decoded to, whose fields all fit. */
  lemma AcceptedIsEncoding(s: string)
    requires IsBytes(s) && GetResponse(s).Ok?
    ensures var (b, t) := GetResponse(s).value; Fits(b) && s == PutResponse(b) + t
  {
    HeaderOfAccepted(s);
    BodyIsEncoding(s[2..]);
    var (b, t) := GetBundle(s[2..]).value;
    Cat2([VERSION, MSG_BUNDLE], PutBundle(b), t);
  }

  lemma HeaderOfAccepted(s: string)
    requires GetResponse(s).Ok?
    ensures |s| >= 2 && s == [VERSION, MSG_BUNDLE] + s[2..] && GetResponse(s) == GetBundle(s[2..])
  {
    assert s[..2] == [s[0], s[1]];
    Uncut(s, 2);
  }

  lemma BodyIsEncoding(body: string)
    requires IsBytes(body) && GetBundle(body).Ok?
    ensures var (b, t) := GetBundle(body).value; Fits(b) && body == PutBundle(b) + t
  {
    AllExact();
    GetCountedExact(FileFits, PutFile, GetFile, body);
    var (files, s1) := GetCounted(GetFile, body).value;
    GetCountedExact(EnvFits, PutEnv, GetEnv, s1);
    var (env, s2) := GetCounted(GetEnv, s1).value;
    GetCountedExact(PointerFits, PutPointer, GetPointer, s2);
    var (pointers, s3) := GetCounted(GetPointer, s2).value;
    Get32Exact(s3);
    var (manifest, t) := Get32(s3).value;
    Cat4(PutCounted(files, PutFile), PutCounted(env, PutEnv), PutCounted(pointers, PutPointer), Put32(manifest), t);
  }

  /**
    * The encoder enforces neither the cap nor lengths beyond uint32: reading back works exactly when every field
    * fits.
    */
  lemma ReadsBackIff(b: BundleV)
    requires IsBytes(PutResponse(b))
    ensures GetResponse(PutResponse(b)) == Ok((b, "")) <==> Fits(b)
  {
    if Fits(b) { RoundTrip(b, ""); assert PutResponse(b) + "" == PutResponse(b); }
    if GetResponse(PutResponse(b)) == Ok((b, "")) { AcceptedIsEncoding(PutResponse(b)); }
  }

  /** No two bundles that fit share a frame, whatever follows it. */
  lemma EncodingInjective(b: BundleV, c: BundleV, t: string, u: string)
    requires Fits(b) && Fits(c) && PutResponse(b) + t == PutResponse(c) + u
    ensures b == c && t == u
  {
    RoundTrip(b, t);
    RoundTrip(c, u);
  }

  /** A frame cut short anywhere is rejected. */
  lemma ProperPrefixRejected(b: BundleV, n: nat)
    requires Fits(b) && IsBytes(PutResponse(b)) && n < |PutResponse(b)|
    ensures GetResponse(PutResponse(b)[..n]).Err?
  {
    var f := PutResponse(b);
    assert f == f[..n] + f[n..] && |f[n..]| > 0;
    if GetResponse(f[..n]).Ok? { NothingMissing(b, f[..n], f[n..]); }
  }

  lemma NothingMissing(b: BundleV, s: string, u: string)
    requires Fits(b) && IsBytes(s) && PutResponse(b) == s + u && GetResponse(s).Ok?
    ensures u == ""
  {
    AcceptedIsEncoding(s);
    var (c, t) := GetResponse(s).value;
    Cat2(PutResponse(c), t, u);
    assert PutResponse(b) + "" == PutResponse(b);
    EncodingInjective(b, c, "", t + u);
  }

  // ---- how long an accepted frame must be ----

  lemma {:induction false} ManyLength<T>(xs: seq<T>, put: T -> string, k: nat)
    requires forall x <- xs :: |put(x)| >= k
    ensures |PutMany(xs, put)| >= k * |xs|
  {
    if xs != [] {
      ManyLength(xs[1..], put, k);
      assert k * |xs| == k + k * |xs[1..]|;
    }
  }

  /** A frame pays for every entry it announces, so the counted loops end within the input. */
  lemma AcceptedLength(s: string)
    requires IsBytes(s) && GetResponse(s).Ok?
    ensures var (b, t) := GetResponse(s).value;
            10 * |b.files| + 6 * |b.env| + 4 * |b.pointers| + 18 <= |s| - |t|
  {
    AcceptedIsEncoding(s);
    var (b, t) := GetResponse(s).value;
    ManyLength(b.files, PutFile, 10);
    ManyLength(b.env, PutEnv, 6);
    ManyLength(b.pointers, PutPointer, 4);
  }
}
