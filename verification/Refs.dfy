/** Secret references: KEY, source/KEY or source; and the failure classes of label validation. */
module Refs {
  import opened Prelude
  import opened Text

  datatype Class = UnknownSuffix | CrossPrefixConflict | WrongRefShape | MissingSource | UngrantedRef | EnvNoAck
    | EnvWrongMechanism | AllCrossService | RotateReserved | Malformed | BadConfig

  datatype RefKind = RefKey | RefSourceKey | RefSource

  datatype Ref = Ref(kind: RefKind, source: string, key: string)

  /** The zero Ref: a delivery with no from label. */
  const UNSET := Ref(RefKey, "", "")

  predicate Digit(c: char) { '0' <= c <= '9' }

  predicate KeyChar(c: char) { 'A' <= c <= 'Z' || c == '_' || Digit(c) }

  predicate SourceEdge(c: char) { 'a' <= c <= 'z' || Digit(c) }

  predicate IsKey(s: string) { s != "" && !Digit(s[0]) && forall c <- s :: KeyChar(c) }

  predicate IsSource(s: string) {
    s != "" && SourceEdge(s[0]) && SourceEdge(s[|s| - 1]) && forall c <- s :: SourceEdge(c) || c == '-'
  }

  function ParseRef(s: string): Result<Ref, Class> {
    if s == "" then Err(Malformed)
    else
      var i := Find(s, '/');
      if i < |s| then
        var source, key := s[..i], s[i + 1..];
        if '/' in key then Err(Malformed)
        else if !IsSource(source) || !IsKey(key) then Err(Malformed)
        else Ok(Ref(RefSourceKey, source, key))
      else if IsKey(s) then Ok(Ref(RefKey, "", s))
      else if IsSource(s) then Ok(Ref(RefSource, s, ""))
      else Err(Malformed)
  }

  function PrintRef(r: Ref): string {
    match r.kind
    case RefKey => r.key
    case RefSourceKey => r.source + "/" + r.key
    case RefSource => r.source
  }

  /** The references the grammar has words for. */
  predicate WellFormed(r: Ref) {
    match r.kind
    case RefKey => r.source == "" && IsKey(r.key)
    case RefSourceKey => IsSource(r.source) && IsKey(r.key)
    case RefSource => IsSource(r.source) && r.key == ""
  }

  /** No text is both a key and a source, and neither holds the separator. */
  lemma NamesDisjoint(s: string)
    ensures !(IsKey(s) && IsSource(s))
    ensures IsKey(s) || IsSource(s) ==> '/' !in s && s != ""
  {
    if IsKey(s) { assert s[0] in s; }
  }

  lemma ParsePrintRef(r: Ref)
    requires WellFormed(r)
    ensures ParseRef(PrintRef(r)) == Ok(r)
  {
    var s := PrintRef(r);
    NamesDisjoint(r.source);
    NamesDisjoint(r.key);
    match r.kind
    case RefSourceKey =>
      assert s[..|r.source|] == r.source && s[|r.source| + 1..] == r.key;
      FindIs(s, '/', |r.source|);
    case _ =>
      assert s[..|s|] == s;
      FindIs(s, '/', |s|);
  }

  /** What is accepted is well formed, prints back to the same text, and is never mistaken for an absent reference. */
  lemma PrintParseRef(s: string)
    requires ParseRef(s).Ok?
    ensures WellFormed(ParseRef(s).value) && PrintRef(ParseRef(s).value) == s && ParseRef(s).value != UNSET
  {
    var i := Find(s, '/');
    if i < |s| { assert s == s[..i] + "/" + s[i + 1..]; }
  }

  /** The accepted texts are exactly the printed forms. */
  lemma ParseRefIff(s: string)
    ensures ParseRef(s).Ok? <==> exists r :: WellFormed(r) && PrintRef(r) == s
    ensures ParseRef(s).Err? ==> ParseRef(s) == Err(Malformed)
  {
    if ParseRef(s).Ok? { PrintParseRef(s); }
    if r :| WellFormed(r) && PrintRef(r) == s { ParsePrintRef(r); }
  }

  /** The text names the reference: a key by itself, source/KEY, or a source by itself. */
  ghost predicate RefText(s: string, r: Ref) {
    match r.kind
    case RefKey => IsKey(s) && r.source == "" && r.key == s
    case RefSourceKey => IsSource(r.source) && IsKey(r.key) && s == r.source + "/" + r.key
    case RefSource => IsSource(s) && r.source == s && r.key == ""
  }

  /** A text is accepted as exactly the reference it names. */
  lemma RefTextIff(s: string, r: Ref)
    ensures ParseRef(s) == Ok(r) <==> RefText(s, r)
  {
    if ParseRef(s) == Ok(r) { PrintParseRef(s); }
    if RefText(s, r) { ParsePrintRef(r); }
  }

  /** A key is made of capitals, digits and underscores and does not start with a digit. */
  lemma KeyIs(s: string)
    ensures IsKey(s) <==>
              && s != "" && !('0' <= s[0] <= '9')
              && forall c <- s :: 'A' <= c <= 'Z' || '0' <= c <= '9' || c == '_'
  {
  }

  /** A source is made of small letters, digits and dashes, with no dash at either end. */
  lemma SourceNameIs(s: string)
    ensures IsSource(s) <==>
              && s != "" && s[0] != '-' && s[|s| - 1] != '-'
              && forall c <- s :: 'a' <= c <= 'z' || '0' <= c <= '9' || c == '-'
  {
    if s != "" { assert s[0] in s && s[|s| - 1] in s; }
  }
}
