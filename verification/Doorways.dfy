/** The two label prefixes, merged into one grammar, and the independent readers of single labels. */
module Doorways {
  import opened Prelude
  import opened Text
  import opened Sorting
  import opened Refs

  const PRIMARY := "berm."
  const ALIAS := "tagwright.secret."

  type Labels = map<string, string>

  /** The suffix a label carries, if it is under either prefix. */
  function SuffixOf(k: string): Option<string> {
    if HasPrefix(k, PRIMARY) then Some(k[|PRIMARY|..])
    else if HasPrefix(k, ALIAS) then Some(k[|ALIAS|..])
    else None
  }

  /** The same suffix under the other prefix. */
  function Other(k: string): string
    requires SuffixOf(k).Some?
  {
    if HasPrefix(k, PRIMARY) then ALIAS + k[|PRIMARY|..] else PRIMARY + k[|ALIAS|..]
  }

  /** Some label gives the suffix this value. */
  ghost predicate Carries(labels: Labels, s: string, v: string) {
    exists k :: k in labels && SuffixOf(k) == Some(s) && labels[k] == v
  }

  /** Two labels give one suffix two values. */
  ghost predicate Conflict(labels: Labels) {
    exists s, v, w :: Carries(labels, s, v) && Carries(labels, s, w) && v != w
  }

  /** m holds each carried suffix with its value, and nothing else. */
  ghost predicate MergesTo(labels: Labels, m: map<string, string>) {
    && (forall s <- m :: Carries(labels, s, m[s]))
    && (forall k <- labels :: SuffixOf(k).Some? ==> SuffixOf(k).value in m && m[SuffixOf(k).value] == labels[k])
  }

  /** The merge, whatever order the labels are visited in. */
  ghost function Merged(labels: Labels): (r: Result<map<string, string>, Class>)
    ensures Conflict(labels) ==> r == Err(CrossPrefixConflict)
    ensures !Conflict(labels) ==> r.Ok? && MergesTo(labels, r.value)
  {
    if Conflict(labels) then Err(CrossPrefixConflict)
    else
      var keys := set k | k in labels && SuffixOf(k).Some?;
      var names := set k | k in keys :: SuffixOf(k).value;
      assert forall s <- names :: exists v :: Carries(labels, s, v) by {
        forall s | s in names ensures exists v :: Carries(labels, s, v) {
          var k :| k in keys && SuffixOf(k).value == s;
          assert Carries(labels, s, labels[k]);
        }
      }
      var m := map s | s in names :: CarriedValue(labels, s);
      assert forall k <- labels :: SuffixOf(k).Some? ==>
                                     k in keys && Carries(labels, SuffixOf(k).value, labels[k])
                                     && SuffixOf(k).value in m
                                     && Carries(labels, SuffixOf(k).value, m[SuffixOf(k).value]);
      Ok(m)
  }

  ghost function CarriedValue(labels: Labels, s: string): (v: string)
    requires exists v :: Carries(labels, s, v)
    ensures Carries(labels, s, v)
  {
    var v :| Carries(labels, s, v);
    v
  }

  /** There is at most one merge, and there is one exactly when no suffix has two values. */
  lemma MergesToUnique(labels: Labels, m: map<string, string>)
    requires MergesTo(labels, m)
    ensures !Conflict(labels) && Merged(labels) == Ok(m)
  {
    forall s, v | Carries(labels, s, v) ensures s in m && m[s] == v {
      var k :| k in labels && SuffixOf(k) == Some(s) && labels[k] == v;
    }
    assert !Conflict(labels);
    var r := Merged(labels).value;
    assert forall s <- r :: Carries(labels, s, r[s]) && s in m && m[s] == r[s];
    forall s | s in m ensures s in r {
      var k :| k in labels && SuffixOf(k) == Some(s) && labels[k] == m[s];
    }
    assert m == r;
  }

  /** mergeDoorways: ranging over the labels in any order. */
  method MergeDoorways(labels: Labels) returns (res: Result<map<string, string>, Class>)
    ensures res == Merged(labels)
  {
    var m := map[];
    var keys := Range(labels.Keys);
    for i := 0 to |keys|
      invariant forall s <- m :: Carries(labels, s, m[s])
      invariant forall j :: 0 <= j < i && SuffixOf(keys[j]).Some? ==>
                  SuffixOf(keys[j]).value in m && keys[j] in labels && m[SuffixOf(keys[j]).value] == labels[keys[j]]
    {
      var k := keys[i];
      assert k in Elems(keys);
      var suffix := SuffixOf(k);
      if suffix.Some? {
        assert Carries(labels, suffix.value, labels[k]);
        if suffix.value in m && m[suffix.value] != labels[k] { return Err(CrossPrefixConflict); }
        m := m[suffix.value := labels[k]];
      }
    }
    assert forall k <- labels :: k in Elems(keys);
    MergesToUnique(labels, m);
    res := Ok(m);
  }

  // ---- one grammar through either door ----

  ghost predicate SameCarried(a: Labels, b: Labels) { forall s, v :: Carries(a, s, v) <==> Carries(b, s, v) }

  /** The merge depends only on which suffix has which value, not on the prefixes they came under. */
  lemma MergedSame(a: Labels, b: Labels)
    requires SameCarried(a, b)
    ensures Merged(a) == Merged(b)
  {
    if !Conflict(a) {
      var m := Merged(a).value;
      forall k | k in b && SuffixOf(k).Some? ensures SuffixOf(k).value in m && m[SuffixOf(k).value] == b[k] {
        assert Carries(b, SuffixOf(k).value, b[k]);
        var j :| j in a && SuffixOf(j) == SuffixOf(k) && a[j] == b[k];
      }
      assert MergesTo(b, m);
      MergesToUnique(b, m);
    }
  }

  lemma OtherIsOther(k: string)
    requires SuffixOf(k).Some?
    ensures SuffixOf(Other(k)) == SuffixOf(k) && Other(k) != k && Other(Other(k)) == k
  {
    var s := SuffixOf(k).value;
    assert (ALIAS + s)[|ALIAS|..] == s && (PRIMARY + s)[|PRIMARY|..] == s;
    assert (ALIAS + s)[0] == 't' && (PRIMARY + s)[0] == 'b';
    assert (ALIAS + s)[..|ALIAS|] == ALIAS && (PRIMARY + s)[..|PRIMARY|] == PRIMARY;
    if HasPrefix(k, PRIMARY) {
      assert k == PRIMARY + s;
      assert (ALIAS + s)[..|PRIMARY|][0] == 't';
    } else {
      assert k == ALIAS + s;
    }
  }

  /** A set of labels that can be moved: where the other door's label exists too, it says the same. */
  ghost predicate Movable(labels: Labels, keys: set<string>) {
    forall k <- keys :: k in labels && SuffixOf(k).Some? && (Other(k) in labels ==> labels[Other(k)] == labels[k])
  }

  /** The labels with those keys renamed to the other prefix. */
  ghost function MoveLabels(labels: Labels, keys: set<string>): Labels
    requires Movable(labels, keys)
  {
    var targets := set k | k in keys :: Other(k);
    (map k | k in labels && k !in keys :: labels[k])
    + (map k | k in targets && MovesFrom(k) in keys :: labels[MovesFrom(k)])
  }

  function MovesFrom(k: string): string { if SuffixOf(k).Some? then Other(k) else k }

  /** Moving any set of labels to the other prefix changes nothing. */
  lemma MovedSame(labels: Labels, keys: set<string>)
    requires Movable(labels, keys)
    ensures Merged(MoveLabels(labels, keys)) == Merged(labels)
  {
    var moved := MoveLabels(labels, keys);
    forall s, v | Carries(labels, s, v) ensures Carries(moved, s, v) {
      var k :| k in labels && SuffixOf(k) == Some(s) && labels[k] == v;
      OtherIsOther(k);
      if k in keys {
        assert moved[Other(k)] == v;
      } else if Other(k) in keys {
        OtherIsOther(Other(k));
        assert moved[k] == v;
      } else {
        assert moved[k] == v;
      }
    }
    forall s, v | Carries(moved, s, v) ensures Carries(labels, s, v) {
      var k :| k in moved && SuffixOf(k) == Some(s) && moved[k] == v;
      OtherIsOther(k);
      if MovesFrom(k) in keys { assert labels[Other(k)] == v; }
    }
    MergedSame(moved, labels);
  }

  // ---- readers that look at one label by themselves ----

  function Get(m: map<string, string>, k: string): string { if k in m then m[k] else "" }

  /** bermName. */
  function BermName(labels: Labels): Result<string, Class> {
    var primary, alias := Get(labels, PRIMARY + "name"), Get(labels, ALIAS + "name");
    if primary != "" && alias != "" && primary != alias then Err(CrossPrefixConflict)
    else if primary != "" then Ok(primary)
    else Ok(alias)
  }

  /** ServiceName: the label, else the compose service, else the container's name without its slash. */
  function ServiceName(labels: Labels, service: string, name: string): Result<string, Class> {
    var n :- BermName(labels);
    Ok(if n != "" then n else if service != "" then service else if HasPrefix(name, "/") then name[1..] else name)
  }

  /** volumeName. */
  function VolumeName(labels: Labels, service: string): string {
    var primary, alias := Get(labels, PRIMARY + "volume"), Get(labels, ALIAS + "volume");
    if primary != "" then primary else if alias != "" then alias else "berm-" + service
  }

  lemma DoorKeys(s: string)
    ensures SuffixOf(PRIMARY + s) == Some(s) && SuffixOf(ALIAS + s) == Some(s)
  {
    assert (PRIMARY + s)[..|PRIMARY|] == PRIMARY && (PRIMARY + s)[|PRIMARY|..] == s;
    assert (ALIAS + s)[..|ALIAS|] == ALIAS && (ALIAS + s)[|ALIAS|..] == s;
    assert (ALIAS + s)[..|PRIMARY|][0] == 't';
  }

  lemma DoorKeyIff(k: string, s: string)
    ensures SuffixOf(k) == Some(s) <==> k == PRIMARY + s || k == ALIAS + s
  {
    DoorKeys(s);
    if HasPrefix(k, PRIMARY) {
      assert k == PRIMARY + k[|PRIMARY|..];
    } else if HasPrefix(k, ALIAS) {
      assert k == ALIAS + k[|ALIAS|..];
    }
  }

  /** Where the labels merge, reading either door for one suffix agrees with the merged value. */
  lemma ReadersAgree(labels: Labels, s: string)
    requires !Conflict(labels)
    ensures var v := Get(Merged(labels).value, s);
            Get(labels, PRIMARY + s) in {"", v} && Get(labels, ALIAS + s) in {"", v}
            && (v != "" ==> Get(labels, PRIMARY + s) == v || Get(labels, ALIAS + s) == v)
  {
    DoorKeys(s);
    var m := Merged(labels).value;
    if s in m {
      var k :| k in labels && SuffixOf(k) == Some(s) && labels[k] == m[s];
      DoorKeyIff(k, s);
    }
  }

  /** For labels that merge, the service identity and the volume are those of the merged labels. */
  lemma NameAndVolumeAgree(labels: Labels, service: string)
    requires !Conflict(labels)
    ensures BermName(labels) == Ok(Get(Merged(labels).value, "name"))
    ensures VolumeName(labels, service)
            == (var v := Get(Merged(labels).value, "volume"); if v != "" then v else "berm-" + service)
  {
    ReadersAgree(labels, "name");
    ReadersAgree(labels, "volume");
  }

  /** The identity: the name label alone when it is set, whatever the compose service and container are called. */
  lemma IdentityIs(labels: Labels, service: string, name: string)
    requires !Conflict(labels)
    ensures ServiceName(labels, service, name).Ok?
    ensures var id, given := ServiceName(labels, service, name).value, Get(Merged(labels).value, "name");
            && (given != "" ==> id == given)
            && (given == "" && service != "" ==> id == service)
            && (given == "" && service == "" ==> id == if HasPrefix(name, "/") then name[1..] else name)
  {
    NameAndVolumeAgree(labels, service);
  }
}
