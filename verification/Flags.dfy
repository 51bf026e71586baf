/** The flag list, its derived index and the list rewrites behind every mutation (pkg/store/memory.go). */
module Flags {
  import opened Domain
  import opened Text

  // ----- newFlagSnapshot -----

  datatype Snapshot = Snapshot(list: seq<FeatureFlag>, index: map<string, FeatureFlag>)

  function Normal(f: FeatureFlag): FeatureFlag {
    f.(projectId := ProjectOrDefault(f.projectId), version := if f.version == 0 then 1 else f.version)
  }

  function Normalised(fs: seq<FeatureFlag>): seq<FeatureFlag> {
    seq(|fs|, i requires 0 <= i < |fs| => Normal(fs[i]))
  }

  function IndexKey(p: string, name: string): string {
    p + [':'] + name
  }

  function Indexed(m: map<string, FeatureFlag>, f: FeatureFlag): map<string, FeatureFlag> {
    var m1 := m[IndexKey(f.projectId, f.key) := f];
    if f.id == "" then m1 else m1[IndexKey(f.projectId, f.id) := f][f.id := f]
  }

  function BuildIndex(fs: seq<FeatureFlag>): map<string, FeatureFlag> {
    if fs == [] then map[] else Indexed(BuildIndex(fs[..|fs| - 1]), fs[|fs| - 1])
  }

  function SnapshotOf(fs: seq<FeatureFlag>): Snapshot {
    Snapshot(Normalised(fs), BuildIndex(Normalised(fs)))
  }

  method NewFlagSnapshot(fs: seq<FeatureFlag>) returns (list: seq<FeatureFlag>, index: map<string, FeatureFlag>)
    ensures Snapshot(list, index) == SnapshotOf(fs)
  {
    list, index := [], map[];
    for i := 0 to |fs|
      invariant list == Normalised(fs)[..i]
      invariant index == BuildIndex(list)
    {
      var f := Normal(fs[i]);
      list := list + [f];
      assert list[..i] == Normalised(fs)[..i];
      index := index[IndexKey(f.projectId, f.key) := f];
      if f.id != "" {
        index := index[IndexKey(f.projectId, f.id) := f][f.id := f];
      }
    }
    assert Normalised(fs)[..|fs|] == Normalised(fs);
  }

  // ----- Looking a flag up -----

  predicate Named(f: FeatureFlag, p: string, name: string) {
    f.projectId == p && (f.key == name || f.id == name)
  }

  function OfProject(p: string): FeatureFlag -> bool {
    (f: FeatureFlag) => f.projectId == p
  }

  function Lookup(index: map<string, FeatureFlag>, p: string, name: string): Option<FeatureFlag> {
    if IndexKey(p, name) in index then Some(index[IndexKey(p, name)]) else None
  }

  // The linear scan of the list, and its mirror image.
  function FirstNamed(fs: seq<FeatureFlag>, p: string, name: string): Option<FeatureFlag> {
    if fs == [] then None
    else if Named(fs[0], p, name) then Some(fs[0])
    else FirstNamed(fs[1..], p, name)
  }

  function LastNamed(fs: seq<FeatureFlag>, p: string, name: string): Option<FeatureFlag> {
    if fs == [] then None
    else if Named(fs[|fs| - 1], p, name) then Some(fs[|fs| - 1])
    else LastNamed(fs[..|fs| - 1], p, name)
  }

  function FlagAt(flags: Snapshot, p: string, name: string): Option<FeatureFlag> {
    LastNamed(flags.list, p, name)
  }

  predicate ColonFree(fs: seq<FeatureFlag>) {
    forall i :: 0 <= i < |fs| ==> fs[i].id != "" && Free(':', fs[i].id) && Free(':', fs[i].key)
  }

  predicate ColonFreeProjects(fs: seq<FeatureFlag>) {
    forall i :: 0 <= i < |fs| ==> Free(':', fs[i].projectId)
  }

  predicate Clash(f: FeatureFlag, g: FeatureFlag) {
    f.projectId == g.projectId && (f.key == g.key || f.key == g.id || f.id == g.key || f.id == g.id)
  }

  ghost predicate UniqueNames(fs: seq<FeatureFlag>) {
    forall i, j :: 0 <= i < j < |fs| ==> !Clash(fs[i], fs[j])
  }

  ghost predicate UniqueIds(fs: seq<FeatureFlag>) {
    forall i, j :: 0 <= i < j < |fs| ==> !(fs[i].projectId == fs[j].projectId && fs[i].id == fs[j].id)
  }

  lemma {:induction false} SameKey(p: string, name: string, p': string, name': string)
    requires Free(':', name')
    requires Free(':', name) || (Free(':', p) && Free(':', p'))
    ensures IndexKey(p, name) == IndexKey(p', name') <==> p == p' && name == name'
  {
    if IndexKey(p, name) == IndexKey(p', name') {
      if Free(':', name) {
        SplitAtLast(':', p, name, p', name');
      } else {
        SplitAtFirst(':', p, name, p', name');
      }
    }
  }

  lemma {:induction false} KeyHasColon(p: string, name: string)
    ensures !Free(':', IndexKey(p, name))
  {
    assert IndexKey(p, name)[|p|] == ':';
  }

  /** The index gives the last flag of the list that bears the name in the project. */
  lemma {:induction false} IndexIsLastMatch(fs: seq<FeatureFlag>, p: string, name: string)
    requires ColonFree(fs)
    requires Free(':', name) || (Free(':', p) && ColonFreeProjects(fs))
    ensures Lookup(BuildIndex(fs), p, name) == LastNamed(fs, p, name)
  {
    if fs != [] {
      var init, f := fs[..|fs| - 1], fs[|fs| - 1];
      IndexIsLastMatch(init, p, name);
      KeyHasColon(p, name);
      SameKey(p, name, f.projectId, f.key);
      SameKey(p, name, f.projectId, f.id);
    }
  }

  lemma {:induction false} LastNamedIs(fs: seq<FeatureFlag>, p: string, name: string) returns (k: int)
    ensures LastNamed(fs, p, name) == None ==> k == -1
    ensures LastNamed(fs, p, name) != None ==>
              0 <= k < |fs| && LastNamed(fs, p, name) == Some(fs[k]) && Named(fs[k], p, name)
    ensures forall j :: k < j < |fs| ==> !Named(fs[j], p, name)
  {
    if fs == [] {
      k := -1;
    } else if Named(fs[|fs| - 1], p, name) {
      k := |fs| - 1;
    } else {
      k := LastNamedIs(fs[..|fs| - 1], p, name);
    }
  }

  lemma {:induction false} FirstNamedIs(fs: seq<FeatureFlag>, p: string, name: string) returns (k: nat)
    ensures FirstNamed(fs, p, name) == None ==> k == |fs|
    ensures FirstNamed(fs, p, name) != None ==>
              k < |fs| && FirstNamed(fs, p, name) == Some(fs[k]) && Named(fs[k], p, name)
    ensures forall j :: 0 <= j < k && j < |fs| ==> !Named(fs[j], p, name)
  {
    if fs == [] {
      k := 0;
    } else if Named(fs[0], p, name) {
      k := 0;
    } else {
      var r := FirstNamedIs(fs[1..], p, name);
      k := r + 1;
      forall j | 0 <= j < k && j < |fs| ensures !Named(fs[j], p, name) {
        assert j > 0 ==> fs[j] == fs[1..][j - 1];
      }
    }
  }

  lemma {:induction false} ScanBothWays(fs: seq<FeatureFlag>, p: string, name: string)
    requires UniqueNames(fs)
    ensures FirstNamed(fs, p, name) == LastNamed(fs, p, name)
  {
    var k := LastNamedIs(fs, p, name);
    var m := FirstNamedIs(fs, p, name);
    if m < |fs| && 0 <= k {
      assert m < k ==> Clash(fs[m], fs[k]);
    }
  }

  /** With unique, colon-free names an indexed lookup is the linear scan. */
  lemma {:induction false} IndexRefinesScan(fs: seq<FeatureFlag>, p: string, name: string)
    requires ColonFree(fs) && UniqueNames(fs)
    requires Free(':', name) || (Free(':', p) && ColonFreeProjects(fs))
    ensures Lookup(BuildIndex(fs), p, name) == FirstNamed(fs, p, name)
  {
    IndexIsLastMatch(fs, p, name);
    ScanBothWays(fs, p, name);
  }

  // ----- What the index answers when names hold colons -----

  // The three texts that a flag is filed under.
  predicate Filed(f: FeatureFlag, text: string) {
    || text == IndexKey(f.projectId, f.key)
    || (f.id != "" && (text == IndexKey(f.projectId, f.id) || text == f.id))
  }

  predicate Identified(fs: seq<FeatureFlag>) {
    forall i :: 0 <= i < |fs| ==> fs[i].id != ""
  }

  /** An index entry is the last flag of the list that is filed under the text. */
  lemma {:induction false} LastFiled(fs: seq<FeatureFlag>, text: string) returns (k: int)
    ensures -1 <= k < |fs| && (k >= 0 <==> text in BuildIndex(fs))
    ensures k >= 0 ==> BuildIndex(fs)[text] == fs[k] && Filed(fs[k], text)
    ensures forall j :: k < j < |fs| ==> !Filed(fs[j], text)
  {
    if fs == [] {
      k := -1;
    } else if Filed(fs[|fs| - 1], text) {
      k := |fs| - 1;
    } else {
      k := LastFiled(fs[..|fs| - 1], text);
    }
  }

  /** With colon-free project IDs a flag answers to its own names and to an ID that spells out a composite key. */
  lemma {:induction false} AnswersIff(f: FeatureFlag, q: string, name: string)
    requires Free(':', f.projectId) && Free(':', q) && f.id != ""
    ensures Lookup(BuildIndex([f]), q, name) == Some(f) <==> Named(f, q, name) || f.id == IndexKey(q, name)
  {
    var k := LastFiled([f], IndexKey(q, name));
    FiledIff(f, q, name);
  }

  lemma {:induction false} FiledIff(f: FeatureFlag, q: string, name: string)
    requires Free(':', f.projectId) && Free(':', q) && f.id != ""
    ensures Filed(f, IndexKey(q, name)) <==> Named(f, q, name) || f.id == IndexKey(q, name)
  {
    forall other | IndexKey(q, name) == IndexKey(f.projectId, other) ensures q == f.projectId && name == other {
      SplitAtFirst(':', q, name, f.projectId, other);
    }
  }

  // No flag from position i on bears the name.
  predicate Unborne(fs: seq<FeatureFlag>, i: nat, p: string, name: string) {
    forall j :: i <= j < |fs| ==> !Named(fs[j], p, name)
  }

  /**
    The exact condition for one lookup: the index answers like the list if and only if every flag that is
    filed under the composite text bears the name in the project, or stands before a flag that does.
   */
  lemma {:induction false} LookupExactIff(fs: seq<FeatureFlag>, p: string, name: string)
    requires name != "" || Identified(fs)
    ensures Lookup(BuildIndex(fs), p, name) == LastNamed(fs, p, name)
       <==> forall i :: 0 <= i < |fs| && Filed(fs[i], IndexKey(p, name)) ==> !Unborne(fs, i, p, name)
  {
    var k := LastFiled(fs, IndexKey(p, name));
    var m := LastNamedIs(fs, p, name);
    assert m >= 0 ==> Filed(fs[m], IndexKey(p, name));
    assert m <= k;
    if m == k {
      forall i | 0 <= i < |fs| && Filed(fs[i], IndexKey(p, name)) ensures !Unborne(fs, i, p, name) {
        assert i <= k;
      }
    } else {
      assert Unborne(fs, k, p, name);
      assert !Named(fs[k], p, name);
    }
  }

  // A text without a colon is no composite key; any other is read back with its first part as the project.
  predicate Misfiled(fs: seq<FeatureFlag>, i: nat, text: string) {
    !Free(':', text) && First(':', text) < |text|
    && Unborne(fs, i, text[..First(':', text)], text[First(':', text) + 1..])
  }

  lemma {:induction false} ReadBack(p: string, name: string)
    requires Free(':', p)
    ensures var text := IndexKey(p, name);
            !Free(':', text) && First(':', text) == |p| < |text| && text[..|p|] == p && text[|p| + 1..] == name
  {
    KeyHasColon(p, name);
    FirstAfterFree(':', p, name);
  }

  /**
    The exact condition for all lookups in colon-free projects, whatever IDs, keys and project IDs hold: no
    text that a flag is filed under, cut at its first colon, names a flag that is not there from it on.
   */
  lemma {:induction false} IndexExactIff(fs: seq<FeatureFlag>)
    requires Identified(fs)
    ensures (forall p, name | Free(':', p) :: Lookup(BuildIndex(fs), p, name) == LastNamed(fs, p, name))
       <==> forall i, text :: 0 <= i < |fs| && Filed(fs[i], text) ==> !Misfiled(fs, i, text)
  {
    if forall i, text :: 0 <= i < |fs| && Filed(fs[i], text) ==> !Misfiled(fs, i, text) {
      forall p, name | Free(':', p) ensures Lookup(BuildIndex(fs), p, name) == LastNamed(fs, p, name) {
        ReadBack(p, name);
        LookupExactIff(fs, p, name);
      }
    } else {
      var i, text :| 0 <= i < |fs| && Filed(fs[i], text) && Misfiled(fs, i, text);
      var p, name := CutAtFirst(':', text);
      ReadBack(p, name);
      LookupExactIff(fs, p, name);
      assert Lookup(BuildIndex(fs), p, name) != LastNamed(fs, p, name);
    }
  }

  /** Colon-free projects: what remains to check is that an ID spells out no composite key of others. */
  lemma {:induction false} ColonInIdIff(fs: seq<FeatureFlag>)
    requires Identified(fs) && ColonFreeProjects(fs)
    ensures (forall p, name | Free(':', p) :: Lookup(BuildIndex(fs), p, name) == LastNamed(fs, p, name))
       <==> forall i :: 0 <= i < |fs| ==> !Misfiled(fs, i, fs[i].id)
  {
    IndexExactIff(fs);
    forall i | 0 <= i < |fs|
      ensures !Misfiled(fs, i, IndexKey(fs[i].projectId, fs[i].key))
      ensures !Misfiled(fs, i, IndexKey(fs[i].projectId, fs[i].id))
    {
      ReadBack(fs[i].projectId, fs[i].key);
      ReadBack(fs[i].projectId, fs[i].id);
      assert Named(fs[i], fs[i].projectId, fs[i].key) && Named(fs[i], fs[i].projectId, fs[i].id);
    }
    assert forall i :: 0 <= i < |fs| ==> Filed(fs[i], fs[i].id);
  }

  lemma {:induction false} ColonInProjectMisfiles(fs: seq<FeatureFlag>, i: nat)
    requires ColonFree(fs) && i < |fs| && !Free(':', fs[i].projectId)
    ensures Misfiled(fs, i, IndexKey(fs[i].projectId, fs[i].key))
  {
    var p, rest := CutAtFirst(':', fs[i].projectId);
    var name := rest + [':'] + fs[i].key;
    assert IndexKey(fs[i].projectId, fs[i].key) == IndexKey(p, name) && name[|rest|] == ':';
    ReadBack(p, name);
  }

  /** Colon-free keys and IDs: every lookup is right iff no project ID has a colon. */
  lemma {:induction false} ColonInProjectIff(fs: seq<FeatureFlag>)
    requires ColonFree(fs)
    ensures (forall p, name | Free(':', p) :: Lookup(BuildIndex(fs), p, name) == LastNamed(fs, p, name))
       <==> ColonFreeProjects(fs)
  {
    hide Misfiled;
    if ColonFreeProjects(fs) {
      forall p, name | Free(':', p) ensures Lookup(BuildIndex(fs), p, name) == LastNamed(fs, p, name) {
        IndexIsLastMatch(fs, p, name);
      }
    } else {
      var i :| 0 <= i < |fs| && !Free(':', fs[i].projectId);
      ColonInProjectMisfiles(fs, i);
      assert Filed(fs[i], IndexKey(fs[i].projectId, fs[i].key));
      IndexExactIff(fs);
    }
  }

  /** A flag whose ID is the composite key of another tenant's flag answers that tenant's lookups. */
  lemma {:induction false} ColonInIdReachesAnotherProject(f: FeatureFlag)
    requires f.id == "acme:checkout" && f.projectId == "evil"
    ensures ColonFreeProjects([f]) && !Named(f, "acme", "checkout")
    ensures Lookup(BuildIndex([f]), "acme", "checkout") == Some(f)
  {
    assert f.id == IndexKey("acme", "checkout");
    assert |f.projectId| == |"acme"| && f.projectId[0] != "acme"[0];
    AnswersIff(f, "acme", "checkout");
  }

  /** When IDs are unique, scanning from either end agrees on every name iff no name is shared. */
  lemma {:induction false} ScanAgreesIff(fs: seq<FeatureFlag>)
    requires UniqueIds(fs)
    ensures (forall p, name :: FirstNamed(fs, p, name) == LastNamed(fs, p, name)) <==> UniqueNames(fs)
  {
    if UniqueNames(fs) {
      forall p, name ensures FirstNamed(fs, p, name) == LastNamed(fs, p, name) {
        ScanBothWays(fs, p, name);
      }
    } else {
      var i, j :| 0 <= i < j < |fs| && Clash(fs[i], fs[j]);
      var p := fs[i].projectId;
      var name := if fs[i].key == fs[j].key || fs[i].key == fs[j].id then fs[i].key else fs[i].id;
      var m := FirstNamedIs(fs, p, name);
      var k := LastNamedIs(fs, p, name);
      assert Named(fs[i], p, name) && Named(fs[j], p, name);
      assert m <= i && j <= k;
      assert FirstNamed(fs, p, name) != LastNamed(fs, p, name);
    }
  }
}
