/** The flags survive a backup: every lookup and every evaluation is what it was (pkg/store/backup.go). */
module BackupFlags {
  import opened Domain
  import opened Text
  import opened Seqs
  import opened AuditHash
  import opened AuditChain
  import opened Flags
  import opened FlagEdits
  import opened Store
  import opened StoreTheorems
  import opened Governance
  import opened Evaluator
  import opened Backup

  // A restored flag carries new times and is otherwise unchanged.
  function Touched(f: FeatureFlag, now: int): FeatureFlag {
    f.(createdAt := now, updatedAt := now)
  }

  // Each restored flag is put in front, so the order turns round.
  function TurnedRound(fs: seq<FeatureFlag>, inputs: seq<SaveInput>): seq<FeatureFlag>
    requires |inputs| == |fs|
  {
    seq(|fs|, i requires 0 <= i < |fs| => Touched(fs[|fs| - 1 - i], inputs[|fs| - 1 - i].st.now))
  }

  predicate Addressed(fs: seq<FeatureFlag>) {
    forall i :: 0 <= i < |fs| ==> TrimSpace(fs[i].projectId) != ""
  }

  lemma {:induction false} TurnedTable(fs: seq<FeatureFlag>, inputs: seq<SaveInput>)
    requires Table(fs) && |inputs| == |fs|
    ensures Table(TurnedRound(fs, inputs))
  {
    var r, n := TurnedRound(fs, inputs), |fs|;
    forall i | 0 <= i < n
      ensures r[i].id != "" && Free(':', r[i].id) && Free(':', r[i].key) && r[i].projectId != "" && r[i].version > 0
    {
      assert r[i] == Touched(fs[n - 1 - i], inputs[n - 1 - i].st.now);
    }
    forall i, j | 0 <= i < j < n ensures !Clash(r[i], r[j]) {
      assert r[i] == Touched(fs[n - 1 - i], inputs[n - 1 - i].st.now);
      assert r[j] == Touched(fs[n - 1 - j], inputs[n - 1 - j].st.now);
      assert !Clash(fs[n - 1 - j], fs[n - 1 - i]);
    }
  }

  lemma {:induction false} SaveInFront(fs: seq<FeatureFlag>, inputs: seq<SaveInput>)
    requires Table(fs) && fs != [] && |inputs| == |fs|
    ensures var n := |fs| - 1;
            SaveInto(TurnedRound(fs[..n], inputs[..n]), fs[n], inputs[n].newId, inputs[n].st.now) ==
              TurnedRound(fs, inputs)
  {
    var n := |fs| - 1;
    var init, f := fs[..n], fs[n];
    var acc := TurnedRound(init, inputs[..n]);
    forall j | 0 <= j < |acc| ensures !SaveMatches(acc[j], f) {
      assert acc[j] == Touched(fs[n - 1 - j], inputs[n - 1 - j].st.now);
      assert !Clash(fs[n - 1 - j], f);
    }
    assert MatchIndex(acc, f) == |acc|;
    assert [Touched(f, inputs[n].st.now)] + acc == TurnedRound(fs, inputs);
  }

  /** Restoring a table of flags into an empty store puts back every one of them, and writes no audit entry. */
  lemma {:induction false} RestoredList(h: Hasher, fs: seq<FeatureFlag>, inputs: seq<SaveInput>)
    requires Table(fs) && Addressed(fs) && |inputs| == |fs|
    ensures var s := RestoredFlags(h, EMPTY_STORE, fs, inputs);
            s.flags.list == TurnedRound(fs, inputs) && FlagsOk(s.flags) && s.ledger == EMPTY
  {
    hide TrimSpace;
    if fs != [] {
      var n := |fs| - 1;
      RestoredList(h, fs[..n], inputs[..n]);
      SaveInFront(fs, inputs);
      TurnedTable(fs, inputs);
      SnapshotOfTable(TurnedRound(fs, inputs));
    }
  }

  lemma {:induction false} SnapshotMember(fs: seq<FeatureFlag>, projects: seq<string>, f: FeatureFlag)
    requires NoDuplicates(projects)
    ensures f in SnapshotFlags(fs, projects) <==> f in fs && f.projectId in projects
  {
    if projects != [] {
      var init, q := projects[..|projects| - 1], projects[|projects| - 1];
      assert projects == init + [q];
      SnapshotMember(fs, init, f);
      FilterMember(OfProject(q), fs, f);
    }
  }

  lemma {:induction false} SnapshotTable(fs: seq<FeatureFlag>, projects: seq<string>)
    requires Table(fs) && NoDuplicates(projects)
    ensures Table(SnapshotFlags(fs, projects))
    ensures forall f :: f in SnapshotFlags(fs, projects) ==> f in fs && f.projectId in projects
  {
    var all := SnapshotFlags(fs, projects);
    forall f | f in all ensures f in fs && f.projectId in projects {
      SnapshotMember(fs, projects, f);
    }
    assert WellFormed(all);
    SnapshotUnique(fs, projects);
  }

  lemma {:induction false} SnapshotUnique(fs: seq<FeatureFlag>, projects: seq<string>)
    requires UniqueNames(fs) && NoDuplicates(projects)
    ensures UniqueNames(SnapshotFlags(fs, projects))
  {
    hide Filter;
    if projects != [] {
      var init, q := projects[..|projects| - 1], projects[|projects| - 1];
      assert projects == init + [q] && q !in init;
      SnapshotUnique(fs, init);
      FilterUnique(OfProject(q), fs);
      var acc, own := SnapshotFlags(fs, init), Filter(OfProject(q), fs);
      forall f | f in acc ensures f.projectId != q {
        SnapshotMember(fs, init, f);
      }
      forall f | f in own ensures f.projectId == q {
        FilterMember(OfProject(q), fs, f);
      }
      CatUnique(acc, own, q);
    }
  }

  lemma {:induction false} CatUnique(a: seq<FeatureFlag>, b: seq<FeatureFlag>, q: string)
    requires UniqueNames(a) && UniqueNames(b)
    requires forall f :: f in a ==> f.projectId != q
    requires forall f :: f in b ==> f.projectId == q
    ensures UniqueNames(a + b)
  {
    forall i, j | 0 <= i < j < |a + b| ensures !Clash((a + b)[i], (a + b)[j]) {
      if j < |a| {
        assert !Clash(a[i], a[j]);
      } else if |a| <= i {
        assert !Clash(b[i - |a|], b[j - |a|]);
      } else {
        assert a[i] in a && b[j - |a|] in b;
      }
    }
  }

  lemma {:induction false} SnapshotFind(fs: seq<FeatureFlag>, projects: seq<string>, p: string, name: string)
    requires Table(fs) && NoDuplicates(projects) && p in projects
    ensures LastNamed(SnapshotFlags(fs, projects), p, name) == LastNamed(fs, p, name)
  {
    var all := SnapshotFlags(fs, projects);
    SnapshotTable(fs, projects);
    var k := LastNamedIs(fs, p, name);
    var m := LastNamedIs(all, p, name);
    if 0 <= k {
      SnapshotMember(fs, projects, fs[k]);
      var i :| 0 <= i < |all| && all[i] == fs[k];
      OnlyNamed(all, p, name, i);
    } else {
      forall i | 0 <= i < |all| ensures !Named(all[i], p, name) {
        assert all[i] in fs;
      }
    }
  }

  // Restored from the first: the same but for its times, which are one clock reading.
  predicate Refound(before: Option<FeatureFlag>, after: Option<FeatureFlag>) {
    match before
    case None => after == None
    case Some(f) =>
      after.Some? && after.value == f.(createdAt := after.value.createdAt, updatedAt := after.value.createdAt)
  }

  lemma {:induction false} TurnedFind(fs: seq<FeatureFlag>, p: string, name: string, inputs: seq<SaveInput>)
    requires Table(fs) && |inputs| == |fs|
    ensures Refound(LastNamed(fs, p, name), LastNamed(TurnedRound(fs, inputs), p, name))
  {
    var r, n := TurnedRound(fs, inputs), |fs|;
    TurnedTable(fs, inputs);
    var k := LastNamedIs(fs, p, name);
    if 0 <= k {
      assert r[n - 1 - k] == Touched(fs[k], inputs[k].st.now);
      OnlyNamed(r, p, name, n - 1 - k);
    } else {
      forall i | 0 <= i < n ensures !Named(r[i], p, name) {
        assert r[i] == Touched(fs[n - 1 - i], inputs[n - 1 - i].st.now) && !Named(fs[n - 1 - i], p, name);
      }
      var m := LastNamedIs(r, p, name);
    }
  }

  /**
    For every exported project and every name, the restored store finds the flag it found before, with
    only its times changed, or still finds none; and the evaluator answers every context as before.
   */
  lemma {:induction false} FlagsRoundTrip(
    h: Hasher, g: Engine, fs: seq<FeatureFlag>, projects: seq<string>, p: string, name: string,
    inputs: seq<SaveInput>, ctx: Context)
    requires Table(fs) && Addressed(fs) && NoDuplicates(projects) && p in projects
    requires |inputs| == |SnapshotFlags(fs, projects)|
    ensures var s := RestoredFlags(h, EMPTY_STORE, SnapshotFlags(fs, projects), inputs);
            var before, after := LastNamed(fs, p, name), LastNamed(s.flags.list, p, name);
            && FlagsOk(s.flags) && Refound(before, after)
            && (before.Some? ==> Evaluate(g, after.value, ctx) == Evaluate(g, before.value, ctx))
  {
    hide RestoredFlags;
    hide LastNamed;
    hide TrimSpace;
    hide Evaluate;
    hide Table;
    hide FlagsOk;
    var all := SnapshotFlags(fs, projects);
    SnapshotTable(fs, projects);
    forall i | 0 <= i < |all| ensures TrimSpace(all[i].projectId) != "" {
      assert all[i] in fs;
    }
    RestoredList(h, all, inputs);
    SnapshotFind(fs, projects, p, name);
    TurnedFind(all, p, name, inputs);
    if before: FeatureFlag :| LastNamed(fs, p, name) == Some(before) {
      var after := LastNamed(TurnedRound(all, inputs), p, name).value;
      TouchedEvaluates(g, before, after.createdAt, ctx);
    }
  }

  lemma {:induction false} TouchedEvaluates(g: Engine, f: FeatureFlag, now: int, ctx: Context)
    ensures Evaluate(g, Touched(f, now), ctx) == Evaluate(g, f, ctx)
  {
  }
}
