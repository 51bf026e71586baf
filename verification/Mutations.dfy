/** What the flag operations mean to whoever reads or evaluates the flag next. */
module Mutations {
  import opened Domain
  import opened Text
  import opened Seqs
  import opened AuditHash
  import opened AuditChain
  import opened Flags
  import opened FlagEdits
  import opened Store
  import opened StoreTheorems
  import opened Governance
  import opened Evaluator
  import opened CanaryTheorems

  // The flag found under a name is not the one that the save replaced.
  predicate Elsewhere(fs: seq<FeatureFlag>, f: FeatureFlag, q: string, name: string) {
    && !Named(f, q, name)
    && (LastNamed(fs, q, name).Some? ==> LastNamed(fs, q, name).value.id != f.id || q != f.projectId)
  }

  /** After a save, both names find the saved flag, at the next version if it existed, and no other flag moved. */
  lemma {:induction false} SaveThenFind(
    h: Hasher, s: StoreState, flag: FeatureFlag, actor: string, newId: string, st: Stamp,
    q: string, name: string)
    requires FlagsOk(s.flags) && SaveClean(s.flags.list, flag, newId) && TrimSpace(flag.projectId) != ""
    ensures var fs, fs' := s.flags.list, SaveFlag(h, s, flag, actor, newId, st).0.flags.list;
            var f := Saved(fs, flag, newId, st.now);
            && f.key == flag.key && f.environments == flag.environments && f.projectId == flag.projectId
            && LastNamed(fs', f.projectId, f.key) == LastNamed(fs', f.projectId, f.id) == Some(f)
            && (LastNamed(fs, f.projectId, f.id).Some? ==>
                 f.version == LastNamed(fs, f.projectId, f.id).value.version + 1
                 && f.createdAt == LastNamed(fs, f.projectId, f.id).value.createdAt)
            && (Elsewhere(fs, f, q, name) ==> LastNamed(fs', q, name) == LastNamed(fs, q, name))
  {
    SaveWrites(h, s, flag, actor, newId, st);
    hide SaveFlag;
    var fs, f := s.flags.list, Saved(s.flags.list, flag, newId, st.now);
    SaveFinds(fs, flag, newId, st.now);
    SavedOverOwnId(fs, flag, newId, st.now);
    hide LastNamed;
    if Elsewhere(fs, f, q, name) {
      OthersUnmoved(fs, flag, newId, st.now, q, name);
    }
  }

  lemma {:induction false} SaveWrites(
    h: Hasher, s: StoreState, flag: FeatureFlag, actor: string, newId: string, st: Stamp)
    requires FlagsOk(s.flags) && SaveClean(s.flags.list, flag, newId) && TrimSpace(flag.projectId) != ""
    ensures SaveFlag(h, s, flag, actor, newId, st).0.flags.list == SaveInto(s.flags.list, flag, newId, st.now)
  {
    hide Append;
    hide TrimSpace;
    SaveKeepsTable(s.flags.list, flag, newId, st.now);
    SnapshotOfTable(SaveInto(s.flags.list, flag, newId, st.now));
  }

  lemma {:induction false} SaveFinds(fs: seq<FeatureFlag>, flag: FeatureFlag, newId: string, now: int)
    requires Table(fs) && SaveClean(fs, flag, newId)
    ensures var fs', f := SaveInto(fs, flag, newId, now), Saved(fs, flag, newId, now);
            LastNamed(fs', f.projectId, f.key) == LastNamed(fs', f.projectId, f.id) == Some(f)
  {
    var fs', f, k := SaveInto(fs, flag, newId, now), Saved(fs, flag, newId, now), MatchIndex(fs, flag);
    SaveKeepsTable(fs, flag, newId, now);
    OnlyNamed(fs', f.projectId, f.key, if k < |fs| then k else 0);
    OnlyNamed(fs', f.projectId, f.id, if k < |fs| then k else 0);
  }

  lemma {:induction false} SavedOverOwnId(fs: seq<FeatureFlag>, flag: FeatureFlag, newId: string, now: int)
    requires Table(fs) && SaveClean(fs, flag, newId)
    ensures var f := Saved(fs, flag, newId, now);
            LastNamed(fs, f.projectId, f.id).Some? ==>
              var g := LastNamed(fs, f.projectId, f.id).value; f.version == g.version + 1 && f.createdAt == g.createdAt
  {
    var f, k := Saved(fs, flag, newId, now), MatchIndex(fs, flag);
    var m := LastNamedIs(fs, f.projectId, f.id);
    forall j | 0 <= j < |fs| && j != k ensures !Named(fs[j], f.projectId, f.id) {
      assert !Clash(flag.(id := f.id), fs[j]);
    }
  }

  lemma {:induction false} OthersUnmoved(
    fs: seq<FeatureFlag>, flag: FeatureFlag, newId: string, now: int, q: string, name: string)
    requires Table(fs) && SaveClean(fs, flag, newId)
    requires Elsewhere(fs, Saved(fs, flag, newId, now), q, name)
    ensures LastNamed(SaveInto(fs, flag, newId, now), q, name) == LastNamed(fs, q, name)
  {
    var f, k, fs' := Saved(fs, flag, newId, now), MatchIndex(fs, flag), SaveInto(fs, flag, newId, now);
    SaveKeepsTable(fs, flag, newId, now);
    var m := LastNamedIs(fs, q, name);
    var m' := LastNamedIs(fs', q, name);
    if 0 <= m {
      OnlyNamed(fs', q, name, if k < |fs| then m else m + 1);
    } else {
      forall i | 0 <= i < |fs'| ensures !Named(fs'[i], q, name) {
        assert fs'[i] == f || fs'[i] == fs[if k < |fs| then i else i - 1];
      }
    }
  }

  /** After a delete the name finds nothing, and every flag that does not bear it is still found. */
  lemma {:induction false} DeleteThenFind(
    h: Hasher, s: StoreState, p: string, name: string, actor: string, st: Stamp, q: string, other: string)
    requires FlagsOk(s.flags) && DeleteFlag(h, s, p, name, actor, st).1.Ok?
    ensures var s' := DeleteFlag(h, s, p, name, actor, st).0;
            && FlagAt(s'.flags, ProjectOrDefault(p), name) == None
            && (FlagAt(s.flags, q, other).Some? &&
                  !Named(FlagAt(s.flags, q, other).value, ProjectOrDefault(p), name) ==>
                 FlagAt(s'.flags, q, other) == FlagAt(s.flags, q, other))
  {
    hide Append;
    var fs, p' := s.flags.list, ProjectOrDefault(p);
    var fs' := Filter(NotNamed(p', name), fs);
    DeleteKeepsTable(fs, p', name);
    SnapshotOfTable(fs');
    var k := LastNamedIs(fs', p', name);
    forall i | 0 <= i < |fs'| ensures !Named(fs'[i], p', name) {
      FilterMember(NotNamed(p', name), fs, fs'[i]);
    }
    if FlagAt(s.flags, q, other).Some? && !Named(FlagAt(s.flags, q, other).value, p', name) {
      var m := LastNamedIs(fs, q, other);
      DeleteIsLater(fs, q, other, p', name, m);
    }
  }

  // The flag and its configuration after a successful toggle.
  lemma {:induction false} ToggleSeen(
    h: Hasher, s: StoreState, p: string, name: string, env: string, enabled: Option<bool>, actor: string,
    st: Stamp)
    requires FlagsOk(s.flags) && FlagAt(s.flags, ProjectOrDefault(p), name).Some?
    ensures var (s', o) := ToggleFlag(h, s, p, name, env, enabled, actor, st); var e := EnvOrProduction(env);
            var f := FlagAt(s.flags, ProjectOrDefault(p), name).value;
            && o.Ok? && FlagsOk(s'.flags)
            && FlagAt(s'.flags, ProjectOrDefault(p), name).Some?
            && var f' := FlagAt(s'.flags, ProjectOrDefault(p), name).value;
            && SameNames(f, f')
            && f'.environments ==
                 f.environments[e := ConfigAt(f, e).(
                   enabled := if enabled == None then !ConfigAt(f, e).enabled else enabled.value)]
  {
    hide EditFlag;
    var p', e := ProjectOrDefault(p), SetEnabled(EnvOrProduction(env), enabled);
    EditEffect(h, s, p', name, e, ActorOr(actor, "admin@flagura.dev"), st.loggedAt, st);
    var fs := s.flags.list;
    var k := LastNamedIs(fs, p', name);
    var fs' := Rewrite(fs, p', name, e, st.now);
    RewriteKeepsTable(fs, p', name, e, st.now);
    OnlyNamed(fs', p', name, k);
  }

  /** The kill switch: after switching an environment off, the evaluator enables nobody there. */
  lemma {:induction false} KillSwitchDisablesEveryone(
    h: Hasher, g: Engine, s: StoreState, p: string, name: string, env: string, actor: string,
    st: Stamp, ctx: Context)
    requires FlagsOk(s.flags) && FlagAt(s.flags, ProjectOrDefault(p), name).Some? && Env(ctx) == EnvOrProduction(env)
    ensures var s' := ToggleFlag(h, s, p, name, env, Some(false), actor, st).0;
            && FlagAt(s'.flags, ProjectOrDefault(p), name).Some?
            && var r := Evaluate(g, FlagAt(s'.flags, ProjectOrDefault(p), name).value, ctx);
            !r.enabled && r.value == Bool(false) && r.reason == KillSwitchDisabled
  {
    hide ToggleFlag;
    ToggleSeen(h, s, p, name, env, Some(false), actor, st);
  }

  /** Toggling twice without a given value brings back every configuration the flag had. */
  lemma {:induction false} ToggleTwice(
    h: Hasher, s: StoreState, p: string, name: string, env: string, actor: string, st: Stamp, st2: Stamp)
    requires FlagsOk(s.flags) && FlagAt(s.flags, ProjectOrDefault(p), name).Some?
    ensures var s1 := ToggleFlag(h, s, p, name, env, None, actor, st).0;
            var s2 := ToggleFlag(h, s1, p, name, env, None, actor, st2).0;
            && FlagAt(s2.flags, ProjectOrDefault(p), name).Some?
            && var (f, f2) := (FlagAt(s.flags, ProjectOrDefault(p), name).value,
                               FlagAt(s2.flags, ProjectOrDefault(p), name).value);
            && ConfigAt(f2, EnvOrProduction(env)) == ConfigAt(f, EnvOrProduction(env))
            && (EnvOrProduction(env) in f.environments ==> f2.environments == f.environments)
  {
    hide ToggleFlag;
    ToggleSeen(h, s, p, name, env, None, actor, st);
    ToggleSeen(h, ToggleFlag(h, s, p, name, env, None, actor, st).0, p, name, env, None, actor, st2);
  }
}
