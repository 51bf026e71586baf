/** The list rewrites behind save, delete, toggle, rollout and apply (pkg/store/memory.go). */
module FlagEdits {
  import opened Domain
  import opened Text
  import opened Seqs
  import opened Flags

  // ----- Toggle, rollout and apply: rewrite every flag that bears the name -----

  datatype Edit =
    | SetEnabled(env: string, enabled: Option<bool>)
    | SetRollout(env: string, pct: real)
    | SetConfig(env: string, config: EnvConfig)

  function EnvOrProduction(env: string): string {
    if env == "" then PRODUCTION else env
  }

  function Clamp(pct: real): real {
    if pct < 0.0 then 0.0 else if pct > 100.0 then 100.0 else pct
  }

  function ConfigAt(f: FeatureFlag, env: string): EnvConfig {
    if env in f.environments then f.environments[env] else EMPTY_CONFIG
  }

  function EditedConfig(cfg: EnvConfig, e: Edit): EnvConfig {
    match e
    case SetEnabled(_, enabled) => cfg.(enabled := if enabled.Some? then enabled.value else !cfg.enabled)
    case SetRollout(_, pct) =>
      cfg.(percentage := pct, strategy := if cfg.strategy.Boolean? && pct < 100.0 then Percentage else cfg.strategy)
    case SetConfig(_, config) => config
  }

  function Edited(f: FeatureFlag, e: Edit, now: int): FeatureFlag {
    f.(environments := f.environments[e.env := EditedConfig(ConfigAt(f, e.env), e)],
       version := f.version + 1,
       updatedAt := now)
  }

  function Rewrite(fs: seq<FeatureFlag>, p: string, name: string, e: Edit, now: int): seq<FeatureFlag> {
    seq(|fs|, i requires 0 <= i < |fs| => if Named(fs[i], p, name) then Edited(fs[i], e, now) else fs[i])
  }

  method RewriteFlags(fs: seq<FeatureFlag>, p: string, name: string, e: Edit, now: int)
    returns (list: seq<FeatureFlag>, updated: Option<FeatureFlag>)
    ensures list == Rewrite(fs, p, name, e, now)
    ensures updated == LastNamed(list, p, name)
    ensures updated == None <==> LastNamed(fs, p, name) == None
  {
    hide Rewrite;
    hide LastNamed;
    list, updated := [], None;
    RewriteNothing(fs, p, name, e, now);
    for i := 0 to |fs|
      invariant list == Rewrite(fs[..i], p, name, e, now)
      invariant updated == LastNamed(list, p, name)
      invariant updated == None <==> LastNamed(fs[..i], p, name) == None
    {
      RewriteSnoc(fs, p, name, e, now, i);
      if Named(fs[i], p, name) {
        updated := Some(Edited(fs[i], e, now));
        list := list + [updated.value];
      } else {
        list := list + [fs[i]];
      }
    }
    assert fs[..|fs|] == fs;
  }

  lemma {:induction false} RewriteNothing(fs: seq<FeatureFlag>, p: string, name: string, e: Edit, now: int)
    ensures Rewrite(fs[..0], p, name, e, now) == [] && LastNamed(fs[..0], p, name) == LastNamed([], p, name) == None
  {
  }

  // One flag further: what the loop appends, and what it makes of the last bearer.
  lemma {:induction false} RewriteSnoc(fs: seq<FeatureFlag>, p: string, name: string, e: Edit, now: int, i: nat)
    requires i < |fs|
    ensures var f := if Named(fs[i], p, name) then Edited(fs[i], e, now) else fs[i];
            var done := Rewrite(fs[..i], p, name, e, now);
            && Rewrite(fs[..i + 1], p, name, e, now) == done + [f]
            && LastNamed(done + [f], p, name) == (if Named(fs[i], p, name) then Some(f) else LastNamed(done, p, name))
            && LastNamed(fs[..i + 1], p, name) ==
                 (if Named(fs[i], p, name) then Some(fs[i]) else LastNamed(fs[..i], p, name))
  {
    var done := Rewrite(fs[..i], p, name, e, now);
    var f := if Named(fs[i], p, name) then Edited(fs[i], e, now) else fs[i];
    assert fs[..i + 1][..i] == fs[..i] && (done + [f])[..i] == done;
    assert Rewrite(fs[..i + 1], p, name, e, now) == done + [f];
  }

  // ----- Delete -----

  function NotNamed(p: string, name: string): FeatureFlag -> bool {
    (f: FeatureFlag) => !Named(f, p, name)
  }

  method RemoveFlags(fs: seq<FeatureFlag>, p: string, name: string)
    returns (list: seq<FeatureFlag>, removed: Option<FeatureFlag>)
    ensures list == Filter(NotNamed(p, name), fs)
    ensures removed == LastNamed(fs, p, name)
  {
    list, removed := [], None;
    for i := 0 to |fs|
      invariant list == Filter(NotNamed(p, name), fs[..i])
      invariant removed == LastNamed(fs[..i], p, name)
    {
      FilterSnoc(NotNamed(p, name), fs, i);
      assert fs[..i + 1][..i] == fs[..i];
      if Named(fs[i], p, name) {
        removed := Some(fs[i]);
      } else {
        list := list + [fs[i]];
      }
    }
    assert fs[..|fs|] == fs;
  }

  // ----- Save -----

  predicate SaveMatches(f: FeatureFlag, flag: FeatureFlag) {
    (f.id == flag.id || f.key == flag.key) && f.projectId == flag.projectId
  }

  function MatchIndex(fs: seq<FeatureFlag>, flag: FeatureFlag): (i: nat)
    ensures i <= |fs|
    ensures i < |fs| ==> SaveMatches(fs[i], flag)
    ensures forall j :: 0 <= j < i ==> !SaveMatches(fs[j], flag)
  {
    if fs == [] || SaveMatches(fs[0], flag) then 0
    else
      var i := MatchIndex(fs[1..], flag);
      assert forall j :: 0 < j < |fs| ==> fs[j] == fs[1..][j - 1];
      1 + i
  }

  function SavedId(fs: seq<FeatureFlag>, flag: FeatureFlag, newId: string): string {
    var i := MatchIndex(fs, flag);
    if i < |fs| then fs[i].id else if flag.id == "" then newId else flag.id
  }

  function Saved(fs: seq<FeatureFlag>, flag: FeatureFlag, newId: string, now: int): FeatureFlag {
    var i := MatchIndex(fs, flag);
    var f := flag.(id := SavedId(fs, flag, newId), updatedAt := now);
    if i < |fs| then f.(createdAt := fs[i].createdAt, version := fs[i].version + 1)
    else f.(createdAt := now, version := if flag.version == 0 then 1 else flag.version)
  }

  function SaveInto(fs: seq<FeatureFlag>, flag: FeatureFlag, newId: string, now: int): seq<FeatureFlag> {
    var i := MatchIndex(fs, flag);
    if i < |fs| then fs[i := Saved(fs, flag, newId, now)] else [Saved(fs, flag, newId, now)] + fs
  }

  // ----- What the rewrites keep -----

  predicate WellFormed(fs: seq<FeatureFlag>) {
    && ColonFree(fs)
    && forall i :: 0 <= i < |fs| ==> fs[i].projectId != "" && fs[i].version > 0
  }

  ghost predicate Table(fs: seq<FeatureFlag>) {
    WellFormed(fs) && UniqueNames(fs)
  }

  lemma {:induction false} NormalisedWellFormed(fs: seq<FeatureFlag>)
    requires WellFormed(fs)
    ensures Normalised(fs) == fs
  {
  }

  lemma {:induction false} RewriteKeepsTable(fs: seq<FeatureFlag>, p: string, name: string, e: Edit, now: int)
    requires Table(fs)
    ensures Table(Rewrite(fs, p, name, e, now))
  {
    var fs' := Rewrite(fs, p, name, e, now);
    forall i, j | 0 <= i < j < |fs'| ensures !Clash(fs'[i], fs'[j]) {
      assert !Clash(fs[i], fs[j]);
    }
  }

  lemma {:induction false} UniqueSnoc(fs: seq<FeatureFlag>, f: FeatureFlag)
    requires UniqueNames(fs) && forall i :: 0 <= i < |fs| ==> !Clash(fs[i], f)
    ensures UniqueNames(fs + [f])
  {
  }

  lemma {:induction false} FilterUnique(g: FeatureFlag -> bool, fs: seq<FeatureFlag>)
    requires UniqueNames(fs)
    ensures UniqueNames(Filter(g, fs))
  {
    if fs != [] {
      var init, f := fs[..|fs| - 1], fs[|fs| - 1];
      assert UniqueNames(init);
      FilterUnique(g, init);
      var kept := Filter(g, init);
      forall i | 0 <= i < |kept| ensures !Clash(kept[i], f) {
        FilterMember(g, init, kept[i]);
        var k :| 0 <= k < |init| && init[k] == kept[i];
        assert fs[k] == init[k] && !Clash(fs[k], f);
      }
      UniqueSnoc(kept, f);
    }
  }

  lemma {:induction false} DeleteKeepsTable(fs: seq<FeatureFlag>, p: string, name: string)
    requires Table(fs)
    ensures Table(Filter(NotNamed(p, name), fs))
  {
    hide Filter;
    FilterUnique(NotNamed(p, name), fs);
    var rest := Filter(NotNamed(p, name), fs);
    forall i | 0 <= i < |rest| ensures rest[i] in fs {
      FilterMember(NotNamed(p, name), fs, rest[i]);
    }
  }

  /** What a caller can check before saving: the names it writes are colon-free and no other flag's. */
  predicate SaveClean(fs: seq<FeatureFlag>, flag: FeatureFlag, newId: string) {
    var k, id := MatchIndex(fs, flag), SavedId(fs, flag, newId);
    && id != "" && Free(':', id) && Free(':', flag.key) && flag.projectId != ""
    && forall j :: 0 <= j < |fs| && j != k ==> !Clash(flag.(id := id), fs[j])
  }

  lemma {:induction false} SaveKeepsTable(fs: seq<FeatureFlag>, flag: FeatureFlag, newId: string, now: int)
    requires Table(fs) && SaveClean(fs, flag, newId)
    ensures Table(SaveInto(fs, flag, newId, now))
  {
    var fs', k, f := SaveInto(fs, flag, newId, now), MatchIndex(fs, flag), Saved(fs, flag, newId, now);
    forall i, j | 0 <= i < j < |fs'| ensures !Clash(fs'[i], fs'[j]) {
      if k < |fs| {
        assert i == k ==> !Clash(flag.(id := f.id), fs[j]);
        assert j == k ==> !Clash(flag.(id := f.id), fs[i]);
        assert !Clash(fs[i], fs[j]);
      } else {
        assert fs'[j] == fs[j - 1];
        assert i == 0 ==> !Clash(flag.(id := f.id), fs[j - 1]);
        assert i > 0 ==> fs'[i] == fs[i - 1] && !Clash(fs[i - 1], fs[j - 1]);
      }
    }
  }

  /** The exact condition: a save keeps names unique and colon-free, IDs and projects present, iff it is clean. */
  lemma {:induction false} SaveKeepsTableIff(fs: seq<FeatureFlag>, flag: FeatureFlag, newId: string, now: int)
    requires Table(fs)
    ensures Table(SaveInto(fs, flag, newId, now)) <==> SaveClean(fs, flag, newId)
  {
    var fs', k, f := SaveInto(fs, flag, newId, now), MatchIndex(fs, flag), Saved(fs, flag, newId, now);
    if SaveClean(fs, flag, newId) {
      SaveKeepsTable(fs, flag, newId, now);
    } else if Table(fs') {
      assert f in fs' by { assert fs'[if k < |fs| then k else 0] == f; }
      forall j | 0 <= j < |fs| && j != k ensures !Clash(flag.(id := f.id), fs[j]) {
        if k < |fs| {
          assert fs'[k] == f && fs'[j] == fs[j];
          assert if j < k then !Clash(fs'[j], fs'[k]) else !Clash(fs'[k], fs'[j]);
        } else {
          assert fs'[0] == f && fs'[j + 1] == fs[j] && !Clash(fs'[0], fs'[j + 1]);
        }
      }
    }
  }
}
