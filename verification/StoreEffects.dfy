/** What each store operation leaves behind, written out: the flag, the request, the log entry, and nothing else. */
module StoreEffects {
  import opened Domain
  import opened Text
  import opened Seqs
  import opened AuditHash
  import opened AuditChain
  import opened Flags
  import opened FlagEdits
  import opened Store
  import opened StoreTheorems
  import opened Governance

  // ----- The log -----

  /** The entry is in front of the log with its hashes filled in, unless the project already has its ID. */
  ghost predicate Records(l: Ledger, l': Ledger, e: AuditEntry) {
    if exists known :: known in l.logs && known.id == e.id && known.projectId == e.projectId then l' == l
    else
      && l'.logs != [] && l'.logs[1..] == l.logs && l'.anchors == l.anchors
      && l'.logs[0].(prevHash := e.prevHash, entryHash := e.entryHash) == e
  }

  /** An append records the entry under its project, or the default one, at its time, or at the clock's. */
  lemma {:induction false} AppendRecords(h: Hasher, l: Ledger, e: AuditEntry, now: int)
    ensures var (l', e') := Append(h, l, e, now);
            var dated := e.(projectId := if e.projectId == "" then "proj_default" else e.projectId,
                            timestamp := if e.timestamp == ZERO_TIME then now else e.timestamp);
            && Records(l, l', dated)
            && (l' == l ==> e' in l.logs && e'.id == e.id && e'.projectId == dated.projectId)
            && (l' != l ==> l'.logs != [] && e' == l'.logs[0])
            && (l' != l && e.prevHash != "" && e.entryHash != "" ==> e' == dated)
  {
    var p := Stamped(e, now).projectId;
    FindEntryIff(l.logs, e.id, p);
    FoundIsThere(l.logs, e.id, p);
  }

  lemma {:induction false} FoundIsThere(logs: seq<AuditEntry>, id: string, p: string)
    ensures var found := FindEntry(logs, id, p);
            found.Some? ==> found.value in logs && found.value.id == id && found.value.projectId == p
  {
    if logs != [] {
      FoundIsThere(logs[1..], id, p);
    }
  }

  function MutationEntry(
    p: string, at: int, now: int, st: Stamp, actor: string, action: string, flagKey: string, env: string): AuditEntry
  {
    AuditEntry(st.logId, if p == "" then "proj_default" else p, if at == ZERO_TIME then now else at,
               actor, action, flagKey, env, st.details, "", "")
  }

  // ----- Save -----

  predicate SameFlag(f: FeatureFlag, flag: FeatureFlag) {
    f.projectId == flag.projectId && (f.id == flag.id || f.key == flag.key)
  }

  // The first flag of the project that has the saved flag's ID or key, or the end of the list.
  predicate FirstSame(fs: seq<FeatureFlag>, flag: FeatureFlag, i: nat) {
    i <= |fs| && (i < |fs| ==> SameFlag(fs[i], flag)) && forall j :: 0 <= j < i ==> !SameFlag(fs[j], flag)
  }

  /** A save is refused exactly for a project ID of nothing but white space. */
  lemma {:induction false} SaveOkIff(
    h: Hasher, s: StoreState, flag: FeatureFlag, actor: string, newId: string, st: Stamp)
    ensures SaveFlag(h, s, flag, actor, newId, st).1.Ok? <==> exists c :: c in flag.projectId && !IsSpace(c)
    ensures SaveFlag(h, s, flag, actor, newId, st).1.Err? ==>
              SaveFlag(h, s, flag, actor, newId, st) == (s, Err(ProjectRequired))
  {
    TrimmedAway(flag.projectId);
  }

  /** What a save makes of any list, its names unique or not. */
  lemma {:induction false} SaveIntoIs(fs: seq<FeatureFlag>, flag: FeatureFlag, newId: string, now: int, i: nat)
    requires FirstSame(fs, flag, i)
    ensures i < |fs| ==>
              SaveInto(fs, flag, newId, now) ==
                fs[i := flag.(id := fs[i].id, createdAt := fs[i].createdAt, version := fs[i].version + 1,
                              updatedAt := now)]
    ensures i == |fs| ==>
              SaveInto(fs, flag, newId, now) ==
                [flag.(id := if flag.id == "" then newId else flag.id, createdAt := now,
                       version := if flag.version == 0 then 1 else flag.version, updatedAt := now)] + fs
  {
    assert forall f :: SaveMatches(f, flag) <==> SameFlag(f, flag);
    assert MatchIndex(fs, flag) == i;
  }

  /**
    A save replaces the first flag of its project with the same ID or key, which keeps its ID and creation
    time and goes one version on, or puts a new flag in front; it logs so, unless a restore saves.
   */
  lemma {:induction false} SaveEffect(
    h: Hasher, s: StoreState, flag: FeatureFlag, actor: string, newId: string, st: Stamp, i: nat)
    requires FlagsOk(s.flags) && SaveClean(s.flags.list, flag, newId) && FirstSame(s.flags.list, flag, i)
    requires SaveFlag(h, s, flag, actor, newId, st).1.Ok?
    ensures var (fs, s') := (s.flags.list, SaveFlag(h, s, flag, actor, newId, st).0);
            && s' == s.(flags := s'.flags, ledger := s'.ledger) && FlagsOk(s'.flags)
            && (i < |fs| ==>
                  s'.flags.list == fs[i := flag.(id := fs[i].id, createdAt := fs[i].createdAt,
                                                version := fs[i].version + 1, updatedAt := st.now)])
            && (i == |fs| ==>
                  s'.flags.list == [flag.(id := if flag.id == "" then newId else flag.id, createdAt := st.now,
                                          version := if flag.version == 0 then 1 else flag.version,
                                          updatedAt := st.now)] + fs)
            && (actor == "snapshot_restore" ==> s'.ledger == s.ledger)
            && (actor != "snapshot_restore" ==>
                  Records(s.ledger, s'.ledger,
                          MutationEntry(flag.projectId, st.now, st.now, st,
                                        if actor == "" then "developer@flagura.dev" else actor,
                                        if i < |fs| then "FLAG_UPDATED" else "FLAG_CREATED", flag.key, "all")))
  {
    hide Append;
    hide Records;
    var fs := s.flags.list;
    SavedFlags(h, s, flag, actor, newId, st);
    SaveIntoIs(fs, flag, newId, st.now, i);
    assert forall f :: SaveMatches(f, flag) <==> SameFlag(f, flag);
    assert MatchIndex(fs, flag) == i;
    if actor != "snapshot_restore" {
      AppendRecords(h, s.ledger, SaveEntry(s, flag, actor, st), st.now);
    }
  }

  // ----- Delete -----

  /** A delete of a name that no flag bears changes nothing; any other removes its bearer and logs its key. */
  lemma {:induction false} DeleteEffect(h: Hasher, s: StoreState, p: string, name: string, actor: string, st: Stamp)
    requires FlagsOk(s.flags)
    ensures var (s', o) := DeleteFlag(h, s, p, name, actor, st);
            var q := if p == "" then "proj_default" else p;
            var found := FlagAt(s.flags, q, name);
            && (found == None ==> s' == s && o == Err(NotFound))
            && (found.Some? ==>
                  && o == Ok && s' == s.(flags := s'.flags, ledger := s'.ledger) && FlagsOk(s'.flags)
                  && (forall f :: f in s'.flags.list <==> f in s.flags.list && !Named(f, q, name))
                  && Records(s.ledger, s'.ledger,
                             MutationEntry(q, st.loggedAt, st.now, st,
                                           if actor == "" then "admin@flagura.dev" else actor,
                                           "FLAG_DELETED", found.value.key, "all")))
  {
    hide Append;
    hide Records;
    var q := ProjectOrDefault(p);
    if FlagAt(s.flags, q, name).Some? {
      DeletedFlags(h, s, p, name, actor, st);
      forall f ensures f in Filter(NotNamed(q, name), s.flags.list) <==> f in s.flags.list && !Named(f, q, name) {
        FilterMember(NotNamed(q, name), s.flags.list, f);
      }
      var e := LogEntry(q, ActorOr(actor, "admin@flagura.dev"), "FLAG_DELETED", FlagAt(s.flags, q, name).value.key,
                        "all", st.loggedAt, st);
      AppendRecords(h, s.ledger, e, st.now);
    }
  }

  // ----- Toggle, rollout and apply -----

  // The configuration an edit starts from: the environment's, or Go's zero value.
  function Before(f: FeatureFlag, env: string): EnvConfig {
    if env in f.environments then f.environments[env] else EnvConfig(false, Unknown(""), 0.0, [], [], "", "", false)
  }

  /** What an edit makes of any list, its names unique or not: every bearer is edited, every other flag stays. */
  lemma {:induction false} RewriteIs(fs: seq<FeatureFlag>, p: string, name: string, e: Edit, now: int)
    ensures var fs' := Rewrite(fs, p, name, e, now);
            && |fs'| == |fs|
            && forall i :: 0 <= i < |fs| ==>
                 var f := fs[i];
                 fs'[i] == if f.projectId == p && (f.key == name || f.id == name)
                           then f.(environments := f.environments[e.env := EditedConfig(Before(f, e.env), e)],
                                   version := f.version + 1, updatedAt := now)
                           else f
  {
  }

  /** One flag, one environment of it, its version and its time have changed; nothing else has. */
  ghost predicate Edits(s: StoreState, s': StoreState, p: string, name: string, env: string, cfg: EnvConfig, now: int) {
    && s' == s.(flags := s'.flags, ledger := s'.ledger, requests := s'.requests) && FlagsOk(s'.flags)
    && exists k :: 0 <= k < |s.flags.list| && Named(s.flags.list[k], p, name)
         && var f := s.flags.list[k];
            s'.flags.list == s.flags.list[k := f.(environments := f.environments[env := cfg],
                                                  version := f.version + 1, updatedAt := now)]
  }

  lemma {:induction false} EditEdits(
    h: Hasher, s: StoreState, p: string, name: string, e: Edit, actor: string, at: int, st: Stamp)
    requires FlagsOk(s.flags)
    ensures var (s', o) := EditFlag(h, s, p, name, e, actor, at, st);
            var found := FlagAt(s.flags, p, name);
            && (found == None ==> s' == s && o == Err(NotFound))
            && (found.Some? ==>
                  && o == Ok && s'.requests == s.requests
                  && Edits(s, s', p, name, e.env, EditedConfig(Before(found.value, e.env), e), st.now)
                  && Records(s.ledger, s'.ledger,
                             MutationEntry(p, at, st.now, st, actor, ActionOf(e), found.value.key, e.env)))
  {
    hide Append;
    hide Records;
    hide Rewrite;
    hide Table;
    hide BuildIndex;
    var fs := s.flags.list;
    var fs' := Rewrite(fs, p, name, e, st.now);
    RewriteOne(fs, p, name, e, st.now);
    SnapshotOfTable(fs');
    if FlagAt(s.flags, p, name).Some? {
      var f := FlagAt(s.flags, p, name).value;
      AppendRecords(h, s.ledger, LogEntry(p, actor, ActionOf(e), f.key, e.env, at, st), st.now);
    }
  }

  // In a table one flag at most bears the name.
  lemma {:induction false} RewriteOne(fs: seq<FeatureFlag>, p: string, name: string, e: Edit, now: int)
    requires Table(fs)
    ensures var fs' := Rewrite(fs, p, name, e, now);
            && Table(fs')
            && match LastNamed(fs, p, name)
               case None => LastNamed(fs', p, name) == None
               case Some(f) =>
                 var f' := f.(environments := f.environments[e.env := EditedConfig(Before(f, e.env), e)],
                              version := f.version + 1, updatedAt := now);
                 && LastNamed(fs', p, name) == Some(f')
                 && exists k :: 0 <= k < |fs| && Named(fs[k], p, name) && fs[k] == f && fs' == fs[k := f']
  {
    var fs' := Rewrite(fs, p, name, e, now);
    var k := LastNamedIs(fs, p, name);
    var k' := LastNamedIs(fs', p, name);
    RewriteKeepsTable(fs, p, name, e, now);
    if k >= 0 {
      OnlyNamed(fs, p, name, k);
      OnlyNamed(fs', p, name, k);
      assert fs' == fs[k := Edited(fs[k], e, now)];
    } else {
      assert forall i :: 0 <= i < |fs| ==> (Named(fs'[i], p, name) <==> Named(fs[i], p, name));
    }
  }

  /** The kill switch sets or, without a value, inverts one environment's switch and leaves all else of it. */
  lemma {:induction false} ToggleEffect(
    h: Hasher, s: StoreState, p: string, name: string, env: string, enabled: Option<bool>, actor: string, st: Stamp)
    requires FlagsOk(s.flags)
    ensures var (s', o) := ToggleFlag(h, s, p, name, env, enabled, actor, st);
            var q, e := if p == "" then "proj_default" else p, if env == "" then "production" else env;
            var found := FlagAt(s.flags, q, name);
            && (found == None ==> s' == s && o == Err(NotFound))
            && (found.Some? ==>
                  var cfg := Before(found.value, e);
                  && o == Ok && s'.requests == s.requests
                  && Edits(s, s', q, name, e,
                           cfg.(enabled := match enabled case Some(on) => on case None => !cfg.enabled), st.now)
                  && Records(s.ledger, s'.ledger,
                             MutationEntry(q, st.loggedAt, st.now, st, if actor ==
                                 "" then "admin@flagura.dev" else actor,
                                           "KILL_SWITCH_TOGGLED", found.value.key, e)))
  {
    hide EditFlag;
    hide Edits;
    hide Records;
    EditEdits(h, s, ProjectOrDefault(p), name, SetEnabled(EnvOrProduction(env), enabled),
              ActorOr(actor, "admin@flagura.dev"), st.loggedAt, st);
  }

  /** A rollout sets the percentage, kept between 0 and 100; a boolean flag below 100 becomes a percentage one. */
  lemma {:induction false} RolloutEffect(
    h: Hasher, s: StoreState, p: string, name: string, env: string, pct: real, actor: string, st: Stamp)
    requires FlagsOk(s.flags)
    ensures var (s', o) := UpdateRollout(h, s, p, name, env, pct, actor, st);
            var q, e := if p == "" then "proj_default" else p, if env == "" then "production" else env;
            var share := if pct < 0.0 then 0.0 else if pct > 100.0 then 100.0 else pct;
            var found := FlagAt(s.flags, q, name);
            && (found == None ==> s' == s && o == Err(NotFound))
            && (found.Some? ==>
                  var cfg := Before(found.value, e);
                  && o == Ok && s'.requests == s.requests
                  && Edits(s, s', q, name, e,
                           cfg.(percentage := share,
                                strategy := if cfg.strategy == Boolean &&
                                    share < 100.0 then Percentage else cfg.strategy),
                           st.now)
                  && Records(s.ledger, s'.ledger,
                             MutationEntry(q, st.loggedAt, st.now, st,
                                           if actor == "" then "engineer@flagura.dev" else actor,
                                           "ROLLOUT_UPDATED", found.value.key, e)))
  {
    hide EditFlag;
    hide Edits;
    hide Records;
    EditEdits(h, s, ProjectOrDefault(p), name, SetRollout(EnvOrProduction(env), Clamp(pct)),
              ActorOr(actor, "engineer@flagura.dev"), st.loggedAt, st);
  }

  /** A successful apply installs the proposal, logs it in the applier's name and marks that one request. */
  lemma {:induction false} ApplyEffect(h: Hasher, s: StoreState, id: string, actor: string, st: Stamp)
    requires FlagsOk(s.flags) && ApplyRequest(h, s, id, actor, st).1.Ok?
    ensures id in s.requests
    ensures var (cr, s') := (s.requests[id], ApplyRequest(h, s, id, actor, st).0);
            var q := if cr.projectId == "" then "proj_default" else cr.projectId;
            && Edits(s, s', q, cr.flagKey, cr.environment, cr.proposed, st.now)
            && s'.requests == s.requests[id := cr.(status := Applied, appliedAt := Some(st.now))]
            && FlagAt(s.flags, q, cr.flagKey).Some?
            && Records(s.ledger, s'.ledger,
                       MutationEntry(q, st.now, st.now, st, actor, "APPLY_CHANGE_REQUEST",
                                     FlagAt(s.flags, q, cr.flagKey).value.key, cr.environment))
  {
    hide EditFlag;
    hide Records;
    var cr := s.requests[id];
    EditEdits(h, s, ProjectOrDefault(cr.projectId), cr.flagKey, SetConfig(cr.environment, cr.proposed), actor,
              st.now, st);
  }

  /** Each refusal of an apply, in the order in which they are checked. */
  lemma {:induction false} ApplyRefusals(h: Hasher, s: StoreState, id: string, actor: string, st: Stamp)
    requires FlagsOk(s.flags)
    ensures var o := ApplyRequest(h, s, id, actor, st).1;
            && (id !in s.requests ==> o == Err(NotFound))
            && (id in s.requests ==>
                  var cr := s.requests[id];
                  var found := FlagAt(s.flags, if cr.projectId == "" then "proj_default" else cr.projectId, cr.flagKey);
                  && (cr.status != Approved ==> o == Err(NotApproved))
                  && (cr.status == Approved && found == None ==> o == Err(NotFound))
                  && (cr.status == Approved && found.Some? && cr.baseVersion > 0 &&
                        found.value.version != cr.baseVersion ==>
                        o == Err(Conflict)))
  {
    hide EditFlag;
    if id in s.requests {
      var cr := s.requests[id];
      var q := ProjectOrDefault(cr.projectId);
      EditEdits(h, s, q, cr.flagKey, SetConfig(cr.environment, cr.proposed), actor, st.now, st);
      var k := LastNamedIs(s.flags.list, q, cr.flagKey);
    }
  }

  // ----- Change requests -----

  /** A new request is stored as pending, under its own ID or a generated one, and as it was handed in. */
  lemma {:induction false} CreateEffect(s: StoreState, cr: ChangeRequest, newId: string, now: int)
    ensures var (s', o) := CreateRequest(s, cr, newId, now);
            var id := if cr.id == "" then newId else cr.id;
            && o == Ok && s' == s.(requests := s'.requests)
            && id in s'.requests && s'.requests[id] == cr.(id := id, status := Pending, createdAt := now)
            && (forall other :: other != id ==>
                  && (other in s'.requests <==> other in s.requests)
                  && (other in s.requests ==> s'.requests[other] == s.requests[other]))
  {
  }

  /**
    A review succeeds if and only if the request is there, pending, and reviewed by somebody other than its
    author. It then is approved or rejected as the reviewer said, in that name, with those comments, at
    that time; the proposal and every other request stay. Each refusal has its own error and changes nothing.
   */
  lemma {:induction false} ReviewSucceedsIff(
    s: StoreState, id: string, reviewer: string, approved: bool, comments: string, now: int)
    ensures var (s', o) := ReviewRequest(s, id, reviewer, approved, comments, now);
            && (o.Ok? <==> id in s.requests && s.requests[id].status == Pending && reviewer != s.requests[id].authorId)
            && (id !in s.requests ==> o == Err(NotFound))
            && (id in s.requests && s.requests[id].status != Pending ==> o == Err(NotPending))
            && (id in s.requests && s.requests[id].status == Pending && reviewer == s.requests[id].authorId ==>
                  o == Err(SelfApproval))
            && (o.Err? ==> s' == s)
            && (o.Ok? ==>
                  && s' == s.(requests := s'.requests) && s'.requests.Keys == s.requests.Keys
                  && s'.requests[id].status == (if approved then Approved else Rejected)
                  && s'.requests[id].reviewerId == reviewer && s'.requests[id].comments == comments
                  && s'.requests[id].reviewedAt == Some(now)
                  && SameProposal(s.requests[id], s'.requests[id])
                  && s'.requests[id].id == s.requests[id].id && s'.requests[id].createdAt == s.requests[id].createdAt
                  && s'.requests[id].appliedAt == s.requests[id].appliedAt
                  && (forall other :: other in s.requests && other != id ==> s'.requests[other] == s.requests[other]))
  {
  }

  /** So four eyes are enough: created, approved by somebody else, applied at the base version, a proposal is served. */
  lemma {:induction false} WorkflowCompletes(
    h: Hasher, s: StoreState, cr: ChangeRequest, newId: string, at: int, reviewer: string, comments: string, seen: int,
    actor: string, st: Stamp)
    requires FlagsOk(s.flags) && reviewer != cr.authorId
    requires var q := if cr.projectId == "" then "proj_default" else cr.projectId;
             FlagAt(s.flags, q, cr.flagKey).Some? && cr.baseVersion == FlagAt(s.flags, q, cr.flagKey).value.version
    ensures var q := if cr.projectId == "" then "proj_default" else cr.projectId;
            var id := if cr.id == "" then newId else cr.id;
            var s1 := CreateRequest(s, cr, newId, at).0;
            var (s2, reviewed) := ReviewRequest(s1, id, reviewer, true, comments, seen);
            var (s3, applied) := ApplyRequest(h, s2, id, actor, st);
            && reviewed == Ok && applied == Ok && s3.requests[id].status == Applied
            && FlagAt(s3.flags, q, cr.flagKey).Some?
            && ConfigAt(FlagAt(s3.flags, q, cr.flagKey).value, cr.environment) == cr.proposed
  {
    hide ReviewRequest;
    hide ApplyRequest;
    hide CreateRequest;
    var id := if cr.id == "" then newId else cr.id;
    var s1 := CreateRequest(s, cr, newId, at).0;
    CreateEffect(s, cr, newId, at);
    var s2 := ReviewRequest(s1, id, reviewer, true, comments, seen).0;
    ReviewSucceedsIff(s1, id, reviewer, true, comments, seen);
    AppliesIff(h, s2, id, actor, st);
    ApplyEffect(h, s2, id, actor, st);
    var s3 := ApplyRequest(h, s2, id, actor, st).0;
    var q := ProjectOrDefault(cr.projectId);
    var k :| 0 <= k < |s2.flags.list| && Named(s2.flags.list[k], q, cr.flagKey)
             && var f := s2.flags.list[k];
                s3.flags.list == s2.flags.list[k := f.(environments := f.environments[cr.environment := cr.proposed],
                                                       version := f.version + 1, updatedAt := st.now)];
    OnlyNamed(s3.flags.list, q, cr.flagKey, k);
  }

  // ----- Purge, defaults and schedules -----

  /** A purge removes exactly the project's entries before the time, keeps the order of the rest, and counts. */
  lemma {:induction false} PurgeEffect(h: Hasher, s: StoreState, p: string, before: int)
    ensures var (s', o) := Step(h, s, PurgeLogs(p, before));
            var q := if p == "" then "proj_default" else p;
            && o == Ok && s' == s.(ledger := s'.ledger)
            && (forall e :: e in s'.ledger.logs <==> e in s.ledger.logs && !(e.projectId == q && e.timestamp < before))
            && |s'.ledger.logs| + Purge(s.ledger, q, before).1 == |s.ledger.logs|
            && s'.ledger.anchors - {q} == s.ledger.anchors - {q}
  {
    var q := ProjectOrDefault(p);
    var logs := s.ledger.logs;
    forall e ensures e in Filter(Kept(q, before), logs) <==> e in logs && !(e.projectId == q && e.timestamp < before) {
      FilterMember(Kept(q, before), logs, e);
    }
    FilterParts(q, before, logs);
  }

  lemma {:induction false} FilterParts(q: string, before: int, logs: seq<AuditEntry>)
    ensures |Filter(Kept(q, before), logs)| + |Filter(Expired(q, before), logs)| == |logs|
  {
    if logs != [] {
      FilterParts(q, before, logs[..|logs| - 1]);
    }
  }

  /** A stored list is what was handed over, with the default project and version one where there was none. */
  lemma {:induction false} NormalisedIs(fs: seq<FeatureFlag>)
    ensures var list := SnapshotOf(fs).list;
            && |list| == |fs|
            && forall i :: 0 <= i < |fs| ==>
                 list[i] == fs[i].(projectId := if fs[i].projectId == "" then "proj_default" else fs[i].projectId,
                                   version := if fs[i].version == 0 then 1 else fs[i].version)
  {
  }

  /** A schedule is stored under its project and flag key, at the given time, and no other is touched. */
  lemma {:induction false} SaveCanaryEffect(s: StoreState, c: CanarySchedule, now: int)
    ensures var s' := SaveCanary(s, c, now);
            var p := if c.projectId == "" then "proj_default" else c.projectId;
            var key := p + ":" + c.flagKey;
            && s' == s.(canaries := s'.canaries)
            && key in s'.canaries
            && s'.canaries[key] ==
                 c.(projectId := p, createdAt := if c.createdAt == ZERO_TIME then now else c.createdAt,
                                      updatedAt := now)
            && s'.canaries - {key} == s.canaries - {key}
  {
  }
}
