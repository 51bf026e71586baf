/** What each scheduler operation leaves behind, written out, and what a whole rollout comes to. */
module CanaryEffects {
  import opened Domain
  import opened AuditHash
  import opened Flags
  import opened FlagEdits
  import opened Store
  import opened StoreTheorems
  import opened StoreEffects
  import opened Canary
  import opened CanaryViews
  import opened CanaryTheorems
  import opened CanaryRuns

  function KeyText(p: string, flagKey: string): string {
    (if p == "" then "proj_default" else p) + ":" + flagKey
  }

  function Share(target: real): real {
    if target < 0.0 then 0.0 else if target > 100.0 then 100.0 else target
  }

  ghost predicate OtherSchedulesKept(m: map<string, CanarySchedule>, m': map<string, CanarySchedule>, key: string) {
    m' - {key} == m - {key}
  }

  // ----- Submit -----

  /** The schedule as it was handed in, with defaults filled in, standing active at its first stage since now. */
  ghost predicate AsSubmitted(c: CanarySchedule, sched: CanarySchedule, newId: string, now: int) {
    && c.id == (if sched.id == "" then newId else sched.id)
    && c.projectId == (if sched.projectId == "" then "proj_default" else sched.projectId)
    && c.environment == (if sched.environment == "" then "production" else sched.environment)
    && c.flagKey == sched.flagKey && c.rollbackReason == sched.rollbackReason
    && c.status == Active && c.stageIdx == 0 && c.createdAt == now && c.lastEvaluatedAt == now
    && |c.stages| == |sched.stages|
    && (forall i :: 0 <= i < |c.stages| ==>
          && c.stages[i].target == sched.stages[i].target && c.stages[i].duration == sched.stages[i].duration
          && c.stages[i].completedAt == sched.stages[i].completedAt
          && c.stages[i].startedAt == if i == 0 then now else sched.stages[i].startedAt)
  }

  /**
    A submit with stages puts the whole schedule into memory, and, if its flag exists, into the store as
    well after setting the flag's share to the first target. Other schedules and the requests stay.
   */
  lemma {:induction false} SubmitEffect(
    h: Hasher, y: System, sched: CanarySchedule, newId: string, now: int, rd: Reading)
    requires FlagsOk(y.store.flags) && sched.stages != [] && now != ZERO_TIME
    ensures var (y', o) := SubmitSchedule(h, y, sched, newId, now, rd);
            var key := KeyText(sched.projectId, sched.flagKey);
            var p, env := if sched.projectId == "" then "proj_default" else sched.projectId,
                          if sched.environment == "" then "production" else sched.environment;
            && key in y'.schedules && AsSubmitted(y'.schedules[key], sched, newId, now)
            && OtherSchedulesKept(y.schedules, y'.schedules, key)
            && (FlagAt(y.store.flags, p, sched.flagKey) == None ==> o == Err(NotFound) && y'.store == y.store)
            && (FlagAt(y.store.flags, p, sched.flagKey).Some? ==>
                  && o == Ok && key in y'.store.canaries
                  && AsSubmitted(y'.store.canaries[key], sched, newId, now)
                  && OtherSchedulesKept(y.store.canaries, y'.store.canaries, key)
                  && y'.store.requests == y.store.requests
                  && RolledTo(y.store, y'.store, p, sched.flagKey, env, sched.stages[0].target, rd.st.now))
  {
    hide UpdateRollout;
    hide RolledTo;
    hide FlagsOk;
    hide LastNamed;
    var c := Started(sched, newId, now);
    StartedAsSubmitted(sched, newId, now);
    hide Started;
    hide AsSubmitted;
    WriteRolls(h, y.store, c.projectId, c.flagKey, c.environment, c.stages[0].target, AUTO_ACTOR, rd.st);
    var s' := UpdateRollout(h, y.store, c.projectId, c.flagKey, c.environment, c.stages[0].target, AUTO_ACTOR, rd.st).0;
    SaveCanaryEffect(s', c, rd.savedAt);
    SavedAsSubmitted(c, sched, newId, now, rd.savedAt);
  }

  lemma {:induction false} StartedAsSubmitted(sched: CanarySchedule, newId: string, now: int)
    requires sched.stages != []
    ensures var c := Started(sched, newId, now);
            && AsSubmitted(c, sched, newId, now) && c.stages[0].target == sched.stages[0].target
            && c.projectId == (if sched.projectId == "" then "proj_default" else sched.projectId)
            && c.environment == (if sched.environment == "" then "production" else sched.environment)
            && c.flagKey == sched.flagKey && c.createdAt == now && |c.stages| > 0
  {
  }

  lemma {:induction false} SavedAsSubmitted(c: CanarySchedule, sched: CanarySchedule, newId: string, now: int, at: int)
    requires AsSubmitted(c, sched, newId, now)
    ensures AsSubmitted(c.(updatedAt := at), sched, newId, now)
  {
  }

  // The flag's share in one environment is the target, kept between 0 and 100; nothing else of the flags changed.
  ghost predicate RolledTo(
    s: StoreState, s': StoreState, p: string, name: string, env: string, target: real, now: int)
  {
    && FlagAt(s.flags, p, name).Some?
    && var cfg := Before(FlagAt(s.flags, p, name).value, env);
       Edits(s.(canaries := s'.canaries), s', p, name, env,
             cfg.(percentage := Share(target),
                  strategy := if cfg.strategy == Boolean &&
                      Share(target) < 100.0 then Percentage else cfg.strategy), now)
  }

  lemma {:induction false} WriteRolls(
    h: Hasher, s: StoreState, p: string, name: string, env: string, target: real, actor: string, st: Stamp)
    requires FlagsOk(s.flags) && p != "" && env != ""
    ensures var (s', o) := UpdateRollout(h, s, p, name, env, target, actor, st);
            && (FlagAt(s.flags, p, name) == None ==> s' == s && o == Err(NotFound))
            && (FlagAt(s.flags, p, name).Some? ==>
                  && o == Ok && s'.canaries == s.canaries && s'.requests == s.requests
                  && forall m :: RolledTo(s, s'.(canaries := m), p, name, env, target, st.now))
  {
    hide UpdateRollout;
    hide Records;
    RolloutEffect(h, s, p, name, env, target, actor, st);
    var s' := UpdateRollout(h, s, p, name, env, target, actor, st).0;
    if FlagAt(s.flags, p, name).Some? {
      var f := FlagAt(s.flags, p, name).value;
      var k :| 0 <= k < |s.flags.list| && Named(s.flags.list[k], p, name)
               && var g := s.flags.list[k];
                  var cfg := Before(f, env);
                  s'.flags.list ==
                    s.flags.list[k := g.(environments := g.environments[env :=
                      cfg.(percentage := Share(target),
                           strategy := if cfg.strategy == Boolean &&
                               Share(target) < 100.0 then Percentage else cfg.strategy)],
                                         version := g.version + 1, updatedAt := st.now)];
    }
  }

  // ----- Sync -----

  /** Syncing takes up exactly the store's active schedules that memory lacks or holds in an older state. */
  lemma {:induction false} SyncEffect(y: System, key: string)
    ensures var (mine, kept) := (Synced(y).schedules, y.store.canaries);
            var takes := key in kept && kept[key].status == Active
                         && (key !in y.schedules || kept[key].updatedAt > y.schedules[key].updatedAt);
            && Synced(y).store == y.store
            && (key in mine <==> key in y.schedules || takes)
            && (key in mine ==> mine[key] == if takes then kept[key] else y.schedules[key])
  {
  }

  // ----- Tick -----

  lemma {:induction false} PersistEffect(y: System, key: string, c: CanarySchedule, s: StoreState, savedAt: int)
    requires ScheduleKey(c.projectId, c.flagKey) == key && c.projectId != "" && c.createdAt != ZERO_TIME
    ensures var y' := Persist(y, key, c, s, savedAt);
            && key in y'.schedules && y'.schedules[key] == c && OtherSchedulesKept(y.schedules, y'.schedules, key)
            && key in y'.store.canaries && y'.store.canaries[key] == c.(updatedAt := savedAt)
            && OtherSchedulesKept(s.canaries, y'.store.canaries, key)
            && y'.store == s.(canaries := y'.store.canaries)
  {
    SaveCanaryEffect(s, c, savedAt);
  }

  // The schedule's stage is over at this time.
  predicate IsDue(c: CanarySchedule, now: int) {
    && c.status == Active && c.stageIdx < |c.stages|
    && now - c.stages[c.stageIdx].startedAt >= c.stages[c.stageIdx].duration * 1_000_000_000
  }

  // One stage further: the stage ended now, and the next one, if there is one, began now.
  ghost predicate Advanced(c: CanarySchedule, c': CanarySchedule, now: int) {
    var i := c.stageIdx;
    && i < |c.stages| && |c'.stages| == |c.stages|
    && c' == c.(stageIdx := i + 1, stages := c'.stages, updatedAt := now, lastEvaluatedAt := now,
                status := if i + 1 == |c.stages| then Completed else c.status)
    && (forall j :: 0 <= j < |c.stages| && j != i && j != i + 1 ==> c'.stages[j] == c.stages[j])
    && c'.stages[i] == c.stages[i].(completedAt := now)
    && (i + 1 < |c.stages| ==> c'.stages[i + 1] == c.stages[i + 1].(startedAt := now))
  }

  /**
    One schedule's turn. If it is not active and due, at most its evaluation time changes. At its last
    stage it completes. Otherwise the next target is written first: if the flag is missing, the schedule
    needs attention and the flags stay; if not, the share is the target and the schedule one stage further.
   */
  lemma {:induction false} TickEffect(h: Hasher, y: System, key: string, now: int, rd: Reading)
    requires FlagsOk(y.store.flags) && KeyedBy(y.schedules)
    requires key in y.schedules && y.schedules[key].projectId != "" && y.schedules[key].environment != ""
    requires y.schedules[key].createdAt != ZERO_TIME
    ensures var c := y.schedules[key];
            var (y', advanced) := TickOne(h, y, key, now, rd);
            var found := FlagAt(y.store.flags, c.projectId, c.flagKey).Some?;
            && key in y'.schedules && OtherSchedulesKept(y.schedules, y'.schedules, key)
            && (!IsDue(c, now) ==>
                  && !advanced && y'.store == y.store
                  && y'.schedules[key] == if c.status == Active then c.(lastEvaluatedAt := now) else c)
            && (IsDue(c, now) ==>
                  && key in y'.store.canaries && y'.store.canaries[key] == y'.schedules[key].(updatedAt := rd.savedAt)
                  && OtherSchedulesKept(y.store.canaries, y'.store.canaries, key))
            && (IsDue(c, now) && c.stageIdx + 1 == |c.stages| ==>
                  !advanced && Advanced(c, y'.schedules[key], now) &&
                      y'.store == y.store.(canaries := y'.store.canaries))
            && (IsDue(c, now) && c.stageIdx + 1 < |c.stages| && !found ==>
                  && !advanced && y'.store == y.store.(canaries := y'.store.canaries)
                  && y'.schedules[key] == c.(status := NeedsAttention, updatedAt := now, lastEvaluatedAt := now,
                                             rollbackReason := "stage advancement failed to persist"))
            && (IsDue(c, now) && c.stageIdx + 1 < |c.stages| && found ==>
                  && advanced && Advanced(c, y'.schedules[key], now)
                  && y'.store.requests == y.store.requests
                  && RolledTo(y.store, y'.store, c.projectId, c.flagKey, c.environment,
                              c.stages[c.stageIdx + 1].target, rd.st.now))
  {
    hide UpdateRollout;
    hide RolledTo;
    hide FlagsOk;
    hide LastNamed;
    hide Persist;
    var c := y.schedules[key];
    var turned := c.(lastEvaluatedAt := now);
    CommitKeepsTarget(turned, now);
    PersistEffect(y, key, Commit(turned, now), y.store, rd.savedAt);
    if c.status == Active && c.stageIdx + 1 < |c.stages| {
      var target := c.stages[c.stageIdx + 1].target;
      var s' := UpdateRollout(h, y.store, c.projectId, c.flagKey, c.environment, target, AUTO_ACTOR, rd.st).0;
      var failed := turned.(status := NeedsAttention, updatedAt := now,
                            rollbackReason := "stage advancement failed to persist");
      PersistEffect(y, key, Commit(turned, now), s', rd.savedAt);
      PersistEffect(y, key, failed, s', rd.savedAt);
      WriteRolls(h, y.store, c.projectId, c.flagKey, c.environment, c.stages[c.stageIdx + 1].target, AUTO_ACTOR, rd.st);
    }
  }

  // How many of the schedules of the order went to a further stage between the two states.
  function Moved(order: seq<string>, m: map<string, CanarySchedule>, m': map<string, CanarySchedule>): nat {
    if order == [] then 0
    else
      var k := order[|order| - 1];
      Moved(order[..|order| - 1], m, m')
      + (if k in m && k in m' && m'[k].stageIdx > m[k].stageIdx && m'[k].status == Active then 1 else 0)
  }

  lemma {:induction false} TickAdvances(h: Hasher, y: System, key: string, now: int, rd: Reading)
    ensures var (y', advanced) := TickOne(h, y, key, now, rd);
            && y'.schedules.Keys == y.schedules.Keys && OtherSchedulesKept(y.schedules, y'.schedules, key)
            && (advanced <==> key in y.schedules && y'.schedules[key].stageIdx > y.schedules[key].stageIdx
                              && y'.schedules[key].status == Active)
  {
    hide UpdateRollout;
  }

  lemma {:induction false} MovedAgrees(
    order: seq<string>, m: map<string, CanarySchedule>, a: map<string, CanarySchedule>, b: map<string, CanarySchedule>)
    requires forall k :: k in order ==> (k in a <==> k in b) && (k in a ==> a[k] == b[k])
    ensures Moved(order, m, a) == Moved(order, m, b)
  {
    if order != [] {
      assert order == order[..|order| - 1] + [order[|order| - 1]];
      MovedAgrees(order[..|order| - 1], m, a, b);
    }
  }

  lemma {:induction false} TickAllCounts(h: Hasher, y: System, order: seq<string>, now: int, rds: seq<Reading>, n: nat)
    requires NoRepeat(order) && n <= |order| == |rds|
    ensures var (y', count) := TickAll(h, y, order, now, rds, n);
            && count == Moved(order[..n], y.schedules, y'.schedules)
            && y'.schedules.Keys == y.schedules.Keys
            && forall k :: k in y.schedules && k !in order[..n] ==> y'.schedules[k] == y.schedules[k]
  {
    hide TickOne;
    if n > 0 {
      TickAllCounts(h, y, order, now, rds, n - 1);
      var y1 := TickAll(h, y, order, now, rds, n - 1).0;
      var key := order[n - 1];
      TickAdvances(h, y1, key, now, rds[n - 1]);
      var y2 := TickOne(h, y1, key, now, rds[n - 1]).0;
      var init := order[..n - 1];
      assert order[..n] == init + [key] && order[..n][..n - 1] == init;
      forall k | k in init ensures k != key && (k in y1.schedules <==> k in y2.schedules)
        && (k in y1.schedules ==> y1.schedules[k] == y2.schedules[k])
      {
        var i :| 0 <= i < n - 1 && order[i] == k;
        assert k in y1.schedules ==> k in y1.schedules - {key};
      }
      MovedAgrees(init, y.schedules, y1.schedules, y2.schedules);
      forall k | k in y.schedules && k !in order[..n] ensures y2.schedules[k] == y.schedules[k] {
        assert k in y1.schedules - {key};
      }
    }
  }

  /** The number an evaluation returns is that of the schedules it took to a further stage. */
  lemma {:induction false} EvaluationCounts(h: Hasher, y: System, order: seq<string>, now: int, rds: seq<Reading>)
    requires NoRepeat(order) && |order| == |rds|
    ensures var (y', count) := EvaluateSchedules(h, y, order, now, rds);
            count == Moved(order, Synced(y).schedules, y'.schedules)
  {
    hide TickAll;
    TickAllCounts(h, Synced(y), order, now, rds, |order|);
    assert order[..|order|] == order;
  }

  // ----- Rollback, lookup and cancel -----

  // What the scheduler finds under a key: its own schedule, else the stored one.
  predicate Holds(y: System, key: string, c: CanarySchedule) {
    if key in y.schedules then c == y.schedules[key] else key in y.store.canaries && c == y.store.canaries[key]
  }

  /** A lookup returns what memory holds, else what the store holds, and keeps it in memory. */
  lemma {:induction false} GetEffect(y: System, p: string, flagKey: string)
    ensures var (y', found) := GetSchedule(y, p, flagKey); var key := KeyText(p, flagKey);
            && y'.store == y.store && OtherSchedulesKept(y.schedules, y'.schedules, key)
            && (found.Some? <==> key in y.schedules || key in y.store.canaries)
            && (found.Some? ==> Holds(y, key, found.value) && key in y'.schedules && y'.schedules[key] == found.value)
            && (found == None ==> y' == y)
  {
  }

  /**
    A health rollback sets the flag's share to zero and then marks the schedule as rolled back for the
    reason; if the flag is missing it marks the schedule as needing attention; without a schedule it fails.
   */
  lemma {:induction false} RollbackEffect(
    h: Hasher, y: System, p: string, flagKey: string, reason: string, now: int, rd: Reading, c: CanarySchedule)
    requires FlagsOk(y.store.flags) && Holds(y, KeyText(p, flagKey), c)
    requires c.projectId != "" && c.environment != "" && c.createdAt != ZERO_TIME &&
              KeyText(c.projectId, c.flagKey) == KeyText(p, flagKey)
    ensures var (y', o) := HealthRollback(h, y, p, flagKey, reason, now, rd); var key := KeyText(p, flagKey);
            && key in y'.schedules && OtherSchedulesKept(y.schedules, y'.schedules, key)
            && key in y'.store.canaries && y'.store.canaries[key] == y'.schedules[key].(updatedAt := rd.savedAt)
            && OtherSchedulesKept(y.store.canaries, y'.store.canaries, key)
            && (FlagAt(y.store.flags, c.projectId, c.flagKey).Some? ==>
                  && o == Ok && y'.store.requests == y.store.requests
                  && y'.schedules[key] == c.(status := RolledBack, rollbackReason := reason, updatedAt := now)
                  && RolledTo(y.store, y'.store, c.projectId, c.flagKey, c.environment, 0.0, rd.st.now))
            && (FlagAt(y.store.flags, c.projectId, c.flagKey) == None ==>
                  && o == Err(NotFound) && y'.store == y.store.(canaries := y'.store.canaries)
                  && y'.schedules[key] == c.(status := NeedsAttention, rollbackReason := "rollback failed to persist",
                                             updatedAt := now))
  {
    hide UpdateRollout;
    hide RolledTo;
    hide FlagsOk;
    hide LastNamed;
    hide Persist;
    var key := ScheduleKey(p, flagKey);
    var s' := UpdateRollout(h, y.store, c.projectId, c.flagKey, c.environment, 0.0, ROLLBACK_ACTOR, rd.st).0;
    var failed := c.(status := NeedsAttention, rollbackReason := "rollback failed to persist", updatedAt := now);
    PersistEffect(y, key, failed, s', rd.savedAt);
    PersistEffect(y, key, c.(status := RolledBack, rollbackReason := reason, updatedAt := now), s', rd.savedAt);
    WriteRolls(h, y.store, c.projectId, c.flagKey, c.environment, 0.0, ROLLBACK_ACTOR, rd.st);
  }

  lemma {:induction false} UnknownRollback(
    h: Hasher, y: System, p: string, flagKey: string, reason: string, now: int, rd: Reading)
    requires KeyText(p, flagKey) !in y.schedules && KeyText(p, flagKey) !in y.store.canaries
    ensures HealthRollback(h, y, p, flagKey, reason, now, rd) == (y, Err(NoSchedule))
  {
  }

  /** A cancelled schedule is in neither memory nor store; everything else stays, the flag as well. */
  lemma {:induction false} CancelEffect(y: System, p: string, flagKey: string)
    ensures var (y', found) := CancelSchedule(y, p, flagKey); var key := KeyText(p, flagKey);
            && Gone(y', key)
            && OtherSchedulesKept(y.schedules, y'.schedules, key)
            && OtherSchedulesKept(y.store.canaries, y'.store.canaries, key)
            && y'.store == y.store.(canaries := y'.store.canaries)
            && (found <==> key in y.schedules || key in y.store.canaries)
  {
  }

  predicate Gone(y: System, key: string) {
    key !in y.schedules && key !in y.store.canaries
  }

  // Every schedule sits under its own key.
  predicate WellKept(y: System) {
    KeyedBy(y.schedules) && KeyedBy(y.store.canaries)
  }

  lemma {:induction false} RolloutKeepsCanaries(
    h: Hasher, s: StoreState, p: string, name: string, env: string, pct: real, actor: string, st: Stamp)
    ensures UpdateRollout(h, s, p, name, env, pct, actor, st).0.canaries == s.canaries
  {
  }

  lemma {:induction false} PersistKept(y: System, key: string, c: CanarySchedule, s: StoreState, savedAt: int,
                                        k: string)
    requires WellKept(y) && s.canaries == y.store.canaries && ScheduleKey(c.projectId, c.flagKey) == key
    ensures WellKept(Persist(y, key, c, s, savedAt))
    ensures Gone(y, k) && key != k ==> Gone(Persist(y, key, c, s, savedAt), k)
  {
  }

  lemma {:induction false} TickKeepsGone(h: Hasher, y: System, key: string, now: int, rd: Reading, k: string)
    requires WellKept(y)
    ensures var y' := TickOne(h, y, key, now, rd).0; WellKept(y') && (Gone(y, k) ==> Gone(y', k))
  {
    hide UpdateRollout;
    hide Commit;
    if key in y.schedules && y.schedules[key].status.Active? {
      var c := y.schedules[key].(lastEvaluatedAt := now);
      CommitKeepsTarget(c, now);
      match CanAdvanceStage(c, now)
      case Stay =>
      case Complete => PersistKept(y, key, Commit(c, now), y.store, rd.savedAt, k);
      case Next(stage) =>
        var s' := UpdateRollout(h, y.store, c.projectId, c.flagKey, c.environment, stage.target, AUTO_ACTOR, rd.st).0;
        RolloutKeepsCanaries(h, y.store, c.projectId, c.flagKey, c.environment, stage.target, AUTO_ACTOR, rd.st);
        var failed := c.(status := NeedsAttention, rollbackReason := "stage advancement failed to persist",
                         updatedAt := now);
        PersistKept(y, key, failed, s', rd.savedAt, k);
        PersistKept(y, key, Commit(c, now), s', rd.savedAt, k);
    }
  }

  lemma {:induction false} TickAllKeepsGone(
    h: Hasher, y: System, order: seq<string>, now: int, rds: seq<Reading>, n: nat, k: string)
    requires WellKept(y) && n <= |order| == |rds|
    ensures var y' := TickAll(h, y, order, now, rds, n).0; WellKept(y') && (Gone(y, k) ==> Gone(y', k))
  {
    hide TickOne;
    hide WellKept;
    if n > 0 {
      TickAllKeepsGone(h, y, order, now, rds, n - 1, k);
      TickKeepsGone(h, TickAll(h, y, order, now, rds, n - 1).0, order[n - 1], now, rds[n - 1], k);
    }
  }

  lemma {:induction false} SyncKeepsGone(y: System, k: string)
    requires WellKept(y)
    ensures WellKept(Synced(y)) && (Gone(y, k) ==> Gone(Synced(y), k))
  {
  }

  lemma {:induction false} RollbackKeepsGone(
    h: Hasher, y: System, p: string, flagKey: string, reason: string, now: int, rd: Reading, k: string)
    requires WellKept(y)
    ensures var y' := HealthRollback(h, y, p, flagKey, reason, now, rd).0; WellKept(y') && (Gone(y, k) ==> Gone(y', k))
  {
    hide UpdateRollout;
    hide Persist;
    var key := ScheduleKey(p, flagKey);
    match Known(y, key)
    case None =>
    case Some(c) =>
      var s' := UpdateRollout(h, y.store, c.projectId, c.flagKey, c.environment, 0.0, ROLLBACK_ACTOR, rd.st).0;
      RolloutKeepsCanaries(h, y.store, c.projectId, c.flagKey, c.environment, 0.0, ROLLBACK_ACTOR, rd.st);
      var failed := c.(status := NeedsAttention, rollbackReason := "rollback failed to persist", updatedAt := now);
      PersistKept(y, key, failed, s', rd.savedAt, k);
      PersistKept(y, key, c.(status := RolledBack, rollbackReason := reason, updatedAt := now), s', rd.savedAt, k);
  }

  lemma {:induction false} SubmitKeepsGone(
    h: Hasher, y: System, sched: CanarySchedule, newId: string, now: int, rd: Reading, k: string)
    requires WellKept(y)
    ensures var y' := SubmitSchedule(h, y, sched, newId, now, rd).0;
            WellKept(y') && (Gone(y, k) && KeyText(sched.projectId, sched.flagKey) != k ==> Gone(y', k))
  {
    hide UpdateRollout;
    if sched.stages != [] {
      var c := Started(sched, newId, now);
      RolloutKeepsCanaries(h, y.store, c.projectId, c.flagKey, c.environment, c.stages[0].target, AUTO_ACTOR, rd.st);
    }
  }

  predicate Resubmits(op: CanaryOp, k: string) {
    op.Submit? && KeyText(op.sched.projectId, op.sched.flagKey) == k
  }

  lemma {:induction false} StepKeepsGone(h: Hasher, y: System, op: CanaryOp, k: string)
    requires WellKept(y)
    ensures WellKept(CanaryStep(h, y, op))
    ensures Gone(y, k) && !Resubmits(op, k) ==> Gone(CanaryStep(h, y, op), k)
  {
    hide SubmitSchedule;
    hide HealthRollback;
    hide TickAll;
    hide Synced;
    match op
    case Submit(sched, newId, now, rd) => SubmitKeepsGone(h, y, sched, newId, now, rd, k);
    case Tick(order, now, rds) =>
      if |order| == |rds| {
        SyncKeepsGone(y, k);
        TickAllKeepsGone(h, Synced(y), order, now, rds, |order|, k);
      }
    case Rollback(p, flagKey, reason, now, rd) => RollbackKeepsGone(h, y, p, flagKey, reason, now, rd, k);
    case Cancel(p, flagKey) =>
    case Get(p, flagKey) =>
  }

  ghost predicate PlainStepAt(h: Hasher, ys: seq<System>, ops: seq<CanaryOp>, i: nat)
    requires |ys| == |ops| + 1 && i < |ops|
  {
    ys[i + 1] == CanaryStep(h, ys[i], ops[i])
  }

  /** Over every run, a schedule that is gone stays gone until it is submitted again: no tick or sync revives it. */
  lemma {:induction false} CancelledStaysGone(h: Hasher, ys: seq<System>, ops: seq<CanaryOp>, n: nat, k: string)
    requires |ys| == |ops| + 1 && (forall i :: 0 <= i < |ops| ==> PlainStepAt(h, ys, ops, i)) && n <= |ops|
    requires WellKept(ys[0]) && Gone(ys[0], k) && forall i :: 0 <= i < n ==> !Resubmits(ops[i], k)
    ensures WellKept(ys[n]) && Gone(ys[n], k)
  {
    hide CanaryStep;
    if n > 0 {
      CancelledStaysGone(h, ys, ops, n - 1, k);
      assert PlainStepAt(h, ys, ops, n - 1);
      StepKeepsGone(h, ys[n - 1], ops[n - 1], k);
    }
  }

  // ----- What a whole rollout comes to -----

  lemma {:induction false} MoveKeepsStages(v: View, cause: Cause, v': View)
    requires Moves(v, cause, v')
    ensures SameStages(v.c.stages, v'.c.stages)
    ensures v'.c.flagKey == v.c.flagKey && v'.c.projectId == v.c.projectId && v'.c.environment == v.c.environment
  {
    hide Rolled;
  }

  lemma {:induction false} RunKeepsStages(h: Hasher, ys: seq<System>, ops: seq<CanaryOp>, k: string, n: nat)
    requires CanaryRun(h, ys, ops, k) && Launched(ys[0], k) && n <= |ops|
    ensures Launched(ys[n], k)
    ensures var (c, c') := (ys[0].schedules[k], ys[n].schedules[k]);
            && SameStages(c.stages, c'.stages)
            && c'.flagKey == c.flagKey && c'.projectId == c.projectId && c'.environment == c.environment
  {
    hide CanaryStep;
    hide LastNamed;
    hide Alone;
    hide KeyedBy;
    hide Driven;
    hide Moves;
    RunStaysLaunched(h, ys, ops, k, n);
    if n > 0 {
      RunKeepsStages(h, ys, ops, k, n - 1);
      MoveKeepsStages(ViewOf(ys[n - 1], k), CauseOf(ops[n - 1], k), ViewOf(ys[n], k));
    }
  }

  /**
    A rollout from its submit on, in terms of what was submitted: while active the flag's share is that of
    the current stage, once completed that of the last stage submitted, and once rolled back nobody's.
   */
  lemma {:induction false} RolloutServesSubmitted(
    h: Hasher, y: System, sched: CanarySchedule, newId: string, now: int, rd: Reading,
    ys: seq<System>, ops: seq<CanaryOp>, n: nat)
    requires FlagsOk(y.store.flags) && KeyedBy(y.schedules) && KeyedBy(y.store.canaries)
    requires sched.stages != [] && now != ZERO_TIME
    requires FlagAt(y.store.flags, ProjectOrDefault(sched.projectId), sched.flagKey).Some?
    requires Vacant(y, FlagAt(y.store.flags, ProjectOrDefault(sched.projectId), sched.flagKey).value,
                    EnvOrProduction(sched.environment), ScheduleKey(sched.projectId, sched.flagKey))
    requires CanaryRun(h, ys, ops, KeyText(sched.projectId, sched.flagKey)) && n <= |ops|
    requires ys[0] == SubmitSchedule(h, y, sched, newId, now, rd).0
    ensures var key := KeyText(sched.projectId, sched.flagKey);
            var p, env := if sched.projectId == "" then "proj_default" else sched.projectId,
                          if sched.environment == "" then "production" else sched.environment;
            && key in ys[n].schedules && FlagAt(ys[n].store.flags, p, sched.flagKey).Some?
            && var pct := Before(FlagAt(ys[n].store.flags, p, sched.flagKey).value, env).percentage;
               var c := ys[n].schedules[key];
               match c.status
               case Active => c.stageIdx < |sched.stages| && pct == Share(sched.stages[c.stageIdx].target)
               case Completed => c.stageIdx == |sched.stages| && pct == Share(sched.stages[|sched.stages| - 1].target)
               case RolledBack => pct == 0.0
               case _ => false
  {
    hide CanaryStep;
    hide SubmitSchedule;
    hide LastNamed;
    hide Driven;
    hide FlagsOk;
    hide Vacant;
    hide KeyedBy;
    var key := KeyText(sched.projectId, sched.flagKey);
    SubmitLaunches(h, y, sched, newId, now, rd);
    SubmitEffect(h, y, sched, newId, now, rd);
    RunKeepsStages(h, ys, ops, key, n);
    WriteBeforeAdvance(h, ys, ops, key, n);
  }
}
