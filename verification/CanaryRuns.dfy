/** The canary guarantees, for one scheduler over one store, over every run from a successful submit. */
module CanaryRuns {
  import opened Domain
  import opened AuditHash
  import opened AuditChain
  import opened Flags
  import opened FlagEdits
  import opened Store
  import opened StoreTheorems
  import opened Evaluator
  import opened Canary
  import opened CanaryViews
  import opened CanaryTheorems

  ghost predicate Launched(y: System, k: string) {
    World(y, k) && y.schedules[k].createdAt != ZERO_TIME && Driven(ViewOf(y, k))
  }

  // No other schedule writes to the flag and environment that this one asks for.
  ghost predicate Vacant(y: System, f: FeatureFlag, env: string, key: string) {
    && (forall k2 :: k2 in y.schedules && k2 != key ==> Apart(f, env, y.schedules[k2]))
    && (forall k2 :: k2 in y.store.canaries && k2 != key ==> Apart(f, env, y.store.canaries[k2]))
  }

  lemma {:induction false} StartedDriven(sched: CanarySchedule, newId: string, now: int, cfg: EnvConfig, key: string)
    requires sched.stages != []
    ensures var c := Started(sched, newId, now); Driven(View(c, Rolled(cfg, c, c.stages[0].target), key))
  {
  }

  /** A submit for an existing flag succeeds, starts at stage zero, and the store serves that stage's target. */
  lemma {:induction false} SubmitLaunches(
    h: Hasher, y: System, sched: CanarySchedule, newId: string, now: int, rd: Reading)
    requires FlagsOk(y.store.flags) && KeyedBy(y.schedules) && KeyedBy(y.store.canaries)
    requires sched.stages != [] && now != ZERO_TIME
    requires FlagAt(y.store.flags, ProjectOrDefault(sched.projectId), sched.flagKey).Some?
    requires Vacant(y, FlagAt(y.store.flags, ProjectOrDefault(sched.projectId), sched.flagKey).value,
                    EnvOrProduction(sched.environment), ScheduleKey(sched.projectId, sched.flagKey))
    ensures var (y', o) := SubmitSchedule(h, y, sched, newId, now, rd);
            var key := ScheduleKey(sched.projectId, sched.flagKey);
            o.Ok? && Launched(y', key) && y'.schedules[key] == Started(sched, newId, now)
  {
    hide UpdateRollout;
    var c := Started(sched, newId, now);
    var m := LastNamedIs(y.store.flags.list, c.projectId, c.flagKey);
    var (s', o) := UpdateRollout(h, y.store, c.projectId, c.flagKey, c.environment, c.stages[0].target, AUTO_ACTOR,
                                 rd.st);
    RolloutSeenFrom(h, y.store, c.projectId, c.flagKey, c.environment, c.stages[0].target, AUTO_ACTOR, rd.st,
                    c.projectId, c.flagKey, c.environment);
    var f := FlagAt(y.store.flags, c.projectId, c.flagKey).value;
    StartedDriven(sched, newId, now, ConfigAt(f, c.environment), f.key);
    LaunchPersisted(y, c, s', f, rd.savedAt);
  }

  lemma {:induction false} LaunchPersisted(y: System, c: CanarySchedule, s': StoreState, f: FeatureFlag, savedAt: int)
    requires KeyedBy(y.schedules) && KeyedBy(y.store.canaries) && c.projectId != "" && c.environment != "" &&
              c.createdAt != ZERO_TIME
    requires FlagsOk(s'.flags) && s'.canaries == y.store.canaries
    requires FlagAt(s'.flags, c.projectId, c.flagKey).Some? &&
              SameNames(f, FlagAt(s'.flags, c.projectId, c.flagKey).value)
    requires Vacant(y, f, c.environment, ScheduleKey(c.projectId, c.flagKey))
    ensures var key := ScheduleKey(c.projectId, c.flagKey); var y' := Persist(y, key, c, s', savedAt);
            && World(y', key)
            && ViewOf(y', key) ==
                 View(c, ConfigAt(FlagAt(s'.flags, c.projectId, c.flagKey).value, c.environment), f.key)
  {
    hide FlagsOk;
    hide LastNamed;
  }

  /**
    A submit succeeds iff it has stages and its flag exists. Without stages nothing changes; without the
    flag it fails, writes nothing to the store, and still leaves the schedule active in memory.
   */
  lemma {:induction false} FailedSubmitStaysActive(
    h: Hasher, y: System, sched: CanarySchedule, newId: string, now: int, rd: Reading)
    ensures var (y', o) := SubmitSchedule(h, y, sched, newId, now, rd);
            var key := ScheduleKey(sched.projectId, sched.flagKey);
            var found := FlagAt(y.store.flags, ProjectOrDefault(sched.projectId), sched.flagKey).Some?;
            && (o.Ok? <==> sched.stages != [] && found)
            && (sched.stages == [] ==> y' == y)
            && (sched.stages != [] && !found ==>
                  && o == Err(NotFound) && y'.store == y.store
                  && y'.schedules == y.schedules[key := Started(sched, newId, now)]
                  && y'.schedules[key].status.Active?)
  {
    hide Append;
    if sched.stages != [] {
      var c := Started(sched, newId, now);
      var e := SetRollout(EnvOrProduction(c.environment), Clamp(c.stages[0].target));
      var fs := y.store.flags.list;
      var fs' := Rewrite(fs, c.projectId, c.flagKey, e, rd.st.now);
      var k := LastNamedIs(fs, c.projectId, c.flagKey);
      var k' := LastNamedIs(fs', c.projectId, c.flagKey);
      assert forall i :: 0 <= i < |fs| ==>
               (Named(fs'[i], c.projectId, c.flagKey) <==> Named(fs[i], c.projectId, c.flagKey));
    }
  }

  /**
    What becomes of such a schedule: the first tick that finds it due marks it as needing attention if it
    has a further stage, and as completed if it has not, and saves it so; no flag is ever written.
   */
  lemma {:induction false} OrphanTick(h: Hasher, y: System, key: string, now: int, rd: Reading)
    requires key in y.schedules
    requires FlagAt(y.store.flags, ProjectOrDefault(y.schedules[key].projectId), y.schedules[key].flagKey) == None
    ensures var (c, y') := (y.schedules[key], TickOne(h, y, key, now, rd).0);
            && !TickOne(h, y, key, now, rd).1
            && y'.store == y.store.(canaries := y'.store.canaries)
            && key in y'.schedules
            && y'.schedules[key].status ==
                 (if !Due(c, now) then c.status else if c.stageIdx + 1 < |c.stages| then NeedsAttention else Completed)
            && (!Due(c, now) ==> y'.store == y.store)
            && (Due(c, now) && ScheduleKey(c.projectId, c.flagKey) == key ==>
                  key in y'.store.canaries && y'.store.canaries[key].status == y'.schedules[key].status)
  {
    hide Append;
    var c := y.schedules[key];
    if Due(c, now) && c.stageIdx + 1 < |c.stages| {
      MissingFlagRefused(h, y.store, c.projectId, c.flagKey, c.environment, c.stages[c.stageIdx + 1].target,
                         AUTO_ACTOR, rd.st);
    }
  }

  lemma {:induction false} MissingFlagRefused(
    h: Hasher, s: StoreState, p: string, name: string, env: string, pct: real, actor: string, st: Stamp)
    requires FlagAt(s.flags, ProjectOrDefault(p), name) == None
    ensures UpdateRollout(h, s, p, name, env, pct, actor, st) == (s, Err(NotFound))
  {
    var q, e := ProjectOrDefault(p), SetRollout(EnvOrProduction(env), Clamp(pct));
    var fs := s.flags.list;
    var fs' := Rewrite(fs, q, name, e, st.now);
    var k := LastNamedIs(fs, q, name);
    var k' := LastNamedIs(fs', q, name);
    assert forall i :: 0 <= i < |fs| ==> (Named(fs'[i], q, name) <==> Named(fs[i], q, name));
  }

  // ----- Runs -----

  ghost predicate CanaryStepAt(h: Hasher, ys: seq<System>, ops: seq<CanaryOp>, k: string, i: nat)
    requires |ys| == |ops| + 1 && i < |ops|
  {
    && ys[i + 1] == CanaryStep(h, ys[i], ops[i])
    && Proper(ops[i], k)
    && (World(ys[i], k) ==> SubmitsApart(ys[i], ops[i], k))
  }

  // Only the scheduler writes, and no other schedule writes where schedule k does.
  ghost predicate CanaryRun(h: Hasher, ys: seq<System>, ops: seq<CanaryOp>, k: string) {
    |ys| == |ops| + 1 && forall i :: 0 <= i < |ops| ==> CanaryStepAt(h, ys, ops, k, i)
  }

  lemma {:induction false} RunStaysLaunched(h: Hasher, ys: seq<System>, ops: seq<CanaryOp>, k: string, n: nat)
    requires CanaryRun(h, ys, ops, k) && Launched(ys[0], k) && n <= |ops|
    ensures Launched(ys[n], k)
    ensures n > 0 ==> Launched(ys[n - 1], k) && Moves(ViewOf(ys[n - 1], k), CauseOf(ops[n - 1], k), ViewOf(ys[n], k))
  {
    hide CanaryStep;
    hide Alone;
    hide KeyedBy;
    hide Driven;
    hide Moves;
    if n > 0 {
      RunStaysLaunched(h, ys, ops, k, n - 1);
      assert CanaryStepAt(h, ys, ops, k, n - 1);
      StepSeen(h, ys[n - 1], ops[n - 1], k);
      MoveKeepsDriven(ViewOf(ys[n - 1], k), CauseOf(ops[n - 1], k), ViewOf(ys[n], k));
    }
  }

  /**
    Write before advance, over every run: the stored percentage is the clamped target of the current
    stage while active, of the last stage once completed, and zero once rolled back; no other status occurs.
   */
  lemma {:induction false} WriteBeforeAdvance(h: Hasher, ys: seq<System>, ops: seq<CanaryOp>, k: string, n: nat)
    requires CanaryRun(h, ys, ops, k) && Launched(ys[0], k) && n <= |ops|
    ensures k in ys[n].schedules && TargetOf(ys[n], ys[n].schedules[k]).Some?
    ensures var c := ys[n].schedules[k];
            var pct := ConfigAt(TargetOf(ys[n], c).value, c.environment).percentage;
            match c.status
            case Active => c.stageIdx < |c.stages| && pct == Clamp(c.stages[c.stageIdx].target)
            case Completed => c.stageIdx == |c.stages| > 0 && pct == Clamp(c.stages[|c.stages| - 1].target)
            case RolledBack => pct == 0.0
            case _ => false
  {
    hide CanaryStep;
    hide LastNamed;
    RunStaysLaunched(h, ys, ops, k, n);
  }

  /** Stage timing over every run: no stage starts before all durations ahead of it have passed since creation. */
  lemma {:induction false} StageTiming(h: Hasher, ys: seq<System>, ops: seq<CanaryOp>, k: string, n: nat, stage: nat)
    requires CanaryRun(h, ys, ops, k) && Launched(ys[0], k) && n <= |ops|
    requires k in ys[n].schedules && stage <= ys[n].schedules[k].stageIdx
    ensures var c := ys[n].schedules[k];
            && stage <= |c.stages|
            && (stage < |c.stages| ==> c.stages[stage].startedAt >= c.createdAt + Durations(c.stages, stage) * SECOND)
            && (stage > 0 ==> c.stages[stage - 1].completedAt >= c.createdAt + Durations(c.stages, stage) * SECOND)
            && (0 < stage < |c.stages| ==> c.stages[stage].startedAt == c.stages[stage - 1].completedAt)
  {
    hide CanaryStep;
    hide LastNamed;
    RunStaysLaunched(h, ys, ops, k, n);
    StageStartsLate(ys[n].schedules[k], stage);
  }

  /**
    A tick moves a schedule by one stage exactly when its stage has run its time, and otherwise changes
    nothing in it.
   */
  lemma {:induction false} TickInRun(h: Hasher, ys: seq<System>, ops: seq<CanaryOp>, k: string, n: nat)
    requires CanaryRun(h, ys, ops, k) && Launched(ys[0], k) && n < |ops|
    requires ops[n].Tick? && k in ops[n].order && |ops[n].order| == |ops[n].rds|
    ensures k in ys[n].schedules && k in ys[n + 1].schedules
    ensures var (c, c') := (ys[n].schedules[k], ys[n + 1].schedules[k]);
            && (c.status.Active? ==> c.stageIdx < |c.stages|)
            && c'.stageIdx == c.stageIdx +
                 (if c.status.Active? &&
                    ops[n].now - c.stages[c.stageIdx].startedAt >= c.stages[c.stageIdx].duration * SECOND then 1 else 0)
            && (c'.stageIdx == c.stageIdx ==> c'.status == c.status && c'.stages == c.stages)
  {
    hide CanaryStep;
    hide LastNamed;
    RunStaysLaunched(h, ys, ops, k, n + 1);
    TickMovesOneStage(ViewOf(ys[n], k), ops[n].now, ViewOf(ys[n + 1], k));
  }

  // ----- Stickiness -----

  lemma {:induction false} RunWidens(h: Hasher, ys: seq<System>, ops: seq<CanaryOp>, k: string, i: nat, j: nat)
    requires CanaryRun(h, ys, ops, k) && Launched(ys[0], k) && i <= j <= |ops|
    requires k in ys[i].schedules && Rising(ys[i].schedules[k].stages)
    requires k in ys[j].schedules && !ys[j].schedules[k].status.RolledBack?
    ensures Launched(ys[i], k) && Launched(ys[j], k)
    ensures Wider(ViewOf(ys[i], k).cfg, ViewOf(ys[j], k).cfg) && ViewOf(ys[j], k).key == ViewOf(ys[i], k).key
    ensures ys[j].schedules[k].environment == ys[i].schedules[k].environment && Rising(ys[j].schedules[k].stages)
  {
    hide CanaryStep;
    hide LastNamed;
    hide Alone;
    hide KeyedBy;
    hide Driven;
    RunStaysLaunched(h, ys, ops, k, i);
    if i < j {
      RunStaysLaunched(h, ys, ops, k, j);
      var v, cause, v' := ViewOf(ys[j - 1], k), CauseOf(ops[j - 1], k), ViewOf(ys[j], k);
      MoveKeepsFamily(v, cause, v');
      NotRolledBack(v, cause, v');
      RunWidens(h, ys, ops, k, i, j - 1);
      MoveWidens(v, cause, v');
      SameStagesRise(v.c.stages, v'.c.stages);
      WiderTransitive(ViewOf(ys[i], k).cfg, v.cfg, v'.cfg);
    }
  }

  lemma {:induction false} NotRolledBack(v: View, cause: Cause, v': View)
    requires Moves(v, cause, v') && !v'.c.status.RolledBack?
    ensures !cause.RolledBackBy? && !v.c.status.RolledBack?
  {
    MoveKeepsFamily(v, cause, v');
  }

  /**
    End to end stickiness: with rising targets, whoever the evaluator serves in one state of the run is
    still served in every later state that is not rolled back, under every strategy and hash.
   */
  lemma {:induction false} CanaryIsSticky(
    h: Hasher, g: Engine, ys: seq<System>, ops: seq<CanaryOp>, k: string, i: nat, j: nat, ctx: Context)
    requires CanaryRun(h, ys, ops, k) && Launched(ys[0], k) && i <= j <= |ops|
    requires k in ys[i].schedules && Rising(ys[i].schedules[k].stages)
    requires k in ys[j].schedules && !ys[j].schedules[k].status.RolledBack?
    requires Env(ctx) == ys[i].schedules[k].environment
    requires TargetOf(ys[i], ys[i].schedules[k]).Some? &&
              Evaluate(g, TargetOf(ys[i], ys[i].schedules[k]).value, ctx).enabled
    ensures TargetOf(ys[j], ys[j].schedules[k]).Some? &&
              Evaluate(g, TargetOf(ys[j], ys[j].schedules[k]).value, ctx).enabled
  {
    hide CanaryStep;
    hide LastNamed;
    hide Evaluate;
    RunWidens(h, ys, ops, k, i, j);
    var f, f' := TargetOf(ys[i], ys[i].schedules[k]).value, TargetOf(ys[j], ys[j].schedules[k]).value;
    var cfg, cfg' := ViewOf(ys[i], k).cfg, ViewOf(ys[j], k).cfg;
    ServedByConfig(g, f, ctx, cfg);
    ServedByConfig(g, f', ctx, cfg');
    if Enabled(g, cfg, f.key, ctx) {
      WiderServesMore(g, cfg, cfg', f.key, ctx);
    }
  }

  lemma {:induction false} ServedByConfig(g: Engine, f: FeatureFlag, ctx: Context, cfg: EnvConfig)
    requires cfg == ConfigAt(f, Env(ctx))
    ensures Evaluate(g, f, ctx).enabled <==> Enabled(g, cfg, f.key, ctx)
  {
    EnabledIff(g, f, ctx);
  }

  lemma {:induction false} RunKeepsFamily(h: Hasher, ys: seq<System>, ops: seq<CanaryOp>, k: string, i: nat, j: nat)
    requires CanaryRun(h, ys, ops, k) && Launched(ys[0], k) && i <= j <= |ops|
    ensures Launched(ys[i], k) && Launched(ys[j], k)
    ensures SameFamily(ViewOf(ys[i], k).cfg, ViewOf(ys[j], k).cfg)
    ensures ys[j].schedules[k].environment == ys[i].schedules[k].environment
  {
    hide CanaryStep;
    hide LastNamed;
    hide Alone;
    hide KeyedBy;
    hide Driven;
    RunStaysLaunched(h, ys, ops, k, i);
    if i < j {
      RunStaysLaunched(h, ys, ops, k, j);
      RunKeepsFamily(h, ys, ops, k, i, j - 1);
      MoveKeepsFamily(ViewOf(ys[j - 1], k), CauseOf(ops[j - 1], k), ViewOf(ys[j], k));
    }
  }

  /**
    Who stays served once rolled back, in terms of any earlier configuration of the run: those for whom
    the first matching rule enables the flag, and everybody else if and only if the strategy was neither
    boolean nor percentage.
   */
  lemma {:induction false} RollbackReach(
    h: Hasher, g: Engine, ys: seq<System>, ops: seq<CanaryOp>, k: string, i: nat, j: nat, ctx: Context)
    requires CanaryRun(h, ys, ops, k) && Launched(ys[0], k) && i <= j <= |ops|
    requires k in ys[j].schedules && ys[j].schedules[k].status.RolledBack? && Env(ctx) == ys[j].schedules[k].environment
    requires k in ys[i].schedules && TargetOf(ys[i], ys[i].schedules[k]).Some?
    ensures TargetOf(ys[j], ys[j].schedules[k]).Some?
    ensures var before := ConfigAt(TargetOf(ys[i], ys[i].schedules[k]).value, Env(ctx));
            var m := FirstMatch(g, before.rules, ctx);
            Evaluate(g, TargetOf(ys[j], ys[j].schedules[k]).value, ctx).enabled <==>
              before.enabled && if m < |before.rules| then !before.rules[m].action.ForceDisabled?
                                else !before.strategy.Boolean? && !before.strategy.Percentage?
  {
    hide CanaryStep;
    hide LastNamed;
    hide Evaluate;
    RunKeepsFamily(h, ys, ops, k, i, j);
    var f' := TargetOf(ys[j], ys[j].schedules[k]).value;
    ServedByConfig(g, f', ctx, ViewOf(ys[j], k).cfg);
    ServedAfterRollback(g, ViewOf(ys[i], k).cfg, ViewOf(ys[j], k), ctx);
  }
}
