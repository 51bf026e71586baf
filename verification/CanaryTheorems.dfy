/** Runs of the whole scheduler over its store, seen from one schedule: staged safety and stickiness end to end. */
module CanaryTheorems {
  import opened Domain
  import opened AuditHash
  import opened Flags
  import opened FlagEdits
  import opened Store
  import opened StoreTheorems
  import opened Governance
  import opened Canary
  import opened CanaryViews

  // ----- One store write, seen from one flag -----

  predicate SameNames(f: FeatureFlag, f': FeatureFlag) {
    f'.id == f.id && f'.key == f.key && f'.projectId == f.projectId
  }

  /** A rollout write succeeds on every flag that exists, and reaches only the flag and environment it names. */
  lemma {:induction false} RolloutSeenFrom(
    h: Hasher, s: StoreState, p: string, name: string, env: string, pct: real,
    actor: string, st: Stamp, q: string, qname: string, qenv: string)
    requires FlagsOk(s.flags) && FlagAt(s.flags, q, qname).Some?
    ensures var (s', o) := UpdateRollout(h, s, p, name, env, pct, actor, st);
            var f := FlagAt(s.flags, q, qname).value;
            && FlagsOk(s'.flags) && s'.canaries == s.canaries
            && FlagAt(s'.flags, q, qname).Some? && SameNames(f, FlagAt(s'.flags, q, qname).value)
            && (Named(f, ProjectOrDefault(p), name) ==> o.Ok?)
            && ConfigAt(FlagAt(s'.flags, q, qname).value, qenv) ==
               if Named(f, ProjectOrDefault(p), name) && EnvOrProduction(env) == qenv
               then EditedConfig(ConfigAt(f, qenv), SetRollout(qenv, Clamp(pct))) else ConfigAt(f, qenv)
  {
    hide EditFlag;
    var e, p' := SetRollout(EnvOrProduction(env), Clamp(pct)), ProjectOrDefault(p);
    EditEffect(h, s, p', name, e, ActorOr(actor, "engineer@flagura.dev"), st.loggedAt, st);
    var fs := s.flags.list;
    var k := LastNamedIs(fs, q, qname);
    var fs' := Rewrite(fs, p', name, e, st.now);
    RewriteKeepsTable(fs, p', name, e, st.now);
    OnlyNamed(fs', q, qname, k);
    if Named(fs[k], p', name) {
      OnlyNamed(fs', p', name, k);
    } else {
      assert fs'[k] == fs[k];
    }
  }

  // ----- One schedule among others -----

  function TargetOf(y: System, c: CanarySchedule): Option<FeatureFlag> {
    FlagAt(y.store.flags, c.projectId, c.flagKey)
  }

  // Scheduler and store hold the same schedule under its own key, and its flag exists.
  ghost predicate Rooted(y: System, k: string) {
    && FlagsOk(y.store.flags)
    && k in y.schedules && k in y.store.canaries && Mirror(y.schedules[k], y.store.canaries[k])
    && var c := y.schedules[k];
    && c.projectId != "" && c.environment != "" && ScheduleKey(c.projectId, c.flagKey) == k
    && TargetOf(y, c).Some?
  }

  function ViewOf(y: System, k: string): View
    requires k in y.schedules && TargetOf(y, y.schedules[k]).Some?
  {
    var c := y.schedules[k];
    var f := TargetOf(y, c).value;
    View(c, ConfigAt(f, c.environment), f.key)
  }

  predicate KeyedBy(m: map<string, CanarySchedule>) {
    forall k :: k in m ==> ScheduleKey(m[k].projectId, m[k].flagKey) == k
  }

  // Another schedule that writes to another flag or to another environment.
  predicate Apart(f: FeatureFlag, env: string, c: CanarySchedule) {
    !Named(f, ProjectOrDefault(c.projectId), c.flagKey) || EnvOrProduction(c.environment) != env
  }

  ghost predicate Alone(y: System, k: string)
    requires k in y.schedules && TargetOf(y, y.schedules[k]).Some?
  {
    var c := y.schedules[k];
    var f := TargetOf(y, c).value;
    && (forall k2 :: k2 in y.schedules && k2 != k ==> Apart(f, c.environment, y.schedules[k2]))
    && (forall k2 :: k2 in y.store.canaries && k2 != k ==> Apart(f, c.environment, y.store.canaries[k2]))
  }

  ghost predicate World(y: System, k: string) {
    Rooted(y, k) && Alone(y, k) && KeyedBy(y.schedules) && KeyedBy(y.store.canaries)
  }

  // ----- A write by another schedule, and by this one -----

  predicate SameTarget(c: CanarySchedule, c': CanarySchedule) {
    c'.projectId == c.projectId && c'.flagKey == c.flagKey && c'.environment == c.environment
  }

  // A store whose flags changed, as seen from the flag of schedule k, to the given configuration.
  ghost predicate Rewritten(y: System, k: string, s': StoreState, cfg: EnvConfig)
    requires k in y.schedules && TargetOf(y, y.schedules[k]).Some?
  {
    var c := y.schedules[k];
    && FlagsOk(s'.flags) && s'.canaries == y.store.canaries
    && FlagAt(s'.flags, c.projectId, c.flagKey).Some?
    && SameNames(TargetOf(y, c).value, FlagAt(s'.flags, c.projectId, c.flagKey).value)
    && ConfigAt(FlagAt(s'.flags, c.projectId, c.flagKey).value, c.environment) == cfg
  }

  lemma {:induction false} NoteOther(y: System, k: string, key2: string, c': CanarySchedule, s': StoreState)
    requires World(y, k) && key2 != k && ScheduleKey(c'.projectId, c'.flagKey) == key2
    requires Apart(TargetOf(y, y.schedules[k]).value, y.schedules[k].environment, c')
    requires Rewritten(y, k, s', ViewOf(y, k).cfg)
    ensures var y' := System(y.schedules[key2 := c'], s'); World(y', k) && ViewOf(y', k) == ViewOf(y, k)
    ensures SameNames(TargetOf(y, y.schedules[k]).value,
                      FlagAt(s'.flags, y.schedules[k].projectId, y.schedules[k].flagKey).value)
  {
    hide FlagsOk;
    hide LastNamed;
  }

  lemma {:induction false} SaveOther(y: System, k: string, c': CanarySchedule, savedAt: int)
    requires World(y, k) && ScheduleKey(c'.projectId, c'.flagKey) != k
    requires Apart(TargetOf(y, y.schedules[k]).value, y.schedules[k].environment, c')
    ensures var y' := y.(store := SaveCanary(y.store, c', savedAt)); World(y', k) && ViewOf(y', k) == ViewOf(y, k)
  {
    hide FlagsOk;
    hide LastNamed;
  }

  lemma {:induction false} PersistOther(
    y: System, k: string, key2: string, c': CanarySchedule, s': StoreState, savedAt: int)
    requires World(y, k) && key2 != k && ScheduleKey(c'.projectId, c'.flagKey) == key2
    requires Apart(TargetOf(y, y.schedules[k]).value, y.schedules[k].environment, c')
    requires Rewritten(y, k, s', ViewOf(y, k).cfg)
    ensures var y' := Persist(y, key2, c', s', savedAt); World(y', k) && ViewOf(y', k) == ViewOf(y, k)
    ensures var y' := System(y.schedules[key2 := c'], s'); World(y', k) && ViewOf(y', k) == ViewOf(y, k)
  {
    NoteOther(y, k, key2, c', s');
    hide World;
    hide LastNamed;
    SaveOther(System(y.schedules[key2 := c'], s'), k, c', savedAt);
  }

  lemma {:induction false} PersistOwn(
    y: System, k: string, c': CanarySchedule, s': StoreState, cfg: EnvConfig, savedAt: int)
    requires World(y, k) && SameTarget(y.schedules[k], c') && c'.createdAt != ZERO_TIME
    requires Rewritten(y, k, s', cfg)
    ensures var y' := Persist(y, k, c', s', savedAt);
            World(y', k) && ViewOf(y', k) == ViewOf(y, k).(c := c', cfg := cfg)
  {
    hide FlagsOk;
    hide LastNamed;
  }

  lemma {:induction false} Unwritten(y: System, k: string)
    requires World(y, k)
    ensures Rewritten(y, k, y.store, ViewOf(y, k).cfg)
  {
  }

  /** Another schedule's write leaves this schedule, its stored copy and its configuration as they were. */
  lemma {:induction false} OtherWrite(
    h: Hasher, y: System, k: string, key2: string, c: CanarySchedule, c': CanarySchedule,
    pct: real, actor: string, rd: Reading)
    requires World(y, k) && key2 != k && ScheduleKey(c.projectId, c.flagKey) == key2
    requires Apart(TargetOf(y, y.schedules[k]).value, y.schedules[k].environment, c) && SameTarget(c, c')
    ensures var s' := UpdateRollout(h, y.store, c.projectId, c.flagKey, c.environment, pct, actor, rd.st).0;
            var y' := Persist(y, key2, c', s', rd.savedAt);
            World(y', k) && ViewOf(y', k) == ViewOf(y, k)
  {
    hide UpdateRollout;
    var me := y.schedules[k];
    var s' := UpdateRollout(h, y.store, c.projectId, c.flagKey, c.environment, pct, actor, rd.st).0;
    RolloutSeenFrom(h, y.store, c.projectId, c.flagKey, c.environment, pct, actor, rd.st, me.projectId, me.flagKey,
                    me.environment);
    PersistOther(y, k, key2, c', s', rd.savedAt);
  }

  // The same without a store write: a save, or only the in-memory entry.
  lemma {:induction false} OtherSave(y: System, k: string, key2: string, c': CanarySchedule, savedAt: int)
    requires World(y, k) && key2 != k && key2 in y.schedules && SameTarget(y.schedules[key2], c')
    ensures var y' := Persist(y, key2, c', y.store, savedAt); World(y', k) && ViewOf(y', k) == ViewOf(y, k)
    ensures var y' := y.(schedules := y.schedules[key2 := c']); World(y', k) && ViewOf(y', k) == ViewOf(y, k)
  {
    assert Apart(TargetOf(y, y.schedules[k]).value, y.schedules[k].environment, y.schedules[key2]);
    Unwritten(y, k);
    PersistOther(y, k, key2, c', y.store, savedAt);
  }

  lemma {:induction false} CommitKeepsTarget(c: CanarySchedule, now: int)
    ensures var c' := Commit(c, now);
            SameTarget(c, c') && c'.createdAt == c.createdAt
  {
  }

  lemma {:induction false} OtherTick(h: Hasher, y: System, k: string, key2: string, now: int, rd: Reading)
    requires World(y, k) && key2 != k
    ensures var y' := TickOne(h, y, key2, now, rd).0; World(y', k) && ViewOf(y', k) == ViewOf(y, k)
  {
    hide UpdateRollout;
    hide Commit;
    hide FlagsOk;
    if key2 in y.schedules && y.schedules[key2].status.Active? {
      var c := y.schedules[key2].(lastEvaluatedAt := now);
      assert Apart(TargetOf(y, y.schedules[k]).value, y.schedules[k].environment, y.schedules[key2]);
      CommitKeepsTarget(c, now);
      match CanAdvanceStage(c, now)
      case Stay => OtherSave(y, k, key2, c, 0);
      case Complete => OtherSave(y, k, key2, Commit(c, now), rd.savedAt);
      case Next(stage) =>
        var failed := c.(status := NeedsAttention, rollbackReason := "stage advancement failed to persist",
                         updatedAt := now);
        OtherWrite(h, y, k, key2, c, failed, stage.target, AUTO_ACTOR, rd);
        OtherWrite(h, y, k, key2, c, Commit(c, now), stage.target, AUTO_ACTOR, rd);
    }
  }

  /** This schedule's own write changes the schedule, its stored copy and its configuration together. */
  lemma {:induction false} OwnWrite(
    h: Hasher, y: System, k: string, c': CanarySchedule, pct: real, actor: string, rd: Reading)
    requires World(y, k) && SameTarget(y.schedules[k], c') && c'.createdAt != ZERO_TIME
    ensures var c := y.schedules[k];
            var (s', o) := UpdateRollout(h, y.store, c.projectId, c.flagKey, c.environment, pct, actor, rd.st);
            var y' := Persist(y, k, c', s', rd.savedAt);
            o.Ok? && World(y', k) && ViewOf(y', k) == ViewOf(y, k).(c := c', cfg := Rolled(ViewOf(y, k).cfg, c, pct))
  {
    hide UpdateRollout;
    var c := y.schedules[k];
    var m := LastNamedIs(y.store.flags.list, c.projectId, c.flagKey);
    var s' := UpdateRollout(h, y.store, c.projectId, c.flagKey, c.environment, pct, actor, rd.st).0;
    RolloutSeenFrom(h, y.store, c.projectId, c.flagKey, c.environment, pct, actor, rd.st, c.projectId, c.flagKey,
                    c.environment);
    PersistOwn(y, k, c', s', Rolled(ViewOf(y, k).cfg, c, pct), rd.savedAt);
  }

  lemma {:induction false} OwnSave(y: System, k: string, c': CanarySchedule, savedAt: int)
    requires World(y, k) && SameTarget(y.schedules[k], c') && c'.createdAt != ZERO_TIME
    ensures var y' := Persist(y, k, c', y.store, savedAt); World(y', k) && ViewOf(y', k) == ViewOf(y, k).(c := c')
    ensures Mirror(c', y.schedules[k]) ==>
            var y' := y.(schedules := y.schedules[k := c']); World(y', k) && ViewOf(y', k) == ViewOf(y, k).(c := c')
  {
    hide FlagsOk;
    Unwritten(y, k);
    PersistOwn(y, k, c', y.store, ViewOf(y, k).cfg, savedAt);
  }

  lemma {:induction false} OwnTick(h: Hasher, y: System, k: string, now: int, rd: Reading)
    requires World(y, k) && y.schedules[k].createdAt != ZERO_TIME
    ensures var y' := TickOne(h, y, k, now, rd).0; World(y', k) && ViewOf(y', k) == TickView(ViewOf(y, k), now)
  {
    hide UpdateRollout;
    hide Commit;
    hide FlagsOk;
    if y.schedules[k].status.Active? {
      var c := y.schedules[k].(lastEvaluatedAt := now);
      CommitKeepsTarget(c, now);
      match CanAdvanceStage(c, now)
      case Stay => OwnSave(y, k, c, 0);
      case Complete => OwnSave(y, k, Commit(c, now), rd.savedAt);
      case Next(stage) => OwnWrite(h, y, k, Commit(c, now), stage.target, AUTO_ACTOR, rd);
    }
  }

  lemma {:induction false} SyncKeepsWorld(y: System, k: string)
    requires World(y, k)
    ensures var y' := Synced(y);
            World(y', k) && Mirror(y'.schedules[k], y.schedules[k]) &&
                ViewOf(y', k) == ViewOf(y, k).(c := y'.schedules[k])
  {
    hide FlagsOk;
  }

  predicate NoRepeat(order: seq<string>) {
    forall i, j :: 0 <= i < j < |order| ==> order[i] != order[j]
  }

  lemma {:induction false} TickAllSeen(
    h: Hasher, y: System, order: seq<string>, now: int, rds: seq<Reading>, n: nat, k: string)
    requires World(y, k) && y.schedules[k].createdAt != ZERO_TIME && NoRepeat(order) && n <= |order| == |rds|
    ensures var y' := TickAll(h, y, order, now, rds, n).0;
            World(y', k) && ViewOf(y', k) == if k in order[..n] then TickView(ViewOf(y, k), now) else ViewOf(y, k)
  {
    hide World;
    hide ViewOf;
    hide TickOne;
    hide TickView;
    if n > 0 {
      TickAllSeen(h, y, order, now, rds, n - 1, k);
      var y1 := TickAll(h, y, order, now, rds, n - 1).0;
      var key := order[n - 1];
      assert order[..n] == order[..n - 1] + [key];
      if key == k {
        forall i | 0 <= i < n - 1 ensures order[i] != k {
        }
        assert k !in order[..n - 1];
        SameSchedule(y, y1, k);
        OwnTick(h, y1, k, now, rds[n - 1]);
      } else {
        OtherTick(h, y1, k, key, now, rds[n - 1]);
      }
    }
  }

  lemma {:induction false} SameSchedule(y: System, y1: System, k: string)
    requires World(y, k) && World(y1, k) && ViewOf(y1, k) == ViewOf(y, k)
    ensures y1.schedules[k] == y.schedules[k]
  {
  }

  // ----- Operations and runs -----

  datatype CanaryOp =
    | Submit(sched: CanarySchedule, newId: string, now: int, rd: Reading)
    | Tick(order: seq<string>, now: int, rds: seq<Reading>)
    | Rollback(project: string, flagKey: string, reason: string, now: int, rd: Reading)
    | Cancel(project: string, flagKey: string)
    | Get(project: string, flagKey: string)

  function CanaryStep(h: Hasher, y: System, op: CanaryOp): System {
    match op
    case Submit(sched, newId, now, rd) => SubmitSchedule(h, y, sched, newId, now, rd).0
    case Tick(order, now, rds) => if |order| == |rds| then EvaluateSchedules(h, y, order, now, rds).0 else y
    case Rollback(p, flagKey, reason, now, rd) => HealthRollback(h, y, p, flagKey, reason, now, rd).0
    case Cancel(p, flagKey) => CancelSchedule(y, p, flagKey).0
    case Get(p, flagKey) => GetSchedule(y, p, flagKey).0
  }

  // The operation is not a submit or a cancel of this very schedule, and a tick visits no schedule twice.
  predicate Proper(op: CanaryOp, k: string) {
    match op
    case Submit(sched, _, _, _) => ScheduleKey(sched.projectId, sched.flagKey) != k
    case Tick(order, _, _) => NoRepeat(order)
    case Rollback(_, _, _, _, _) => true
    case Cancel(p, flagKey) => ScheduleKey(p, flagKey) != k
    case Get(_, _) => true
  }

  function CauseOf(op: CanaryOp, k: string): Cause {
    match op
    case Tick(order, now, rds) => if k in order && |order| == |rds| then Ticked(now) else Quiet
    case Rollback(p, flagKey, reason, _, _) => if ScheduleKey(p, flagKey) == k then RolledBackBy(reason) else Quiet
    case _ => Quiet
  }

  lemma {:induction false} OwnRollback(
    h: Hasher, y: System, k: string, p: string, flagKey: string, reason: string, now: int, rd: Reading)
    requires World(y, k) && y.schedules[k].createdAt != ZERO_TIME && ScheduleKey(p, flagKey) == k
    ensures var y' := HealthRollback(h, y, p, flagKey, reason, now, rd).0;
            World(y', k) && Moves(ViewOf(y, k), RolledBackBy(reason), ViewOf(y', k))
  {
    hide UpdateRollout;
    hide Persist;
    var c := y.schedules[k];
    OwnWrite(h, y, k, c.(status := RolledBack, rollbackReason := reason, updatedAt := now), 0.0, ROLLBACK_ACTOR, rd);
  }

  lemma {:induction false} OtherRollback(
    h: Hasher, y: System, k: string, p: string, flagKey: string, reason: string, now: int, rd: Reading)
    requires World(y, k) && ScheduleKey(p, flagKey) != k
    ensures var y' := HealthRollback(h, y, p, flagKey, reason, now, rd).0;
            World(y', k) && ViewOf(y', k) == ViewOf(y, k)
  {
    hide UpdateRollout;
    hide Persist;
    hide LastNamed;
    hide FlagsOk;
    var key := ScheduleKey(p, flagKey);
    match Known(y, key)
    case None =>
    case Some(c) =>
      var failed := c.(status := NeedsAttention, rollbackReason := "rollback failed to persist", updatedAt := now);
      OtherWrite(h, y, k, key, c, failed, 0.0, ROLLBACK_ACTOR, rd);
      OtherWrite(h, y, k, key, c, c.(status := RolledBack, rollbackReason := reason, updatedAt := now), 0.0,
                 ROLLBACK_ACTOR, rd);
  }

  lemma {:induction false} SubmitSeen(
    h: Hasher, y: System, k: string, sched: CanarySchedule, newId: string, now: int, rd: Reading)
    requires World(y, k) && ScheduleKey(sched.projectId, sched.flagKey) != k
    requires sched.stages != [] ==>
              Apart(TargetOf(y, y.schedules[k]).value, y.schedules[k].environment, Started(sched, newId, now))
    ensures var y' := SubmitSchedule(h, y, sched, newId, now, rd).0; World(y', k) && ViewOf(y', k) == ViewOf(y, k)
  {
    hide UpdateRollout;
    hide FlagsOk;
    if sched.stages != [] {
      var c := Started(sched, newId, now);
      OtherWrite(h, y, k, ScheduleKey(c.projectId, c.flagKey), c, c, c.stages[0].target, AUTO_ACTOR, rd);
    }
  }

  lemma {:induction false} CancelSeen(y: System, k: string, p: string, flagKey: string)
    requires World(y, k) && ScheduleKey(p, flagKey) != k
    ensures var y' := CancelSchedule(y, p, flagKey).0; World(y', k) && ViewOf(y', k) == ViewOf(y, k)
  {
    hide FlagsOk;
    hide LastNamed;
  }

  lemma {:induction false} GetSeen(y: System, k: string, p: string, flagKey: string)
    requires World(y, k)
    ensures var y' := GetSchedule(y, p, flagKey).0; World(y', k) && ViewOf(y', k) == ViewOf(y, k)
  {
    hide FlagsOk;
    hide LastNamed;
    var key := ScheduleKey(p, flagKey);
    if key in y.schedules || key !in y.store.canaries {
      SameSystem(y, p, flagKey);
    } else {
      Unwritten(y, k);
      NoteOther(y, k, key, y.store.canaries[key], y.store);
    }
  }

  lemma {:induction false} SameSystem(y: System, p: string, flagKey: string)
    requires ScheduleKey(p, flagKey) in y.schedules || ScheduleKey(p, flagKey) !in y.store.canaries
    ensures GetSchedule(y, p, flagKey).0 == y
  {
    var key := ScheduleKey(p, flagKey);
    assert key in y.schedules ==> y.schedules == y.schedules[key := y.schedules[key]];
  }

  // A newly submitted schedule does not write where this one does.
  ghost predicate SubmitsApart(y: System, op: CanaryOp, k: string)
    requires k in y.schedules && TargetOf(y, y.schedules[k]).Some?
  {
    op.Submit? && op.sched.stages != [] ==>
      Apart(TargetOf(y, y.schedules[k]).value, y.schedules[k].environment, Started(op.sched, op.newId, op.now))
  }

  /** Every scheduler operation, on whatever schedule, is one move of this schedule's view. */
  lemma {:induction false} StepSeen(h: Hasher, y: System, op: CanaryOp, k: string)
    requires World(y, k) && y.schedules[k].createdAt != ZERO_TIME && Proper(op, k) && SubmitsApart(y, op, k)
    ensures var y' := CanaryStep(h, y, op);
            World(y', k) && Moves(ViewOf(y, k), CauseOf(op, k), ViewOf(y', k)) && y'.schedules[k].createdAt != ZERO_TIME
  {
    hide SubmitSchedule;
    hide HealthRollback;
    hide CancelSchedule;
    hide GetSchedule;
    hide EvaluateSchedules;
    hide FlagsOk;
    hide LastNamed;
    match op
    case Submit(sched, newId, now, rd) => SubmitSeen(h, y, k, sched, newId, now, rd);
    case Rollback(p, flagKey, reason, now, rd) =>
      if ScheduleKey(p, flagKey) == k {
        OwnRollback(h, y, k, p, flagKey, reason, now, rd);
      } else {
        OtherRollback(h, y, k, p, flagKey, reason, now, rd);
      }
    case Cancel(p, flagKey) => CancelSeen(y, k, p, flagKey);
    case Get(p, flagKey) => GetSeen(y, k, p, flagKey);
    case Tick(order, now, rds) => TickSeen(h, y, order, now, rds, k);
  }

  lemma {:induction false} TickSeen(h: Hasher, y: System, order: seq<string>, now: int, rds: seq<Reading>, k: string)
    requires World(y, k) && y.schedules[k].createdAt != ZERO_TIME && NoRepeat(order)
    ensures var op := Tick(order, now, rds); var y' := CanaryStep(h, y, op);
            World(y', k) && Moves(ViewOf(y, k), CauseOf(op, k), ViewOf(y', k)) && y'.schedules[k].createdAt != ZERO_TIME
  {
    hide TickAll;
    hide Synced;
    hide FlagsOk;
    hide LastNamed;
    hide Commit;
    if |order| == |rds| {
      var y1 := Synced(y);
      SyncKeepsWorld(y, k);
      TickAllSeen(h, y1, order, now, rds, |order|, k);
      assert order[..|order|] == order;
      CommitKeepsTarget(y1.schedules[k].(lastEvaluatedAt := now), now);
      assert ViewOf(CanaryStep(h, y, Tick(order, now, rds)), k).c.createdAt == y1.schedules[k].createdAt;
    }
  }
}
