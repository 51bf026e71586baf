/** One schedule and the configuration it drives: what a tick or a rollback does to the pair, and what that keeps. */
module CanaryViews {
  import opened Domain
  import opened FlagEdits
  import opened Canary
  import opened Evaluator

  // A schedule, the stored configuration of its flag in its environment, and the flag's key.
  datatype View = View(c: CanarySchedule, cfg: EnvConfig, key: string)

  // Equal but for the two bookkeeping times that the store keeps to itself.
  predicate Mirror(a: CanarySchedule, b: CanarySchedule) {
    a == b.(updatedAt := a.updatedAt, lastEvaluatedAt := a.lastEvaluatedAt)
  }

  function Rolled(cfg: EnvConfig, c: CanarySchedule, pct: real): EnvConfig {
    EditedConfig(cfg, SetRollout(c.environment, Clamp(pct)))
  }

  function TickView(v: View, now: int): View {
    if !v.c.status.Active? then v
    else
      var c := v.c.(lastEvaluatedAt := now);
      match CanAdvanceStage(c, now)
      case Stay => v.(c := c)
      case Complete => v.(c := Commit(c, now))
      case Next(stage) => v.(c := Commit(c, now), cfg := Rolled(v.cfg, c, stage.target))
  }

  // What one scheduler operation may do to a view.
  datatype Cause = Quiet | Ticked(now: int) | RolledBackBy(reason: string)

  ghost predicate Moves(v: View, cause: Cause, v': View) {
    match cause
    case Quiet => v' == v.(c := v'.c) && Mirror(v'.c, v.c)
    case Ticked(now) => exists c :: Mirror(c, v.c) && v' == TickView(v.(c := c), now)
    case RolledBackBy(reason) =>
      && v' == v.(c := v'.c, cfg := Rolled(v.cfg, v.c, 0.0))
      && Mirror(v'.c, v.c.(status := RolledBack, rollbackReason := reason))
  }

  // ----- The invariant -----

  /** Write before advance: what the store serves is what the schedule says it serves. */
  predicate PercentageOk(c: CanarySchedule, cfg: EnvConfig) {
    match c.status
    case Active => c.stageIdx < |c.stages| && cfg.percentage == Clamp(c.stages[c.stageIdx].target)
    case Completed => 0 < c.stageIdx == |c.stages| && cfg.percentage == Clamp(c.stages[|c.stages| - 1].target)
    case RolledBack => c.stageIdx <= |c.stages| && cfg.percentage == 0.0
    case _ => false
  }

  /** Each finished stage lasted at least its duration, and the next began when it ended. */
  ghost predicate TimingOk(c: CanarySchedule) {
    && c.stageIdx <= |c.stages| && c.stages != [] && c.stages[0].startedAt == c.createdAt
    && (forall j :: 0 <= j < c.stageIdx ==>
          c.stages[j].completedAt - c.stages[j].startedAt >= c.stages[j].duration * SECOND)
    && (forall i, j :: 0 <= i && j == i + 1 && j <= c.stageIdx && j < |c.stages| ==>
          c.stages[j].startedAt == c.stages[i].completedAt)
  }

  ghost predicate Driven(v: View) {
    && PercentageOk(v.c, v.cfg) && TimingOk(v.c)
    && (v.cfg.strategy.Boolean? ==> v.cfg.percentage == 100.0)
  }

  lemma {:induction false} CommitTiming(c: CanarySchedule, now: int)
    requires TimingOk(c) && !CanAdvanceStage(c, now).Stay?
    ensures TimingOk(Commit(c, now)) && Commit(c, now).stageIdx == c.stageIdx + 1
    ensures |Commit(c, now).stages| == |c.stages|
    ensures forall j :: 0 <= j < |c.stages| ==> Commit(c, now).stages[j].target == c.stages[j].target
    ensures Commit(c, now).status == if CanAdvanceStage(c, now).Complete? then Completed else Active
  {
  }

  // The schedule is active and its stage has lasted its time.
  predicate Due(c: CanarySchedule, now: int) {
    && c.status.Active? && c.stageIdx < |c.stages|
    && now - c.stages[c.stageIdx].startedAt >= c.stages[c.stageIdx].duration * SECOND
  }

  /**
    Moves a schedule that is due, and no other, to its next stage or to its end. A stage that is reported
    is the one the schedule now stands at: it began when its predecessor ended and, if it is to last at
    all, is not over at once.
   */
  method NextStage(c: CanarySchedule, now: int) returns (c': CanarySchedule, moved: Option<CanaryStage>)
    ensures c'.stageIdx == c.stageIdx + (if Due(c, now) then 1 else 0)
    ensures !Due(c, now) ==> c' == c
    ensures |c'.stages| == |c.stages| && (moved.Some? <==> c'.stageIdx > c.stageIdx && c'.status.Active?)
    ensures moved.Some? ==>
              && 0 < c'.stageIdx < |c'.stages| && moved.value == c'.stages[c'.stageIdx]
              && moved.value.startedAt == c'.stages[c'.stageIdx - 1].completedAt == now
              && moved.value == c.stages[c'.stageIdx].(startedAt := now)
              && (moved.value.duration > 0 ==> !Due(c', now))
    ensures c'.status.Completed? && !c.status.Completed? ==> c'.stageIdx == |c'.stages|
    ensures TimingOk(c) ==> TimingOk(c')
  {
    match CanAdvanceStage(c, now)
    case Stay => return c, None;
    case Complete => return Commit(c, now), None;
    case Next(_) =>
      c' := Commit(c, now);
      return c', Some(c'.stages[c'.stageIdx]);
  }

  lemma {:induction false} TickKeepsDriven(v: View, now: int)
    requires Driven(v)
    ensures Driven(TickView(v, now))
  {
    var c := v.c.(lastEvaluatedAt := now);
    if v.c.status.Active? && !CanAdvanceStage(c, now).Stay? {
      CommitTiming(c, now);
    }
  }

  /** Whatever the cause, the invariant survives. */
  lemma {:induction false} MoveKeepsDriven(v: View, cause: Cause, v': View)
    requires Driven(v) && Moves(v, cause, v')
    ensures Driven(v')
  {
    match cause
    case Quiet =>
    case Ticked(now) =>
      var c :| Mirror(c, v.c) && v' == TickView(v.(c := c), now);
      TickKeepsDriven(v.(c := c), now);
    case RolledBackBy(reason) =>
      var t := v.c.(status := RolledBack, rollbackReason := reason);
      assert TimingOk(t);
  }

  /** A tick moves a schedule by at most one stage, never backwards, and not at all unless it is active. */
  lemma {:induction false} TickMovesOneStage(v: View, now: int, v': View)
    requires Driven(v) && Moves(v, Ticked(now), v')
    ensures v.c.stageIdx <= v'.c.stageIdx <= v.c.stageIdx + 1
    ensures v'.c.stageIdx == v.c.stageIdx + 1 <==>
            v.c.status.Active? && now - v.c.stages[v.c.stageIdx].startedAt >= v.c.stages[v.c.stageIdx].duration * SECOND
    ensures !v.c.status.Active? ==> Mirror(v'.c, v.c) && v'.cfg == v.cfg
    ensures v'.c.stageIdx == v.c.stageIdx ==> v'.c.status == v.c.status && v'.c.stages == v.c.stages && v'.cfg == v.cfg
  {
    var c :| Mirror(c, v.c) && v' == TickView(v.(c := c), now);
    var c1 := c.(lastEvaluatedAt := now);
    if c1.status.Active? && !CanAdvanceStage(c1, now).Stay? {
      CommitTiming(c1, now);
    }
  }

  // ----- Timing -----

  function Durations(stages: seq<CanaryStage>, n: nat): int
    requires n <= |stages|
  {
    if n == 0 then 0 else Durations(stages, n - 1) + stages[n - 1].duration
  }

  /** A stage never starts, nor the last one end, before all the durations ahead of it have passed. */
  lemma {:induction false} StageStartsLate(c: CanarySchedule, k: nat)
    requires TimingOk(c) && k <= c.stageIdx
    ensures k < |c.stages| ==> c.stages[k].startedAt >= c.createdAt + Durations(c.stages, k) * SECOND
    ensures k > 0 ==> c.stages[k - 1].completedAt >= c.createdAt + Durations(c.stages, k) * SECOND
  {
    if k > 0 {
      StageStartsLate(c, k - 1);
      assert c.stages[k - 1].completedAt - c.stages[k - 1].startedAt >= c.stages[k - 1].duration * SECOND;
    }
  }

  // ----- Who is served -----

  predicate Rising(stages: seq<CanaryStage>) {
    forall i, j :: 0 <= i <= j < |stages| ==> stages[i].target <= stages[j].target
  }

  // The part of a configuration that decides who is served, ordered by how many it serves.
  predicate Wider(a: EnvConfig, b: EnvConfig) {
    && b.enabled == a.enabled && b.rules == a.rules
    && (b.strategy == a.strategy || (a.strategy.Boolean? && b.strategy.Percentage?))
    && (b.strategy.Percentage? ==>
          if a.strategy.Percentage? then a.percentage <= b.percentage else b.percentage >= 100.0)
  }

  lemma {:induction false} WiderServesMore(g: Engine, a: EnvConfig, b: EnvConfig, key: string, ctx: Context)
    requires Wider(a, b) && Enabled(g, a, key, ctx)
    ensures Enabled(g, b, key, ctx)
  {
    assert StickyBucket(g, Identifier(ctx), key) < 100.0;
  }

  lemma {:induction false} WiderTransitive(a: EnvConfig, b: EnvConfig, c: EnvConfig)
    requires Wider(a, b) && Wider(b, c)
    ensures Wider(a, c)
  {
  }

  predicate SameStages(a: seq<CanaryStage>, b: seq<CanaryStage>) {
    |a| == |b| && forall i :: 0 <= i < |a| ==> a[i].target == b[i].target && a[i].duration == b[i].duration
  }

  lemma {:induction false} TickWidens(v: View, now: int)
    requires Driven(v) && Rising(v.c.stages)
    ensures var v' := TickView(v, now);
            Wider(v.cfg, v'.cfg) && SameStages(v.c.stages, v'.c.stages) && v'.key == v.key
  {
    var c := v.c.(lastEvaluatedAt := now);
    if c.status.Active? && !CanAdvanceStage(c, now).Stay? {
      assert SameStages(c.stages, Commit(c, now).stages);
      hide Commit;
      assert CanAdvanceStage(c, now).Next? ==> c.stages[c.stageIdx].target <= CanAdvanceStage(c, now).stage.target;
    }
  }

  /** With rising targets a move that is not a rollback only widens, and keeps the targets. */
  lemma {:induction false} MoveWidens(v: View, cause: Cause, v': View)
    requires Driven(v) && Moves(v, cause, v') && !cause.RolledBackBy? && Rising(v.c.stages)
    ensures Wider(v.cfg, v'.cfg) && SameStages(v.c.stages, v'.c.stages) && v'.key == v.key
  {
    hide TickView;
    if cause.Ticked? {
      var c :| Mirror(c, v.c) && v' == TickView(v.(c := c), cause.now);
      TickWidens(v.(c := c), cause.now);
    }
  }

  lemma {:induction false} SameStagesRise(a: seq<CanaryStage>, b: seq<CanaryStage>)
    requires SameStages(a, b) && Rising(a)
    ensures Rising(b)
  {
  }

  // What no scheduler operation ever changes.
  predicate SameFamily(a: EnvConfig, b: EnvConfig) {
    && b.enabled == a.enabled && b.rules == a.rules
    && (b.strategy == a.strategy || (a.strategy.Boolean? && b.strategy.Percentage?))
  }

  lemma {:induction false} MoveKeepsFamily(v: View, cause: Cause, v': View)
    requires Moves(v, cause, v')
    ensures SameFamily(v.cfg, v'.cfg) && v'.key == v.key
    ensures v.c.status.RolledBack? ==> v'.c.status.RolledBack?
    ensures v'.c.environment == v.c.environment
  {
  }

  /**
    Who is still served after a rollback, in terms of the configuration before it: those for whom the
    first matching rule enables the flag, and, unless the strategy was boolean or percentage, all others.
   */
  lemma {:induction false} ServedAfterRollback(g: Engine, before: EnvConfig, v: View, ctx: Context)
    requires Driven(v) && v.c.status.RolledBack? && SameFamily(before, v.cfg)
    ensures var m := FirstMatch(g, before.rules, ctx);
            Enabled(g, v.cfg, v.key, ctx) <==>
              before.enabled && if m < |before.rules| then !before.rules[m].action.ForceDisabled?
                                else !before.strategy.Boolean? && !before.strategy.Percentage?
  {
    assert StickyBucket(g, Identifier(ctx), v.key) >= 0.0;
  }
}
