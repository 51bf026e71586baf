/**
  Progressive rollouts: the schedule's own steps and the scheduler's (pkg/domain/canary.go,
  pkg/canary/scheduler.go).
 */
module Canary {
  import opened Domain
  import opened AuditHash
  import opened FlagEdits
  import opened Store

  // ----- CanarySchedule -----

  datatype Advance = Stay | Complete | Next(stage: CanaryStage)

  function CanAdvanceStage(c: CanarySchedule, now: int): Advance {
    if !c.status.Active? || c.stageIdx >= |c.stages| then Stay
    else if now - c.stages[c.stageIdx].startedAt < c.stages[c.stageIdx].duration * SECOND then Stay
    else if c.stageIdx + 1 >= |c.stages| then Complete
    else Next(c.stages[c.stageIdx + 1])
  }

  function Commit(c: CanarySchedule, now: int): CanarySchedule {
    if c.stageIdx >= |c.stages| then c
    else
      var i := c.stageIdx;
      var done := c.stages[i := c.stages[i].(completedAt := now)];
      var c' := c.(stageIdx := i + 1, updatedAt := now);
      if i + 1 >= |c.stages| then c'.(stages := done, status := Completed)
      else c'.(stages := done[i + 1 := done[i + 1].(startedAt := now)])
  }

  // ----- CanaryScheduler -----

  datatype System = System(schedules: map<string, CanarySchedule>, store: StoreState)

  // What one store write reads from its surroundings.
  datatype Reading = Reading(st: Stamp, savedAt: int)

  const AUTO_ACTOR := "canary-scheduler-auto"
  const ROLLBACK_ACTOR := "canary-health-rollback"

  function Persist(y: System, key: string, c: CanarySchedule, store: StoreState, savedAt: int): System {
    System(y.schedules[key := c], SaveCanary(store, c, savedAt))
  }

  function Started(sched: CanarySchedule, newId: string, now: int): CanarySchedule
    requires sched.stages != []
  {
    sched.(id := if sched.id == "" then newId else sched.id,
           projectId := ProjectOrDefault(sched.projectId),
           environment := EnvOrProduction(sched.environment),
           status := Active,
           stageIdx := 0,
           createdAt := now,
           updatedAt := now,
           lastEvaluatedAt := now,
           stages := sched.stages[0 := sched.stages[0].(startedAt := now)])
  }

  function SubmitSchedule(
    h: Hasher, y: System, sched: CanarySchedule, newId: string, now: int, rd: Reading): (System, Outcome)
  {
    if sched.stages == [] then (y, Err(NoStages))
    else
      var c := Started(sched, newId, now);
      var key := ScheduleKey(c.projectId, c.flagKey);
      var (s', o) := UpdateRollout(h, y.store, c.projectId, c.flagKey, c.environment, c.stages[0].target, AUTO_ACTOR,
                                   rd.st);
      if o.Err? then (y.(schedules := y.schedules[key := c]), o)
      else (Persist(y, key, c, s', rd.savedAt), Ok)
  }

  // Schedules that the store holds as active and that are unknown here or newer there.
  function Synced(y: System): System {
    y.(schedules := map k | k in y.schedules.Keys + y.store.canaries.Keys &&
         (k in y.schedules || y.store.canaries[k].status.Active?) ::
      if k in y.store.canaries && y.store.canaries[k].status.Active?
         && (k !in y.schedules || y.store.canaries[k].updatedAt > y.schedules[k].updatedAt)
      then y.store.canaries[k] else y.schedules[k])
  }

  function TickOne(h: Hasher, y: System, key: string, now: int, rd: Reading): (System, bool) {
    if key !in y.schedules || !y.schedules[key].status.Active? then (y, false)
    else
      var c := y.schedules[key].(lastEvaluatedAt := now);
      match CanAdvanceStage(c, now)
      case Stay => (y.(schedules := y.schedules[key := c]), false)
      case Complete => (Persist(y, key, Commit(c, now), y.store, rd.savedAt), false)
      case Next(stage) =>
        var (s', o) := UpdateRollout(h, y.store, c.projectId, c.flagKey, c.environment, stage.target, AUTO_ACTOR,
                                     rd.st);
        if o.Err? then
          var failed := c.(status := NeedsAttention, rollbackReason := "stage advancement failed to persist",
                           updatedAt := now);
          (Persist(y, key, failed, s', rd.savedAt), false)
        else (Persist(y, key, Commit(c, now), s', rd.savedAt), true)
  }

  // The loop over the schedules, in the order in which the map happens to be walked.
  function TickAll(h: Hasher, y: System, order: seq<string>, now: int, rds: seq<Reading>, n: nat): (System, nat)
    requires n <= |order| == |rds|
  {
    if n == 0 then (y, 0)
    else
      var (y1, count) := TickAll(h, y, order, now, rds, n - 1);
      var (y2, advanced) := TickOne(h, y1, order[n - 1], now, rds[n - 1]);
      (y2, if advanced then count + 1 else count)
  }

  function EvaluateSchedules(h: Hasher, y: System, order: seq<string>, now: int, rds: seq<Reading>): (System, nat)
    requires |order| == |rds|
  {
    TickAll(h, Synced(y), order, now, rds, |order|)
  }

  function Known(y: System, key: string): Option<CanarySchedule> {
    if key in y.schedules then Some(y.schedules[key])
    else if key in y.store.canaries then Some(y.store.canaries[key])
    else None
  }

  // Looking a schedule up takes it into memory, whatever its status, if only the store has it.
  function GetSchedule(y: System, p: string, flagKey: string): (System, Option<CanarySchedule>) {
    var key := ScheduleKey(p, flagKey);
    match Known(y, key)
    case None => (y, None)
    case Some(c) => (y.(schedules := y.schedules[key := c]), Some(c))
  }

  function HealthRollback(
    h: Hasher, y: System, p: string, flagKey: string, reason: string, now: int, rd: Reading): (System, Outcome)
  {
    var key := ScheduleKey(p, flagKey);
    match Known(y, key)
    case None => (y, Err(NoSchedule))
    case Some(c) =>
      var (s', o) := UpdateRollout(h, y.store, c.projectId, c.flagKey, c.environment, 0.0, ROLLBACK_ACTOR, rd.st);
      if o.Err? then
        var failed := c.(status := NeedsAttention, rollbackReason := "rollback failed to persist", updatedAt := now);
        (Persist(y, key, failed, s', rd.savedAt), o)
      else (Persist(y, key, c.(status := RolledBack, rollbackReason := reason, updatedAt := now), s', rd.savedAt), Ok)
  }

  function CancelSchedule(y: System, p: string, flagKey: string): (System, bool) {
    var key := ScheduleKey(p, flagKey);
    (System(y.schedules - {key}, y.store.(canaries := y.store.canaries - {key})),
     key in y.schedules || key in y.store.canaries)
  }
}
