/** The scheduler object over a store object (pkg/canary/scheduler.go). */
module CanarySchedulers {
  import opened Domain
  import opened Store
  import opened Canary
  import opened MemoryStores

  class CanaryScheduler {
    const store: MemoryStore
    var schedules: map<string, CanarySchedule>

    ghost function System(): System
      reads this, store
    {
      Canary.System(schedules, store.State())
    }

    constructor (st: MemoryStore)
      ensures store == st && schedules == map[]
    {
      store, schedules := st, map[];
    }

    method SubmitSchedule(sched: CanarySchedule, newId: string, now: int, rd: Reading) returns (o: Outcome)
      modifies this, store
      ensures (System(), o) == Canary.SubmitSchedule(store.hasher, old(System()), sched, newId, now, rd)
    {
      hide UpdateRollout;
      if |sched.stages| == 0 {
        return Err(NoStages);
      }
      var c := Started(sched, newId, now);
      var key := ScheduleKey(c.projectId, c.flagKey);
      schedules := schedules[key := c];
      ghost var s := store.State();
      var flag;
      o, flag := store.UpdateRolloutByProject(c.projectId, c.flagKey, c.environment, c.stages[0].target, AUTO_ACTOR,
                                              rd.st);
      if o.Err? {
        FailedRolloutWritesNothing(store.hasher, s, c.projectId, c.flagKey, c.environment, c.stages[0].target,
                                   AUTO_ACTOR, rd.st);
        return;
      }
      store.SaveCanarySchedule(c, rd.savedAt);
      return Ok;
    }

    method Sync()
      modifies `schedules
      ensures System() == Synced(old(System()))
    {
      var saved, todo := store.canarySchedules, store.canarySchedules.Keys;
      ghost var y := System();
      while todo != {}
        modifies `schedules
        invariant todo <= saved.Keys
        invariant forall k :: k in schedules <==>
                  k in y.schedules || (k in saved && k !in todo && saved[k].status.Active?)
        invariant forall k :: k in schedules ==>
          schedules[k] == if k in saved && k !in todo && saved[k].status.Active?
                             && (k !in y.schedules || saved[k].updatedAt > y.schedules[k].updatedAt)
                          then saved[k] else y.schedules[k]
        decreases todo
      {
        var k :| k in todo;
        todo := todo - {k};
        if saved[k].status.Active? && (k !in schedules || saved[k].updatedAt > schedules[k].updatedAt) {
          schedules := schedules[k := saved[k]];
        }
      }
    }

    method Tick(key: string, now: int, rd: Reading) returns (advanced: bool)
      modifies this, store
      ensures (System(), advanced) == TickOne(store.hasher, old(System()), key, now, rd)
    {
      hide UpdateRollout;
      if key !in schedules || schedules[key].status != Active {
        return false;
      }
      var c := schedules[key].(lastEvaluatedAt := now);
      schedules := schedules[key := c];
      match CanAdvanceStage(c, now)
      case Stay => return false;
      case Complete =>
        c := Commit(c, now);
        schedules := schedules[key := c];
        assert schedules == old(schedules)[key := c];
        store.SaveCanarySchedule(c, rd.savedAt);
        return false;
      case Next(stage) =>
        var o, _ := store.UpdateRolloutByProject(c.projectId, c.flagKey, c.environment, stage.target, AUTO_ACTOR,
                                                 rd.st);
        if o.Err? {
          c := c.(status := NeedsAttention, rollbackReason := "stage advancement failed to persist", updatedAt := now);
        } else {
          c := Commit(c, now);
        }
        schedules := schedules[key := c];
        assert schedules == old(schedules)[key := c];
        store.SaveCanarySchedule(c, rd.savedAt);
        return o.Ok?;
    }

    method EvaluateSchedules(order: seq<string>, now: int, rds: seq<Reading>) returns (advancedCount: nat)
      requires |order| == |rds|
      modifies this, store
      ensures (System(), advancedCount) == Canary.EvaluateSchedules(store.hasher, old(System()), order, now, rds)
    {
      hide TickOne;
      Sync();
      advancedCount := 0;
      ghost var y := System();
      for i := 0 to |order|
        invariant (System(), advancedCount) == TickAll(store.hasher, y, order, now, rds, i)
      {
        var advanced := Tick(order[i], now, rds[i]);
        if advanced {
          advancedCount := advancedCount + 1;
        }
      }
    }

    method TriggerHealthRollback(
      projectID: string, flagKey: string, reason: string, now: int, rd: Reading) returns (o: Outcome)
      modifies this, store
      ensures (System(), o) == HealthRollback(store.hasher, old(System()), projectID, flagKey, reason, now, rd)
    {
      hide UpdateRollout;
      var key := ScheduleKey(projectID, flagKey);
      var c;
      if key in schedules {
        c := schedules[key];
      } else if key in store.canarySchedules {
        c := store.canarySchedules[key];
        schedules := schedules[key := c];
      } else {
        return Err(NoSchedule);
      }
      var flag;
      o, flag := store.UpdateRolloutByProject(c.projectId, c.flagKey, c.environment, 0.0, ROLLBACK_ACTOR, rd.st);
      if o.Err? {
        c := c.(status := NeedsAttention, rollbackReason := "rollback failed to persist", updatedAt := now);
      } else {
        c := c.(status := RolledBack, rollbackReason := reason, updatedAt := now);
      }
      schedules := schedules[key := c];
      assert schedules == old(schedules)[key := c];
      store.SaveCanarySchedule(c, rd.savedAt);
    }

    method GetSchedule(projectID: string, flagKey: string) returns (sched: Option<CanarySchedule>)
      modifies this
      ensures (System(), sched) == Canary.GetSchedule(old(System()), projectID, flagKey)
    {
      var key := ScheduleKey(projectID, flagKey);
      if key in schedules {
        assert schedules == schedules[key := schedules[key]];
        return Some(schedules[key]);
      }
      if key in store.canarySchedules {
        schedules := schedules[key := store.canarySchedules[key]];
        return Some(store.canarySchedules[key]);
      }
      return None;
    }

    method CancelSchedule(projectID: string, flagKey: string) returns (found: bool)
      modifies this, store
      ensures (System(), found) == Canary.CancelSchedule(old(System()), projectID, flagKey)
    {
      var key := ScheduleKey(projectID, flagKey);
      found := key in schedules;
      schedules := schedules - {key};
      if key in store.canarySchedules {
        found := true;
      }
      store.DeleteCanarySchedule(projectID, flagKey);
    }
  }

  lemma {:induction false} FailedRolloutWritesNothing(
    h: AuditHash.Hasher, s: StoreState, p: string, name: string, env: string, pct: real, actor: string,
    st: Stamp)
    ensures UpdateRollout(h, s, p, name, env, pct, actor, st).1.Err? ==>
              UpdateRollout(h, s, p, name, env, pct, actor, st).0 == s
  {
  }
}
