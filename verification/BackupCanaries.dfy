/** The active rollouts survive a backup and are taken up again by a new scheduler (pkg/store/backup.go). */
module BackupCanaries {
  import opened Domain
  import opened Store
  import opened Canary
  import opened CanaryTheorems
  import opened Backup

  // What SaveCanarySchedule leaves in the store: a project, a creation time, and the schedule's own key.
  predicate Saved(m: map<string, CanarySchedule>) {
    KeyedBy(m) && forall k :: k in m ==> m[k].projectId != "" && m[k].createdAt != ZERO_TIME
  }

  lemma {:induction false} SaveKeepsSaved(s: StoreState, c: CanarySchedule, now: int)
    requires Saved(s.canaries) && now != ZERO_TIME
    ensures Saved(SaveCanary(s, c, now).canaries)
  {
  }

  lemma {:induction false} RestoredPrefix(
    m: map<string, CanarySchedule>, cs: seq<CanarySchedule>, keys: seq<string>, s: StoreState, times: seq<int>)
    requires Saved(m) && |keys| == |cs| == |times| && s.canaries == map[]
    requires forall i :: 0 <= i < |cs| ==> keys[i] in m && m[keys[i]] == cs[i]
    ensures var r := RestoredCanaries(s, cs, times);
            && r == s.(canaries := r.canaries)
            && (forall k :: k in r.canaries <==> k in keys)
            && (forall k :: k in r.canaries ==> k in m && r.canaries[k] == m[k].(updatedAt := r.canaries[k].updatedAt))
  {
    if cs != [] {
      var n := |cs| - 1;
      RestoredPrefix(m, cs[..n], keys[..n], s, times[..n]);
      assert keys == keys[..n] + [keys[n]];
      assert ScheduleKey(cs[n].projectId, cs[n].flagKey) == keys[n];
    }
  }

  /**
    Restoring into a store without schedules puts back exactly the active ones, changed in nothing but their
    update time.
   */
  lemma {:induction false} CanariesRoundTrip(
    m: map<string, CanarySchedule>, cs: seq<CanarySchedule>, keys: seq<string>, s: StoreState, times: seq<int>)
    requires Saved(m) && Lists(m, cs, keys) && |times| == |cs| && s.canaries == map[]
    ensures var r := RestoredCanaries(s, cs, times);
            && r == s.(canaries := r.canaries)
            && (forall k :: k in r.canaries <==> k in m && m[k].status.Active?)
            && (forall k :: k in r.canaries ==> r.canaries[k] == m[k].(updatedAt := r.canaries[k].updatedAt))
  {
    RestoredPrefix(m, cs, keys, s, times);
    forall k | k in keys ensures k in m && m[k].status.Active? {
      var i :| 0 <= i < |keys| && keys[i] == k;
    }
  }

  /** A new scheduler over the restored store takes up exactly the rollouts that were active, at their stages. */
  lemma {:induction false} RolloutsResume(
    m: map<string, CanarySchedule>, cs: seq<CanarySchedule>, keys: seq<string>, s: StoreState, times: seq<int>)
    requires Saved(m) && Lists(m, cs, keys) && |times| == |cs| && s.canaries == map[]
    ensures var y := Synced(System(map[], RestoredCanaries(s, cs, times)));
            && (forall k :: k in y.schedules <==> k in m && m[k].status.Active?)
            && (forall k :: k in y.schedules ==>
                  && y.schedules[k].stageIdx == m[k].stageIdx && y.schedules[k].stages == m[k].stages
                  && y.schedules[k].status.Active? && SameTarget(m[k], y.schedules[k]))
  {
    CanariesRoundTrip(m, cs, keys, s, times);
  }
}
