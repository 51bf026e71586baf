/** The store object: mutable fields, loops and early returns (pkg/store/memory.go). */
module MemoryStores {
  import opened Domain
  import opened Text
  import opened Seqs
  import opened AuditHash
  import opened AuditChain
  import opened Flags
  import opened FlagEdits
  import opened Store

  class MemoryStore {
    const hasher: Hasher
    var flagsList: seq<FeatureFlag>
    var flagsMap: map<string, FeatureFlag>
    var auditLogs: seq<AuditEntry>
    var auditAnchors: map<string, string>
    var changeRequests: map<string, ChangeRequest>
    var canarySchedules: map<string, CanarySchedule>

    ghost function State(): StoreState
      reads this
    {
      StoreState(Snapshot(flagsList, flagsMap), Ledger(auditLogs, auditAnchors), changeRequests, canarySchedules)
    }

    constructor (h: Hasher)
      ensures hasher == h && State() == EMPTY_STORE
    {
      hasher, flagsList, flagsMap := h, [], map[];
      auditLogs, auditAnchors, changeRequests, canarySchedules := [], map[], map[], map[];
    }

    // ----- Audit log -----

    // The first part of appendAuditLogLocked: the hash the next entry of a project must link to.
    method PreviousHash(p: string) returns (prev: string)
      ensures prev == NewestHash(State().ledger, p)
    {
      prev := GENESIS;
      if p in auditAnchors && auditAnchors[p] != "" {
        prev := auditAnchors[p];
      }
      var i := 0;
      while i < |auditLogs| && auditLogs[i].projectId != p
        invariant 0 <= i <= |auditLogs|
        invariant Filter(InProject(p), auditLogs[..i]) == []
      {
        FilterSnoc(InProject(p), auditLogs, i);
        i := i + 1;
      }
      if i < |auditLogs| {
        FirstInProject(auditLogs, p, i);
        if auditLogs[i].entryHash != "" {
          prev := auditLogs[i].entryHash;
        }
      } else {
        assert auditLogs[..i] == auditLogs;
      }
    }

    method AppendAuditLog(entry: AuditEntry, now: int) returns (logged: AuditEntry)
      modifies this
      ensures State() == Logged(hasher, old(State()), entry, now)
      ensures logged == Append(hasher, old(State()).ledger, entry, now).1
    {
      var e := entry.(projectId := ProjectOrDefault(entry.projectId));
      if e.timestamp == ZERO_TIME {
        e := e.(timestamp := now);
      }
      assert e == Stamped(entry, now);
      if e.prevHash == "" || e.entryHash == "" {
        var prev := PreviousHash(e.projectId);
        e := e.(prevHash := prev, entryHash := ComputeAuditEntryHash(hasher, prev, e));
      }
      assert e == Linked(hasher, State().ledger, Stamped(entry, now));
      var logs, k := auditLogs, 0;
      while k < |logs|
        modifies {}
        invariant 0 <= k <= |logs|
        invariant FindEntry(logs, e.id, e.projectId) == FindEntry(logs[k..], e.id, e.projectId)
      {
        if logs[k].id == e.id && logs[k].projectId == e.projectId {
          return logs[k];
        }
        k := k + 1;
      }
      auditLogs := [e] + logs;
      return e;
    }

    method VerifyAuditLogIntegrity(projectID: string) returns (r: IntegrityResult)
      ensures var l, p := State().ledger, ProjectOrDefault(projectID);
              Reports(hasher, ForProject(l, p), Base(l, p), r)
    {
      var p := ProjectOrDefault(projectID);
      var entries := ExportAuditLogs(p, None, None, 0);
      var base := GENESIS;
      if p in auditAnchors && auditAnchors[p] != "" {
        base := auditAnchors[p];
      }
      r := VerifyChain(hasher, entries, base);
    }

    method ExportAuditLogs(
      projectID: string, from: Option<int>, to: Option<int>, limit: int) returns (res: seq<AuditEntry>)
      ensures var all := Filter(InWindow(ProjectOrDefault(projectID), from, to), auditLogs);
              res == if 0 < limit < |all| then all[..limit] else all
      ensures forall e :: e in res ==> e in auditLogs && Asked(e, projectID, from, to)
      ensures limit <= 0 || |res| < limit ==>
                forall e :: e in auditLogs && Asked(e, projectID, from, to) ==> e in res
      ensures from == None && to == None ==>
              var all := ForProject(State().ledger, ProjectOrDefault(projectID));
              res == if 0 < limit < |all| then all[..limit] else all
    {
      var p := ProjectOrDefault(projectID);
      ghost var f := InWindow(p, from, to);
      WindowIs(auditLogs, projectID, from, to);
      if from == None && to == None {
        FilterAgree(f, InProject(p), auditLogs);
      }
      res := [];
      for i := 0 to |auditLogs|
        invariant res == Filter(f, auditLogs[..i])
        invariant limit > 0 ==> |res| < limit
      {
        FilterSnoc(f, auditLogs, i);
        var e := auditLogs[i];
        if e.projectId != p {
          continue;
        }
        if from.Some? && e.timestamp < from.value {
          continue;
        }
        if to.Some? && e.timestamp > to.value {
          continue;
        }
        res := res + [e];
        if limit > 0 && |res| >= limit {
          FilterCat(f, auditLogs[..i + 1], auditLogs[i + 1..]);
          assert auditLogs == auditLogs[..i + 1] + auditLogs[i + 1..];
          return;
        }
      }
      assert auditLogs[..|auditLogs|] == auditLogs;
    }

    method PurgeAuditLogs(projectID: string, before: int) returns (purged: nat)
      modifies this
      ensures State() == old(State()).(ledger := Purge(old(State()).ledger, ProjectOrDefault(projectID), before).0)
      ensures purged == Purge(old(State()).ledger, ProjectOrDefault(projectID), before).1
    {
      var logs := auditLogs;
      var p := ProjectOrDefault(projectID);
      var surviving: seq<AuditEntry>, lastPurgedHash := [], "";
      purged := 0;
      ghost var gone := [];
      for i := 0 to |logs|
        modifies {}
        invariant surviving == Filter(Kept(p, before), logs[..i])
        invariant gone == Filter(Expired(p, before), logs[..i])
        invariant purged == |gone| && lastPurgedHash == FirstHash(gone)
      {
        FilterSnoc(Kept(p, before), logs, i);
        FilterSnoc(Expired(p, before), logs, i);
        var e := logs[i];
        if e.projectId == p && e.timestamp < before {
          FirstHashSnoc(gone, e);
          gone := gone + [e];
          purged := purged + 1;
          if lastPurgedHash == "" {
            lastPurgedHash := e.entryHash;
          }
        } else {
          surviving := surviving + [e];
        }
      }
      assert logs[..|logs|] == logs;
      if purged > 0 && lastPurgedHash != "" {
        auditAnchors := auditAnchors[p := lastPurgedHash];
      }
      auditLogs := surviving;
    }

    // ----- Flags -----

    method GetFlagByProject(projectID: string, name: string) returns (r: Option<FeatureFlag>)
      ensures r == Lookup(flagsMap, ProjectOrDefault(projectID), name)
    {
      var key := ProjectOrDefault(projectID) + [':'] + name;
      r := if key in flagsMap then Some(flagsMap[key]) else None;
    }

    method SaveFlag(flag: FeatureFlag, actor: string, newId: string, st: Stamp) returns (o: Outcome)
      modifies this
      ensures (State(), o) == Store.SaveFlag(hasher, old(State()), flag, actor, newId, st)
    {
      if TrimSpace(flag.projectId) == "" {
        return Err(ProjectRequired);
      }
      ghost var s := State();
      var f, i := flag, 0;
      while i < |flagsList| && !SaveMatches(flagsList[i], flag)
        modifies {}
        invariant 0 <= i <= |flagsList|
        invariant forall j :: 0 <= j < i ==> !SaveMatches(flagsList[j], flag)
      {
        i := i + 1;
      }
      assert i == MatchIndex(flagsList, flag);
      var newList, action;
      if i < |flagsList| {
        f := f.(id := flagsList[i].id, createdAt := flagsList[i].createdAt, updatedAt := st.now,
                version := flagsList[i].version + 1);
        newList, action := flagsList[i := f], "FLAG_UPDATED";
      } else {
        if f.id == "" {
          f := f.(id := newId);
        }
        if f.version == 0 {
          f := f.(version := 1);
        }
        f := f.(createdAt := st.now, updatedAt := st.now);
        newList, action := [f] + flagsList, "FLAG_CREATED";
      }
      assert newList == SaveInto(flagsList, flag, newId, st.now);
      flagsList, flagsMap := NewFlagSnapshot(newList);
      if actor != RESTORE_ACTOR {
        var e := LogEntry(flag.projectId, ActorOr(actor, "developer@flagura.dev"), action, flag.key, "all", st.now, st);
        assert e == SaveEntry(s, flag, actor, st);
        var _ := AppendAuditLog(e, st.now);
      }
      return Ok;
    }

    method DeleteFlagByProject(projectID: string, name: string, actor: string, st: Stamp) returns (o: Outcome)
      modifies this
      ensures (State(), o) == Store.DeleteFlag(hasher, old(State()), projectID, name, actor, st)
    {
      var p := ProjectOrDefault(projectID);
      var newList, deleted := RemoveFlags(flagsList, p, name);
      if deleted == None {
        return Err(NotFound);
      }
      flagsList, flagsMap := NewFlagSnapshot(newList);
      var _ := AppendAuditLog(LogEntry(p, ActorOr(actor, "admin@flagura.dev"), "FLAG_DELETED", deleted.value.key,
                                       "all", st.loggedAt, st), st.now);
      return Ok;
    }

    method ToggleFlagByProject(
      projectID: string, name: string, env: string, enabled: Option<bool>, actor: string, st: Stamp)
      returns (o: Outcome, flag: Option<FeatureFlag>)
      modifies this
      ensures (State(), o) == Store.ToggleFlag(hasher, old(State()), projectID, name, env, enabled, actor, st)
      ensures var p, e := ProjectOrDefault(projectID), SetEnabled(EnvOrProduction(env), enabled);
              flag == LastNamed(Rewrite(old(flagsList), p, name, e, st.now), p, name)
    {
      var p, e := ProjectOrDefault(projectID), SetEnabled(EnvOrProduction(env), enabled);
      var newList;
      newList, flag := RewriteFlags(flagsList, p, name, e, st.now);
      if flag == None {
        return Err(NotFound), None;
      }
      flagsList, flagsMap := NewFlagSnapshot(newList);
      var _ := AppendAuditLog(LogEntry(p, ActorOr(actor, "admin@flagura.dev"), ActionOf(e), flag.value.key, e.env,
                                       st.loggedAt, st), st.now);
      return Ok, flag;
    }

    method UpdateRolloutByProject(projectID: string, name: string, env: string, pct: real, actor: string, st: Stamp)
      returns (o: Outcome, flag: Option<FeatureFlag>)
      modifies this
      ensures (State(), o) == Store.UpdateRollout(hasher, old(State()), projectID, name, env, pct, actor, st)
      ensures var p, e := ProjectOrDefault(projectID), SetRollout(EnvOrProduction(env), Clamp(pct));
              flag == LastNamed(Rewrite(old(flagsList), p, name, e, st.now), p, name)
    {
      var p, pct' := ProjectOrDefault(projectID), pct;
      if pct' < 0.0 {
        pct' := 0.0;
      }
      if pct' > 100.0 {
        pct' := 100.0;
      }
      assert pct' == Clamp(pct);
      var e := SetRollout(EnvOrProduction(env), pct');
      var newList;
      newList, flag := RewriteFlags(flagsList, p, name, e, st.now);
      if flag == None {
        return Err(NotFound), None;
      }
      flagsList, flagsMap := NewFlagSnapshot(newList);
      var _ := AppendAuditLog(LogEntry(p, ActorOr(actor, "engineer@flagura.dev"), ActionOf(e), flag.value.key, e.env,
                                       st.loggedAt, st), st.now);
      return Ok, flag;
    }

    // ----- Change requests -----

    method CreateChangeRequest(cr: ChangeRequest, newId: string, now: int) returns (created: ChangeRequest)
      modifies this
      ensures State() == Store.CreateRequest(old(State()), cr, newId, now).0
      ensures created.id in changeRequests && created == changeRequests[created.id]
    {
      created := if cr.id == "" then cr.(id := newId) else cr;
      created := created.(status := Pending, createdAt := now);
      changeRequests := changeRequests[created.id := created];
    }

    method ReviewChangeRequest(
      id: string, reviewer: string, approved: bool, comments: string, now: int) returns (o: Outcome)
      modifies this
      ensures (State(), o) == Store.ReviewRequest(old(State()), id, reviewer, approved, comments, now)
    {
      if id !in changeRequests {
        return Err(NotFound);
      }
      var (cr, res) := Reviewed(changeRequests[id], reviewer, approved, comments, now);
      if res.Err? {
        return res;
      }
      changeRequests := changeRequests[id := cr];
      return Ok;
    }

    method ApplyChangeRequest(id: string, actor: string, st: Stamp) returns (o: Outcome, flag: Option<FeatureFlag>)
      modifies this
      ensures (State(), o) == Store.ApplyRequest(hasher, old(State()), id, actor, st)
      ensures flag == None <==> o.Err?
      ensures o.Ok? ==>
              var cr := old(changeRequests)[id];
              var p, e := ProjectOrDefault(cr.projectId), SetConfig(cr.environment, cr.proposed);
              flag == LastNamed(Rewrite(old(flagsList), p, cr.flagKey, e, st.now), p, cr.flagKey)
    {
      if id !in changeRequests {
        return Err(NotFound), None;
      }
      var cr := changeRequests[id];
      if cr.status != Approved {
        return Err(NotApproved), None;
      }
      var conflict := HasConflict(flagsList, cr);
      if conflict {
        return Err(Conflict), None;
      }
      var p := ProjectOrDefault(cr.projectId);
      var e := SetConfig(cr.environment, cr.proposed);
      var newList;
      newList, flag := RewriteFlags(flagsList, p, cr.flagKey, e, st.now);
      if flag == None {
        return Err(NotFound), None;
      }
      var _ := AppendAuditLog(LogEntry(p, actor, ActionOf(e), flag.value.key, e.env, st.now, st), st.now);
      changeRequests := changeRequests[id := cr.(status := Applied, appliedAt := Some(st.now))];
      flagsList, flagsMap := NewFlagSnapshot(newList);
      return Ok, flag;
    }

    // ----- Canary schedules -----

    method SaveCanarySchedule(sched: CanarySchedule, now: int)
      modifies this
      ensures State() == SaveCanary(old(State()), sched, now)
    {
      var c := sched.(projectId := ProjectOrDefault(sched.projectId));
      if c.createdAt == ZERO_TIME {
        c := c.(createdAt := now);
      }
      c := c.(updatedAt := now);
      canarySchedules := canarySchedules[c.projectId + [':'] + c.flagKey := c];
    }

    method DeleteCanarySchedule(projectID: string, flagKey: string)
      modifies this
      ensures State() == old(State()).(canaries := old(State()).canaries - {ScheduleKey(projectID, flagKey)})
    {
      canarySchedules := canarySchedules - {ProjectOrDefault(projectID) + [':'] + flagKey};
    }
  }

  function InWindow(p: string, from: Option<int>, to: Option<int>): AuditEntry -> bool {
    (e: AuditEntry) =>
      e.projectId == p && (from.Some? ==> e.timestamp >= from.value) && (to.Some? ==> e.timestamp <= to.value)
  }

  // What an export asks for: the project's entries, the default one's for an empty ID, both ends included.
  predicate Asked(e: AuditEntry, projectID: string, from: Option<int>, to: Option<int>) {
    && e.projectId == (if projectID == "" then "proj_default" else projectID)
    && (from.Some? ==> e.timestamp >= from.value) && (to.Some? ==> e.timestamp <= to.value)
  }

  lemma {:induction false} WindowIs(logs: seq<AuditEntry>, projectID: string, from: Option<int>, to: Option<int>)
    ensures forall e :: e in Filter(InWindow(ProjectOrDefault(projectID), from, to), logs) <==>
              e in logs && Asked(e, projectID, from, to)
  {
    forall e ensures e in Filter(InWindow(ProjectOrDefault(projectID), from, to), logs) <==>
              e in logs && Asked(e, projectID, from, to)
    {
      FilterMember(InWindow(ProjectOrDefault(projectID), from, to), logs, e);
    }
  }

  // The loop of VerifyAuditLogIntegrity, from the oldest entry of one project to its newest.
  method VerifyChain(h: Hasher, entries: seq<AuditEntry>, base: string) returns (r: IntegrityResult)
    ensures Reports(h, entries, base, r)
  {
    var n, expected := |entries|, base;
    for i := 0 to n
      invariant expected == if i == 0 then base else entries[n - i].entryHash
      invariant forall j :: n - i <= j < n ==> LinkOk(h, entries, base, j)
    {
      var e := entries[n - 1 - i];
      var linked := e.prevHash == expected || (i == 0 && e.prevHash == GENESIS);
      if !linked || e.entryHash != ComputeAuditEntryHash(h, e.prevHash, e) {
        ReportsBroken(h, entries, base, i);
        return IntegrityResult(false, i, "", e.id);
      }
      expected := e.entryHash;
    }
    return IntegrityResult(true, n, if n == 0 then "" else expected, "");
  }

  // The version check inside ApplyChangeRequest's loop.
  method HasConflict(list: seq<FeatureFlag>, cr: ChangeRequest) returns (b: bool)
    ensures b <==> Conflicts(list, cr)
    ensures b <==> cr.baseVersion > 0
                   && exists f :: f in list && f.version != cr.baseVersion &&
                        (f.key == cr.flagKey || f.id == cr.flagKey)
                        && f.projectId == if cr.projectId == "" then "proj_default" else cr.projectId
  {
    var p := ProjectOrDefault(cr.projectId);
    for i := 0 to |list|
      invariant forall j :: 0 <= j < i && Named(list[j], p, cr.flagKey) ==>
                  cr.baseVersion == 0 || list[j].version == cr.baseVersion
    {
      if Named(list[i], p, cr.flagKey) && cr.baseVersion > 0 && list[i].version != cr.baseVersion {
        return true;
      }
    }
    return false;
  }

  lemma {:induction false} ReportsBroken(h: Hasher, es: seq<AuditEntry>, base: string, i: nat)
    requires i < |es| && !LinkOk(h, es, base, |es| - 1 - i)
    requires forall j :: |es| - i <= j < |es| ==> LinkOk(h, es, base, j)
    ensures Reports(h, es, base, IntegrityResult(false, i, "", es[|es| - 1 - i].id))
  {
  }

  lemma {:induction false} FirstInProject(logs: seq<AuditEntry>, p: string, i: nat)
    requires i < |logs| && logs[i].projectId == p
    requires Filter(InProject(p), logs[..i]) == []
    ensures Filter(InProject(p), logs) != [] && Filter(InProject(p), logs)[0] == logs[i]
  {
    FilterSnoc(InProject(p), logs, i);
    FilterCat(InProject(p), logs[..i + 1], logs[i + 1..]);
    assert logs == logs[..i + 1] + logs[i + 1..];
  }

  lemma {:induction false} FirstHashSnoc(es: seq<AuditEntry>, e: AuditEntry)
    ensures FirstHash(es + [e]) == if FirstHash(es) == "" then e.entryHash else FirstHash(es)
  {
    if es == [] {
      assert es + [e] == [e];
    } else {
      assert (es + [e])[1..] == es[1..] + [e];
      FirstHashSnoc(es[1..], e);
    }
  }
}
