/** Snapshot export and restore of the audit log and the flags (pkg/store/backup.go). */
module Backup {
  import opened Domain
  import opened Seqs
  import opened AuditHash
  import opened AuditChain
  import opened Flags
  import opened Store
  import opened MemoryStores

  const EXPORT_LIMIT := 100_000

  // ----- What is exported -----

  function Exported(l: Ledger, p: string): seq<AuditEntry> {
    var es := ForProject(l, p);
    if |es| > EXPORT_LIMIT then es[..EXPORT_LIMIT] else es
  }

  function Ids(es: seq<AuditEntry>): set<string> {
    set e | e in es :: e.id
  }

  // Append the entries whose ID has not been seen yet.
  function Merged(acc: seq<AuditEntry>, es: seq<AuditEntry>): seq<AuditEntry> {
    if es == [] then acc
    else
      var m := Merged(acc, es[..|es| - 1]);
      if es[|es| - 1].id in Ids(m) then m else m + [es[|es| - 1]]
  }

  // What ListProjects gives: named projects, each once.
  predicate NoDuplicates(projects: seq<string>) {
    && (forall i :: 0 <= i < |projects| ==> projects[i] != "")
    && (forall i, j :: 0 <= i < j < |projects| ==> projects[i] != projects[j])
  }

  function SnapshotLogs(l: Ledger, projects: seq<string>): seq<AuditEntry> {
    if projects == [] then []
    else Merged(SnapshotLogs(l, projects[..|projects| - 1]), Exported(l, ProjectOrDefault(projects[|projects| - 1])))
  }

  function SnapshotFlags(fs: seq<FeatureFlag>, projects: seq<string>): seq<FeatureFlag> {
    if projects == [] then []
    else
      var n := |projects| - 1;
      SnapshotFlags(fs, projects[..n]) + Filter(OfProject(ProjectOrDefault(projects[n])), fs)
  }

  method ListFlagsByProject(st: MemoryStore, projectID: string) returns (res: seq<FeatureFlag>)
    ensures res == Filter(OfProject(ProjectOrDefault(projectID)), st.flagsList)
  {
    var p := ProjectOrDefault(projectID);
    res := [];
    for i := 0 to |st.flagsList|
      invariant res == Filter(OfProject(p), st.flagsList[..i])
    {
      FilterSnoc(OfProject(p), st.flagsList, i);
      if st.flagsList[i].projectId == p {
        res := res + [st.flagsList[i]];
      }
    }
    assert st.flagsList[..|st.flagsList|] == st.flagsList;
  }

  method MergeLogs(acc: seq<AuditEntry>, seenBefore: set<string>, es: seq<AuditEntry>)
    returns (logs: seq<AuditEntry>, seen: set<string>)
    requires seenBefore == Ids(acc)
    ensures logs == Merged(acc, es) && seen == Ids(logs)
  {
    logs, seen := acc, seenBefore;
    for k := 0 to |es|
      invariant logs == Merged(acc, es[..k])
      invariant seen == Ids(logs)
    {
      assert es[..k + 1][..k] == es[..k];
      if es[k].id !in seen {
        seen := seen + {es[k].id};
        logs := logs + [es[k]];
      }
    }
    assert es[..|es|] == es;
  }

  method CreateSnapshot(st: MemoryStore, projects: seq<string>)
    returns (flags: seq<FeatureFlag>, logs: seq<AuditEntry>, canaries: seq<CanarySchedule>, ghost keys: seq<string>)
    ensures flags == SnapshotFlags(st.flagsList, projects)
    ensures logs == SnapshotLogs(st.State().ledger, projects)
    ensures Lists(st.canarySchedules, canaries, keys)
  {
    flags, logs := [], [];
    var seen: set<string> := {};
    for i := 0 to |projects|
      invariant flags == SnapshotFlags(st.flagsList, projects[..i])
      invariant logs == SnapshotLogs(st.State().ledger, projects[..i])
      invariant seen == Ids(logs)
    {
      assert projects[..i + 1][..i] == projects[..i];
      var fs := ListFlagsByProject(st, projects[i]);
      flags := flags + fs;
      var es := st.ExportAuditLogs(projects[i], None, None, EXPORT_LIMIT);
      logs, seen := MergeLogs(logs, seen, es);
    }
    assert projects[..|projects|] == projects;
    canaries, keys := ListActiveCanarySchedules(st);
  }

  // The map of schedules is walked in some order; each of its keys is met once.
  method ListActiveCanarySchedules(st: MemoryStore) returns (res: seq<CanarySchedule>, ghost keys: seq<string>)
    ensures Lists(st.canarySchedules, res, keys)
  {
    res, keys := [], [];
    var todo := st.canarySchedules.Keys;
    while todo != {}
      invariant todo <= st.canarySchedules.Keys
      invariant ListsSome(st.canarySchedules, res, keys, st.canarySchedules.Keys - todo)
      decreases todo
    {
      var k :| k in todo;
      todo := todo - {k};
      if st.canarySchedules[k].status == Active {
        res, keys := res + [st.canarySchedules[k]], keys + [k];
      }
    }
  }

  // The active schedules under the given keys, each once.
  ghost predicate ListsSome(
    m: map<string, CanarySchedule>, cs: seq<CanarySchedule>, keys: seq<string>, done: set<string>)
  {
    && |keys| == |cs|
    && (forall i :: 0 <= i < |cs| ==> keys[i] in m && keys[i] in done && m[keys[i]] == cs[i] && cs[i].status.Active?)
    && (forall k :: k in done && k in m && m[k].status.Active? ==> k in keys)
  }

  ghost predicate Lists(m: map<string, CanarySchedule>, cs: seq<CanarySchedule>, keys: seq<string>) {
    ListsSome(m, cs, keys, m.Keys)
  }

  // ----- What is restored -----

  // The log is replayed from its last, oldest entry; an ID that was replayed already is skipped.
  function Replayed(h: Hasher, l: Ledger, logs: seq<AuditEntry>, times: seq<int>): Ledger
    requires |times| == |logs|
  {
    if logs == [] then l
    else
      var l' := Replayed(h, l, logs[1..], times[1..]);
      if logs[0].id in Ids(logs[1..]) then l' else Append(h, l', logs[0], times[0]).0
  }

  // What one save reads from its surroundings.
  datatype SaveInput = SaveInput(newId: string, st: Stamp)

  function RestoredFlags(h: Hasher, s: StoreState, fs: seq<FeatureFlag>, inputs: seq<SaveInput>): StoreState
    requires |inputs| == |fs|
  {
    if fs == [] then s
    else
      var n := |fs| - 1;
      Store.SaveFlag(h, RestoredFlags(h, s, fs[..n], inputs[..n]), fs[n], RESTORE_ACTOR, inputs[n].newId,
                     inputs[n].st).0
  }

  function RestoredCanaries(s: StoreState, cs: seq<CanarySchedule>, times: seq<int>): StoreState
    requires |times| == |cs|
  {
    if cs == [] then s
    else
      var n := |cs| - 1;
      SaveCanary(RestoredCanaries(s, cs[..n], times[..n]), cs[n], times[n])
  }

  method RestoreFlags(st: MemoryStore, flags: seq<FeatureFlag>, inputs: seq<SaveInput>)
    requires |inputs| == |flags|
    modifies st
    ensures st.State() == RestoredFlags(st.hasher, old(st.State()), flags, inputs)
  {
    hide Store.SaveFlag;
    for i := 0 to |flags|
      invariant st.State() == RestoredFlags(st.hasher, old(st.State()), flags[..i], inputs[..i])
    {
      assert flags[..i + 1][..i] == flags[..i] && inputs[..i + 1][..i] == inputs[..i];
      var _ := st.SaveFlag(flags[i], RESTORE_ACTOR, inputs[i].newId, inputs[i].st);
    }
    assert flags[..|flags|] == flags && inputs[..|flags|] == inputs;
  }

  method RestoreLogs(st: MemoryStore, logs: seq<AuditEntry>, times: seq<int>)
    requires |times| == |logs|
    modifies st
    ensures st.State() == old(st.State()).(ledger := Replayed(st.hasher, old(st.State()).ledger, logs, times))
  {
    hide Append;
    ghost var s := st.State();
    var seen: set<string>, i := {}, |logs|;
    while i > 0
      invariant 0 <= i <= |logs|
      invariant seen == Ids(logs[i..])
      invariant st.State() == s.(ledger := Replayed(st.hasher, s.ledger, logs[i..], times[i..]))
    {
      i := i - 1;
      assert logs[i..][1..] == logs[i + 1..] && logs[i..] == [logs[i]] + logs[i + 1..];
      assert times[i..][1..] == times[i + 1..];
      if logs[i].id !in seen {
        seen := seen + {logs[i].id};
        var _ := st.AppendAuditLog(logs[i], times[i]);
      }
    }
    assert logs[0..] == logs && times[0..] == times;
  }

  method RestoreCanaries(st: MemoryStore, cs: seq<CanarySchedule>, times: seq<int>)
    requires |times| == |cs|
    modifies st
    ensures st.State() == RestoredCanaries(old(st.State()), cs, times)
  {
    for i := 0 to |cs|
      invariant st.State() == RestoredCanaries(old(st.State()), cs[..i], times[..i])
    {
      assert cs[..i + 1][..i] == cs[..i] && times[..i + 1][..i] == times[..i];
      st.SaveCanarySchedule(cs[i], times[i]);
    }
    assert cs[..|cs|] == cs && times[..|cs|] == times;
  }

  /** Flags first, then the log, then the schedules; every save and append reads its own clock. */
  method RestoreSnapshot(
    st: MemoryStore, flags: seq<FeatureFlag>, inputs: seq<SaveInput>, logs: seq<AuditEntry>, times: seq<int>,
    canaries: seq<CanarySchedule>, savedAt: seq<int>)
    requires |inputs| == |flags| && |times| == |logs| && |savedAt| == |canaries|
    modifies st
    ensures var s := RestoredFlags(st.hasher, old(st.State()), flags, inputs);
            st.State() ==
              RestoredCanaries(s.(ledger := Replayed(st.hasher, s.ledger, logs, times)), canaries, savedAt)
  {
    RestoreFlags(st, flags, inputs);
    RestoreLogs(st, logs, times);
    RestoreCanaries(st, canaries, savedAt);
  }
}
