/** What every run of store operations keeps: the audit chain, the index, four eyes and no lost update. */
module StoreTheorems {
  import opened Domain
  import opened Text
  import opened Seqs
  import opened AuditHash
  import opened AuditChain
  import opened AuditTheorems
  import opened Flags
  import opened FlagEdits
  import opened Store

  // ----- The audit chain -----

  /** The entry an operation hands to the audit log, with the clock reading that dates an undated one. */
  function LogOf(h: Hasher, s: StoreState, op: Op): Option<(AuditEntry, int)> {
    if Step(h, s, op).1.Err? then None
    else match op
      case Save(flag, actor, _, st) =>
        if actor == RESTORE_ACTOR then None else Some((SaveEntry(s, flag, actor, st), st.now))
      case Delete(p, name, actor, st) =>
        var p := ProjectOrDefault(p);
        Some((LogEntry(p, ActorOr(actor, "admin@flagura.dev"), "FLAG_DELETED",
                       LastNamed(s.flags.list, p, name).value.key, "all", st.loggedAt, st), st.now))
      case Toggle(p, name, env, enabled, actor, st) =>
        Some((EditLog(s, p, name, SetEnabled(EnvOrProduction(env), enabled), ActorOr(actor, "admin@flagura.dev"),
                      st.loggedAt, st), st.now))
      case Rollout(p, name, env, pct, actor, st) =>
        Some((EditLog(s, p, name, SetRollout(EnvOrProduction(env), Clamp(pct)),
                      ActorOr(actor, "engineer@flagura.dev"), st.loggedAt, st), st.now))
      case Apply(id, actor, st) =>
        var cr := s.requests[id];
        Some((EditLog(s, cr.projectId, cr.flagKey, SetConfig(cr.environment, cr.proposed), actor, st.now, st), st.now))
      case AppendLog(entry, now) => Some((entry, now))
      case Create(_, _, _) => None
      case Review(_, _, _, _, _) => None
      case PurgeLogs(_, _) => None
  }

  function EditLog(s: StoreState, p: string, name: string, e: Edit, actor: string, at: int, st: Stamp): AuditEntry {
    var p := ProjectOrDefault(p);
    var f := LastNamed(Rewrite(s.flags.list, p, name, e, st.now), p, name);
    LogEntry(p, actor, ActionOf(e), if f == None then "" else f.value.key, e.env, at, st)
  }

  // Every operation changes the ledger by one append, by one purge, or not at all.
  lemma {:induction false} LedgerStep(h: Hasher, s: StoreState, op: Op)
    ensures Step(h, s, op).0.ledger ==
            if op.PurgeLogs? then Purge(s.ledger, ProjectOrDefault(op.project), op.before).0
            else match LogOf(h, s, op)
                 case None => s.ledger
                 case Some((e, now)) => Append(h, s.ledger, e, now).0
  {
    hide Append;
  }

  // What the surroundings must supply: unhashed entries, and per project a clock that does not go back.
  ghost predicate ClockOk(h: Hasher, s: StoreState, op: Op) {
    match LogOf(h, s, op)
    case None => true
    case Some((e, now)) =>
      !Hashed(e) && NotEarlier(s.ledger, Stamped(e, now).projectId, Stamped(e, now).timestamp)
  }

  ghost predicate ClockOkAt(h: Hasher, ss: seq<StoreState>, ops: seq<Op>, i: nat)
    requires i < |ss| && i < |ops|
  {
    ClockOk(h, ss[i], ops[i])
  }

  ghost predicate ClockOkRun(h: Hasher, ss: seq<StoreState>, ops: seq<Op>)
    requires IsRun(h, ss, ops)
  {
    forall i :: 0 <= i < |ops| ==> ClockOkAt(h, ss, ops, i)
  }

  // How many entries a step adds to, and purges from, one project's chain.
  function Added(h: Hasher, s: StoreState, op: Op, q: string): nat {
    match LogOf(h, s, op)
    case None => 0
    case Some((e, now)) =>
      var e' := Stamped(e, now);
      if e'.projectId == q && FindEntry(s.ledger.logs, e'.id, q) == None then 1 else 0
  }

  function PurgedBy(s: StoreState, op: Op, q: string): nat {
    if op.PurgeLogs? && ProjectOrDefault(op.project) == q then Purge(s.ledger, q, op.before).1 else 0
  }

  predicate Touches(h: Hasher, s: StoreState, op: Op, q: string) {
    if op.PurgeLogs? then ProjectOrDefault(op.project) == q
    else LogOf(h, s, op).Some? && ProjectOrDefault(LogOf(h, s, op).value.0.projectId) == q
  }

  ghost predicate AllSound(h: Hasher, l: Ledger) {
    forall p :: Sound(h, l, p)
  }

  /** One step: every chain stays sound, the counts move as announced, other projects do not move at all. */
  lemma {:induction false} AuditStep(h: Hasher, s: StoreState, op: Op, q: string)
    requires HexDigests(h) && ClockOk(h, s, op) && AllSound(h, s.ledger)
    ensures var l' := Step(h, s, op).0.ledger;
            && Sound(h, l', q)
            && |ForProject(l', q)| + PurgedBy(s, op, q) == |ForProject(s.ledger, q)| + Added(h, s, op, q)
            && (!Touches(h, s, op, q) ==>
                  ForProject(l', q) == ForProject(s.ledger, q) && Base(l', q) == Base(s.ledger, q))
  {
    LedgerStep(h, s, op);
    if op.PurgeLogs? {
      PurgeKeepsSound(h, s.ledger, ProjectOrDefault(op.project), op.before, q);
    } else {
      match LogOf(h, s, op)
      case None =>
      case Some((e, now)) =>
        AppendKeepsSound(h, s.ledger, e, now, q);
    }
  }

  ghost function TotalAdded(h: Hasher, ss: seq<StoreState>, ops: seq<Op>, n: nat, q: string): nat
    requires n <= |ops| < |ss|
  {
    if n == 0 then 0 else TotalAdded(h, ss, ops, n - 1, q) + Added(h, ss[n - 1], ops[n - 1], q)
  }

  ghost function TotalPurged(ss: seq<StoreState>, ops: seq<Op>, n: nat, q: string): nat
    requires n <= |ops| < |ss|
  {
    if n == 0 then 0 else TotalPurged(ss, ops, n - 1, q) + PurgedBy(ss[n - 1], ops[n - 1], q)
  }

  lemma {:induction false} RunKeepsSound(h: Hasher, ss: seq<StoreState>, ops: seq<Op>, n: nat)
    requires HexDigests(h) && IsRun(h, ss, ops) && ClockOkRun(h, ss, ops) && n <= |ops|
    requires AllSound(h, ss[0].ledger)
    ensures AllSound(h, ss[n].ledger)
  {
    hide Step;
    hide ClockOk;
    if n > 0 {
      RunKeepsSound(h, ss, ops, n - 1);
      assert StepAt(h, ss, ops, n - 1) && ClockOkAt(h, ss, ops, n - 1);
      var l := ss[n].ledger;
      forall p ensures Sound(h, l, p) {
        AuditStep(h, ss[n - 1], ops[n - 1], p);
      }
    }
  }

  /**
    In every state of every run of flag mutations, appends and purges over any number of projects, each
    project's log verifies, and the verified total is what was recorded less what was purged.
   */
  lemma {:induction false} AuditRunVerifies(h: Hasher, ss: seq<StoreState>, ops: seq<Op>, n: nat, q: string)
    requires HexDigests(h) && IsRun(h, ss, ops) && ClockOkRun(h, ss, ops) && n <= |ops|
    requires AllSound(h, ss[0].ledger)
    ensures var l := ss[n].ledger;
            && ChainOk(h, ForProject(l, q), Base(l, q))
            && |ForProject(l, q)| + TotalPurged(ss, ops, n, q) ==
                 |ForProject(ss[0].ledger, q)| + TotalAdded(h, ss, ops, n, q)
  {
    hide Step;
    hide ClockOk;
    hide Sound;
    hide ForProject;
    RunKeepsSound(h, ss, ops, n);
    SoundVerifies(h, ss[n].ledger, q);
    if n > 0 {
      AuditRunVerifies(h, ss, ops, n - 1, q);
      RunKeepsSound(h, ss, ops, n - 1);
      assert StepAt(h, ss, ops, n - 1) && ClockOkAt(h, ss, ops, n - 1);
      AuditStep(h, ss[n - 1], ops[n - 1], q);
    }
  }

  /** From the empty store: in every state the verified total is what was recorded less what was purged. */
  lemma {:induction false} AuditRunFromEmpty(h: Hasher, ss: seq<StoreState>, ops: seq<Op>, n: nat, q: string)
    requires HexDigests(h) && IsRun(h, ss, ops) && ClockOkRun(h, ss, ops) && n <= |ops| && ss[0] == EMPTY_STORE
    ensures var l := ss[n].ledger;
            && ChainOk(h, ForProject(l, q), Base(l, q))
            && |ForProject(l, q)| == TotalAdded(h, ss, ops, n, q) - TotalPurged(ss, ops, n, q)
  {
    assert ForProject(EMPTY, q) == [];
    AuditRunVerifies(h, ss, ops, n, q);
  }

  // The log's clock is set, and what is logged carries no hashes of its own.
  ghost predicate LogsPlainlyAt(h: Hasher, ss: seq<StoreState>, ops: seq<Op>, i: nat)
    requires i < |ss| && i < |ops|
  {
    match LogOf(h, ss[i], ops[i])
    case None => true
    case Some((e, now)) => !Hashed(e) && now != ZERO_TIME
  }

  ghost predicate PurgesOldestAt(ss: seq<StoreState>, ops: seq<Op>, i: nat)
    requires i < |ss| && i < |ops|
  {
    ops[i].PurgeLogs? ==> PurgesOldest(ss[i].ledger, ProjectOrDefault(ops[i].project), ops[i].before)
  }

  /** In every state of every run from the empty store no project has an ID twice and all entries are settled. */
  lemma {:induction false} RunKeepsShape(h: Hasher, ss: seq<StoreState>, ops: seq<Op>, n: nat)
    requires HexDigests(h) && IsRun(h, ss, ops) && n <= |ops| && ss[0] == EMPTY_STORE
    requires forall i :: 0 <= i < |ops| ==> LogsPlainlyAt(h, ss, ops, i)
    ensures Shaped(ss[n].ledger)
  {
    hide Step;
    hide Append;
    hide LogOf;
    if n > 0 {
      RunKeepsShape(h, ss, ops, n - 1);
      assert StepAt(h, ss, ops, n - 1) && LogsPlainlyAt(h, ss, ops, n - 1);
      var s, op := ss[n - 1], ops[n - 1];
      LedgerStep(h, s, op);
      if op.PurgeLogs? {
        PurgeKeepsShape(s.ledger, ProjectOrDefault(op.project), op.before);
      } else {
        match LogOf(h, s, op)
        case None =>
        case Some((e, now)) => AppendKeepsShape(h, s.ledger, e, now);
      }
    }
  }

  lemma {:induction false} RunFromGenesis(h: Hasher, ss: seq<StoreState>, ops: seq<Op>, n: nat, p: string)
    requires HexDigests(h) && IsRun(h, ss, ops) && n <= |ops| && ss[0] == EMPTY_STORE
    requires forall i :: 0 <= i < |ops| ==> LogsPlainlyAt(h, ss, ops, i)
    requires forall i :: 0 <= i < n ==> PurgesOldestAt(ss, ops, i)
    ensures FromGenesis(h, ForProject(ss[n].ledger, p), Base(ss[n].ledger, p))
  {
    hide Step;
    hide Append;
    hide LogOf;
    hide FromGenesis;
    if n == 0 {
      EmptyFromGenesis(h, p);
    } else {
      RunFromGenesis(h, ss, ops, n - 1, p);
      assert StepAt(h, ss, ops, n - 1) && LogsPlainlyAt(h, ss, ops, n - 1) && PurgesOldestAt(ss, ops, n - 1);
      var s, op := ss[n - 1], ops[n - 1];
      LedgerStep(h, s, op);
      if op.PurgeLogs? {
        PurgeFromGenesis(h, s.ledger, ProjectOrDefault(op.project), op.before, p);
      } else {
        match LogOf(h, s, op)
        case None =>
        case Some((e, now)) => AppendFromGenesis(h, s.ledger, e, now, p);
      }
    }
  }

  /**
    The exact condition for a purge in a run, whatever the clocks did: as long as every purge before it
    took the oldest entries, it leaves a log that verifies if and only if PurgeSafe holds.
   */
  lemma {:induction false} PurgeInRunValidIff(
    h: Hasher, ss: seq<StoreState>, ops: seq<Op>, n: nat, p: string, before: int)
    requires HexDigests(h) && CollisionFree(h) && IsRun(h, ss, ops) && n <= |ops| && ss[0] == EMPTY_STORE
    requires forall i :: 0 <= i < |ops| ==> LogsPlainlyAt(h, ss, ops, i)
    requires forall i :: 0 <= i < n ==> PurgesOldestAt(ss, ops, i)
    ensures var l := ss[n].ledger; var l' := Purge(l, p, before).0;
            ChainOk(h, ForProject(l', p), Base(l', p)) <==> PurgeSafe(ForProject(l, p), Base(l, p), before)
  {
    RunFromGenesis(h, ss, ops, n, p);
    PurgeValidIff(h, ss[n].ledger, p, before);
  }

  // ----- The purge handler -----

  // The record carries no ID and is dated when the handler writes it.
  function PurgeRecord(p: string, actor: string, now: int, details: string): AuditEntry {
    AuditEntry("", p, now, actor, "AUDIT_LOGS_PURGED", "audit-logs", "all", details, "", "")
  }

  /** What the handler does once its request is accepted: purge, then record the purge. */
  function HandlePurge(
    h: Hasher, s: StoreState, p: string, before: int, actor: string, now: int, details: string): StoreState
  {
    var s1 := Step(h, s, PurgeLogs(p, before)).0;
    Step(h, s1, AppendLog(PurgeRecord(p, actor, now, details), now)).0
  }

  // An entry of the project without ID that a purge up to `before` does not remove.
  predicate BlocksRecord(e: AuditEntry, p: string, before: int) {
    e.id == "" && e.projectId == p && e.timestamp >= before
  }

  lemma {:induction false} FindEntryIff(logs: seq<AuditEntry>, id: string, p: string)
    ensures FindEntry(logs, id, p).Some? <==> exists e :: e in logs && e.id == id && e.projectId == p
  {
    if logs != [] {
      FindEntryIff(logs[1..], id, p);
      assert forall e :: e in logs <==> e == logs[0] || e in logs[1..];
    }
  }

  lemma {:induction false} FindInKept(l: Ledger, p: string, before: int)
    ensures FindEntry(Purge(l, p, before).0.logs, "", p).Some? <==>
              exists e :: e in l.logs && BlocksRecord(e, p, before)
  {
    var kept := Filter(Kept(p, before), l.logs);
    FindEntryIff(kept, "", p);
    forall e ensures e in kept <==> e in l.logs && Kept(p, before)(e) {
      FilterMember(Kept(p, before), l.logs, e);
    }
    if e :| e in kept && e.id == "" && e.projectId == p {
      assert BlocksRecord(e, p, before);
    }
    if e :| e in l.logs && BlocksRecord(e, p, before) {
      assert e in kept;
    }
  }

  /**
    A handled purge leaves its record in the log if and only if no entry of the project without ID has
    survived it; otherwise the purge goes unrecorded. Nothing but the log is changed either way.
   */
  lemma {:induction false} PurgeRecordedIff(
    h: Hasher, s: StoreState, p: string, before: int, actor: string, now: int, details: string)
    ensures var q, s' := ProjectOrDefault(p), HandlePurge(h, s, p, before, actor, now, details);
            var kept := Filter(Kept(q, before), s.ledger.logs);
            var blocked := exists e :: e in s.ledger.logs && BlocksRecord(e, q, before);
            && s' == s.(ledger := s'.ledger)
            && (blocked ==> s'.ledger.logs == kept)
            && (!blocked ==>
              && s'.ledger.logs != [] && s'.ledger.logs[1..] == kept
              && s'.ledger.logs[0].id == "" && s'.ledger.logs[0].projectId == q && s'.ledger.logs[0].timestamp == now
              && s'.ledger.logs[0].actor == actor && s'.ledger.logs[0].action == "AUDIT_LOGS_PURGED"
              && s'.ledger.logs[0].flagKey == "audit-logs" && s'.ledger.logs[0].environment == "all"
              && s'.ledger.logs[0].details == details)
  {
    FindInKept(s.ledger, ProjectOrDefault(p), before);
  }

  /**
    The next purge of the project after one that was recorded: it is recorded if and only if it removes
    that first record, that is, reaches past the time the first one was written at.
   */
  lemma {:induction false} SecondPurgeRecordedIff(
    h: Hasher, s: StoreState, p: string, before: int, actor: string, now: int, details: string,
    before2: int, actor2: string, now2: int, details2: string)
    requires forall e :: e in s.ledger.logs ==> !BlocksRecord(e, ProjectOrDefault(p), before)
    ensures var q, s1 := ProjectOrDefault(p), HandlePurge(h, s, p, before, actor, now, details);
            var s2 := HandlePurge(h, s1, p, before2, actor2, now2, details2);
            |s2.ledger.logs| == |Filter(Kept(q, before2), s1.ledger.logs)| + (if now < before2 then 1 else 0)
  {
    hide HandlePurge;
    var q, s1 := ProjectOrDefault(p), HandlePurge(h, s, p, before, actor, now, details);
    PurgeRecordedIff(h, s, p, before, actor, now, details);
    PurgeRecordedIff(h, s1, p, before2, actor2, now2, details2);
    var kept, record := Filter(Kept(q, before), s.ledger.logs), s1.ledger.logs[0];
    forall e | e in kept ensures !(e.id == "" && e.projectId == q) {
      FilterMember(Kept(q, before), s.ledger.logs, e);
      assert !BlocksRecord(e, q, before);
    }
    assert s1.ledger.logs == [record] + kept;
    assert record in s1.ledger.logs;
  }

  /** Two purges of an empty log, at 100 up to 50 and at 200 up to 60: only the first is recorded. */
  lemma {:induction false} SecondPurgeUnrecorded(h: Hasher, s: StoreState, p: string, actor: string, details: string)
    requires s.ledger.logs == []
    ensures var s1 := HandlePurge(h, s, p, 50, actor, 100, details);
            |s1.ledger.logs| == 1 && HandlePurge(h, s1, p, 60, actor, 200, details).ledger.logs == s1.ledger.logs
  {
    hide HandlePurge;
    hide Filter;
    var q, s1 := ProjectOrDefault(p), HandlePurge(h, s, p, 50, actor, 100, details);
    PurgeRecordedIff(h, s, p, 50, actor, 100, details);
    FilterNone(Kept(q, 50), []);
    var record := s1.ledger.logs[0];
    assert s1.ledger.logs == [record];
    FilterAll(Kept(q, 60), [record]);
    assert BlocksRecord(record, q, 60);
    PurgeRecordedIff(h, s1, p, 60, actor, 200, details);
  }

  // ----- The index -----

  ghost predicate FlagsOk(flags: Snapshot) {
    Table(flags.list) && flags.index == BuildIndex(flags.list)
  }

  predicate CleanOp(s: StoreState, op: Op) {
    op.Save? ==> SaveClean(s.flags.list, op.flag, op.newId)
  }

  predicate CleanAt(ss: seq<StoreState>, ops: seq<Op>, i: nat)
    requires i < |ss| && i < |ops|
  {
    CleanOp(ss[i], ops[i])
  }

  ghost predicate CleanRun(h: Hasher, ss: seq<StoreState>, ops: seq<Op>) {
    IsRun(h, ss, ops) && forall i :: 0 <= i < |ops| ==> CleanAt(ss, ops, i)
  }

  lemma {:induction false} SnapshotOfTable(fs: seq<FeatureFlag>)
    requires Table(fs)
    ensures SnapshotOf(fs) == Snapshot(fs, BuildIndex(fs))
  {
    NormalisedWellFormed(fs);
  }

  // What a step does to the flag list, apart from everything else it does.
  datatype Change =
    | Keep
    | Put(flag: FeatureFlag, newId: string, at: int)
    | Remove(project: string, name: string)
    | Alter(project: string, name: string, edit: Edit, at: int)

  function Changed(fs: seq<FeatureFlag>, c: Change): seq<FeatureFlag> {
    match c
    case Keep => fs
    case Put(flag, newId, at) => SaveInto(fs, flag, newId, at)
    case Remove(p, name) => Filter(NotNamed(p, name), fs)
    case Alter(p, name, e, at) => Rewrite(fs, p, name, e, at)
  }

  function ChangeOf(h: Hasher, s: StoreState, op: Op): Change {
    if Step(h, s, op).1.Err? then Keep
    else match op
      case Save(flag, _, newId, st) => Put(flag, newId, st.now)
      case Delete(p, name, _, _) => Remove(ProjectOrDefault(p), name)
      case Toggle(p, name, env, enabled, _, st) =>
        Alter(ProjectOrDefault(p), name, SetEnabled(EnvOrProduction(env), enabled), st.now)
      case Rollout(p, name, env, pct, _, st) =>
        Alter(ProjectOrDefault(p), name, SetRollout(EnvOrProduction(env), Clamp(pct)), st.now)
      case Apply(id, _, st) =>
        var cr := s.requests[id];
        Alter(ProjectOrDefault(cr.projectId), cr.flagKey, SetConfig(cr.environment, cr.proposed), st.now)
      case _ => Keep
  }

  lemma {:induction false} FlagsStep(h: Hasher, s: StoreState, op: Op)
    ensures Step(h, s, op).0.flags ==
            if ChangeOf(h, s, op).Keep? then s.flags else SnapshotOf(Changed(s.flags.list, ChangeOf(h, s, op)))
  {
    hide Append;
  }

  lemma {:induction false} ChangeKeepsTable(fs: seq<FeatureFlag>, c: Change)
    requires Table(fs) && (c.Put? ==> SaveClean(fs, c.flag, c.newId))
    ensures Table(Changed(fs, c))
  {
    match c
    case Keep =>
    case Put(flag, newId, at) => SaveKeepsTable(fs, flag, newId, at);
    case Remove(p, name) => DeleteKeepsTable(fs, p, name);
    case Alter(p, name, e, at) => RewriteKeepsTable(fs, p, name, e, at);
  }

  lemma {:induction false} StepKeepsFlags(h: Hasher, s: StoreState, op: Op)
    requires FlagsOk(s.flags) && CleanOp(s, op)
    ensures FlagsOk(Step(h, s, op).0.flags)
    ensures Step(h, s, op).0.flags.list == Changed(s.flags.list, ChangeOf(h, s, op))
  {
    hide Step;
    FlagsStep(h, s, op);
    ChangeKeepsTable(s.flags.list, ChangeOf(h, s, op));
    SnapshotOfTable(Changed(s.flags.list, ChangeOf(h, s, op)));
  }

  lemma {:induction false} EditEffect(
    h: Hasher, s: StoreState, p: string, name: string, e: Edit, actor: string, at: int, st: Stamp)
    requires FlagsOk(s.flags)
    ensures var (s', o) := EditFlag(h, s, p, name, e, actor, at, st);
            var fs' := Rewrite(s.flags.list, p, name, e, st.now);
            && FlagsOk(s'.flags) && s'.canaries == s.canaries
            && (o.Ok? <==> LastNamed(fs', p, name).Some?)
            && s'.flags.list == if o.Ok? then fs' else s.flags.list
  {
    hide Append;
    RewriteKeepsTable(s.flags.list, p, name, e, st.now);
    SnapshotOfTable(Rewrite(s.flags.list, p, name, e, st.now));
  }

  lemma {:induction false} RunKeepsFlags(h: Hasher, ss: seq<StoreState>, ops: seq<Op>, n: nat)
    requires CleanRun(h, ss, ops) && n <= |ops| && FlagsOk(ss[0].flags)
    ensures FlagsOk(ss[n].flags)
  {
    hide Step;
    if n > 0 {
      RunKeepsFlags(h, ss, ops, n - 1);
      assert StepAt(h, ss, ops, n - 1) && CleanAt(ss, ops, n - 1);
      StepKeepsFlags(h, ss[n - 1], ops[n - 1]);
    }
  }

  /** In every run that never saves onto another flag's name, the indexed lookup is the linear scan. */
  lemma {:induction false} IndexRefinementOverRuns(
    h: Hasher, ss: seq<StoreState>, ops: seq<Op>, n: nat, p: string, name: string)
    requires CleanRun(h, ss, ops) && n <= |ops| && FlagsOk(ss[0].flags)
    requires Free(':', name) || (Free(':', p) && ColonFreeProjects(ss[n].flags.list))
    ensures Lookup(ss[n].flags.index, p, name) == FirstNamed(ss[n].flags.list, p, name)
  {
    hide Step;
    RunKeepsFlags(h, ss, ops, n);
    IndexRefinesScan(ss[n].flags.list, p, name);
  }
}
