/** The state of the in-memory store and what each of its operations does to it (pkg/store/memory.go). */
module Store {
  import opened Domain
  import opened Text
  import opened Seqs
  import opened AuditHash
  import opened AuditChain
  import opened Flags
  import opened FlagEdits

  datatype StoreState = StoreState(
    flags: Snapshot,
    ledger: Ledger,
    requests: map<string, ChangeRequest>,
    canaries: map<string, CanarySchedule>)

  const EMPTY_STORE := StoreState(Snapshot([], map[]), EMPTY, map[], map[])

  datatype Error =
    | NotFound | ProjectRequired
    | NotPending | SelfApproval | NotApproved | Conflict
    | NoStages | NoSchedule

  datatype Outcome = Ok | Err(error: Error)

  // What an operation reads from its surroundings: clock readings, a generated ID and the rendered text.
  datatype Stamp = Stamp(logId: string, now: int, loggedAt: int, details: string)

  const RESTORE_ACTOR := "snapshot_restore"

  function ActorOr(actor: string, default: string): string {
    if actor == "" then default else actor
  }

  function LogEntry(
    p: string, actor: string, action: string, flagKey: string, env: string, at: int, st: Stamp): AuditEntry
  {
    AuditEntry(st.logId, p, at, actor, action, flagKey, env, st.details, "", "")
  }

  function Logged(h: Hasher, s: StoreState, e: AuditEntry, now: int): StoreState {
    s.(ledger := Append(h, s.ledger, e, now).0)
  }

  // ----- Flags -----

  function SaveEntry(s: StoreState, flag: FeatureFlag, actor: string, st: Stamp): AuditEntry {
    LogEntry(flag.projectId, ActorOr(actor, "developer@flagura.dev"),
             if MatchIndex(s.flags.list, flag) < |s.flags.list| then "FLAG_UPDATED" else "FLAG_CREATED",
             flag.key, "all", st.now, st)
  }

  function SaveFlag(
    h: Hasher, s: StoreState, flag: FeatureFlag, actor: string, newId: string, st: Stamp): (StoreState, Outcome)
  {
    if TrimSpace(flag.projectId) == "" then (s, Err(ProjectRequired))
    else
      var s' := s.(flags := SnapshotOf(SaveInto(s.flags.list, flag, newId, st.now)));
      (if actor == RESTORE_ACTOR then s' else Logged(h, s', SaveEntry(s, flag, actor, st), st.now), Ok)
  }

  function DeleteFlag(
    h: Hasher, s: StoreState, p: string, name: string, actor: string, st: Stamp): (StoreState, Outcome)
  {
    var p := ProjectOrDefault(p);
    match LastNamed(s.flags.list, p, name)
    case None => (s, Err(NotFound))
    case Some(f) =>
      var s' := s.(flags := SnapshotOf(Filter(NotNamed(p, name), s.flags.list)));
      var e := LogEntry(p, ActorOr(actor, "admin@flagura.dev"), "FLAG_DELETED", f.key, "all", st.loggedAt, st);
      (Logged(h, s', e, st.now), Ok)
  }

  function ActionOf(e: Edit): string {
    match e
    case SetEnabled(_, _) => "KILL_SWITCH_TOGGLED"
    case SetRollout(_, _) => "ROLLOUT_UPDATED"
    case SetConfig(_, _) => "APPLY_CHANGE_REQUEST"
  }

  function EditFlag(
    h: Hasher, s: StoreState, p: string, name: string, e: Edit, actor: string, at: int,
    st: Stamp): (StoreState, Outcome)
  {
    var list := Rewrite(s.flags.list, p, name, e, st.now);
    match LastNamed(list, p, name)
    case None => (s, Err(NotFound))
    case Some(f) =>
      var entry := LogEntry(p, actor, ActionOf(e), f.key, e.env, at, st);
      (Logged(h, s.(flags := SnapshotOf(list)), entry, st.now), Ok)
  }

  function ToggleFlag(
    h: Hasher, s: StoreState, p: string, name: string, env: string, enabled: Option<bool>, actor: string,
    st: Stamp): (StoreState, Outcome)
  {
    EditFlag(h, s, ProjectOrDefault(p), name, SetEnabled(EnvOrProduction(env), enabled),
             ActorOr(actor, "admin@flagura.dev"), st.loggedAt, st)
  }

  function UpdateRollout(
    h: Hasher, s: StoreState, p: string, name: string, env: string, pct: real, actor: string,
    st: Stamp): (StoreState, Outcome)
  {
    EditFlag(h, s, ProjectOrDefault(p), name, SetRollout(EnvOrProduction(env), Clamp(pct)),
             ActorOr(actor, "engineer@flagura.dev"), st.loggedAt, st)
  }

  // ----- Change requests -----

  function CreateRequest(s: StoreState, cr: ChangeRequest, newId: string, now: int): (StoreState, Outcome) {
    var id := if cr.id == "" then newId else cr.id;
    (s.(requests := s.requests[id := cr.(id := id, status := Pending, createdAt := now)]), Ok)
  }

  function Reviewed(
    cr: ChangeRequest, reviewer: string, approved: bool, comments: string, now: int): (ChangeRequest, Outcome)
  {
    if !cr.status.Pending? then (cr, Err(NotPending))
    else if cr.authorId == reviewer then (cr, Err(SelfApproval))
    else
      (cr.(reviewerId := reviewer, comments := comments, reviewedAt := Some(now),
           status := if approved then Approved else Rejected), Ok)
  }

  function ReviewRequest(
    s: StoreState, id: string, reviewer: string, approved: bool, comments: string, now: int): (StoreState, Outcome)
  {
    if id !in s.requests then (s, Err(NotFound))
    else
      var (cr, o) := Reviewed(s.requests[id], reviewer, approved, comments, now);
      (if o.Ok? then s.(requests := s.requests[id := cr]) else s, o)
  }

  predicate Conflicts(fs: seq<FeatureFlag>, cr: ChangeRequest) {
    exists i :: 0 <= i < |fs| && Named(fs[i], ProjectOrDefault(cr.projectId), cr.flagKey)
                && cr.baseVersion > 0 && fs[i].version != cr.baseVersion
  }

  function ApplyRequest(h: Hasher, s: StoreState, id: string, actor: string, st: Stamp): (StoreState, Outcome) {
    if id !in s.requests then (s, Err(NotFound))
    else
      var cr := s.requests[id];
      if !cr.status.Approved? then (s, Err(NotApproved))
      else if Conflicts(s.flags.list, cr) then (s, Err(Conflict))
      else
        var (s', o) := EditFlag(h, s, ProjectOrDefault(cr.projectId), cr.flagKey,
                                SetConfig(cr.environment, cr.proposed),
                                actor, st.now, st);
        if o.Ok? then
          (s'.(requests := s.requests[id := cr.(status := Applied, appliedAt := Some(st.now))]), Ok)
        else (s, o)
  }

  // ----- Canary schedules -----

  function ScheduleKey(p: string, flagKey: string): string {
    IndexKey(ProjectOrDefault(p), flagKey)
  }

  function SaveCanary(s: StoreState, c: CanarySchedule, now: int): StoreState {
    var c' := c.(projectId := ProjectOrDefault(c.projectId),
                 createdAt := if c.createdAt == ZERO_TIME then now else c.createdAt,
                 updatedAt := now);
    s.(canaries := s.canaries[ScheduleKey(c.projectId, c.flagKey) := c'])
  }

  // ----- The operations as data, and runs of them -----

  datatype Op =
    | Save(flag: FeatureFlag, actor: string, newId: string, st: Stamp)
    | Delete(project: string, name: string, actor: string, st: Stamp)
    | Toggle(project: string, name: string, env: string, enabled: Option<bool>, actor: string, st: Stamp)
    | Rollout(project: string, name: string, env: string, pct: real, actor: string, st: Stamp)
    | Create(cr: ChangeRequest, newId: string, now: int)
    | Review(id: string, reviewer: string, approved: bool, comments: string, now: int)
    | Apply(id: string, actor: string, st: Stamp)
    | AppendLog(entry: AuditEntry, now: int)
    | PurgeLogs(project: string, before: int)

  function Step(h: Hasher, s: StoreState, op: Op): (StoreState, Outcome) {
    match op
    case Save(flag, actor, newId, st) => SaveFlag(h, s, flag, actor, newId, st)
    case Delete(p, name, actor, st) => DeleteFlag(h, s, p, name, actor, st)
    case Toggle(p, name, env, enabled, actor, st) => ToggleFlag(h, s, p, name, env, enabled, actor, st)
    case Rollout(p, name, env, pct, actor, st) => UpdateRollout(h, s, p, name, env, pct, actor, st)
    case Create(cr, newId, now) => CreateRequest(s, cr, newId, now)
    case Review(id, reviewer, approved, comments, now) => ReviewRequest(s, id, reviewer, approved, comments, now)
    case Apply(id, actor, st) => ApplyRequest(h, s, id, actor, st)
    case AppendLog(entry, now) => (Logged(h, s, entry, now), Ok)
    case PurgeLogs(p, before) => (s.(ledger := Purge(s.ledger, ProjectOrDefault(p), before).0), Ok)
  }

  // A run: the states between the operations, one more than there are operations.
  ghost predicate StepAt(h: Hasher, ss: seq<StoreState>, ops: seq<Op>, i: nat)
    requires |ss| == |ops| + 1 && i < |ops|
  {
    ss[i + 1] == Step(h, ss[i], ops[i]).0
  }

  ghost predicate IsRun(h: Hasher, ss: seq<StoreState>, ops: seq<Op>) {
    |ss| == |ops| + 1 && forall i :: 0 <= i < |ops| ==> StepAt(h, ss, ops, i)
  }
}
