/** Change requests over whole runs: four eyes and no lost update (pkg/store/memory.go, pkg/domain/workspace.go). */
module Governance {
  import opened Domain
  import opened Seqs
  import opened Text
  import opened AuditHash
  import opened AuditChain
  import opened Flags
  import opened FlagEdits
  import opened Store
  import opened StoreTheorems

  // ----- Four eyes -----

  predicate Creates(op: Op, id: string) {
    op.Create? && id == if op.cr.id == "" then op.newId else op.cr.id
  }

  // What the author fixed when the request was created.
  predicate SameProposal(a: ChangeRequest, b: ChangeRequest) {
    && a.projectId == b.projectId && a.flagKey == b.flagKey && a.environment == b.environment
    && a.authorId == b.authorId && a.proposed == b.proposed && a.baseVersion == b.baseVersion
  }

  predicate MayFollow(a: RequestStatus, b: RequestStatus) {
    a == b || (a.Pending? && (b.Approved? || b.Rejected?)) || (a.Approved? && b.Applied?)
  }

  predicate ReviewedBy(op: Op, id: string, cr: ChangeRequest) {
    && op.Review? && op.id == id
    && op.reviewer == cr.reviewerId != cr.authorId
    && op.approved == !cr.status.Rejected?
  }

  /** One step moves a request only along the workflow, and only by a foreign review or a successful apply. */
  lemma {:induction false} RequestStep(h: Hasher, s: StoreState, op: Op, id: string)
    requires id in s.requests && !Creates(op, id)
    ensures var (s', o) := Step(h, s, op);
            && id in s'.requests
            && var (cr, cr') := (s.requests[id], s'.requests[id]);
            && SameProposal(cr, cr')
            && MayFollow(cr.status, cr'.status)
            && (cr'.status != cr.status && !cr'.status.Applied? ==> ReviewedBy(op, id, cr'))
            && (cr'.status != cr.status && cr'.status.Applied? ==> op.Apply? && op.id == id && o.Ok?)
            && (cr'.status == cr.status || cr'.status.Applied? ==> cr'.reviewerId == cr.reviewerId)
  {
  }

  lemma {:induction false} RequestOrigin(h: Hasher, s: StoreState, op: Op, id: string)
    requires id !in s.requests && !Creates(op, id)
    ensures id !in Step(h, s, op).0.requests
  {
  }

  lemma {:induction false} CreateStep(h: Hasher, s: StoreState, op: Op, id: string)
    requires Creates(op, id)
    ensures var s' := Step(h, s, op).0;
            id in s'.requests && s'.requests[id].status.Pending? && SameProposal(s'.requests[id], op.cr)
  {
  }

  /**
    The life of a request, read off any run: the create that made it, then, once it is decided, a review
    by somebody other than its author, then, once it is applied, the successful apply of that proposal.
   */
  lemma {:induction false} FourEyesHistory(h: Hasher, ss: seq<StoreState>, ops: seq<Op>, n: nat, id: string)
    returns (c: nat, r: nat, a: nat)
    requires IsRun(h, ss, ops) && n <= |ops| && id !in ss[0].requests && id in ss[n].requests
    ensures c < n && Creates(ops[c], id) && forall i :: c < i < n ==> !Creates(ops[i], id)
    ensures var cr := ss[n].requests[id];
            && SameProposal(cr, ops[c].cr)
            && (!cr.status.Pending? ==>
              && c < r < n && ops[r].Review? && ops[r].id == id
              && ops[r].reviewer == cr.reviewerId != cr.authorId
              && ops[r].approved == !cr.status.Rejected?)
            && (cr.status.Applied? ==>
              && r < a < n && ops[a].Apply? && ops[a].id == id
              && id in ss[a].requests && SameProposal(ss[a].requests[id], ops[c].cr)
              && Step(h, ss[a], ops[a]).1.Ok?)
  {
    hide Step;
    c, r, a := 0, 0, 0;
    var op, s1 := ops[n - 1], ss[n - 1];
    assert StepAt(h, ss, ops, n - 1);
    if Creates(op, id) {
      CreateStep(h, s1, op, id);
      c := n - 1;
    } else {
      if id !in s1.requests {
        RequestOrigin(h, s1, op, id);
        assert false;
      }
      c, r, a := FourEyesHistory(h, ss, ops, n - 1, id);
      RequestStep(h, s1, op, id);
      var cr, cr' := s1.requests[id], ss[n].requests[id];
      if cr'.status != cr.status {
        if cr'.status.Applied? {
          a := n - 1;
        } else {
          r := n - 1;
        }
      }
    }
  }

  lemma {:induction false} ApplyRewrites(h: Hasher, s: StoreState, id: string, actor: string, st: Stamp)
    requires FlagsOk(s.flags) && id in s.requests && ApplyRequest(h, s, id, actor, st).1.Ok?
    ensures var cr, s' := s.requests[id], ApplyRequest(h, s, id, actor, st).0;
            && FlagsOk(s'.flags)
            && s'.flags.list == Rewrite(s.flags.list, ProjectOrDefault(cr.projectId), cr.flagKey,
                                        SetConfig(cr.environment, cr.proposed), st.now)
  {
    hide EditFlag;
    var op := Apply(id, actor, st);
    assert Step(h, s, op) == ApplyRequest(h, s, id, actor, st);
    StepKeepsFlags(h, s, op);
  }

  /** A successful apply puts the proposed configuration, and nothing else, into the named flag. */
  lemma {:induction false} ApplyInstalls(h: Hasher, s: StoreState, id: string, actor: string, st: Stamp)
    requires FlagsOk(s.flags) && id in s.requests && ApplyRequest(h, s, id, actor, st).1.Ok?
    ensures var cr, fs, fs' := s.requests[id], s.flags.list, ApplyRequest(h, s, id, actor, st).0.flags.list;
            var p := ProjectOrDefault(cr.projectId);
            && |fs'| == |fs|
            && (exists i :: 0 <= i < |fs| && Named(fs[i], p, cr.flagKey))
            && forall i :: 0 <= i < |fs| ==>
                if Named(fs[i], p, cr.flagKey) then
                  && fs'[i].environments == fs[i].environments[cr.environment := cr.proposed]
                  && fs'[i].version == fs[i].version + 1
                  && (cr.baseVersion > 0 ==> fs[i].version == cr.baseVersion)
                else fs'[i] == fs[i]
  {
    hide Append;
    var cr, fs := s.requests[id], s.flags.list;
    var p, e := ProjectOrDefault(cr.projectId), SetConfig(cr.environment, cr.proposed);
    ApplyRewrites(h, s, id, actor, st);
    var k := LastNamedIs(Rewrite(fs, p, cr.flagKey, e, st.now), p, cr.flagKey);
    assert Named(fs[k], p, cr.flagKey);
  }

  // ----- No lost update -----

  // The change neither deletes the flag nor gives it another key.
  predicate Spares(fs: seq<FeatureFlag>, c: Change, f: FeatureFlag) {
    match c
    case Remove(p, name) => !Named(f, p, name)
    case Put(flag, _, _) =>
      var i := MatchIndex(fs, flag);
      i < |fs| && fs[i] == f ==> flag.key == f.key
    case _ => true
  }

  // The flag may have moved on to a later version, but at the same version it is the same flag.
  predicate Later(f: FeatureFlag, f': FeatureFlag) {
    && f'.id == f.id && f'.key == f.key && f'.projectId == f.projectId
    && f'.version >= f.version
    && (f'.version == f.version ==> f' == f)
  }

  lemma {:induction false} OnlyNamed(fs: seq<FeatureFlag>, p: string, name: string, k: nat)
    requires UniqueNames(fs) && k < |fs| && Named(fs[k], p, name)
    ensures LastNamed(fs, p, name) == Some(fs[k])
    ensures forall i :: 0 <= i < |fs| && Named(fs[i], p, name) ==> i == k
  {
    forall i | 0 <= i < |fs| && Named(fs[i], p, name) ensures i == k {
      assert i < k ==> Clash(fs[i], fs[k]);
      assert k < i ==> Clash(fs[k], fs[i]);
    }
    var m := LastNamedIs(fs, p, name);
  }

  lemma {:induction false} SaveIsLater(
    fs: seq<FeatureFlag>, flag: FeatureFlag, newId: string, now: int, p: string, name: string, k: nat)
    requires Table(fs) && SaveClean(fs, flag, newId) && k < |fs| && Named(fs[k], p, name)
    requires MatchIndex(fs, flag) == k ==> flag.key == fs[k].key
    ensures var fs' := SaveInto(fs, flag, newId, now);
            LastNamed(fs', p, name).Some? && Later(fs[k], LastNamed(fs', p, name).value)
  {
    SaveKeepsTable(fs, flag, newId, now);
    var fs', m := SaveInto(fs, flag, newId, now), MatchIndex(fs, flag);
    var k' := if m < |fs| then k else k + 1;
    assert Later(fs[k], fs'[k']);
    OnlyNamed(fs', p, name, k');
  }

  lemma {:induction false} DeleteIsLater(
    fs: seq<FeatureFlag>, p: string, name: string, q: string, other: string, k: nat)
    requires Table(fs) && k < |fs| && Named(fs[k], p, name) && !Named(fs[k], q, other)
    ensures LastNamed(Filter(NotNamed(q, other), fs), p, name) == Some(fs[k])
  {
    DeleteKeepsTable(fs, q, other);
    FilterMember(NotNamed(q, other), fs, fs[k]);
    var fs' := Filter(NotNamed(q, other), fs);
    var k' :| 0 <= k' < |fs'| && fs'[k'] == fs[k];
    OnlyNamed(fs', p, name, k');
  }

  lemma {:induction false} EditIsLater(
    fs: seq<FeatureFlag>, p: string, name: string, q: string, other: string, e: Edit, now: int, k: nat)
    requires Table(fs) && k < |fs| && Named(fs[k], p, name)
    ensures var fs' := Rewrite(fs, q, other, e, now);
            LastNamed(fs', p, name).Some? && Later(fs[k], LastNamed(fs', p, name).value)
  {
    RewriteKeepsTable(fs, q, other, e, now);
    OnlyNamed(Rewrite(fs, q, other, e, now), p, name, k);
  }

  /** Every operation that spares a flag leaves it alone or moves it to a strictly later version. */
  lemma {:induction false} VersionStep(h: Hasher, s: StoreState, op: Op, p: string, name: string, f: FeatureFlag)
    requires FlagsOk(s.flags) && CleanOp(s, op) && LastNamed(s.flags.list, p, name) == Some(f)
    requires Spares(s.flags.list, ChangeOf(h, s, op), f)
    ensures var fs' := Step(h, s, op).0.flags.list;
            LastNamed(fs', p, name).Some? && Later(f, LastNamed(fs', p, name).value)
  {
    hide Step;
    var fs := s.flags.list;
    var k := LastNamedIs(fs, p, name);
    StepKeepsFlags(h, s, op);
    match ChangeOf(h, s, op)
    case Keep =>
    case Put(flag, newId, at) => SaveIsLater(fs, flag, newId, at, p, name, k);
    case Remove(q, other) => DeleteIsLater(fs, p, name, q, other, k);
    case Alter(q, other, e, at) => EditIsLater(fs, p, name, q, other, e, at, k);
  }

  // Along the run, the flag that bears the name is never deleted or renamed.
  ghost predicate SparesAt(h: Hasher, ss: seq<StoreState>, ops: seq<Op>, p: string, name: string, i: nat)
    requires i < |ss| && i < |ops|
  {
    var fs := ss[i].flags.list;
    LastNamed(fs, p, name).Some? ==> Spares(fs, ChangeOf(h, ss[i], ops[i]), LastNamed(fs, p, name).value)
  }

  ghost predicate SparingRun(h: Hasher, ss: seq<StoreState>, ops: seq<Op>, p: string, name: string) {
    CleanRun(h, ss, ops) && forall i :: 0 <= i < |ops| ==> SparesAt(h, ss, ops, p, name, i)
  }

  lemma {:induction false} VersionRun(
    h: Hasher, ss: seq<StoreState>, ops: seq<Op>, i: nat, j: nat, p: string, name: string)
    requires SparingRun(h, ss, ops, p, name) && i <= j <= |ops| && FlagsOk(ss[0].flags)
    requires LastNamed(ss[i].flags.list, p, name).Some?
    ensures LastNamed(ss[j].flags.list, p, name).Some?
    ensures Later(LastNamed(ss[i].flags.list, p, name).value, LastNamed(ss[j].flags.list, p, name).value)
  {
    hide Step;
    if i < j {
      VersionRun(h, ss, ops, i, j - 1, p, name);
      RunKeepsFlags(h, ss, ops, j - 1);
      assert StepAt(h, ss, ops, j - 1) && CleanAt(ss, ops, j - 1) && SparesAt(h, ss, ops, p, name, j - 1);
      VersionStep(h, ss[j - 1], ops[j - 1], p, name, LastNamed(ss[j - 1].flags.list, p, name).value);
    }
  }

  // Step k of the run successfully applies a request, based on the given version, that found the flag by
  // its key or by its ID.
  ghost predicate AppliesAt(h: Hasher, ss: seq<StoreState>, ops: seq<Op>, k: nat, p: string, id: string, version: nat)
    requires k < |ss| && k < |ops|
  {
    && ops[k].Apply? && ops[k].id in ss[k].requests
    && Finds(ss[k], ss[k].requests[ops[k].id], p, id)
    && ss[k].requests[ops[k].id].baseVersion == version
    && Step(h, ss[k], ops[k]).1.Ok?
  }

  predicate Finds(s: StoreState, cr: ChangeRequest, p: string, id: string) {
    && ProjectOrDefault(cr.projectId) == p
    && LastNamed(s.flags.list, p, cr.flagKey).Some? && LastNamed(s.flags.list, p, cr.flagKey).value.id == id
  }

  lemma {:induction false} FoundById(fs: seq<FeatureFlag>, p: string, name: string)
    requires UniqueNames(fs) && LastNamed(fs, p, name).Some?
    ensures LastNamed(fs, p, LastNamed(fs, p, name).value.id) == LastNamed(fs, p, name)
  {
    var k := LastNamedIs(fs, p, name);
    OnlyNamed(fs, p, fs[k].id, k);
  }

  /** When an apply based on version v > 0 succeeds, the flag is exactly what it was when v was read. */
  lemma {:induction false} NoLostUpdate(
    h: Hasher, ss: seq<StoreState>, ops: seq<Op>, i: nat, k: nat, p: string, f: FeatureFlag)
    requires SparingRun(h, ss, ops, p, f.id) && i <= k < |ops| && FlagsOk(ss[0].flags)
    requires LastNamed(ss[i].flags.list, p, f.id) == Some(f)
    requires AppliesAt(h, ss, ops, k, p, f.id, f.version)
    ensures LastNamed(ss[k].flags.list, p, f.id) == Some(f)
  {
    hide Step;
    RunKeepsFlags(h, ss, ops, i);
    RunKeepsFlags(h, ss, ops, k);
    VersionRun(h, ss, ops, i, k, p, f.id);
    var m := LastNamedIs(ss[i].flags.list, p, f.id);
    AppliedVersion(h, ss[k], ops[k], p, f.id);
  }

  /** A request is applied iff it is there, approved, and its flag is found at its base version, if it has one. */
  lemma {:induction false} AppliesIff(h: Hasher, s: StoreState, id: string, actor: string, st: Stamp)
    requires FlagsOk(s.flags)
    ensures ApplyRequest(h, s, id, actor, st).1.Ok?
            <==>
              && id in s.requests && s.requests[id].status.Approved?
              && var cr := s.requests[id];
                 var found := LastNamed(s.flags.list, ProjectOrDefault(cr.projectId), cr.flagKey);
                 found.Some? && (cr.baseVersion > 0 ==> found.value.version == cr.baseVersion)
  {
    hide Append;
    if id in s.requests {
      var cr, fs := s.requests[id], s.flags.list;
      var p, e := ProjectOrDefault(cr.projectId), SetConfig(cr.environment, cr.proposed);
      var k := LastNamedIs(fs, p, cr.flagKey);
      var m := LastNamedIs(Rewrite(fs, p, cr.flagKey, e, st.now), p, cr.flagKey);
      if k >= 0 {
        OnlyNamed(fs, p, cr.flagKey, k);
        assert Named(Rewrite(fs, p, cr.flagKey, e, st.now)[k], p, cr.flagKey);
      }
    }
  }

  lemma {:induction false} AppliedVersion(h: Hasher, s: StoreState, op: Op, p: string, id: string)
    requires FlagsOk(s.flags) && op.Apply? && op.id in s.requests && Finds(s, s.requests[op.id], p, id)
    requires Step(h, s, op).1.Ok?
    ensures var f, f' := LastNamed(s.flags.list, p, id), LastNamed(Step(h, s, op).0.flags.list, p, id);
            && f.Some? && (s.requests[op.id].baseVersion > 0 ==> f.value.version == s.requests[op.id].baseVersion)
            && f'.Some? && f'.value.version == f.value.version + 1
  {
    hide Append;
    hide EditFlag;
    var cr, fs := s.requests[op.id], s.flags.list;
    assert Step(h, s, op) == ApplyRequest(h, s, op.id, op.actor, op.st);
    AppliesIff(h, s, op.id, op.actor, op.st);
    ApplyInstalls(h, s, op.id, op.actor, op.st);
    ApplyRewrites(h, s, op.id, op.actor, op.st);
    FoundById(fs, p, cr.flagKey);
    var m := LastNamedIs(fs, p, cr.flagKey);
    OnlyNamed(Step(h, s, op).0.flags.list, p, id, m);
  }

  /**
    Of any number of requests based on the same version of a flag, whether they name it by key or by ID,
    a run applies at most one.
   */
  lemma {:induction false} AtMostOneApplies(
    h: Hasher, ss: seq<StoreState>, ops: seq<Op>, i: nat, k: nat,
    p: string, id: string, version: nat)
    requires SparingRun(h, ss, ops, p, id) && i < |ops| && k < |ops| && FlagsOk(ss[0].flags) && version > 0
    requires AppliesAt(h, ss, ops, i, p, id, version) && AppliesAt(h, ss, ops, k, p, id, version)
    ensures i == k
  {
    hide Step;
    RunKeepsFlags(h, ss, ops, i);
    RunKeepsFlags(h, ss, ops, k);
    AppliedVersion(h, ss[i], ops[i], p, id);
    AppliedVersion(h, ss[k], ops[k], p, id);
    assert StepAt(h, ss, ops, i) && StepAt(h, ss, ops, k);
    if i < k {
      VersionRun(h, ss, ops, i + 1, k, p, id);
    } else if k < i {
      VersionRun(h, ss, ops, k + 1, i, p, id);
    }
  }

  /** An operation that reports an error, a conflicting apply above all, has changed nothing. */
  lemma {:induction false} FailureChangesNothing(h: Hasher, s: StoreState, op: Op)
    ensures Step(h, s, op).1.Err? ==> Step(h, s, op).0 == s
  {
  }

  // ----- A flag deleted and recreated -----

  lemma {:induction false} DeletedFlags(h: Hasher, s: StoreState, p: string, name: string, actor: string, st: Stamp)
    requires FlagsOk(s.flags) && DeleteFlag(h, s, p, name, actor, st).1.Ok?
    ensures var s' := DeleteFlag(h, s, p, name, actor, st).0;
            && FlagsOk(s'.flags) && s'.requests == s.requests
            && s'.flags.list == Filter(NotNamed(ProjectOrDefault(p), name), s.flags.list)
  {
    hide Append;
    var op := Delete(p, name, actor, st);
    assert Step(h, s, op) == DeleteFlag(h, s, p, name, actor, st);
    StepKeepsFlags(h, s, op);
  }

  lemma {:induction false} SavedFlags(
    h: Hasher, s: StoreState, flag: FeatureFlag, actor: string, newId: string, st: Stamp)
    requires FlagsOk(s.flags) && SaveClean(s.flags.list, flag, newId) && SaveFlag(h, s, flag, actor, newId, st).1.Ok?
    ensures var s' := SaveFlag(h, s, flag, actor, newId, st).0;
            && FlagsOk(s'.flags) && s'.requests == s.requests
            && s'.flags.list == SaveInto(s.flags.list, flag, newId, st.now)
  {
    hide Append;
    var op := Save(flag, actor, newId, st);
    assert Step(h, s, op) == SaveFlag(h, s, flag, actor, newId, st);
    StepKeepsFlags(h, s, op);
  }

  /** After a save that the request's name finds, the request is applied iff the saved version is its base. */
  lemma {:induction false} AppliesAfterSaveIff(
    h: Hasher, s: StoreState, flag: FeatureFlag, saver: string, newId: string, saved: Stamp,
    id: string, applier: string, applied: Stamp)
    requires FlagsOk(s.flags) && SaveClean(s.flags.list, flag, newId)
    requires SaveFlag(h, s, flag, saver, newId, saved).1.Ok?
    requires id in s.requests && s.requests[id].status.Approved? && s.requests[id].baseVersion > 0
    requires var cr := s.requests[id];
             Named(Saved(s.flags.list, flag, newId, saved.now), ProjectOrDefault(cr.projectId), cr.flagKey)
    ensures ApplyRequest(h, SaveFlag(h, s, flag, saver, newId, saved).0, id, applier, applied).1.Ok?
            <==> Saved(s.flags.list, flag, newId, saved.now).version == s.requests[id].baseVersion
  {
    hide Append;
    hide SaveFlag;
    hide ApplyRequest;
    var cr, fs, s' := s.requests[id], s.flags.list, SaveFlag(h, s, flag, saver, newId, saved).0;
    SavedFlags(h, s, flag, saver, newId, saved);
    AppliesIff(h, s', id, applier, applied);
    var m := MatchIndex(fs, flag);
    OnlyNamed(s'.flags.list, ProjectOrDefault(cr.projectId), cr.flagKey, if m < |fs| then m else 0);
  }

  /**
    The exact reach of a stale request: after the flag is deleted and a save creates one that its name
    finds, it is applied if and only if the version given to that save (one if none) is its base version.
   */
  lemma {:induction false} StaleRequestAppliesIff(
    h: Hasher, s: StoreState, p: string, name: string, deleter: string, deleted: Stamp,
    flag: FeatureFlag, saver: string, newId: string, saved: Stamp, id: string, applier: string, applied: Stamp)
    requires FlagsOk(s.flags) && DeleteFlag(h, s, p, name, deleter, deleted).1.Ok?
    requires var fs := Filter(NotNamed(ProjectOrDefault(p), name), s.flags.list);
             MatchIndex(fs, flag) == |fs| && SaveClean(fs, flag, newId) && TrimSpace(flag.projectId) != ""
    requires id in s.requests && s.requests[id].status.Approved? && s.requests[id].baseVersion > 0
    requires var cr := s.requests[id]; var newName := if flag.id == "" then newId else flag.id;
             ProjectOrDefault(cr.projectId) == flag.projectId && (cr.flagKey == flag.key || cr.flagKey == newName)
    ensures var s1 := DeleteFlag(h, s, p, name, deleter, deleted).0;
            var s2 := SaveFlag(h, s1, flag, saver, newId, saved).0;
            ApplyRequest(h, s2, id, applier, applied).1.Ok?
            <==> (if flag.version == 0 then 1 else flag.version) == s.requests[id].baseVersion
  {
    hide Append;
    hide DeleteFlag;
    hide ApplyRequest;
    DeletedFlags(h, s, p, name, deleter, deleted);
    var s1 := DeleteFlag(h, s, p, name, deleter, deleted).0;
    AppliesAfterSaveIff(h, s1, flag, saver, newId, saved, id, applier, applied);
  }

  /** One such history: "checkout" deleted at version 3 and created again, with other content, as version 3. */
  lemma {:induction false} RecreatedFlagAcceptsStaleRequest(
    h: Hasher, s: StoreState, f: FeatureFlag, deleter: string, deleted: Stamp,
    flag: FeatureFlag, saver: string, saved: Stamp, id: string, applier: string, applied: Stamp)
    requires s.flags == SnapshotOf([f])
    requires f.id == "f1" && f.key == "checkout" && f.projectId == "acme" && f.version == 3
    requires flag == f.(id := "f2", environments := flag.environments)
    requires id in s.requests && s.requests[id].status.Approved? && s.requests[id].baseVersion == 3
    requires s.requests[id].projectId == "acme" && s.requests[id].flagKey == "checkout"
    ensures var s1 := DeleteFlag(h, s, "acme", "checkout", deleter, deleted).0;
            ApplyRequest(h, SaveFlag(h, s1, flag, saver, "", saved).0, id, applier, applied).1.Ok?
  {
    hide ApplyRequest;
    hide SaveFlag;
    hide Append;
    hide BuildIndex;
    assert Normalised([f]) == [f] && Table([f]);
    assert LastNamed([f], "acme", "checkout") == Some(f);
    FilterNone(NotNamed("acme", "checkout"), [f]);
    assert TrimSpace("acme") != "";
    StaleRequestAppliesIff(h, s, "acme", "checkout", deleter, deleted, flag, saver, "", saved, id, applier, applied);
  }
}
