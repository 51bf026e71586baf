/** The audit log survives a backup, exactly as far as IDs, limit and purges allow (pkg/store/backup.go). */
module BackupLogs {
  import opened Domain
  import opened Seqs
  import opened AuditHash
  import opened AuditChain
  import opened AuditTheorems
  import opened Store
  import opened StoreTheorems
  import opened Backup

  /** Replaying settled entries with distinct IDs into an empty log reproduces the sequence exactly. */
  lemma {:induction false} ReplayIsIdentity(h: Hasher, logs: seq<AuditEntry>, times: seq<int>)
    requires Settled(logs) && DistinctIds(logs) && |times| == |logs|
    ensures Replayed(h, EMPTY, logs, times) == Ledger(logs, map[])
  {
    if logs != [] {
      var e, rest := logs[0], logs[1..];
      forall x | x in rest ensures x.id != e.id {
        var i :| 0 <= i < |rest| && rest[i] == x;
        assert rest[i] == logs[i + 1];
      }
      ReplayIsIdentity(h, rest, times[1..]);
      NotFoundIfNew(rest, e.id, e.projectId);
      assert Stamped(e, times[0]) == e && Hashed(e);
      assert [e] + rest == logs;
    }
  }

  // The entry stands at j, and no older one has its ID.
  predicate OldestAt(logs: seq<AuditEntry>, e: AuditEntry, j: nat) {
    j < |logs| && logs[j] == e && e.id !in Ids(logs[j + 1..])
  }

  ghost predicate OldestOfId(logs: seq<AuditEntry>, e: AuditEntry) {
    exists j :: OldestAt(logs, e, j)
  }

  lemma {:induction false} OldestAhead(e: AuditEntry, rest: seq<AuditEntry>, x: AuditEntry)
    ensures OldestOfId([e] + rest, x) <==> OldestOfId(rest, x) || (x == e && e.id !in Ids(rest))
  {
    var logs := [e] + rest;
    assert logs[1..] == rest;
    if j: nat :| OldestAt(logs, x, j) {
      assert j > 0 ==> logs[j + 1..] == rest[j..] && OldestAt(rest, x, j - 1);
    }
    if j: nat :| OldestAt(rest, x, j) {
      assert logs[j + 2..] == rest[j + 1..];
      assert OldestAt(logs, x, j + 1);
    }
    if x == e && e.id !in Ids(rest) {
      assert OldestAt(logs, x, 0);
    }
  }

  /** Any snapshot's log, repeated IDs or not: exactly the oldest entry of every ID is restored, as it is. */
  lemma {:induction false} ReplayIs(h: Hasher, logs: seq<AuditEntry>, times: seq<int>)
    requires Settled(logs) && |times| == |logs|
    ensures var r := Replayed(h, EMPTY, logs, times);
            && r.anchors == map[] && DistinctIds(r.logs)
            && forall e :: e in r.logs <==> OldestOfId(logs, e)
  {
    hide OldestOfId;
    if logs == [] {
      NothingOldest();
    } else {
      var e, rest := logs[0], logs[1..];
      ReplayIs(h, rest, times[1..]);
      assert logs == [e] + rest;
      forall x ensures OldestOfId(logs, x) <==> OldestOfId(rest, x) || (x == e && e.id !in Ids(rest)) {
        OldestAhead(e, rest, x);
      }
      var r := Replayed(h, EMPTY, rest, times[1..]);
      if e.id !in Ids(rest) {
        forall x | x in r.logs ensures x.id != e.id {
          OldestIsThere(rest, x);
        }
        NotFoundIfNew(r.logs, e.id, e.projectId);
        assert Stamped(e, times[0]) == e && Hashed(e);
        assert Replayed(h, EMPTY, logs, times).logs == [e] + r.logs;
        assert forall i :: 0 <= i < |r.logs| ==> r.logs[i] in r.logs;
      }
    }
  }

  lemma {:induction false} NothingOldest()
    ensures forall e :: !OldestOfId([], e)
  {
  }

  lemma {:induction false} OldestIsThere(logs: seq<AuditEntry>, e: AuditEntry)
    requires OldestOfId(logs, e)
    ensures e in logs && e.id in Ids(logs)
  {
  }

  // The IDs of all entries exported for these projects.
  function SeenIds(l: Ledger, projects: seq<string>): set<string> {
    if projects == [] then {}
    else SeenIds(l, projects[..|projects| - 1]) + Ids(Exported(l, ProjectOrDefault(projects[|projects| - 1])))
  }

  function Unseen(ids: set<string>): AuditEntry -> bool {
    (e: AuditEntry) => e.id !in ids
  }

  lemma {:induction false} IdsSnoc(es: seq<AuditEntry>, e: AuditEntry)
    ensures Ids(es + [e]) == Ids(es) + {e.id}
  {
    assert forall x :: x in es + [e] <==> x in es || x == e;
  }

  lemma {:induction false} MergedIds(acc: seq<AuditEntry>, es: seq<AuditEntry>)
    ensures Ids(Merged(acc, es)) == Ids(acc) + Ids(es)
  {
    hide Ids;
    if es == [] {
      assert Ids([]) == {} by { IdsNone(); }
    } else {
      var init, e := es[..|es| - 1], es[|es| - 1];
      assert es == init + [e];
      MergedIds(acc, init);
      IdsSnoc(init, e);
      IdsSnoc(Merged(acc, init), e);
    }
  }

  lemma {:induction false} IdsNone()
    ensures Ids([]) == {}
  {
  }

  lemma {:induction false} MergedDistinct(acc: seq<AuditEntry>, es: seq<AuditEntry>)
    requires DistinctIds(acc)
    ensures DistinctIds(Merged(acc, es))
  {
    if es != [] {
      var m := Merged(acc, es[..|es| - 1]);
      MergedDistinct(acc, es[..|es| - 1]);
      assert forall i :: 0 <= i < |m| ==> m[i] in m;
    }
  }

  /** Merging appends exactly the entries whose ID was not there yet. */
  lemma {:induction false} MergedIs(acc: seq<AuditEntry>, es: seq<AuditEntry>)
    requires DistinctIds(es)
    ensures Merged(acc, es) == acc + Filter(Unseen(Ids(acc)), es)
  {
    if es == [] {
      assert acc + es == acc;
    } else {
      var init, e := es[..|es| - 1], es[|es| - 1];
      MergedIs(acc, init);
      MergedIds(acc, init);
      NewToInit(es);
      var own := Filter(Unseen(Ids(acc)), init);
      assert acc + own + [e] == acc + (own + [e]);
      assert own + [] == own;
    }
  }

  lemma {:induction false} NewToInit(es: seq<AuditEntry>)
    requires DistinctIds(es) && es != []
    ensures es[|es| - 1].id !in Ids(es[..|es| - 1])
  {
  }

  lemma {:induction false} ExportedFacts(l: Ledger, q: string)
    requires DistinctIds(ForProject(l, q))
    ensures DistinctIds(Exported(l, q))
    ensures forall e :: e in Exported(l, q) ==> e in l.logs && e.projectId == q
  {
    forall e | e in Exported(l, q) ensures e in l.logs && e.projectId == q {
      FilterMember(InProject(q), l.logs, e);
    }
  }

  /** The snapshot's log: settled entries of the log without repeated IDs, and no ID that was not exported. */
  lemma {:induction false} SnapshotSound(l: Ledger, projects: seq<string>)
    requires Shaped(l) && NoDuplicates(projects)
    ensures var logs := SnapshotLogs(l, projects);
            && DistinctIds(logs) && Ids(logs) == SeenIds(l, projects)
            && forall e :: e in logs ==> e in l.logs && e.projectId in projects
  {
    hide Exported;
    hide Filter;
    hide ForProject;
    if projects != [] {
      var init, q := projects[..|projects| - 1], projects[|projects| - 1];
      assert projects == init + [q];
      SnapshotSound(l, init);
      assert DistinctIds(ForProject(l, q));
      ExportedFacts(l, q);
      var acc, es := SnapshotLogs(l, init), Exported(l, q);
      MergedIs(acc, es);
      MergedIds(acc, es);
      MergedDistinct(acc, es);
      forall e | e in SnapshotLogs(l, projects) ensures e in l.logs && e.projectId in projects {
        FilterMember(Unseen(Ids(acc)), es, e);
      }
    }
  }

  /**
    What the snapshot holds of each project: its exported entries in their order, but for those whose ID
    was exported before for an earlier project.
   */
  lemma {:induction false} SnapshotHolds(l: Ledger, projects: seq<string>, k: nat)
    requires Shaped(l) && NoDuplicates(projects) && k < |projects|
    ensures Filter(InProject(projects[k]), SnapshotLogs(l, projects)) ==
              Filter(Unseen(SeenIds(l, projects[..k])), Exported(l, projects[k]))
  {
    hide Exported;
    hide Filter;
    hide ForProject;
    hide Merged;
    hide Ids;
    hide SeenIds;
    var n := |projects| - 1;
    var init, q, p := projects[..n], projects[n], projects[k];
    SnapshotSound(l, init);
    assert DistinctIds(ForProject(l, q));
    ExportedFacts(l, q);
    var acc, es := SnapshotLogs(l, init), Exported(l, q);
    var own := Filter(Unseen(Ids(acc)), es);
    MergedIs(acc, es);
    assert SnapshotLogs(l, projects) == acc + own;
    FilterCat(InProject(p), acc, own);
    OwnProject(Unseen(Ids(acc)), es, q, p);
    if k == n {
      forall e | e in acc ensures e.projectId != p {
        assert e.projectId in init;
      }
      FilterNone(InProject(p), acc);
      assert [] + own == own;
    } else {
      SnapshotHolds(l, init, k);
      assert init[..k] == projects[..k];
      assert Filter(InProject(p), acc) + [] == Filter(InProject(p), acc);
    }
  }

  lemma {:induction false} OwnProject(g: AuditEntry -> bool, es: seq<AuditEntry>, q: string, p: string)
    requires forall e :: e in es ==> e.projectId == q
    ensures Filter(InProject(p), Filter(g, es)) == if p == q then Filter(g, es) else []
  {
    var own := Filter(g, es);
    forall e | e in own ensures e.projectId == q {
      FilterMember(g, es, e);
    }
    if p == q {
      FilterAll(InProject(p), own);
    } else {
      FilterNone(InProject(p), own);
    }
  }

  function Restored(h: Hasher, l: Ledger, projects: seq<string>, times: seq<int>): Ledger
    requires |times| == |SnapshotLogs(l, projects)|
  {
    Replayed(h, EMPTY, SnapshotLogs(l, projects), times)
  }

  lemma {:induction false} RestoredLog(h: Hasher, l: Ledger, projects: seq<string>, k: nat, times: seq<int>)
    requires Shaped(l) && NoDuplicates(projects) && k < |projects| && |times| == |SnapshotLogs(l, projects)|
    ensures Restored(h, l, projects, times) == Ledger(SnapshotLogs(l, projects), map[])
    ensures ForProject(Restored(h, l, projects, times), projects[k]) ==
              Filter(Unseen(SeenIds(l, projects[..k])), Exported(l, projects[k]))
  {
    SnapshotSound(l, projects);
    SnapshotHolds(l, projects, k);
    var logs := SnapshotLogs(l, projects);
    forall i | 0 <= i < |logs| ensures logs[i].projectId != "" && logs[i].timestamp != ZERO_TIME && Hashed(logs[i]) {
      assert logs[i] in l.logs;
    }
    ReplayIsIdentity(h, logs, times);
  }

  // ----- When the restored chain verifies -----

  // The entries from position c on survive, and no others.
  predicate OldestSurvive(all: seq<AuditEntry>, lost: set<string>, c: nat)
    requires c <= |all|
  {
    && (forall i :: 0 <= i < c ==> all[i].id in lost)
    && (forall i :: c <= i < |all| ==> all[i].id !in lost)
  }

  /**
    The condition on limit, base and IDs alone: nothing exported survives, or the limit cut nothing, the
    chain goes back to the genesis marker and its oldest block survives.
   */
  ghost predicate RestoreSafe(all: seq<AuditEntry>, base: string, lost: set<string>) {
    || (forall i :: 0 <= i < |all| && i < 100_000 ==> all[i].id in lost)
    || (base == GENESIS && |all| <= 100_000 && exists c :: 0 <= c <= |all| && OldestSurvive(all, lost, c))
  }

  lemma {:induction false} BlockVerifies(h: Hasher, all: seq<AuditEntry>, lost: set<string>, c: nat)
    requires Strict(h, all, GENESIS) && c <= |all| && OldestSurvive(all, lost, c)
    ensures ChainOk(h, Filter(Unseen(lost), all), GENESIS)
  {
    FilterBlock(Unseen(lost), all, c, |all|);
    var kept := all[c..|all|];
    forall i | 0 <= i < |kept| ensures LinkOk(h, kept, GENESIS, i) {
      assert StrictLink(h, all, GENESIS, c + i);
    }
  }

  // The oldest survivor of a chain that verifies from the genesis marker is the oldest entry of all.
  lemma {:induction false} OldestSurvivor(
    h: Hasher, all: seq<AuditEntry>, base: string, lost: set<string>, n: nat, m: nat)
    requires HexDigests(h) && Strict(h, all, base) && m < n <= |all|
    requires all[m].id !in lost && forall i :: m < i < n ==> all[i].id in lost
    requires ChainOk(h, Filter(Unseen(lost), all[..n]), GENESIS)
    ensures m + 1 == n == |all| && base == GENESIS
  {
    hide Strict;
    hide Payload;
    hide Filter;
    hide HexDigests;
    var g, es := Unseen(lost), all[..n];
    FilterSplit(g, es, m + 1);
    FilterSnoc(g, es, m);
    FilterNone(g, es[m + 1..]);
    var kept, newer := Filter(g, es), Filter(g, es[..m]);
    assert es[..m + 1] == all[..m + 1] && es[..m] == all[..m] && es[m] == all[m];
    assert kept == newer + [all[m]];
    assert LinkOk(h, kept, GENESIS, |newer|) && kept[|newer|] == all[m];
    PrevIsGenesis(h, all, base, m);
  }

  lemma {:induction false} PrevIsGenesis(h: Hasher, all: seq<AuditEntry>, base: string, m: nat)
    requires HexDigests(h) && Strict(h, all, base) && m < |all|
    ensures all[m].prevHash == GENESIS ==> m + 1 == |all| && base == GENESIS
  {
    hide Payload;
    assert StrictLink(h, all, base, m);
    assert m + 1 < |all| ==> StrictLink(h, all, base, m + 1);
  }

  // Nothing survives above a lost entry, when everything below it does and the chain verifies.
  lemma {:induction false} NoSurvivorAbove(h: Hasher, all: seq<AuditEntry>, lost: set<string>, c: nat, i: nat)
    requires HexDigests(h) && CollisionFree(h) && Strict(h, all, GENESIS)
    requires i + 1 < c < |all| && all[i].id !in lost && forall j :: i < j < c ==> all[j].id in lost
    requires forall j :: c <= j < |all| ==> all[j].id !in lost
    ensures !ChainOk(h, Filter(Unseen(lost), all), GENESIS)
  {
    var g := Unseen(lost);
    FilterSplit(g, all, i + 1);
    FilterSnoc(g, all, i);
    var newer, older := Filter(g, all[..i]), all[i + 1..];
    FilterBlock(g, older, c - i - 1, |older|);
    var kept := Filter(g, all);
    assert kept == newer + [all[i]] + older[c - i - 1..|older|];
    assert kept[|newer|] == all[i] && kept[|newer| + 1] == all[c];
    assert StrictLink(h, all, GENESIS, i);
    NoHashTwice(h, all, i + 1, c);
    assert !LinkOk(h, kept, GENESIS, |newer|);
  }

  lemma {:induction false} SurvivorsVerify(h: Hasher, all: seq<AuditEntry>, base: string, lost: set<string>, n: nat)
    requires HexDigests(h) && CollisionFree(h) && Strict(h, all, base)
    requires n == if |all| <= EXPORT_LIMIT then |all| else EXPORT_LIMIT
    ensures ChainOk(h, Filter(Unseen(lost), all[..n]), GENESIS) <==> RestoreSafe(all, base, lost)
  {
    hide StrictLink;
    hide LinkOk;
    var m: int := n;
    while m > 0 && all[m - 1].id in lost
      invariant 0 <= m <= n && forall i :: m <= i < n ==> all[i].id in lost
    {
      m := m - 1;
    }
    if m == 0 {
      FilterNone(Unseen(lost), all[..n]);
      assert RestoreSafe(all, base, lost);
    } else {
      var c: int := m;
      while c > 0 && all[c - 1].id !in lost
        invariant 0 <= c <= m && forall i :: c <= i < m ==> all[i].id !in lost
      {
        c := c - 1;
      }
      var i: int := c;
      while i > 0 && all[i - 1].id in lost
        invariant 0 <= i <= c && forall j :: i <= j < c ==> all[j].id in lost
      {
        i := i - 1;
      }
      if ChainOk(h, Filter(Unseen(lost), all[..n]), GENESIS) {
        OldestSurvivor(h, all, base, lost, n, m - 1);
        assert all[..n] == all;
        if i > 0 {
          NoSurvivorAbove(h, all, lost, c, i - 1);
        }
        assert OldestSurvive(all, lost, c);
      }
      if RestoreSafe(all, base, lost) {
        var c' :| 0 <= c' <= |all| && OldestSurvive(all, lost, c');
        assert all[..n] == all;
        BlockVerifies(h, all, lost, c');
      }
    }
  }

  /**
    Restoring a snapshot into an empty store, exactly: a project gets back the newest entries up to the
    limit but for those whose ID was exported for an earlier project; it gets back its whole log iff the
    limit cut nothing and no ID was lost so; and what it gets verifies iff RestoreSafe holds.
   */
  lemma {:induction false} AuditRoundTrip(h: Hasher, l: Ledger, projects: seq<string>, k: nat, times: seq<int>)
    requires HexDigests(h) && CollisionFree(h) && Shaped(l) && NoDuplicates(projects) && k < |projects|
    requires |times| == |SnapshotLogs(l, projects)|
    requires var p := projects[k]; Strict(h, ForProject(l, p), Base(l, p))
    ensures var (p, r, lost) := (projects[k], Restored(h, l, projects, times), SeenIds(l, projects[..k]));
            && ForProject(r, p) == Filter(Unseen(lost), Exported(l, p))
            && (ForProject(r, p) == ForProject(l, p) <==> CarriedWhole(l, projects, k))
            && (ChainOk(h, ForProject(r, p), Base(r, p)) <==> RestoreSafe(ForProject(l, p), Base(l, p), lost))
  {
    hide Replayed;
    hide SnapshotLogs;
    hide Filter;
    hide ForProject;
    RestoredLog(h, l, projects, k, times);
    var p, lost := projects[k], SeenIds(l, projects[..k]);
    var all := ForProject(l, p);
    var n := if |all| <= EXPORT_LIMIT then |all| else EXPORT_LIMIT;
    assert Exported(l, p) == all[..n];
    SurvivorsVerify(h, all, Base(l, p), lost, n);
    FilterWhole(Unseen(lost), all, n);
  }

  // The limit cut nothing, and no entry shares its ID with one exported for an earlier project.
  predicate CarriedWhole(l: Ledger, projects: seq<string>, k: nat)
    requires k < |projects|
  {
    var all := ForProject(l, projects[k]);
    |all| <= 100_000 && forall e :: e in all ==> e.id !in SeenIds(l, projects[..k])
  }

  lemma {:induction false} FilterWhole(g: AuditEntry -> bool, all: seq<AuditEntry>, n: nat)
    requires n <= |all|
    ensures Filter(g, all[..n]) == all <==> n == |all| && forall e :: e in all ==> g(e)
  {
    FilterShorter(g, all[..n]);
    if n == |all| && forall e :: e in all ==> g(e) {
      assert all[..n] == all;
      FilterAll(g, all);
    }
    if Filter(g, all[..n]) == all {
      forall e | e in all ensures g(e) {
        FilterMember(g, all[..n], e);
      }
    }
  }

  lemma {:induction false} FilterShorter(g: AuditEntry -> bool, es: seq<AuditEntry>)
    ensures |Filter(g, es)| <= |es|
  {
    if es != [] {
      FilterShorter(g, es[..|es| - 1]);
    }
  }

  lemma {:induction false} FindInProject(logs: seq<AuditEntry>, id: string, p: string)
    ensures FindEntry(logs, id, p) == FindEntry(Filter(InProject(p), logs), id, p)
  {
    if logs != [] {
      FindInProject(logs[1..], id, p);
      FilterCat(InProject(p), logs[..1], logs[1..]);
      assert logs == logs[..1] + logs[1..] && logs[..1][..0] == [];
      var es := Filter(InProject(p), logs[1..]);
      assert Filter(InProject(p), logs) == (if logs[0].projectId == p then [logs[0]] else []) + es;
      assert logs[0].projectId == p ==> ([logs[0]] + es)[1..] == es;
      assert [] + es == es;
    }
  }

  // The two ledgers show a project the same chain on the same base.
  ghost predicate Agree(a: Ledger, b: Ledger, p: string) {
    ForProject(a, p) == ForProject(b, p) && Base(a, p) == Base(b, p)
  }

  datatype LogOp = AppendOp(entry: AuditEntry, now: int) | PurgeOp(project: string, before: int)

  function LogStep(h: Hasher, l: Ledger, op: LogOp): Ledger {
    match op
    case AppendOp(e, now) => Append(h, l, e, now).0
    case PurgeOp(p, before) => Purge(l, ProjectOrDefault(p), before).0
  }

  function LogRun(h: Hasher, l: Ledger, ops: seq<LogOp>): Ledger {
    if ops == [] then l else LogStep(h, LogRun(h, l, ops[..|ops| - 1]), ops[|ops| - 1])
  }

  lemma {:induction false} AppendAgrees(h: Hasher, a: Ledger, b: Ledger, p: string, e: AuditEntry, now: int)
    requires Agree(a, b, p)
    ensures Agree(Append(h, a, e, now).0, Append(h, b, e, now).0, p)
    ensures Stamped(e, now).projectId == p ==> Append(h, a, e, now).1 == Append(h, b, e, now).1
  {
    AppendShape(h, a, e, now, p);
    AppendShape(h, b, e, now, p);
    FindInProject(a.logs, e.id, p);
    FindInProject(b.logs, e.id, p);
  }

  lemma {:induction false} PurgeAgrees(a: Ledger, b: Ledger, p: string, q: string, before: int)
    requires Agree(a, b, p)
    ensures Agree(Purge(a, q, before).0, Purge(b, q, before).0, p)
  {
    PurgeFilters(a, q, before, p);
    PurgeFilters(b, q, before, p);
  }

  lemma {:induction false} RunAgrees(h: Hasher, a: Ledger, b: Ledger, p: string, ops: seq<LogOp>)
    requires Agree(a, b, p)
    ensures Agree(LogRun(h, a, ops), LogRun(h, b, ops), p)
  {
    hide Agree;
    hide Append;
    hide Purge;
    if ops != [] {
      var init, op := ops[..|ops| - 1], ops[|ops| - 1];
      RunAgrees(h, a, b, p, init);
      var a', b' := LogRun(h, a, init), LogRun(h, b, init);
      match op
      case AppendOp(e, now) => AppendAgrees(h, a', b', p, e, now);
      case PurgeOp(q, before) => PurgeAgrees(a', b', p, ProjectOrDefault(q), before);
    }
  }

  // After these later appends and purges the two ledgers still show the project the same chain.
  ghost predicate AgreeAfter(h: Hasher, a: Ledger, b: Ledger, p: string, ops: seq<LogOp>) {
    Agree(LogRun(h, a, ops), LogRun(h, b, ops), p)
  }

  lemma {:induction false} AgreesForEver(h: Hasher, a: Ledger, b: Ledger, p: string)
    ensures (forall ops :: AgreeAfter(h, a, b, p, ops)) <==> Agree(a, b, p)
  {
    hide Agree;
    assert AgreeAfter(h, a, b, p, []) <==> Agree(a, b, p);
    if Agree(a, b, p) {
      forall ops ensures AgreeAfter(h, a, b, p, ops) {
        RunAgrees(h, a, b, p, ops);
      }
    }
  }

  lemma {:induction false} RestoredAgreesIff(h: Hasher, l: Ledger, projects: seq<string>, k: nat, times: seq<int>)
    requires Shaped(l) && NoDuplicates(projects) && k < |projects| && |times| == |SnapshotLogs(l, projects)|
    ensures Agree(Restored(h, l, projects, times), l, projects[k])
       <==> CarriedWhole(l, projects, k) && Base(l, projects[k]) == GENESIS
  {
    hide Filter;
    hide SnapshotLogs;
    hide Restored;
    hide ForProject;
    RestoredLog(h, l, projects, k, times);
    var all := ForProject(l, projects[k]);
    var n := if |all| <= EXPORT_LIMIT then |all| else EXPORT_LIMIT;
    assert Exported(l, projects[k]) == all[..n];
    FilterWhole(Unseen(SeenIds(l, projects[..k])), all, n);
  }

  /**
    After the restore a project's log lives on as the original would have, through any later appends and
    purges of this project and of others, with the same entries, hashes and base and so the same
    verification results, if and only if it was carried whole and never purged.
   */
  lemma {:induction false} ChainContinues(h: Hasher, l: Ledger, projects: seq<string>, k: nat, times: seq<int>)
    requires Shaped(l) && NoDuplicates(projects) && k < |projects| && |times| == |SnapshotLogs(l, projects)|
    ensures (forall ops :: AgreeAfter(h, Restored(h, l, projects, times), l, projects[k], ops))
       <==> CarriedWhole(l, projects, k) && Base(l, projects[k]) == GENESIS
  {
    RestoredAgreesIff(h, l, projects, k, times);
    AgreesForEver(h, Restored(h, l, projects, times), l, projects[k]);
  }

  // The records of a purge of "acme" and of one of "beta", neither with an ID, and one more entry of "beta".
  function TwoPurgesRecorded(h: Hasher): Ledger {
    var l1 := Append(h, EMPTY, PurgeRecord("acme", "ann", 10, ""), 10).0;
    var l2 := Append(h, l1, PurgeRecord("beta", "ann", 20, ""), 20).0;
    Append(h, l2, EntryAt("beta", "b2", 30), 30).0
  }

  // One append of a new entry, seen from two projects.
  lemma {:induction false} AppendFacts(h: Hasher, l: Ledger, e: AuditEntry, p: string, q: string)
    requires HexDigests(h) && !Hashed(e) && Shaped(l) && FromGenesis(h, ForProject(l, q), GENESIS) && l.anchors == map[]
    requires e.projectId != "" && e.timestamp != ZERO_TIME && FindEntry(l.logs, e.id, e.projectId) == None
    ensures var (l', e') := Append(h, l, e, e.timestamp);
            && Shaped(l') && FromGenesis(h, ForProject(l', q), GENESIS) && l'.anchors == map[]
            && l'.logs == [e'] + l.logs && e'.id == e.id && e'.projectId == e.projectId
            && ForProject(l', p) == (if e.projectId == p then [e'] + ForProject(l, p) else ForProject(l, p))
            && ForProject(l', q) == (if e.projectId == q then [e'] + ForProject(l, q) else ForProject(l, q))
  {
    hide Append;
    hide FromGenesis;
    hide Shaped;
    hide ForProject;
    AppendNew(h, l, e, e.timestamp, p);
    AppendNew(h, l, e, e.timestamp, q);
    AppendKeepsShape(h, l, e, e.timestamp);
    AppendFromGenesis(h, l, e, e.timestamp, q);
  }

  lemma {:induction false} TwoPurgesShape(h: Hasher) returns (a1: AuditEntry, b1: AuditEntry, b2: AuditEntry)
    requires HexDigests(h)
    ensures var l := TwoPurgesRecorded(h);
            && Shaped(l) && FromGenesis(h, ForProject(l, "beta"), GENESIS) && Base(l, "beta") == GENESIS
            && ForProject(l, "acme") == [a1] && ForProject(l, "beta") == [b2, b1]
    ensures a1.id == b1.id == "" && b2.id == "b2"
  {
    hide Append;
    hide FromGenesis;
    hide Shaped;
    hide ForProject;
    hide HexDigests;
    var e1, e2, e3 := PurgeRecord("acme", "ann", 10, ""), PurgeRecord("beta", "ann", 20, ""), EntryAt("beta", "b2", 30);
    var (l1, x1) := Append(h, EMPTY, e1, 10);
    var (l2, x2) := Append(h, l1, e2, 20);
    var (l3, x3) := Append(h, l2, e3, 30);
    a1, b1, b2 := x1, x2, x3;
    EmptyFromGenesis(h, "beta");
    EmptyProject("acme");
    EmptyProject("beta");
    EmptyShaped();
    DifferentProjects();
    AppendFacts(h, EMPTY, e1, "acme", "beta");
    assert l1.logs == [x1] + [];
    OtherProject(x1);
    AppendFacts(h, l1, e2, "acme", "beta");
    NotFoundIfNew(l2.logs, "b2", "beta");
    AppendFacts(h, l2, e3, "acme", "beta");
    assert [x1] + [] == [x1] && [x2] + [] == [x2] && [x3] + [x2] == [x3, x2];
  }

  lemma {:induction false} DifferentProjects()
    ensures "acme" != "beta"
  {
    assert "acme"[0] != "beta"[0];
  }

  lemma {:induction false} EmptyShaped()
    ensures Shaped(EMPTY)
  {
  }

  lemma {:induction false} OtherProject(e: AuditEntry)
    requires e.projectId == "acme"
    ensures FindEntry([e] + [], "", "beta") == None
  {
    DifferentProjects();
    assert ([e] + [])[1..] == [];
  }

  /**
    An input where a project that was never purged does not verify after the restore: two projects have a
    purge recorded, and both records are without ID.
   */
  lemma {:induction false} SharedIdBreaksRestore(h: Hasher, times: seq<int>)
    requires HexDigests(h) && CollisionFree(h)
    requires |times| == |SnapshotLogs(TwoPurgesRecorded(h), ["acme", "beta"])|
    ensures var l := TwoPurgesRecorded(h); var r := Restored(h, l, ["acme", "beta"], times);
            && Base(l, "beta") == GENESIS && |ForProject(l, "beta")| == 2 && ChainOk(h, ForProject(l, "beta"), GENESIS)
            && !ChainOk(h, ForProject(r, "beta"), Base(r, "beta"))
  {
    hide TwoPurgesRecorded;
    hide ForProject;
    hide Restored;
    hide SnapshotLogs;
    hide FromGenesis;
    var l, projects := TwoPurgesRecorded(h), ["acme", "beta"];
    var a1, b1, b2 := TwoPurgesShape(h);
    FromGenesisDistinct(h, ForProject(l, "beta"), GENESIS);
    forall i | 0 <= i < 2 ensures LinkOk(h, [b2, b1], GENESIS, i) {
      assert StrictLink(h, [b2, b1], GENESIS, i);
    }
    DifferentProjects();
    AuditRoundTrip(h, l, projects, 1, times);
    var lost := SeenIds(l, ["acme"]);
    assert projects[..1] == ["acme"] && ["acme"][..0] == [];
    assert Exported(l, "acme") == [a1];
    assert lost == {} + Ids([a1]);
    assert lost == {""} by { assert forall e :: e in [a1] <==> e == a1; }
    var all := [b2, b1];
    assert all[0].id !in lost && all[1].id in lost;
    assert !RestoreSafe(all, GENESIS, lost);
  }

  /**
    The same over runs: whatever the clocks did, as long as every purge took the oldest entries, a snapshot
    of any state restores each project's log as AuditRoundTrip and ChainContinues say.
   */
  lemma {:induction false} RunRoundTrip(
    h: Hasher, ss: seq<StoreState>, ops: seq<Op>, n: nat, projects: seq<string>, k: nat, times: seq<int>)
    requires HexDigests(h) && CollisionFree(h) && IsRun(h, ss, ops) && n <= |ops| && ss[0] == EMPTY_STORE
    requires forall i :: 0 <= i < |ops| ==> LogsPlainlyAt(h, ss, ops, i)
    requires forall i :: 0 <= i < n ==> PurgesOldestAt(ss, ops, i)
    requires NoDuplicates(projects) && k < |projects| && |times| == |SnapshotLogs(ss[n].ledger, projects)|
    ensures var l := ss[n].ledger; var (p, r) := (projects[k], Restored(h, l, projects, times));
            && (ChainOk(h, ForProject(r, p), Base(r, p))
                <==> RestoreSafe(ForProject(l, p), Base(l, p), SeenIds(l, projects[..k])))
            && ((forall later :: AgreeAfter(h, r, l, p, later)) <==>
                  CarriedWhole(l, projects, k) && Base(l, p) == GENESIS)
  {
    hide Restored;
    hide FromGenesis;
    RunKeepsShape(h, ss, ops, n);
    RunFromGenesis(h, ss, ops, n, projects[k]);
    FromGenesisDistinct(h, ForProject(ss[n].ledger, projects[k]), Base(ss[n].ledger, projects[k]));
    AuditRoundTrip(h, ss[n].ledger, projects, k, times);
    ChainContinues(h, ss[n].ledger, projects, k, times);
  }
}
