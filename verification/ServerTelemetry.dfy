/**
  The server's telemetry aggregator: totals, hourly points, unique users and eviction
  (pkg/api/handlers_telemetry.go).
 */
module ServerTelemetry {
  import opened Domain
  import opened Tally

  const MAX_FLAGS := 1000
  const MAX_TRACKED_USERS := 10000
  const HOURS := 24
  const MAX_INT64 := 0x7FFF_FFFF_FFFF_FFFF

  // What time.Hour returns.
  type Hour = h: nat | h < HOURS

  // `uniques` is the published count per variant, `users` the users told apart for it.
  datatype Aggregate = Aggregate(
    total: nat,
    variants: map<string, nat>,
    lastAt: int,
    uniques: map<string, nat>,
    users: map<string, set<string>>)

  const NEW_FLAG := Aggregate(0, map[], 0, map[], map[])

  // `evicted` is history: the totals of the flags that were evicted.
  datatype Project = Project(metrics: map<string, Aggregate>, total: nat, hourly: seq<nat>, evicted: nat)

  function Zeros(n: nat): (z: seq<nat>)
    ensures |z| == n
  {
    if n == 0 then [] else Zeros(n - 1) + [0]
  }

  const NEW_PROJECT := Project(map[], 0, Zeros(HOURS), 0)

  datatype Sample = Sample(key: string, evaluations: nat, variants: map<string, nat>, uniques: map<string, nat>)

  function Added(a: map<string, nat>, b: map<string, nat>): map<string, nat> {
    map k | k in a.Keys + b.Keys :: Get(a, k) + Get(b, k)
  }

  function Held(p: Project, key: string): Aggregate {
    if key in p.metrics then p.metrics[key] else NEW_FLAG
  }

  function Evicted(p: Project, victim: string): Project {
    if victim != "" && victim in p.metrics then
      p.(metrics := p.metrics - {victim}, evicted := p.evicted + p.metrics[victim].total)
    else p
  }

  // Puts the flag's new aggregate in place and counts the n evaluations that made it.
  function Counted(p: Project, key: string, a: Aggregate, n: nat, hour: Hour): Project
    requires |p.hourly| == HOURS
  {
    p.(metrics := p.metrics[key := a], total := p.total + n, hourly := p.hourly[hour := p.hourly[hour] + n])
  }

  function Sampled(a: Aggregate, s: Sample, now: int): Aggregate {
    a.(total := a.total + s.evaluations, variants := Added(a.variants, s.variants), lastAt := now,
       uniques := Added(a.uniques, s.uniques))
  }

  function UsersOf(a: Aggregate, variant: string): set<string> {
    if variant in a.users then a.users[variant] else {}
  }

  // A user not told apart yet counts as a new one, and is remembered while there is room.
  function Exposed(a: Aggregate, variant: string, user: string, now: int): Aggregate {
    var known := UsersOf(a, variant);
    var users := if |known| < MAX_TRACKED_USERS then known + {user} else known;
    a.(total := a.total + 1, variants := a.variants[variant := Get(a.variants, variant) + 1], lastAt := now,
       uniques := if user in known then a.uniques else a.uniques[variant := Get(a.uniques, variant) + 1],
       users := a.users[variant := users])
  }

  predicate NeedsVictim(p: Project, s: Sample) {
    s.evaluations > 0 && s.key !in p.metrics && |p.metrics| >= MAX_FLAGS
  }

  // One event of an ingested batch; the victim is what the eviction scan came up with.
  function IngestOne(p: Project, s: Sample, now: int, hour: Hour, victim: string): (p': Project)
    requires |p.hourly| == HOURS
    ensures |p'.hourly| == HOURS
  {
    if s.evaluations == 0 then p
    else
      var p1 := if NeedsVictim(p, s) then Evicted(p, victim) else p;
      Counted(p1, s.key, Sampled(Held(p1, s.key), s, now), s.evaluations, hour)
  }

  function IngestAll(p: Project, batch: seq<Sample>, now: int, hour: Hour, victims: seq<string>): (p': Project)
    requires |p.hourly| == HOURS && |batch| == |victims|
    ensures |p'.hourly| == HOURS
  {
    if batch == [] then p
    else
      var n := |batch| - 1;
      IngestOne(IngestAll(p, batch[..n], now, hour, victims[..n]), batch[n], now, hour, victims[n])
  }

  predicate Complete(key: string, variant: string, user: string) {
    key != "" && variant != "" && user != ""
  }

  function Expose(p: Project, key: string, variant: string, user: string, now: int, hour: Hour): (p': Project)
    requires |p.hourly| == HOURS
    ensures |p'.hourly| == HOURS
  {
    if !Complete(key, variant, user) then p
    else Counted(p, key, Exposed(Held(p, key), variant, user, now), 1, hour)
  }

  // What the eviction scan may end on, whatever the order of its walk: a flag evaluated longest ago.
  ghost predicate Oldest(metrics: map<string, Aggregate>, victim: string) {
    if metrics == map[] then victim == ""
    else victim in metrics && forall k :: k in metrics ==> metrics[victim].lastAt <= metrics[k].lastAt
  }

  method FindOldest(metrics: map<string, Aggregate>) returns (victim: string)
    requires forall k :: k in metrics ==> metrics[k].lastAt < MAX_INT64
    ensures Oldest(metrics, victim)
  {
    victim := "";
    var oldestTime, todo := MAX_INT64, metrics.Keys;
    while todo != {}
      invariant todo <= metrics.Keys
      invariant (victim == "" && oldestTime == MAX_INT64 && todo == metrics.Keys)
             || (victim in metrics && victim !in todo && oldestTime == metrics[victim].lastAt)
      invariant forall k :: k in metrics && k !in todo ==> oldestTime <= metrics[k].lastAt
      decreases todo
    {
      var k :| k in todo;
      todo := todo - {k};
      if metrics[k].lastAt < oldestTime {
        oldestTime, victim := metrics[k].lastAt, k;
      }
    }
  }

  // Wherever the batch needed a victim, the one recorded was an oldest flag at that moment.
  ghost predicate ScannedAt(start: Project, batch: seq<Sample>, now: int, hour: Hour, victims: seq<string>, i: nat)
    requires |start.hourly| == HOURS && i < |batch| && i < |victims|
  {
    var before := IngestAll(start, batch[..i], now, hour, victims[..i]);
    NeedsVictim(before, batch[i]) ==> Oldest(before.metrics, victims[i])
  }

  ghost predicate Scanned(start: Project, batch: seq<Sample>, now: int, hour: Hour, victims: seq<string>) {
    && |start.hourly| == HOURS && |victims| == |batch|
    && forall i :: 0 <= i < |batch| ==> ScannedAt(start, batch, now, hour, victims, i)
  }

  lemma {:induction false} ScannedSnoc(
    start: Project, batch: seq<Sample>, now: int, hour: Hour, victims: seq<string>,
    s: Sample, victim: string)
    requires Scanned(start, batch, now, hour, victims)
    requires var p := IngestAll(start, batch, now, hour, victims);
             NeedsVictim(p, s) ==> Oldest(p.metrics, victim)
    ensures Scanned(start, batch + [s], now, hour, victims + [victim])
    ensures IngestAll(start, batch + [s], now, hour, victims + [victim])
         == IngestOne(IngestAll(start, batch, now, hour, victims), s, now, hour, victim)
  {
    hide IngestOne;
    hide Oldest;
    var batch', victims' := batch + [s], victims + [victim];
    assert batch'[..|batch|] == batch && victims'[..|batch|] == victims;
    forall i | 0 <= i < |batch'| ensures ScannedAt(start, batch', now, hour, victims', i) {
      if i < |batch| {
        assert batch'[..i] == batch[..i] && victims'[..i] == victims[..i];
        assert ScannedAt(start, batch, now, hour, victims, i);
      }
    }
  }

  // The loop of Ingest over one project; the map of events arrives as a sequence, in the order it is walked.
  method IngestBatch(start: Project, batch: seq<Sample>, now: int, hour: Hour)
    returns (p: Project, updated: nat, ghost victims: seq<string>)
    requires Dated(start) && |start.hourly| == HOURS && now < MAX_INT64
    ensures Scanned(start, batch, now, hour, victims) && p == IngestAll(start, batch, now, hour, victims)
    ensures Dated(p) && updated == Counting(batch)
  {
    hide IngestOne;
    hide IngestAll;
    hide Dated;
    hide ScannedAt;
    p, updated, victims := start, 0, [];
    NothingIngested(start, now, hour);
    for i := 0 to |batch|
      invariant |p.hourly| == HOURS && Dated(p)
      invariant Scanned(start, batch[..i], now, hour, victims)
      invariant p == IngestAll(start, batch[..i], now, hour, victims)
      invariant updated == Counting(batch[..i])
    {
      var s, victim := batch[i], "";
      assert batch[..i + 1] == batch[..i] + [s];
      if s.evaluations > 0 {
        if s.key !in p.metrics && |p.metrics| >= MAX_FLAGS {
          victim := FindDated(p);
        }
        updated := updated + 1;
      }
      ScannedSnoc(start, batch[..i], now, hour, victims, s, victim);
      victims := victims + [victim];
      StaysDated(p, s, now, hour, victim);
      p := IngestOne(p, s, now, hour, victim);
    }
    assert batch[..|batch|] == batch;
  }

  lemma {:induction false} NothingIngested(p: Project, now: int, hour: Hour)
    requires |p.hourly| == HOURS
    ensures IngestAll(p, [], now, hour, []) == p
  {
  }

  method FindDated(p: Project) returns (victim: string)
    requires Dated(p)
    ensures Oldest(p.metrics, victim)
  {
    victim := FindOldest(p.metrics);
  }

  class TelemetryAggregator {
    var projects: map<string, Project>

    // Every project's ledger is balanced and no flag was evaluated at the end of time.
    ghost predicate Valid()
      reads this
    {
      forall p :: p in projects ==> Balanced(projects[p]) && Dated(projects[p])
    }

    constructor ()
      ensures projects == map[] && Valid()
    {
      projects := map[];
    }

    ghost function Of(p: string): Project
      reads this
    {
      if p in projects then projects[p] else NEW_PROJECT
    }

    method Ingest(
      projectID: string, batch: seq<Sample>, now: int, hour: Hour)
      returns (updated: nat, ghost victims: seq<string>)
      requires Valid() && now < MAX_INT64
      modifies this
      ensures Valid()
      ensures var p := ProjectOrDefault(projectID);
              && Scanned(old(Of(p)), batch, now, hour, victims)
              && projects == old(projects)[p := IngestAll(old(Of(p)), batch, now, hour, victims)]
              && (Bounded(old(Of(p))) && NoEmptyKey(batch) ==> Bounded(Of(p)))
      ensures updated == Counting(batch)
    {
      hide Balanced;
      hide IngestAll;
      var key := ProjectOrDefault(projectID);
      NewBalances();
      var p := if key in projects then projects[key] else NEW_PROJECT;
      BalancedHours(p);
      ghost var start := p;
      p, updated, victims := IngestBatch(p, batch, now, hour);
      BatchBalances(start, batch, now, hour, victims);
      if Bounded(start) && NoEmptyKey(batch) {
        BatchKeepsBound(start, batch, now, hour, victims);
      }
      projects := projects[key := p];
    }

    method RecordExposure(projectID: string, flagKey: string, variant: string, user: string, now: int, hour: Hour)
      requires Valid() && now < MAX_INT64
      modifies this
      ensures Valid()
      ensures !Complete(flagKey, variant, user) ==> projects == old(projects)
      ensures Complete(flagKey, variant, user) ==>
              var p := ProjectOrDefault(projectID);
              && |old(Of(p)).hourly| == HOURS
              && projects == old(projects)[p := Expose(old(Of(p)), flagKey, variant, user, now, hour)]
    {
      if flagKey == "" || variant == "" || user == "" {
        return;
      }
      hide Balanced;
      var key := ProjectOrDefault(projectID);
      NewBalances();
      var p := if key in projects then projects[key] else NEW_PROJECT;
      BalancedHours(p);
      StepBalances(p, Exposure(flagKey, variant, user, now, hour));
      projects := projects[key := Expose(p, flagKey, variant, user, now, hour)];
    }
  }

  function Counting(batch: seq<Sample>): nat {
    if batch == [] then 0 else Counting(batch[..|batch| - 1]) + (if batch[|batch| - 1].evaluations > 0 then 1 else 0)
  }

  ghost predicate Dated(p: Project) {
    forall k :: k in p.metrics ==> p.metrics[k].lastAt < MAX_INT64
  }

  lemma {:induction false} StaysDated(p: Project, s: Sample, now: int, hour: Hour, victim: string)
    requires Dated(p) && |p.hourly| == HOURS && now < MAX_INT64
    ensures Dated(IngestOne(p, s, now, hour, victim))
  {
  }

  // ----- The ledger -----

  function Totals(m: map<string, Aggregate>): map<string, nat> {
    map k | k in m :: m[k].total
  }

  /** The grand total is the sum of the hourly points, and of the live flags' totals and the evicted ones'. */
  ghost predicate Balanced(p: Project) {
    && |p.hourly| == HOURS
    && p.total == SumSeq(p.hourly)
    && p.total == Sum(Totals(p.metrics)) + p.evicted
  }

  lemma {:induction false} BalancedHours(p: Project)
    requires Balanced(p)
    ensures |p.hourly| == HOURS
  {
  }

  lemma {:induction false} SumZeros(n: nat)
    ensures SumSeq(Zeros(n)) == 0
  {
    if n > 0 {
      SumZeros(n - 1);
      SumSeqCat(Zeros(n - 1), 0);
    }
  }

  lemma {:induction false} NewBalances()
    ensures Balanced(NEW_PROJECT)
  {
    SumZeros(HOURS);
    assert Totals(map[]) == map[] && Sum(map[]) == 0;
  }

  lemma {:induction false} EvictBalances(p: Project, victim: string)
    requires Balanced(p)
    ensures Balanced(Evicted(p, victim))
  {
    if victim != "" && victim in p.metrics {
      SumWithout(Totals(p.metrics), victim);
      assert Totals(p.metrics - {victim}) == Totals(p.metrics) - {victim};
    }
  }

  lemma {:induction false} CountBalances(p: Project, key: string, a: Aggregate, n: nat, hour: Hour)
    requires Balanced(p) && a.total == Held(p, key).total + n
    ensures Balanced(Counted(p, key, a, n, hour))
  {
    var p' := Counted(p, key, a, n, hour);
    SumSeqUpdate(p.hourly, hour, p.hourly[hour] + n);
    assert Totals(p'.metrics) == Totals(p.metrics)[key := a.total];
    SumUpdate(Totals(p.metrics), key, a.total);
  }

  datatype ServerOp =
    | OneSample(s: Sample, now: int, hour: Hour, victim: string)
    | Exposure(key: string, variant: string, user: string, now: int, hour: Hour)

  function ServerStep(p: Project, op: ServerOp): Project
    requires |p.hourly| == HOURS
  {
    match op
    case OneSample(s, now, hour, victim) => IngestOne(p, s, now, hour, victim)
    case Exposure(key, variant, user, now, hour) => Expose(p, key, variant, user, now, hour)
  }

  lemma {:induction false} StepBalances(p: Project, op: ServerOp)
    requires Balanced(p)
    ensures Balanced(ServerStep(p, op))
  {
    hide Balanced;
    hide Counted;
    BalancedHours(p);
    match op
    case OneSample(s, now, hour, victim) =>
      EvictBalances(p, victim);
      var p1 := if NeedsVictim(p, s) then Evicted(p, victim) else p;
      CountBalances(p1, s.key, Sampled(Held(p1, s.key), s, now), s.evaluations, hour);
    case Exposure(key, variant, user, now, hour) =>
      CountBalances(p, key, Exposed(Held(p, key), variant, user, now), 1, hour);
  }

  lemma {:induction false} BatchBalances(p: Project, batch: seq<Sample>, now: int, hour: Hour, victims: seq<string>)
    requires Balanced(p) && |batch| == |victims|
    ensures Balanced(IngestAll(p, batch, now, hour, victims))
  {
    if batch != [] {
      var n := |batch| - 1;
      BatchBalances(p, batch[..n], now, hour, victims[..n]);
      StepBalances(IngestAll(p, batch[..n], now, hour, victims[..n]), OneSample(batch[n], now, hour, victims[n]));
    }
  }

  ghost predicate ServerStepAt(ps: seq<Project>, ops: seq<ServerOp>, i: nat)
    requires |ps| == |ops| + 1 && i < |ops|
  {
    |ps[i].hourly| == HOURS && ps[i + 1] == ServerStep(ps[i], ops[i])
  }

  ghost predicate ServerRun(ps: seq<Project>, ops: seq<ServerOp>) {
    |ps| == |ops| + 1 && ps[0] == NEW_PROJECT && forall i :: 0 <= i < |ops| ==> ServerStepAt(ps, ops, i)
  }

  /** Over any mix of ingested batches and exposures, a project's totals agree in every state. */
  lemma {:induction false} ServerLedger(ps: seq<Project>, ops: seq<ServerOp>, n: nat)
    requires ServerRun(ps, ops) && n <= |ops|
    ensures Balanced(ps[n])
  {
    if n == 0 {
      NewBalances();
    } else {
      ServerLedger(ps, ops, n - 1);
      assert ServerStepAt(ps, ops, n - 1);
      StepBalances(ps[n - 1], ops[n - 1]);
    }
  }

  // ----- What is counted where -----

  // The project's counters after n evaluations of a flag in an hour: only that flag and that hour count more.
  ghost predicate CountsIn(p: Project, p': Project, key: string, n: nat, hour: Hour) {
    && |p.hourly| == |p'.hourly| == HOURS
    && p'.total == p.total + n && p'.evicted == p.evicted
    && (forall i :: 0 <= i < HOURS ==> p'.hourly[i] == p.hourly[i] + if i == hour then n else 0)
    && key in p'.metrics && p'.metrics[key].total == Held(p, key).total + n
    && (forall k :: k != key ==> (k in p'.metrics <==> k in p.metrics))
    && (forall k :: k != key && k in p.metrics ==> p'.metrics[k] == p.metrics[k])
  }

  /**
    An ingested sample adds its evaluations, its count of every variant and its unique users to its own
    flag, which was then evaluated now; a sample of nothing changes nothing.
   */
  lemma {:induction false} SampleEffect(p: Project, s: Sample, now: int, hour: Hour, victim: string)
    requires |p.hourly| == HOURS
    ensures var p' := IngestOne(p, s, now, hour, victim);
            var kept := if s.evaluations > 0 && s.key !in p.metrics &&
                |p.metrics| >= 1000 then Evicted(p, victim) else p;
            && (s.evaluations == 0 ==> p' == p)
            && (s.evaluations > 0 ==>
                  && CountsIn(kept, p', s.key, s.evaluations, hour)
                  && p'.metrics[s.key].lastAt == now && p'.metrics[s.key].users == Held(kept, s.key).users
                  && (forall v :: Get(p'.metrics[s.key].variants, v) ==
                        Get(Held(kept, s.key).variants, v) + Get(s.variants, v))
                  && (forall v :: Get(p'.metrics[s.key].uniques, v) ==
                        Get(Held(kept, s.key).uniques, v) + Get(s.uniques, v)))
  {
  }

  /** An eviction removes exactly its victim, whose total moves to the evicted ones; the empty key stays. */
  lemma {:induction false} EvictionEffect(p: Project, victim: string)
    ensures var p' := Evicted(p, victim);
            && (victim == "" || victim !in p.metrics ==> p' == p)
            && (victim != "" && victim in p.metrics ==>
                  && p'.metrics.Keys == p.metrics.Keys - {victim}
                  && (forall k :: k in p'.metrics ==> p'.metrics[k] == p.metrics[k])
                  && p' == p.(metrics := p'.metrics, evicted := p.evicted + p.metrics[victim].total))
  {
  }

  /** A complete exposure counts once for its variant of its flag in its hour; any other changes nothing. */
  lemma {:induction false} ExposureEffect(p: Project, key: string, variant: string, user: string, now: int, hour: Hour)
    requires |p.hourly| == HOURS
    ensures var p' := Expose(p, key, variant, user, now, hour);
            if key == "" || variant == "" || user == "" then p' == p
            else
              && CountsIn(p, p', key, 1, hour)
              && p'.metrics[key].lastAt == now
              && (forall v :: Get(p'.metrics[key].variants, v) ==
                    Get(Held(p, key).variants, v) + if v == variant then 1 else 0)
              && (forall v :: v != variant ==>
                    && Get(p'.metrics[key].uniques, v) == Get(Held(p, key).uniques, v)
                    && UsersOf(p'.metrics[key], v) == UsersOf(Held(p, key), v))
  {
  }

  /** The number Ingest returns is that of the samples with evaluations. */
  lemma {:induction false} CountingIs(batch: seq<Sample>)
    ensures Counting(batch) == |set i | 0 <= i < |batch| && batch[i].evaluations > 0|
  {
    if batch != [] {
      var n := |batch| - 1;
      CountingIs(batch[..n]);
      var before, all := set i | 0 <= i < n && batch[..n][i].evaluations > 0, set i | 0 <= i < |batch| &&
          batch[i].evaluations > 0;
      assert all == before + (if batch[n].evaluations > 0 then {n} else {});
      assert n !in before;
    }
  }

  // ----- The capacity bound -----

  ghost predicate Bounded(p: Project) {
    "" !in p.metrics && |p.metrics| <= 1000
  }

  predicate NoEmptyKey(batch: seq<Sample>) {
    forall i :: 0 <= i < |batch| ==> batch[i].key != ""
  }

  // The victim is one that the scan could have ended on.
  ghost predicate Chosen(p: Project, op: ServerOp) {
    op.OneSample? && NeedsVictim(p, op.s) ==> Oldest(p.metrics, op.victim)
  }

  // Only ingested samples with non-empty keys, and victims that the scan could have ended on.
  ghost predicate PlainAt(ps: seq<Project>, ops: seq<ServerOp>, i: nat)
    requires i < |ps| && i < |ops|
  {
    ops[i].OneSample? && ops[i].s.key != "" && Chosen(ps[i], ops[i])
  }

  lemma {:induction false} EvictedKeys(p: Project, victim: string)
    ensures Evicted(p, victim).hourly == p.hourly
    ensures Evicted(p, victim).metrics.Keys == p.metrics.Keys - (if victim != "" then {victim} else {})
    ensures |Evicted(p, victim).metrics| == |p.metrics| - (if victim != "" && victim in p.metrics then 1 else 0)
  {
    var m := Evicted(p, victim).metrics;
    assert m.Keys == p.metrics.Keys - (if victim != "" then {victim} else {});
    assert |m| == |m.Keys| && |p.metrics| == |p.metrics.Keys|;
  }

  lemma {:induction false} CountedKeys(p: Project, key: string, a: Aggregate, n: nat, hour: Hour)
    requires |p.hourly| == HOURS
    ensures var m := Counted(p, key, a, n, hour).metrics;
            m.Keys == p.metrics.Keys + {key} && |m| == |p.metrics| + (if key in p.metrics then 0 else 1)
  {
    var m := Counted(p, key, a, n, hour).metrics;
    assert m.Keys == p.metrics.Keys + {key};
    assert |m| == |m.Keys| && |p.metrics| == |p.metrics.Keys|;
  }

  // Which flags are held after one counted sample.
  lemma {:induction false} IngestedKeys(p: Project, s: Sample, now: int, hour: Hour, victim: string)
    requires s.evaluations > 0 && |p.hourly| == HOURS
    ensures var m := IngestOne(p, s, now, hour, victim).metrics;
            && m.Keys == p.metrics.Keys - (if NeedsVictim(p, s) && victim != "" then {victim} else {}) + {s.key}
            && |m| == |p.metrics| + (if s.key in p.metrics then 0 else 1)
                      - (if NeedsVictim(p, s) && victim != "" && victim in p.metrics then 1 else 0)
  {
    hide Counted;
    hide Evicted;
    hide Sampled;
    hide Held;
    var p1 := if NeedsVictim(p, s) then Evicted(p, victim) else p;
    if NeedsVictim(p, s) {
      EvictedKeys(p, victim);
      assert s.key !in p1.metrics.Keys;
    }
    CountedKeys(p1, s.key, Sampled(Held(p1, s.key), s, now), s.evaluations, hour);
  }

  lemma {:induction false} IngestKeepsBound(p: Project, s: Sample, now: int, hour: Hour, victim: string)
    requires Bounded(p) && s.key != "" && |p.hourly| == HOURS && Chosen(p, OneSample(s, now, hour, victim))
    ensures Bounded(IngestOne(p, s, now, hour, victim))
  {
    if s.evaluations > 0 {
      IngestedKeys(p, s, now, hour, victim);
    }
  }

  lemma {:induction false} BatchKeepsBound(p: Project, batch: seq<Sample>, now: int, hour: Hour, victims: seq<string>)
    requires Bounded(p) && NoEmptyKey(batch) && Scanned(p, batch, now, hour, victims)
    ensures Bounded(IngestAll(p, batch, now, hour, victims))
  {
    hide Bounded;
    hide IngestOne;
    if batch != [] {
      var n := |batch| - 1;
      var init, vs := batch[..n], victims[..n];
      forall i | 0 <= i < n ensures ScannedAt(p, init, now, hour, vs, i) {
        assert ScannedAt(p, batch, now, hour, victims, i);
        assert init[..i] == batch[..i] && vs[..i] == victims[..i];
      }
      BatchKeepsBound(p, init, now, hour, vs);
      assert ScannedAt(p, batch, now, hour, victims, n);
      IngestKeepsBound(IngestAll(p, init, now, hour, vs), batch[n], now, hour, victims[n]);
    }
  }

  /** Runs that only ingest, and only non-empty keys, never hold more than a thousand flags. */
  lemma {:induction false} IngestBounded(ps: seq<Project>, ops: seq<ServerOp>, n: nat)
    requires ServerRun(ps, ops) && n <= |ops| && forall i :: 0 <= i < |ops| ==> PlainAt(ps, ops, i)
    ensures Bounded(ps[n])
  {
    hide IngestOne;
    if n > 0 {
      IngestBounded(ps, ops, n - 1);
      assert ServerStepAt(ps, ops, n - 1) && PlainAt(ps, ops, n - 1);
      var op := ops[n - 1];
      IngestKeepsBound(ps[n - 1], op.s, op.now, op.hour, op.victim);
    }
  }

  // The operation counts something for a flag that the project does not hold.
  predicate Introduces(p: Project, op: ServerOp) {
    match op
    case OneSample(s, _, _, _) => s.evaluations > 0 && s.key !in p.metrics
    case Exposure(key, variant, user, _, _) => Complete(key, variant, user) && key !in p.metrics
  }

  /**
    The exact limit of the bound, over every operation: a project within it goes past it if and only if it
    is full and meets a new flag by an exposure, which never evicts, or by an ingested sample whose
    eviction scan ended on the empty key, which is not evicted.
   */
  lemma {:induction false} BoundBreaksIff(p: Project, op: ServerOp)
    requires |p.hourly| == HOURS && |p.metrics| <= 1000 && Chosen(p, op)
    ensures |ServerStep(p, op).metrics| > 1000
       <==> |p.metrics| == 1000 && Introduces(p, op) && (op.OneSample? ==> op.victim == "")
  {
    hide IngestOne;
    hide Counted;
    hide Exposed;
    hide Held;
    match op
    case OneSample(s, now, hour, victim) =>
      if s.evaluations > 0 {
        IngestedKeys(p, s, now, hour, victim);
      } else {
        NothingCounted(p, s, now, hour, victim);
      }
    case Exposure(key, variant, user, now, hour) =>
      CountedKeys(p, key, Exposed(Held(p, key), variant, user, now), 1, hour);
  }

  lemma {:induction false} NothingCounted(p: Project, s: Sample, now: int, hour: Hour, victim: string)
    requires |p.hourly| == HOURS && s.evaluations == 0
    ensures IngestOne(p, s, now, hour, victim) == p
  {
  }

  lemma {:induction false} AnOldest(m: map<string, Aggregate>, keys: set<string>) returns (k: string)
    requires keys != {} && keys <= m.Keys
    ensures k in keys && forall j :: j in keys ==> m[k].lastAt <= m[j].lastAt
    decreases keys
  {
    k :| k in keys;
    var rest := keys - {k};
    assert forall j :: j in keys ==> j == k || j in rest;
    if rest != {} {
      var j := AnOldest(m, rest);
      if m[j].lastAt < m[k].lastAt {
        k := j;
      }
    }
  }

  /**
    The same for an ingested sample in terms of the stored times: some walk of the scan breaks the bound
    iff no flag is older than the empty key, and every walk does iff all other flags are younger.
   */
  lemma {:induction false} IngestBreaksIff(p: Project, s: Sample, now: int, hour: Hour)
    requires |p.hourly| == HOURS && |p.metrics| == 1000 && s.evaluations > 0 && s.key !in p.metrics
    ensures (exists victim :: Oldest(p.metrics, victim) && |IngestOne(p, s, now, hour, victim).metrics| > 1000)
       <==> "" in p.metrics && forall k :: k in p.metrics ==> p.metrics[""].lastAt <= p.metrics[k].lastAt
    ensures (forall victim :: Oldest(p.metrics, victim) ==> |IngestOne(p, s, now, hour, victim).metrics| > 1000)
       <==> "" in p.metrics && forall k :: k in p.metrics && k != "" ==> p.metrics[""].lastAt < p.metrics[k].lastAt
  {
    hide IngestOne;
    var m := p.metrics;
    forall victim | Oldest(m, victim)
      ensures |IngestOne(p, s, now, hour, victim).metrics| > 1000 <==> victim == ""
    {
      BoundBreaksIff(p, OneSample(s, now, hour, victim));
    }
    if "" in m {
      var others := m.Keys - {""};
      assert |others| == |m.Keys| - 1;
      var k := AnOldest(m, others);
      assert forall j :: j in m ==> j == "" || j in others;
      assert m[k].lastAt <= m[""].lastAt ==> Oldest(m, k);
      assert (forall j :: j in m ==> m[""].lastAt <= m[j].lastAt) ==> Oldest(m, "");
    } else {
      var k := AnOldest(m, m.Keys);
      assert Oldest(m, k);
    }
  }

  function Repeat(c: char, n: nat): (s: string)
    ensures |s| == n
  {
    if n == 0 then "" else Repeat(c, n - 1) + [c]
  }

  /** Exposures alone pass every bound: n of them, each of another flag, make the project hold n flags. */
  lemma {:induction false} ExposuresUnbounded(n: nat) returns (ps: seq<Project>, ops: seq<ServerOp>)
    ensures ServerRun(ps, ops) && |ops| == n && |ps[n].metrics| == n
    ensures forall i :: 0 <= i < n ==> ops[i].Exposure?
    ensures forall k :: k in ps[n].metrics ==> 0 < |k| <= n
  {
    hide Exposed;
    hide Held;
    hide Counted;
    if n == 0 {
      ps, ops := [NEW_PROJECT], [];
    } else {
      var ps0, ops0 := ExposuresUnbounded(n - 1);
      var p, key := ps0[n - 1], Repeat('f', n);
      ServerLedger(ps0, ops0, n - 1);
      var op := Exposure(key, "on", "ann", 0, 0);
      CountedKeys(p, key, Exposed(Held(p, key), "on", "ann", 0), 1, 0);
      ps, ops := ps0 + [ServerStep(p, op)], ops0 + [op];
      forall i | 0 <= i < n ensures ServerStepAt(ps, ops, i) {
        assert i < n - 1 ==> ServerStepAt(ps0, ops0, i);
      }
    }
  }
}
