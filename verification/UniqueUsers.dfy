/** The unique-user counts that the telemetry aggregator publishes per variant (pkg/api/handlers_telemetry.go). */
module UniqueUsers {
  import opened Tally
  import opened ServerTelemetry

  predicate ExposesTo(op: ServerOp, key: string, variant: string) {
    op.Exposure? && op.key == key && op.variant == variant && Complete(op.key, op.variant, op.user)
  }

  // Whom the first n operations exposed to the variant, in order and with repetitions.
  function Audience(ops: seq<ServerOp>, n: nat, key: string, variant: string): seq<string>
    requires n <= |ops|
  {
    if n == 0 then []
    else Audience(ops, n - 1, key, variant) + (if ExposesTo(ops[n - 1], key, variant) then [ops[n - 1].user] else [])
  }

  function ReportedBy(op: ServerOp, key: string, variant: string): nat {
    if op.OneSample? && op.s.key == key && op.s.evaluations > 0 then Get(op.s.uniques, variant) else 0
  }

  // How many unique users the ingested samples reported for the variant.
  function Reported(ops: seq<ServerOp>, n: nat, key: string, variant: string): nat
    requires n <= |ops|
  {
    if n == 0 then 0 else Reported(ops, n - 1, key, variant) + ReportedBy(ops[n - 1], key, variant)
  }

  function Members(us: seq<string>): set<string> {
    set i | 0 <= i < |us| :: us[i]
  }

  /** The users who came while fewer than the tracked maximum of different users had come before them. */
  function Early(us: seq<string>): set<string> {
    set i | 0 <= i < |us| && |Members(us[..i])| < 10_000 :: us[i]
  }

  // The exposures of users that are not in the set.
  function Strangers(us: seq<string>, known: set<string>): seq<string> {
    if us == [] then []
    else Strangers(us[..|us| - 1], known) + (if us[|us| - 1] in known then [] else [us[|us| - 1]])
  }

  /** The published count: the reported ones, the users told apart, and every exposure of anybody else. */
  ghost predicate Tallies(a: Aggregate, us: seq<string>, reported: nat, variant: string) {
    var known := UsersOf(a, variant);
    && known == Early(us)
    && known <= Members(us)
    && |known| <= MAX_TRACKED_USERS
    && (|known| < MAX_TRACKED_USERS ==> known == Members(us))
    && Get(a.uniques, variant) == reported + |known| + |Strangers(us, known)|
  }

  lemma {:induction false} MembersSnoc(us: seq<string>, u: string)
    ensures Members(us + [u]) == Members(us) + {u}
  {
    var us' := us + [u];
    assert us'[|us|] == u && forall i :: 0 <= i < |us| ==> us'[i] == us[i];
  }

  lemma {:induction false} EarlySnoc(us: seq<string>, u: string)
    ensures Early(us + [u]) == Early(us) + (if |Members(us)| < MAX_TRACKED_USERS then {u} else {})
  {
    var us' := us + [u];
    assert us'[..|us|] == us;
    assert forall i :: 0 <= i < |us| ==> us'[i] == us[i] && us'[..i] == us[..i];
  }

  lemma {:induction false} SmallerSet(a: set<string>, b: set<string>)
    requires a <= b
    ensures |a| <= |b|
  {
    assert b == a + (b - a);
  }

  lemma {:induction false} StrangersSnoc(us: seq<string>, u: string, known: set<string>)
    ensures Strangers(us + [u], known) == Strangers(us, known) + (if u in known then [] else [u])
  {
    assert (us + [u])[..|us|] == us;
  }

  lemma {:induction false} NoStrangers(us: seq<string>, known: set<string>)
    requires Members(us) <= known
    ensures Strangers(us, known) == []
  {
    if us != [] {
      MembersSnoc(us[..|us| - 1], us[|us| - 1]);
      assert us == us[..|us| - 1] + [us[|us| - 1]];
      NoStrangers(us[..|us| - 1], known);
    }
  }

  lemma {:induction false} ExposureTallies(
    a: Aggregate, us: seq<string>, reported: nat, variant: string, user: string, now: int)
    requires Tallies(a, us, reported, variant)
    ensures Tallies(Exposed(a, variant, user, now), us + [user], reported, variant)
  {
    var known, known' := UsersOf(a, variant), UsersOf(Exposed(a, variant, user, now), variant);
    MembersSnoc(us, user);
    EarlySnoc(us, user);
    SmallerSet(known, Members(us));
    StrangersSnoc(us, user, known');
    if known' != known {
      NoStrangers(us, known);
      NoStrangers(us, known');
    }
  }

  // The operation does not evict the flag.
  predicate Spares(p: Project, op: ServerOp, key: string) {
    !(op.OneSample? && NeedsVictim(p, op.s) && op.victim == key)
  }

  ghost predicate SparesAt(ps: seq<Project>, ops: seq<ServerOp>, i: nat, key: string)
    requires i < |ps| && i < |ops|
  {
    Spares(ps[i], ops[i], key)
  }

  lemma {:induction false} SampleHeld(p: Project, s: Sample, now: int, hour: Hour, victim: string, key: string)
    requires |p.hourly| == HOURS && Spares(p, OneSample(s, now, hour, victim), key)
    ensures Held(IngestOne(p, s, now, hour, victim), key) ==
              if s.key == key && s.evaluations > 0 then Sampled(Held(p, key), s, now) else Held(p, key)
  {
    var p1 := if NeedsVictim(p, s) then Evicted(p, victim) else p;
    assert Held(p1, key) == Held(p, key);
  }

  lemma {:induction false} ExposureHeld(
    p: Project, k: string, v: string, user: string, now: int, hour: Hour, key: string)
    requires |p.hourly| == HOURS
    ensures Held(Expose(p, k, v, user, now, hour), key) ==
              if Complete(k, v, user) && k == key then Exposed(Held(p, key), v, user, now) else Held(p, key)
  {
    hide Exposed;
  }

  lemma {:induction false} SampleTallies(
    a: Aggregate, us: seq<string>, reported: nat, variant: string, s: Sample, now: int)
    requires Tallies(a, us, reported, variant)
    ensures Tallies(Sampled(a, s, now), us, reported + Get(s.uniques, variant), variant)
  {
  }

  lemma {:induction false} OtherVariantTallies(
    a: Aggregate, us: seq<string>, reported: nat, variant: string, v: string, user: string, now: int)
    requires Tallies(a, us, reported, variant) && v != variant
    ensures Tallies(Exposed(a, v, user, now), us, reported, variant)
  {
  }

  lemma {:induction false} StepTallies(
    p: Project, op: ServerOp, key: string, variant: string, us: seq<string>, reported: nat)
    requires |p.hourly| == HOURS && Spares(p, op, key) && Tallies(Held(p, key), us, reported, variant)
    ensures var us' := us + (if ExposesTo(op, key, variant) then [op.user] else []);
            Tallies(Held(ServerStep(p, op), key), us', reported + ReportedBy(op, key, variant), variant)
  {
    hide IngestOne;
    hide Expose;
    hide Exposed;
    hide Sampled;
    hide Held;
    hide Tallies;
    var a := Held(p, key);
    assert us + [] == us;
    match op
    case OneSample(s, now, hour, victim) =>
      SampleHeld(p, s, now, hour, victim, key);
      SampleTallies(a, us, reported, variant, s, now);
    case Exposure(k, v, user, now, hour) =>
      ExposureHeld(p, k, v, user, now, hour, key);
      if v == variant {
        ExposureTallies(a, us, reported, variant, user, now);
      } else {
        OtherVariantTallies(a, us, reported, variant, v, user, now);
      }
  }

  lemma {:induction false} RunTallies(ps: seq<Project>, ops: seq<ServerOp>, n: nat, key: string, variant: string)
    requires ServerRun(ps, ops) && n <= |ops| && forall i :: 0 <= i < n ==> SparesAt(ps, ops, i, key)
    ensures Tallies(Held(ps[n], key), Audience(ops, n, key, variant), Reported(ops, n, key, variant), variant)
  {
    hide Tallies;
    hide ServerStep;
    if n == 0 {
      NewTallies(variant);
    } else {
      RunTallies(ps, ops, n - 1, key, variant);
      assert ServerStepAt(ps, ops, n - 1) && SparesAt(ps, ops, n - 1, key);
      StepTallies(ps[n - 1], ops[n - 1], key, variant, Audience(ops, n - 1, key, variant),
                  Reported(ops, n - 1, key, variant));
    }
  }

  lemma {:induction false} NewTallies(variant: string)
    ensures Tallies(NEW_FLAG, [], 0, variant)
  {
  }

  predicate Repeats(us: seq<string>) {
    exists i, j :: 0 <= i < j < |us| && us[i] == us[j]
  }

  lemma {:induction false} MembersCount(us: seq<string>)
    ensures |Members(us)| <= |us| && (|Members(us)| == |us| <==> !Repeats(us))
  {
    if us != [] {
      var init, u := us[..|us| - 1], us[|us| - 1];
      assert us == init + [u];
      MembersCount(init);
      MembersSnoc(init, u);
      if u in Members(init) {
        var i :| 0 <= i < |init| && init[i] == u;
        assert us[i] == us[|us| - 1];
        assert Members(us) == Members(init);
      } else {
        assert Repeats(us) ==> Repeats(init);
        if Repeats(init) {
          var i, j :| 0 <= i < j < |init| && init[i] == init[j];
          assert us[i] == us[j];
        }
      }
    }
  }

  lemma {:induction false} StrangersAre(us: seq<string>, known: set<string>)
    ensures Members(Strangers(us, known)) == Members(us) - known
  {
    if us != [] {
      var init, u := us[..|us| - 1], us[|us| - 1];
      assert us == init + [u];
      StrangersAre(init, known);
      MembersSnoc(init, u);
      MembersSnoc(Strangers(init, known), u);
      assert Strangers(init, known) + [] == Strangers(init, known);
    }
  }

  /**
    The published number of unique users of a variant, over every run that does not evict its flag: never
    too small, and exactly the users exposed plus the reported ones if and only if nobody but the first
    10,000 of them came twice; so in particular while no more than that many were exposed.
   */
  lemma {:induction false} UniqueUsersExactIff(
    ps: seq<Project>, ops: seq<ServerOp>, n: nat, key: string, variant: string)
    requires ServerRun(ps, ops) && n <= |ops| && forall i :: 0 <= i < n ==> SparesAt(ps, ops, i, key)
    ensures var a, us := Held(ps[n], key), Audience(ops, n, key, variant);
            var truth := |Members(us)| + Reported(ops, n, key, variant);
            && Get(a.uniques, variant) >= truth
            && (Get(a.uniques, variant) == truth <==> !Repeats(Strangers(us, Early(us))))
            && (|Members(us)| <= 10_000 ==> Get(a.uniques, variant) == truth)
  {
    RunTallies(ps, ops, n, key, variant);
    var a, us := Held(ps[n], key), Audience(ops, n, key, variant);
    var known := UsersOf(a, variant);
    StrangersAre(us, known);
    MembersCount(Strangers(us, known));
    assert Members(us) == known + (Members(us) - known);
    assert |Members(us)| == |known| + |Members(us) - known|;
    if |Members(us)| <= MAX_TRACKED_USERS {
      assert |Members(us) - known| == 0 ==> Members(us) <= known;
      assert |known| == MAX_TRACKED_USERS ==> |Members(us) - known| == 0;
      NoStrangers(us, known);
    }
  }

  lemma {:induction false} RunOf(ops: seq<ServerOp>) returns (ps: seq<Project>)
    ensures |ps| == |ops| + 1 && ServerRun(ps, ops)
  {
    hide ServerStep;
    if ops == [] {
      ps := [NEW_PROJECT];
    } else {
      var n := |ops| - 1;
      var ps0 := RunOf(ops[..n]);
      ServerLedger(ps0, ops[..n], n);
      ps := ps0 + [ServerStep(ps0[n], ops[n])];
      forall i | 0 <= i <= n ensures ServerStepAt(ps, ops, i) {
        assert i < n ==> ServerStepAt(ps0, ops[..n], i);
      }
    }
  }

  function Shows(user: string): ServerOp {
    Exposure("checkout", "on", user, 0, 0)
  }

  lemma {:induction false} AudienceOf(us: seq<string>, n: nat)
    requires n <= |us| && forall i :: 0 <= i < |us| ==> us[i] != ""
    ensures Audience(seq(|us|, i requires 0 <= i < |us| => Shows(us[i])), n, "checkout", "on") == us[..n]
  {
    if n > 0 {
      AudienceOf(us, n - 1);
      assert us[..n] == us[..n - 1] + [us[n - 1]];
    }
  }

  lemma {:induction false} StrangersCat(a: seq<string>, b: seq<string>, known: set<string>)
    ensures Strangers(a + b, known) == Strangers(a, known) + Strangers(b, known)
  {
    if b == [] {
      assert a + b == a;
    } else {
      var init, u := b[..|b| - 1], b[|b| - 1];
      assert a + b == (a + init) + [u] && b == init + [u];
      StrangersCat(a, init, known);
      StrangersSnoc(a + init, u, known);
      StrangersSnoc(init, u, known);
    }
  }

  /** Once more users come back than are told apart, the published number is too large. */
  lemma {:induction false} ReturningUsersOvercounted(us: seq<string>) returns (ps: seq<Project>, ops: seq<ServerOp>)
    requires !Repeats(us) && |us| > 10_000 && forall i :: 0 <= i < |us| ==> us[i] != ""
    ensures ServerRun(ps, ops) && |ops| == 2 * |us| && Audience(ops, |ops|, "checkout", "on") == us + us
    ensures Get(Held(ps[|ops|], "checkout").uniques, "on") > |us| == |Members(us + us)|
  {
    hide Members;
    hide Held;
    hide UsersOf;
    hide Audience;
    hide Early;
    hide Reported;
    hide Repeats;
    hide ServerRun;
    var all := us + us;
    ops := seq(|all|, i requires 0 <= i < |all| => Shows(all[i]));
    ps := RunOf(ops);
    AudienceOf(all, |all|);
    assert all[..|all|] == all;
    NothingReported(ops, |ops|);
    KnownUsers(ps, ops, "checkout", "on");
    UniqueUsersExactIff(ps, ops, |ops|, "checkout", "on");
    MembersCount(us);
    MembersTwice(us);
    StrangerComesTwice(us, UsersOf(Held(ps[|ops|], "checkout"), "on"));
  }

  lemma {:induction false} KnownUsers(ps: seq<Project>, ops: seq<ServerOp>, key: string, variant: string)
    requires ServerRun(ps, ops) && forall i :: 0 <= i < |ops| ==> ops[i].Exposure?
    ensures forall i :: 0 <= i < |ops| ==> SparesAt(ps, ops, i, key)
    ensures var known := UsersOf(Held(ps[|ops|], key), variant);
            && known == Early(Audience(ops, |ops|, key, variant))
            && known <= Members(Audience(ops, |ops|, key, variant)) && |known| <= MAX_TRACKED_USERS
  {
    RunTallies(ps, ops, |ops|, key, variant);
  }

  lemma {:induction false} MembersTwice(us: seq<string>)
    ensures Members(us + us) == Members(us)
  {
    var n, all := |us|, us + us;
    forall i | 0 <= i < 2 * n ensures all[i] in Members(us) {
      assert all[i] == us[if i < n then i else i - n];
    }
    assert forall i :: 0 <= i < n ==> us[i] == all[i];
  }

  lemma {:induction false} NothingReported(ops: seq<ServerOp>, n: nat)
    requires n <= |ops| && forall i :: 0 <= i < |ops| ==> ops[i].Exposure?
    ensures Reported(ops, n, "checkout", "on") == 0
  {
    if n > 0 {
      NothingReported(ops, n - 1);
    }
  }

  lemma {:induction false} StrangerComesTwice(us: seq<string>, known: set<string>)
    requires known <= Members(us) && |known| < |Members(us)|
    ensures Repeats(Strangers(us + us, known))
  {
    StrangersAre(us, known);
    StrangersCat(us, us, known);
    var s := Strangers(us, known);
    assert Members(us) == known + (Members(us) - known);
    assert |Members(s)| == |Members(us)| - |known|;
    MembersCount(s);
    assert (s + s)[0] == (s + s)[|s|];
  }
}
