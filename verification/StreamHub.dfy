/** The streaming hub: registration, tenant isolation and channel safety (pkg/api/stream.go, StreamHub.Run). */
module Hub {
  import opened Text
  import opened Seqs

  const CAPACITY := 20

  // One connection; the ID stands for the identity of the connection's pointer.
  datatype Client = Client(id: nat, projectId: string, environment: string)

  datatype Msg = Msg(projectId: string, environment: string, data: string)

  // A bounded channel with what its reader has taken out of it so far.
  datatype Channel = Channel(queue: seq<Msg>, closed: bool, received: seq<Msg>)

  // `panicked` records a send on, or a second close of, a closed channel.
  datatype HubState = HubState(
    clients: set<Client>,
    subs: map<string, set<Client>>,
    chans: map<Client, Channel>,
    panicked: bool,
    stopped: bool)

  const EMPTY_HUB := HubState({}, map[], map[], false, false)

  function EnvKey(c: Client): string {
    c.projectId + [':'] + c.environment
  }

  function Subscribed(subs: map<string, set<Client>>, key: string, c: Client): map<string, set<Client>> {
    subs[key := (if key in subs then subs[key] else {}) + {c}]
  }

  function Unsubscribed(subs: map<string, set<Client>>, key: string, c: Client): map<string, set<Client>> {
    if key in subs then subs[key := subs[key] - {c}] else subs
  }

  function Register(s: HubState, c: Client): HubState {
    var subs := Subscribed(s.subs, c.projectId, c);
    s.(clients := s.clients + {c},
       subs := if c.environment == "" then subs else Subscribed(subs, EnvKey(c), c),
       chans := if c in s.chans then s.chans else s.chans[c := Channel([], false, [])])
  }

  function Unregister(s: HubState, c: Client): HubState {
    if c !in s.clients then s
    else
      var subs := Unsubscribed(s.subs, c.projectId, c);
      s.(clients := s.clients - {c},
         subs := if c.environment == "" then subs else Unsubscribed(subs, EnvKey(c), c),
         chans := if c in s.chans then s.chans[c := s.chans[c].(closed := true)] else s.chans,
         panicked := s.panicked || (c in s.chans && s.chans[c].closed))
  }

  predicate Compatible(c: Client, m: Msg) {
    c.environment == "" || m.environment == "" || c.environment == m.environment
  }

  function Targets(s: HubState, m: Msg): set<Client> {
    if m.projectId in s.subs then set c | c in s.subs[m.projectId] && Compatible(c, m) else {}
  }

  // A send that never waits: a full channel drops the message.
  function Offer(ch: Channel, m: Msg): Channel {
    if |ch.queue| < CAPACITY then ch.(queue := ch.queue + [m]) else ch
  }

  predicate SendPanics(s: HubState, targets: set<Client>) {
    exists c :: c in targets && c in s.chans && s.chans[c].closed
  }

  function Broadcast(s: HubState, m: Msg): HubState {
    s.(chans := map c | c in s.chans :: if c in Targets(s, m) then Offer(s.chans[c], m) else s.chans[c],
       panicked := s.panicked || SendPanics(s, Targets(s, m)))
  }

  function Stop(s: HubState): HubState {
    HubState({}, map[],
             map c | c in s.chans :: if c in s.clients then s.chans[c].(closed := true) else s.chans[c],
             s.panicked || SendPanics(s, s.clients),
             true)
  }

  // The connection's handler takes the oldest message; a closed channel still drains.
  function Receive(s: HubState, c: Client): HubState {
    if c in s.chans && s.chans[c].queue != [] then
      var ch := s.chans[c];
      s.(chans := s.chans[c := ch.(queue := ch.queue[1..], received := ch.received + [ch.queue[0]])])
    else s
  }

  // ----- The hub object -----

  class StreamHub {
    var clients: set<Client>
    var subs: map<string, set<Client>>
    var chans: map<Client, Channel>
    var panicked: bool
    var stopped: bool

    ghost function State(): HubState
      reads this
    {
      HubState(clients, subs, chans, panicked, stopped)
    }

    constructor ()
      ensures State() == EMPTY_HUB
    {
      clients, subs, chans, panicked, stopped := {}, map[], map[], false, false;
    }

    method AddSub(key: string, c: Client)
      modifies `subs
      ensures subs == Subscribed(old(subs), key, c)
    {
      if key !in subs {
        subs := subs[key := {}];
      }
      subs := subs[key := subs[key] + {c}];
      assert subs == Subscribed(old(subs), key, c);
    }

    method OnRegister(c: Client)
      modifies this
      ensures State() == Register(old(State()), c)
    {
      clients := clients + {c};
      if c !in chans {
        chans := chans[c := Channel([], false, [])];
      }
      AddSub(c.projectId, c);
      if c.environment != "" {
        AddSub(EnvKey(c), c);
      }
    }

    method OnUnregister(c: Client)
      modifies this
      ensures State() == Unregister(old(State()), c)
    {
      if c in clients {
        clients := clients - {c};
        if c.projectId in subs {
          subs := subs[c.projectId := subs[c.projectId] - {c}];
        }
        if c.environment != "" && EnvKey(c) in subs {
          subs := subs[EnvKey(c) := subs[EnvKey(c)] - {c}];
        }
        CloseChannel(c);
      }
    }

    method CloseChannel(c: Client)
      modifies `chans, `panicked
      ensures panicked == (old(panicked) || (c in old(chans) && old(chans)[c].closed))
      ensures chans == if c in old(chans) then old(chans)[c := old(chans)[c].(closed := true)] else old(chans)
    {
      if c in chans {
        if chans[c].closed {
          panicked := true;
        }
        chans := chans[c := chans[c].(closed := true)];
      }
    }

    method OnBroadcast(m: Msg)
      modifies this
      ensures State() == Broadcast(old(State()), m)
    {
      var targets := if m.projectId in subs then set c | c in subs[m.projectId] && Compatible(c, m) else {};
      ghost var before, all := chans, targets;
      while targets != {}
        modifies `chans, `panicked
        invariant targets <= all && chans.Keys == before.Keys
        invariant forall c :: c in before ==>
          chans[c] == if c in all && c !in targets then Offer(before[c], m) else before[c]
        invariant panicked <==>
                  old(panicked) || exists c :: c in all && c !in targets && c in before && before[c].closed
        decreases targets
      {
        var c :| c in targets;
        targets := targets - {c};
        if c in chans {
          if chans[c].closed {
            panicked := true;
          }
          if |chans[c].queue| < CAPACITY {
            chans := chans[c := chans[c].(queue := chans[c].queue + [m])];
          }
        }
      }
      assert all == Targets(old(State()), m);
      assert chans == Broadcast(old(State()), m).chans;
    }

    method OnStop()
      modifies this
      ensures State() == Stop(old(State()))
    {
      var todo := clients;
      ghost var before := chans;
      while todo != {}
        modifies `chans, `panicked
        invariant todo <= old(clients) && chans.Keys == before.Keys
        invariant forall c :: c in before ==>
          chans[c] == if c in old(clients) && c !in todo then before[c].(closed := true) else before[c]
        invariant panicked <==>
                  old(panicked) || exists c :: c in old(clients) && c !in todo && c in before && before[c].closed
        decreases todo
      {
        var c :| c in todo;
        todo := todo - {c};
        CloseChannel(c);
      }
      clients, subs, stopped := {}, map[], true;
      assert chans == Stop(old(State())).chans;
    }
  }

  // ----- Runs -----

  datatype HubOp = DoRegister(c: Client) | DoUnregister(c: Client) | DoBroadcast(m: Msg) | DoReceive(c: Client) | DoStop

  // Once stopped, the hub's loop takes no further operation; readers still drain their channels.
  function HubStep(s: HubState, op: HubOp): HubState {
    match op
    case DoReceive(c) => Receive(s, c)
    case _ =>
      if s.stopped then s
      else match op
        case DoRegister(c) => Register(s, c)
        case DoUnregister(c) => Unregister(s, c)
        case DoBroadcast(m) => Broadcast(s, m)
        case _ => Stop(s)
  }

  ghost predicate HubStepAt(ss: seq<HubState>, ops: seq<HubOp>, i: nat)
    requires |ss| == |ops| + 1 && i < |ops|
  {
    && ss[i + 1] == HubStep(ss[i], ops[i])
    // every connection brings a channel of its own
    && (ops[i].DoRegister? ==> ops[i].c !in ss[i].chans)
  }

  ghost predicate HubRun(ss: seq<HubState>, ops: seq<HubOp>) {
    |ss| == |ops| + 1 && ss[0] == EMPTY_HUB && forall i :: 0 <= i < |ops| ==> HubStepAt(ss, ops, i)
  }

  predicate KeyOf(k: string, c: Client) {
    k == c.projectId || (c.environment != "" && k == EnvKey(c))
  }

  /**
    The subscription maps hold exactly the live clients, live channels are open, all others closed, and
    nothing panicked.
   */
  ghost predicate Sane(s: HubState) {
    && !s.panicked
    && (forall c :: c in s.clients ==> c in s.chans)
    && (forall c :: c in s.chans ==> (s.chans[c].closed <==> c !in s.clients))
    && (forall k, c :: k in s.subs && c in s.subs[k] ==> c in s.clients && KeyOf(k, c))
    && (forall c, k :: c in s.clients && KeyOf(k, c) ==> k in s.subs && c in s.subs[k])
  }

  lemma {:induction false} RegisterSane(s: HubState, c: Client)
    requires Sane(s) && c !in s.chans
    ensures Sane(Register(s, c))
  {
    hide Subscribed;
    RegisteredSubs(s, c);
    var s' := Register(s, c);
    assert forall d, k :: d in s'.clients && KeyOf(k, d) ==> k in s'.subs && d in s'.subs[k];
  }

  lemma {:induction false} RegisteredSubs(s: HubState, c: Client)
    ensures var subs := Register(s, c).subs;
            && (forall k :: k in subs <==> k in s.subs || KeyOf(k, c))
            && (forall k, d :: k in subs ==>
                  (d in subs[k] <==> (k in s.subs && d in s.subs[k]) || (d == c && KeyOf(k, c))))
  {
  }

  lemma {:induction false} UnregisterSane(s: HubState, c: Client)
    requires Sane(s)
    ensures Sane(Unregister(s, c))
  {
    if c in s.clients {
      var s' := Unregister(s, c);
      assert s'.subs.Keys == s.subs.Keys;
      assert forall k :: k in s'.subs ==> s'.subs[k] == s.subs[k] - (if KeyOf(k, c) then {c} else {});
    }
  }

  lemma {:induction false} TargetsLive(s: HubState, m: Msg)
    requires Sane(s)
    ensures Targets(s, m) <= s.clients && !SendPanics(s, Targets(s, m)) && !SendPanics(s, s.clients)
  {
  }

  lemma {:induction false} StepSane(s: HubState, op: HubOp)
    requires Sane(s) && (op.DoRegister? ==> op.c !in s.chans)
    ensures Sane(HubStep(s, op))
  {
    match op
    case DoRegister(c) => RegisterSane(s, c);
    case DoUnregister(c) => UnregisterSane(s, c);
    case DoBroadcast(m) => TargetsLive(s, m);
    case DoReceive(c) =>
    case DoStop => TargetsLive(s, Msg("", "", ""));
  }

  /** In every state of every run: no double close, no send after close, and subscriptions match the live clients. */
  lemma {:induction false} HubSafety(ss: seq<HubState>, ops: seq<HubOp>, n: nat)
    requires HubRun(ss, ops) && n <= |ops|
    ensures Sane(ss[n])
  {
    if n > 0 {
      HubSafety(ss, ops, n - 1);
      assert HubStepAt(ss, ops, n - 1);
      StepSane(ss[n - 1], ops[n - 1]);
    }
  }

  // ----- What each operation does to the clients -----

  // Nothing about any other connection has changed: not its place, its subscriptions or its channel.
  ghost predicate OthersUntouched(s: HubState, s': HubState, c: Client) {
    && (forall d :: d != c ==> (d in s'.clients <==> d in s.clients))
    && (forall d :: d != c ==> (d in s'.chans <==> d in s.chans))
    && (forall d :: d != c && d in s.chans ==> s'.chans[d] == s.chans[d])
    && (forall d, k :: d != c ==> (k in s'.subs && d in s'.subs[k] <==> k in s.subs && d in s.subs[k]))
  }

  /** A new connection becomes live, with an open and empty channel, under its project and environment. */
  lemma {:induction false} RegisterEffect(s: HubState, c: Client)
    requires Sane(s) && c !in s.chans
    ensures var s' := Register(s, c);
            && s'.clients == s.clients + {c} && OthersUntouched(s, s', c)
            && c in s'.chans && s'.chans[c] == Channel([], false, [])
            && c.projectId in s'.subs && c in s'.subs[c.projectId]
            && (c.environment != "" ==>
                  var key := c.projectId + ":" + c.environment; key in s'.subs && c in s'.subs[key])
            && s'.stopped == s.stopped && s'.panicked == s.panicked
  {
    RegisteredSubs(s, c);
    hide Subscribed;
    var s' := Register(s, c);
    assert EnvKey(c) == c.projectId + ":" + c.environment;
    assert KeyOf(c.projectId, c) && (c.environment != "" ==> KeyOf(EnvKey(c), c));
  }

  /** A live client that disconnects is nowhere any more, its channel is closed and keeps what it held. */
  lemma {:induction false} UnregisterEffect(s: HubState, c: Client)
    requires Sane(s) && c in s.clients
    ensures var s' := Unregister(s, c);
            && s'.clients == s.clients - {c} && OthersUntouched(s, s', c)
            && (forall k :: k in s'.subs ==> c !in s'.subs[k])
            && c in s'.chans && s'.chans[c] == s.chans[c].(closed := true)
            && s'.stopped == s.stopped && s'.panicked == s.panicked
  {
    var s' := Unregister(s, c);
    assert s'.subs.Keys == s.subs.Keys;
    assert forall k :: k in s'.subs ==> s'.subs[k] == s.subs[k] - (if KeyOf(k, c) then {c} else {});
  }

  /** A disconnect that the hub does not know changes nothing. */
  lemma {:induction false} UnknownUnregister(s: HubState, c: Client)
    requires c !in s.clients
    ensures Unregister(s, c) == s
  {
  }

  /** Stopping leaves no client and no subscription, and closes every live channel with what it held. */
  lemma {:induction false} StopEffect(s: HubState)
    requires Sane(s)
    ensures var s' := Stop(s);
            && s'.stopped && s'.clients == {} && (forall k :: k in s'.subs ==> s'.subs[k] == {})
            && s'.chans.Keys == s.chans.Keys && !s'.panicked
            && (forall c :: c in s.clients ==> s'.chans[c] == s.chans[c].(closed := true))
            && (forall c :: c in s.chans && c !in s.clients ==> s'.chans[c] == s.chans[c])
  {
  }

  /** A broadcast puts the message at the end of every reached queue with room, and changes nothing else. */
  lemma {:induction false} BroadcastEffect(s: HubState, m: Msg)
    requires Sane(s)
    ensures var s' := Broadcast(s, m);
            && s' == s.(chans := s'.chans) && s'.chans.Keys == s.chans.Keys
            && forall c :: c in s.chans ==>
                 var reached := c in s.clients
                   && (m.projectId == c.projectId
                       || (c.environment != "" && m.projectId == c.projectId + ":" + c.environment))
                   && (c.environment == "" || m.environment == "" || c.environment == m.environment);
                 s'.chans[c] == if reached && |s.chans[c].queue| < 20
                                then s.chans[c].(queue := s.chans[c].queue + [m]) else s.chans[c]
  {
    TargetsLive(s, m);
    forall c | c in s.chans
      ensures c in Targets(s, m) <==>
              && c in s.clients
              && (m.projectId == c.projectId
                  || (c.environment != "" && m.projectId == c.projectId + ":" + c.environment))
              && (c.environment == "" || m.environment == "" || c.environment == m.environment)
    {
      ReachedIff(s, m, c);
      assert EnvKey(c) == c.projectId + ":" + c.environment;
    }
  }

  /** A reader takes the oldest waiting message, if there is one, also from a closed channel. */
  lemma {:induction false} ReceiveEffect(s: HubState, c: Client)
    requires c in s.chans
    ensures var s' := Receive(s, c);
            && s' == s.(chans := s'.chans) && s'.chans.Keys == s.chans.Keys
            && (forall d :: d in s.chans && d != c ==> s'.chans[d] == s.chans[d])
            && (s.chans[c].queue == [] ==> s'.chans[c] == s.chans[c])
            && (s.chans[c].queue != [] ==>
                  && s'.chans[c].received == s.chans[c].received + [s.chans[c].queue[0]]
                  && [s.chans[c].queue[0]] + s'.chans[c].queue == s.chans[c].queue
                  && s'.chans[c].closed == s.chans[c].closed)
  {
  }

  /** What safety means: in any state whatever, a send to or a second close of a closed channel would be noticed. */
  lemma {:induction false} PanicsIff(s: HubState, m: Msg, c: Client)
    requires !s.panicked
    ensures Broadcast(s, m).panicked <==>
              exists d :: m.projectId in s.subs && d in s.subs[m.projectId] && Compatible(d, m)
                     && d in s.chans && s.chans[d].closed
    ensures Unregister(s, c).panicked <==> c in s.clients && c in s.chans && s.chans[c].closed
    ensures Stop(s).panicked <==> exists d :: d in s.clients && d in s.chans && s.chans[d].closed
  {
  }

  // ----- Who is live, read off the trace -----

  // Registered at step j and not unregistered since; the hub has not been stopped at all.
  predicate LiveSince(ops: seq<HubOp>, n: nat, c: Client, j: nat)
    requires n <= |ops|
  {
    && j < n && ops[j] == DoRegister(c)
    && (forall i :: j < i < n ==> ops[i] != DoUnregister(c))
    && (forall i :: 0 <= i < n ==> ops[i] != DoStop)
  }

  ghost predicate Live(ops: seq<HubOp>, n: nat, c: Client)
    requires n <= |ops|
  {
    exists j :: LiveSince(ops, n, c, j)
  }

  lemma {:induction false} StoppedIff(ss: seq<HubState>, ops: seq<HubOp>, n: nat)
    requires HubRun(ss, ops) && n <= |ops|
    ensures ss[n].stopped <==> exists i :: 0 <= i < n && ops[i] == DoStop
  {
    if n > 0 {
      StoppedIff(ss, ops, n - 1);
      assert HubStepAt(ss, ops, n - 1);
      assert ss[n].stopped <==> ss[n - 1].stopped || ops[n - 1] == DoStop;
    }
  }

  lemma {:induction false} LiveStep(ops: seq<HubOp>, n: nat, c: Client)
    requires 0 < n <= |ops|
    ensures Live(ops, n, c) <==>
            && (forall i :: 0 <= i < n ==> ops[i] != DoStop)
            && (ops[n - 1] == DoRegister(c) || (Live(ops, n - 1, c) && ops[n - 1] != DoUnregister(c)))
  {
    if j: nat :| LiveSince(ops, n, c, j) {
      if j < n - 1 {
        assert LiveSince(ops, n - 1, c, j);
      }
    }
    if (forall i :: 0 <= i < n ==> ops[i] != DoStop) {
      if ops[n - 1] == DoRegister(c) {
        assert LiveSince(ops, n, c, n - 1);
      } else if ops[n - 1] != DoUnregister(c) && Live(ops, n - 1, c) {
        var j :| LiveSince(ops, n - 1, c, j);
        assert LiveSince(ops, n, c, j);
      }
    }
  }

  lemma {:induction false} ClientsStep(s: HubState, op: HubOp, c: Client)
    requires Sane(s) && (op.DoRegister? ==> op.c !in s.chans) && (s.stopped ==> s.clients == {})
    ensures c in HubStep(s, op).clients <==>
            !s.stopped && op != DoStop && (op == DoRegister(c) || (c in s.clients && op != DoUnregister(c)))
  {
    match op
    case DoRegister(d) => RegisterEffect(s, d);
    case DoUnregister(d) =>
      if d in s.clients {
        UnregisterEffect(s, d);
      }
    case DoBroadcast(m) => BroadcastEffect(s, m);
    case DoReceive(d) =>
    case DoStop => StopEffect(s);
  }

  /** In every state of every run the live clients are those registered and since neither unregistered nor stopped. */
  lemma {:induction false} LiveIff(ss: seq<HubState>, ops: seq<HubOp>, n: nat, c: Client)
    requires HubRun(ss, ops) && n <= |ops|
    ensures c in ss[n].clients <==> Live(ops, n, c)
  {
    hide HubStep;
    hide Live;
    if n == 0 {
      NobodyLive(ops, c);
    } else {
      LiveIff(ss, ops, n - 1, c);
      assert HubStepAt(ss, ops, n - 1);
      HubSafety(ss, ops, n - 1);
      StoppedIsEmpty(ss, ops, n - 1);
      StoppedIff(ss, ops, n - 1);
      ClientsStep(ss[n - 1], ops[n - 1], c);
      LiveStep(ops, n, c);
    }
  }

  lemma {:induction false} NobodyLive(ops: seq<HubOp>, c: Client)
    ensures !Live(ops, 0, c)
  {
  }

  // ----- Who is reached -----

  /** A broadcast reaches exactly the live, compatible clients that subscribe under the very text of its project ID. */
  lemma {:induction false} ReachedIff(s: HubState, m: Msg, c: Client)
    requires Sane(s)
    ensures c in Targets(s, m) <==> c in s.clients && Compatible(c, m) && KeyOf(m.projectId, c)
  {
  }

  /** A project whose ID reads like another project's ID and environment reaches that project's clients. */
  lemma {:induction false} ColonReachesAnotherProject()
    ensures var c, m := Client(0, "acme", "prod"), Msg("acme:prod", "", "flags");
            c in Targets(Register(EMPTY_HUB, c), m) && c.projectId != m.projectId
  {
    var c, m := Client(0, "acme", "prod"), Msg("acme:prod", "", "flags");
    assert EnvKey(c) == "acme:prod";
    assert |c.projectId| != |m.projectId|;
  }

  // ----- What a client receives -----

  function Wants(c: Client): Msg -> bool {
    (m: Msg) => m.projectId == c.projectId && Compatible(c, m)
  }

  // Everything broadcast in the first n operations, in order.
  function Log(ops: seq<HubOp>, n: nat): seq<Msg>
    requires n <= |ops|
  {
    if n == 0 then [] else Log(ops, n - 1) + (if ops[n - 1].DoBroadcast? then [ops[n - 1].m] else [])
  }

  ghost predicate Subsequence(a: seq<Msg>, b: seq<Msg>) {
    if a == [] then true
    else if b == [] then false
    else
      || (a[|a| - 1] == b[|b| - 1] && Subsequence(a[..|a| - 1], b[..|b| - 1]))
      || Subsequence(a, b[..|b| - 1])
  }

  lemma {:induction false} SubsequenceSnoc(a: seq<Msg>, b: seq<Msg>, x: Msg)
    requires Subsequence(a, b)
    ensures Subsequence(a, b + [x]) && Subsequence(a + [x], b + [x])
  {
    assert (b + [x])[..|b|] == b && (a + [x])[..|a|] == a;
  }

  function Accepted(ch: Channel): seq<Msg> {
    ch.received + ch.queue
  }

  lemma {:induction false} AcceptedStep(s: HubState, op: HubOp, c: Client)
    requires Sane(s) && (op.DoRegister? ==> op.c !in s.chans) && c in HubStep(s, op).chans
    ensures var ch' := HubStep(s, op).chans[c];
            if c !in s.chans then Accepted(ch') == []
            else
              var ch := s.chans[c];
              || Accepted(ch') == Accepted(ch)
              || (op.DoBroadcast? && c in Targets(s, op.m) && Accepted(ch') == Accepted(ch) + [op.m])
  {
    match op
    case DoReceive(d) =>
      if d in s.chans && s.chans[d].queue != [] {
        var ch := s.chans[d];
        assert ch.received + [ch.queue[0]] + ch.queue[1..] == ch.received + ch.queue;
      }
    case DoBroadcast(m) =>
      if c in s.chans && !s.stopped {
        var ch := s.chans[c];
        assert ch.received + (ch.queue + [m]) == ch.received + ch.queue + [m];
      }
    case _ =>
  }

  predicate ColonFreeBroadcasts(ops: seq<HubOp>) {
    forall i :: 0 <= i < |ops| && ops[i].DoBroadcast? ==> Free(':', ops[i].m.projectId)
  }

  lemma {:induction false} OwnProjectOnly(s: HubState, m: Msg, c: Client)
    requires Sane(s) && Free(':', m.projectId) && c in Targets(s, m)
    ensures Wants(c)(m)
  {
    ReachedIff(s, m, c);
    assert EnvKey(c)[|c.projectId|] == ':';
  }

  /**
    Tenant isolation over every run: what a client has received or still has queued is, in order, a
    subsequence of the broadcasts for its own project and a compatible environment.
   */
  lemma {:induction false} DeliveredInOrder(ss: seq<HubState>, ops: seq<HubOp>, n: nat, c: Client)
    requires HubRun(ss, ops) && ColonFreeBroadcasts(ops) && n <= |ops| && c in ss[n].chans
    ensures Subsequence(Accepted(ss[n].chans[c]), Filter(Wants(c), Log(ops, n)))
  {
    hide HubStep;
    hide Sane;
    hide Targets;
    hide Filter;
    if n > 0 {
      var s, op := ss[n - 1], ops[n - 1];
      HubSafety(ss, ops, n - 1);
      assert HubStepAt(ss, ops, n - 1);
      AcceptedStep(s, op, c);
      if c in s.chans {
        DeliveredInOrder(ss, ops, n - 1, c);
        LogFiltered(ops, n, c);
        if op.DoBroadcast? {
          if c in Targets(s, op.m) {
            OwnProjectOnly(s, op.m, c);
          }
          SubsequenceSnoc(Accepted(s.chans[c]), Filter(Wants(c), Log(ops, n - 1)), op.m);
        }
      }
    }
  }

  // Step i puts its broadcast into the client's queue: the trace says that the client is then live, the
  // message is for it, and fewer than twenty messages wait.
  ghost predicate GetsAt(ss: seq<HubState>, ops: seq<HubOp>, i: nat, c: Client)
    requires i < |ss| && i < |ops|
  {
    && ops[i].DoBroadcast? && Live(ops, i, c) && c in ss[i].chans
    && var m := ops[i].m;
       && (m.projectId == c.projectId || (c.environment != "" && m.projectId == c.projectId + ":" + c.environment))
       && (c.environment == "" || m.environment == "" || c.environment == m.environment)
       && |ss[i].chans[c].queue| < 20
  }

  ghost function Got(ss: seq<HubState>, ops: seq<HubOp>, n: nat, c: Client): seq<Msg>
    requires n <= |ops| && n <= |ss|
  {
    if n == 0 then [] else Got(ss, ops, n - 1, c) + (if GetsAt(ss, ops, n - 1, c) then [ops[n - 1].m] else [])
  }

  lemma {:induction false} StoppedIsEmpty(ss: seq<HubState>, ops: seq<HubOp>, n: nat)
    requires HubRun(ss, ops) && n <= |ops|
    ensures ss[n].stopped ==> ss[n].clients == {}
  {
    if n > 0 {
      StoppedIsEmpty(ss, ops, n - 1);
      assert HubStepAt(ss, ops, n - 1);
    }
  }

  lemma {:induction false} GotStep(ss: seq<HubState>, ops: seq<HubOp>, i: nat, c: Client)
    requires HubRun(ss, ops) && i < |ops| && c in ss[i].chans
    ensures c in ss[i + 1].chans
    ensures Accepted(ss[i + 1].chans[c]) ==
              Accepted(ss[i].chans[c]) + (if GetsAt(ss, ops, i, c) then [ops[i].m] else [])
  {
    var s, op := ss[i], ops[i];
    HubSafety(ss, ops, i);
    StoppedIsEmpty(ss, ops, i);
    assert HubStepAt(ss, ops, i);
    LiveIff(ss, ops, i, c);
    AcceptedStep(s, op, c);
    if op.DoBroadcast? && !s.stopped {
      BroadcastEffect(s, op.m);
      var ch := s.chans[c];
      assert ch.received + (ch.queue + [op.m]) == ch.received + ch.queue + [op.m];
    }
  }

  lemma {:induction false} NothingBefore(ss: seq<HubState>, ops: seq<HubOp>, n: nat, c: Client)
    requires HubRun(ss, ops) && n <= |ops| && c !in ss[n].chans
    ensures Got(ss, ops, n, c) == []
  {
    if n > 0 {
      assert HubStepAt(ss, ops, n - 1);
      if c in ss[n - 1].chans {
        GotStep(ss, ops, n - 1, c);
        assert false;
      }
      NothingBefore(ss, ops, n - 1, c);
    }
  }

  /**
    Nothing else is lost: what a client has received or still has queued is exactly every broadcast for it
    between its registration and its unregistration or the stop, except those that met a full queue.
   */
  lemma {:induction false} DeliveredExactly(ss: seq<HubState>, ops: seq<HubOp>, n: nat, c: Client)
    requires HubRun(ss, ops) && n <= |ops| && c in ss[n].chans
    ensures Accepted(ss[n].chans[c]) == Got(ss, ops, n, c)
  {
    hide HubStep;
    if n > 0 {
      assert HubStepAt(ss, ops, n - 1);
      if c in ss[n - 1].chans {
        DeliveredExactly(ss, ops, n - 1, c);
        GotStep(ss, ops, n - 1, c);
      } else {
        NothingBefore(ss, ops, n - 1, c);
        HubSafety(ss, ops, n - 1);
        AcceptedStep(ss[n - 1], ops[n - 1], c);
      }
    }
  }

  /** No channel ever holds more than its capacity. */
  lemma {:induction false} QueuesBounded(ss: seq<HubState>, ops: seq<HubOp>, n: nat, c: Client)
    requires HubRun(ss, ops) && n <= |ops| && c in ss[n].chans
    ensures |ss[n].chans[c].queue| <= 20
  {
    if n > 0 {
      assert HubStepAt(ss, ops, n - 1);
      if c in ss[n - 1].chans {
        QueuesBounded(ss, ops, n - 1, c);
      }
    }
  }

  lemma {:induction false} LogFiltered(ops: seq<HubOp>, n: nat, c: Client)
    requires 0 < n <= |ops|
    ensures var before := Filter(Wants(c), Log(ops, n - 1));
            Filter(Wants(c), Log(ops, n)) ==
              if ops[n - 1].DoBroadcast? && Wants(c)(ops[n - 1].m) then before + [ops[n - 1].m] else before
  {
    var log := Log(ops, n - 1);
    if ops[n - 1].DoBroadcast? {
      var m := ops[n - 1].m;
      FilterCat(Wants(c), log, [m]);
      assert [m][..0] == [];
    } else {
      assert log + [] == log;
    }
  }
}
