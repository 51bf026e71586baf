/** The SDK's telemetry buffer: no evaluation is counted twice or silently lost (pkg/client/telemetry.go). */
module ClientTelemetry {
  import opened Domain
  import opened Tally

  datatype FlagMetric = FlagMetric(evaluations: nat, variants: map<string, nat>)

  datatype Payload = Payload(events: map<string, FlagMetric>, dropped: nat)

  datatype Buffer = Buffer(metrics: map<string, FlagMetric>, maxFlags: nat, maxVariants: nat, dropped: nat)

  function VariantOr(variant: string): string {
    if variant == "" then "off" else variant
  }

  function Recorded(b: Buffer, key: string, variant: string): Buffer {
    var v := VariantOr(variant);
    if key == "" then b
    else if key !in b.metrics && |b.metrics| >= b.maxFlags then b.(dropped := b.dropped + 1)
    else
      var m := if key in b.metrics then b.metrics[key] else FlagMetric(0, map[]);
      if v !in m.variants && |m.variants| >= b.maxVariants then
        b.(metrics := b.metrics[key := m], dropped := b.dropped + 1)
      else
        b.(metrics := b.metrics[key := FlagMetric(m.evaluations + 1, m.variants[v := Get(m.variants, v) + 1])])
  }

  // The locked half of Flush: swap the counters out into a payload, or find nothing to send.
  function Swap(b: Buffer): (Buffer, Option<Payload>) {
    if b.metrics == map[] && b.dropped == 0 then (b, None)
    else (b.(metrics := map[], dropped := 0), Some(Payload(b.metrics, b.dropped)))
  }

  class TelemetryBuffer {
    var metrics: map<string, FlagMetric>
    var maxFlags: nat
    var maxVariants: nat
    var droppedEvents: nat

    ghost function Model(): Buffer
      reads this
    {
      Buffer(metrics, maxFlags, maxVariants, droppedEvents)
    }

    constructor (flags: nat, variants: nat)
      ensures Model() == Buffer(map[], flags, variants, 0)
    {
      metrics, maxFlags, maxVariants, droppedEvents := map[], flags, variants, 0;
    }

    method Record(flagKey: string, variant: string)
      modifies this
      ensures Model() == Recorded(old(Model()), flagKey, variant)
    {
      if flagKey == "" {
        return;
      }
      var v := if variant == "" then "off" else variant;
      if flagKey !in metrics && |metrics| >= maxFlags {
        droppedEvents := droppedEvents + 1;
        return;
      }
      var m := if flagKey in metrics then metrics[flagKey] else FlagMetric(0, map[]);
      if v !in m.variants && |m.variants| >= maxVariants {
        droppedEvents := droppedEvents + 1;
      } else {
        var count := if v in m.variants then m.variants[v] else 0;
        m := FlagMetric(m.evaluations + 1, m.variants[v := count + 1]);
      }
      metrics := metrics[flagKey := m];
    }

    method BeginFlush() returns (payload: Option<Payload>)
      modifies this
      ensures (Model(), payload) == Swap(old(Model()))
    {
      var dropped := droppedEvents;
      droppedEvents := 0;
      if |metrics| == 0 && dropped == 0 {
        assert metrics == map[];
        return None;
      }
      payload := Some(Payload(metrics, dropped));
      metrics := map[];
    }

    // A flush that the network or the server refused gives its drops back; its events are gone.
    method FlushRefused(payload: Payload)
      modifies this
      ensures Model() == old(Model()).(dropped := old(Model()).dropped + payload.dropped)
    {
      droppedEvents := droppedEvents + payload.dropped;
    }
  }

  // ----- The ledger over runs -----

  datatype Verdict = Acknowledged | Refused | NeverSent

  datatype TelemetryOp = Rec(key: string, variant: string) | Begin | Finish(i: nat, verdict: Verdict)

  // The buffer with the books kept beside it: calls made, events in payloads, and where drops went.
  datatype Books = Books(
    buf: Buffer,
    calls: nat,
    sent: nat,
    inFlight: seq<nat>,
    reported: nat,
    forgotten: nat)

  function Evals(m: map<string, FlagMetric>): map<string, nat> {
    map k | k in m :: m[k].evaluations
  }

  ghost function BookStep(s: Books, op: TelemetryOp): Books {
    match op
    case Rec(key, variant) =>
      s.(buf := Recorded(s.buf, key, variant), calls := if key == "" then s.calls else s.calls + 1)
    case Begin =>
      var (b, p) := Swap(s.buf);
      if p == None then s.(buf := b)
      else s.(buf := b, sent := s.sent + Sum(Evals(p.value.events)), inFlight := s.inFlight + [p.value.dropped])
    case Finish(i, verdict) =>
      if i >= |s.inFlight| then s
      else
        var d := s.inFlight[i];
        var s' := s.(inFlight := s.inFlight[..i] + s.inFlight[i + 1..]);
        match verdict
        case Acknowledged => s'.(reported := s.reported + d)
        case Refused => s'.(buf := s.buf.(dropped := s.buf.dropped + d))
        case NeverSent => s'.(forgotten := s.forgotten + d)
  }

  /** Every recorded call is in the buffer, in a payload, or in exactly one of the drop accounts. */
  ghost predicate Balanced(s: Books) {
    s.calls == Sum(Evals(s.buf.metrics)) + s.sent + s.buf.dropped + SumSeq(s.inFlight) + s.reported + s.forgotten
  }

  ghost predicate WithinBounds(b: Buffer) {
    && |b.metrics| <= b.maxFlags
    && (forall k :: k in b.metrics ==>
        b.metrics[k].evaluations == Sum(b.metrics[k].variants) && |b.metrics[k].variants| <= b.maxVariants)
  }

  lemma {:induction false} EvalsUpdate(m: map<string, FlagMetric>, k: string, f: FlagMetric)
    ensures Sum(Evals(m[k := f])) + (if k in m then m[k].evaluations else 0) == Sum(Evals(m)) + f.evaluations
  {
    assert Evals(m[k := f]) == Evals(m)[k := f.evaluations];
    SumUpdate(Evals(m), k, f.evaluations);
  }

  /** A call adds one to the books: to the buffered evaluations or to the drop counter. */
  lemma {:induction false} RecordCountsOnce(b: Buffer, key: string, variant: string)
    ensures var b' := Recorded(b, key, variant);
            && b'.maxFlags == b.maxFlags && b'.maxVariants == b.maxVariants
            && Sum(Evals(b'.metrics)) + b'.dropped == Sum(Evals(b.metrics)) + b.dropped + (if key == "" then 0 else 1)
  {
    if key != "" && (key in b.metrics || |b.metrics| < b.maxFlags) {
      EvalsUpdate(b.metrics, key, Recorded(b, key, variant).metrics[key]);
    }
  }

  // How often this variant of this flag is counted in the buffer.
  function TimesCounted(b: Buffer, key: string, variant: string): nat {
    if key in b.metrics then Get(b.metrics[key].variants, variant) else 0
  }

  // The flag and the variant are known, or there is room for them.
  predicate HasRoom(b: Buffer, key: string, variant: string) {
    if key in b.metrics then variant in b.metrics[key].variants || |b.metrics[key].variants| < b.maxVariants
    else |b.metrics| < b.maxFlags && b.maxVariants > 0
  }

  /**
    A call counts exactly its own variant of its own flag, "off" when it names none, if there is room, and
    is dropped if there is not; a call without a flag does nothing.
   */
  lemma {:induction false} RecordEffect(b: Buffer, key: string, variant: string)
    ensures var b' := Recorded(b, key, variant); var v := if variant == "" then "off" else variant;
            && (key == "" ==> b' == b)
            && (key != "" && HasRoom(b, key, v) ==>
                  && b'.dropped == b.dropped && TimesCounted(b', key, v) == TimesCounted(b, key, v) + 1
                  && key in b'.metrics && b'.metrics[key].evaluations ==
                       (if key in b.metrics then b.metrics[key].evaluations else 0) + 1)
            && (key != "" && !HasRoom(b, key, v) ==>
                  b'.dropped == b.dropped + 1 && TimesCounted(b', key, v) == TimesCounted(b, key, v))
            && (forall k, w :: (k != key || w != v) ==> TimesCounted(b', k, w) == TimesCounted(b, k, w))
            && (forall k :: k != key ==> (k in b'.metrics <==> k in b.metrics))
            && (forall k :: k != key && k in b.metrics ==> b'.metrics[k] == b.metrics[k])
  {
  }

  /** A flush takes everything there is, and nothing only if there is nothing. */
  lemma {:induction false} SwapEffect(b: Buffer)
    ensures var (b', payload) := Swap(b);
            && b'.metrics == map[] && b'.dropped == 0 && b'.maxFlags == b.maxFlags && b'.maxVariants == b.maxVariants
            && (payload == None <==> b.metrics == map[] && b.dropped == 0)
            && (payload.Some? ==> payload.value.events == b.metrics && payload.value.dropped == b.dropped)
  {
  }

  lemma {:induction false} MapGrows<V>(m: map<string, V>, k: string, v: V)
    ensures |m[k := v]| == if k in m then |m| else |m| + 1
  {
    if k in m {
      assert m[k := v].Keys == m.Keys;
    } else {
      assert m[k := v].Keys == m.Keys + {k};
    }
  }

  // A flag's own metric after one more evaluation of a variant.
  lemma {:induction false} MetricGrows(m: FlagMetric, v: string, maxVariants: nat)
    requires m.evaluations == Sum(m.variants) && |m.variants| <= maxVariants
    requires v in m.variants || |m.variants| < maxVariants
    ensures var variants := m.variants[v := Get(m.variants, v) + 1];
            m.evaluations + 1 == Sum(variants) && |variants| <= maxVariants
  {
    MapGrows(m.variants, v, Get(m.variants, v) + 1);
    SumUpdate(m.variants, v, Get(m.variants, v) + 1);
  }

  lemma {:induction false} RecordKeepsBounds(b: Buffer, key: string, variant: string)
    requires WithinBounds(b)
    ensures WithinBounds(Recorded(b, key, variant))
  {
    hide Sum;
    var v := VariantOr(variant);
    if key != "" && (key in b.metrics || |b.metrics| < b.maxFlags) {
      var m := if key in b.metrics then b.metrics[key] else FlagMetric(0, map[]);
      assert m.evaluations == Sum(m.variants) by { SumEmpty(); }
      if v in m.variants || |m.variants| < b.maxVariants {
        MetricGrows(m, v, b.maxVariants);
      }
      MapGrows(b.metrics, key, Recorded(b, key, variant).metrics[key]);
    }
  }

  lemma {:induction false} SumEmpty()
    ensures Sum(map[]) == 0
  {
  }

  lemma {:induction false} StepBalances(s: Books, op: TelemetryOp)
    requires Balanced(s) && WithinBounds(s.buf)
    ensures Balanced(BookStep(s, op)) && WithinBounds(BookStep(s, op).buf)
    ensures BookStep(s, op).buf.maxFlags == s.buf.maxFlags && BookStep(s, op).buf.maxVariants == s.buf.maxVariants
  {
    hide Sum;
    hide SumSeq;
    hide Recorded;
    match op
    case Rec(key, variant) =>
      RecordCountsOnce(s.buf, key, variant);
      RecordKeepsBounds(s.buf, key, variant);
    case Begin =>
      assert Evals(map[]) == map[];
      SumEmpty();
      if Swap(s.buf).1.Some? {
        SumSeqCat(s.inFlight, s.buf.dropped);
      }
    case Finish(i, verdict) =>
      if i < |s.inFlight| {
        SumSeqRemove(s.inFlight, i);
      }
  }

  ghost predicate BookStepAt(ss: seq<Books>, ops: seq<TelemetryOp>, i: nat)
    requires |ss| == |ops| + 1 && i < |ops|
  {
    ss[i + 1] == BookStep(ss[i], ops[i])
  }

  ghost predicate BookRun(ss: seq<Books>, ops: seq<TelemetryOp>, flags: nat, variants: nat) {
    && |ss| == |ops| + 1 && ss[0] == Books(Buffer(map[], flags, variants, 0), 0, 0, [], 0, 0)
    && forall i :: 0 <= i < |ops| ==> BookStepAt(ss, ops, i)
  }

  /**
    Over every interleaving of recording and of any number of overlapping flushes, the books balance,
    each flag's evaluations are the sum over its variants, and both capacity bounds hold.
   */
  lemma {:induction false} ClientLedger(ss: seq<Books>, ops: seq<TelemetryOp>, flags: nat, variants: nat, n: nat)
    requires BookRun(ss, ops, flags, variants) && n <= |ops|
    ensures Balanced(ss[n]) && WithinBounds(ss[n].buf)
    ensures ss[n].buf.maxFlags == flags && ss[n].buf.maxVariants == variants
  {
    hide BookStep;
    if n == 0 {
      assert Evals(map[]) == map[] && Sum(map[]) == 0;
    } else {
      ClientLedger(ss, ops, flags, variants, n - 1);
      assert BookStepAt(ss, ops, n - 1);
      StepBalances(ss[n - 1], ops[n - 1]);
    }
  }
}
