/** Flag evaluation and its diagnostic trace (pkg/engine/evaluator.go). */
module Evaluator {
  import opened Domain
  import opened Quota

  datatype Context = Context(
    userId: string,
    email: string,
    country: string,
    role: string,
    tier: string,
    environment: string,
    attributes: map<string, Value>)

  // FNV-1a and the matching of one rule against a context are parameters of the model.
  datatype Engine = Engine(fnv: string -> nat, matches: (TargetingRule, Context) -> bool)

  datatype Reason =
    | KillSwitchDisabled
    | EnvDisabled
    | TargetingRuleMatch
    | PercentageBucket
    | PercentageExcluded
    | MultivariateBucket
    | DefaultEnabled

  datatype Result = Result(
    flagKey: string,
    enabled: bool,
    variant: string,
    value: Value,
    reason: Reason,
    ruleId: string,
    ruleName: string,
    bucket: Option<real>,
    threshold: Option<real>)

  // GetStickyBucket: one of 10,000 slots, in hundredths of a percent.
  function Slot(g: Engine, identifier: string, salt: string): nat {
    g.fnv(identifier + ":" + salt) % SLOTS
  }

  function StickyBucket(g: Engine, identifier: string, salt: string): real {
    Bucket(Slot(g, identifier, salt))
  }

  function Or(s: string, default: string): string {
    if s == "" then default else s
  }

  function Identifier(ctx: Context): string {
    if ctx.userId != "" then ctx.userId else if ctx.email != "" then ctx.email else "anonymous-user"
  }

  // The first rule that matches, or the number of rules.
  function FirstMatch(g: Engine, rules: seq<TargetingRule>, ctx: Context): (m: nat)
    ensures m <= |rules|
    ensures m < |rules| ==> g.matches(rules[m], ctx)
    ensures forall i :: 0 <= i < m ==> !g.matches(rules[i], ctx)
  {
    if rules == [] || g.matches(rules[0], ctx) then 0
    else
      var m := FirstMatch(g, rules[1..], ctx);
      assert forall i :: 0 < i < |rules| ==> rules[i] == rules[1..][i - 1];
      1 + m
  }

  function VariantValue(variants: seq<FlagVariant>, key: string): Value {
    if variants == [] then Bool(true)
    else if variants[0].key == key then variants[0].value
    else VariantValue(variants[1..], key)
  }

  function Env(ctx: Context): string {
    Or(ctx.environment, PRODUCTION)
  }

  function ConfigFor(flag: FeatureFlag, ctx: Context): EnvConfig {
    if Env(ctx) in flag.environments then flag.environments[Env(ctx)] else EMPTY_CONFIG.(strategy := Boolean)
  }

  function Off(flag: FeatureFlag, cfg: EnvConfig, reason: Reason): Result {
    Result(flag.key, false, Or(cfg.offVariant, "off"), Bool(false), reason, "", "", None, None)
  }

  function RuleResult(flag: FeatureFlag, cfg: EnvConfig, rule: TargetingRule): Result {
    if rule.action.ForceDisabled? then
      Off(flag, cfg, TargetingRuleMatch).(ruleId := rule.id, ruleName := rule.name)
    else if rule.action.ServeVariant? && rule.serveVariant != "" then
      Result(flag.key, true, rule.serveVariant, VariantValue(cfg.variants, rule.serveVariant), TargetingRuleMatch,
             rule.id, rule.name, None, None)
    else
      Result(flag.key, true, Or(cfg.defaultVariant, "on"), Bool(true), TargetingRuleMatch, rule.id, rule.name, None,
             None)
  }

  function StrategyResult(g: Engine, flag: FeatureFlag, cfg: EnvConfig, ctx: Context): Result {
    if cfg.strategy.Percentage? then
      var bucket := StickyBucket(g, Identifier(ctx), flag.key);
      var on := bucket < cfg.percentage;
      Result(flag.key, on, if on then Or(cfg.defaultVariant, "treatment") else Or(cfg.offVariant, "control"), Bool(on),
             if on then PercentageBucket else PercentageExcluded, "", "", Some(bucket), Some(cfg.percentage))
    else if cfg.strategy.Multivariate? then
      var slot := Slot(g, Identifier(ctx), flag.key + ":multivariate");
      var v := Resolve(cfg.variants, slot);
      Result(flag.key, true, v.key, v.value, MultivariateBucket, "", "",
             Some(if cfg.variants == [] then 0.0 else Bucket(slot)), None)
    else
      Result(flag.key, true, Or(cfg.defaultVariant, "on"), Bool(true), DefaultEnabled, "", "", None, None)
  }

  function Evaluate(g: Engine, flag: FeatureFlag, ctx: Context): Result {
    var cfg := ConfigFor(flag, ctx);
    var m := FirstMatch(g, cfg.rules, ctx);
    if !cfg.enabled then Off(flag, cfg, KillSwitchDisabled)
    else if m < |cfg.rules| then RuleResult(flag, cfg, cfg.rules[m])
    else StrategyResult(g, flag, cfg, ctx)
  }

  // Who is served, independently of how the result is put together.
  ghost predicate Enabled(g: Engine, cfg: EnvConfig, key: string, ctx: Context) {
    var m := FirstMatch(g, cfg.rules, ctx);
    && cfg.enabled
    && if m < |cfg.rules| then !cfg.rules[m].action.ForceDisabled?
       else cfg.strategy.Percentage? ==> StickyBucket(g, Identifier(ctx), key) < cfg.percentage
  }

  lemma {:induction false} EnabledIff(g: Engine, flag: FeatureFlag, ctx: Context)
    ensures Evaluate(g, flag, ctx).enabled <==> Enabled(g, ConfigFor(flag, ctx), flag.key, ctx)
  {
  }

  /** What each part of a result tells its reader about the configuration and the context. */
  lemma {:induction false} ResultMeans(g: Engine, flag: FeatureFlag, ctx: Context)
    ensures var (r, cfg) := (Evaluate(g, flag, ctx), ConfigFor(flag, ctx));
            var m := FirstMatch(g, cfg.rules, ctx);
            && (r.reason.KillSwitchDisabled? <==> !cfg.enabled)
            && (r.reason.TargetingRuleMatch? <==>
                  cfg.enabled && exists rule :: rule in cfg.rules && g.matches(rule, ctx))
            && (r.reason.TargetingRuleMatch? ==>
                  m < |cfg.rules| && r.ruleId == cfg.rules[m].id && r.ruleName == cfg.rules[m].name)
            && (r.reason.PercentageBucket? ==> r.enabled && r.bucket.Some? && r.bucket.value < cfg.percentage)
            && (r.reason.PercentageExcluded? ==> !r.enabled && r.bucket.Some? && r.bucket.value >= cfg.percentage)
            && (!r.enabled ==> r.value == Bool(false) && (cfg.offVariant != "" ==> r.variant == cfg.offVariant))
            && (!r.enabled && cfg.offVariant == "" ==>
                  r.variant == if r.reason.PercentageExcluded? then "control" else "off")
            && (r.enabled && (r.reason.PercentageBucket? || r.reason.DefaultEnabled?) ==>
                 r.value == Bool(true) && (cfg.defaultVariant != "" ==> r.variant == cfg.defaultVariant))
            && (r.reason.MultivariateBucket? && cfg.variants != [] ==>
                 exists v :: v in cfg.variants && r.variant == v.key && r.value == v.value)
  {
    var cfg := ConfigFor(flag, ctx);
    var m := FirstMatch(g, cfg.rules, ctx);
    assert m < |cfg.rules| ==> cfg.rules[m] in cfg.rules;
    var slot := Slot(g, Identifier(ctx), flag.key + ":multivariate");
    assert cfg.variants != [] ==> Resolve(cfg.variants, slot) in cfg.variants;
  }

  // ----- The outcome case by case, in terms of the hash, the context and the configuration alone -----

  // The environment asked for, production when none is named, is configured this way.
  predicate Configured(flag: FeatureFlag, ctx: Context, cfg: EnvConfig) {
    var env := if ctx.environment == "" then "production" else ctx.environment;
    env in flag.environments && flag.environments[env] == cfg
  }

  ghost predicate NoRuleMatches(g: Engine, cfg: EnvConfig, ctx: Context) {
    forall i :: 0 <= i < |cfg.rules| ==> !g.matches(cfg.rules[i], ctx)
  }

  // The text that stands for whoever is asking: the user ID, else the email, else one name for all others.
  predicate Asks(ctx: Context, id: string) {
    || (ctx.userId != "" && id == ctx.userId)
    || (ctx.userId == "" && ctx.email != "" && id == ctx.email)
    || (ctx.userId == "" && ctx.email == "" && id == "anonymous-user")
  }

  // The k-th variant is the first one of this key.
  predicate FirstCalled(vs: seq<FlagVariant>, key: string, k: int) {
    0 <= k < |vs| && vs[k].key == key && forall j :: 0 <= j < k ==> vs[j].key != key
  }

  lemma {:induction false} NoMatchIndex(g: Engine, cfg: EnvConfig, ctx: Context)
    requires NoRuleMatches(g, cfg, ctx)
    ensures FirstMatch(g, cfg.rules, ctx) == |cfg.rules|
  {
  }

  /** A flag that is switched off or not configured is off for everybody, rules and strategy regardless. */
  lemma {:induction false} SwitchedOff(g: Engine, flag: FeatureFlag, ctx: Context)
    requires (forall cfg :: Configured(flag, ctx, cfg) ==> !cfg.enabled)
    ensures var r := Evaluate(g, flag, ctx);
            && r.flagKey == flag.key && !r.enabled && r.value == Bool(false) && r.reason == KillSwitchDisabled
            && r.ruleId == r.ruleName == "" && r.bucket == None && r.threshold == None
            && (forall cfg :: Configured(flag, ctx, cfg) ==>
                  r.variant == if cfg.offVariant == "" then "off" else cfg.offVariant)
            && ((forall cfg :: !Configured(flag, ctx, cfg)) ==> r.variant == "off")
  {
    assert Env(ctx) in flag.environments ==> Configured(flag, ctx, flag.environments[Env(ctx)]);
  }

  /** The first rule that matches decides alone: it forces off, serves the variant it names, or switches on. */
  lemma {:induction false} RuleDecides(g: Engine, flag: FeatureFlag, ctx: Context, cfg: EnvConfig, i: nat)
    requires Configured(flag, ctx, cfg) && cfg.enabled && i < |cfg.rules|
    requires g.matches(cfg.rules[i], ctx) && forall j :: 0 <= j < i ==> !g.matches(cfg.rules[j], ctx)
    ensures var (r, rule) := (Evaluate(g, flag, ctx), cfg.rules[i]);
            && r.flagKey == flag.key && r.reason == TargetingRuleMatch && r.ruleId == rule.id && r.ruleName == rule.name
            && r.bucket == None && r.threshold == None
            && (r.enabled <==> rule.action != ForceDisabled)
            && (rule.action == ForceDisabled ==>
                  r.value == Bool(false) && r.variant == if cfg.offVariant == "" then "off" else cfg.offVariant)
            && (rule.action == ServeVariant && rule.serveVariant != "" ==>
                  && r.variant == rule.serveVariant
                  && (forall k :: FirstCalled(cfg.variants, rule.serveVariant, k) ==> r.value == cfg.variants[k].value)
                  && ((forall k :: 0 <= k < |cfg.variants| ==> cfg.variants[k].key != rule.serveVariant) ==>
                        r.value == Bool(true)))
            && (rule.action != ForceDisabled && (rule.action != ServeVariant || rule.serveVariant == "") ==>
                  r.value == Bool(true) && r.variant == if cfg.defaultVariant == "" then "on" else cfg.defaultVariant)
  {
    assert FirstMatch(g, cfg.rules, ctx) == i;
    ValueOfVariant(cfg.variants, cfg.rules[i].serveVariant);
  }

  lemma {:induction false} ValueOfVariant(vs: seq<FlagVariant>, key: string)
    ensures forall k :: FirstCalled(vs, key, k) ==> VariantValue(vs, key) == vs[k].value
    ensures (forall k :: 0 <= k < |vs| ==> vs[k].key != key) ==> VariantValue(vs, key) == Bool(true)
  {
    if vs != [] && vs[0].key != key {
      ValueOfVariant(vs[1..], key);
      forall k | FirstCalled(vs, key, k) ensures VariantValue(vs, key) == vs[k].value {
        assert forall j :: 0 <= j < |vs| - 1 ==> vs[1..][j] == vs[j + 1];
        assert FirstCalled(vs[1..], key, k - 1);
      }
      assert forall k :: 0 <= k < |vs| - 1 ==> vs[1..][k] == vs[k + 1];
    }
  }

  /**
    Without a matching rule, a percentage rollout is decided by whoever asks: the hash of that text, a
    colon and the flag's key, in hundredths of a percent, lies below the percentage or does not.
   */
  lemma {:induction false} PercentageDecides(g: Engine, flag: FeatureFlag, ctx: Context, cfg: EnvConfig, id: string)
    requires Configured(flag, ctx, cfg) && cfg.enabled && NoRuleMatches(g, cfg, ctx) && Asks(ctx, id)
    requires cfg.strategy == Percentage
    ensures var r, bucket := Evaluate(g, flag, ctx), (g.fnv(id + ":" + flag.key) % 10000) as real / 100.0;
            && r.flagKey == flag.key && r.ruleId == r.ruleName == ""
            && r.bucket == Some(bucket) && r.threshold == Some(cfg.percentage)
            && (r.enabled <==> bucket < cfg.percentage) && r.value == Bool(bucket < cfg.percentage)
            && (r.enabled ==>
                  && r.reason == PercentageBucket
                  && r.variant == if cfg.defaultVariant == "" then "treatment" else cfg.defaultVariant)
            && (!r.enabled ==>
                  && r.reason == PercentageExcluded
                  && r.variant == if cfg.offVariant == "" then "control" else cfg.offVariant)
  {
    NoMatchIndex(g, cfg, ctx);
  }

  /**
    Without a matching rule, a multivariate flag serves everybody the variant in whose interval of the
    weights, scaled to 100 when they miss it by more than a thousandth, the asker's bucket lies.
   */
  lemma {:induction false} VariantDecides(g: Engine, flag: FeatureFlag, ctx: Context, cfg: EnvConfig, id: string)
    requires Configured(flag, ctx, cfg) && cfg.enabled && NoRuleMatches(g, cfg, ctx) && Asks(ctx, id)
    requires cfg.strategy == Multivariate && Weighted(cfg.variants)
    ensures var r, vs := Evaluate(g, flag, ctx), cfg.variants;
            var bucket := (g.fnv(id + ":" + (flag.key + ":multivariate")) % 10000) as real / 100.0;
            && r.flagKey == flag.key && r.enabled && r.reason == MultivariateBucket && r.ruleId == r.ruleName == ""
            && r.bucket == Some(bucket) && r.threshold == None
            && exists i :: 0 <= i < |vs| && r.variant == vs[i].key && r.value == vs[i].value &&
                 InInterval(vs, i, bucket)
  {
    NoMatchIndex(g, cfg, ctx);
    var slot := g.fnv(id + ":" + (flag.key + ":multivariate")) % 10000;
    EverySlotServed(cfg.variants, slot);
    var i := Pick(cfg.variants, Bucket(slot), 0);
    IntervalIs(cfg.variants, i, Bucket(slot));
    assert Resolve(cfg.variants, slot) == cfg.variants[i];
  }

  /** A multivariate flag without variants serves "default" to everybody. */
  lemma {:induction false} NoVariants(g: Engine, flag: FeatureFlag, ctx: Context, cfg: EnvConfig)
    requires Configured(flag, ctx, cfg) && cfg.enabled && NoRuleMatches(g, cfg, ctx)
    requires cfg.strategy == Multivariate && cfg.variants == []
    ensures Evaluate(g, flag, ctx) ==
            Result(flag.key, true, "default", Bool(true), MultivariateBucket, "", "", Some(0.0), None)
  {
    NoMatchIndex(g, cfg, ctx);
  }

  /** Under any other strategy, an unknown one included, everybody without a matching rule is served. */
  lemma {:induction false} OtherwiseOn(g: Engine, flag: FeatureFlag, ctx: Context, cfg: EnvConfig)
    requires Configured(flag, ctx, cfg) && cfg.enabled && NoRuleMatches(g, cfg, ctx)
    requires cfg.strategy != Percentage && cfg.strategy != Multivariate
    ensures Evaluate(g, flag, ctx) ==
            Result(flag.key, true, if cfg.defaultVariant == "" then "on" else cfg.defaultVariant, Bool(true),
                   DefaultEnabled, "", "", None, None)
  {
    NoMatchIndex(g, cfg, ctx);
  }

  method EvaluateFlag(g: Engine, flag: FeatureFlag, ctx: Context) returns (r: Result)
    ensures r == Evaluate(g, flag, ctx)
  {
    var cfg := ConfigFor(flag, ctx);
    if !cfg.enabled {
      return Off(flag, cfg, KillSwitchDisabled);
    }
    for i := 0 to |cfg.rules|
      invariant forall j :: 0 <= j < i ==> !g.matches(cfg.rules[j], ctx)
    {
      var rule := cfg.rules[i];
      if g.matches(rule, ctx) {
        assert i == FirstMatch(g, cfg.rules, ctx);
        if rule.action.ServeVariant? && rule.serveVariant != "" {
          var value := FindValue(cfg.variants, rule.serveVariant);
          return Result(flag.key, true, rule.serveVariant, value, TargetingRuleMatch, rule.id, rule.name, None, None);
        }
        return RuleResult(flag, cfg, rule);
      }
    }
    if cfg.strategy.Multivariate? {
      var slot := Slot(g, Identifier(ctx), flag.key + ":multivariate");
      var v := ResolveMultivariateVariant(cfg.variants, slot);
      return Result(flag.key, true, v.key, v.value, MultivariateBucket, "", "",
                    Some(if cfg.variants == [] then 0.0 else Bucket(slot)), None);
    }
    return StrategyResult(g, flag, cfg, ctx);
  }

  method FindValue(variants: seq<FlagVariant>, key: string) returns (v: Value)
    ensures v == VariantValue(variants, key)
  {
    v := Bool(true);
    var i := 0;
    while i < |variants|
      invariant 0 <= i <= |variants|
      invariant VariantValue(variants, key) == VariantValue(variants[i..], key)
    {
      if variants[i].key == key {
        return variants[i].value;
      }
      i := i + 1;
    }
  }

  // ----- EvaluateFlagWithTrace -----

  datatype Check =
    | EnvironmentCheck
    | KillSwitchCheck
    | RuleCheck(rule: TargetingRule)
    | PercentageCheck
    | VariantCheck
    | BooleanCheck

  datatype TraceStep = TraceStep(index: nat, check: Check, passed: bool)

  datatype Trace = Trace(
    flagKey: string,
    environment: string,
    identifier: string,
    steps: seq<TraceStep>,
    reason: Reason,
    variant: string,
    enabled: bool,
    bucket: real)

  // The bucket of a trace is Go's zero unless the strategy is reached.
  function TraceOf(flag: FeatureFlag, ctx: Context, steps: seq<TraceStep>, r: Result, bucket: real): Trace {
    Trace(flag.key, Env(ctx), Identifier(ctx), steps, r.reason, r.variant, r.enabled, bucket)
  }

  // The trace salts with the flag's key, the choice of a variant with that key and a suffix.
  predicate SaltsAgree(g: Engine, flag: FeatureFlag, ctx: Context) {
    Slot(g, Identifier(ctx), flag.key) == Slot(g, Identifier(ctx), flag.key + ":multivariate")
  }

  function StrategyCheck(s: Strategy): Check {
    if s.Percentage? then PercentageCheck else if s.Multivariate? then VariantCheck else BooleanCheck
  }

  /** The steps of a trace: numbered from one, and exactly the checks that decided the evaluation. */
  ghost predicate Explains(g: Engine, flag: FeatureFlag, ctx: Context, steps: seq<TraceStep>) {
    && (forall i :: 0 <= i < |steps| ==> steps[i].index == i + 1)
    && if Env(ctx) !in flag.environments then |steps| == 1 && steps[0].check.EnvironmentCheck? && !steps[0].passed
       else
         var cfg := flag.environments[Env(ctx)];
         var m := FirstMatch(g, cfg.rules, ctx);
         && steps != [] && steps[0].check.KillSwitchCheck? && steps[0].passed == cfg.enabled
         && (!cfg.enabled ==> |steps| == 1)
         && (cfg.enabled ==>
           && |steps| == m + 2
           && (forall i :: 1 <= i <= m ==> steps[i].check == RuleCheck(cfg.rules[i - 1]) && !steps[i].passed)
           && if m < |cfg.rules| then steps[m + 1].check == RuleCheck(cfg.rules[m]) && steps[m + 1].passed
              else
                && (steps[m + 1].check == PercentageCheck <==> cfg.strategy == Percentage)
                && (steps[m + 1].check == VariantCheck <==> cfg.strategy == Multivariate)
                && (steps[m + 1].check == BooleanCheck <==> cfg.strategy != Percentage && cfg.strategy != Multivariate)
                && steps[m + 1].passed == Evaluate(g, flag, ctx).enabled)
  }

  /**
    The tracing evaluator agrees with the fast one: wholly when the environment is configured, and on
    everything but the reason when it is not; its trace explains the outcome.
   */
  method EvaluateFlagWithTrace(g: Engine, flag: FeatureFlag, ctx: Context) returns (r: Result, t: Trace)
    ensures Env(ctx) in flag.environments ==> r == Evaluate(g, flag, ctx)
    ensures Env(ctx) !in flag.environments ==> r == Evaluate(g, flag, ctx).(reason := EnvDisabled)
    ensures t.enabled == r.enabled && t.variant == r.variant && t.reason == r.reason
    ensures t.flagKey == flag.key && t.environment == Env(ctx) && t.identifier == Identifier(ctx)
    ensures Explains(g, flag, ctx, t.steps)
    ensures r.reason.PercentageBucket? || r.reason.PercentageExcluded? ==> r.bucket == Some(t.bucket)
    ensures r.reason.MultivariateBucket? && ConfigFor(flag, ctx).variants != [] ==>
              (r.bucket == Some(t.bucket) <==> SaltsAgree(g, flag, ctx))
    ensures r.reason.KillSwitchDisabled? || r.reason.EnvDisabled? || r.reason.TargetingRuleMatch? ==>
              r.bucket == None && t.bucket == 0.0
  {
    var steps: seq<TraceStep> := [];
    if Env(ctx) !in flag.environments {
      steps := [TraceStep(1, EnvironmentCheck, false)];
      r := Result(flag.key, false, "off", Bool(false), EnvDisabled, "", "", None, None);
      return r, TraceOf(flag, ctx, steps, r, 0.0);
    }
    var cfg := flag.environments[Env(ctx)];
    if !cfg.enabled {
      steps := [TraceStep(1, KillSwitchCheck, false)];
      r := Off(flag, cfg, KillSwitchDisabled);
      return r, TraceOf(flag, ctx, steps, r, 0.0);
    }
    steps := [TraceStep(1, KillSwitchCheck, true)];
    var stepIdx := 2;
    for i := 0 to |cfg.rules|
      invariant stepIdx == i + 2 && |steps| == i + 1
      invariant steps[0] == TraceStep(1, KillSwitchCheck, true)
      invariant forall j :: 0 <= j < i ==> !g.matches(cfg.rules[j], ctx)
      invariant forall j :: 1 <= j <= i ==> steps[j] == TraceStep(j + 1, RuleCheck(cfg.rules[j - 1]), false)
    {
      if g.matches(cfg.rules[i], ctx) {
        assert i == FirstMatch(g, cfg.rules, ctx);
        steps := steps + [TraceStep(stepIdx, RuleCheck(cfg.rules[i]), true)];
        r := EvaluateFlag(g, flag, ctx);
        return r, TraceOf(flag, ctx, steps, r, 0.0);
      }
      steps := steps + [TraceStep(stepIdx, RuleCheck(cfg.rules[i]), false)];
      stepIdx := stepIdx + 1;
    }
    var bucket := StickyBucket(g, Identifier(ctx), flag.key);
    var passed := cfg.strategy.Percentage? ==> bucket < cfg.percentage;
    steps := steps + [TraceStep(stepIdx, StrategyCheck(cfg.strategy), passed)];
    r := EvaluateFlag(g, flag, ctx);
    return r, TraceOf(flag, ctx, steps, r, bucket);
  }
}
