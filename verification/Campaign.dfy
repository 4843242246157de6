/**
 Campaign configurations: normalising the spam section into stages, validating them, and resolving
 every stage to concrete per-scenario rates.
 */
module Campaign {
  import opened Options
  import opened Apportionment
  import Text

  /** The difference between 1 and the next larger double, 2 to the power of -52. */
  const EPSILON: real := 1.0 / 4503599627370496.0

  datatype MixEntry = MixEntry(scenario: string, sharePct: real)

  datatype Stage = Stage(name: string, duration: Option<nat>, rate: Option<nat>, mix: seq<MixEntry>)

  datatype Spam = Spam(
    rate: Option<nat>, duration: Option<nat>, stageTimeout: Option<nat>,
    stage: seq<Stage>, mix: Option<seq<MixEntry>>)

  datatype Config = Config(name: string, spam: Spam)

  datatype ResolvedMixEntry = ResolvedMixEntry(scenario: string, sharePct: real, rate: nat)

  datatype ResolvedStage = ResolvedStage(
    name: string, rate: nat, duration: nat, stageTimeout: Option<nat>, mix: seq<ResolvedMixEntry>)

  datatype Error =
    | NameEmpty
    | ConflictingMixAndStage
    | SpamMixEmpty
    | ShorthandRequiresSpamDuration
    | SpamStageOrMixUndefined
    | StageMixEmpty(index: nat, name: string)
    | SpamDurationMissing(index: nat, name: string)
    | MixSharesSumInvalid(name: string)
    | SpamRateMissing
    | RateDistributionExceedsLimit(name: string, assignedRate: nat, totalRate: nat)

  /** Explicit stages, or the single steady stage of the shorthand form. */
  function NormalizedStages(spam: Spam): Result<seq<Stage>, Error> {
    if spam.stage != [] then
      if spam.mix.Some? then Err(ConflictingMixAndStage) else Ok(spam.stage)
    else if spam.mix.None? then Err(SpamStageOrMixUndefined)
    else if spam.mix.value == [] then Err(SpamMixEmpty)
    else if spam.duration.None? then Err(ShorthandRequiresSpamDuration)
    else Ok([Stage("steady", spam.duration, spam.rate, spam.mix.value)])
  }

  /** Which spam sections have no normal form, and what is reported. */
  lemma NormalFormExactly(spam: Spam)
    ensures spam.stage != [] && spam.mix.Some? ==> NormalizedStages(spam) == Err(ConflictingMixAndStage)
    ensures spam.stage != [] && spam.mix.None? ==> NormalizedStages(spam) == Ok(spam.stage)
    ensures spam.stage == [] && spam.mix.None? ==> NormalizedStages(spam) == Err(SpamStageOrMixUndefined)
    ensures spam.stage == [] && spam.mix == Some([]) ==> NormalizedStages(spam) == Err(SpamMixEmpty)
    ensures spam.stage == [] && spam.mix.Some? && spam.mix != Some([]) && spam.duration.None? ==>
              NormalizedStages(spam) == Err(ShorthandRequiresSpamDuration)
    ensures spam.stage == [] && spam.mix.Some? && spam.mix != Some([]) && spam.duration.Some? ==>
              NormalizedStages(spam).Ok?
  {
  }

  // ---- Validation ----

  predicate StageValid(spam: Spam, stage: Stage) {
    stage.mix != [] && (stage.duration.Some? || spam.duration.Some?)
  }

  predicate Valid(config: Config) {
    && !Text.AllSpace(config.name)
    && NormalizedStages(config.spam).Ok?
    && forall i | 0 <= i < |NormalizedStages(config.spam).value| ::
         StageValid(config.spam, NormalizedStages(config.spam).value[i])
  }

  /** The name, then the normal form, then the stages in order: the first fault is the one reported. */
  ghost predicate FirstFault(config: Config, error: Error) {
    var normalized := NormalizedStages(config.spam);
    if Text.AllSpace(config.name) then error == NameEmpty
    else if normalized.Err? then error == normalized.error
    else exists i | 0 <= i < |normalized.value| ::
           && (forall k | 0 <= k < i :: StageValid(config.spam, normalized.value[k]))
           && !StageValid(config.spam, normalized.value[i])
           && error == if normalized.value[i].mix == [] then StageMixEmpty(i, normalized.value[i].name)
                       else SpamDurationMissing(i, normalized.value[i].name)
  }

  method Validate(config: Config) returns (error: Option<Error>)
    ensures error.None? <==> Valid(config)
    ensures error.Some? ==> FirstFault(config, error.value)
  {
    Text.BlankIsAllSpace(config.name);
    if Text.Trim(config.name) == "" {
      return Some(NameEmpty);
    }
    var normalized := NormalizedStages(config.spam);
    if normalized.Err? {
      return Some(normalized.error);
    }
    var stages := normalized.value;
    for i := 0 to |stages|
      invariant forall k | 0 <= k < i :: StageValid(config.spam, stages[k])
    {
      if stages[i].mix == [] {
        return Some(StageMixEmpty(i, stages[i].name));
      }
      if stages[i].duration.None? && config.spam.duration.None? {
        return Some(SpamDurationMissing(i, stages[i].name));
      }
    }
    return None;
  }

  // ---- Resolution ----

  function Shares(mix: seq<MixEntry>): seq<real> {
    seq(|mix|, i requires 0 <= i < |mix| => mix[i].sharePct)
  }

  function Rates(mix: seq<ResolvedMixEntry>): seq<nat> {
    seq(|mix|, i requires 0 <= i < |mix| => mix[i].rate)
  }

  function Or(a: Option<nat>, default: nat): nat {
    if a.Some? then a.value else default
  }

  /** When a stage resolves: note that both spam-level defaults are needed, used or not. */
  predicate StageResolves(spam: Spam, stage: Stage) {
    && spam.duration.Some?
    && ShareTotal(Shares(stage.mix)) > EPSILON
    && spam.rate.Some?
    && Assigned(Shares(stage.mix), Or(stage.rate, spam.rate.value)) <= Or(stage.rate, spam.rate.value)
  }

  predicate Resolves(config: Config) {
    && NormalizedStages(config.spam).Ok?
    && forall i | 0 <= i < |NormalizedStages(config.spam).value| ::
         StageResolves(config.spam, NormalizedStages(config.spam).value[i])
  }

  /** The stage keeps its name and its mix in order, and its rates add up to the stage's rate. */
  ghost predicate ResolvedFrom(spam: Spam, stage: Stage, out: ResolvedStage) {
    && StageResolves(spam, stage)
    && out.name == stage.name && out.stageTimeout == spam.stageTimeout
    && out.duration == Or(stage.duration, spam.duration.value)
    && out.rate == Or(stage.rate, spam.rate.value)
    && |out.mix| == |stage.mix|
    && (forall i | 0 <= i < |stage.mix| ::
          out.mix[i].scenario == stage.mix[i].scenario && out.mix[i].sharePct == stage.mix[i].sharePct)
    && SplitOf(Shares(stage.mix), out.rate, Rates(out.mix)) && Total(Rates(out.mix)) == out.rate
    && (AllServed(Shares(stage.mix), Rates(out.mix)) <==> CanServe(Shares(stage.mix), out.rate))
  }

  /** The resolved mix keeps the order of the mix. */
  method ResolveMix(mix: seq<MixEntry>, rates: seq<nat>) returns (resolved: seq<ResolvedMixEntry>)
    requires |rates| == |mix|
    ensures |resolved| == |mix| && Rates(resolved) == rates
    ensures forall i | 0 <= i < |mix| ::
              resolved[i].scenario == mix[i].scenario && resolved[i].sharePct == mix[i].sharePct
  {
    resolved := [];
    for i := 0 to |mix|
      invariant |resolved| == i
      invariant forall k | 0 <= k < i ::
                  resolved[k] == ResolvedMixEntry(mix[k].scenario, mix[k].sharePct, rates[k])
    {
      resolved := resolved + [ResolvedMixEntry(mix[i].scenario, mix[i].sharePct, rates[i])];
    }
  }

  /** The fault of a stage that does not resolve. */
  ghost predicate StageFault(spam: Spam, idx: nat, stage: Stage, error: Error) {
    var shares := Shares(stage.mix);
    match error
    case SpamDurationMissing(i, name) => spam.duration.None? && i == idx && name == stage.name
    case MixSharesSumInvalid(name) => spam.duration.Some? && ShareTotal(shares) <= EPSILON && name == stage.name
    case SpamRateMissing => spam.duration.Some? && ShareTotal(shares) > EPSILON && spam.rate.None?
    case RateDistributionExceedsLimit(name, placed, rate) =>
      && spam.duration.Some? && ShareTotal(shares) > EPSILON && spam.rate.Some? && name == stage.name
      && rate == Or(stage.rate, spam.rate.value) && placed == Assigned(shares, rate) > rate
    case _ => false
  }

  method ResolveStage(spam: Spam, idx: nat, stage: Stage) returns (r: Result<ResolvedStage, Error>)
    ensures r.Ok? <==> StageResolves(spam, stage)
    ensures r.Ok? ==> ResolvedFrom(spam, stage, r.value)
    ensures r.Err? ==> StageFault(spam, idx, stage, r.error)
  {
    if spam.duration.None? {
      return Err(SpamDurationMissing(idx, stage.name));
    }
    var shares := Shares(stage.mix);
    if ShareTotal(shares) <= EPSILON {
      return Err(MixSharesSumInvalid(stage.name));
    }
    if spam.rate.None? {
      return Err(SpamRateMissing);
    }
    var rate := Or(stage.rate, spam.rate.value);
    var split := Apportion(shares, rate);
    if split.Err? {
      return Err(RateDistributionExceedsLimit(stage.name, split.error, rate));
    }
    var mix := ResolveMix(stage.mix, split.value);
    r := Ok(ResolvedStage(stage.name, rate, Or(stage.duration, spam.duration.value), spam.stageTimeout, mix));
  }

  ghost predicate ResolvedTo(config: Config, out: seq<ResolvedStage>) {
    var normalized := NormalizedStages(config.spam);
    && normalized.Ok? && |out| == |normalized.value|
    && forall i | 0 <= i < |out| :: ResolvedFrom(config.spam, normalized.value[i], out[i])
  }

  method Resolve(config: Config) returns (r: Result<seq<ResolvedStage>, Error>)
    ensures r.Ok? <==> Resolves(config)
    ensures r.Ok? ==> ResolvedTo(config, r.value)
    ensures r.Err? && NormalizedStages(config.spam).Err? ==> r.error == NormalizedStages(config.spam).error
    ensures r.Err? && NormalizedStages(config.spam).Ok? ==>
              var stages := NormalizedStages(config.spam).value;
              exists i | 0 <= i < |stages| ::
                && StageFault(config.spam, i, stages[i], r.error)
                && forall k | 0 <= k < i :: StageResolves(config.spam, stages[k])
  {
    var normalized := NormalizedStages(config.spam);
    if normalized.Err? {
      return Err(normalized.error);
    }
    var stages := normalized.value;
    var resolved: seq<ResolvedStage> := [];
    for i := 0 to |stages|
      invariant |resolved| == i
      invariant forall k | 0 <= k < i :: ResolvedFrom(config.spam, stages[k], resolved[k])
    {
      var stage := ResolveStage(config.spam, i, stages[i]);
      if stage.Err? {
        return Err(stage.error);
      }
      resolved := resolved + [stage.value];
    }
    return Ok(resolved);
  }

  /**
   A valid configuration resolves exactly if it has both spam-level defaults, whether or not a stage
   uses them, every share sum is positive, and no stage is rejected by the rate split.
   */
  lemma ValidResolvesExactly(config: Config)
    requires Valid(config)
    ensures Resolves(config) <==>
            var spam := config.spam;
            && spam.duration.Some? && spam.rate.Some?
            && forall i | 0 <= i < |NormalizedStages(spam).value| ::
                 var stage := NormalizedStages(spam).value[i];
                 && ShareTotal(Shares(stage.mix)) > EPSILON
                 && Assigned(Shares(stage.mix), Or(stage.rate, spam.rate.value)) <= Or(stage.rate, spam.rate.value)
  {
    var stages := NormalizedStages(config.spam).value;
    assert |stages| > 0;
    if Resolves(config) {
      assert StageResolves(config.spam, stages[0]);
    }
  }

  /** A stage with its own duration and rate is valid, and still does not resolve without the defaults. */
  lemma EagerDefaults(entry: MixEntry, name: string)
    requires !Text.AllSpace(name)
    ensures var config := Config(name, Spam(None, None, None, [Stage("s", Some(10), Some(5), [entry])], None));
            Valid(config) && !Resolves(config)
  {
    var config := Config(name, Spam(None, None, None, [Stage("s", Some(10), Some(5), [entry])], None));
    assert NormalizedStages(config.spam).value[0] == Stage("s", Some(10), Some(5), [entry]);
  }

  // ---- What a resolved campaign looks like ----

  ghost predicate SameMix(mix: seq<MixEntry>, out: seq<ResolvedMixEntry>) {
    |out| == |mix| &&
    forall i | 0 <= i < |mix| :: out[i].scenario == mix[i].scenario && out[i].sharePct == mix[i].sharePct
  }

  /** The shorthand resolves to one stage with the rate, the duration and the mix of the spam section. */
  lemma ShorthandIsOneStage(config: Config, out: seq<ResolvedStage>)
    requires ResolvedTo(config, out) && config.spam.stage == []
    ensures |out| == 1 && out[0].name == "steady" && out[0].stageTimeout == config.spam.stageTimeout
    ensures Some(out[0].rate) == config.spam.rate && Some(out[0].duration) == config.spam.duration
    ensures config.spam.mix.Some? && SameMix(config.spam.mix.value, out[0].mix)
  {
    assert ResolvedFrom(config.spam, NormalizedStages(config.spam).value[0], out[0]);
  }

  /** Explicit stages resolve in order; what a stage leaves open comes from the spam section. */
  lemma StagesInOrder(config: Config, out: seq<ResolvedStage>, i: nat)
    requires ResolvedTo(config, out) && config.spam.stage != [] && i < |config.spam.stage|
    ensures |out| == |config.spam.stage| && config.spam.mix.None? && config.spam.rate.Some? && config.spam.duration.Some?
    ensures var stage := config.spam.stage[i];
            && out[i].name == stage.name && out[i].stageTimeout == config.spam.stageTimeout
            && Some(out[i].rate) == (if stage.rate.Some? then stage.rate else config.spam.rate)
            && Some(out[i].duration) == (if stage.duration.Some? then stage.duration else config.spam.duration)
            && SameMix(stage.mix, out[i].mix)
  {
    assert ResolvedFrom(config.spam, NormalizedStages(config.spam).value[i], out[i]);
  }

  /** Share totals of 3e-16 are accepted and of 2e-16 are not: the limit lies at 2.22e-16. */
  lemma ShareLimit(shares: seq<real>)
    requires |shares| == 1
    ensures shares[0] >= 0.0000000000000003 ==> ShareTotal(shares) > EPSILON
    ensures shares[0] <= 0.0000000000000002 ==> ShareTotal(shares) <= EPSILON
  {
    assert shares[..0] == [] && ShareTotal([]) == 0.0;
  }
}
