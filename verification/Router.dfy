/** Compute routing: the cheapest tier that can serve an operation, under a ceiling. */
module Router {
  import opened Contracts

  const VRAM_SATURATION := 0.92

  /** The policy ceiling, lowered to tier 1 when a GPU is present and its memory is saturated. */
  function EffectiveMaxTier(ctx: Context): Tier {
    var ceiling := ctx.constraints.maxTier;
    if ctx.gpuAvailable && ctx.vramPressure >= VRAM_SATURATION && TierRank(ceiling) > TierRank(Tier1LocalLight)
    then Tier1LocalLight
    else ceiling
  }

  function At(ctx: Context, tier: Tier, path: PathName, degraded: bool := false): Route {
    Route(tier, path, degraded, ctx.gpuAvailable && tier in {Tier2Specialized, Tier3External})
  }

  function AtMost(ctx: Context, preferred: Tier, path: PathName): Route {
    var max := EffectiveMaxTier(ctx);
    if TierRank(preferred) > TierRank(max) then At(ctx, max, path, true) else At(ctx, preferred, path)
  }

  predicate SomeRequiredMissing(ctx: Context) {
    exists k :: k in ctx.required && !ctx.HasEvidence(k)
  }

  predicate SomeUnsupported(ctx: Context) {
    exists i :: 0 <= i < |ctx.assumptions| && !ctx.assumptions[i].supported
  }

  /** What routing guarantees whatever the context is. */
  ghost predicate WithinPolicy(ctx: Context, route: Route) {
    && TierRank(route.tier) <= TierRank(ctx.constraints.maxTier)
    && (ctx.gpuAvailable && ctx.vramPressure >= VRAM_SATURATION ==>
          TierRank(route.tier) <= TierRank(Tier1LocalLight) && !route.gpuBacked)
    && (route.tier == Tier3External ==> ctx.constraints.allowExternal && ctx.uncertainty >= 0.75)
    && (ctx.pressure >= ctx.constraints.pressureLimit ==> route.tier == Tier0Deterministic)
  }

  function RouteOf(ctx: Context): (route: Route)
    ensures WithinPolicy(ctx, route)
  {
    if ctx.pressure >= ctx.constraints.pressureLimit then
      At(ctx, Tier0Deterministic, ResourceConservationPath)
    else if SomeRequiredMissing(ctx) then
      AtMost(ctx, Tier1LocalLight, EvidenceRecovery)
    else if ctx.IsCritical() then
      AtMost(ctx, Tier0Deterministic, PolicyGate)
    else if (ctx.assumptions != [] || ctx.taskType == CausalDecision) && !SomeUnsupported(ctx) then
      AtMost(ctx, Tier2Specialized, CausalFamilies)
    else if SomeUnsupported(ctx) then
      AtMost(ctx, Tier1LocalLight, CausalHypothesisGuard)
    else if ctx.uncertainty >= 0.75 && ctx.constraints.allowExternal
            && TierRank(EffectiveMaxTier(ctx)) >= TierRank(Tier3External) then
      At(ctx, Tier3External, ExternalAdvisory)
    else if ctx.complexity <= 0.25 && ctx.uncertainty <= 0.45 then
      At(ctx, Tier0Deterministic, DeterministicRules)
    else
      AtMost(ctx, Tier1LocalLight, LocalLightFamilies)
  }

  // ----- which tier is chosen -----

  ghost predicate NothingMissing(ctx: Context) {
    forall k :: k in ctx.required ==> exists e :: e in ctx.available && e.kind == k
  }

  predicate Causal(ctx: Context) {
    |ctx.assumptions| > 0 || ctx.taskType.CausalDecision?
  }

  ghost predicate AllSupported(ctx: Context) {
    forall a :: a in ctx.assumptions ==> a.supported
  }

  predicate Relaxed(ctx: Context) {
    ctx.pressure < ctx.constraints.pressureLimit
  }

  /** A GPU without room for a heavy workload. */
  predicate Saturated(ctx: Context) {
    ctx.gpuAvailable && ctx.vramPressure >= 0.92
  }

  /** Neither critical nor about causes, and nothing is missing: what the scores decide about. */
  ghost predicate Ordinary(ctx: Context) {
    Relaxed(ctx) && NothingMissing(ctx) && ctx.action !in ctx.constraints.criticalActions && !Causal(ctx)
  }

  ghost predicate GoesOut(ctx: Context) {
    && Ordinary(ctx) && ctx.uncertainty >= 0.75 && ctx.constraints.allowExternal
    && ctx.constraints.maxTier.Tier3External? && !Saturated(ctx)
  }

  ghost predicate Simple(ctx: Context) {
    Ordinary(ctx) && ctx.complexity <= 0.25 && ctx.uncertainty <= 0.45
  }

  /** Causes are asked about and every assumption is supported. */
  ghost predicate Explains(ctx: Context) {
    && Relaxed(ctx) && NothingMissing(ctx) && ctx.action !in ctx.constraints.criticalActions
    && Causal(ctx) && AllSupported(ctx)
  }

  lemma MissingMeans(ctx: Context)
    ensures SomeRequiredMissing(ctx) <==> !NothingMissing(ctx)
    ensures SomeUnsupported(ctx) <==> !AllSupported(ctx)
  {
    forall k ensures ctx.HasEvidence(k) <==> exists e :: e in ctx.available && e.kind == k {
      if ctx.HasEvidence(k) {
        var i :| 0 <= i < |ctx.available| && ctx.available[i].kind == k;
        assert ctx.available[i] in ctx.available;
      }
    }
    if i :| 0 <= i < |ctx.assumptions| && !ctx.assumptions[i].supported {
      assert ctx.assumptions[i] in ctx.assumptions;
    }
  }

  /** The chosen tier: tier 3 goes out, tier 2 explains where the ceiling and the GPU allow it, tier 0 is for pressure,
      a ceiling of 0, critical and simple operations, and tier 1 is for the rest. */
  lemma TierExactly(ctx: Context)
    ensures var tier := RouteOf(ctx).tier;
            && (tier.Tier3External? <==> GoesOut(ctx))
            && (tier.Tier2Specialized? <==>
                  Explains(ctx) && !Saturated(ctx)
                  && (ctx.constraints.maxTier.Tier2Specialized? || ctx.constraints.maxTier.Tier3External?))
            && (tier.Tier0Deterministic? <==>
                  || !Relaxed(ctx) || ctx.constraints.maxTier.Tier0Deterministic?
                  || (NothingMissing(ctx) && ctx.action in ctx.constraints.criticalActions)
                  || Simple(ctx))
  {
    MissingMeans(ctx);
  }

  /** The path tells why: pressure, missing evidence, a critical action, causes that are supported or not, or the scores;
      it is degraded exactly when its own tier is above what policy and GPU allow. */
  lemma PathExactly(ctx: Context)
    ensures var route := RouteOf(ctx);
            && (route.path.ResourceConservationPath? <==> !Relaxed(ctx))
            && (route.path.EvidenceRecovery? <==> Relaxed(ctx) && !NothingMissing(ctx))
            && (route.path.PolicyGate? <==>
                  Relaxed(ctx) && NothingMissing(ctx) && ctx.action in ctx.constraints.criticalActions)
            && (route.path.CausalFamilies? <==> Explains(ctx))
            && (route.path.ExternalAdvisory? <==> GoesOut(ctx))
            && (route.path.DeterministicRules? <==> Simple(ctx))
            && (route.path.LocalLightFamilies? <==> Ordinary(ctx) && !GoesOut(ctx) && !Simple(ctx))
            && (route.degraded <==>
                  if Explains(ctx) then !route.tier.Tier2Specialized?
                  else (route.path.EvidenceRecovery? || route.path.CausalHypothesisGuard? || route.path.LocalLightFamilies?)
                       && ctx.constraints.maxTier.Tier0Deterministic?)
            && (route.gpuBacked <==> ctx.gpuAvailable && (route.tier.Tier2Specialized? || route.tier.Tier3External?))
  {
    MissingMeans(ctx);
  }
}
