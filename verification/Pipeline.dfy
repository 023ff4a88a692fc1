/** The breaker-guarded frame pipeline (EngineManager.run_pipeline in
    engines/manager.py) over the frame engines of engines/engines. */
module Pipeline {
  import opened Prelude
  import opened EngineContexts
  import opened CircuitBreakers
  import TokenBuckets
  import Coalescing
  import Morphing

  /** The engines that handle frame batches.  Compression only measures: it hands
      the batch on unchanged. */
  datatype Engine =
    | Coalesce(maxSize: int)
    | Morph(profile: Morphing.Profile)
    | Compress

  ghost predicate ValidEngine(e: Engine) {
    e.Morph? ==> Morphing.ValidProfile(e.profile)
  }

  /** One engine in pipeline order, with what the environment decides about this
      batch: whether it is active, when its breaker is read, whether the engine
      raises and when the breaker learns of that. */
  datatype Stage = Stage(
    engine: Engine, active: bool, breaker: CircuitBreaker, at: real, raises: bool, failedAt: real)

  function Transform(e: Engine, direction: Direction, frames: seq<bytes>): seq<bytes>
    requires ValidEngine(e)
  {
    match e
    case Coalesce(maxSize) => Coalescing.Processed(direction, frames, maxSize)
    case Morph(profile) => Morphing.Shaped(direction, frames, profile)
    case Compress => frames
  }

  lemma TransformKeepsStream(e: Engine, direction: Direction, frames: seq<bytes>)
    requires ValidEngine(e)
    ensures Join(Transform(e, direction, frames)) == Join(frames)
  {
    match e
    case Coalesce(maxSize) => Coalescing.ProcessedKeepsStream(direction, frames, maxSize);
    case Morph(profile) => Morphing.ShapedKeepsStream(direction, frames, profile);
    case Compress =>
  }

  /** The engines that touch a batch, applied in order. */
  function Through(engines: seq<Engine>, direction: Direction, frames: seq<bytes>): seq<bytes>
    requires forall e :: e in engines ==> ValidEngine(e)
  {
    if engines == [] then frames
    else Through(engines[1..], direction, Transform(engines[0], direction, frames))
  }

  /** Whatever subset of engines runs, in whatever order, the byte stream that
      leaves the pipeline is the byte stream that entered it. */
  lemma {:induction false} ThroughKeepsStream(engines: seq<Engine>, direction: Direction, frames: seq<bytes>)
    requires forall e :: e in engines ==> ValidEngine(e)
    ensures Join(Through(engines, direction, frames)) == Join(frames)
  {
    if engines != [] {
      TransformKeepsStream(engines[0], direction, frames);
      ThroughKeepsStream(engines[1..], direction, Transform(engines[0], direction, frames));
    }
  }

  lemma {:induction false} ThroughSnoc(engines: seq<Engine>, e: Engine, direction: Direction, frames: seq<bytes>)
    requires ValidEngine(e) && forall x :: x in engines ==> ValidEngine(x)
    ensures Through(engines + [e], direction, frames) == Transform(e, direction, Through(engines, direction, frames))
  {
    if engines == [] {
      assert [e][1..] == [];
    } else {
      assert (engines + [e])[1..] == engines[1..] + [e];
      ThroughSnoc(engines[1..], e, direction, Transform(engines[0], direction, frames));
    }
  }

  /** Breaker states of all stages. */
  function States(stages: seq<Stage>): (r: seq<State>)
    reads set i | 0 <= i < |stages| :: stages[i].breaker
  {
    seq(|stages|, i requires 0 <= i < |stages| reads set k | 0 <= k < |stages| :: stages[k].breaker =>
      stages[i].breaker.Current())
  }

  /** The engines of the first n stages that neither skip nor fail, when the
      breakers were found in the given states. */
  function Running(stages: seq<Stage>, found: seq<State>, n: nat): seq<Engine>
    requires n <= |stages| == |found|
  {
    if n == 0 then []
    else
      var s, before := stages[n - 1], Running(stages, found, n - 1);
      if Runs(s, found[n - 1]) then before + [s.engine] else before
  }

  /** What a breaker has become once its stage is passed. */
  function BreakerAfter(s: Stage, before: State): State {
    if !s.active || s.at < before.bypassedUntil then before
    else if s.raises then Next(before, Failure(s.failedAt), s.breaker.maxErrors, s.breaker.cooldown)
    else Next(before, Success, s.breaker.maxErrors, s.breaker.cooldown)
  }

  /** Stages belong to engines of different names, so their breakers differ. */
  ghost predicate ValidStages(stages: seq<Stage>) {
    && (forall i :: 0 <= i < |stages| ==> ValidEngine(stages[i].engine))
    && (forall i, j :: 0 <= i < j < |stages| ==> stages[i].breaker != stages[j].breaker)
  }

  /** EngineManager.run_pipeline.  Over the operations limit a batch passes
      untouched; otherwise it passes exactly the engines that neither skip nor
      fail, and each breaker learns of its own engine's outcome only. */
  method RunPipeline(ctx: EngineContext, stages: seq<Stage>, limiter: TokenBuckets.OpsLimiter, now: real)
      returns (admitted: bool)
    requires ValidStages(stages)
    requires limiter.Valid() && limiter.last <= now
    modifies ctx, limiter, set i | 0 <= i < |stages| :: stages[i].breaker
    ensures Join(ctx.frames) == Join(old(ctx.frames))
    ensures admitted ==> forall e :: e in Running(stages, old(States(stages)), |stages|) ==> ValidEngine(e)
    ensures admitted ==>
      ctx.frames == Through(Running(stages, old(States(stages)), |stages|), ctx.direction, old(ctx.frames))
    ensures !admitted ==> ctx.frames == old(ctx.frames)
    ensures forall i :: 0 <= i < |stages| ==>
      stages[i].breaker.Current() ==
        if admitted then BreakerAfter(stages[i], old(States(stages))[i]) else old(States(stages))[i]
    ensures admitted <==>
      stages == [] || old(TokenBuckets.Taken(limiter.Current(), TokenBuckets.Request(now, 1), limiter.limits)) == 1
  {
    ghost var found := States(stages);
    if stages == [] {
      return true;
    }
    admitted := limiter.Allow(now);
    if !admitted {
      return;
    }
    RunStages(ctx, stages);
    ThroughKeepsStream(Running(stages, found, |stages|), ctx.direction, old(ctx.frames));
  }

  /** The loop over the stages. */
  method RunStages(ctx: EngineContext, stages: seq<Stage>)
    requires ValidStages(stages)
    modifies ctx, set i | 0 <= i < |stages| :: stages[i].breaker
    ensures forall e :: e in Running(stages, old(States(stages)), |stages|) ==> ValidEngine(e)
    ensures ctx.frames == Through(Running(stages, old(States(stages)), |stages|), ctx.direction, old(ctx.frames))
    ensures forall i :: 0 <= i < |stages| ==>
      stages[i].breaker.Current() == BreakerAfter(stages[i], old(States(stages))[i])
  {
    hide Through, Running, BreakerAfter, Transform, Runs;
    ghost var found := States(stages);
    RunningValid(stages, found, |stages|);
    NothingRanYet(stages, found, ctx.direction, ctx.frames);
    var i := 0;
    while i < |stages|
      invariant 0 <= i <= |stages|
      invariant forall e :: e in Running(stages, found, i) ==> ValidEngine(e)
      invariant ctx.frames == Through(Running(stages, found, i), ctx.direction, old(ctx.frames))
      invariant forall k :: 0 <= k < i ==> stages[k].breaker.Current() == BreakerAfter(stages[k], found[k])
      invariant forall k :: i <= k < |stages| ==> stages[k].breaker.Current() == found[k]
    {
      hide ValidEngine;
      RunningValid(stages, found, i + 1);
      ThroughStage(stages, found, i, i + 1, ctx.direction, old(ctx.frames));
      RunStage(ctx, stages[i], found[i]);
      i := i + 1;
    }
  }

  lemma NothingRanYet(stages: seq<Stage>, found: seq<State>, direction: Direction, frames: seq<bytes>)
    requires |stages| == |found|
    ensures Running(stages, found, 0) == [] && Through([], direction, frames) == frames
  {
  }

  /** What the batch is behind one more stage. */
  lemma ThroughStage(stages: seq<Stage>, found: seq<State>, i: nat, next: nat, direction: Direction, frames: seq<bytes>)
    requires i < |stages| == |found| && next == i + 1 && ValidEngine(stages[i].engine)
    requires forall e :: e in Running(stages, found, i) || e in Running(stages, found, next) ==> ValidEngine(e)
    ensures Through(Running(stages, found, next), direction, frames)
         == if Runs(stages[i], found[i])
            then Transform(stages[i].engine, direction, Through(Running(stages, found, i), direction, frames))
            else Through(Running(stages, found, i), direction, frames)
  {
    hide Through, Transform;
    ThroughSnoc(Running(stages, found, i), stages[i].engine, direction, frames);
  }

  /** A stage runs when its breaker was found closed at the time. */
  predicate Runs(s: Stage, found: State) {
    s.active && !(s.at < found.bypassedUntil) && !s.raises
  }

  /** One turn of the loop. */
  method RunStage(ctx: EngineContext, s: Stage, ghost found: State)
    requires ValidEngine(s.engine) && s.breaker.Current() == found
    modifies ctx, s.breaker
    ensures ctx.frames == if Runs(s, found) then Transform(s.engine, ctx.direction, old(ctx.frames)) else old(ctx.frames)
    ensures s.breaker.Current() == BreakerAfter(s, found)
  {
    if s.active && !s.breaker.Open(s.at) {
      if s.raises {
        s.breaker.OnError(s.failedAt);
      } else {
        Apply(s.engine, ctx);
        s.breaker.OnSuccess();
      }
    }
  }

  method Apply(e: Engine, ctx: EngineContext)
    requires ValidEngine(e)
    modifies ctx
    ensures ctx.frames == Transform(e, ctx.direction, old(ctx.frames))
  {
    match e
    case Coalesce(maxSize) => Coalescing.Process(ctx, maxSize);
    case Morph(profile) => Morphing.Process(ctx, profile);
    case Compress =>
  }

  lemma {:induction false} RunningValid(stages: seq<Stage>, found: seq<State>, n: nat)
    requires n <= |stages| == |found| && ValidStages(stages)
    ensures forall e :: e in Running(stages, found, n) ==> ValidEngine(e)
  {
    if n > 0 {
      RunningValid(stages, found, n - 1);
    }
  }

  // ----- which engines run -----

  /** When no stage is skipped or fails, every engine runs, in order. */
  lemma {:induction false} HealthyAllRun(stages: seq<Stage>, found: seq<State>, n: nat)
    requires n <= |stages| == |found|
    requires forall i :: 0 <= i < n ==>
      stages[i].active && !stages[i].raises && stages[i].at >= found[i].bypassedUntil
    ensures |Running(stages, found, n)| == n
    ensures forall i :: 0 <= i < n ==> Running(stages, found, n)[i] == stages[i].engine
  {
    if n > 0 {
      HealthyAllRun(stages, found, n - 1);
    }
  }

  /** A stage that is inactive, bypassed by its breaker, or raises, leaves the
      batch to the others as if it were not there. */
  lemma {:induction false} SkippedIsAbsent(stages: seq<Stage>, found: seq<State>, n: nat, k: nat)
    requires k < n <= |stages| == |found|
    requires !stages[k].active || stages[k].raises || stages[k].at < found[k].bypassedUntil
    ensures Running(stages, found, n)
         == Running(stages[..k] + stages[k + 1..], found[..k] + found[k + 1..], n - 1)
  {
    var fewer, left := stages[..k] + stages[k + 1..], found[..k] + found[k + 1..];
    if n == k + 1 {
      RunningPrefix(stages, found, fewer, left, k);
    } else {
      SkippedIsAbsent(stages, found, n - 1, k);
      assert fewer[n - 2] == stages[n - 1] && left[n - 2] == found[n - 1];
    }
  }

  lemma {:induction false} RunningPrefix(a: seq<Stage>, f: seq<State>, b: seq<Stage>, g: seq<State>, n: nat)
    requires n <= |a| == |f| && n <= |b| == |g| && a[..n] == b[..n] && f[..n] == g[..n]
    ensures Running(a, f, n) == Running(b, g, n)
  {
    if n > 0 {
      assert a[..n][n - 1] == b[..n][n - 1] && f[..n][n - 1] == g[..n][n - 1];
      assert a[..n][..n - 1] == a[..n - 1] && b[..n][..n - 1] == b[..n - 1];
      assert f[..n][..n - 1] == f[..n - 1] && g[..n][..n - 1] == g[..n - 1];
      RunningPrefix(a, f, b, g, n - 1);
    }
  }

  /** What a breaker learns: nothing from a stage that is skipped, a failure from
      one that raises, and a success, which ends its streak, from one that runs. */
  lemma BreakerLearns(s: Stage, before: State)
    ensures !s.active || s.at < before.bypassedUntil ==> BreakerAfter(s, before) == before
    ensures s.active && s.at >= before.bypassedUntil && !s.raises ==> BreakerAfter(s, before) == before.(errors := 0)
    ensures s.active && s.at >= before.bypassedUntil && s.raises ==>
      var after := BreakerAfter(s, before);
      && after.trips == before.trips + 1
      && (before.errors + 1 < s.breaker.maxErrors ==>
            after.errors == before.errors + 1 && after.bypassedUntil == before.bypassedUntil)
      && (before.errors + 1 >= s.breaker.maxErrors ==>
            after.errors == 0 && after.bypassedUntil == s.failedAt + s.breaker.cooldown)
  {
  }
}
