/** The per-link bandwidth bucket (_TokenBucket in core/emunel_core/state.py) and
    the pipeline's operation limiter (_OpsLimiter in engines/manager.py), over
    exact real time. */
module TokenBuckets {
  import opened Prelude

  const MIN_RATE := 1024.0
  const MIN_BURST := 16384.0
  const MIN_SLEEP := 0.004
  const MAX_SLEEP := 0.5

  function MinReal(a: real, b: real): real {
    if a <= b then a else b
  }

  function MaxReal(a: real, b: real): real {
    if a >= b then a else b
  }

  // ----- one bucket, any number of consumers -----

  /** Rate and burst capacity of a bucket. */
  datatype Limits = Limits(rate: real, capacity: real)

  datatype Level = Level(tokens: real, last: real)

  /** One pass of some consumer's loop: at time now it wants this many bytes. */
  datatype Request = Request(now: real, want: nat)

  ghost predicate ValidLimits(c: Limits) {
    c.rate > 0.0 && c.capacity > 0.0
  }

  ghost predicate ValidLevel(b: Level, c: Limits) {
    0.0 <= b.tokens <= c.capacity
  }

  /** Tokens earned from time s to time t. */
  function Accrued(c: Limits, s: real, t: real): real {
    (t - s) * c.rate
  }

  lemma AccruedAdds(c: Limits, s: real, t: real, u: real)
    ensures Accrued(c, s, t) + Accrued(c, t, u) == Accrued(c, s, u)
  {
  }

  lemma AccruedAtLeast(c: Limits, s: real, t: real, duration: real, rate: real)
    requires 0.0 <= duration <= t - s && 0.0 <= rate <= c.rate
    ensures Accrued(c, s, t) >= duration * rate
  {
    ProductMonotone(duration, rate, t - s, c.rate);
  }

  lemma AccruedAtMost(c: Limits, s: real, t: real, gap: real)
    requires 0.0 <= t - s <= gap && 0.0 <= c.rate
    ensures Accrued(c, s, t) <= Accrued(c, 0.0, gap)
  {
    ProductMonotone(t - s, c.rate, gap - 0.0, c.rate);
  }

  function Refill(b: Level, now: real, c: Limits): Level {
    if now > b.last then Level(MinReal(c.capacity, b.tokens + Accrued(c, b.last, now)), now) else b
  }

  /** Whole bytes handed to a request by a refilled bucket. */
  function Taken(b: Level, r: Request, c: Limits): (n: nat)
    requires ValidLimits(c) && ValidLevel(b, c)
    ensures n <= r.want && n as real <= Refill(b, r.now, c).tokens
  {
    RefillValid(b, r.now, c);
    var available := Refill(b, r.now, c).tokens.Floor;
    if r.want <= available then r.want else available
  }

  function Take(b: Level, r: Request, c: Limits): (next: Level)
    requires ValidLimits(c) && ValidLevel(b, c)
    ensures ValidLevel(next, c)
  {
    RefillValid(b, r.now, c);
    var full := Refill(b, r.now, c);
    full.(tokens := full.tokens - Taken(b, r, c) as real)
  }

  lemma RefillValid(b: Level, now: real, c: Limits)
    requires ValidLimits(c) && ValidLevel(b, c)
    ensures ValidLevel(Refill(b, now, c), c)
    ensures b.tokens <= Refill(b, now, c).tokens
  {
    if now > b.last {
      AccruedAtLeast(c, b.last, now, 0.0, 0.0);
    }
  }

  /** Bucket after a sequence of requests by whatever consumers. */
  function After(b: Level, rs: seq<Request>, c: Limits): (next: Level)
    requires ValidLimits(c) && ValidLevel(b, c)
    ensures ValidLevel(next, c)
  {
    if rs == [] then b else Take(After(b, rs[..|rs| - 1], c), rs[|rs| - 1], c)
  }

  /** Bytes granted over a sequence of requests. */
  function Granted(b: Level, rs: seq<Request>, c: Limits): nat
    requires ValidLimits(c) && ValidLevel(b, c)
  {
    if rs == [] then 0
    else
      var before := rs[..|rs| - 1];
      Granted(b, before, c) + Taken(After(b, before, c), rs[|rs| - 1], c)
  }

  lemma NoRequests(b: Level, c: Limits)
    requires ValidLimits(c) && ValidLevel(b, c)
    ensures After(b, [], c) == b && Granted(b, [], c) == 0 && Chronological(b, [])
  {
  }

  lemma AfterSnoc(b: Level, rs: seq<Request>, r: Request, c: Limits)
    requires ValidLimits(c) && ValidLevel(b, c)
    ensures After(b, rs + [r], c) == Take(After(b, rs, c), r, c)
    ensures Granted(b, rs + [r], c) == Granted(b, rs, c) + Taken(After(b, rs, c), r, c)
    ensures Chronological(b, rs) && (if rs == [] then b.last else rs[|rs| - 1].now) <= r.now
        ==> Chronological(b, rs + [r])
  {
    assert (rs + [r])[..|rs|] == rs;
  }

  /** The clock never runs backwards over the requests. */
  ghost predicate Chronological(b: Level, rs: seq<Request>) {
    rs == [] ||
    var n := |rs| - 1;
    Chronological(b, rs[..n]) && (if n == 0 then b.last else rs[n - 1].now) <= rs[n].now
  }

  /** Between any two moments s and t, all consumers of a bucket together are
      granted at most one full bucket plus the rate times t - s: b is the
      bucket as reached by any earlier run. */
  lemma RateBound(b: Level, rs: seq<Request>, c: Limits)
    requires ValidLimits(c) && ValidLevel(b, c) && rs != [] && Chronological(b, rs)
    ensures Granted(b, rs, c) as real <= c.capacity + (rs[|rs| - 1].now - rs[0].now) * c.rate
  {
    hide Accrued, Granted, Chronological, ValidLevel;
    GrantedAtMost(b, rs, c);
    AccruedIs(c, rs[0].now, rs[|rs| - 1].now);
  }

  lemma GrantedAtMost(b: Level, rs: seq<Request>, c: Limits)
    requires ValidLimits(c) && ValidLevel(b, c) && rs != [] && Chronological(b, rs)
    ensures Granted(b, rs, c) as real <= c.capacity + Accrued(c, rs[0].now, rs[|rs| - 1].now)
  {
    hide Accrued;
    Potential(b, rs, c);
    assert After(b, rs, c).tokens >= 0.0;
  }

  lemma AccruedIs(c: Limits, s: real, t: real)
    ensures Accrued(c, s, t) == (t - s) * c.rate
  {
  }

  /** Tokens granted plus tokens left never outgrow one bucket and the refill. */
  lemma {:induction false} Potential(b: Level, rs: seq<Request>, c: Limits)
    requires ValidLimits(c) && ValidLevel(b, c) && rs != [] && Chronological(b, rs)
    ensures After(b, rs, c).last == rs[|rs| - 1].now
    ensures Granted(b, rs, c) as real + After(b, rs, c).tokens
         <= c.capacity + Accrued(c, rs[0].now, rs[|rs| - 1].now)
  {
    var n := |rs| - 1;
    var before := rs[..n];
    if n == 0 {
      assert before == [];
      TakeGain(b, rs[0], c);
    } else {
      Potential(b, before, c);
      var mid := After(b, before, c);
      TakeGain(mid, rs[n], c);
      AccruedAdds(c, rs[0].now, mid.last, rs[n].now);
    }
  }

  /** One request: what it takes plus what it leaves is what the refill made of it. */
  lemma TakeGain(b: Level, r: Request, c: Limits)
    requires ValidLimits(c) && ValidLevel(b, c) && b.last <= r.now
    ensures Take(b, r, c).last == r.now
    ensures Taken(b, r, c) as real + Take(b, r, c).tokens <= c.capacity
    ensures Taken(b, r, c) as real + Take(b, r, c).tokens <= b.tokens + Accrued(c, b.last, r.now)
  {
    RefillValid(b, r.now, c);
    AccruedAtLeast(c, b.last, r.now, 0.0, 0.0);
  }

  // ----- progress while somebody waits -----

  /** The request took all there was and wants more. */
  predicate Empties(b: Level, r: Request, c: Limits)
    requires ValidLimits(c) && ValidLevel(b, c)
  {
    Taken(b, r, c) < r.want
  }

  /** When the bucket was last emptied. */
  function LastEmptied(b: Level, rs: seq<Request>, c: Limits): real
    requires ValidLimits(c) && ValidLevel(b, c) && rs != []
  {
    var n := |rs| - 1;
    if n == 0 || Empties(After(b, rs[..n], c), rs[n], c) then rs[n].now else LastEmptied(b, rs[..n], c)
  }

  /** The first request goes unsatisfied, and none comes later than gap after a
      request that did.  This is so as long as some consumer waits, because the
      pass behind which it sleeps emptied the bucket, and gap bounds its sleep. */
  ghost predicate Busy(b: Level, rs: seq<Request>, c: Limits, gap: real)
    requires ValidLimits(c) && ValidLevel(b, c)
  {
    rs != [] &&
    var n := |rs| - 1;
    if n == 0 then Empties(b, rs[0], c)
    else Busy(b, rs[..n], c, gap) && rs[n].now <= LastEmptied(b, rs[..n], c) + gap
  }

  /** A gap in which the bucket cannot fill up. */
  ghost predicate Short(gap: real, c: Limits) {
    gap >= 0.0 && 1.0 + Accrued(c, 0.0, gap) <= c.capacity
  }

  /** A refill that does not reach the capacity loses nothing. */
  lemma TakeExact(b: Level, r: Request, c: Limits)
    requires ValidLimits(c) && ValidLevel(b, c) && b.last <= r.now
    requires b.tokens + Accrued(c, b.last, r.now) <= c.capacity
    ensures Taken(b, r, c) as real + Take(b, r, c).tokens == b.tokens + Accrued(c, b.last, r.now)
  {
    AccruedAdds(c, b.last, b.last, b.last);
  }

  lemma EmptiedIsLow(b: Level, r: Request, c: Limits)
    requires ValidLimits(c) && ValidLevel(b, c) && Empties(b, r, c)
    ensures Take(b, r, c).tokens < 1.0
  {
  }

  lemma {:induction false} BusyBalance(b: Level, rs: seq<Request>, c: Limits, gap: real)
    requires ValidLimits(c) && ValidLevel(b, c) && Chronological(b, rs) && Busy(b, rs, c, gap) && Short(gap, c)
    ensures var n, e := |rs| - 1, After(b, rs, c);
            && e.last == rs[n].now && LastEmptied(b, rs, c) <= rs[n].now
            && e.tokens < 1.0 + Accrued(c, LastEmptied(b, rs, c), rs[n].now)
            && Granted(b, rs, c) as real + e.tokens
               == Refill(b, rs[0].now, c).tokens + Accrued(c, rs[0].now, rs[n].now)
  {
    hide Taken, Take, Accrued, Refill, Short, Empties;
    var n := |rs| - 1;
    var before := rs[..n];
    if n == 0 {
      assert before == [];
      FirstTake(b, rs[0], c);
    } else {
      BusyBalance(b, before, c, gap);
      BusyStep(c, After(b, before, c), rs[n], LastEmptied(b, before, c), gap);
      AccruedAdds(c, rs[0].now, rs[n - 1].now, rs[n].now);
    }
  }

  lemma FirstTake(b: Level, r: Request, c: Limits)
    requires ValidLimits(c) && ValidLevel(b, c)
    requires b.last <= r.now && Empties(b, r, c)
    ensures Take(b, r, c).last == r.now && Take(b, r, c).tokens < 1.0 + Accrued(c, r.now, r.now)
    ensures Taken(b, r, c) as real + Take(b, r, c).tokens
         == Refill(b, r.now, c).tokens + Accrued(c, r.now, r.now)
  {
    EmptiedIsLow(b, r, c);
    AccruedAdds(c, r.now, r.now, r.now);
  }

  /** One more request while the bucket cannot have filled up. */
  lemma BusyStep(c: Limits, mid: Level, r: Request, emptied: real, gap: real)
    requires ValidLimits(c) && ValidLevel(mid, c) && Short(gap, c) && emptied <= mid.last <= r.now <= emptied + gap
    requires mid.tokens < 1.0 + Accrued(c, emptied, mid.last)
    ensures Take(mid, r, c).last == r.now
    ensures Taken(mid, r, c) as real + Take(mid, r, c).tokens == mid.tokens + Accrued(c, mid.last, r.now)
    ensures Take(mid, r, c).tokens < 1.0 + Accrued(c, if Empties(mid, r, c) then r.now else emptied, r.now)
  {
    hide Taken, Take;
    AccruedAdds(c, emptied, mid.last, r.now);
    AccruedAtMost(c, emptied, r.now, gap);
    assert mid.tokens + Accrued(c, mid.last, r.now) <= c.capacity;
    TakeGain(mid, r, c);
    TakeExact(mid, r, c);
    if Empties(mid, r, c) {
      EmptiedIsLow(mid, r, c);
      AccruedAdds(c, r.now, r.now, r.now);
    }
  }

  lemma {:induction false} FirstLevel(b: Level, rs: seq<Request>, c: Limits)
    requires ValidLimits(c) && ValidLevel(b, c) && Chronological(b, rs) && rs != []
    ensures Refill(b, rs[0].now, c).tokens == MinReal(c.capacity, b.tokens + Accrued(c, b.last, rs[0].now))
    decreases |rs|
  {
    if |rs| > 1 {
      FirstLevel(b, rs[..|rs| - 1], c);
    } else {
      AccruedAdds(c, b.last, b.last, b.last);
    }
  }

  lemma BusyGrants(b: Level, rs: seq<Request>, c: Limits, gap: real)
    requires ValidLimits(c) && ValidLevel(b, c) && Chronological(b, rs) && Busy(b, rs, c, gap) && Short(gap, c)
    ensures rs != [] && Granted(b, rs, c) as real + 1.0
          > MinReal(c.capacity, b.tokens + Accrued(c, b.last, rs[0].now)) + Accrued(c, rs[0].now, LastEmptied(b, rs, c))
  {
    assert rs != [];
    hide Accrued, Refill, Busy, Granted, After, LastEmptied, Chronological, Short;
    FirstLevel(b, rs, c);
    BusyBalance(b, rs, c, gap);
    AccruedAdds(c, rs[0].now, LastEmptied(b, rs, c), rs[|rs| - 1].now);
  }

  /** Progress: as long as somebody waits, from start to finish, all consumers
      together are granted what the bucket held and what it earns, less at most one
      byte: nothing is lost to the cap, so a demand of N bytes is met within
      (N + 1) / rate seconds. */
  lemma WorkConserving(b: Level, rs: seq<Request>, c: Limits, gap: real, start: real, finish: real)
    requires ValidLimits(c) && ValidLevel(b, c) && Chronological(b, rs) && Busy(b, rs, c, gap) && Short(gap, c)
    requires start == rs[0].now && finish == LastEmptied(b, rs, c)
    ensures Granted(b, rs, c) as real + 1.0
          > MinReal(c.capacity, b.tokens + (start - b.last) * c.rate) + (finish - start) * c.rate
  {
    hide *;
    BusyGrants(b, rs, c, gap);
    AccruedIs(c, b.last, start);
    AccruedIs(c, start, finish);
  }

  /** Every bucket of the source is that large for its longest sleep and lateness. */
  lemma SleepsAreShort(c: Limits, gap: real)
    requires c.rate >= MIN_RATE && c.capacity == MaxReal(c.rate, MIN_BURST) && 0.0 <= gap <= 1.8 * MAX_SLEEP
    ensures Short(gap, c)
  {
    AccruedAtMost(c, 0.0, gap, 0.9);
    assert Accrued(c, 0.0, 0.9) == (0.9 - 0.0) * c.rate == 0.9 * c.rate;
  }

  /** After a pause of at least the minimum sleep, a request always makes progress. */
  lemma SleepYieldsTokens(b: Level, r: Request, c: Limits)
    requires ValidLimits(c) && ValidLevel(b, c)
    requires c.rate >= MIN_RATE && c.capacity >= MIN_BURST
    requires r.now >= b.last + MIN_SLEEP
    ensures Taken(b, r, c) >= if r.want <= 4 then r.want else 4
  {
    AccruedAtLeast(c, b.last, r.now, 0.004, 1024.0);
    RefillValid(b, r.now, c);
    assert Refill(b, r.now, c).tokens >= 4.0;
  }

  /** What a pass waits for: never more than one full bucket. */
  function Needed(left: int, c: Limits): int {
    if left <= c.capacity.Floor then left else c.capacity.Floor
  }

  /** How long a pass sleeps that still wants left bytes. */
  function SleepTime(tokens: real, left: int, c: Limits): (d: real)
    requires c.rate > 0.0
    ensures 0.004 <= d <= 0.5
  {
    var deficit := Needed(left, c) as real - tokens;
    var wait := if deficit > 0.0 then deficit / c.rate else MIN_SLEEP;
    MinReal(MaxReal(wait, MIN_SLEEP), MAX_SLEEP)
  }

  /** A sleep shorter than half a second is long enough for what is waited for. */
  lemma SleepSuffices(b: Level, left: nat, c: Limits)
    requires ValidLimits(c) && ValidLevel(b, c) && SleepTime(b.tokens, left, c) < 0.5
    ensures Refill(b, b.last + SleepTime(b.tokens, left, c), c).tokens
         >= (if left as real <= c.capacity then left else c.capacity.Floor) as real
  {
    var d, deficit := SleepTime(b.tokens, left, c), Needed(left, c) as real - b.tokens;
    if deficit > 0.0 {
      assert (deficit / c.rate) * c.rate == deficit;
      AccruedAtLeast(c, b.last, b.last + d, deficit / c.rate, c.rate);
    } else {
      AccruedAtLeast(c, b.last, b.last + d, 0.0, 0.0);
    }
  }

  class TokenBucket {
    const limits: Limits
    var tokens: real
    var last: real

    constructor (bytesPerSecond: real, now: real)
      ensures Valid() && Current() == Level(limits.capacity, now)
      ensures limits.rate == (if bytesPerSecond >= 1024.0 then bytesPerSecond else 1024.0)
      ensures limits.capacity == (if limits.rate >= 16384.0 then limits.rate else 16384.0)
    {
      var rate := MaxReal(bytesPerSecond, MIN_RATE);
      var capacity := MaxReal(rate, MIN_BURST);
      limits := Limits(rate, capacity);
      tokens := capacity;
      last := now;
    }

    ghost predicate Valid()
      reads this
    {
      limits.rate >= MIN_RATE && limits.capacity >= MIN_BURST && ValidLevel(Current(), limits)
    }

    function Current(): Level
      reads this
    {
      Level(tokens, last)
    }

    method RefillNow(now: real)
      requires Valid()
      modifies this
      ensures Valid() && Current() == Refill(old(Current()), now, limits)
    {
      RefillValid(Current(), now, limits);
      var elapsed := now - last;
      if elapsed > 0.0 {
        last := now;
        tokens := MinReal(limits.capacity, tokens + elapsed * limits.rate);
      }
    }

    /** The head of one pass: refill, then take what is there. */
    method TakeNow(now: real, want: nat) returns (take: nat)
      requires Valid()
      modifies this
      ensures Valid()
      ensures take == Taken(old(Current()), Request(now, want), limits)
      ensures Current() == Take(old(Current()), Request(now, want), limits)
    {
      RefillNow(now);
      take := if want <= tokens.Floor then want else tokens.Floor;
      if take > 0 {
        tokens := tokens - take as real;
      }
    }

    /** consume(n), alone on the bucket, entered at time start.  It ends for
        every n, also beyond the capacity, having been granted exactly n bytes
        after at most 2 + n / 4 looks at the clock.  Its passes form a run of
        the step system above, so the rate bound applies to it. */
    method Consume(n: int, start: real) returns (finish: real, readings: nat, ghost requests: seq<Request>)
      requires Valid() && last <= start
      modifies this
      ensures Valid()
      ensures Chronological(old(Current()), requests) && |requests| == readings
      ensures Current() == After(old(Current()), requests, limits)
      ensures Granted(old(Current()), requests, limits) == Max(n, 0)
      ensures n > 0 ==> readings > 0 && requests[0].now == start && requests[readings - 1].now == finish
      ensures 4 * readings <= 8 + Max(n, 0)
      ensures n as real <= limits.capacity + Accrued(limits, start, finish)
    {
      hide SleepTime, Accrued, After, Granted, Chronological, Take, Taken, Refill;
      ghost var origin := Current();
      NoRequests(origin, limits);
      requests := [];
      readings := 0;
      finish := start;
      var now := start;
      var left := n;
      while left > 0
        invariant Valid() && |requests| == readings
        invariant Chronological(origin, requests) && Current() == After(origin, requests, limits)
        invariant Granted(origin, requests, limits) + Max(left, 0) == Max(n, 0)
        invariant (if readings == 0 then origin.last else finish) <= now
        invariant readings == 0 ==> now == start == finish
        invariant n <= 0 ==> readings == 0
        invariant readings > 0 ==> requests[0].now == start && requests[readings - 1].now == finish
        invariant readings > 0 && left > 0 ==> last + MIN_SLEEP <= now
        invariant left > 0 ==> 4 * readings <= 4 + (n - left)
        invariant left <= 0 ==> 4 * readings <= 8 + Max(n, 0)
        decreases left, if readings == 0 then 1 else 0
      {
        ghost var before := Current();
        ghost var request := Request(now, left);
        if readings > 0 {
          SleepYieldsTokens(before, request, limits);
        }
        TakeGain(before, request, limits);
        var take := TakeNow(now, left);
        left := left - take;
        AfterSnoc(origin, requests, request, limits);
        requests := requests + [request];
        readings := readings + 1;
        finish := now;
        if left > 0 {
          now := Sleep(now, SleepTime(tokens, left, limits));
        }
      }
      if n > 0 {
        GrantedAtMost(origin, requests, limits);
      } else {
        AccruedAtLeast(limits, start, finish, 0.0, 0.0);
      }
    }
  }

  /** asyncio.sleep: the caller resumes no earlier than asked. */
  method Sleep(now: real, duration: real) returns (later: real)
    ensures later >= now + duration
  {
    var late: real := *;
    later := now + duration + (if late > 0.0 then late else 0.0);
  }

  // ----- the pipeline's operation limiter -----

  /** _OpsLimiter: one token an operation, capacity tokens a second. */
  class OpsLimiter {
    const limits: Limits
    var tokens: real
    var last: real

    constructor (opsPerSecond: int, now: real)
      ensures Valid() && Current() == Level(limits.capacity, now)
      ensures limits.rate == limits.capacity == (if opsPerSecond >= 1 then opsPerSecond else 1) as real
    {
      var capacity := Max(1, opsPerSecond) as real;
      limits := Limits(capacity, capacity);
      tokens := capacity;
      last := now;
    }

    ghost predicate Valid()
      reads this
    {
      limits.rate == limits.capacity >= 1.0 && ValidLevel(Current(), limits)
    }

    function Current(): Level
      reads this
    {
      Level(tokens, last)
    }

    /** An operation is let through exactly when the bucket would hand it a token. */
    method Allow(now: real) returns (ok: bool)
      requires Valid() && last <= now
      modifies this
      ensures Valid()
      ensures ok <==> Taken(old(Current()), Request(now, 1), limits) == 1
      ensures Current() == Take(old(Current()), Request(now, 1), limits)
    {
      RefillValid(Current(), now, limits);
      ghost var full := Refill(Current(), now, limits);
      tokens := MinReal(limits.capacity, tokens + (now - last) * limits.capacity);
      last := now;
      assert Current() == full;
      if tokens >= 1.0 {
        tokens := tokens - 1.0;
        return true;
      }
      return false;
    }
  }
}
