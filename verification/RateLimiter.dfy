/** The two-level report limiter of engines/mesh/mesh_engine.py (_RateLimiter):
    a token bucket per key, one global bucket, and a key table that forgets
    idle keys when it grows, over exact real time. */
module RateLimiter {
  import opened Prelude

  const MEMORY_BOUND := 4096
  const IDLE := 120.0

  /** When a bucket was last filled and how many tokens it then held. */
  datatype Slot = Slot(last: real, tokens: real)

  datatype State = State(keys: map<string, Slot>, global: Slot)

  datatype Rates = Rates(perKey: nat, perGlobal: nat)

  /** One call of allow with its three readings of the clock. */
  datatype Call = Call(key: string, t1: real, t2: real, t3: real)

  ghost predicate ValidRates(r: Rates) {
    r.perKey >= 1 && r.perGlobal >= 1
  }

  ghost predicate ValidSlot(s: Slot, rate: nat, now: real) {
    0.0 <= s.tokens <= rate as real && s.last <= now
  }

  ghost predicate ValidState(s: State, r: Rates, now: real) {
    && ValidSlot(s.global, r.perGlobal, now)
    && forall k :: k in s.keys ==> ValidSlot(s.keys[k], r.perKey, now)
  }

  ghost predicate ValidCall(c: Call, now: real) {
    now <= c.t1 <= c.t2 <= c.t3
  }

  /** Tokens earned between two moments at a rate per minute. */
  function Earned(s: real, t: real, rate: nat): real {
    (t - s) * (rate as real / 60.0)
  }

  function Clip(tokens: real, rate: nat): real {
    if tokens <= rate as real then tokens else rate as real
  }

  function Fill(s: Slot, now: real, rate: nat): Slot {
    Slot(now, Clip(s.tokens + Earned(s.last, now, rate), rate))
  }

  // ----- one call -----

  /** The table after the lookup of a key; limit None never forgets. */
  function Looked(keys: map<string, Slot>, key: string, now: real, r: Rates, limit: Option<nat>): map<string, Slot> {
    if key in keys then keys
    else
      var grown := keys[key := Slot(now, r.perKey as real)];
      if limit.Some? && |grown| > limit.value
      then map k | k in grown && grown[k].last > now - IDLE :: grown[k]
      else grown
  }

  function SlotOf(keys: map<string, Slot>, key: string, now: real, r: Rates): Slot {
    if key in keys then keys[key] else Slot(now, r.perKey as real)
  }

  function Allowed(s: State, c: Call, r: Rates): bool {
    && Fill(SlotOf(s.keys, c.key, c.t1, r), c.t2, r.perKey).tokens >= 1.0
    && Fill(s.global, c.t3, r.perGlobal).tokens >= 1.0
  }

  function Spend(s: Slot, ok: bool): Slot {
    if ok then s.(tokens := s.tokens - 1.0) else s
  }

  function Next(s: State, c: Call, r: Rates, limit: Option<nat>): State {
    var ok := Allowed(s, c, r);
    State(Looked(s.keys, c.key, c.t1, r, limit)
            [c.key := Spend(Fill(SlotOf(s.keys, c.key, c.t1, r), c.t2, r.perKey), ok)],
          Spend(Fill(s.global, c.t3, r.perGlobal), ok))
  }

  class Limiter {
    const rates: Rates
    var keys: map<string, Slot>
    var global: Slot

    constructor (perKeyPerMin: int, globalPerMin: int, now: real)
      ensures ValidRates(rates) && ValidState(Current(), rates, now)
      ensures Current() == State(map[], Slot(now, rates.perGlobal as real))
      ensures rates.perKey == (if perKeyPerMin >= 1 then perKeyPerMin else 1)
      ensures rates.perGlobal == (if globalPerMin >= 1 then globalPerMin else 1)
    {
      var r := Rates(Max(1, perKeyPerMin), Max(1, globalPerMin));
      rates := r;
      keys := map[];
      global := Slot(now, r.perGlobal as real);
    }

    function Current(): State
      reads this
    {
      State(keys, global)
    }

    /** _bucket: the slot of a key, created full, with the table kept small. */
    method Bucket(key: string, now: real) returns (slot: Slot)
      modifies this
      ensures slot == SlotOf(old(keys), key, now, rates)
      ensures keys == Looked(old(keys), key, now, rates, Some(MEMORY_BOUND)) && global == old(global)
    {
      if key in keys {
        return keys[key];
      }
      slot := Slot(now, rates.perKey as real);
      keys := keys[key := slot];
      if |keys| > MEMORY_BOUND {
        var cutoff := now - IDLE;
        keys := map k | k in keys && keys[k].last > cutoff :: keys[k];
      }
    }

    method Allow(c: Call) returns (ok: bool)
      modifies this
      ensures ok == Allowed(old(Current()), c, rates)
      ensures Current() == Next(old(Current()), c, rates, Some(MEMORY_BOUND))
    {
      var slot := Bucket(c.key, c.t1);
      slot := Fill(slot, c.t2, rates.perKey);
      keys := keys[c.key := slot];
      var all := Fill(global, c.t3, rates.perGlobal);
      global := all;
      if slot.tokens < 1.0 || all.tokens < 1.0 {
        return false;
      }
      keys := keys[c.key := slot.(tokens := slot.tokens - 1.0)];
      global := all.(tokens := all.tokens - 1.0);
      return true;
    }
  }

  // ----- refills -----

  lemma EarnedAdds(s: real, t: real, u: real, rate: nat)
    ensures Earned(s, t, rate) + Earned(t, u, rate) == Earned(s, u, rate)
  {
  }

  /** Sixty times what is earned in so many seconds. */
  function Gain(seconds: real, rate: nat): real {
    seconds * rate as real
  }

  lemma EarnedTimes60(s: real, t: real, rate: nat)
    ensures 60.0 * Earned(s, t, rate) == Gain(t - s, rate)
  {
  }

  lemma GainAdds(a: real, b: real, c: real, rate: nat)
    requires c == a + b
    ensures Gain(c, rate) == Gain(a, rate) + Gain(b, rate)
  {
  }

  lemma EarnedNonNegative(s: real, t: real, rate: nat)
    requires s <= t
    ensures Earned(s, t, rate) >= 0.0
  {
    ProductNonNegative(t - s, rate as real / 60.0);
  }

  /** Filling twice is filling once: clipping in between changes nothing. */
  lemma FillsCompose(s: Slot, t: real, u: real, rate: nat)
    requires s.last <= t <= u
    ensures Fill(Fill(s, t, rate), u, rate) == Fill(s, u, rate)
  {
    EarnedAdds(s.last, t, u, rate);
    EarnedNonNegative(t, u, rate);
  }

  lemma FillValid(s: Slot, t: real, rate: nat)
    requires 0.0 <= s.tokens && s.last <= t
    ensures ValidSlot(Fill(s, t, rate), rate, t)
  {
    EarnedNonNegative(s.last, t, rate);
  }

  /** Two idle minutes fill any bucket to the brim. */
  lemma IdleIsFull(s: Slot, t: real, rate: nat)
    requires 0.0 <= s.tokens && s.last + IDLE <= t
    ensures Fill(s, t, rate) == Slot(t, rate as real)
  {
    ProductMonotone(120.0, rate as real / 60.0, t - s.last, rate as real / 60.0);
    assert 120.0 * (rate as real / 60.0) == 2.0 * rate as real;
  }

  lemma FreshIsFull(t: real, u: real, rate: nat)
    requires t <= u
    ensures Fill(Slot(t, rate as real), u, rate) == Slot(u, rate as real)
  {
    EarnedNonNegative(t, u, rate);
  }

  lemma SlotValid(s: State, c: Call, r: Rates, now: real)
    requires ValidRates(r) && ValidState(s, r, now) && ValidCall(c, now)
    ensures ValidSlot(SlotOf(s.keys, c.key, c.t1, r), r.perKey, c.t1)
    ensures ValidSlot(Fill(SlotOf(s.keys, c.key, c.t1, r), c.t2, r.perKey), r.perKey, c.t2)
    ensures ValidSlot(Fill(s.global, c.t3, r.perGlobal), r.perGlobal, c.t3)
  {
    FillValid(SlotOf(s.keys, c.key, c.t1, r), c.t2, r.perKey);
    FillValid(s.global, c.t3, r.perGlobal);
  }

  lemma NextValid(s: State, c: Call, r: Rates, limit: Option<nat>, now: real)
    requires ValidRates(r) && ValidState(s, r, now) && ValidCall(c, now)
    ensures ValidState(Next(s, c, r, limit), r, c.t3)
  {
    SlotValid(s, c, r, now);
  }

  // ----- forgetting idle keys cannot be noticed -----

  /** The forgetful table agrees with the full one on what it still holds, and
      what it dropped has been idle long enough to be full again. */
  ghost predicate Simulates(e: State, f: State, now: real) {
    && e.global == f.global
    && e.keys.Keys <= f.keys.Keys
    && (forall k :: k in e.keys ==> e.keys[k] == f.keys[k])
    && (forall k :: k in f.keys && k !in e.keys ==> f.keys[k].last + IDLE <= now)
  }

  lemma SimulationStep(e: State, f: State, c: Call, r: Rates, limit: Option<nat>, now: real)
    requires ValidRates(r) && ValidState(e, r, now) && ValidState(f, r, now) && ValidCall(c, now)
    requires Simulates(e, f, now)
    ensures Allowed(e, c, r) == Allowed(f, c, r)
    ensures Simulates(Next(e, c, r, limit), Next(f, c, r, None), c.t3)
  {
    if c.key !in e.keys && c.key in f.keys {
      FreshIsFull(c.t1, c.t2, r.perKey);
      IdleIsFull(f.keys[c.key], c.t2, r.perKey);
    }
    var e', f' := Next(e, c, r, limit), Next(f, c, r, None);
    assert e'.keys[c.key] == f'.keys[c.key];
    var looked := Looked(e.keys, c.key, c.t1, r, limit);
    forall k | k in f'.keys && k !in e'.keys
      ensures f'.keys[k].last + IDLE <= c.t3
    {
      if k in e.keys {
        assert k !in looked && f.keys[k] == e.keys[k];
      }
    }
  }

  ghost predicate Chronological(calls: seq<Call>, start: real) {
    calls == [] || (ValidCall(calls[0], start) && Chronological(calls[1..], calls[0].t3))
  }

  function Answers(s: State, calls: seq<Call>, r: Rates, limit: Option<nat>): (answers: seq<bool>)
    ensures |answers| == |calls|
    decreases |calls|
  {
    if calls == [] then []
    else [Allowed(s, calls[0], r)] + Answers(Next(s, calls[0], r, limit), calls[1..], r, limit)
  }

  /** Eviction is invisible: under a clock that never runs backwards, the
      bounded limiter answers every call exactly as one that never forgets. */
  lemma EvictionIsInvisible(calls: seq<Call>, r: Rates, start: real)
    requires ValidRates(r) && Chronological(calls, start)
    ensures var s := State(map[], Slot(start, r.perGlobal as real));
            Answers(s, calls, r, Some(MEMORY_BOUND)) == Answers(s, calls, r, None)
  {
    var s := State(map[], Slot(start, r.perGlobal as real));
    AnswersAgree(s, s, calls, r, Some(MEMORY_BOUND), start);
  }

  lemma {:induction false} AnswersAgree(e: State, f: State, calls: seq<Call>, r: Rates, limit: Option<nat>, now: real)
    requires ValidRates(r) && ValidState(e, r, now) && ValidState(f, r, now)
    requires Simulates(e, f, now) && Chronological(calls, now)
    ensures Answers(e, calls, r, limit) == Answers(f, calls, r, None)
    decreases |calls|
  {
    if calls != [] {
      var c := calls[0];
      SimulationStep(e, f, c, r, limit, now);
      NextValid(e, c, r, limit, now);
      NextValid(f, c, r, None, now);
      AnswersAgree(Next(e, c, r, limit), Next(f, c, r, None), calls[1..], r, limit, c.t3);
    }
  }

  // ----- what a call costs -----

  /** Tokens a key would find at time t; an unknown key finds a full bucket. */
  function Available(s: State, key: string, t: real, r: Rates): real {
    if key in s.keys then Fill(s.keys[key], t, r.perKey).tokens else r.perKey as real
  }

  function GlobalAvailable(s: State, t: real, r: Rates): real {
    Fill(s.global, t, r.perGlobal).tokens
  }

  /** An allowed call takes one token from its key's bucket and one from the
      global bucket; a denied call takes none anywhere, now or later.  No call
      ever changes what another key can find. */
  lemma CostOfACall(s: State, c: Call, r: Rates, limit: Option<nat>, now: real, other: string, t: real)
    requires ValidRates(r) && ValidState(s, r, now) && ValidCall(c, now) && c.t3 <= t
    ensures var s' := Next(s, c, r, limit);
            var cost := if Allowed(s, c, r) then 1.0 else 0.0;
            && Available(s', c.key, c.t2, r) == Available(s, c.key, c.t2, r) - cost
            && GlobalAvailable(s', c.t3, r) == GlobalAvailable(s, c.t3, r) - cost
            && (!Allowed(s, c, r) ==> Available(s', c.key, t, r) == Available(s, c.key, t, r)
                                      && GlobalAvailable(s', t, r) == GlobalAvailable(s, t, r))
            && (other != c.key ==> Available(s', other, t, r) == Available(s, other, t, r))
  {
    SlotValid(s, c, r, now);
    var slot := SlotOf(s.keys, c.key, c.t1, r);
    if c.key !in s.keys {
      FreshIsFull(c.t1, c.t2, r.perKey);
      FreshIsFull(c.t1, t, r.perKey);
    }
    FillsCompose(slot, c.t2, t, r.perKey);
    FillsCompose(s.global, c.t3, t, r.perGlobal);
    FillAtOnce(Next(s, c, r, limit).keys[c.key], r.perKey);
    FillAtOnce(Next(s, c, r, limit).global, r.perGlobal);
    if other != c.key && other in s.keys && other !in Next(s, c, r, limit).keys {
      IdleIsFull(s.keys[other], t, r.perKey);
    }
  }

  lemma FillAtOnce(s: Slot, rate: nat)
    requires s.tokens <= rate as real
    ensures Fill(s, s.last, rate) == s
  {
    assert Earned(s.last, s.last, rate) == 0.0;
  }

  // ----- rates -----

  function CountFor(key: string, calls: seq<Call>, answers: seq<bool>): nat
    requires |calls| == |answers|
  {
    if calls == [] then 0
    else (if answers[0] && calls[0].key == key then 1 else 0) + CountFor(key, calls[1..], answers[1..])
  }

  function Count(answers: seq<bool>): nat {
    if answers == [] then 0 else (if answers[0] then 1 else 0) + Count(answers[1..])
  }

  function Finish(calls: seq<Call>, start: real): real {
    if calls == [] then start else calls[|calls| - 1].t3
  }

  lemma {:induction false} FinishAfterStart(calls: seq<Call>, start: real)
    requires Chronological(calls, start)
    ensures start <= Finish(calls, start)
    ensures calls != [] ==> Finish(calls, start) == Finish(calls[1..], calls[0].t3)
    decreases |calls|
  {
    if calls != [] {
      FinishAfterStart(calls[1..], calls[0].t3);
    }
  }

  /** Calls allowed to a key against the tokens it started with and has earned. */
  lemma {:induction false} KeyBound(s: State, calls: seq<Call>, r: Rates, limit: Option<nat>, start: real, key: string)
    requires ValidRates(r) && ValidState(s, r, start) && Chronological(calls, start)
    ensures CountFor(key, calls, Answers(s, calls, r, limit)) as real
         <= Available(s, key, start, r) + Earned(start, Finish(calls, start), r.perKey)
    decreases |calls|
  {
    FinishAfterStart(calls, start);
    EarnedNonNegative(start, Finish(calls, start), r.perKey);
    AvailableValid(s, key, start, r);
    if calls != [] {
      var c, s' := calls[0], Next(s, calls[0], r, limit);
      NextValid(s, c, r, limit, start);
      KeyBound(s', calls[1..], r, limit, c.t3, key);
      assert Answers(s, calls, r, limit)[1..] == Answers(s', calls[1..], r, limit);
      KeyStep(s, c, r, limit, start, key);
      EarnedAdds(start, c.t3, Finish(calls, start), r.perKey);
    }
  }

  lemma AvailableValid(s: State, key: string, t: real, r: Rates)
    requires ValidRates(r) && ValidState(s, r, t)
    ensures 0.0 <= Available(s, key, t, r) <= r.perKey as real
  {
    if key in s.keys {
      FillValid(s.keys[key], t, r.perKey);
    }
  }

  /** Waiting adds at most what is earned. */
  lemma AvailableGrows(s: State, key: string, t: real, u: real, r: Rates)
    requires ValidRates(r) && ValidState(s, r, t) && t <= u
    ensures Available(s, key, u, r) <= Available(s, key, t, r) + Earned(t, u, r.perKey)
  {
    EarnedNonNegative(t, u, r.perKey);
    if key in s.keys {
      EarnedAdds(s.keys[key].last, t, u, r.perKey);
    }
  }

  lemma KeyStep(s: State, c: Call, r: Rates, limit: Option<nat>, start: real, key: string)
    requires ValidRates(r) && ValidState(s, r, start) && ValidCall(c, start)
    ensures (if Allowed(s, c, r) && c.key == key then 1.0 else 0.0) + Available(Next(s, c, r, limit), key, c.t3, r)
         <= Available(s, key, start, r) + Earned(start, c.t3, r.perKey)
  {
    var s' := Next(s, c, r, limit);
    CostOfACall(s, c, r, limit, start, key, c.t3);
    AvailableGrows(s, key, start, c.t3, r);
    if key == c.key && Allowed(s, c, r) {
      AvailableGrows(s, key, start, c.t2, r);
      SlotValid(s, c, r, start);
      EarnedAdds(c.t2, c.t2, c.t3, r.perKey);
      EarnedAdds(start, c.t2, c.t3, r.perKey);
      GrowsFrom(s'.keys[key], c.t3, r.perKey);
    }
  }

  lemma GrowsFrom(s: Slot, t: real, rate: nat)
    ensures Fill(s, t, rate).tokens <= s.tokens + Earned(s.last, t, rate)
  {
  }

  /** The same for the global bucket. */
  lemma {:induction false} GlobalBound(s: State, calls: seq<Call>, r: Rates, limit: Option<nat>, start: real)
    requires ValidRates(r) && ValidState(s, r, start) && Chronological(calls, start)
    ensures Count(Answers(s, calls, r, limit)) as real
         <= GlobalAvailable(s, start, r) + Earned(start, Finish(calls, start), r.perGlobal)
    decreases |calls|
  {
    FinishAfterStart(calls, start);
    EarnedNonNegative(start, Finish(calls, start), r.perGlobal);
    FillValid(s.global, start, r.perGlobal);
    if calls != [] {
      var c, s' := calls[0], Next(s, calls[0], r, limit);
      NextValid(s, c, r, limit, start);
      GlobalBound(s', calls[1..], r, limit, c.t3);
      assert Answers(s, calls, r, limit)[1..] == Answers(s', calls[1..], r, limit);
      CostOfACall(s, c, r, limit, start, c.key, c.t3);
      EarnedNonNegative(start, c.t3, r.perGlobal);
      FillsCompose(s.global, start, c.t3, r.perGlobal);
      GrowsFrom(Fill(s.global, start, r.perGlobal), c.t3, r.perGlobal);
      EarnedAdds(start, c.t3, Finish(calls, start), r.perGlobal);
    }
  }

  /** From any valid state on, over any stretch of time, a key is allowed at most
      the tokens it finds at the start, never more than a full allowance, plus its
      rate per minute times the seconds of the stretch over 60. */
  lemma KeyRateBound(s: State, calls: seq<Call>, r: Rates, limit: Option<nat>, start: real, key: string)
    requires ValidRates(r) && ValidState(s, r, start) && Chronological(calls, start)
    ensures var count := CountFor(key, calls, Answers(s, calls, r, limit));
            && 60.0 * count as real
               <= 60.0 * Available(s, key, start, r) + (Finish(calls, start) - start) * r.perKey as real
            && Available(s, key, start, r) <= r.perKey as real
            && (key in s.keys && s.keys[key].last == start ==> Available(s, key, start, r) == s.keys[key].tokens)
  {
    hide Answers, Chronological;
    var count := CountFor(key, calls, Answers(s, calls, r, limit));
    var tokens, finish := Available(s, key, start, r), Finish(calls, start);
    KeyBound(s, calls, r, limit, start, key);
    AvailableValid(s, key, start, r);
    if key in s.keys && s.keys[key].last == start {
      FillAtOnce(s.keys[key], r.perKey);
    }
    hide Available, CountFor, Finish, ValidState;
    PerMinute(count, tokens, start, finish, r.perKey);
  }

  /** The same for all keys together. */
  lemma GlobalRateBound(s: State, calls: seq<Call>, r: Rates, limit: Option<nat>, start: real)
    requires ValidRates(r) && ValidState(s, r, start) && Chronological(calls, start)
    ensures var count := Count(Answers(s, calls, r, limit));
            && 60.0 * count as real
               <= 60.0 * GlobalAvailable(s, start, r) + (Finish(calls, start) - start) * r.perGlobal as real
            && GlobalAvailable(s, start, r) <= r.perGlobal as real
            && (s.global.last == start ==> GlobalAvailable(s, start, r) == s.global.tokens)
  {
    hide Answers, Chronological;
    var count, tokens, finish := Count(Answers(s, calls, r, limit)), GlobalAvailable(s, start, r), Finish(calls, start);
    GlobalBound(s, calls, r, limit, start);
    FillValid(s.global, start, r.perGlobal);
    FillAtOnce(Slot(start, s.global.tokens), r.perGlobal);
    hide GlobalAvailable, Count, Finish, ValidState;
    PerMinute(count, tokens, start, finish, r.perGlobal);
  }

  lemma PerMinute(count: nat, tokens: real, start: real, finish: real, rate: nat)
    requires count as real <= tokens + Earned(start, finish, rate)
    ensures 60.0 * count as real <= 60.0 * tokens + (finish - start) * rate as real
  {
    hide Earned, Gain;
    EarnedTimes60(start, finish, rate);
    GainIs(finish - start, rate);
  }

  lemma GainIs(seconds: real, rate: nat)
    ensures Gain(seconds, rate) == seconds * rate as real
  {
  }

  // ----- the limiter against a reference that knows no buckets -----

  /** Allowed calls of a key among the calls i..n. */
  function AllowedSince(calls: seq<Call>, answers: seq<bool>, key: string, i: nat, n: nat): nat
    requires i <= n <= |calls| && n <= |answers|
    decreases n
  {
    if n == i then 0
    else AllowedSince(calls, answers, key, i, n - 1) + (if answers[n - 1] && calls[n - 1].key == key then 1 else 0)
  }

  /** Allowed calls of all keys among the calls i..n. */
  function AllAllowedSince(answers: seq<bool>, i: nat, n: nat): nat
    requires i <= n <= |answers|
    decreases n
  {
    if n == i then 0 else AllAllowedSince(answers, i, n - 1) + (if answers[n - 1] then 1 else 0)
  }

  /** One call more than count is within a full allowance and what is added to it
      in so many seconds, at a rate per minute. */
  predicate Within(count: nat, perMinute: nat, seconds: real) {
    60.0 * (count as real + 1.0) <= 60.0 * perMinute as real + seconds * perMinute as real
  }

  /** Over no stretch of time that begins with an earlier call of its key would
      one more call be more than a full allowance and what that time adds. */
  ghost predicate KeyHasRoom(calls: seq<Call>, answers: seq<bool>, perMinute: nat, n: nat)
    requires n < |calls| && n <= |answers|
  {
    forall i :: 0 <= i < n && calls[i].key == calls[n].key ==>
      Within(AllowedSince(calls, answers, calls[n].key, i, n), perMinute, calls[n].t2 - calls[i].t2)
  }

  /** The same for the calls of all keys. */
  ghost predicate AllHaveRoom(calls: seq<Call>, answers: seq<bool>, perMinute: nat, n: nat)
    requires n < |calls| && n <= |answers|
  {
    forall i :: 0 <= i < n ==>
      Within(AllAllowedSince(answers, i, n), perMinute, calls[n].t3 - calls[i].t3)
  }

  /** A look at a bucket, and whether it cost a token; here says that this bucket
      is the one looked at. */
  datatype Visit = Visit(here: bool, at: real, spent: bool)

  function Looks(b: Option<Slot>, at: real, rate: nat): Slot {
    if b.None? then Slot(at, rate as real) else Fill(b.value, at, rate)
  }

  /** A bucket that is full when it is first looked at. */
  function BucketAfter(vs: seq<Visit>, rate: nat): Option<Slot> {
    if vs == [] then None
    else
      var n := |vs| - 1;
      var b := BucketAfter(vs[..n], rate);
      if vs[n].here then Some(Spend(Looks(b, vs[n].at, rate), vs[n].spent)) else b
  }

  function Spent(vs: seq<Visit>, i: nat): nat
    requires i <= |vs|
    decreases |vs|
  {
    if i == |vs| then 0
    else
      var n := |vs| - 1;
      Spent(vs[..n], i) + (if vs[n].here && vs[n].spent then 1 else 0)
  }

  /** What the stretch from look i on leaves at a moment, times 60. */
  function Left(vs: seq<Visit>, rate: nat, i: nat, at: real): real
    requires i < |vs|
  {
    60.0 * rate as real + Gain(at - vs[i].at, rate) - 60.0 * Spent(vs, i) as real
  }

  lemma LeftLater(vs: seq<Visit>, rate: nat, i: nat, at: real, later: real)
    requires i < |vs|
    ensures Left(vs, rate, i, later) == Left(vs, rate, i, at) + Gain(later - at, rate)
  {
    hide Gain, Spent;
    GainAdds(at - vs[i].at, later - at, later - vs[i].at, rate);
  }

  lemma LeftSnoc(vs: seq<Visit>, v: Visit, all: seq<Visit>, rate: nat, i: nat, at: real)
    requires all == vs + [v] && i <= |vs|
    ensures i < |vs| ==> Left(all, rate, i, at) == Left(vs, rate, i, at) - if v.here && v.spent then 60.0 else 0.0
    ensures i == |vs| ==> Left(all, rate, i, v.at) == 60.0 * rate as real - if v.here && v.spent then 60.0 else 0.0
  {
    hide Gain;
    assert all[..|vs|] == vs;
    if i == |vs| {
      GainAdds(v.at - v.at, v.at - v.at, v.at - v.at, rate);
      assert Spent(vs, i) == 0;
    }
  }

  /** The bucket holds what the tightest stretch leaves. */
  ghost predicate Tightest(vs: seq<Visit>, rate: nat, s: Slot) {
    && (forall i :: 0 <= i < |vs| && vs[i].here ==> 60.0 * s.tokens <= Left(vs, rate, i, s.last))
    && (exists i :: 0 <= i < |vs| && vs[i].here && 60.0 * s.tokens == Left(vs, rate, i, s.last))
  }

  lemma {:induction false} BucketIsTightest(vs: seq<Visit>, rate: nat)
    ensures var b := BucketAfter(vs, rate);
            if b.None? then forall i :: 0 <= i < |vs| ==> !vs[i].here else Tightest(vs, rate, b.value)
  {
    if vs != [] {
      hide Tightest, Spend, Looks;
      var n := |vs| - 1;
      BucketIsTightest(vs[..n], rate);
      var b, v := BucketAfter(vs[..n], rate), vs[n];
      assert vs == vs[..n] + [v];
      if b.Some? {
        TightestStep(vs[..n], v, vs, rate, b.value);
      } else if v.here {
        FirstLook(vs[..n], v, vs, rate);
      }
    }
  }

  lemma FirstLook(vs: seq<Visit>, v: Visit, all: seq<Visit>, rate: nat)
    requires all == vs + [v] && v.here && forall i :: 0 <= i < |vs| ==> !vs[i].here
    ensures Tightest(all, rate, Spend(Looks(None, v.at, rate), v.spent))
  {
    hide Left, Gain;
    var n, t := |vs|, Spend(Looks(None, v.at, rate), v.spent);
    LeftSnoc(vs, v, all, rate, n, v.at);
    assert all[n].here && 60.0 * t.tokens == Left(all, rate, n, t.last);
  }

  lemma TightestStep(vs: seq<Visit>, v: Visit, all: seq<Visit>, rate: nat, s: Slot)
    requires all == vs + [v] && Tightest(vs, rate, s)
    ensures Tightest(all, rate, if v.here then Spend(Looks(Some(s), v.at, rate), v.spent) else s)
  {
    hide Left, Earned, Gain;
    var t := if v.here then Spend(Looks(Some(s), v.at, rate), v.spent) else s;
    EarnedTimes60(s.last, v.at, rate);
    LeftSnoc(vs, v, all, rate, |vs|, v.at);
    forall i | 0 <= i < |vs| && vs[i].here
      ensures all[i] == vs[i]
      ensures 60.0 * t.tokens <= Left(all, rate, i, t.last)
      ensures 60.0 * s.tokens == Left(vs, rate, i, s.last)
          && (v.here ==> 60.0 * (s.tokens + Earned(s.last, v.at, rate)) <= 60.0 * rate as real)
          ==> 60.0 * t.tokens == Left(all, rate, i, t.last)
    {
      LeftSnoc(vs, v, all, rate, i, t.last);
      LeftLater(vs, rate, i, s.last, v.at);
    }
    var k :| 0 <= k < |vs| && vs[k].here && 60.0 * s.tokens == Left(vs, rate, k, s.last);
    assert all[k].here;
    if v.here && 60.0 * (s.tokens + Earned(s.last, v.at, rate)) > 60.0 * rate as real {
      assert all[|vs|].here && 60.0 * t.tokens == Left(all, rate, |vs|, t.last);
    }
  }

  /** A look finds a token exactly if every stretch leaves one. */
  lemma RoomIff(vs: seq<Visit>, rate: nat, at: real)
    requires rate >= 1
    ensures Looks(BucketAfter(vs, rate), at, rate).tokens >= 1.0
            <==> forall i :: 0 <= i < |vs| && vs[i].here ==> Left(vs, rate, i, at) >= 60.0
  {
    hide Left, BucketAfter, Earned, Gain;
    BucketIsTightest(vs, rate);
    var b := BucketAfter(vs, rate);
    if b.Some? {
      var s := b.value;
      EarnedTimes60(s.last, at, rate);
      forall i | 0 <= i < |vs| && vs[i].here
        ensures Left(vs, rate, i, at) == Left(vs, rate, i, s.last) + Gain(at - s.last, rate)
      {
        LeftLater(vs, rate, i, s.last, at);
      }
    }
  }

  /** The state after calls. */
  function After(s: State, calls: seq<Call>, r: Rates, limit: Option<nat>): State {
    if calls == [] then s
    else
      var n := |calls| - 1;
      Next(After(s, calls[..n], r, limit), calls[n], r, limit)
  }

  lemma {:induction false} AfterFirst(s: State, calls: seq<Call>, r: Rates, limit: Option<nat>, n: nat)
    requires 0 < n <= |calls|
    ensures After(s, calls[..n], r, limit) == After(Next(s, calls[0], r, limit), calls[1..][..n - 1], r, limit)
  {
    hide Next;
    assert calls[..n][..n - 1] == calls[..n - 1];
    if n > 1 {
      AfterFirst(s, calls, r, limit, n - 1);
      assert calls[1..][..n - 1][..n - 2] == calls[1..][..n - 2];
    }
  }

  lemma {:induction false} AnswerAt(s: State, calls: seq<Call>, r: Rates, limit: Option<nat>, n: nat)
    requires n < |calls|
    ensures Answers(s, calls, r, limit)[n] == Allowed(After(s, calls[..n], r, limit), calls[n], r)
    decreases n
  {
    hide Next, Allowed;
    if n > 0 {
      AnswerAt(Next(s, calls[0], r, limit), calls[1..], r, limit, n - 1);
      AfterFirst(s, calls, r, limit, n);
    }
  }

  /** The looks at the bucket of one key, and at the global one. */
  function KeyVisits(calls: seq<Call>, answers: seq<bool>, key: string, n: nat): (vs: seq<Visit>)
    requires n <= |calls| && n <= |answers|
    ensures |vs| == n
    ensures forall i :: 0 <= i < n ==> vs[i] == Visit(calls[i].key == key, calls[i].t2, answers[i])
  {
    seq(n, i requires 0 <= i < n => Visit(calls[i].key == key, calls[i].t2, answers[i]))
  }

  function AllVisits(calls: seq<Call>, answers: seq<bool>, n: nat): (vs: seq<Visit>)
    requires n <= |calls| && n <= |answers|
    ensures |vs| == n && forall i :: 0 <= i < n ==> vs[i] == Visit(true, calls[i].t3, answers[i])
  {
    seq(n, i requires 0 <= i < n => Visit(true, calls[i].t3, answers[i]))
  }

  lemma {:induction false} KeySpent(calls: seq<Call>, answers: seq<bool>, key: string, i: nat, n: nat)
    requires i <= n <= |calls| && n <= |answers|
    ensures Spent(KeyVisits(calls, answers, key, n), i) == AllowedSince(calls, answers, key, i, n)
    decreases n
  {
    if i < n {
      KeySpent(calls, answers, key, i, n - 1);
      assert KeyVisits(calls, answers, key, n)[..n - 1] == KeyVisits(calls, answers, key, n - 1);
    }
  }

  lemma {:induction false} AllSpent(calls: seq<Call>, answers: seq<bool>, i: nat, n: nat)
    requires i <= n <= |calls| && n <= |answers|
    ensures Spent(AllVisits(calls, answers, n), i) == AllAllowedSince(answers, i, n)
    decreases n
  {
    if i < n {
      AllSpent(calls, answers, i, n - 1);
      assert AllVisits(calls, answers, n)[..n - 1] == AllVisits(calls, answers, n - 1);
    }
  }

  function Fresh(start: real, r: Rates): State {
    State(map[], Slot(start, r.perGlobal as real))
  }

  /** A limiter that never forgets keeps exactly these buckets. */
  ghost predicate KeepsBuckets(s: State, calls: seq<Call>, answers: seq<bool>, n: nat, start: real, r: Rates)
    requires n <= |calls| && n <= |answers|
  {
    && (forall key: string :: BucketAfter(KeyVisits(calls, answers, key, n), r.perKey)
          == if key in s.keys then Some(s.keys[key]) else None)
    && (if n == 0 then s.global == Slot(start, r.perGlobal as real)
        else BucketAfter(AllVisits(calls, answers, n), r.perGlobal) == Some(s.global))
  }

  lemma BucketStep(s: State, calls: seq<Call>, answers: seq<bool>, n: nat, start: real, r: Rates)
    requires n < |calls| && n < |answers| && KeepsBuckets(s, calls, answers, n, start, r)
    requires ValidCall(calls[n], start) && answers[n] == Allowed(s, calls[n], r)
    ensures Looks(BucketAfter(KeyVisits(calls, answers, calls[n].key, n), r.perKey), calls[n].t2, r.perKey)
         == Fill(SlotOf(s.keys, calls[n].key, calls[n].t1, r), calls[n].t2, r.perKey)
    ensures Looks(BucketAfter(AllVisits(calls, answers, n), r.perGlobal), calls[n].t3, r.perGlobal)
         == Fill(s.global, calls[n].t3, r.perGlobal)
    ensures KeepsBuckets(Next(s, calls[n], r, None), calls, answers, n + 1, start, r)
  {
    hide Fill, Allowed, BucketAfter, Spend, Clip, Earned;
    var c, t := calls[n], Next(s, calls[n], r, None);
    FreshIsFull(c.t1, c.t2, r.perKey);
    FreshIsFull(start, c.t3, r.perGlobal);
    AllVisitsStep(calls, answers, n, r.perGlobal);
    if n == 0 {
      NoVisits(calls, answers, r.perGlobal);
    }
    forall key: string
      ensures BucketAfter(KeyVisits(calls, answers, key, n + 1), r.perKey)
           == if key in t.keys then Some(t.keys[key]) else None
    {
      KeyVisitsStep(calls, answers, key, n, r.perKey);
    }
  }

  lemma NoVisits(calls: seq<Call>, answers: seq<bool>, rate: nat)
    ensures BucketAfter(AllVisits(calls, answers, 0), rate) == None
  {
  }

  lemma AllVisitsStep(calls: seq<Call>, answers: seq<bool>, n: nat, rate: nat)
    requires n < |calls| && n < |answers|
    ensures BucketAfter(AllVisits(calls, answers, n + 1), rate)
         == Some(Spend(Looks(BucketAfter(AllVisits(calls, answers, n), rate), calls[n].t3, rate), answers[n]))
  {
    assert AllVisits(calls, answers, n + 1)[..n] == AllVisits(calls, answers, n);
  }

  lemma KeyVisitsStep(calls: seq<Call>, answers: seq<bool>, key: string, n: nat, rate: nat)
    requires n < |calls| && n < |answers|
    ensures var b := BucketAfter(KeyVisits(calls, answers, key, n), rate);
            BucketAfter(KeyVisits(calls, answers, key, n + 1), rate)
            == if calls[n].key == key then Some(Spend(Looks(b, calls[n].t2, rate), answers[n])) else b
  {
    assert KeyVisits(calls, answers, key, n + 1)[..n] == KeyVisits(calls, answers, key, n);
  }

  lemma {:induction false} RunKeepsBuckets(calls: seq<Call>, answers: seq<bool>, n: nat, start: real, r: Rates)
    requires n <= |calls| && |answers| == |calls| && Chronological(calls, start)
    requires forall i :: 0 <= i < n ==> answers[i] == Allowed(After(Fresh(start, r), calls[..i], r, None), calls[i], r)
    ensures KeepsBuckets(After(Fresh(start, r), calls[..n], r, None), calls, answers, n, start, r)
  {
    hide KeepsBuckets, Allowed, Next, After, Chronological, ValidCall, Fresh;
    if n > 0 {
      var m := n - 1;
      var s := After(Fresh(start, r), calls[..m], r, None);
      RunKeepsBuckets(calls, answers, m, start, r);
      AfterLast(Fresh(start, r), calls, r, None, m, n);
      CallIsValid(calls, start, m);
      assert answers[m] == Allowed(s, calls[m], r);
      BucketStep(s, calls, answers, m, start, r);
    } else {
      NoCalls(calls, answers, start, r);
    }
  }

  lemma AfterLast(s: State, calls: seq<Call>, r: Rates, limit: Option<nat>, m: nat, n: nat)
    requires m < |calls| && n == m + 1
    ensures After(s, calls[..n], r, limit) == Next(After(s, calls[..m], r, limit), calls[m], r, limit)
  {
    assert calls[..n][..n - 1] == calls[..m];
  }

  lemma NoCalls(calls: seq<Call>, answers: seq<bool>, start: real, r: Rates)
    ensures KeepsBuckets(After(Fresh(start, r), calls[..0], r, None), calls, answers, 0, start, r)
  {
  }

  lemma {:induction false} CallIsValid(calls: seq<Call>, start: real, n: nat)
    requires n < |calls| && Chronological(calls, start)
    ensures ValidCall(calls[n], start)
    decreases n
  {
    if n > 0 {
      CallIsValid(calls[1..], calls[0].t3, n - 1);
    }
  }

  /** The limiter, forgetful table and all, refines sliding windows: under a clock
      that never runs backwards a call is allowed exactly if neither its key nor
      all keys together would be given, over any stretch that ends with it, more
      than a full allowance plus the allowance per minute for that stretch. */
  lemma SlidingWindows(calls: seq<Call>, r: Rates, start: real, n: nat)
    requires ValidRates(r) && Chronological(calls, start) && n < |calls|
    ensures var answers := Answers(State(map[], Slot(start, r.perGlobal as real)), calls, r, Some(4096));
            answers[n] <==> KeyHasRoom(calls, answers, r.perKey, n) && AllHaveRoom(calls, answers, r.perGlobal, n)
  {
    hide Answers, Allowed, Next, Chronological;
    var answers := Answers(Fresh(start, r), calls, r, None);
    EvictionIsInvisible(calls, r, start);
    forall i | 0 <= i < |calls|
      ensures answers[i] == Allowed(After(Fresh(start, r), calls[..i], r, None), calls[i], r)
    {
      AnswerAt(Fresh(start, r), calls, r, None, i);
    }
    RunKeepsBuckets(calls, answers, n, start, r);
    CallIsValid(calls, start, n);
    RoomOfCall(After(Fresh(start, r), calls[..n], r, None), calls, answers, n, start, r);
  }

  lemma RoomOfCall(s: State, calls: seq<Call>, answers: seq<bool>, n: nat, start: real, r: Rates)
    requires n < |calls| && n < |answers| && KeepsBuckets(s, calls, answers, n, start, r) && ValidRates(r)
    requires ValidCall(calls[n], start) && answers[n] == Allowed(s, calls[n], r)
    ensures answers[n] <==> KeyHasRoom(calls, answers, r.perKey, n) && AllHaveRoom(calls, answers, r.perGlobal, n)
  {
    hide KeepsBuckets, BucketAfter, Looks, Fill, Next, Left, Within, AllowedSince, AllAllowedSince;
    var c := calls[n];
    BucketStep(s, calls, answers, n, start, r);
    var own, all := KeyVisits(calls, answers, c.key, n), AllVisits(calls, answers, n);
    RoomIff(own, r.perKey, c.t2);
    RoomIff(all, r.perGlobal, c.t3);
    forall i | 0 <= i < n
      ensures Left(own, r.perKey, i, c.t2) >= 60.0
              <==> Within(AllowedSince(calls, answers, c.key, i, n), r.perKey, c.t2 - calls[i].t2)
      ensures Left(all, r.perGlobal, i, c.t3) >= 60.0
              <==> Within(AllAllowedSince(answers, i, n), r.perGlobal, c.t3 - calls[i].t3)
    {
      KeySpent(calls, answers, c.key, i, n);
      AllSpent(calls, answers, i, n);
      LeavesOne(own, r.perKey, i, c.t2);
      LeavesOne(all, r.perGlobal, i, c.t3);
    }
  }

  lemma LeavesOne(vs: seq<Visit>, rate: nat, i: nat, at: real)
    requires i < |vs|
    ensures Left(vs, rate, i, at) >= 60.0 <==> Within(Spent(vs, i), rate, at - vs[i].at)
  {
  }

  /** Nobody is denied early: when a call is denied although all keys together
      have room, its key was allowed, over some stretch up to it, more than its
      full allowance plus the allowance for that time, less one call. */
  lemma DenialIsEarned(calls: seq<Call>, r: Rates, start: real, n: nat) returns (i: nat)
    requires ValidRates(r) && Chronological(calls, start) && n < |calls|
    requires var answers := Answers(State(map[], Slot(start, r.perGlobal as real)), calls, r, Some(4096));
      !answers[n] && AllHaveRoom(calls, answers, r.perGlobal, n)
    ensures i < n && calls[i].key == calls[n].key
    ensures var answers := Answers(State(map[], Slot(start, r.perGlobal as real)), calls, r, Some(4096));
      60.0 * (AllowedSince(calls, answers, calls[n].key, i, n) as real + 1.0)
      > 60.0 * r.perKey as real + (calls[n].t2 - calls[i].t2) * r.perKey as real
  {
    hide Answers, AllowedSince, Within, Chronological, AllHaveRoom;
    SlidingWindows(calls, r, start, n);
    var answers := Answers(State(map[], Slot(start, r.perGlobal as real)), calls, r, Some(4096));
    assert !KeyHasRoom(calls, answers, r.perKey, n);
    i :| 0 <= i < n && calls[i].key == calls[n].key
      && !Within(AllowedSince(calls, answers, calls[n].key, i, n), r.perKey, calls[n].t2 - calls[i].t2);
    NotWithin(AllowedSince(calls, answers, calls[n].key, i, n), r.perKey, calls[n].t2 - calls[i].t2);
  }

  lemma NotWithin(count: nat, perMinute: nat, seconds: real)
    requires !Within(count, perMinute, seconds)
    ensures 60.0 * (count as real + 1.0) > 60.0 * perMinute as real + seconds * perMinute as real
  {
  }
}
