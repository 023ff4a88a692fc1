/** Per-engine failure isolation (CircuitBreaker in engines/base.py). */
module CircuitBreakers {
  import opened Prelude

  datatype State = State(errors: nat, bypassedUntil: real, trips: nat, disables: nat)

  datatype Event = Failure(at: real) | Success

  const INITIAL := State(0, 0.0, 0, 0)

  function Next(s: State, e: Event, maxErrors: nat, cooldown: real): State {
    match e
    case Success => s.(errors := 0)
    case Failure(at) =>
      if s.errors + 1 >= maxErrors then
        State(0, at + cooldown, s.trips + 1, s.disables + 1)
      else
        s.(errors := s.errors + 1, trips := s.trips + 1)
  }

  class CircuitBreaker {
    const maxErrors: nat
    const cooldown: real
    var errors: nat
    var bypassedUntil: real
    var trips: nat
    var disables: nat

    constructor (maxErrors: int, cooldown: real)
      ensures Current() == INITIAL
      ensures this.maxErrors == if maxErrors >= 1 then maxErrors else 1
      ensures this.cooldown == if cooldown >= 0.0 then cooldown else 0.0
    {
      this.maxErrors := if maxErrors >= 1 then maxErrors else 1;
      this.cooldown := if cooldown >= 0.0 then cooldown else 0.0;
      errors, bypassedUntil, trips, disables := 0, 0.0, 0, 0;
    }

    function Current(): State
      reads this
    {
      State(errors, bypassedUntil, trips, disables)
    }

    method OnError(now: real)
      modifies this
      ensures Current() == Next(old(Current()), Failure(now), maxErrors, cooldown)
    {
      errors := errors + 1;
      trips := trips + 1;
      if errors >= maxErrors {
        bypassedUntil := now + cooldown;
        disables := disables + 1;
        errors := 0;
      }
    }

    method OnSuccess()
      modifies this
      ensures Current() == Next(old(Current()), Success, maxErrors, cooldown)
    {
      errors := 0;
    }

    predicate Open(now: real)
      reads this
    {
      now < bypassedUntil
    }
  }

  // ----- whole histories -----

  function Run(history: seq<Event>, maxErrors: nat, cooldown: real): State {
    if history == [] then INITIAL
    else Next(Run(history[..|history| - 1], maxErrors, cooldown), history[|history| - 1], maxErrors, cooldown)
  }

  /** Length of the failure streak at the end of a history. */
  function Streak(history: seq<Event>): nat {
    if history == [] || history[|history| - 1].Success? then 0
    else 1 + Streak(history[..|history| - 1])
  }

  function Failures(history: seq<Event>): nat {
    if history == [] then 0
    else Failures(history[..|history| - 1]) + (if history[|history| - 1].Failure? then 1 else 0)
  }

  /** Event i completes a block of maxErrors failures without a success between. */
  predicate Disabling(history: seq<Event>, i: nat, maxErrors: nat)
    requires i < |history| && maxErrors > 0
  {
    history[i].Failure? && Streak(history[..i + 1]) % maxErrors == 0
  }

  ghost predicate Chronological(history: seq<Event>) {
    forall i, j :: 0 <= i < j < |history| && history[i].Failure? && history[j].Failure?
      ==> history[i].at <= history[j].at
  }

  /** The error counter is the current streak modulo the threshold, and every
      failure is counted as a trip. */
  lemma {:induction false} CountersAreExact(history: seq<Event>, maxErrors: nat, cooldown: real)
    requires maxErrors > 0
    ensures var s := Run(history, maxErrors, cooldown);
            s.errors == Streak(history) % maxErrors && s.trips == Failures(history)
  {
    if history != [] {
      var before := history[..|history| - 1];
      CountersAreExact(before, maxErrors, cooldown);
      var streak := Streak(before);
      StreakStep(streak, streak + 1, maxErrors);
    }
  }

  /** Every disable cost maxErrors trips of its own. */
  lemma {:induction false} DisablesAreEarned(history: seq<Event>, maxErrors: nat, cooldown: real)
    requires maxErrors > 0
    ensures var s := Run(history, maxErrors, cooldown);
            s.disables * maxErrors + s.errors <= s.trips && s.errors < maxErrors
  {
    if history != [] {
      DisablesAreEarned(history[..|history| - 1], maxErrors, cooldown);
    }
  }

  lemma StreakStep(streak: nat, next: nat, m: nat)
    requires m > 0 && next == streak + 1
    ensures next % m == if streak % m + 1 >= m then 0 else streak % m + 1
  {
    var q := streak / m;
    assert streak == q * m + streak % m;
    if streak % m + 1 >= m {
      assert next == (q + 1) * m;
      ModOf(q + 1, 0, m);
    } else {
      ModOf(q, streak % m + 1, m);
    }
  }

  /** An engine is bypassed at a moment exactly when some disabling failure of
      its history lies less than one cooldown back. */
  lemma {:induction false} OpenIff(history: seq<Event>, maxErrors: nat, cooldown: real, now: real)
    requires maxErrors > 0 && cooldown >= 0.0 && now >= 0.0 && Chronological(history)
    ensures now < Run(history, maxErrors, cooldown).bypassedUntil
       <==> exists i: nat :: i < |history| && Disabling(history, i, maxErrors) && now < history[i].at + cooldown
  {
    if history != [] {
      var n := |history| - 1;
      var before := history[..n];
      OpenIff(before, maxErrors, cooldown, now);
      CountersAreExact(before, maxErrors, cooldown);
      var streak := Streak(before);
      StreakStep(streak, streak + 1, maxErrors);
      assert history[..n + 1] == history;
      assert forall i: nat {:trigger history[..i + 1]} :: i < n ==> history[..i + 1] == before[..i + 1];
      if Disabling(history, n, maxErrors) {
        forall i: nat | i < n && Disabling(history, i, maxErrors)
          ensures history[i].at <= history[n].at
        {
        }
      } else if now < Run(before, maxErrors, cooldown).bypassedUntil {
        var i: nat :| i < n && Disabling(before, i, maxErrors) && now < before[i].at + cooldown;
        assert Disabling(history, i, maxErrors);
      } else {
        forall i: nat | i < |history| && Disabling(history, i, maxErrors)
          ensures !(now < history[i].at + cooldown)
        {
          assert Disabling(before, i, maxErrors);
        }
      }
    }
  }
}
