/** The shared schedule of engines/chaos/chaos_protocol.py: which frame shape is
    on the wire in each tick, and when it next changes.  The seed-derived raw
    index of a bucket is an arbitrary function. */
module ChaosSchedule {

  const FRAMES := 4
  const MAX_RUN := 3

  type Index = i: nat | i < FRAMES

  /** Raw index of every bucket, the first seed byte modulo the frame count. */
  type Raw = int -> Index

  /** The anti-stall rule fires in the third of three equal raw buckets. */
  predicate Forced(raw: Raw, bucket: int) {
    raw(bucket) == raw(bucket - 1) == raw(bucket - 2)
  }

  /** Frame shown in a bucket. */
  function FrameIndex(raw: Raw, bucket: int): Index {
    if Forced(raw, bucket) then (raw(bucket) + 1 + bucket) % FRAMES else raw(bucket)
  }

  /** The shape shown is the raw one, except in the third of three equal buckets,
      where it moves on by one and the bucket number. */
  lemma FrameShown(raw: Raw, b: int)
    ensures raw(b) != raw(b - 1) || raw(b) != raw(b - 2) ==> FrameIndex(raw, b) == raw(b)
    ensures raw(b) == raw(b - 1) == raw(b - 2) ==>
      FrameIndex(raw, b) == (raw(b) + 1 + b) % 4 && (FrameIndex(raw, b) == raw(b) <==> b % 4 == 3)
  {
  }

  /** The shape is the same in all buckets from..from+len-1. */
  predicate Holds(raw: Raw, from: int, len: nat) {
    forall k :: from <= k < from + len ==> FrameIndex(raw, k) == FrameIndex(raw, from)
  }

  // ----- how long a shape can persist -----

  /** Two forced buckets in a row never show the same frame. */
  lemma ConsecutiveForcedDiffer(raw: Raw, b: int)
    requires Forced(raw, b) && Forced(raw, b + 1)
    ensures FrameIndex(raw, b) != FrameIndex(raw, b + 1)
  {
    assert raw(b + 1) == raw(b);
    assert (raw(b) + 1 + b) % 4 != (raw(b) + 1 + (b + 1)) % 4;
  }

  /** The middle two of four equal buckets are both unforced. */
  lemma InteriorUnforced(raw: Raw, b: int)
    requires Holds(raw, b, 4)
    ensures !Forced(raw, b + 1) && !Forced(raw, b + 2)
  {
    assert FrameIndex(raw, b + 1) == FrameIndex(raw, b);
    assert FrameIndex(raw, b + 2) == FrameIndex(raw, b);
    assert FrameIndex(raw, b + 3) == FrameIndex(raw, b);
    if Forced(raw, b + 1) {
      ForcedNotFollowed(raw, b);
    }
    if Forced(raw, b + 2) {
      ForcedNotFollowed(raw, b + 1);
    }
  }

  /** A forced bucket that shows what the bucket before it shows ends the hold. */
  lemma ForcedNotFollowed(raw: Raw, b: int)
    requires Forced(raw, b + 1)
    requires FrameIndex(raw, b) == FrameIndex(raw, b + 1)
    ensures FrameIndex(raw, b + 2) != FrameIndex(raw, b + 1)
  {
    if Forced(raw, b) {
      ConsecutiveForcedDiffer(raw, b);
    }
    if Forced(raw, b + 2) {
      ConsecutiveForcedDiffer(raw, b + 1);
    }
    // otherwise raw(b + 2) is the shown frame, which raw(b) and raw(b + 1) also
    // are, and b + 2 would have been forced
  }

  /** The raw pattern behind a hold of four ticks: a run of three at a bucket
      divisible by four, then a run of three of the next index. */
  predicate SlowPattern(raw: Raw, b: int) {
    && b % 4 == 0
    && raw(b - 2) == raw(b - 1) == raw(b)
    && raw(b + 1) == raw(b + 2) == raw(b + 3) == (raw(b) + 1) % 4
  }

  /** The documented bound of three ticks is false, and this is exactly when:
      a shape is held for four ticks iff the raw indices form the pattern. */
  lemma HoldOfFourIff(raw: Raw, b: int)
    ensures Holds(raw, b, 4) <==> SlowPattern(raw, b)
  {
    if Holds(raw, b, 4) {
      InteriorUnforced(raw, b);
      assert FrameIndex(raw, b + 1) == FrameIndex(raw, b);
      assert FrameIndex(raw, b + 2) == FrameIndex(raw, b);
      assert FrameIndex(raw, b + 3) == FrameIndex(raw, b);
      var f := FrameIndex(raw, b);
      assert raw(b + 1) == f && raw(b + 2) == f;
      assert Forced(raw, b);
      EndsOfSlowHold(raw, b);
    }
    if SlowPattern(raw, b) {
      var f := (raw(b) + 1) % 4;
      assert f != raw(b);
      assert Forced(raw, b) && FrameIndex(raw, b) == f;
      assert FrameIndex(raw, b + 1) == f && FrameIndex(raw, b + 2) == f;
      assert Forced(raw, b + 3) && FrameIndex(raw, b + 3) == f;
    }
  }

  lemma EndsOfSlowHold(raw: Raw, b: int)
    requires Forced(raw, b) && !Forced(raw, b + 1) && !Forced(raw, b + 2)
    requires raw(b + 1) == raw(b + 2) == FrameIndex(raw, b) == FrameIndex(raw, b + 3)
    ensures SlowPattern(raw, b)
  {
    var f := FrameIndex(raw, b);
    assert raw(b + 3) == f;
    assert Forced(raw, b + 3);
    assert (f + 1 + (b + 3)) % 4 == f;
    assert b % 4 == 0;
  }

  /** No shape survives five consecutive ticks. */
  lemma NoHoldOfFive(raw: Raw, b: int)
    ensures !Holds(raw, b, 5)
  {
    if Holds(raw, b, 5) {
      assert Holds(raw, b, 4);
      assert FrameIndex(raw, b + 1) == FrameIndex(raw, b);
      assert Holds(raw, b + 1, 4) by {
        forall k | b + 1 <= k < b + 5
          ensures FrameIndex(raw, k) == FrameIndex(raw, b + 1)
        {
          assert FrameIndex(raw, k) == FrameIndex(raw, b);
        }
      }
      HoldOfFourIff(raw, b);
      HoldOfFourIff(raw, b + 1);
      assert false;
    }
  }

  /** Four ticks are reached: raw indices 0,0,0,1,1,1 at buckets 2..7. */
  lemma HoldOfFourExists() returns (raw: Raw)
    ensures raw(2) == raw(3) == raw(4) == 0 && raw(5) == raw(6) == raw(7) == 1
    ensures Holds(raw, 4, 4)
  {
    raw := (b: int) => if b <= 4 then 0 else 1;
    HoldOfFourIff(raw, 4);
  }

  // ----- window_at -----

  datatype Window = Window(bucket: int, tick: nat, frameIndex: Index, startedAt: int, switchAt: int)

  /** s is the first number of ticks after which another frame is shown. */
  predicate FirstChange(raw: Raw, bucket: int, s: nat) {
    && s > 0
    && FrameIndex(raw, bucket + s) != FrameIndex(raw, bucket)
    && Holds(raw, bucket, s)
  }

  /** Ticks until the loop of window_at stops, resumed at step. */
  function StepFrom(raw: Raw, bucket: int, step: nat): nat
    decreases MAX_RUN + 1 - step
  {
    if step <= MAX_RUN && FrameIndex(raw, bucket + step) == FrameIndex(raw, bucket)
    then StepFrom(raw, bucket, step + 1) else step
  }

  function WindowAt(raw: Raw, tickMs: int, nowMs: int): Window {
    var tick := if tickMs > 100 then tickMs else 100;
    var bucket := nowMs / tick;
    Window(bucket, tick, FrameIndex(raw, bucket), bucket * tick, (bucket + StepFrom(raw, bucket, 1)) * tick)
  }

  method ComputeWindow(raw: Raw, tickMs: int, nowMs: int) returns (w: Window)
    ensures w == WindowAt(raw, tickMs, nowMs)
  {
    var tick := if tickMs > 100 then tickMs else 100;
    var bucket := nowMs / tick;
    var frameIndex := FrameIndex(raw, bucket);
    var step := 1;
    while step <= MAX_RUN && FrameIndex(raw, bucket + step) == frameIndex
      invariant 1 <= step <= MAX_RUN + 1
      invariant StepFrom(raw, bucket, step) == StepFrom(raw, bucket, 1)
    {
      step := step + 1;
    }
    w := Window(bucket, tick, frameIndex, bucket * tick, (bucket + step) * tick);
  }

  /** The loop gives up after MAX_RUN looks, yet always lands on the first change. */
  lemma StepIsFirstChange(raw: Raw, bucket: int)
    ensures FirstChange(raw, bucket, StepFrom(raw, bucket, 1))
    ensures StepFrom(raw, bucket, 1) <= 4
  {
    var s := StepFrom(raw, bucket, 1);
    StepHolds(raw, bucket, 1);
    if s == 4 && FrameIndex(raw, bucket + 4) == FrameIndex(raw, bucket) {
      assert Holds(raw, bucket, 5);
      NoHoldOfFive(raw, bucket);
    }
  }

  lemma {:induction false} StepHolds(raw: Raw, bucket: int, step: nat)
    requires 1 <= step <= MAX_RUN + 1 && Holds(raw, bucket, step)
    ensures var s := StepFrom(raw, bucket, step);
            step <= s <= MAX_RUN + 1 && Holds(raw, bucket, s)
            && (s <= MAX_RUN ==> FrameIndex(raw, bucket + s) != FrameIndex(raw, bucket))
    decreases MAX_RUN + 1 - step
  {
    if step <= MAX_RUN && FrameIndex(raw, bucket + step) == FrameIndex(raw, bucket) {
      StepHolds(raw, bucket, step + 1);
    }
  }

  /** What a caller gets from window_at: the window contains the moment asked
      for, and switchAt is the first later tick boundary with another frame. */
  lemma WindowIsExact(raw: Raw, tickMs: int, nowMs: int)
    ensures var w := WindowAt(raw, tickMs, nowMs);
            && w.tick == (if tickMs >= 100 then tickMs else 100) && w.startedAt == w.bucket * w.tick
            && w.frameIndex == FrameIndex(raw, w.bucket)
            && w.startedAt <= nowMs < w.startedAt + w.tick
            && nowMs < w.switchAt <= w.startedAt + 4 * w.tick
            && (exists s: nat :: FirstChange(raw, w.bucket, s) && w.switchAt == (w.bucket + s) * w.tick)
  {
    var w := WindowAt(raw, tickMs, nowMs);
    var s := StepFrom(raw, w.bucket, 1);
    StepIsFirstChange(raw, w.bucket);
    assert FirstChange(raw, w.bucket, s);
    TickBounds(nowMs, w.tick, w.bucket, s);
  }

  lemma TickBounds(now: int, tick: nat, bucket: int, s: nat)
    requires tick > 0 && bucket == now / tick && 1 <= s <= 4
    ensures bucket * tick <= now < bucket * tick + tick
    ensures now < (bucket + s) * tick <= bucket * tick + 4 * tick
  {
    assert now == bucket * tick + now % tick;
    assert (bucket + s) * tick == bucket * tick + s * tick;
    assert s == 1 || s == 2 || s == 3 || s == 4;
  }

  /** The switch lies more than MAX_RUN ticks out exactly for the slow pattern. */
  lemma PromisedBoundIff(raw: Raw, bucket: int)
    ensures StepFrom(raw, bucket, 1) <= 3 <==> !SlowPattern(raw, bucket)
  {
    StepIsFirstChange(raw, bucket);
    HoldOfFourIff(raw, bucket);
  }
}
