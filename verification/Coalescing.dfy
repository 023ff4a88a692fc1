/** Packet coalescing (engines/engines/coalescing.py): small downlink frames are
    merged greedily up to a maximum size. */
module Coalescing {
  import opened Prelude
  import opened EngineContexts

  /** Frames emitted for the rest of a batch when current is already collected. */
  function Merge(frames: seq<bytes>, current: bytes, maxSize: int): seq<bytes>
    decreases |frames|
  {
    if frames == [] then
      if current == [] then [] else [current]
    else if current != [] && |current| + |frames[0]| > maxSize then
      [current] + Merge(frames[1..], frames[0], maxSize)
    else
      Merge(frames[1..], current + frames[0], maxSize)
  }

  function Processed(direction: Direction, frames: seq<bytes>, maxSize: int): seq<bytes> {
    if direction != Down || |frames| <= 1 then frames else Merge(frames, [], maxSize)
  }

  /** CoalescingEngine.process: the length check at the end never fires. */
  method Process(ctx: EngineContext, maxSize: int)
    modifies ctx
    ensures ctx.frames == Processed(ctx.direction, old(ctx.frames), maxSize)
  {
    if ctx.direction != Down || |ctx.frames| <= 1 {
      return;
    }
    var frames := ctx.frames;
    var total := TotalLength(frames);
    var merged := MergeFrames(frames, maxSize);
    MergeKeepsStream(frames, [], maxSize);
    var mergedTotal := TotalLength(merged);
    if mergedTotal != total {
      assert false;
    }
    ctx.frames := merged;
  }

  /** The loop over the frames. */
  method MergeFrames(frames: seq<bytes>, maxSize: int) returns (merged: seq<bytes>)
    ensures merged == Merge(frames, [], maxSize)
  {
    hide Merge;
    merged := [];
    var current: bytes := [];
    var i := 0;
    assert frames[0..] == frames && [] + Merge(frames, [], maxSize) == Merge(frames, [], maxSize);
    while i < |frames|
      invariant 0 <= i <= |frames|
      invariant merged + Merge(frames[i..], current, maxSize) == Merge(frames, [], maxSize)
    {
      MergeStep(frames, i, current, maxSize);
      if current != [] && |current| + |frames[i]| > maxSize {
        assert merged + ([current] + Merge(frames[i + 1..], frames[i], maxSize))
            == merged + [current] + Merge(frames[i + 1..], frames[i], maxSize);
        merged := merged + [current];
        current := [];
        assert current + frames[i] == frames[i];
      }
      current := current + frames[i];
      i := i + 1;
    }
    MergeEnd(frames[i..], current, maxSize);
    if current != [] {
      merged := merged + [current];
    }
  }

  lemma MergeStep(frames: seq<bytes>, i: nat, current: bytes, maxSize: int)
    requires i < |frames|
    ensures Merge(frames[i..], current, maxSize)
         == if current != [] && |current| + |frames[i]| > maxSize
            then [current] + Merge(frames[i + 1..], frames[i], maxSize)
            else Merge(frames[i + 1..], current + frames[i], maxSize)
  {
    assert frames[i..][0] == frames[i] && frames[i..][1..] == frames[i + 1..];
  }

  lemma MergeEnd(none: seq<bytes>, current: bytes, maxSize: int)
    requires none == []
    ensures Merge(none, current, maxSize) == if current == [] then [] else [current]
  {
  }

  method TotalLength(frames: seq<bytes>) returns (total: nat)
    ensures total == |Join(frames)|
  {
    total := 0;
    var i := 0;
    while i < |frames|
      invariant 0 <= i <= |frames|
      invariant total == |Join(frames[..i])|
    {
      assert frames[..i + 1] == frames[..i] + [frames[i]];
      JoinSnoc(frames[..i], frames[i]);
      total := total + |frames[i]|;
      i := i + 1;
    }
    assert frames[..i] == frames;
  }

  // ----- the byte stream is preserved -----

  lemma {:induction false} MergeKeepsStream(frames: seq<bytes>, current: bytes, maxSize: int)
    ensures Join(Merge(frames, current, maxSize)) == current + Join(frames)
    decreases |frames|
  {
    if frames == [] {
      assert Join([current]) == current;
    } else if current != [] && |current| + |frames[0]| > maxSize {
      MergeKeepsStream(frames[1..], frames[0], maxSize);
      var rest := Merge(frames[1..], frames[0], maxSize);
      assert ([current] + rest)[1..] == rest;
      assert Join([current] + rest) == current + Join(rest);
    } else {
      var more := current + frames[0];
      MergeKeepsStream(frames[1..], more, maxSize);
      assert more + Join(frames[1..]) == current + (frames[0] + Join(frames[1..]));
    }
  }

  lemma ProcessedKeepsStream(direction: Direction, frames: seq<bytes>, maxSize: int)
    ensures Join(Processed(direction, frames, maxSize)) == Join(frames)
  {
    MergeKeepsStream(frames, [], maxSize);
  }

  // ----- the size ceiling -----

  /** A merged frame is never empty, and exceeds the ceiling only when it is one
      oversized input frame passed through alone. */
  lemma {:induction false} MergeRespectsCeiling(frames: seq<bytes>, current: bytes, maxSize: int, all: seq<bytes>)
    requires forall f :: f in frames ==> f in all
    requires |current| <= maxSize || current == [] || current in all
    ensures forall o :: o in Merge(frames, current, maxSize) ==> o != [] && (|o| <= maxSize || o in all)
    decreases |frames|
  {
    if frames != [] {
      if current != [] && |current| + |frames[0]| > maxSize {
        MergeRespectsCeiling(frames[1..], frames[0], maxSize, all);
      } else {
        assert current == [] ==> current + frames[0] == frames[0];
        MergeRespectsCeiling(frames[1..], current + frames[0], maxSize, all);
      }
    }
  }

  // ----- greedy merging is optimal -----

  /** A fuller collector never yields fewer frames, and at most one frame can be
      saved by starting from another collector. */
  lemma {:induction false} MergeCounts(frames: seq<bytes>, a: bytes, b: bytes, maxSize: int)
    ensures |Merge(frames, a, maxSize)| <= 1 + |Merge(frames, b, maxSize)|
    ensures |a| <= |b| ==> |Merge(frames, a, maxSize)| <= |Merge(frames, b, maxSize)|
    decreases |frames|
  {
    if frames != [] {
      var f, rest := frames[0], frames[1..];
      MergeCounts(rest, a + f, b + f, maxSize);
      MergeCounts(rest, a + f, f, maxSize);
      MergeCounts(rest, f, b + f, maxSize);
    }
  }

  /** A group that fits is absorbed whole. */
  lemma {:induction false} MergeAbsorbs(group: seq<bytes>, rest: seq<bytes>, current: bytes, maxSize: int)
    requires |current| + |Join(group)| <= maxSize
    ensures Merge(group + rest, current, maxSize) == Merge(rest, current + Join(group), maxSize)
    decreases |group|
  {
    if group == [] {
      assert group + rest == rest && current + Join(group) == current;
    } else {
      assert (group + rest)[0] == group[0] && (group + rest)[1..] == group[1..] + rest;
      MergeAbsorbs(group[1..], rest, current + group[0], maxSize);
      assert current + group[0] + Join(group[1..]) == current + Join(group);
    }
  }

  /** No way of cutting the batch into contiguous groups that each fit under the
      ceiling sends fewer frames than the greedy merge. */
  lemma {:induction false} GreedyIsOptimal(groups: seq<seq<bytes>>, maxSize: int)
    requires forall i :: 0 <= i < |groups| ==> |Join(groups[i])| <= maxSize
    ensures |Merge(Join(groups), [], maxSize)| <= |groups|
    decreases |groups|
  {
    if groups != [] {
      var rest := Join(groups[1..]);
      MergeAbsorbs(groups[0], rest, [], maxSize);
      assert [] + Join(groups[0]) == Join(groups[0]);
      MergeCounts(rest, Join(groups[0]), [], maxSize);
      GreedyIsOptimal(groups[1..], maxSize);
    }
  }

  // ----- what merging does -----

  /** Neighbours in what is sent would not fit together under the ceiling. */
  ghost predicate Packed(out: seq<bytes>, maxSize: int) {
    forall i :: 0 <= i < |out| - 1 ==> |out[i]| + |out[i + 1]| > maxSize
  }

  /** The first frame sent starts with what was collected. */
  lemma {:induction false} MergeStarts(frames: seq<bytes>, current: bytes, maxSize: int)
    ensures current != [] ==> Merge(frames, current, maxSize) != [] && current <= Merge(frames, current, maxSize)[0]
    decreases |frames|
  {
    if frames != [] && !(current != [] && |current| + |frames[0]| > maxSize) {
      MergeStarts(frames[1..], current + frames[0], maxSize);
    }
  }

  lemma {:induction false} MergePacks(frames: seq<bytes>, current: bytes, maxSize: int)
    requires forall i :: 0 <= i < |frames| ==> frames[i] != []
    ensures Packed(Merge(frames, current, maxSize), maxSize)
    decreases |frames|
  {
    if frames != [] {
      if current != [] && |current| + |frames[0]| > maxSize {
        MergePacks(frames[1..], frames[0], maxSize);
        MergeStarts(frames[1..], frames[0], maxSize);
      } else {
        MergePacks(frames[1..], current + frames[0], maxSize);
      }
    }
  }

  /** Frames are merged, never split: what is sent are contiguous groups of whole
      frames of the batch, behind those taken already. */
  lemma {:induction false} MergeGroups(frames: seq<bytes>, taken: seq<bytes>, maxSize: int)
      returns (groups: seq<seq<bytes>>)
    requires (forall i :: 0 <= i < |frames| ==> frames[i] != []) && (forall i :: 0 <= i < |taken| ==> taken[i] != [])
    ensures Join(groups) == taken + frames
    ensures var out := Merge(frames, Join(taken), maxSize);
      |groups| == |out| && forall i :: 0 <= i < |out| ==> out[i] == Join(groups[i])
    decreases |frames|
  {
    var current := Join(taken);
    assert taken != [] ==> |current| >= |taken[0]|;
    if frames == [] {
      groups := if taken == [] then [] else [taken];
      OneGroup(taken);
      assert taken + frames == taken;
    } else if current != [] && |current| + |frames[0]| > maxSize {
      OneFrameGroup(frames[0]);
      var rest := MergeGroups(frames[1..], [frames[0]], maxSize);
      groups := [taken] + rest;
      assert groups[1..] == rest && [frames[0]] + frames[1..] == frames;
    } else {
      JoinSnoc(taken, frames[0]);
      groups := MergeGroups(frames[1..], taken + [frames[0]], maxSize);
      assert taken + [frames[0]] + frames[1..] == taken + frames;
    }
  }

  lemma OneGroup(taken: seq<bytes>)
    ensures Join([taken]) == taken
  {
    assert [taken][1..] == [];
  }

  lemma OneFrameGroup(frame: bytes)
    ensures Join([frame]) == frame
  {
    assert [frame][1..] == [];
  }

  /** What coalescing does to a batch: uplink batches and single frames pass, and a
      downlink batch leaves as contiguous groups of whole frames, so full that no two
      neighbours would fit together. */
  lemma CoalescingPacks(direction: Direction, frames: seq<bytes>, maxSize: int) returns (groups: seq<seq<bytes>>)
    requires forall i :: 0 <= i < |frames| ==> frames[i] != []
    ensures direction == Up || |frames| <= 1 ==> Processed(direction, frames, maxSize) == frames
    ensures direction == Down && |frames| > 1 ==> Packed(Processed(direction, frames, maxSize), maxSize)
    ensures direction == Down && |frames| > 1 ==>
      var out := Processed(direction, frames, maxSize);
      Join(groups) == frames && |groups| == |out| && forall i :: 0 <= i < |out| ==> out[i] == Join(groups[i])
  {
    MergePacks(frames, [], maxSize);
    groups := MergeGroups(frames, [], maxSize);
    assert [] + frames == frames;
  }
}
