/** Frame shaping of engines/engines/morphing.py: the joined downlink stream is
    cut again into the size pattern, or the chunk size, of a profile. */
module Morphing {
  import opened Prelude
  import opened EngineContexts

  /** The parts of a profile that decide the cuts; sizes are positive after
      normalisation (engines/profiles.py). */
  datatype Profile = Profile(chunk: int, sizes: seq<int>)

  ghost predicate ValidProfile(p: Profile) {
    forall i :: 0 <= i < |p.sizes| ==> p.sizes[i] > 0
  }

  /** The size asked for frame `count` of the repeating pattern. */
  function SizeAt(sizes: seq<int>, count: nat): (size: nat)
    requires sizes != [] && forall i :: 0 <= i < |sizes| ==> sizes[i] > 0
    ensures size > 0
  {
    sizes[count % |sizes|]
  }

  /** Sizes asked for, one per frame, repeating the pattern from position count. */
  function Cut(stream: bytes, sizes: seq<int>, count: nat): seq<bytes>
    requires sizes != [] && forall i :: 0 <= i < |sizes| ==> sizes[i] > 0
    decreases |stream|
  {
    if stream == [] then []
    else
      var size := SizeAt(sizes, count);
      if |stream| <= size then [stream]
      else [stream[..size]] + Cut(stream[size..], sizes, count + 1)
  }

  function Shaped(direction: Direction, frames: seq<bytes>, p: Profile): seq<bytes>
    requires ValidProfile(p)
  {
    if direction != Down || frames == [] then frames
    else if Join(frames) == [] then []
    else if p.sizes != [] then Cut(Join(frames), p.sizes, 0)
    else if p.chunk <= 0 then [Join(frames)]
    else Cut(Join(frames), [p.chunk], 0)
  }

  /** MorphingEngine.process for frame batches, given the chosen profile. */
  method Process(ctx: EngineContext, p: Profile)
    requires ValidProfile(p)
    modifies ctx
    ensures ctx.frames == Shaped(ctx.direction, old(ctx.frames), p)
  {
    if ctx.direction != Down || ctx.frames == [] {
      return;
    }
    var stream := Join(ctx.frames);
    if stream == [] {
      ctx.frames := [];
      return;
    }
    if p.chunk <= 0 && p.sizes == [] {
      ctx.frames := [stream];
      return;
    }
    if p.sizes != [] {
      ctx.frames := CutByPattern(stream, p.sizes);
    } else {
      ctx.frames := CutByChunk(stream, p.chunk);
    }
  }

  /** The loop over a size pattern. */
  method CutByPattern(stream: bytes, sizes: seq<int>) returns (out: seq<bytes>)
    requires sizes != [] && forall i :: 0 <= i < |sizes| ==> sizes[i] > 0
    ensures out == Cut(stream, sizes, 0)
  {
    out := [];
    var pos, count := 0, 0;
    while pos < |stream|
      invariant 0 <= pos && 0 <= count
      invariant out + Cut(stream[Min(pos, |stream|)..], sizes, count) == Cut(stream, sizes, 0)
      decreases |stream| - pos
    {
      hide Cut, SizeAt;
      PatternSize(sizes, count);
      var size := sizes[count % |sizes|];
      var end := Min(pos + size, |stream|);
      CutStep(stream, pos, sizes, count);
      Regroup(out, stream[pos..end], Cut(stream[end..], sizes, count + 1));
      out := out + [stream[pos..end]];
      pos := pos + size;
      count := count + 1;
    }
  }

  /** The loop over a single chunk size. */
  method CutByChunk(stream: bytes, chunk: int) returns (out: seq<bytes>)
    requires chunk > 0
    ensures out == Cut(stream, [chunk], 0)
  {
    out := [];
    var step := Max(1, chunk);
    var pos := 0;
    while pos < |stream|
      invariant 0 <= pos
      invariant out + Cut(stream[Min(pos, |stream|)..], [chunk], |out|) == Cut(stream, [chunk], 0)
      decreases |stream| - pos
    {
      hide Cut, SizeAt;
      var end := Min(pos + step, |stream|);
      OneSize(chunk, |out|);
      CutStep(stream, pos, [chunk], |out|);
      Regroup(out, stream[pos..end], Cut(stream[end..], [chunk], |out| + 1));
      out := out + [stream[pos..end]];
      pos := pos + step;
    }
  }

  lemma Regroup(before: seq<bytes>, frame: bytes, after: seq<bytes>)
    ensures before + ([frame] + after) == before + [frame] + after
  {
  }

  lemma PatternSize(sizes: seq<int>, count: nat)
    requires sizes != [] && forall i :: 0 <= i < |sizes| ==> sizes[i] > 0
    ensures SizeAt(sizes, count) == sizes[count % |sizes|]
  {
  }

  lemma OneSize(chunk: int, count: nat)
    requires chunk > 0
    ensures SizeAt([chunk], count) == chunk
  {
  }

  /** One frame is cut off at position pos. */
  lemma CutStep(stream: bytes, pos: nat, sizes: seq<int>, count: nat)
    requires pos < |stream|
    requires sizes != [] && forall i :: 0 <= i < |sizes| ==> sizes[i] > 0
    ensures var end := Min(pos + SizeAt(sizes, count), |stream|);
            Cut(stream[pos..], sizes, count) == [stream[pos..end]] + Cut(stream[end..], sizes, count + 1)
  {
    hide SizeAt;
    var size := SizeAt(sizes, count);
    var end := Min(pos + size, |stream|);
    if |stream[pos..]| <= size {
      assert stream[pos..end] == stream[pos..] && stream[end..] == [];
    } else {
      assert stream[pos..][size..] == stream[end..] && stream[pos..][..size] == stream[pos..end];
    }
  }

  // ----- what the client receives -----

  /** These frames lose nothing, and frame i has the i-th size of the repeating
      pattern from count on; only the last may be shorter, and none is empty. */
  ghost predicate Follows(out: seq<bytes>, stream: bytes, sizes: seq<int>, count: nat)
    requires sizes != [] && forall i :: 0 <= i < |sizes| ==> sizes[i] > 0
  {
    && Join(out) == stream
    && (forall i :: 0 <= i < |out| - 1 ==> |out[i]| == SizeAt(sizes, count + i))
    && (out != [] ==> 0 < |out[|out| - 1]| <= SizeAt(sizes, count + |out| - 1))
  }

  /** Every cut follows its pattern. */
  lemma {:induction false} CutFollowsPattern(stream: bytes, sizes: seq<int>, count: nat)
    requires sizes != [] && forall i :: 0 <= i < |sizes| ==> sizes[i] > 0
    ensures Follows(Cut(stream, sizes, count), stream, sizes, count)
    decreases |stream|
  {
    hide SizeAt;
    var size := SizeAt(sizes, count);
    if |stream| > size {
      hide Follows;
      var next, first, later := count + 1, stream[..size], stream[size..];
      CutFollowsPattern(later, sizes, next);
      FrameInFront(first, later, Cut(later, sizes, next), sizes, count, next);
      assert first + later == stream;
    } else if stream != [] {
      OneFrame(stream, sizes, count);
    }
  }

  lemma OneFrame(stream: bytes, sizes: seq<int>, count: nat)
    requires sizes != [] && forall i :: 0 <= i < |sizes| ==> sizes[i] > 0
    requires stream != [] && |stream| <= SizeAt(sizes, count)
    ensures Follows([stream], stream, sizes, count)
  {
    hide SizeAt;
    var out := [stream];
    assert out[1..] == [];
    assert Join(out) == stream + Join([]);
    assert out[|out| - 1] == stream && count + |out| - 1 == count;
  }

  /** A full frame in front of a cut that follows the pattern. */
  lemma FrameInFront(first: bytes, later: bytes, rest: seq<bytes>, sizes: seq<int>, count: nat, next: nat)
    requires sizes != [] && forall i :: 0 <= i < |sizes| ==> sizes[i] > 0
    requires next == count + 1 && |first| == SizeAt(sizes, count) && Follows(rest, later, sizes, next) && later != []
    ensures Follows([first] + rest, first + later, sizes, count)
  {
    hide SizeAt;
    var out := [first] + rest;
    assert rest != [];
    assert out[1..] == rest;
    assert Join(out) == first + Join(rest);
    forall i | 0 <= i < |out| - 1
      ensures |out[i]| == SizeAt(sizes, count + i)
    {
      if i > 0 {
        var j := i - 1;
        assert out[i] == rest[j] && next + j == count + i;
      }
    }
    assert out[|out| - 1] == rest[|rest| - 1] && next + |rest| - 1 == count + |out| - 1;
  }

  lemma ShapedKeepsStream(direction: Direction, frames: seq<bytes>, p: Profile)
    requires ValidProfile(p)
    ensures Join(Shaped(direction, frames, p)) == Join(frames)
  {
    if direction == Down && frames != [] && Join(frames) != [] {
      if p.sizes != [] {
        CutFollowsPattern(Join(frames), p.sizes, 0);
      } else if p.chunk > 0 {
        CutFollowsPattern(Join(frames), [p.chunk], 0);
      } else {
        assert Join([Join(frames)]) == Join(frames);
      }
    }
  }

  /** What shaping does to a downlink batch that is not empty: the frames have the
      sizes of the repeating pattern, else the chunk size, the last at most that,
      else there is one frame; uplink batches pass. */
  lemma ShapedFollowsProfile(direction: Direction, frames: seq<bytes>, p: Profile)
    requires ValidProfile(p)
    ensures direction == Up ==> Shaped(direction, frames, p) == frames
    ensures direction == Down && Join(frames) != [] ==>
      var out := Shaped(direction, frames, p);
      if p.sizes != [] then Sized(out, p.sizes) else if p.chunk > 0 then Sized(out, [p.chunk]) else out == [Join(frames)]
  {
    hide Cut, Sized;
    if direction == Down && Join(frames) != [] {
      assert frames != [];
      if p.sizes != [] {
        CutIsSized(Join(frames), p.sizes);
      } else if p.chunk > 0 {
        CutIsSized(Join(frames), [p.chunk]);
      }
    }
  }

  /** Frame i has the size number i modulo their count; only the last may be
      shorter, and it is not empty. */
  ghost predicate Sized(out: seq<bytes>, sizes: seq<int>)
    requires sizes != []
  {
    && (forall i :: 0 <= i < |out| - 1 ==> |out[i]| == sizes[i % |sizes|])
    && (out != [] ==> 0 < |out[|out| - 1]| <= sizes[(|out| - 1) % |sizes|])
  }

  lemma CutIsSized(stream: bytes, sizes: seq<int>)
    requires sizes != [] && forall i :: 0 <= i < |sizes| ==> sizes[i] > 0
    ensures Sized(Cut(stream, sizes, 0), sizes)
  {
    hide Cut;
    CutFollowsPattern(stream, sizes, 0);
    var out := Cut(stream, sizes, 0);
    assert forall i: nat :: SizeAt(sizes, 0 + i) == sizes[i % |sizes|];
    if out != [] {
      assert SizeAt(sizes, |out| - 1) == sizes[(|out| - 1) % |sizes|];
    }
  }
}
