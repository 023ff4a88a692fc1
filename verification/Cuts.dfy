/** Streams of chunks that arrive cut at arbitrary places: which chunks are
    complete in the first m bytes, and what is left of the next one. */
module Cuts {
  import opened Prelude

  /** First chunk not complete when m bytes from the start of chunk k are there. */
  function Reach(sizes: seq<nat>, k: nat, m: nat): (k': nat)
    requires k <= |sizes|
    ensures k <= k' <= |sizes|
    decreases |sizes| - k
  {
    if k == |sizes| || m < sizes[k] then k else Reach(sizes, k + 1, m - sizes[k])
  }

  /** Bytes of that first incomplete chunk. */
  function Rest(sizes: seq<nat>, k: nat, m: nat): (r: nat)
    requires k <= |sizes|
    ensures r <= m
    decreases |sizes| - k
  {
    if k == |sizes| || m < sizes[k] then m else Rest(sizes, k + 1, m - sizes[k])
  }

  /** Cuts compose: going on from a cut is going on from the start. */
  lemma {:induction false} CutsCompose(sizes: seq<nat>, k: nat, m: nat, end: nat, more: nat)
    requires k <= |sizes| && m <= end && more == Rest(sizes, k, m) + (end - m)
    ensures Reach(sizes, k, end) == Reach(sizes, Reach(sizes, k, m), more)
    ensures Rest(sizes, k, end) == Rest(sizes, Reach(sizes, k, m), more)
    decreases |sizes| - k
  {
    if k < |sizes| && m >= sizes[k] {
      CutsCompose(sizes, k + 1, m - sizes[k], end - sizes[k], more);
    }
  }

  lemma {:induction false} ReachGrows(sizes: seq<nat>, k: nat, m: nat, end: nat)
    requires k <= |sizes| && m <= end
    ensures Reach(sizes, k, m) <= Reach(sizes, k, end)
    decreases |sizes| - k
  {
    if k < |sizes| && m >= sizes[k] {
      ReachGrows(sizes, k + 1, m - sizes[k], end - sizes[k]);
    }
  }

  /** Wire chunks k, k + 1, ... joined. */
  function Tail(ws: seq<bytes>, k: nat): bytes
    requires k <= |ws|
    decreases |ws| - k
  {
    if k == |ws| then [] else ws[k] + Tail(ws, k + 1)
  }

  lemma {:induction false} TailIsJoin(ws: seq<bytes>, k: nat)
    requires k <= |ws|
    ensures Tail(ws, k) == Join(ws[k..])
    decreases |ws| - k
  {
    if k < |ws| {
      TailIsJoin(ws, k + 1);
      assert ws[k..][1..] == ws[k + 1..];
    }
  }

  ghost predicate Fits(ws: seq<bytes>, sizes: seq<nat>) {
    |ws| == |sizes| && forall i :: 0 <= i < |ws| ==> |ws[i]| == sizes[i]
  }

  lemma {:induction false} AllComplete(ws: seq<bytes>, sizes: seq<nat>, k: nat)
    requires Fits(ws, sizes) && k <= |ws|
    ensures Reach(sizes, k, |Tail(ws, k)|) == |ws| && Rest(sizes, k, |Tail(ws, k)|) == 0
    decreases |ws| - k
  {
    if k < |ws| {
      AllComplete(ws, sizes, k + 1);
    }
  }

  /** The first incomplete chunk, k', starts r bytes before the cut. */
  lemma {:induction false} RestFrom(ws: seq<bytes>, sizes: seq<nat>, k: nat, m: nat, k': nat, r: nat)
    requires Fits(ws, sizes) && k <= |ws| && m <= |Tail(ws, k)|
    requires k' == Reach(sizes, k, m) && r == Rest(sizes, k, m)
    ensures Tail(ws, k)[m - r..] == Tail(ws, k')
    ensures (k' < |ws| ==> r < sizes[k']) && (k' == |ws| ==> r == 0)
    decreases |ws| - k
  {
    if k < |ws| && m >= sizes[k] {
      var next, left := k + 1, m - sizes[k];
      RestFrom(ws, sizes, next, left, k', r);
      RestStep(ws, sizes, k, next, m, left, k', r);
    }
  }

  lemma RestBytes(ws: seq<bytes>, sizes: seq<nat>, k: nat, m: nat)
    requires Fits(ws, sizes) && k <= |ws| && m <= |Tail(ws, k)|
    ensures var k', r := Reach(sizes, k, m), Rest(sizes, k, m);
            && Tail(ws, k)[m - r..] == Tail(ws, k')
            && (k' < |ws| ==> r < sizes[k']) && (k' == |ws| ==> r == 0)
  {
    RestFrom(ws, sizes, k, m, Reach(sizes, k, m), Rest(sizes, k, m));
  }

  lemma RestStep(ws: seq<bytes>, sizes: seq<nat>, k: nat, next: nat, m: nat, left: nat, k': nat, r: nat)
    requires Fits(ws, sizes) && k < |ws| && next == k + 1 && m == sizes[k] + left
    requires k' == Reach(sizes, next, left) && r == Rest(sizes, next, left)
    requires left <= |Tail(ws, next)| && Tail(ws, next)[left - r..] == Tail(ws, k')
    ensures Reach(sizes, k, m) == k' && Rest(sizes, k, m) == r
    ensures m <= |Tail(ws, k)| && Tail(ws, k)[m - r..] == Tail(ws, k')
  {
    DropBehind(ws[k], Tail(ws, next), left - r, m - r);
  }

  function Prefix(s: bytes, r: nat): bytes {
    if r <= |s| then s[..r] else s
  }

  lemma HeadOf(a: bytes, b: bytes, r: nat)
    requires r < |a|
    ensures Prefix(a + b, r) == a[..r]
  {
  }

  lemma DropBehind<T>(a: seq<T>, b: seq<T>, j: nat, i: nat)
    requires j <= |b| && i == |a| + j
    ensures (a + b)[i..] == b[j..]
  {
  }

  /** Bytes m..m+x of a stream are bytes r..r+x of its part from m - r on. */
  lemma MoreOf(all: bytes, later: bytes, m: nat, r: nat, data: bytes, more: nat)
    requires r <= m <= |all| && all[m - r..] == later && data <= all[m..] && more == r + |data|
    ensures more <= |later| && Prefix(later, r) + data == Prefix(later, more)
  {
    assert later[r..] == all[m..];
    assert later == later[..r] + later[r..];
  }

  lemma OneMore<T>(s: seq<T>, k: nat, next: nat, k': nat)
    requires next == k + 1 && k < k' <= |s|
    ensures [s[k]] + s[next..k'] == s[k..k']
  {
  }

  lemma NothingBefore<T>(s: seq<T>)
    ensures [] + s == s
  {
  }
}
