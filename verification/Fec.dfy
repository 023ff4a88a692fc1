/** The systematic XOR erasure code of engines/engines/fec.py: parity block c is
    the XOR of the zero-padded data blocks whose index is c modulo the number of
    parity blocks. */
module Fec {
  import opened Prelude

  type Block = seq<bv8>

  function Xor(a: bv8, b: bv8): bv8 {
    a ^ b
  }

  lemma XorLaws(a: bv8, b: bv8, c: bv8)
    ensures Xor(Xor(a, b), c) == Xor(a, Xor(b, c)) && Xor(a, b) == Xor(b, a) && Xor(a, 0) == a && Xor(a, a) == 0
  {
  }

  /** Byte j of a block padded with zeros. */
  function At(b: Block, j: nat): bv8 {
    if j < |b| then b[j] else 0
  }

  /** bytes.ljust(size, b"\x00") */
  function Pad(b: Block, size: nat): (p: Block)
    ensures |p| == Max(|b|, size) && forall j :: 0 <= j < |p| ==> p[j] == At(b, j)
  {
    b + seq(Max(|b|, size) - |b|, _ => 0)
  }

  function MaxLen(blocks: seq<Block>): (size: nat)
    ensures forall i :: 0 <= i < |blocks| ==> |blocks[i]| <= size
    ensures blocks != [] ==> exists i :: 0 <= i < |blocks| && |blocks[i]| == size
  {
    if blocks == [] then 0
    else
      var n := |blocks| - 1;
      var before := MaxLen(blocks[..n]);
      assert forall i :: 0 <= i < n ==> blocks[..n][i] == blocks[i];
      Max(before, |blocks[n]|)
  }

  /** The parity block that protects data block k. */
  function ClassOf(k: nat, classes: nat): (c: nat)
    requires classes > 0
    ensures c < classes
  {
    k % classes
  }

  /** XOR of byte j over the first n blocks that belong to class c. */
  function XorAt(blocks: seq<Block>, classes: nat, c: nat, n: nat, j: nat): bv8
    requires n <= |blocks| && classes > 0
    decreases n
  {
    if n == 0 then 0
    else Xor(XorAt(blocks, classes, c, n - 1, j), if ClassOf(n - 1, classes) == c then At(blocks[n - 1], j) else 0)
  }

  function Parity(blocks: seq<Block>, classes: nat, c: nat): (p: Block)
    requires classes > 0
    ensures |p| == MaxLen(blocks)
  {
    seq(MaxLen(blocks), j requires 0 <= j => XorAt(blocks, classes, c, |blocks|, j))
  }

  function Encoded(blocks: seq<Block>, parityCount: int): (code: seq<Block>)
    ensures |code| == |blocks| + if parityCount > 0 && blocks != [] then parityCount else 0
  {
    if parityCount <= 0 || blocks == [] then blocks
    else blocks + seq(parityCount, c requires 0 <= c < parityCount => Parity(blocks, parityCount, c))
  }

  /** acc[j] ^= block[j] for all j. */
  method XorInto(acc: array<bv8>, block: Block)
    requires |block| == acc.Length
    modifies acc
    ensures forall j :: 0 <= j < acc.Length ==> acc[j] == Xor(old(acc[j]), block[j])
  {
    for j := 0 to acc.Length
      invariant forall k :: 0 <= k < j ==> acc[k] == Xor(old(acc[k]), block[k])
      invariant forall k :: j <= k < acc.Length ==> acc[k] == old(acc[k])
    {
      acc[j] := acc[j] ^ block[j];
    }
  }

  method EncodeGroup(blocks: seq<Block>, parityCount: int) returns (code: seq<Block>)
    ensures code == Encoded(blocks, parityCount)
  {
    if parityCount <= 0 || blocks == [] {
      return blocks;
    }
    var size := MaxLen(blocks);
    var padded := seq(|blocks|, i requires 0 <= i < |blocks| => Pad(blocks[i], size));
    var parity: seq<Block> := [];
    for i := 0 to parityCount
      invariant |parity| == i
      invariant forall c :: 0 <= c < i ==> parity[c] == Parity(blocks, parityCount, c)
    {
      var acc := new bv8[size](_ => 0);
      for idx := 0 to |padded|
        invariant forall j :: 0 <= j < size ==> acc[j] == XorAt(blocks, parityCount, i, idx, j)
      {
        if idx % parityCount == i {
          XorInto(acc, padded[idx]);
        }
      }
      assert acc[..] == Parity(blocks, parityCount, i);
      parity := parity + [acc[..]];
    }
    return blocks + parity;
  }

  // ----- decoding -----

  /** A decoded group, None in the source, or its ValueError for an empty max(). */
  datatype Outcome = Recovered(blocks: seq<Block>) | NotPossible | Raises

  /** Each lost data block is the only one of its class and its parity is there. */
  ghost predicate OneLossPerClass(received: seq<Option<Block>>, n: nat, classes: nat)
    requires classes > 0 && |received| == n + classes
  {
    forall i {:trigger Repairable(received, n, classes, i)} ::
      0 <= i < n && received[i].None? ==> Repairable(received, n, classes, i)
  }

  ghost predicate Repairable(received: seq<Option<Block>>, n: nat, classes: nat, i: nat)
    requires classes > 0 && |received| == n + classes && i < n
  {
    && received[n + ClassOf(i, classes)].Some?
    && forall k :: 0 <= k < n && k != i && ClassOf(k, classes) == ClassOf(i, classes) ==> received[k].Some?
  }

  /** The blocks that arrived; a lost one stands as an empty block. */
  function Known(received: seq<Option<Block>>): (known: seq<Block>)
    ensures |known| == |received|
    ensures forall i :: 0 <= i < |received| ==> known[i] == (if received[i].Some? then received[i].value else [])
  {
    seq(|received|, i requires 0 <= i < |received| => if received[i].Some? then received[i].value else [])
  }

  function Present(received: seq<Option<Block>>): seq<Block> {
    if received == [] then []
    else
      var last := received[|received| - 1];
      Present(received[..|received| - 1]) + (if last.Some? then [last.value] else [])
  }

  /** A lost block of class c, from its parity and the other data blocks. */
  function FromParity(parity: Block, data: seq<Block>, classes: nat, c: nat, size: nat): (b: Block)
    requires classes > 0
    ensures |b| == size
  {
    seq(size, j requires 0 <= j => Xor(At(parity, j), XorAt(data, classes, c, |data|, j)))
  }

  /** Data block i as decoding rebuilds it. */
  function Rebuilt(received: seq<Option<Block>>, n: nat, classes: nat, i: nat): Block
    requires classes > 0 && |received| == n + classes && i < n
  {
    var known, size, c := Known(received), MaxLen(Known(received)), ClassOf(i, classes);
    if received[i].Some? then Pad(received[i].value, size) else FromParity(known[n + c], known[..n], classes, c, size)
  }

  ghost function Decoded(received: seq<Option<Block>>, parityCount: int): Outcome {
    var n := |received| - parityCount;
    if n <= 0 || parityCount <= 0 then
      if Present(received) == [] then NotPossible else Recovered(Present(received))
    else if forall i :: 0 <= i < n ==> received[i].Some? then Recovered(Known(received[..n]))
    else if forall i :: 0 <= i < |received| ==> received[i].None? then Raises
    else if OneLossPerClass(received, n, parityCount) then
      Recovered(seq(n, i requires 0 <= i < n => Rebuilt(received, n, parityCount, i)))
    else NotPossible
  }

  /** Decoding raises exactly when there is parity to use, data to recover and
      nothing at all was received. */
  lemma RaisesIff(received: seq<Option<Block>>, parityCount: int)
    ensures Decoded(received, parityCount) == Raises
            <==> parityCount > 0 && |received| > parityCount && forall i :: 0 <= i < |received| ==> received[i].None?
  {
    hide OneLossPerClass, Rebuilt, Present, Known;
    if parityCount > 0 && |received| > parityCount {
      assert received[0].None? || received[0].Some?;
    }
  }

  function LostIndices(received: seq<Option<Block>>, n: nat): (lost: seq<nat>)
    requires n <= |received|
    ensures forall s :: 0 <= s < |lost| ==> lost[s] < n && received[lost[s]].None?
    ensures forall i :: 0 <= i < n && received[i].None? ==> i in lost
    ensures forall s, t :: 0 <= s < t < |lost| ==> lost[s] < lost[t]
  {
    if n == 0 then []
    else
      var before := LostIndices(received, n - 1);
      if received[n - 1].None? then before + [n - 1] else before
  }

  /** The block list while decoding, once the first t lost blocks are rebuilt. */
  ghost predicate Progress(out: seq<Option<Block>>, received: seq<Option<Block>>, n: nat, classes: nat,
                           lost: seq<nat>, t: nat)
    requires classes > 0 && |received| == n + classes && t <= |lost| && forall s :: 0 <= s < |lost| ==> lost[s] < n
  {
    && |out| == n
    && (forall i :: 0 <= i < n && received[i].Some? ==> out[i] == Some(Rebuilt(received, n, classes, i)))
    && (forall s :: 0 <= s < t ==> out[lost[s]] == Some(Rebuilt(received, n, classes, lost[s])))
    && (forall s :: t <= s < |lost| ==> out[lost[s]].None?)
  }

  method DecodeGroup(received: seq<Option<Block>>, parityCount: int) returns (r: Outcome)
    ensures r == Decoded(received, parityCount)
  {
    hide OneLossPerClass, Rebuilt;
    var n := |received| - parityCount;
    if n <= 0 || parityCount <= 0 {
      var present := Present(received);
      return if present == [] then NotPossible else Recovered(present);
    }
    var lost := LostIndices(received, n);
    if lost == [] {
      return Recovered(Known(received[..n]));
    }
    assert received[lost[0]].None?;
    if forall i :: 0 <= i < |received| ==> received[i].None? {
      return Raises;
    }
    r := RebuildLost(received, parityCount, n, lost);
  }

  /** The loop over the lost blocks. */
  method RebuildLost(received: seq<Option<Block>>, parityCount: int, n: nat, lost: seq<nat>) returns (r: Outcome)
    requires parityCount > 0 && n > 0 && |received| == n + parityCount && lost == LostIndices(received, n) && lost != []
    requires exists k :: 0 <= k < |received| && received[k].Some?
    ensures r == Decoded(received, parityCount)
  {
    hide ClassOf, Rebuilt, Repairable, Decoded, OneLossPerClass, LostIndices;
    var size := MaxLen(Known(received));
    var out := seq(n, i requires 0 <= i < n => if received[i].Some? then Some(Pad(received[i].value, size)) else None);
    Started(out, received, n, parityCount, lost);
    for t := 0 to |lost|
      invariant |out| == n && Progress(out, received, n, parityCount, lost, t)
      invariant forall s :: 0 <= s < t ==> Repairable(received, n, parityCount, lost[s])
    {
      hide Progress;
      var block := RebuildBlock(out, received, n, parityCount, lost, t);
      if block.None? {
        GivesUp(received, parityCount, n, lost[t]);
        return NotPossible;
      }
      Advanced(out, received, n, parityCount, lost, t, block);
      out := out[lost[t] := block];
    }
    AllRebuilt(out, received, n, parityCount, lost);
    r := Recovered(Values(out));
    assert received[lost[0]].None?;
    Succeeds(received, parityCount, n, r.blocks);
  }

  function Values(out: seq<Option<Block>>): (blocks: seq<Block>)
    requires forall i :: 0 <= i < |out| ==> out[i].Some?
    ensures |blocks| == |out| && forall i :: 0 <= i < |out| ==> out[i] == Some(blocks[i])
  {
    seq(|out|, i requires 0 <= i < |out| => out[i].value)
  }

  lemma GivesUp(received: seq<Option<Block>>, parityCount: int, n: nat, i: nat)
    requires parityCount > 0 && n > 0 && |received| == n + parityCount
    requires exists k :: 0 <= k < |received| && received[k].Some?
    requires i < n && received[i].None? && !Repairable(received, n, parityCount, i)
    ensures Decoded(received, parityCount) == NotPossible
  {
    hide Repairable, Rebuilt;
  }

  lemma Succeeds(received: seq<Option<Block>>, parityCount: int, n: nat, blocks: seq<Block>)
    requires parityCount > 0 && n > 0 && |received| == n + parityCount
    requires exists k :: 0 <= k < |received| && received[k].Some?
    requires (exists i :: 0 <= i < n && received[i].None?) && OneLossPerClass(received, n, parityCount)
    requires |blocks| == n && forall i :: 0 <= i < n ==> blocks[i] == Rebuilt(received, n, parityCount, i)
    ensures Decoded(received, parityCount) == Recovered(blocks)
  {
    hide OneLossPerClass, Rebuilt;
    assert blocks == seq(n, i requires 0 <= i < n => Rebuilt(received, n, parityCount, i));
  }

  lemma Started(out: seq<Option<Block>>, received: seq<Option<Block>>, n: nat, classes: nat, lost: seq<nat>)
    requires classes > 0 && |received| == n + classes && lost == LostIndices(received, n) && |out| == n
    requires forall i :: 0 <= i < n ==>
      out[i] == if received[i].Some? then Some(Pad(received[i].value, MaxLen(Known(received)))) else None
    ensures Progress(out, received, n, classes, lost, 0)
  {
  }

  lemma Advanced(out: seq<Option<Block>>, received: seq<Option<Block>>, n: nat, classes: nat, lost: seq<nat>, t: nat,
                 block: Option<Block>)
    requires classes > 0 && |received| == n + classes && t < |lost|
    requires lost == LostIndices(received, n) && Progress(out, received, n, classes, lost, t)
    requires block == Some(Rebuilt(received, n, classes, lost[t]))
    ensures lost[t] < |out| && Progress(out[lost[t] := block], received, n, classes, lost, t + 1)
  {
    hide Rebuilt, LostIndices;
    assert forall s :: 0 <= s < |lost| && s != t ==> lost[s] != lost[t];
  }

  lemma AllRebuilt(out: seq<Option<Block>>, received: seq<Option<Block>>, n: nat, classes: nat, lost: seq<nat>)
    requires classes > 0 && |received| == n + classes
    requires lost == LostIndices(received, n) && Progress(out, received, n, classes, lost, |lost|)
    requires forall s :: 0 <= s < |lost| ==> Repairable(received, n, classes, lost[s])
    ensures OneLossPerClass(received, n, classes)
    ensures |out| == n && forall i :: 0 <= i < n ==> out[i] == Some(Rebuilt(received, n, classes, i))
  {
    hide Rebuilt, Repairable;
    forall i | 0 <= i < n
      ensures out[i] == Some(Rebuilt(received, n, classes, i))
      ensures received[i].None? ==> Repairable(received, n, classes, i)
    {
      if received[i].None? {
        assert i in lost;
      }
    }
  }

  /** One turn of the loop over the lost blocks; None where decode_group gives up. */
  method RebuildBlock(out: seq<Option<Block>>, received: seq<Option<Block>>, n: nat, classes: nat, lost: seq<nat>, t: nat)
      returns (block: Option<Block>)
    requires classes > 0 && |received| == n + classes && t < |lost| && |out| == n
    requires lost == LostIndices(received, n) && Progress(out, received, n, classes, lost, t)
    requires forall s :: 0 <= s < t ==> Repairable(received, n, classes, lost[s])
    ensures block.Some? <==> Repairable(received, n, classes, lost[t])
    ensures block.Some? ==> block.value == Rebuilt(received, n, classes, lost[t])
  {
    hide ClassOf, Progress, Rebuilt, Repairable, LostIndices, Known, MaxLen;
    var lostIndex, c := lost[t], ClassOf(lost[t], classes);
    var parity := received[n + c];
    if parity.None? {
      NoParity(received, n, classes, lostIndex);
      return None;
    }
    ghost var data := Known(received)[..n];
    var size := MaxLen(Known(received));
    ParityFits(received, n + c);
    forall idx | 0 <= idx < n && idx != lostIndex && ClassOf(idx, classes) == c
      ensures AsReceived(out[idx], received[idx], data[idx], size)
    {
      StillThere(out, received, n, classes, lost, t, idx);
    }
    block := XorOthers(out, received, n, classes, lostIndex, c, parity.value, size, data);
  }

  /** A block in the list while decoding is the padded received one, or lost too. */
  ghost predicate AsReceived(out: Option<Block>, received: Option<Block>, data: Block, size: nat) {
    && (out.Some? <==> received.Some?)
    && (out.Some? ==> |data| <= size && out.value == Pad(data, size))
  }

  /** The XOR of a parity block with the other blocks of its class. */
  method XorOthers(out: seq<Option<Block>>, received: seq<Option<Block>>, n: nat, classes: nat, lostIndex: nat, c: nat,
                   parity: Block, size: nat, ghost data: seq<Block>) returns (block: Option<Block>)
    requires classes > 0 && |received| == n + classes && lostIndex < n && c == ClassOf(lostIndex, classes)
    requires received[lostIndex].None? && received[n + c] == Some(parity) && |parity| <= size
    requires data == Known(received)[..n] && size == MaxLen(Known(received))
    requires |out| == n
    requires forall idx :: 0 <= idx < n && idx != lostIndex && ClassOf(idx, classes) == c ==>
      AsReceived(out[idx], received[idx], data[idx], size)
    ensures block.Some? <==> Repairable(received, n, classes, lostIndex)
    ensures block.Some? ==> block.value == Rebuilt(received, n, classes, lostIndex)
  {
    hide ClassOf, Rebuilt, Repairable, MaxLen, Known;
    assert data[lostIndex] == [];
    var padded := Pad(parity, size);
    var acc := new bv8[size](j requires 0 <= j < |padded| => padded[j]);
    Begun(acc[..], parity, data, classes, c);
    for idx := 0 to n
      invariant Holds(acc[..], parity, data, classes, c, idx)
      invariant forall k :: 0 <= k < idx && k != lostIndex && ClassOf(k, classes) == c ==> received[k].Some?
    {
      hide Holds;
      if idx != lostIndex && ClassOf(idx, classes) == c {
        var other := out[idx];
        if other.None? {
          NotRepairable(received, n, classes, lostIndex, idx);
          return None;
        }
        ghost var before := acc[..];
        XorInto(acc, other.value);
        Absorbed(before, acc[..], parity, data, classes, c, idx);
      } else {
        Skipped(acc[..], parity, data, classes, c, idx);
      }
    }
    IsRepairable(received, n, classes, lostIndex, c);
    IsRebuilt(received, n, classes, lostIndex, acc[..]);
    return Some(acc[..]);
  }

  lemma IsRepairable(received: seq<Option<Block>>, n: nat, classes: nat, i: nat, c: nat)
    requires classes > 0 && |received| == n + classes && i < n && c == ClassOf(i, classes) && received[n + c].Some?
    requires forall k :: 0 <= k < n && k != i && ClassOf(k, classes) == c ==> received[k].Some?
    ensures Repairable(received, n, classes, i)
  {
    hide ClassOf;
  }

  /** Bytes of an accumulator after the parity and the first idx data blocks. */
  ghost predicate Holds(acc: Block, parity: Block, data: seq<Block>, classes: nat, c: nat, idx: nat)
    requires classes > 0 && idx <= |data|
  {
    forall j :: 0 <= j < |acc| ==> acc[j] == Xor(At(parity, j), XorAt(data, classes, c, idx, j))
  }

  lemma Begun(acc: Block, parity: Block, data: seq<Block>, classes: nat, c: nat)
    requires classes > 0 && forall j :: 0 <= j < |acc| ==> acc[j] == At(parity, j)
    ensures Holds(acc, parity, data, classes, c, 0)
  {
    hide Xor, At;
    forall j | 0 <= j < |acc|
      ensures acc[j] == Xor(At(parity, j), XorAt(data, classes, c, 0, j))
    {
      XorLaws(At(parity, j), 0, 0);
    }
  }

  lemma Absorbed(before: Block, acc: Block, parity: Block, data: seq<Block>, classes: nat, c: nat, idx: nat)
    requires classes > 0 && idx < |data| && ClassOf(idx, classes) == c && |acc| == |before|
    requires Holds(before, parity, data, classes, c, idx)
    requires forall j :: 0 <= j < |acc| ==> acc[j] == Xor(before[j], At(data[idx], j))
    ensures Holds(acc, parity, data, classes, c, idx + 1)
  {
    hide ClassOf, Xor, At;
    forall j | 0 <= j < |acc|
      ensures acc[j] == Xor(At(parity, j), XorAt(data, classes, c, idx + 1, j))
    {
      XorLaws(At(parity, j), XorAt(data, classes, c, idx, j), At(data[idx], j));
    }
  }

  lemma Skipped(acc: Block, parity: Block, data: seq<Block>, classes: nat, c: nat, idx: nat)
    requires classes > 0 && idx < |data| && (ClassOf(idx, classes) != c || data[idx] == [])
    requires Holds(acc, parity, data, classes, c, idx)
    ensures Holds(acc, parity, data, classes, c, idx + 1)
  {
    hide ClassOf, Xor;
    forall j | 0 <= j < |acc|
      ensures acc[j] == Xor(At(parity, j), XorAt(data, classes, c, idx + 1, j))
    {
      XorLaws(XorAt(data, classes, c, idx, j), 0, 0);
    }
  }

  lemma NoParity(received: seq<Option<Block>>, n: nat, classes: nat, i: nat)
    requires classes > 0 && |received| == n + classes && i < n && received[n + ClassOf(i, classes)].None?
    ensures !Repairable(received, n, classes, i)
  {
  }

  lemma NotRepairable(received: seq<Option<Block>>, n: nat, classes: nat, i: nat, k: nat)
    requires classes > 0 && |received| == n + classes && i < n && k < n
    requires k != i && ClassOf(k, classes) == ClassOf(i, classes)
    requires received[k].None?
    ensures !Repairable(received, n, classes, i)
  {
    hide ClassOf, Xor;
  }

  lemma ParityFits(received: seq<Option<Block>>, p: nat)
    requires p < |received| && received[p].Some?
    ensures |received[p].value| <= MaxLen(Known(received)) && Known(received)[p] == received[p].value
  {
    assert |Known(received)[p]| <= MaxLen(Known(received));
  }

  lemma IsRebuilt(received: seq<Option<Block>>, n: nat, classes: nat, i: nat, acc: Block)
    requires classes > 0 && |received| == n + classes && i < n
    requires received[i].None? && received[n + ClassOf(i, classes)].Some?
    requires |acc| == MaxLen(Known(received))
    requires Holds(acc, received[n + ClassOf(i, classes)].value, Known(received)[..n], classes, ClassOf(i, classes), n)
    ensures acc == Rebuilt(received, n, classes, i)
  {
    hide ClassOf, Xor;
  }

  /** A block found while rebuilding another of its class was received. */
  lemma StillThere(out: seq<Option<Block>>, received: seq<Option<Block>>, n: nat, classes: nat,
                   lost: seq<nat>, t: nat, idx: nat)
    requires classes > 0 && |received| == n + classes && t < |lost|
    requires lost == LostIndices(received, n) && Progress(out, received, n, classes, lost, t)
    requires forall s :: 0 <= s < t ==> Repairable(received, n, classes, lost[s])
    requires idx < n && idx != lost[t] && ClassOf(idx, classes) == ClassOf(lost[t], classes)
    ensures |out| == n && (out[idx].Some? <==> received[idx].Some?)
    ensures received[idx].Some? ==> out[idx] == Some(Pad(received[idx].value, MaxLen(Known(received))))
    ensures received[idx].Some? ==> |received[idx].value| <= MaxLen(Known(received))
    ensures received[idx].Some? ==> Known(received)[idx] == received[idx].value
  {
    hide ClassOf, Xor;
    if received[idx].None? {
      assert idx in lost;
    } else {
      ParityFits(received, idx);
    }
  }

  // ----- decoding undoes encoding, when it can -----

  /** What is left of a code word after losses. */
  ghost predicate Erased(received: seq<Option<Block>>, code: seq<Block>) {
    |received| == |code| && forall i :: 0 <= i < |code| ==> received[i].None? || received[i] == Some(code[i])
  }

  /** XOR cancels: with one block of the class missing from the list, the parity
      byte and the others give back the missing byte. */
  lemma {:induction false} XorCancels(blocks: seq<Block>, known: seq<Block>, classes: nat, i: nat, n: nat, j: nat)
    requires classes > 0 && n <= |blocks| == |known|
    requires forall k :: 0 <= k < n && ClassOf(k, classes) == ClassOf(i, classes) && k != i ==> known[k] == blocks[k]
    requires i < n ==> known[i] == []
    ensures XorAt(blocks, classes, ClassOf(i, classes), n, j)
         == Xor(XorAt(known, classes, ClassOf(i, classes), n, j), if i < n then At(blocks[i], j) else 0)
    decreases n
  {
    hide ClassOf, Xor;
    if n > 0 {
      var c := ClassOf(i, classes);
      var x, y := XorAt(known, classes, c, n - 1, j), if ClassOf(n - 1, classes) == c then At(blocks[n - 1], j) else 0;
      if i == n - 1 {
        XorSame(blocks, known, classes, c, n - 1, j);
        XorLaws(x, 0, y);
      } else {
        XorCancels(blocks, known, classes, i, n - 1, j);
        var m := if i < n - 1 then At(blocks[i], j) else 0;
        XorLaws(x, m, y);
        XorLaws(x, y, m);
        XorLaws(m, y, 0);
      }
    } else {
      XorLaws(0, 0, 0);
    }
  }

  lemma {:induction false} XorSame(a: seq<Block>, b: seq<Block>, classes: nat, c: nat, n: nat, j: nat)
    requires classes > 0 && n <= |a| == |b| && forall k :: 0 <= k < n && ClassOf(k, classes) == c ==> a[k] == b[k]
    ensures XorAt(a, classes, c, n, j) == XorAt(b, classes, c, n, j)
    decreases n
  {
    hide ClassOf, Xor;
    if n > 0 {
      XorSame(a, b, classes, c, n - 1, j);
    }
  }

  lemma CodeBlock(blocks: seq<Block>, classes: nat, k: nat)
    requires blocks != [] && classes > 0 && k < |blocks| + classes
    ensures Encoded(blocks, classes)[k] == if k < |blocks| then blocks[k] else Parity(blocks, classes, k - |blocks|)
    ensures |Encoded(blocks, classes)[k]| <= MaxLen(blocks)
  {
    hide Parity, MaxLen;
  }

  lemma KnownBlock(blocks: seq<Block>, classes: nat, received: seq<Option<Block>>, k: nat)
    requires blocks != [] && classes > 0 && k < |blocks| + classes == |received|
    requires Erased(received, Encoded(blocks, classes))
    ensures received[k].Some? ==>
      Known(received)[k] == if k < |blocks| then blocks[k] else Parity(blocks, classes, k - |blocks|)
    ensures received[k].None? ==> Known(received)[k] == []
    ensures |Known(received)[k]| <= MaxLen(blocks)
  {
    hide Encoded, Parity, MaxLen;
    CodeBlock(blocks, classes, k);
  }

  /** With a parity block at hand the padded size is that of encoding. */
  lemma SizeKept(blocks: seq<Block>, classes: nat, received: seq<Option<Block>>, p: nat)
    requires blocks != [] && classes > 0 && |blocks| + classes == |received| && Erased(received, Encoded(blocks, classes))
    requires |blocks| <= p < |received| && received[p].Some?
    ensures MaxLen(Known(received)) == MaxLen(blocks)
  {
    hide Encoded, Erased, Parity, MaxLen, Known;
    var known := Known(received);
    KnownBlock(blocks, classes, received, p);
    assert |known[p]| == MaxLen(blocks);
    var i :| 0 <= i < |known| && |known[i]| == MaxLen(known);
    KnownBlock(blocks, classes, received, i);
  }

  lemma ParityIsThere(received: seq<Option<Block>>, n: nat, classes: nat, k: nat, p: nat)
    requires classes > 0 && |received| == n + classes && k < n && Repairable(received, n, classes, k)
    requires p == n + ClassOf(k, classes)
    ensures p < |received| && received[p].Some?
  {
    hide ClassOf;
  }

  lemma OthersAreThere(received: seq<Option<Block>>, n: nat, classes: nat, i: nat, k: nat)
    requires classes > 0 && |received| == n + classes && i < n && Repairable(received, n, classes, i)
    requires k < n && k != i && ClassOf(k, classes) == ClassOf(i, classes)
    ensures received[k].Some?
  {
    hide ClassOf;
  }

  lemma RebuildsLost(blocks: seq<Block>, classes: nat, received: seq<Option<Block>>, i: nat)
    requires blocks != [] && classes > 0 && Erased(received, Encoded(blocks, classes)) && |received| == |blocks| + classes
    requires i < |blocks| && received[i].None? && Repairable(received, |blocks|, classes, i)
    ensures Rebuilt(received, |blocks|, classes, i) == Pad(blocks[i], MaxLen(blocks))
  {
    hide ClassOf, Encoded, Erased, Parity, MaxLen, Known, FromParity, Repairable, Rebuilt;
    var n, c, known := |blocks|, ClassOf(i, classes), Known(received);
    var p, data := n + c, known[..n];
    ParityIsThere(received, n, classes, i, p);
    SizeKept(blocks, classes, received, p);
    KnownBlock(blocks, classes, received, p);
    KnownBlock(blocks, classes, received, i);
    RebuiltFrom(received, n, classes, i, c, p, data);
    OtherData(blocks, classes, received, i, c, data);
    ParityRestores(blocks, data, classes, i, c, MaxLen(blocks));
  }

  lemma RebuiltFrom(received: seq<Option<Block>>, n: nat, classes: nat, i: nat, c: nat, p: nat, data: seq<Block>)
    requires classes > 0 && |received| == n + classes && i < n && received[i].None?
    requires c == ClassOf(i, classes) && p == n + c && data == Known(received)[..n]
    ensures Rebuilt(received, n, classes, i) == FromParity(Known(received)[p], data, classes, c, MaxLen(Known(received)))
  {
    hide ClassOf, FromParity, MaxLen, Known;
  }

  lemma OtherData(blocks: seq<Block>, classes: nat, received: seq<Option<Block>>, i: nat, c: nat, data: seq<Block>)
    requires blocks != [] && classes > 0 && Erased(received, Encoded(blocks, classes)) && |received| == |blocks| + classes
    requires i < |blocks| && c == ClassOf(i, classes) && Repairable(received, |blocks|, classes, i)
    requires data == Known(received)[..|blocks|]
    ensures forall k :: 0 <= k < |blocks| && ClassOf(k, classes) == c && k != i ==> data[k] == blocks[k]
  {
    hide ClassOf, Encoded, Erased, Known, Repairable;
    forall k | 0 <= k < |blocks| && ClassOf(k, classes) == c && k != i
      ensures data[k] == blocks[k]
    {
      OthersAreThere(received, |blocks|, classes, i, k);
      KnownBlock(blocks, classes, received, k);
    }
  }

  lemma ParityRestores(blocks: seq<Block>, data: seq<Block>, classes: nat, i: nat, c: nat, size: nat)
    requires classes > 0 && i < |blocks| == |data| && data[i] == [] && c == ClassOf(i, classes) && size == MaxLen(blocks)
    requires forall k :: 0 <= k < |blocks| && ClassOf(k, classes) == c && k != i ==> data[k] == blocks[k]
    ensures FromParity(Parity(blocks, classes, c), data, classes, c, size) == Pad(blocks[i], size)
  {
    hide ClassOf, Xor;
    var b := FromParity(Parity(blocks, classes, c), data, classes, c, size);
    forall j | 0 <= j < size
      ensures b[j] == At(blocks[i], j)
    {
      var x, y := XorAt(data, classes, c, |data|, j), At(blocks[i], j);
      XorCancels(blocks, data, classes, i, |blocks|, j);
      XorLaws(x, y, x);
      XorLaws(y, x, x);
      XorLaws(y, 0, 0);
    }
  }

  function Padded(blocks: seq<Block>): seq<Block> {
    seq(|blocks|, i requires 0 <= i < |blocks| => Pad(blocks[i], MaxLen(blocks)))
  }

  /** A received block is only padded; k is some lost one. */
  lemma RebuildsReceived(blocks: seq<Block>, classes: nat, received: seq<Option<Block>>, i: nat, k: nat)
    requires blocks != [] && classes > 0 && Erased(received, Encoded(blocks, classes)) && |received| == |blocks| + classes
    requires i < |blocks| && received[i].Some? && k < |blocks| && Repairable(received, |blocks|, classes, k)
    ensures Rebuilt(received, |blocks|, classes, i) == Pad(blocks[i], MaxLen(blocks))
  {
    hide ClassOf, Encoded, Erased, MaxLen, Repairable;
    var p := |blocks| + ClassOf(k, classes);
    ParityIsThere(received, |blocks|, classes, k, p);
    SizeKept(blocks, classes, received, p);
    KnownBlock(blocks, classes, received, i);
  }

  lemma RebuildsAll(blocks: seq<Block>, classes: nat, received: seq<Option<Block>>, i: nat)
    requires blocks != [] && classes > 0 && Erased(received, Encoded(blocks, classes)) && |received| == |blocks| + classes
    requires OneLossPerClass(received, |blocks|, classes) && exists k :: 0 <= k < |blocks| && received[k].None?
    requires i < |blocks|
    ensures Rebuilt(received, |blocks|, classes, i) == Pad(blocks[i], MaxLen(blocks))
  {
    hide ClassOf, Encoded, Erased, MaxLen, Known, Rebuilt, Repairable;
    if received[i].None? {
      assert Repairable(received, |blocks|, classes, i);
      RebuildsLost(blocks, classes, received, i);
    } else {
      var k :| 0 <= k < |blocks| && received[k].None?;
      assert Repairable(received, |blocks|, classes, k);
      RebuildsReceived(blocks, classes, received, i, k);
    }
  }

  /** No two lost data blocks have the same index modulo m, and the parity blocks
      with those numbers are there. */
  ghost predicate Apart(received: seq<Option<Block>>, n: nat, m: nat)
    requires m > 0 && |received| == n + m
  {
    && (forall i :: 0 <= i < n && received[i].None? ==> received[n + i % m].Some?)
    && (forall i, k :: 0 <= i < k < n && received[i].None? && received[k].None? ==> i % m != k % m)
  }

  lemma ApartIff(received: seq<Option<Block>>, n: nat, m: nat)
    requires m > 0 && |received| == n + m
    ensures OneLossPerClass(received, n, m) <==> Apart(received, n, m)
  {
    if OneLossPerClass(received, n, m) {
      hide OneLossPerClass;
      forall i | 0 <= i < n && received[i].None?
        ensures received[n + i % m].Some?
        ensures forall k :: 0 <= k < n && k != i && k % m == i % m ==> received[k].Some?
      {
        LostIsRepairable(received, n, m, i);
      }
    } else {
      var i :| 0 <= i < n && received[i].None? && !Repairable(received, n, m, i);
    }
  }

  lemma LostIsRepairable(received: seq<Option<Block>>, n: nat, m: nat, i: nat)
    requires m > 0 && |received| == n + m && OneLossPerClass(received, n, m) && i < n && received[i].None?
    ensures received[n + i % m].Some?
    ensures forall k :: 0 <= k < n && k != i && k % m == i % m ==> received[k].Some?
  {
    assert Repairable(received, n, m, i);
  }

  /** Decoding exactly characterised: with something received and a data block
      lost, decoding gives back the zero-padded originals if and only if the lost
      data blocks are apart modulo the number of parity blocks and their parity
      is there; otherwise it gives up. */
  lemma DecodeIff(blocks: seq<Block>, parityCount: nat, received: seq<Option<Block>>)
    requires blocks != [] && parityCount > 0 && Erased(received, Encoded(blocks, parityCount))
    requires exists k :: 0 <= k < |received| && received[k].Some?
    requires exists k :: 0 <= k < |blocks| && received[k].None?
    ensures |received| == |blocks| + parityCount
    ensures Decoded(received, parityCount) == Recovered(Padded(blocks)) <==> Apart(received, |blocks|, parityCount)
    ensures Decoded(received, parityCount) == NotPossible <==> !Apart(received, |blocks|, parityCount)
  {
    hide Repairable, Rebuilt, Apart;
    var n := |blocks|;
    ApartIff(received, n, parityCount);
    if OneLossPerClass(received, n, parityCount) {
      forall i | 0 <= i < n
        ensures Padded(blocks)[i] == Rebuilt(received, n, parityCount, i)
      {
        RebuildsAll(blocks, parityCount, received, i);
      }
      Succeeds(received, parityCount, n, Padded(blocks));
    } else {
      var i :| 0 <= i < n && received[i].None? && !Repairable(received, n, parityCount, i);
      GivesUp(received, parityCount, n, i);
    }
  }

  /** Numbers closer together than m differ modulo m. */
  lemma CloseDiffer(i: nat, k: nat, m: nat)
    requires i < k < i + m
    ensures i % m != k % m
  {
    var a, b := i / m, k / m;
    assert i == a * m + i % m && k == b * m + k % m;
    if b <= a {
      MulLe(b, a, m);
    } else {
      MulLe(a + 1, b, m);
    }
  }

  /** Any burst of at most as many data blocks as there are parity blocks is
      recovered, with all parity there. */
  lemma BurstRecovered(blocks: seq<Block>, m: nat, received: seq<Option<Block>>, from: nat)
    requires m > 0 && from < |blocks| && Erased(received, Encoded(blocks, m))
    requires received[from].None?
    requires forall i :: 0 <= i < |received| && received[i].None? ==> from <= i < from + m && i < |blocks|
    ensures Decoded(received, m) == Recovered(Padded(blocks))
  {
    assert |received| == |blocks| + m;
    hide Decoded, Erased, Encoded;
    assert received[|blocks|].Some? && received[from].None?;
    forall i, k | 0 <= i < k < |blocks| && received[i].None? && received[k].None?
      ensures i % m != k % m
    {
      CloseDiffer(i, k, m);
    }
    DecodeIff(blocks, m, received);
  }

  /** XOR of the bytes whose index is c modulo m. */
  function ClassXor(column: Block, m: nat, c: nat): bv8
    requires m > 0
  {
    if column == [] then 0
    else
      var k := |column| - 1;
      ClassXor(column[..k], m, c) ^ (if k % m == c then column[k] else 0)
  }

  /** Byte j of all blocks, 0 where a block is shorter. */
  function ColumnOf(blocks: seq<Block>, j: nat): (column: Block)
    ensures |column| == |blocks|
  {
    seq(|blocks|, k requires 0 <= k < |blocks| => if j < |blocks[k]| then blocks[k][j] else 0)
  }

  lemma {:induction false} XorAtIsClassXor(blocks: seq<Block>, m: nat, c: nat, n: nat, j: nat)
    requires m > 0 && n <= |blocks|
    ensures XorAt(blocks, m, c, n, j) == ClassXor(ColumnOf(blocks, j)[..n], m, c)
  {
    if n > 0 {
      XorAtIsClassXor(blocks, m, c, n - 1, j);
      assert ColumnOf(blocks, j)[..n][..n - 1] == ColumnOf(blocks, j)[..n - 1];
    }
  }

  /** What a code word is: the data blocks, then parity blocks as long as the
      longest of them; byte j of parity block c and byte j of every data block
      whose index is c modulo m cancel out. */
  lemma ParityEquation(blocks: seq<Block>, m: nat, c: nat, j: nat)
    requires blocks != [] && c < m && j < MaxLen(blocks)
    ensures var code := Encoded(blocks, m); var n := |blocks|;
            && |code| == n + m && code[..n] == blocks && |code[n + c]| == MaxLen(blocks)
            && code[n + c][j] ^ ClassXor(ColumnOf(blocks, j), m, c) == 0
  {
    XorAtIsClassXor(blocks, m, c, |blocks|, j);
    assert ColumnOf(blocks, j)[..|blocks|] == ColumnOf(blocks, j);
    Cancels(ClassXor(ColumnOf(blocks, j), m, c));
  }

  lemma Cancels(a: bv8)
    ensures a ^ a == 0
  {
  }

  /** Without a loss among the data blocks they come back as they were. */
  lemma NothingLost(blocks: seq<Block>, parityCount: nat, received: seq<Option<Block>>)
    requires blocks != [] && parityCount > 0 && Erased(received, Encoded(blocks, parityCount))
    requires forall k :: 0 <= k < |blocks| ==> received[k].Some?
    ensures Decoded(received, parityCount) == Recovered(blocks)
  {
    var n := |blocks|;
    forall k | 0 <= k < n
      ensures received[k] == Some(blocks[k])
    {
      assert Encoded(blocks, parityCount)[k] == blocks[k];
    }
    assert Known(received[..n]) == blocks;
  }

  /** A single lost data block is always recovered. */
  lemma SingleLoss(blocks: seq<Block>, parityCount: nat, received: seq<Option<Block>>, i: nat)
    requires parityCount > 0 && i < |blocks| && Erased(received, Encoded(blocks, parityCount))
    requires forall k :: 0 <= k < |received| ==> (received[k].None? <==> k == i)
    ensures Decoded(received, parityCount) == Recovered(Padded(blocks))
  {
    hide Decoded, Rebuilt;
    assert received[i].None? && received[|blocks|].Some?;
    DecodeIff(blocks, parityCount, received);
  }

  /** Without parity to use, or without data behind it, what arrived is handed out
      in its order; here, everything. */
  lemma PassedThrough(blocks: seq<Block>, received: seq<Option<Block>>, parityCount: int)
    requires blocks != [] && |received| == |blocks| && (parityCount <= 0 || |received| <= parityCount)
    requires forall i :: 0 <= i < |blocks| ==> received[i] == Some(blocks[i])
    ensures Decoded(received, parityCount) == Recovered(blocks)
  {
    AllPresent(blocks, received);
  }

  lemma {:induction false} AllPresent(blocks: seq<Block>, received: seq<Option<Block>>)
    requires |received| == |blocks| && forall i :: 0 <= i < |blocks| ==> received[i] == Some(blocks[i])
    ensures Present(received) == blocks
  {
    if blocks != [] {
      var n := |blocks| - 1;
      AllPresent(blocks[..n], received[..n]);
      assert blocks == blocks[..n] + [blocks[n]];
    }
  }
}
