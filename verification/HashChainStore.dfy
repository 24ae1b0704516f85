/** The log store object (persistence.py): its loops and in-place updates, proved against the
    functions of HashChain. */
module HashChainStore {
  import opened Basics
  import opened HashChain

  lemma {:induction false} FirstErrorDecides(H: Hasher, log: seq<Block>, n: nat, initial: Option<Digest>)
    requires n <= |log| && Validate(H, log[..n], initial).Err?
    ensures Validate(H, log, initial) == Validate(H, log[..n], initial)
    decreases |log| - n
  {
    if n < |log| {
      assert log[..n + 1][..n] == log[..n];
      FirstErrorDecides(H, log, n + 1, initial);
    } else {
      assert log[..n] == log;
    }
  }

  /** `_validate_file_chain`: one pass carrying the previous stored hash. */
  method ValidateFileChain(H: Hasher, log: seq<Block>, initial: Option<Digest>)
    returns (r: Result<Option<Digest>, ChainError>)
    ensures r == Validate(H, log, initial)
  {
    var previous := initial;
    for i := 0 to |log|
      invariant Validate(H, log[..i], initial) == Ok(previous)
    {
      var b := log[i];
      assert log[..i + 1][..i] == log[..i];
      if b.hash != H(HashText(b)) {
        FirstErrorDecides(H, log, i + 1, initial);
        return Err(BadHash);
      }
      if previous.None? {
        if !b.payload.Anchor? && b.prev != Zero() {
          FirstErrorDecides(H, log, i + 1, initial);
          return Err(BadGenesis);
        }
      } else if b.prev != previous.value {
        FirstErrorDecides(H, log, i + 1, initial);
        return Err(Broken);
      }
      previous := Some(b.hash);
    }
    assert log[..|log|] == log;
    return Ok(previous);
  }

  /** What a reader that counts on from an earlier file keeps of this one. */
  function Kept<T>(part: seq<T>, start: nat, seen: nat): seq<T> {
    if start <= seen then part else if start <= seen + |part| then part[start - seen..] else []
  }

  /** The reading loop of `blocks_from_height` over one file, counting on from `seen`. */
  method CollectFrom(log: seq<Block>, start: nat, seen: nat) returns (blocks: seq<Block>, count: nat)
    ensures count == seen + |WithoutAnchors(log)|
    ensures blocks == Kept(WithoutAnchors(log), start, seen)
  {
    blocks, count := [], seen;
    for i := 0 to |log|
      invariant count == seen + |WithoutAnchors(log[..i])|
      invariant blocks == Kept(WithoutAnchors(log[..i]), start, seen)
    {
      assert log[..i + 1][..i] == log[..i];
      if !log[i].payload.Anchor? {
        if count >= start { blocks := blocks + [log[i]]; }
        count := count + 1;
      }
    }
    assert log[..|log|] == log;
  }

  /** Reading two files in turn is dropping from their concatenation. */
  lemma KeptInTurn<T>(x: seq<T>, y: seq<T>, start: nat)
    ensures Kept(x, start, 0) + Kept(y, start, |x|) == if start <= |x + y| then (x + y)[start..] else []
  {
    if start <= |x| {
      assert Kept(x, start, 0) == x[start..];
      assert (x + y)[start..] == x[start..] + y;
    } else {
      assert Kept(x, start, 0) == [];
      assert start <= |x + y| ==> (x + y)[start..] == y[start - |x|..];
    }
  }

  /** The file is `before` and one block that holds what was given, linked to the block before it
      or, where there is none, to `tip`. */
  ghost predicate AddsOne(
    H: Hasher, before: seq<Block>, tip: Digest, stamp: string, payload: Payload, digest: Digest, after: seq<Block>)
  {
    var text := if payload.Anchor? then "ROTATION_ANCHOR" else payload.text;
    && |after| == |before| + 1 && after[..|before|] == before
    && after[|before|].stamp == stamp && after[|before|].payload == payload && after[|before|].hash == digest
    && after[|before|].prev == tip
    && digest == H(stamp + text + after[|before|].prev)
  }

  ghost predicate Follows(H: Hasher, tip: Digest, blocks: seq<Block>, i: nat)
    requires i < |blocks|
  {
    RightHash(H, blocks[i]) && blocks[i].prev == if i == 0 then tip else blocks[i - 1].hash
  }

  lemma LinkedMeans(H: Hasher, tip: Digest, blocks: seq<Block>)
    ensures Linked(H, tip, blocks) <==> forall i :: 0 <= i < |blocks| ==> Follows(H, tip, blocks, i)
  {
    assert forall i :: 0 <= i < |blocks| ==> (LinkedAt(H, tip, blocks, i) <==> Follows(H, tip, blocks, i));
  }

  class NexusPersistence {
    const hash: Hasher
    var rotated: Option<seq<Block>>
    var active: Option<seq<Block>>
    var lastHash: Digest
    var checkpoint: Option<Checkpoint>

    ghost function State(): Store reads this { Store(rotated, active, lastHash, checkpoint) }

    ghost predicate Valid() reads this { Sound(hash, State()) }

    constructor (hash: Hasher)
      ensures this.hash == hash && State() == Fresh() && Valid()
    {
      this.hash := hash;
      rotated, active, lastHash, checkpoint := None, None, Zero(), None;
      new;
      FreshIsSound(hash);
    }

    method CurrentHeight() returns (height: nat)
      ensures height == Height(State())
    {
      var older, seen := CollectFrom(Blocks(rotated), 0, 0);
      var newer, all := CollectFrom(Blocks(active), 0, seen);
      return all;
    }

    method BlocksFromHeight(start: int) returns (blocks: Option<seq<Block>>)
      ensures blocks == if start < 0 then None else Some(DeltaFrom(State(), start))
    {
      if start < 0 { return None; }
      var older, seen := CollectFrom(Blocks(rotated), start, 0);
      var newer, all := CollectFrom(Blocks(active), start, seen);
      KeptInTurn(WithoutAnchors(Blocks(rotated)), WithoutAnchors(Blocks(active)), start);
      return Some(older + newer);
    }

    method WriteCheckpoint()
      modifies this`checkpoint
      ensures State() == CheckpointNow(old(State()))
      ensures checkpoint == Some(Checkpoint(|Counted(Blocks(rotated))| + |Counted(Blocks(active))|, lastHash))
    {
      HeightCountsPositions(Blocks(rotated));
      HeightCountsPositions(Blocks(active));
      var height := CurrentHeight();
      checkpoint := Some(Checkpoint(height, lastHash));
    }

    method RotateLogs(stamp: string)
      modifies this
      ensures State() == Rotate(hash, old(State()), stamp)
    {
      rotated := active;
      var anchor := Seal(hash, stamp, Anchor, lastHash);
      active := Some([anchor]);
      lastHash := anchor.hash;
    }

    method AppendTransaction(payload: Payload, full: bool, anchorStamp: string, stamp: string) returns (digest: Digest)
      modifies this
      ensures State() == Append(hash, old(State()), full, anchorStamp, stamp, payload)
      ensures old(Valid()) ==> Valid()
      ensures digest == lastHash
      ensures rotated == if full && old(active).Some? then old(active) else old(rotated)
      ensures var anchor := hash(anchorStamp + "ROTATION_ANCHOR" + old(lastHash));
              active.Some? &&
              if full && old(active).Some?
              then AddsOne(hash, [Block(anchorStamp, Anchor, old(lastHash), anchor)], anchor,
                           stamp, payload, digest, active.value)
              else AddsOne(hash, Blocks(old(active)), old(lastHash), stamp, payload, digest, active.value)
      ensures checkpoint == Some(Checkpoint(|Counted(Blocks(rotated))| + |Counted(active.value)|, digest))
    {
      if Valid() { AppendKeepsSound(hash, State(), full, anchorStamp, stamp, payload); }
      if active.Some? && full { RotateLogs(anchorStamp); }
      var b := Seal(hash, stamp, payload, lastHash);
      active := Some(Blocks(active) + [b]);
      lastHash := b.hash;
      WriteCheckpoint();
      return b.hash;
    }

    /** All of the blocks or none: nothing is written before every block has been checked. */
    method ApplyBlocks(blocks: seq<Block>) returns (applied: Option<nat>)
      modifies this
      ensures applied == if Linked(hash, old(lastHash), blocks) then Some(|blocks|) else None
      ensures State() == ApplyDelta(hash, old(State()), blocks)
      ensures old(Valid()) ==> Valid()
      ensures applied.None? ==> State() == old(State())
      ensures applied.Some? <==> forall i :: 0 <= i < |blocks| ==> Follows(hash, old(lastHash), blocks, i)
      ensures rotated == old(rotated)
      ensures applied.Some? && blocks != [] ==>
                && active == Some(Blocks(old(active)) + blocks) && lastHash == blocks[|blocks| - 1].hash
                && checkpoint == Some(Checkpoint(|Counted(Blocks(rotated))| + |Counted(active.value)|, lastHash))
      ensures blocks == [] ==> State() == old(State())
    {
      if Valid() { ApplyKeepsSound(hash, State(), blocks); }
      var previous := lastHash;
      for i := 0 to |blocks|
        invariant previous == if i == 0 then lastHash else blocks[i - 1].hash
        invariant forall j :: 0 <= j < i ==> LinkedAt(hash, lastHash, blocks, j)
      {
        if blocks[i].prev != previous || blocks[i].hash != hash(HashText(blocks[i])) {
          assert !LinkedAt(hash, lastHash, blocks, i);
          LinkedMeans(hash, lastHash, blocks);
          return None;
        }
        previous := blocks[i].hash;
      }
      LinkedMeans(hash, lastHash, blocks);
      if blocks == [] { return Some(0); }
      active := Some(Blocks(active) + blocks);
      lastHash := previous;
      WriteCheckpoint();
      return Some(|blocks|);
    }

    /** Leaves the recomputed tip in `last_hash` even when only the checkpoint is wrong. */
    method ValidateWholeChain() returns (e: Option<ChainError>)
      modifies this`lastHash
      ensures e == (match ValidateChain(hash, old(State())) case Ok(_) => None case Err(x) => Some(x))
      ensures e.None? ==> ValidateChain(hash, old(State())) == Ok(lastHash)
      ensures old(Valid()) ==> e.None? && State() == old(State())
    {
      var first := ValidateFileChain(hash, Blocks(rotated), None);
      if first.Err? { return Some(first.error); }
      var second := ValidateFileChain(hash, Blocks(active), first.value);
      if second.Err? { return Some(second.error); }
      lastHash := if second.value.None? then Zero() else second.value.value;
      var height := CurrentHeight();
      if checkpoint.Some? && checkpoint.value != Checkpoint(height, lastHash) { return Some(BadCheckpoint); }
      return None;
    }
  }
}
