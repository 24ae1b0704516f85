/** The hash-chained log with one rotated file and a checkpoint (persistence.py).
    SHA-256 is a parameter `H`; files are sequences of blocks. */
module HashChain {
  import opened Basics

  type Digest = string
  type Hasher = string -> Digest

  /** Payloads are told apart only as the source does: the rotation anchor, and anything else
      with the text `str(payload)`. */
  datatype Payload = Anchor | Data(text: string)

  function Text(p: Payload): string { if p.Anchor? then "ROTATION_ANCHOR" else p.text }

  /** The string "0" * 64. */
  function Zero(): Digest { seq(64, i => '0') }

  datatype Block = Block(stamp: string, payload: Payload, prev: Digest, hash: Digest)

  function Content(b: Block): string { b.stamp + Text(b.payload) }
  function HashText(b: Block): string { Content(b) + b.prev }

  function Seal(H: Hasher, stamp: string, payload: Payload, prev: Digest): Block {
    Block(stamp, payload, prev, H(stamp + Text(payload) + prev))
  }

  // ----- validation --------------------------------------------------------------------

  datatype ChainError = BadHash | BadGenesis | Broken | BadCheckpoint

  function CheckBlock(H: Hasher, prev: Option<Digest>, b: Block): Result<Option<Digest>, ChainError> {
    if b.hash != H(HashText(b)) then Err(BadHash)
    else if prev.None? && !b.payload.Anchor? && b.prev != Zero() then Err(BadGenesis)
    else if prev.Some? && b.prev != prev.value then Err(Broken)
    else Ok(Some(b.hash))
  }

  /** `_validate_file_chain`: the last stored hash, or the first error. */
  function Validate(H: Hasher, log: seq<Block>, initial: Option<Digest>): Result<Option<Digest>, ChainError>
    decreases |log|
  {
    if log == [] then Ok(initial)
    else
      match Validate(H, log[..|log| - 1], initial)
      case Err(e) => Err(e)
      case Ok(prev) => CheckBlock(H, prev, log[|log| - 1])
  }

  function Tip(log: seq<Block>): Digest { if log == [] then Zero() else log[|log| - 1].hash }

  function WithoutAnchors(log: seq<Block>): seq<Block>
    decreases |log|
  {
    if log == [] then []
    else
      WithoutAnchors(log[..|log| - 1]) + if log[|log| - 1].payload.Anchor? then [] else [log[|log| - 1]]
  }

  // ----- the store ---------------------------------------------------------------------

  datatype Checkpoint = Checkpoint(height: nat, tip: Digest)

  /** The rotated file, the active file, the in-memory tip and the checkpoint file. */
  datatype Store = Store(
    rotated: Option<seq<Block>>, active: Option<seq<Block>>, last: Digest, checkpoint: Option<Checkpoint>)

  function Fresh(): Store { Store(None, None, Zero(), None) }

  function Blocks(file: Option<seq<Block>>): seq<Block> { if file.None? then [] else file.value }

  function Countable(s: Store): seq<Block> { WithoutAnchors(Blocks(s.rotated)) + WithoutAnchors(Blocks(s.active)) }

  /** `_current_height`. */
  function Height(s: Store): nat { |Countable(s)| }

  function CheckpointNow(s: Store): Store { s.(checkpoint := Some(Checkpoint(Height(s), s.last))) }

  function Rotate(H: Hasher, s: Store, stamp: string): Store {
    var anchor := Seal(H, stamp, Anchor, s.last);
    s.(rotated := s.active, active := Some([anchor]), last := anchor.hash)
  }

  function AppendBlock(H: Hasher, s: Store, stamp: string, payload: Payload): Store {
    var b := Seal(H, stamp, payload, s.last);
    CheckpointNow(s.(active := Some(Blocks(s.active) + [b]), last := b.hash))
  }

  /** `append_transaction`; `full` says whether the active file has reached its size limit. */
  function Append(H: Hasher, s: Store, full: bool, anchorStamp: string, stamp: string, payload: Payload): Store {
    AppendBlock(H, if full && s.active.Some? then Rotate(H, s, anchorStamp) else s, stamp, payload)
  }

  predicate LinkedAt(H: Hasher, last: Digest, blocks: seq<Block>, i: nat)
    requires i < |blocks|
  {
    && blocks[i].prev == (if i == 0 then last else blocks[i - 1].hash)
    && blocks[i].hash == H(HashText(blocks[i]))
  }

  /** blocks continue a chain whose tip is `last`, each with its right hash. */
  predicate Linked(H: Hasher, last: Digest, blocks: seq<Block>) {
    forall i :: 0 <= i < |blocks| ==> LinkedAt(H, last, blocks, i)
  }

  /** `apply_blocks`: all of the blocks or none. */
  function ApplyDelta(H: Hasher, s: Store, blocks: seq<Block>): Store {
    if blocks == [] || !Linked(H, s.last, blocks) then s
    else CheckpointNow(s.(active := Some(Blocks(s.active) + blocks), last := Tip(blocks)))
  }

  /** `_recover_last_hash` on opening the store again. */
  function Reopen(s: Store): Store { s.(last := Tip(Blocks(s.active))) }

  /** `blocks_from_height`. */
  function DeltaFrom(s: Store, height: nat): seq<Block> {
    if height <= |Countable(s)| then Countable(s)[height..] else []
  }

  /** `validate_chain`: the tip it leaves in `last_hash`, or the first error. */
  function ValidateChain(H: Hasher, s: Store): Result<Digest, ChainError> {
    match Validate(H, Blocks(s.rotated), None)
    case Err(e) => Err(e)
    case Ok(prev) =>
      match Validate(H, Blocks(s.active), prev)
      case Err(e) => Err(e)
      case Ok(end) =>
        var tip := if end.None? then Zero() else end.value;
        if s.checkpoint.Some? && s.checkpoint.value != Checkpoint(Height(s), tip) then Err(BadCheckpoint) else Ok(tip)
  }

  // ----- runs of the store ---------------------------------------------------------------

  datatype Op =
    | AppendOp(full: bool, anchorStamp: string, stamp: string, payload: Payload)
    | ApplyOp(blocks: seq<Block>)
    | ReopenOp

  function Perform(H: Hasher, s: Store, op: Op): Store {
    match op
    case AppendOp(full, anchorStamp, stamp, payload) => Append(H, s, full, anchorStamp, stamp, payload)
    case ApplyOp(blocks) => ApplyDelta(H, s, blocks)
    case ReopenOp => Reopen(s)
  }

  function After(H: Hasher, s: Store, ops: seq<Op>): Store
    decreases |ops|
  {
    if ops == [] then s else After(H, Perform(H, s, ops[0]), ops[1..])
  }

  ghost predicate Sound(H: Hasher, s: Store) {
    && (s.active.None? ==> s.rotated.None? && s.checkpoint.None?)
    && (s.active.Some? ==> s.active.value != [] && s.checkpoint.Some?)
    && (s.rotated.Some? ==> s.rotated.value != [] && s.active.value[0].payload.Anchor?)
    && s.last == Tip(Blocks(s.active))
    && ValidateChain(H, s) == Ok(s.last)
  }

  lemma {:induction false} ValidateAppend(H: Hasher, a: seq<Block>, b: seq<Block>, initial: Option<Digest>)
    requires Validate(H, a, initial).Ok?
    ensures Validate(H, a + b, initial) == Validate(H, b, Validate(H, a, initial).value)
    decreases |b|
  {
    if b == [] {
      assert a + b == a;
    } else {
      assert (a + b)[..|a + b| - 1] == a + b[..|b| - 1];
      ValidateAppend(H, a, b[..|b| - 1], initial);
    }
  }

  lemma {:induction false} ValidatedTip(H: Hasher, log: seq<Block>, initial: Option<Digest>)
    requires log != [] && Validate(H, log, initial).Ok?
    ensures Validate(H, log, initial) == Ok(Some(Tip(log)))
  {
  }

  /** A file that starts with an anchor validates alone as it did behind its predecessor. */
  lemma {:induction false} AnchoredFileStandsAlone(H: Hasher, log: seq<Block>, initial: Option<Digest>)
    requires log != [] && log[0].payload.Anchor? && Validate(H, log, initial).Ok?
    ensures Validate(H, log, None) == Validate(H, log, initial)
    decreases |log|
  {
    if |log| == 1 {
      assert log[..0] == [];
    } else {
      AnchoredFileStandsAlone(H, log[..|log| - 1], initial);
    }
  }

  lemma {:induction false} LinkedValidates(H: Hasher, blocks: seq<Block>, initial: Option<Digest>)
    requires blocks != [] && Linked(H, if initial.None? then Zero() else initial.value, blocks)
    ensures Validate(H, blocks, initial) == Ok(Some(Tip(blocks)))
    decreases |blocks|
  {
    var last := if initial.None? then Zero() else initial.value;
    var init := blocks[..|blocks| - 1];
    assert LinkedAt(H, last, blocks, |blocks| - 1);
    if |blocks| == 1 {
      assert init == [];
    } else {
      forall i | 0 <= i < |init| ensures LinkedAt(H, last, init, i) {
        assert LinkedAt(H, last, blocks, i);
      }
      LinkedValidates(H, init, initial);
    }
  }

  lemma RotateKeepsChain(H: Hasher, s: Store, stamp: string)
    requires Sound(H, s) && s.active.Some?
    ensures var s' := Rotate(H, s, stamp);
            && Validate(H, Blocks(s'.rotated), None) == Ok(Some(s.last))
            && Validate(H, Blocks(s'.active), Some(s.last)) == Ok(Some(s'.last))
  {
    var log := s.active.value;
    var before := Validate(H, Blocks(s.rotated), None).value;
    ValidatedTip(H, log, before);
    if s.rotated.Some? { AnchoredFileStandsAlone(H, log, before); }
    var s' := Rotate(H, s, stamp);
    assert s'.active.value[..0] == [];
  }

  /** Extending the active file by linked blocks keeps the chain valid up to the new tip. */
  lemma ExtendKeepsChain(H: Hasher, rotated: seq<Block>, active: seq<Block>, blocks: seq<Block>)
    requires Validate(H, rotated, None).Ok?
    requires Validate(H, active, Validate(H, rotated, None).value).Ok?
    requires active == [] ==> rotated == []
    requires blocks != [] && Linked(H, Tip(active), blocks)
    ensures Validate(H, active + blocks, Validate(H, rotated, None).value) == Ok(Some(Tip(blocks)))
  {
    var before := Validate(H, rotated, None).value;
    ValidateAppend(H, active, blocks, before);
    if active != [] { ValidatedTip(H, active, before); }
    LinkedValidates(H, blocks, Validate(H, active, before).value);
  }

  lemma ApplyKeepsSound(H: Hasher, s: Store, blocks: seq<Block>)
    requires Sound(H, s)
    ensures Sound(H, ApplyDelta(H, s, blocks))
  {
    if blocks != [] && Linked(H, s.last, blocks) {
      ExtendKeepsChain(H, Blocks(s.rotated), Blocks(s.active), blocks);
    }
  }

  lemma AppendKeepsSound(H: Hasher, s: Store, full: bool, anchorStamp: string, stamp: string, payload: Payload)
    requires Sound(H, s)
    ensures Sound(H, Append(H, s, full, anchorStamp, stamp, payload))
  {
    var s1 := s;
    if full && s.active.Some? {
      s1 := Rotate(H, s, anchorStamp);
      RotateKeepsChain(H, s, anchorStamp);
    }
    AppendBlockIsSound(H, s1, stamp, payload);
  }

  /** Enough of soundness to append to: the checkpoint may be out of date. */
  ghost predicate Chained(H: Hasher, s: Store) {
    && (s.active.None? ==> s.rotated.None?)
    && (s.active.Some? ==> s.active.value != [])
    && (s.rotated.Some? ==> s.rotated.value != [] && s.active.value[0].payload.Anchor?)
    && s.last == Tip(Blocks(s.active))
    && Validate(H, Blocks(s.rotated), None).Ok?
    && Validate(H, Blocks(s.active), Validate(H, Blocks(s.rotated), None).value).Ok?
  }

  lemma AppendBlockIsSound(H: Hasher, s: Store, stamp: string, payload: Payload)
    requires Chained(H, s)
    ensures Sound(H, AppendBlock(H, s, stamp, payload))
  {
    var b := Seal(H, stamp, payload, s.last);
    assert LinkedAt(H, s.last, [b], 0);
    ExtendKeepsChain(H, Blocks(s.rotated), Blocks(s.active), [b]);
  }

  /** Any run of append, rotation, apply and reopen keeps the whole chain valid across both
      files, the in-memory tip equal to the last stored hash, and the checkpoint current. */
  lemma {:induction false} EveryRunStaysValid(H: Hasher, s: Store, ops: seq<Op>)
    requires Sound(H, s)
    ensures Sound(H, After(H, s, ops))
    decreases |ops|
  {
    if ops != [] {
      match ops[0] {
        case AppendOp(full, anchorStamp, stamp, payload) => AppendKeepsSound(H, s, full, anchorStamp, stamp, payload);
        case ApplyOp(blocks) => ApplyKeepsSound(H, s, blocks);
        case ReopenOp =>
      }
      EveryRunStaysValid(H, Perform(H, s, ops[0]), ops[1..]);
    }
  }

  lemma FreshIsSound(H: Hasher)
    ensures Sound(H, Fresh())
  {
  }

  /** What a sound store promises, spelled out for a store that has been written to. */
  lemma RunsFromFresh(H: Hasher, ops: seq<Op>)
    ensures var s := After(H, Fresh(), ops);
            && ValidateChain(H, s) == Ok(s.last)
            && Reopen(s) == s
            && (s.active.Some? ==> s.checkpoint == Some(Checkpoint(Height(s), Tip(s.active.value))))
  {
    FreshIsSound(H);
    EveryRunStaysValid(H, Fresh(), ops);
  }

  // ----- stopping inside a rotation ----------------------------------------------------------

  /** How far `_rotate_logs` got: nothing done, `.1` removed, the active file renamed to `.1`, the
      anchor written. */
  datatype Stop = NothingDone | OldRemoved | Renamed | Anchored

  /** The files at a stop, opened again. */
  function StoppedAt(H: Hasher, s: Store, stamp: string, stop: Stop): Store {
    Reopen(match stop
           case NothingDone => s
           case OldRemoved => s.(rotated := None)
           case Renamed => s.(rotated := s.active, active := None)
           case Anchored => Rotate(H, s, stamp))
  }

  lemma ActiveStandsAlone(H: Hasher, s: Store)
    requires Sound(H, s) && s.active.Some?
    ensures Validate(H, s.active.value, None) == Ok(Some(s.last))
  {
    var before := Validate(H, Blocks(s.rotated), None).value;
    ValidatedTip(H, s.active.value, before);
    if s.rotated.Some? { AnchoredFileStandsAlone(H, s.active.value, before); }
  }

  lemma StoppedIsChained(H: Hasher, s: Store, stamp: string, stop: Stop)
    requires Sound(H, s) && s.active.Some? && !stop.Renamed?
    ensures Chained(H, StoppedAt(H, s, stamp, stop))
  {
    ActiveStandsAlone(H, s);
    RotateKeepsChain(H, s, stamp);
  }

  lemma AppendAfterRename(
    H: Hasher, s: Store, stamp: string, full: bool, anchorStamp: string, next: string, payload: Payload)
    requires Sound(H, s) && s.active.Some?
    ensures var s' := Append(H, StoppedAt(H, s, stamp, Renamed), full, anchorStamp, next, payload);
            ValidateChain(H, s') == if s.last == Zero() then Ok(s'.last) else Err(Broken)
  {
    ActiveStandsAlone(H, s);
    var b := Seal(H, next, payload, Zero());
    var s' := Append(H, StoppedAt(H, s, stamp, Renamed), full, anchorStamp, next, payload);
    assert s'.active == Some([b]) && [b][..0] == [];
    assert Validate(H, [b], Some(s.last)) == CheckBlock(H, Some(s.last), b);
    assert s'.checkpoint == Some(Checkpoint(Height(s'), s'.last));
  }

  /** Whatever is appended after reopening: the chain is valid if and only if the stop was not the
      one between the rename and the anchor, or the tip was the all-zero digest. */
  lemma AppendAfterStop(
    H: Hasher, s: Store, stamp: string, stop: Stop, full: bool, anchorStamp: string, next: string, payload: Payload)
    requires Sound(H, s) && s.active.Some?
    ensures ValidateChain(H, Append(H, StoppedAt(H, s, stamp, stop), full, anchorStamp, next, payload)).Ok?
            <==> stop != Renamed || s.last == Zero()
    ensures stop != Renamed ==> Sound(H, Append(H, StoppedAt(H, s, stamp, stop), full, anchorStamp, next, payload))
  {
    if stop == Renamed {
      AppendAfterRename(H, s, stamp, full, anchorStamp, next, payload);
    } else {
      StoppedIsChained(H, s, stamp, stop);
      ChainedAppends(H, StoppedAt(H, s, stamp, stop), full, anchorStamp, next, payload);
    }
  }

  /** A store that is chained but for its checkpoint may be rotated and appended to. */
  lemma ChainedAppends(H: Hasher, s: Store, full: bool, anchorStamp: string, stamp: string, payload: Payload)
    requires Chained(H, s)
    ensures Sound(H, Append(H, s, full, anchorStamp, stamp, payload))
  {
    var s1 := s;
    if full && s.active.Some? {
      s1 := Rotate(H, s, anchorStamp);
      var before := Validate(H, Blocks(s.rotated), None).value;
      ValidatedTip(H, s.active.value, before);
      if s.rotated.Some? { AnchoredFileStandsAlone(H, s.active.value, before); }
      assert s1.active.value[..0] == [];
    }
    AppendBlockIsSound(H, s1, stamp, payload);
  }

  /** What `validate_chain` answers before that append: the chain itself is sound at every stop,
      but the checkpoint no longer fits once blocks that it counts are gone, or the tip moved. */
  lemma ValidationAtStop(H: Hasher, s: Store, stamp: string, stop: Stop)
    requires Sound(H, s) && s.active.Some?
    ensures var lost := WithoutAnchors(Blocks(s.rotated)) != [];
            var anchor := Seal(H, stamp, Anchor, s.last);
            ValidateChain(H, StoppedAt(H, s, stamp, stop)) ==
            match stop
            case NothingDone => Ok(s.last)
            case OldRemoved => if lost then Err(BadCheckpoint) else Ok(s.last)
            case Renamed => if lost then Err(BadCheckpoint) else Ok(s.last)
            case Anchored => if lost || anchor.hash != s.last then Err(BadCheckpoint) else Ok(s.last)
  {
    ActiveStandsAlone(H, s);
    RotateKeepsChain(H, s, stamp);
    assert s.checkpoint == Some(Checkpoint(Height(s), s.last));
    var s' := StoppedAt(H, s, stamp, stop);
    match stop {
      case NothingDone => assert s' == s;
      case OldRemoved => assert Height(s') == |WithoutAnchors(s.active.value)|;
      case Renamed => assert Height(s') == |WithoutAnchors(s.active.value)|;
      case Anchored =>
        var anchored := [Seal(H, stamp, Anchor, s.last)];
        assert anchored[..0] == [] && WithoutAnchors(anchored) == [];
        assert Height(s') == |WithoutAnchors(s.active.value)|;
    }
  }

  /** The stop that matters, at its worst. */
  lemma CrashInsideRotationBreaksTheChain(H: Hasher, s: Store, stamp: string, payload: Payload)
    requires Sound(H, s) && s.active.Some? && s.last != Zero()
    ensures var torn := Reopen(s.(rotated := s.active, active := None));
            ValidateChain(H, Append(H, torn, false, stamp, stamp, payload)) == Err(Broken)
  {
    AppendAfterRename(H, s, stamp, false, stamp, stamp, payload);
  }

  // ----- stopping before the checkpoint ----------------------------------------------------

  /** Some linked blocks are in the active file, the checkpoint is still the old one, and the store
      is opened again: `append_transaction` stopped after its block, or `apply_blocks` after the
      first of its blocks. */
  function Unfinished(s: Store, written: seq<Block>): Store {
    Reopen(s.(active := Some(Blocks(s.active) + written)))
  }

  /** What `validate_chain` answers for a chained store, whatever its checkpoint. */
  lemma ChainedValidates(H: Hasher, s: Store)
    requires Chained(H, s) && s.active.Some?
    ensures ValidateChain(H, s) ==
            if s.checkpoint.None? || s.checkpoint.value == Checkpoint(Height(s), s.last)
            then Ok(s.last) else Err(BadCheckpoint)
  {
    ValidatedTip(H, s.active.value, Validate(H, Blocks(s.rotated), None).value);
  }

  lemma UnfinishedIsChained(H: Hasher, s: Store, written: seq<Block>)
    requires Chained(H, s) && written != [] && Linked(H, s.last, written)
    ensures Chained(H, Unfinished(s, written)) && Unfinished(s, written).last == Tip(written)
  {
    ExtendKeepsChain(H, Blocks(s.rotated), Blocks(s.active), written);
  }

  lemma UnfinishedHeight(s: Store, written: seq<Block>)
    ensures Height(Unfinished(s, written)) == Height(s) + |WithoutAnchors(written)|
  {
    WithoutAnchorsAppend(Blocks(s.active), written);
  }

  /** The chain is sound at such a stop; the checkpoint fits only if there is none, or if the blocks
      written are anchors that leave the tip as it was. */
  lemma ValidationBeforeCheckpoint(H: Hasher, s: Store, written: seq<Block>)
    requires Sound(H, s) && written != [] && Linked(H, s.last, written)
    ensures Chained(H, Unfinished(s, written)) && Unfinished(s, written).last == Tip(written)
    ensures ValidateChain(H, Unfinished(s, written)) ==
            if s.checkpoint.None? || (WithoutAnchors(written) == [] && Tip(written) == s.last)
            then Ok(Tip(written)) else Err(BadCheckpoint)
  {
    UnfinishedIsChained(H, s, written);
    UnfinishedHeight(s, written);
    ChainedValidates(H, Unfinished(s, written));
    SoundCheckpoint(H, s);
  }

  lemma SoundCheckpoint(H: Hasher, s: Store)
    requires Sound(H, s)
    ensures Chained(H, s) && (s.checkpoint.Some? ==> s.checkpoint == Some(Checkpoint(Height(s), s.last)))
  {
  }

  /** The same stop in an append that rotated before: the anchor and the block are written. */
  lemma ValidationAfterRotatedBlock(H: Hasher, s: Store, anchorStamp: string, stamp: string, payload: Payload)
    requires Sound(H, s) && s.active.Some?
    ensures var rotated := Rotate(H, s, anchorStamp);
            var b := Seal(H, stamp, payload, rotated.last);
            && Chained(H, Unfinished(rotated, [b]))
            && ValidateChain(H, Unfinished(rotated, [b])) ==
               if Checkpoint(|WithoutAnchors(s.active.value)| + (if payload.Anchor? then 0 else 1), b.hash)
                  == Checkpoint(Height(s), s.last)
               then Ok(b.hash) else Err(BadCheckpoint)
  {
    var rotated := Rotate(H, s, anchorStamp);
    var b := Seal(H, stamp, payload, rotated.last);
    RotatedIsChained(H, s, anchorStamp);
    assert LinkedAt(H, rotated.last, [b], 0) && [b][..0] == [];
    UnfinishedIsChained(H, rotated, [b]);
    UnfinishedHeight(rotated, [b]);
    ChainedValidates(H, Unfinished(rotated, [b]));
    SoundCheckpoint(H, s);
  }

  lemma RotatedIsChained(H: Hasher, s: Store, anchorStamp: string)
    requires Sound(H, s) && s.active.Some?
    ensures Chained(H, Rotate(H, s, anchorStamp))
    ensures Height(Rotate(H, s, anchorStamp)) == |WithoutAnchors(s.active.value)|
  {
    RotateKeepsChain(H, s, anchorStamp);
    var anchored := [Seal(H, anchorStamp, Anchor, s.last)];
    assert anchored[..0] == [] && WithoutAnchors(anchored) == [];
  }

  /** A delta stopped after any number of its blocks, and the append after it: the next append,
      rotating or not, restores a valid store with a current checkpoint. */
  lemma AppendRestoresTheCheckpoint(
    H: Hasher, s: Store, blocks: seq<Block>, m: nat, full: bool, anchorStamp: string, stamp: string, payload: Payload)
    requires Sound(H, s) && Linked(H, s.last, blocks) && 0 < m <= |blocks|
    ensures Linked(H, s.last, blocks[..m])
    ensures Sound(H, Append(H, Unfinished(s, blocks[..m]), full, anchorStamp, stamp, payload))
  {
    forall i | 0 <= i < m ensures LinkedAt(H, s.last, blocks[..m], i) { assert LinkedAt(H, s.last, blocks, i); }
    ValidationBeforeCheckpoint(H, s, blocks[..m]);
    ChainedAppends(H, Unfinished(s, blocks[..m]), full, anchorStamp, stamp, payload);
  }

  // ----- equal tips ------------------------------------------------------------------------

  /** A log that was never rotated validates from genesis and does not begin with an anchor. */
  ghost predicate Unrotated(H: Hasher, log: seq<Block>) {
    Validate(H, log, None).Ok? && (log != [] ==> !log[0].payload.Anchor?)
  }

  /** Two different hashed texts of the logs share a digest. */
  ghost predicate Collision(H: Hasher, a: seq<Block>, b: seq<Block>) {
    exists i, j :: 0 <= i < |a| && 0 <= j < |b| && HashText(a[i]) != HashText(b[j])
                   && H(HashText(a[i])) == H(HashText(b[j]))
  }

  ghost predicate HitsZero(log: seq<Block>) { exists i :: 0 <= i < |log| && log[i].hash == Zero() }

  ghost predicate SameHistory(a: seq<Block>, b: seq<Block>) {
    |a| == |b| && forall i :: 0 <= i < |a| ==> a[i].hash == b[i].hash && Content(a[i]) == Content(b[i])
  }

  /** b ends with a's history: the last |a| of its blocks have a's hashes and texts. */
  ghost predicate EndsLike(a: seq<Block>, b: seq<Block>) {
    |a| <= |b| && SameHistory(a, b[|b| - |a|..])
  }

  lemma EndsLikeOneMore(a: seq<Block>, b: seq<Block>)
    requires a != [] && b != [] && EndsLike(a[..|a| - 1], b[..|b| - 1])
    requires a[|a| - 1].hash == b[|b| - 1].hash && Content(a[|a| - 1]) == Content(b[|b| - 1])
    ensures EndsLike(a, b)
  {
    var a', b' := a[..|a| - 1], b[..|b| - 1];
    var skip := |b| - |a|;
    forall i | 0 <= i < |a| ensures a[i].hash == b[skip..][i].hash && Content(a[i]) == Content(b[skip..][i]) {
      if i < |a| - 1 { assert a'[i] == a[i] && b'[skip..][i] == b[skip + i]; }
    }
  }

  ghost predicate PrevsAreDigests(log: seq<Block>) { forall i :: 0 <= i < |log| ==> |log[i].prev| == 64 }

  /** Equal last blocks of valid logs: same text and same predecessor. */
  lemma SameLastBlock(H: Hasher, a: seq<Block>, b: seq<Block>)
    requires Validate(H, a, None).Ok? && Validate(H, b, None).Ok? && a != [] && b != []
    requires PrevsAreDigests(a) && PrevsAreDigests(b) && Tip(a) == Tip(b) && !Collision(H, a, b)
    ensures Content(a[|a| - 1]) == Content(b[|b| - 1]) && a[|a| - 1].prev == b[|b| - 1].prev
  {
    var x, y := a[|a| - 1], b[|b| - 1];
    BlockInChain(H, a, |a| - 1);
    BlockInChain(H, b, |b| - 1);
    assert HashText(x) == HashText(y);
    SplitTail(Content(x), x.prev, Content(y), y.prev);
  }

  /** A log that validates from genesis is the end of every longer one with its tip, and a strictly
      longer one exists only if it begins with an anchor. Equal tips therefore mean equal history
      exactly when the lengths agree, unless the hash collides on the texts or yields zeros. */
  lemma {:induction false} EqualTipsShareHistory(H: Hasher, a: seq<Block>, b: seq<Block>)
    requires Validate(H, a, None).Ok? && Validate(H, b, None).Ok? && |a| <= |b|
    requires PrevsAreDigests(a) && PrevsAreDigests(b) && Tip(a) == Tip(b)
    requires !Collision(H, a, b) && !HitsZero(a) && !HitsZero(b)
    ensures EndsLike(a, b)
    ensures |a| < |b| ==> a != [] && a[0].payload.Anchor?
    ensures SameHistory(a, b) <==> |a| == |b|
    decreases |a|
  {
    if b != [] { assert b[|b| - 1].hash != Zero(); }
    if a != [] {
      SameLastBlock(H, a, b);
      if |a| > 1 {
        BeforeTheLast(H, a, b);
        EqualTipsShareHistory(H, a[..|a| - 1], b[..|b| - 1]);
      } else if |b| > 1 {
        LoneBlockIsAnchor(H, a, b);
      }
      EndsLikeOneMore(a, b);
      assert |a| == |b| ==> b[|b| - |a|..] == b;
    }
  }

  /** Without their last blocks the logs still share their tip. */
  lemma BeforeTheLast(H: Hasher, a: seq<Block>, b: seq<Block>)
    requires Validate(H, a, None).Ok? && Validate(H, b, None).Ok? && 1 < |a| <= |b|
    requires PrevsAreDigests(a) && PrevsAreDigests(b) && a[|a| - 1].prev == b[|b| - 1].prev
    requires !Collision(H, a, b) && !HitsZero(a) && !HitsZero(b)
    ensures var a', b' := a[..|a| - 1], b[..|b| - 1];
            && Validate(H, a', None).Ok? && Validate(H, b', None).Ok? && Tip(a') == Tip(b')
            && PrevsAreDigests(a') && PrevsAreDigests(b')
            && !Collision(H, a', b') && !HitsZero(a') && !HitsZero(b')
  {
    var a', b' := a[..|a| - 1], b[..|b| - 1];
    BlockInChain(H, a, |a| - 1);
    BlockInChain(H, b, |b| - 1);
    assert forall i :: 0 <= i < |a'| ==> a'[i] == a[i];
    assert forall i :: 0 <= i < |b'| ==> b'[i] == b[i];
  }

  lemma LoneBlockIsAnchor(H: Hasher, a: seq<Block>, b: seq<Block>)
    requires Validate(H, a, None).Ok? && Validate(H, b, None).Ok? && |a| == 1 < |b|
    requires a[0].prev == b[|b| - 1].prev && !HitsZero(b)
    ensures a[0].payload.Anchor?
  {
    BlockInChain(H, a, 0);
    BlockInChain(H, b, |b| - 1);
    assert b[|b| - 2].hash != Zero();
  }

  lemma UnrotatedPrevsAreDigests(H: Hasher, log: seq<Block>)
    requires (forall x :: |H(x)| == 64) && Unrotated(H, log)
    ensures PrevsAreDigests(log)
  {
    forall i | 0 <= i < |log| ensures |log[i].prev| == 64 {
      BlockInChain(H, log, i);
      if i > 0 { BlockInChain(H, log, i - 1); }
    }
  }

  lemma SplitTail(a: string, p: string, b: string, q: string)
    requires a + p == b + q && |p| == |q|
    ensures a == b && p == q
  {
    assert |a| == |b|;
    assert a == (a + p)[..|a|] && b == (b + q)[..|b|];
    assert p == (a + p)[|a|..] && q == (b + q)[|b|..];
  }

  lemma CollisionIsMutual(H: Hasher, a: seq<Block>, b: seq<Block>)
    ensures Collision(H, b, a) ==> Collision(H, a, b)
  {
    if Collision(H, b, a) {
      var j, i :| 0 <= j < |b| && 0 <= i < |a| && HashText(b[j]) != HashText(a[i])
                  && H(HashText(b[j])) == H(HashText(a[i]));
      assert H(HashText(a[i])) == H(HashText(b[j]));
    }
  }

  /** Two unrotated logs with the same tip tell the same history, unless the hash collides on
      their texts or produced the all-zero digest. */
  lemma EqualTipsMeanEqualHistory(H: Hasher, a: seq<Block>, b: seq<Block>)
    requires forall x :: |H(x)| == 64
    requires Unrotated(H, a) && Unrotated(H, b) && Tip(a) == Tip(b)
    requires !Collision(H, a, b) && !HitsZero(a) && !HitsZero(b)
    ensures SameHistory(a, b)
  {
    UnrotatedPrevsAreDigests(H, a);
    UnrotatedPrevsAreDigests(H, b);
    CollisionIsMutual(H, a, b);
    if |a| <= |b| { EqualTipsShareHistory(H, a, b); } else { EqualTipsShareHistory(H, b, a); }
  }

  /** Cut before any anchor, a valid log validates from genesis and keeps its tip. */
  lemma CutAtAnchorValidates(H: Hasher, log: seq<Block>, k: nat)
    requires Validate(H, log, None).Ok? && k < |log| && log[k].payload.Anchor?
    ensures Validate(H, log[k..], None) == Validate(H, log, None) == Ok(Some(Tip(log)))
  {
    assert log == log[..k] + log[k..];
    PrefixValidates(H, log, k);
    ValidateAppend(H, log[..k], log[k..], None);
    AnchoredFileStandsAlone(H, log[k..], Validate(H, log[..k], None).value);
    ValidatedTip(H, log, None);
  }

  lemma {:induction false} PrefixValidates(H: Hasher, log: seq<Block>, k: nat)
    requires Validate(H, log, None).Ok? && k <= |log|
    ensures Validate(H, log[..k], None).Ok?
    decreases |log|
  {
    if k == |log| {
      assert log[..k] == log;
    } else {
      assert log[..|log| - 1][..k] == log[..k];
      PrefixValidates(H, log[..|log| - 1], k);
    }
  }

  /** So the first block matters: a file that begins with an anchor passes from genesis too, and
      ends in the same hash as the longer log it was cut from. */
  lemma AnchorFirstHidesHistory(H: Hasher, stamp: string, payload: Payload, anchorStamp: string)
    requires payload.Data?
    ensures var g := Seal(H, stamp, payload, Zero());
            var k := Seal(H, anchorStamp, Anchor, g.hash);
            Validate(H, [g, k], None) == Validate(H, [k], None) == Ok(Some(k.hash))
  {
    var g := Seal(H, stamp, payload, Zero());
    var k := Seal(H, anchorStamp, Anchor, g.hash);
    assert [g, k][..1] == [g] && [g][..0] == [];
    assert Validate(H, [g], None) == Ok(Some(g.hash));
    assert Validate(H, [g, k], None) == Ok(Some(k.hash));
    CutAtAnchorValidates(H, [g, k], 1);
    assert [g, k][1..] == [k];
  }

  // ----- catching up -----------------------------------------------------------------------

  lemma {:induction false} WithoutAnchorsAppend(a: seq<Block>, b: seq<Block>)
    ensures WithoutAnchors(a + b) == WithoutAnchors(a) + WithoutAnchors(b)
    decreases |b|
  {
    if b == [] {
      assert a + b == a;
    } else {
      assert (a + b)[..|a + b| - 1] == a + b[..|b| - 1];
      WithoutAnchorsAppend(a, b[..|b| - 1]);
    }
  }

  ghost predicate HasAnchor(log: seq<Block>) { exists i :: 0 <= i < |log| && log[i].payload.Anchor? }

  lemma {:induction false} WithoutAnchorsLength(log: seq<Block>)
    ensures HasAnchor(log) ==> |WithoutAnchors(log)| < |log|
    ensures !HasAnchor(log) ==> WithoutAnchors(log) == log
    ensures |WithoutAnchors(log)| <= |log|
    decreases |log|
  {
    if log != [] {
      var init := log[..|log| - 1];
      WithoutAnchorsLength(init);
      assert log == init + [log[|log| - 1]];
      if HasAnchor(log) && !log[|log| - 1].payload.Anchor? {
        var i :| 0 <= i < |log| && log[i].payload.Anchor?;
        assert init[i].payload.Anchor?;
      }
      assert HasAnchor(init) ==> HasAnchor(log) by {
        if HasAnchor(init) {
          var i :| 0 <= i < |init| && init[i].payload.Anchor?;
          assert log[i].payload.Anchor?;
        }
      }
    }
  }

  lemma {:induction false} SuffixIsLinked(H: Hasher, log: seq<Block>, n: nat)
    requires Validate(H, log, None).Ok? && n <= |log|
    requires n == 0 && log != [] ==> !log[0].payload.Anchor?
    ensures Linked(H, Tip(log[..n]), log[n..])
    decreases |log| - n
  {
    forall i | 0 <= i < |log| - n
      ensures LinkedAt(H, Tip(log[..n]), log[n..], i)
    {
      BlockInChain(H, log, n + i);
    }
  }

  lemma {:induction false} BlockInChain(H: Hasher, log: seq<Block>, k: nat)
    requires Validate(H, log, None).Ok? && k < |log|
    ensures log[k].hash == H(HashText(log[k]))
    ensures k > 0 ==> log[k].prev == log[k - 1].hash
    ensures k == 0 && !log[0].payload.Anchor? ==> log[0].prev == Zero()
    decreases |log|
  {
    var init := log[..|log| - 1];
    if k < |log| - 1 {
      BlockInChain(H, init, k);
    } else if init != [] {
      ValidatedTip(H, init, None);
    }
  }

  /** An unrotated store holding a log. */
  function Holding(log: seq<Block>): Store {
    Store(None, if log == [] then None else Some(log), Tip(log),
          if log == [] then None else Some(Checkpoint(|WithoutAnchors(log)|, Tip(log))))
  }

  /** The follower's log after it holds the first n blocks of the leader's, asks for the blocks
      above its height and applies them. */
  function CaughtUp(H: Hasher, leader: seq<Block>, n: nat): seq<Block>
    requires n <= |leader|
  {
    var follower := Holding(leader[..n]);
    Blocks(ApplyDelta(H, follower, DeltaFrom(Holding(leader), Height(follower))).active)
  }

  /** A follower whose log is a prefix of the leader's catches up completely exactly when no
      missing block carries the anchor payload, which `blocks_from_height` never exports. */
  lemma CatchUp(H: Hasher, leader: seq<Block>, n: nat)
    requires Validate(H, leader, None).Ok? && n <= |leader|
    ensures CaughtUp(H, leader, n) == leader <==> !HasAnchor(leader[n..])
  {
    DeltaIsTheMissingPart(leader, n);
    AppliedBlocks(H, leader[..n], WithoutAnchors(leader[n..]));
    ExtendedBy(H, leader, n);
  }

  lemma ExtendedBy(H: Hasher, leader: seq<Block>, n: nat)
    requires Validate(H, leader, None).Ok? && n <= |leader|
    ensures var delta := WithoutAnchors(leader[n..]);
            (if Linked(H, Tip(leader[..n]), delta) then leader[..n] + delta else leader[..n]) == leader
            <==> !HasAnchor(leader[n..])
  {
    var mine, missing := leader[..n], leader[n..];
    WithoutAnchorsLength(missing);
    assert leader == mine + missing;
    if !HasAnchor(missing) {
      WholeIsLinked(H, leader, n);
    } else {
      assert |mine| + |WithoutAnchors(missing)| < |leader|;
    }
  }

  lemma WholeIsLinked(H: Hasher, leader: seq<Block>, n: nat)
    requires Validate(H, leader, None).Ok? && n <= |leader| && !HasAnchor(leader[n..])
    ensures Linked(H, Tip(leader[..n]), leader[n..])
  {
    if n == 0 && leader != [] { assert leader[n..][0] == leader[0]; }
    SuffixIsLinked(H, leader, n);
  }

  /** What applying a delta to an unrotated store leaves in its active file. */
  lemma AppliedBlocks(H: Hasher, mine: seq<Block>, delta: seq<Block>)
    ensures Blocks(ApplyDelta(H, Holding(mine), delta).active)
            == if Linked(H, Tip(mine), delta) then mine + delta else mine
  {
    assert mine + [] == mine;
  }

  lemma DeltaIsTheMissingPart(leader: seq<Block>, n: nat)
    requires n <= |leader|
    ensures DeltaFrom(Holding(leader), Height(Holding(leader[..n]))) == WithoutAnchors(leader[n..])
  {
    assert leader == leader[..n] + leader[n..];
    WithoutAnchorsAppend(leader[..n], leader[n..]);
    assert Countable(Holding(leader[..n])) == WithoutAnchors(leader[..n]);
    assert Countable(Holding(leader)) == WithoutAnchors(leader);
  }

  /** A non-empty delta that does not extend the tip is refused outright. */
  lemma ForeignDeltaIsRefused(H: Hasher, s: Store, blocks: seq<Block>)
    requires blocks != [] && blocks[0].prev != s.last
    ensures ApplyDelta(H, s, blocks) == s
  {
    assert !LinkedAt(H, s.last, blocks, 0);
  }

  // ----- what validation accepts, block by block ---------------------------------------------

  /** The block at i has its right hash and follows the block before it; the first one follows
      `initial` where there is one, and is otherwise a genesis block or an anchor. */
  ghost predicate Fits(H: Hasher, log: seq<Block>, initial: Option<Digest>, i: nat)
    requires i < |log|
  {
    var b := log[i];
    && RightHash(H, b)
    && (i > 0 ==> b.prev == log[i - 1].hash)
    && (i == 0 && initial.Some? ==> b.prev == initial.value)
    && (i == 0 && initial.None? ==> b.payload.Anchor? || b.prev == seq(64, i => '0'))
  }

  ghost predicate RightHash(H: Hasher, b: Block) {
    b.hash == H(b.stamp + (if b.payload.Anchor? then "ROTATION_ANCHOR" else b.payload.text) + b.prev)
  }

  /** Validation passes exactly the files whose blocks all fit, and answers their last hash. */
  lemma {:induction false} ValidatesExactlyWhen(H: Hasher, log: seq<Block>, initial: Option<Digest>)
    ensures Validate(H, log, initial).Ok? <==> forall i :: 0 <= i < |log| ==> Fits(H, log, initial, i)
    ensures Validate(H, log, initial).Ok?
            ==> Validate(H, log, initial).value == if log == [] then initial else Some(log[|log| - 1].hash)
    decreases |log|
  {
    if log != [] {
      var init, n := log[..|log| - 1], |log| - 1;
      ValidatesExactlyWhen(H, init, initial);
      assert Validate(H, init, initial).Ok? ==>
             (Validate(H, log, initial).Ok? <==> Fits(H, log, initial, n));
      assert forall i :: 0 <= i < n ==> (Fits(H, log, initial, i) <==> Fits(H, init, initial, i));
    }
  }

  /** Otherwise the error is that of the first block that does not fit. */
  lemma {:induction false} FirstMisfitNamesTheError(H: Hasher, log: seq<Block>, initial: Option<Digest>, i: nat)
    requires i < |log| && !Fits(H, log, initial, i)
    requires forall j :: 0 <= j < i ==> Fits(H, log, initial, j)
    ensures Validate(H, log, initial) == Err(
              if !RightHash(H, log[i]) then BadHash
              else if i == 0 && initial.None? then BadGenesis
              else Broken)
    decreases |log|
  {
    var init, n := log[..|log| - 1], |log| - 1;
    assert forall j :: 0 <= j < n ==> (Fits(H, log, initial, j) <==> Fits(H, init, initial, j));
    if i < n {
      FirstMisfitNamesTheError(H, init, initial, i);
    } else {
      ValidatesExactlyWhen(H, init, initial);
    }
  }

  // ----- what was appended is what is read ---------------------------------------------------

  ghost predicate OnlyAppends(ops: seq<Op>) { forall i :: 0 <= i < |ops| ==> ops[i].AppendOp? }

  ghost predicate NeverRotates(ops: seq<Op>) { forall i :: 0 <= i < |ops| ==> ops[i].AppendOp? && !ops[i].full }

  /** The log holds `before` and then one block for each append, with its stamp and payload. */
  ghost predicate HoldsAppended(log: seq<Block>, before: seq<Block>, ops: seq<Op>)
    requires OnlyAppends(ops)
  {
    && |log| == |before| + |ops|
    && (forall i :: 0 <= i < |before| ==> log[i] == before[i])
    && (forall i :: 0 <= i < |ops| ==>
          log[|before| + i].payload == ops[i].payload && log[|before| + i].stamp == ops[i].stamp)
  }

  lemma FirstAppend(H: Hasher, s: Store, op: Op)
    requires op.AppendOp? && !op.full
    ensures var s1 := Perform(H, s, op);
            && s1.rotated == s.rotated
            && Blocks(s1.active) == Blocks(s.active) + [Seal(H, op.stamp, op.payload, s.last)]
  {
  }

  lemma HoldsOneMore(log: seq<Block>, before: seq<Block>, b: Block, ops: seq<Op>)
    requires NeverRotates(ops) && ops != [] && HoldsAppended(log, before + [b], ops[1..])
    requires b.stamp == ops[0].stamp && b.payload == ops[0].payload
    ensures HoldsAppended(log, before, ops)
  {
    assert log[|before|] == (before + [b])[|before|];
    forall i | 0 <= i < |ops|
      ensures log[|before| + i].payload == ops[i].payload && log[|before| + i].stamp == ops[i].stamp
    {
      if i > 0 { assert ops[1..][i - 1] == ops[i]; }
    }
  }

  /** Without rotation the active file grows by exactly the blocks appended, in order, and nothing
      is lost. */
  lemma {:induction false} AppendedIsKept(H: Hasher, s: Store, ops: seq<Op>)
    requires NeverRotates(ops)
    ensures HoldsAppended(Blocks(After(H, s, ops).active), Blocks(s.active), ops)
    ensures After(H, s, ops).rotated == s.rotated
    decreases |ops|
  {
    if ops != [] {
      FirstAppend(H, s, ops[0]);
      var b := Seal(H, ops[0].stamp, ops[0].payload, s.last);
      AppendedIsKept(H, Perform(H, s, ops[0]), ops[1..]);
      HoldsOneMore(Blocks(After(H, s, ops).active), Blocks(s.active), b, ops);
    }
  }

  lemma CountableGrows(s: Store, s': Store, written: seq<Block>)
    requires s'.rotated == s.rotated && Blocks(s'.active) == Blocks(s.active) + written
    ensures Countable(s') == Countable(s) + WithoutAnchors(written)
  {
    WithoutAnchorsAppend(Blocks(s.active), written);
    var r, x, y := WithoutAnchors(Blocks(s.rotated)), WithoutAnchors(Blocks(s.active)), WithoutAnchors(written);
    assert r + (x + y) == (r + x) + y;
  }

  lemma AddedIsCounted(s: Store, s': Store, written: seq<Block>)
    requires s'.rotated == s.rotated && Blocks(s'.active) == Blocks(s.active) + written && !HasAnchor(written)
    ensures DeltaFrom(s', Height(s)) == written
  {
    CountableGrows(s, s', written);
    WithoutAnchorsLength(written);
  }

  /** A reader that asks from the height before them gets back the transactions appended. */
  lemma AppendedIsReadBack(H: Hasher, s: Store, ops: seq<Op>)
    requires NeverRotates(ops) && forall i :: 0 <= i < |ops| ==> ops[i].payload.Data?
    ensures HoldsAppended(DeltaFrom(After(H, s, ops), Height(s)), [], ops)
  {
    AppendedIsKept(H, s, ops);
    var s', before := After(H, s, ops), Blocks(s.active);
    var log := Blocks(s'.active);
    var written := log[|before|..];
    assert log == before + written;
    forall i | 0 <= i < |written| ensures written[i].payload == ops[i].payload && written[i].stamp == ops[i].stamp {
      assert written[i] == log[|before| + i];
    }
    AddedIsCounted(s, s', written);
  }

  /** Stamp and payload of the blocks that are not anchors, over both files. */
  function Readable(s: Store): seq<(string, Payload)> {
    seq(|Countable(s)|, i requires 0 <= i < |Countable(s)| => (Countable(s)[i].stamp, Countable(s)[i].payload))
  }

  ghost function Given(ops: seq<Op>): (g: seq<(string, Payload)>)
    requires OnlyAppends(ops)
    ensures |g| == |ops|
  {
    seq(|ops|, i requires 0 <= i < |ops| => (ops[i].stamp, ops[i].payload))
  }

  ghost predicate IsEndOf<T>(part: seq<T>, whole: seq<T>) { |part| <= |whole| && part == whole[|whole| - |part|..] }

  lemma EndsChain<T>(x: seq<T>, y: seq<T>, z: seq<T>, tail: seq<T>)
    requires IsEndOf(x, y + tail) && IsEndOf(y, z)
    ensures IsEndOf(x, z + tail)
  {
    var cut := |z| - |y|;
    assert (z + tail)[cut..] == y + tail;
    assert (z + tail)[cut..][|y + tail| - |x|..] == (z + tail)[|z + tail| - |x|..];
  }

  lemma EndOfCountable(s: Store, s': Store)
    requires IsEndOf(Countable(s'), Countable(s))
    ensures IsEndOf(Readable(s'), Readable(s))
  {
    var skip := |Countable(s)| - |Countable(s')|;
    assert forall i :: 0 <= i < |Countable(s')| ==> Countable(s)[skip + i] == Countable(s')[i];
  }

  lemma RotationReads(H: Hasher, s: Store, anchorStamp: string)
    ensures IsEndOf(Readable(Rotate(H, s, anchorStamp)), Readable(s))
  {
    var s1 := Rotate(H, s, anchorStamp);
    var anchored := [Seal(H, anchorStamp, Anchor, s.last)];
    assert anchored[..0] == [] && WithoutAnchors(anchored) == [];
    assert Countable(s1) == WithoutAnchors(Blocks(s.active));
    assert Countable(s) == WithoutAnchors(Blocks(s.rotated)) + Countable(s1);
    EndOfCountable(s, s1);
  }

  lemma BlockReads(H: Hasher, s: Store, stamp: string, payload: Payload)
    requires payload.Data?
    ensures Readable(AppendBlock(H, s, stamp, payload)) == Readable(s) + [(stamp, payload)]
  {
    var b, s' := Seal(H, stamp, payload, s.last), AppendBlock(H, s, stamp, payload);
    CountableGrows(s, s', [b]);
    WithoutAnchorsLength([b]);
    OneMoreReads(s, s', b);
  }

  lemma OneMoreReads(s: Store, s': Store, b: Block)
    requires Countable(s') == Countable(s) + [b]
    ensures Readable(s') == Readable(s) + [(b.stamp, b.payload)]
  {
  }

  lemma OneAppendReads(H: Hasher, s: Store, full: bool, anchorStamp: string, stamp: string, payload: Payload)
    requires payload.Data?
    ensures var s' := Append(H, s, full, anchorStamp, stamp, payload);
            IsEndOf(Readable(s'), Readable(s) + [(stamp, payload)]) && |Readable(s')| > 0
  {
    var s1 := if full && s.active.Some? then Rotate(H, s, anchorStamp) else s;
    RotationReads(H, s, anchorStamp);
    assert IsEndOf(Readable(s), Readable(s));
    BlockReads(H, s1, stamp, payload);
    EndsChain(Readable(s1) + [(stamp, payload)], Readable(s1), Readable(s), [(stamp, payload)]);
  }

  lemma GivenInTurn(ops: seq<Op>)
    requires OnlyAppends(ops) && ops != []
    ensures Given(ops) == [(ops[0].stamp, ops[0].payload)] + Given(ops[1..])
  {
  }

  lemma ReadOneMore(
    read: seq<(string, Payload)>, next: seq<(string, Payload)>, before: seq<(string, Payload)>, ops: seq<Op>)
    requires OnlyAppends(ops) && ops != [] && IsEndOf(read, next + Given(ops[1..]))
    requires IsEndOf(next, before + [(ops[0].stamp, ops[0].payload)])
    ensures IsEndOf(read, before + Given(ops))
  {
    GivenInTurn(ops);
    var given, rest := (ops[0].stamp, ops[0].payload), Given(ops[1..]);
    EndsChain(read, next, before + [given], rest);
    assert before + [given] + rest == before + ([given] + rest);
  }

  ghost predicate OnlyData(ops: seq<Op>) { forall i :: 0 <= i < |ops| ==> ops[i].AppendOp? && ops[i].payload.Data? }

  /** With rotations older transactions go, but only from the front: what is read is always the
      newest part of all that was ever written, in order and unchanged, the last one included. */
  lemma {:induction false} NewestAreRead(H: Hasher, s: Store, ops: seq<Op>)
    requires OnlyData(ops)
    ensures IsEndOf(Readable(After(H, s, ops)), Readable(s) + Given(ops))
    ensures ops != [] ==> |Readable(After(H, s, ops))| > 0
    decreases |ops|
  {
    if ops == [] {
      assert Readable(s) + Given(ops) == Readable(s);
    } else {
      var op, s1 := ops[0], Perform(H, s, ops[0]);
      OneAppendReads(H, s, op.full, op.anchorStamp, op.stamp, op.payload);
      NewestAreRead(H, s1, ops[1..]);
      ReadOneMore(Readable(After(H, s1, ops[1..])), Readable(s1), Readable(s), ops);
    }
  }

  /** The positions that count for the height. */
  function Counted(log: seq<Block>): set<nat> { set i: nat | i < |log| && !log[i].payload.Anchor? }

  lemma {:induction false} HeightCountsPositions(log: seq<Block>)
    ensures |WithoutAnchors(log)| == |Counted(log)|
    decreases |log|
  {
    if log != [] {
      var init, n := log[..|log| - 1], |log| - 1;
      HeightCountsPositions(init);
      assert Counted(log) == Counted(init) + if log[n].payload.Anchor? then {} else {n};
    }
  }

  ghost predicate AllFit(H: Hasher, log: seq<Block>) { forall i :: 0 <= i < |log| ==> Fits(H, log, None, i) }

  lemma TwoFiles(H: Hasher, a: seq<Block>, b: seq<Block>)
    ensures AllFit(H, a + b) <==>
            Validate(H, a, None).Ok? && Validate(H, b, Validate(H, a, None).value).Ok?
    ensures AllFit(H, a + b) ==>
            Validate(H, b, Validate(H, a, None).value) ==
            Ok(if a + b == [] then None else Some((a + b)[|a + b| - 1].hash))
  {
    ValidatesExactlyWhen(H, a, None);
    ValidatesExactlyWhen(H, a + b, None);
    assert forall i :: 0 <= i < |a| ==> (Fits(H, a + b, None, i) <==> Fits(H, a, None, i));
    if Validate(H, a, None).Ok? { ValidateAppend(H, a, b, None); }
  }

  /** `validate_chain` passes exactly when the two files together are one chain from genesis, or
      from an anchor, and the checkpoint, where there is one, counts and ends what they hold. */
  lemma ChainIsValidExactlyWhen(H: Hasher, s: Store)
    ensures var log := Blocks(s.rotated) + Blocks(s.active);
            var tip := if log == [] then seq(64, i => '0') else log[|log| - 1].hash;
            var height := |Counted(Blocks(s.rotated))| + |Counted(Blocks(s.active))|;
            && (ValidateChain(H, s).Ok? <==>
                AllFit(H, log) && (s.checkpoint.Some? ==> s.checkpoint.value == Checkpoint(height, tip)))
            && (ValidateChain(H, s).Ok? ==> ValidateChain(H, s).value == tip)
            && (ValidateChain(H, s) == Err(BadCheckpoint) <==>
                AllFit(H, log) && s.checkpoint.Some? && s.checkpoint.value != Checkpoint(height, tip))
  {
    TwoFiles(H, Blocks(s.rotated), Blocks(s.active));
    HeightCountsPositions(Blocks(s.rotated));
    HeightCountsPositions(Blocks(s.active));
    NeverBadCheckpoint(H, Blocks(s.rotated), None);
    if Validate(H, Blocks(s.rotated), None).Ok? {
      NeverBadCheckpoint(H, Blocks(s.active), Validate(H, Blocks(s.rotated), None).value);
    }
  }

  lemma {:induction false} NeverBadCheckpoint(H: Hasher, log: seq<Block>, initial: Option<Digest>)
    ensures Validate(H, log, initial) != Err(BadCheckpoint)
    decreases |log|
  {
    if log != [] { NeverBadCheckpoint(H, log[..|log| - 1], initial); }
  }
}
