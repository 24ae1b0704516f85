/** The token-bucket limiter (rate_limiter.py), over real-valued time. */
module TokenBucket {

  /** `f` gives the tokens regenerated in an elapsed time. */
  function Linear(rate: real): real -> real { (elapsed: real) => elapsed * rate }

  datatype Bucket = Bucket(capacity: real, tokens: real, last: real)

  datatype Call = Call(now: real, requested: real)

  /** The level once the time since the last call is credited. */
  function Level(f: real -> real, b: Bucket, now: real): real {
    var credited := b.tokens + f(now - b.last);
    if credited < b.capacity then credited else b.capacity
  }

  function Step(f: real -> real, b: Bucket, c: Call): (Bucket, bool) {
    var level := Level(f, b, c.now);
    if level >= c.requested then (Bucket(b.capacity, level - c.requested, c.now), true)
    else (Bucket(b.capacity, level, c.now), false)
  }

  class TokenBucketLimiter {
    const capacity: real
    const rate: real
    var tokens: real
    var last: real

    function View(): Bucket
      reads this
    {
      Bucket(capacity, tokens, last)
    }

    constructor (capacity: real, rate: real, now: real)
      ensures this.capacity == capacity && this.rate == rate && View() == Bucket(capacity, capacity, now)
    {
      this.capacity, this.rate, tokens, last := capacity, rate, capacity, now;
    }

    method Consume(now: real, requested: real) returns (granted: bool)
      modifies this
      ensures (View(), granted) == Step(Linear(rate), old(View()), Call(now, requested))
    {
      var elapsed := now - last;
      last := now;
      assert Linear(rate)(elapsed) == elapsed * rate;
      tokens := tokens + elapsed * rate;
      if tokens > capacity { tokens := capacity; }
      if tokens >= requested {
        tokens := tokens - requested;
        return true;
      }
      return false;
    }
  }

  // ----- whole runs ----------------------------------------------------------------------------

  function After(f: real -> real, b: Bucket, run: seq<Call>): Bucket {
    if run == [] then b else Step(f, After(f, b, run[..|run| - 1]), run[|run| - 1]).0
  }

  predicate Granted(f: real -> real, b: Bucket, run: seq<Call>, k: nat)
    requires k < |run|
  {
    Step(f, After(f, b, run[..k]), run[k]).1
  }

  /** The tokens granted by the calls i .. k-1. */
  function GrantedBetween(f: real -> real, b: Bucket, run: seq<Call>, i: nat, k: nat): real
    requires i <= k <= |run|
    decreases k
  {
    if i == k then 0.0
    else GrantedBetween(f, b, run, i, k - 1) + if Granted(f, b, run, k - 1) then run[k - 1].requested else 0.0
  }

  /** Requests are not negative and the clock does not go back. */
  ghost predicate Proper(b: Bucket, run: seq<Call>) {
    && (forall i :: 0 <= i < |run| ==> run[i].requested >= 0.0 && b.last <= run[i].now)
    && forall i, j :: 0 <= i <= j < |run| ==> run[i].now <= run[j].now
  }

  ghost predicate Adds(f: real -> real, x: real, y: real) { f(x) + f(y) == f(x + y) }

  /** Credits add up over time and are never negative. */
  ghost predicate Credits(f: real -> real) {
    && (forall x, y :: Adds(f, x, y))
    && forall x :: x >= 0.0 ==> f(x) >= 0.0
  }

  lemma LinearCredits(rate: real)
    requires rate >= 0.0
    ensures Credits(Linear(rate))
  {
    var f := Linear(rate);
    forall x: real | x >= 0.0 ensures f(x) >= 0.0 { ProductNotNegative(x, rate); }
    forall x: real, y: real ensures Adds(f, x, y) { Distributes(x, y, rate); }
  }

  lemma ProductNotNegative(x: real, y: real)
    requires x >= 0.0 && y >= 0.0
    ensures x * y >= 0.0
  {
  }

  lemma Distributes(x: real, y: real, rate: real)
    ensures x * rate + y * rate == (x + y) * rate
  {
  }

  lemma {:induction false} LastIsLatest(f: real -> real, b: Bucket, run: seq<Call>, k: nat)
    requires k <= |run|
    ensures After(f, b, run[..k]).capacity == b.capacity
    ensures After(f, b, run[..k]).last == if k == 0 then b.last else run[k - 1].now
  {
    if k > 0 {
      assert run[..k][..k - 1] == run[..k - 1];
      LastIsLatest(f, b, run, k - 1);
    }
  }

  /** The stored tokens stay between 0 and the capacity. */
  lemma {:induction false} TokensStayBounded(f: real -> real, b: Bucket, run: seq<Call>, k: nat)
    requires Credits(f) && Proper(b, run) && 0.0 <= b.tokens <= b.capacity && k <= |run|
    ensures 0.0 <= After(f, b, run[..k]).tokens <= b.capacity
  {
    if k > 0 {
      assert run[..k][..k - 1] == run[..k - 1];
      TokensStayBounded(f, b, run, k - 1);
      LastIsLatest(f, b, run, k - 1);
    }
  }

  /** The room the window from call i leaves at call k, before k is decided. */
  ghost function Room(f: real -> real, b: Bucket, run: seq<Call>, i: nat, k: nat): real
    requires i <= k < |run|
  {
    b.capacity + f(run[k].now - run[i].now) - GrantedBetween(f, b, run, i, k)
  }

  lemma RoomGrows(f: real -> real, b: Bucket, run: seq<Call>, i: nat, k: nat)
    requires Credits(f) && i < k < |run|
    ensures Room(f, b, run, i, k) == Room(f, b, run, i, k - 1) + f(run[k].now - run[k - 1].now)
                                     - if Granted(f, b, run, k - 1) then run[k - 1].requested else 0.0
  {
    assert Adds(f, run[k - 1].now - run[i].now, run[k].now - run[k - 1].now);
  }

  lemma StepLeaves(f: real -> real, b: Bucket, c: Call)
    ensures var level, after := Level(f, b, c.now), Step(f, b, c);
            after.0 == Bucket(b.capacity, if after.1 then level - c.requested else level, c.now)
  {
  }

  /** The level before call k, from the level before the call ahead of it. */
  lemma LevelGrows(f: real -> real, b: Bucket, run: seq<Call>, k: nat)
    requires 0 < k < |run|
    ensures var before := Level(f, After(f, b, run[..k - 1]), run[k - 1].now);
            var left := if Granted(f, b, run, k - 1) then before - run[k - 1].requested else before;
            var credited := left + f(run[k].now - run[k - 1].now);
            Level(f, After(f, b, run[..k]), run[k].now) == if credited < b.capacity then credited else b.capacity
  {
    assert run[..k][..k - 1] == run[..k - 1];
    LastIsLatest(f, b, run, k - 1);
    StepLeaves(f, After(f, b, run[..k - 1]), run[k - 1]);
  }

  lemma ZeroCredit(f: real -> real)
    requires Credits(f)
    ensures f(0.0) == 0.0
  {
    assert Adds(f, 0.0, 0.0);
  }

  lemma {:induction false} LevelWithinRoom(f: real -> real, b: Bucket, run: seq<Call>, i: nat, k: nat)
    requires Credits(f) && i <= k < |run|
    ensures Level(f, After(f, b, run[..k]), run[k].now) <= Room(f, b, run, i, k)
  {
    if i < k {
      LevelWithinRoom(f, b, run, i, k - 1);
      LevelGrows(f, b, run, k);
      RoomGrows(f, b, run, i, k);
    } else {
      ZeroCredit(f);
      LastIsLatest(f, b, run, k);
    }
  }

  /** From a full bucket, the level is the room of some window. */
  lemma {:induction false} LevelIsSomeRoom(f: real -> real, b: Bucket, run: seq<Call>, k: nat) returns (i: nat)
    requires Credits(f) && Proper(b, run) && b.tokens == b.capacity && k < |run|
    ensures i <= k && Level(f, After(f, b, run[..k]), run[k].now) == Room(f, b, run, i, k)
  {
    ZeroCredit(f);
    LastIsLatest(f, b, run, k);
    if k == 0 {
      assert f(run[0].now - b.last) >= 0.0;
      i := 0;
    } else if Level(f, After(f, b, run[..k]), run[k].now) == b.capacity {
      i := k;
    } else {
      i := LevelIsSomeRoom(f, b, run, k - 1);
      LevelGrows(f, b, run, k);
      RoomGrows(f, b, run, i, k);
    }
  }

  lemma WindowRoom(f: real -> real, b: Bucket, run: seq<Call>, i: nat, k: nat)
    requires Credits(f) && Proper(b, run) && 0.0 <= b.tokens <= b.capacity && i <= k < |run|
    ensures GrantedBetween(f, b, run, i, k + 1) <= b.capacity + f(run[k].now - run[i].now)
  {
    LevelWithinRoom(f, b, run, i, k);
    TokensStayBounded(f, b, run, k + 1);
    assert run[..k + 1][..k] == run[..k];
  }

  lemma GrantsExactlyWithinRoom(f: real -> real, b: Bucket, run: seq<Call>, k: nat)
    requires Credits(f) && Proper(b, run) && b.tokens == b.capacity && k < |run|
    ensures Granted(f, b, run, k) <==>
            forall i: nat :: i <= k ==> run[k].requested <= Room(f, b, run, i, k)
  {
    var level := Level(f, After(f, b, run[..k]), run[k].now);
    assert Granted(f, b, run, k) <==> level >= run[k].requested;
    forall i: nat | i <= k ensures level <= Room(f, b, run, i, k) { LevelWithinRoom(f, b, run, i, k); }
    var i := LevelIsSomeRoom(f, b, run, k);
  }

  /** The calls i .. k are granted at most capacity + rate * elapsed, whatever came before. */
  lemma WindowBound(rate: real, b: Bucket, run: seq<Call>, i: nat, k: nat)
    requires rate >= 0.0 && Proper(b, run) && 0.0 <= b.tokens <= b.capacity && i <= k < |run|
    ensures GrantedBetween(Linear(rate), b, run, i, k + 1) <= b.capacity + Linear(rate)(run[k].now - run[i].now)
  {
    LinearCredits(rate);
    WindowRoom(Linear(rate), b, run, i, k);
  }

  /** A limiter that began full grants a request exactly when no window that ends with it would
      then hold more than capacity + rate * elapsed. */
  lemma GrantsExactlyWithinEveryWindow(rate: real, b: Bucket, run: seq<Call>, k: nat)
    requires rate >= 0.0 && Proper(b, run) && b.tokens == b.capacity && k < |run|
    ensures Granted(Linear(rate), b, run, k) <==>
            forall i: nat :: i <= k ==> run[k].requested <= Room(Linear(rate), b, run, i, k)
  {
    LinearCredits(rate);
    GrantsExactlyWithinRoom(Linear(rate), b, run, k);
  }
}
