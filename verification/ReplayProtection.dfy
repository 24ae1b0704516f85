/** Envelope verification and its purging replay cache (nexus_protocol.py), compared with a
    cache that never forgets. The HMAC check is a parameter. */
module ReplayProtection {
  import opened Basics

  /** `complete` says no required field is missing; `timestamp` is None when it is not a number. */
  datatype Envelope = Envelope(
    complete: bool, version: int, messageId: string, sender: string, nonce: string,
    timestamp: Option<real>, body: string, signature: string)

  datatype Decision =
    | MissingFields | BadVersion | BadTtl | BadTimestamp | Expired | FromTheFuture
    | MessageReplay | NonceReplay | BadSignature | Accepted

  const VERSION := 1

  type Nonce = (string, string)

  datatype Cache = Cache(messages: map<string, real>, nonces: map<Nonce, real>)

  const EMPTY := Cache(map[], map[])

  function MessageOf(e: Envelope): string { e.messageId }
  function NonceOf(e: Envelope): Nonce { (e.sender, e.nonce) }

  predicate Stale(stamp: real, now: real, ttl: real) { now - stamp > ttl }

  function Unexpired<K>(m: map<K, real>, now: real, ttl: real): map<K, real> {
    map k | k in m && !Stale(m[k], now, ttl) :: m[k]
  }

  function Purge(c: Cache, now: real, ttl: real): Cache {
    Cache(Unexpired(c.messages, now, ttl), Unexpired(c.nonces, now, ttl))
  }

  function Add(c: Cache, e: Envelope): Cache
    requires e.timestamp.Some?
  {
    Cache(c.messages[MessageOf(e) := e.timestamp.value], c.nonces[NonceOf(e) := e.timestamp.value])
  }

  /** The checks before the cache is consulted; None means the envelope is in its window. */
  function Precheck(e: Envelope, now: real, ttl: real): Option<Decision> {
    if !e.complete then Some(MissingFields)
    else if e.version != VERSION then Some(BadVersion)
    else if ttl <= 0.0 then Some(BadTtl)
    else if e.timestamp.None? then Some(BadTimestamp)
    else if now - e.timestamp.value > ttl then Some(Expired)
    else if e.timestamp.value - now > ttl then Some(FromTheFuture)
    else None
  }

  type Authenticator = Envelope -> bool

  /** `verify_envelope`. */
  function Verify(c: Cache, e: Envelope, now: real, ttl: real, authentic: Authenticator): (Cache, Decision) {
    var early := Precheck(e, now, ttl);
    if early.Some? then (c, early.value)
    else
      var p := Purge(c, now, ttl);
      if MessageOf(e) in p.messages then (p, MessageReplay)
      else if NonceOf(e) in p.nonces then (p, NonceReplay)
      else if !authentic(e) then (p, BadSignature)
      else (Add(p, e), Accepted)
  }

  // ----- the cache that never forgets ------------------------------------------------------

  /** An accepted envelope is still within its time to live. */
  predicate Lives(a: Envelope, now: real, ttl: real) {
    a.timestamp.Some? && now - a.timestamp.value <= ttl
  }

  /** Some envelope of the log with the same key is alive. */
  ghost predicate Known<K>(log: seq<Envelope>, key: Envelope -> K, k: K, now: real, ttl: real) {
    exists i :: 0 <= i < |log| && key(log[i]) == k && Lives(log[i], now, ttl)
  }

  /** The reference: `log` holds every envelope ever accepted. */
  ghost function Judge(log: seq<Envelope>, e: Envelope, now: real, ttl: real, authentic: Authenticator): Decision {
    var early := Precheck(e, now, ttl);
    if early.Some? then early.value
    else if Known(log, MessageOf, MessageOf(e), now, ttl) then MessageReplay
    else if Known(log, NonceOf, NonceOf(e), now, ttl) then NonceReplay
    else if !authentic(e) then BadSignature
    else Accepted
  }

  function Remember(log: seq<Envelope>, e: Envelope, d: Decision): seq<Envelope> {
    if d == Accepted then log + [e] else log
  }

  /** What is left of the log in a purging dictionary: every living envelope with its own stamp,
      and nothing that was never accepted. */
  ghost predicate Reflects<K>(m: map<K, real>, key: Envelope -> K, log: seq<Envelope>, now: real, ttl: real) {
    && (forall i :: 0 <= i < |log| && Lives(log[i], now, ttl) ==>
          key(log[i]) in m && m[key(log[i])] == log[i].timestamp.value)
    && (forall k :: k in m ==> exists i :: 0 <= i < |log| && key(log[i]) == k && log[i].timestamp == Some(m[k]))
  }

  lemma PurgeReflects<K>(m: map<K, real>, key: Envelope -> K, log: seq<Envelope>, last: real, now: real, ttl: real)
    requires Reflects(m, key, log, last, ttl) && last <= now
    ensures Reflects(m, key, log, now, ttl) && Reflects(Unexpired(m, now, ttl), key, log, now, ttl)
    ensures forall k :: k in Unexpired(m, now, ttl) <==> Known(log, key, k, now, ttl)
  {
    assert forall i :: 0 <= i < |log| && Lives(log[i], now, ttl) ==> Lives(log[i], last, ttl);
    forall k ensures k in Unexpired(m, now, ttl) <==> Known(log, key, k, now, ttl) {
      if k in Unexpired(m, now, ttl) {
        var i :| 0 <= i < |log| && key(log[i]) == k && log[i].timestamp == Some(m[k]);
        assert Lives(log[i], now, ttl);
      }
    }
  }

  lemma AddReflects<K>(m: map<K, real>, key: Envelope -> K, log: seq<Envelope>, e: Envelope, now: real, ttl: real)
    requires Reflects(m, key, log, now, ttl) && e.timestamp.Some? && !Known(log, key, key(e), now, ttl)
    ensures Reflects(m[key(e) := e.timestamp.value], key, log + [e], now, ttl)
  {
    var m', log' := m[key(e) := e.timestamp.value], log + [e];
    forall k | k in m'
      ensures exists i :: 0 <= i < |log'| && key(log'[i]) == k && log'[i].timestamp == Some(m'[k])
    {
      if k == key(e) {
        assert log'[|log|] == e;
      } else {
        var i :| 0 <= i < |log| && key(log[i]) == k && log[i].timestamp == Some(m[k]);
        assert log'[i] == log[i];
      }
    }
  }

  ghost predicate Mirrors(c: Cache, log: seq<Envelope>, now: real, ttl: real) {
    Reflects(c.messages, MessageOf, log, now, ttl) && Reflects(c.nonces, NonceOf, log, now, ttl)
  }

  /** One verification decides like the reference... */
  lemma VerifyDecides(
    c: Cache, log: seq<Envelope>, e: Envelope, last: real, now: real, ttl: real, authentic: Authenticator)
    requires Mirrors(c, log, last, ttl) && last <= now
    ensures Verify(c, e, now, ttl, authentic).1 == Judge(log, e, now, ttl, authentic)
  {
    PurgeMirrors(c, log, e, last, now, ttl);
  }

  /** ... and keeps mirroring it. */
  lemma VerifyKeepsMirroring(
    c: Cache, log: seq<Envelope>, e: Envelope, last: real, now: real, ttl: real, authentic: Authenticator)
    requires Mirrors(c, log, last, ttl) && last <= now
    ensures var (c', d) := Verify(c, e, now, ttl, authentic); Mirrors(c', Remember(log, e, d), now, ttl)
  {
    PurgeMirrors(c, log, e, last, now, ttl);
    if Verify(c, e, now, ttl, authentic).1 == Accepted {
      AddMirrors(Purge(c, now, ttl), log, e, now, ttl);
    }
  }

  lemma PurgeMirrors(c: Cache, log: seq<Envelope>, e: Envelope, last: real, now: real, ttl: real)
    requires Mirrors(c, log, last, ttl) && last <= now
    ensures Mirrors(c, log, now, ttl) && Mirrors(Purge(c, now, ttl), log, now, ttl)
    ensures MessageOf(e) in Purge(c, now, ttl).messages <==> Known(log, MessageOf, MessageOf(e), now, ttl)
    ensures NonceOf(e) in Purge(c, now, ttl).nonces <==> Known(log, NonceOf, NonceOf(e), now, ttl)
  {
    PurgeReflects(c.messages, MessageOf, log, last, now, ttl);
    PurgeReflects(c.nonces, NonceOf, log, last, now, ttl);
  }

  lemma AddMirrors(p: Cache, log: seq<Envelope>, e: Envelope, now: real, ttl: real)
    requires Mirrors(p, log, now, ttl) && e.timestamp.Some?
    requires !Known(log, MessageOf, MessageOf(e), now, ttl) && !Known(log, NonceOf, NonceOf(e), now, ttl)
    ensures Mirrors(Add(p, e), log + [e], now, ttl)
  {
    AddReflects(p.messages, MessageOf, log, e, now, ttl);
    AddReflects(p.nonces, NonceOf, log, e, now, ttl);
  }

  // ----- whole runs -----------------------------------------------------------------------

  datatype Arrival = Arrival(envelope: Envelope, now: real)

  ghost predicate ClockAdvances(calls: seq<Arrival>, from: real)
    decreases |calls|
  {
    calls == [] || (from <= calls[0].now && ClockAdvances(calls[1..], calls[0].now))
  }

  function Decisions(c: Cache, calls: seq<Arrival>, ttl: real, authentic: Authenticator): seq<Decision>
    decreases |calls|
  {
    if calls == [] then []
    else
      var (c', d) := Verify(c, calls[0].envelope, calls[0].now, ttl, authentic);
      [d] + Decisions(c', calls[1..], ttl, authentic)
  }

  ghost function Judgements(log: seq<Envelope>, calls: seq<Arrival>, ttl: real, authentic: Authenticator): seq<Decision>
    decreases |calls|
  {
    if calls == [] then []
    else
      var d := Judge(log, calls[0].envelope, calls[0].now, ttl, authentic);
      [d] + Judgements(Remember(log, calls[0].envelope, d), calls[1..], ttl, authentic)
  }

  /** With one ttl and a clock that never goes back, the purging cache decides every call of
      every run exactly like the cache that never forgets. */
  lemma PurgingForgetsNothingThatMatters(calls: seq<Arrival>, start: real, ttl: real, authentic: Authenticator)
    requires ClockAdvances(calls, start)
    ensures Decisions(EMPTY, calls, ttl, authentic) == Judgements([], calls, ttl, authentic)
  {
    RunsMatch(EMPTY, [], calls, start, ttl, authentic);
  }

  lemma {:induction false} RunsMatch(
    c: Cache, log: seq<Envelope>, calls: seq<Arrival>, last: real, ttl: real, authentic: Authenticator)
    requires Mirrors(c, log, last, ttl) && ClockAdvances(calls, last)
    ensures Decisions(c, calls, ttl, authentic) == Judgements(log, calls, ttl, authentic)
    decreases |calls|
  {
    if calls != [] {
      var e, now := calls[0].envelope, calls[0].now;
      VerifyDecides(c, log, e, last, now, ttl, authentic);
      VerifyKeepsMirroring(c, log, e, last, now, ttl, authentic);
      var (c', d) := Verify(c, e, now, ttl, authentic);
      RunsMatch(c', Remember(log, e, d), calls[1..], now, ttl, authentic);
    }
  }

  /** All required fields, version 1, a positive time to live, and a time stamp no further from now
      than that. */
  ghost predicate InWindow(e: Envelope, now: real, ttl: real) {
    && e.complete && e.version == 1 && ttl > 0.0
    && e.timestamp.Some? && -ttl <= now - e.timestamp.value <= ttl
  }

  /** a has e's message id, or its sender and nonce, and is not out of date. */
  ghost predicate Blocks(a: Envelope, e: Envelope, now: real, ttl: real) {
    && (a.messageId == e.messageId || (a.sender == e.sender && a.nonce == e.nonce))
    && a.timestamp.Some? && now - a.timestamp.value <= ttl
  }

  lemma JudgedAccepted(log: seq<Envelope>, e: Envelope, now: real, ttl: real, authentic: Authenticator)
    ensures Judge(log, e, now, ttl, authentic) == Accepted <==>
            InWindow(e, now, ttl) && authentic(e) && forall i :: 0 <= i < |log| ==> !Blocks(log[i], e, now, ttl)
  {
  }

  /** Each refusal, in the order of the checks. */
  lemma RefusesExactly(c: Cache, e: Envelope, now: real, ttl: real, authentic: Authenticator)
    ensures var d := Verify(c, e, now, ttl, authentic).1;
            && (d == MissingFields <==> !e.complete)
            && (d == BadVersion <==> e.complete && e.version != 1)
            && (d == BadTtl <==> e.complete && e.version == 1 && ttl <= 0.0)
            && (d == BadTimestamp <==> e.complete && e.version == 1 && ttl > 0.0 && e.timestamp.None?)
            && (d == Expired <==> e.complete && e.version == 1 && ttl > 0.0 && e.timestamp.Some?
                                  && now - e.timestamp.value > ttl)
            && (d == FromTheFuture <==> e.complete && e.version == 1 && ttl > 0.0 && e.timestamp.Some?
                                        && e.timestamp.value - now > ttl)
            && (d in {MessageReplay, NonceReplay, BadSignature, Accepted} <==> InWindow(e, now, ttl))
  {
  }

  /** Which replay is reported, and when the signature is looked at. */
  lemma ReplaysExactly(c: Cache, e: Envelope, now: real, ttl: real, authentic: Authenticator)
    requires InWindow(e, now, ttl)
    ensures var d := Verify(c, e, now, ttl, authentic).1;
            var known := e.messageId in c.messages && now - c.messages[e.messageId] <= ttl;
            var used := (e.sender, e.nonce) in c.nonces && now - c.nonces[(e.sender, e.nonce)] <= ttl;
            && (d == MessageReplay <==> known)
            && (d == NonceReplay <==> !known && used)
            && (d == BadSignature <==> !known && !used && !authentic(e))
  {
  }

  ghost predicate NoneBlocks(
    calls: seq<Arrival>, decided: seq<Decision>, e: Envelope, now: real, ttl: real, j: nat)
    requires j <= |calls| == |decided|
  {
    forall i :: 0 <= i < j && decided[i] == Accepted ==> !Blocks(calls[i].envelope, e, now, ttl)
  }

  lemma {:induction false} JudgedAcceptedInRun(
    log: seq<Envelope>, calls: seq<Arrival>, ttl: real, authentic: Authenticator, j: nat)
    requires j < |calls| == |Judgements(log, calls, ttl, authentic)|
    ensures var (e, now) := (calls[j].envelope, calls[j].now);
            var decided := Judgements(log, calls, ttl, authentic);
            decided[j] == Accepted <==>
            && InWindow(e, now, ttl) && authentic(e)
            && (forall i :: 0 <= i < |log| ==> !Blocks(log[i], e, now, ttl))
            && NoneBlocks(calls, decided, e, now, ttl, j)
    decreases |calls|
  {
    var first := calls[0].envelope;
    var d := Judge(log, first, calls[0].now, ttl, authentic);
    var log' := Remember(log, first, d);
    var rest := Judgements(log', calls[1..], ttl, authentic);
    JudgementsLength(log', calls[1..], ttl, authentic);
    if j == 0 {
      JudgedAccepted(log, first, calls[0].now, ttl, authentic);
    } else {
      var e, now := calls[j].envelope, calls[j].now;
      JudgedAcceptedInRun(log', calls[1..], ttl, authentic, j - 1);
      FirstBlocks(log, calls, d, rest, e, now, ttl, j);
    }
  }

  lemma FirstBlocks(
    log: seq<Envelope>, calls: seq<Arrival>, d: Decision, rest: seq<Decision>,
    e: Envelope, now: real, ttl: real, j: nat)
    requires 0 < j < |calls| == |rest| + 1
    ensures var log' := Remember(log, calls[0].envelope, d);
            (forall i :: 0 <= i < |log'| ==> !Blocks(log'[i], e, now, ttl))
            && NoneBlocks(calls[1..], rest, e, now, ttl, j - 1)
            <==>
            (forall i :: 0 <= i < |log| ==> !Blocks(log[i], e, now, ttl))
            && NoneBlocks(calls, [d] + rest, e, now, ttl, j)
  {
    var log', all := Remember(log, calls[0].envelope, d), [d] + rest;
    assert forall i :: 0 <= i < |log| ==> log'[i] == log[i];
    if d == Accepted { assert log'[|log|] == calls[0].envelope; }
    assert forall i :: 0 < i < j ==> all[i] == rest[i - 1] && calls[i] == calls[1..][i - 1];
    assert all[0] == d;
    if NoneBlocks(calls, all, e, now, ttl, j) {
      forall i | 0 <= i < j - 1 && rest[i] == Accepted ensures !Blocks(calls[1..][i].envelope, e, now, ttl) {
        assert all[i + 1] == rest[i];
      }
    }
  }

  /** In every run, an envelope is accepted exactly when it is in its window and authentic, and no
      envelope accepted before it with its message id or its nonce is still within its time to live. */
  lemma AcceptedExactlyWhen(calls: seq<Arrival>, start: real, ttl: real, authentic: Authenticator, j: nat)
    requires ClockAdvances(calls, start) && j < |calls|
    ensures var (e, now) := (calls[j].envelope, calls[j].now);
            var decided := Decisions(EMPTY, calls, ttl, authentic);
            |decided| == |calls| &&
            (decided[j] == Accepted <==>
             InWindow(e, now, ttl) && authentic(e) && NoneBlocks(calls, decided, e, now, ttl, j))
  {
    PurgingForgetsNothingThatMatters(calls, start, ttl, authentic);
    JudgementsLength([], calls, ttl, authentic);
    JudgedAcceptedInRun([], calls, ttl, authentic, j);
  }

  /** No envelope is ever accepted twice. */
  lemma NeverAcceptedTwice(calls: seq<Arrival>, start: real, ttl: real, authentic: Authenticator, i: nat, j: nat)
    requires ClockAdvances(calls, start) && i < j < |calls| && calls[i].envelope == calls[j].envelope
    ensures |Decisions(EMPTY, calls, ttl, authentic)| == |calls|
    ensures Decisions(EMPTY, calls, ttl, authentic)[i] == Accepted ==>
              Decisions(EMPTY, calls, ttl, authentic)[j] != Accepted
  {
    PurgingForgetsNothingThatMatters(calls, start, ttl, authentic);
    JudgementsLength([], calls, ttl, authentic);
    NeverJudgedAcceptedTwice([], calls, ttl, authentic, i, j);
  }

  lemma {:induction false} JudgementsLength(
    log: seq<Envelope>, calls: seq<Arrival>, ttl: real, authentic: Authenticator)
    ensures |Judgements(log, calls, ttl, authentic)| == |calls|
    decreases |calls|
  {
    if calls != [] {
      var d := Judge(log, calls[0].envelope, calls[0].now, ttl, authentic);
      JudgementsLength(Remember(log, calls[0].envelope, d), calls[1..], ttl, authentic);
    }
  }

  lemma {:induction false} NeverJudgedAcceptedTwice(
    log: seq<Envelope>, calls: seq<Arrival>, ttl: real, authentic: Authenticator, i: nat, j: nat)
    requires i < j < |calls| == |Judgements(log, calls, ttl, authentic)| && calls[i].envelope == calls[j].envelope
    ensures Judgements(log, calls, ttl, authentic)[i] == Accepted ==>
              Judgements(log, calls, ttl, authentic)[j] != Accepted
    decreases |calls|
  {
    var e := calls[0].envelope;
    var d := Judge(log, e, calls[0].now, ttl, authentic);
    var log' := Remember(log, e, d);
    JudgementsLength(log', calls[1..], ttl, authentic);
    if i > 0 {
      NeverJudgedAcceptedTwice(log', calls[1..], ttl, authentic, i - 1, j - 1);
    } else if d == Accepted {
      assert log'[|log|] == e;
      LoggedIsNeverAccepted(log', calls[1..], ttl, authentic, |log|, j - 1);
    }
  }

  lemma {:induction false} LoggedIsNeverAccepted(
    log: seq<Envelope>, calls: seq<Arrival>, ttl: real, authentic: Authenticator, k: nat, j: nat)
    requires k < |log| && j < |calls| == |Judgements(log, calls, ttl, authentic)| && log[k] == calls[j].envelope
    ensures Judgements(log, calls, ttl, authentic)[j] != Accepted
    decreases |calls|
  {
    var d := Judge(log, calls[0].envelope, calls[0].now, ttl, authentic);
    var log' := Remember(log, calls[0].envelope, d);
    JudgementsLength(log', calls[1..], ttl, authentic);
    if j > 0 {
      assert log'[k] == log[k];
      LoggedIsNeverAccepted(log', calls[1..], ttl, authentic, k, j - 1);
    } else if Precheck(log[k], calls[0].now, ttl) == None {
      assert Lives(log[k], calls[0].now, ttl);
    }
  }

  /** A rejected envelope adds nothing: at most entries that had expired anyway are gone. */
  lemma RejectionLeavesNothingBehind(c: Cache, e: Envelope, now: real, ttl: real, authentic: Authenticator)
    ensures var (c', d) := Verify(c, e, now, ttl, authentic);
            && (d != Accepted ==> c' == c || c' == Purge(c, now, ttl))
            && (d == Accepted ==> e.messageId in c'.messages && (e.sender, e.nonce) in c'.nonces && authentic(e))
            && Purge(Purge(c, now, ttl), now, ttl) == Purge(c, now, ttl)
  {
  }

  /** The reference decides a run without one of its rejected arrivals as it did the rest. */
  lemma {:induction false} RejectedIsNoPartOfTheRun(
    log: seq<Envelope>, calls: seq<Arrival>, ttl: real, authentic: Authenticator, i: nat)
    requires i < |calls| == |Judgements(log, calls, ttl, authentic)|
    requires Judgements(log, calls, ttl, authentic)[i] != Accepted
    ensures Judgements(log, calls[..i] + calls[i + 1..], ttl, authentic)
            == Judgements(log, calls, ttl, authentic)[..i] + Judgements(log, calls, ttl, authentic)[i + 1..]
    decreases |calls|
  {
    var d := Judge(log, calls[0].envelope, calls[0].now, ttl, authentic);
    var log' := Remember(log, calls[0].envelope, d);
    var shorter := calls[..i] + calls[i + 1..];
    var rest := Judgements(log', calls[1..], ttl, authentic);
    assert Judgements(log, calls, ttl, authentic) == [d] + rest;
    if i == 0 {
      assert shorter == calls[1..];
    } else {
      RejectedIsNoPartOfTheRun(log', calls[1..], ttl, authentic, i - 1);
      WithoutOneLater(calls, i);
      WithoutOneLater([d] + rest, i);
      assert ([d] + rest)[1..] == rest;
    }
  }

  lemma WithoutOneLater<T>(s: seq<T>, i: nat)
    requires 0 < i < |s|
    ensures s[..i] + s[i + 1..] == [s[0]] + (s[1..][..i - 1] + s[1..][i..])
  {
  }

  lemma {:induction false} ClockAdvancesWithout(calls: seq<Arrival>, from: real, i: nat)
    requires ClockAdvances(calls, from) && i < |calls|
    ensures ClockAdvances(calls[..i] + calls[i + 1..], from)
    decreases |calls|
  {
    var shorter := calls[..i] + calls[i + 1..];
    if i == 0 {
      assert shorter == calls[1..];
      if |calls| > 1 { assert calls[1..][0] == calls[1]; }
    } else {
      ClockAdvancesWithout(calls[1..], calls[0].now, i - 1);
      assert shorter[1..] == calls[1..][..i - 1] + calls[1..][i..];
    }
  }

  /** Deleting any rejected arrival from any run leaves every other decision as it was. */
  lemma RejectedArrivalsDoNotMatter(calls: seq<Arrival>, start: real, ttl: real, authentic: Authenticator, i: nat)
    requires ClockAdvances(calls, start) && i < |calls| == |Decisions(EMPTY, calls, ttl, authentic)|
    requires Decisions(EMPTY, calls, ttl, authentic)[i] != Accepted
    ensures Decisions(EMPTY, calls[..i] + calls[i + 1..], ttl, authentic)
            == Decisions(EMPTY, calls, ttl, authentic)[..i] + Decisions(EMPTY, calls, ttl, authentic)[i + 1..]
  {
    PurgingForgetsNothingThatMatters(calls, start, ttl, authentic);
    RejectedIsNoPartOfTheRun([], calls, ttl, authentic, i);
    ClockAdvancesWithout(calls, start, i);
    PurgingForgetsNothingThatMatters(calls[..i] + calls[i + 1..], start, ttl, authentic);
  }

  // ----- creating envelopes ------------------------------------------------------------------

  /** Everything the signature covers; the body is the type and the payload. */
  datatype Unsigned = Unsigned(
    version: int, messageId: string, sender: string, nonce: string, timestamp: Option<real>, body: string)

  /** `_sign_fields`: HMAC over the canonical serialisation. */
  type Signer = Unsigned -> string

  function UnsignedOf(e: Envelope): Unsigned {
    Unsigned(e.version, e.messageId, e.sender, e.nonce, e.timestamp, e.body)
  }

  /** The signature check of the holder of the same key. */
  function SignedBy(sign: Signer): Authenticator { (e: Envelope) => sign(UnsignedOf(e)) == e.signature }

  /** `create_envelope`, with the identifiers and the time it was given or drew. */
  function CreateEnvelope(
    sign: Signer, sender: string, body: string, timestamp: real, nonce: string, messageId: string): Envelope
  {
    var u := Unsigned(VERSION, messageId, sender, nonce, Some(timestamp), body);
    Envelope(true, u.version, u.messageId, u.sender, u.nonce, u.timestamp, u.body, sign(u))
  }

  /** A created envelope carries what it was given, in version 1. */
  lemma CreatedCarries(sign: Signer, sender: string, body: string, timestamp: real, nonce: string, messageId: string)
    ensures var e := CreateEnvelope(sign, sender, body, timestamp, nonce, messageId);
            && e.complete && e.version == 1 && e.sender == sender && e.body == body
            && e.timestamp == Some(timestamp) && e.nonce == nonce && e.messageId == messageId
            && e.signature == sign(Unsigned(1, messageId, sender, nonce, Some(timestamp), body))
  {
  }

  /** The signature covers every field but itself. */
  lemma SignatureCoversAll(a: Envelope, b: Envelope)
    requires a.complete == b.complete
    ensures UnsignedOf(a) == UnsignedOf(b) <==> a.(signature := b.signature) == b
  {
  }

  /** A created envelope is accepted, by a holder of the key, exactly within its window and while
      neither its id nor its sender's nonce is remembered. */
  lemma CreatedIsAccepted(
    sign: Signer, sender: string, body: string, timestamp: real, nonce: string, messageId: string,
    c: Cache, log: seq<Envelope>, last: real, now: real, ttl: real)
    requires Mirrors(c, log, last, ttl) && last <= now
    ensures var e := CreateEnvelope(sign, sender, body, timestamp, nonce, messageId);
            Verify(c, e, now, ttl, SignedBy(sign)).1 == Accepted <==>
            && ttl > 0.0 && -ttl <= now - timestamp <= ttl
            && !Known(log, MessageOf, messageId, now, ttl) && !Known(log, NonceOf, (sender, nonce), now, ttl)
  {
    var e := CreateEnvelope(sign, sender, body, timestamp, nonce, messageId);
    assert UnsignedOf(e) == Unsigned(VERSION, messageId, sender, nonce, Some(timestamp), body);
    assert SignedBy(sign)(e);
    VerifyDecides(c, log, e, last, now, ttl, SignedBy(sign));
  }

  /** An envelope with a changed signed field and the old signature is never accepted, unless the
      two texts share their signature. */
  lemma ChangedIsRefused(sign: Signer, e: Envelope, changed: Envelope, c: Cache, now: real, ttl: real)
    requires SignedBy(sign)(e) && changed.signature == e.signature
    requires sign(UnsignedOf(changed)) != sign(UnsignedOf(e))
    ensures Verify(c, changed, now, ttl, SignedBy(sign)).1 != Accepted
    ensures Verify(c, changed, now, ttl, SignedBy(sign)).0 in {c, Purge(c, now, ttl)}
  {
    RejectionLeavesNothingBehind(c, changed, now, ttl, SignedBy(sign));
  }

  // ----- the objects ------------------------------------------------------------------------

  class ReplayCache {
    var messages: map<string, real>
    var nonces: map<Nonce, real>

    ghost function State(): Cache reads this { Cache(messages, nonces) }

    constructor ()
      ensures State() == EMPTY
    {
      messages, nonces := map[], map[];
    }

    /** Collects the expired keys of each dictionary, then deletes them. */
    method PurgeExpired(now: real, ttl: real)
      modifies this
      ensures State() == Purge(old(State()), now, ttl)
    {
      messages := DeleteStale(messages, now, ttl);
      nonces := DeleteStale(nonces, now, ttl);
    }

    method ContainsMessage(messageId: string, now: real, ttl: real) returns (found: bool)
      modifies this
      ensures State() == Purge(old(State()), now, ttl) && found == (messageId in messages)
    {
      PurgeExpired(now, ttl);
      return messageId in messages;
    }

    method ContainsNonce(sender: string, nonce: string, now: real, ttl: real) returns (found: bool)
      modifies this
      ensures State() == Purge(old(State()), now, ttl) && found == ((sender, nonce) in nonces)
    {
      PurgeExpired(now, ttl);
      return (sender, nonce) in nonces;
    }

    method Add(messageId: string, sender: string, nonce: string, timestamp: real)
      modifies this
      ensures State() == Cache(old(messages)[messageId := timestamp], old(nonces)[(sender, nonce) := timestamp])
    {
      messages := messages[messageId := timestamp];
      nonces := nonces[(sender, nonce) := timestamp];
    }
  }

  method DeleteStale<K(==)>(m: map<K, real>, now: real, ttl: real) returns (left: map<K, real>)
    ensures left == Unexpired(m, now, ttl)
    ensures forall k :: k in left <==> k in m && now - m[k] <= ttl
    ensures forall k :: k in left ==> left[k] == m[k]
  {
    var expired := set k | k in m && now - m[k] > ttl;
    left := m;
    var todo := expired;
    while todo != {}
      invariant todo <= expired
      invariant left == map k | k in m && k !in expired - todo :: m[k]
      decreases todo
    {
      var k :| k in todo;
      left := left - {k};
      todo := todo - {k};
    }
  }

  class NexusProtocol {
    const authentic: Authenticator

    constructor (authentic: Authenticator)
      ensures this.authentic == authentic
    {
      this.authentic := authentic;
    }

    method VerifyEnvelope(e: Envelope, now: real, ttl: real, cache: ReplayCache) returns (d: Decision)
      modifies cache
      ensures (cache.State(), d) == Verify(old(cache.State()), e, now, ttl, authentic)
    {
      var early := Precheck(e, now, ttl);
      if early.Some? { return early.value; }
      var seen := cache.ContainsMessage(e.messageId, now, ttl);
      if seen { return MessageReplay; }
      RejectionLeavesNothingBehind(old(cache.State()), e, now, ttl, authentic);
      seen := cache.ContainsNonce(e.sender, e.nonce, now, ttl);
      if seen { return NonceReplay; }
      if !authentic(e) { return BadSignature; }
      cache.Add(e.messageId, e.sender, e.nonce, e.timestamp.value);
      return Accepted;
    }
  }
}
