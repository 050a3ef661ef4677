/**
 The hash-chained audit log of engine/core/audit_log.py. The digest of an event's
 hashed fields is a parameter; a payload stands for its canonical text.
 */
module AuditLog {
  import opened Wrappers

  /** The fields that are hashed. */
  datatype Body = Body(sequence: int, eventType: string, actor: string, payload: string, prevHash: string, created: real)
  datatype Event = Event(id: string, body: Body, hash: string)
  datatype AuditLogError = EmptyEventType | EmptyActor

  type Digest = Body -> string

  const GENESIS: string := "0000000000000000000000000000000000000000000000000000000000000000"

  ghost predicate Injective(h: Digest) {
    forall a, b :: h(a) == h(b) ==> a == b
  }

  function LastHash(log: seq<Event>): string {
    if log == [] then GENESIS else log[|log| - 1].hash
  }

  function LastSequence(log: seq<Event>): int {
    if log == [] then 0 else log[|log| - 1].body.sequence
  }

  /** The event an append makes after reading `log`. */
  function Build(h: Digest, log: seq<Event>, id: string, eventType: string, actor: string, payload: string, now: real): Event {
    var body := Body(LastSequence(log) + 1, eventType, actor, payload, LastHash(log), now);
    Event(id, body, h(body))
  }

  predicate Blank(s: string) { forall c :: c in s ==> c in " \t\n\r" }

  /** verify_chain, as what it accepts. */
  ghost predicate Verifies(h: Digest, log: seq<Event>) {
    forall k :: 0 <= k < |log| ==> LinkOk(h, log, k)
  }

  predicate LinkOk(h: Digest, log: seq<Event>, k: nat)
    requires k < |log|
  {
    && log[k].body.sequence == k + 1
    && log[k].body.prevHash == LastHash(log[..k])
    && log[k].hash == h(log[k].body)
  }

  // ----- appending

  lemma PrefixLinks(h: Digest, log: seq<Event>, n: nat, k: nat)
    requires k < n <= |log|
    ensures LinkOk(h, log[..n], k) <==> LinkOk(h, log, k)
  {
    assert log[..n][..k] == log[..k];
  }

  /** Every prefix of a verifying log verifies: truncation is not noticed. */
  lemma PrefixVerifies(h: Digest, log: seq<Event>, n: nat)
    requires n <= |log| && Verifies(h, log)
    ensures Verifies(h, log[..n])
  {
    forall k | 0 <= k < n
      ensures LinkOk(h, log[..n], k)
    {
      PrefixLinks(h, log, n, k);
    }
  }

  lemma ExtendedVerifiesIff(h: Digest, log: seq<Event>, e: Event)
    ensures Verifies(h, log + [e]) <==>
            Verifies(h, log) && e.body.sequence == |log| + 1 && e.body.prevHash == LastHash(log) && e.hash == h(e.body)
  {
    var all := log + [e];
    assert all[..|log|] == log;
    forall k | 0 <= k < |log|
      ensures LinkOk(h, all, k) <==> LinkOk(h, log, k)
    {
      PrefixLinks(h, all, |log|, k);
    }
    assert LinkOk(h, all, |log|) <==>
           e.body.sequence == |log| + 1 && e.body.prevHash == LastHash(log) && e.hash == h(e.body);
  }

  lemma SequenceIsLength(h: Digest, log: seq<Event>)
    requires Verifies(h, log)
    ensures LastSequence(log) == |log|
  {
    if log != [] {
      assert LinkOk(h, log, |log| - 1);
    }
  }

  /**
   An append that read the log when it held k events, and writes now, keeps the
   log verifying exactly if nothing was written in between.
   */
  lemma StaleAppendIff(h: Digest, log: seq<Event>, k: nat, id: string, t: string, a: string, p: string, now: real)
    requires k <= |log| && Verifies(h, log)
    ensures Verifies(h, log + [Build(h, log[..k], id, t, a, p, now)]) <==> k == |log|
  {
    var e := Build(h, log[..k], id, t, a, p, now);
    PrefixVerifies(h, log, k);
    SequenceIsLength(h, log[..k]);
    ExtendedVerifiesIff(h, log, e);
    if k == |log| {
      assert log[..k] == log;
    }
  }

  /** A log that does not verify never will again, whatever is appended. */
  lemma BrokenStaysBroken(h: Digest, log: seq<Event>, more: seq<Event>)
    requires !Verifies(h, log)
    ensures !Verifies(h, log + more)
  {
    assert (log + more)[..|log|] == log;
    if Verifies(h, log + more) {
      PrefixVerifies(h, log + more, |log|);
    }
  }

  datatype Request = Request(id: string, eventType: string, actor: string, payload: string, now: real)

  /** append on values. */
  function Append(h: Digest, log: seq<Event>, r: Request): Result<seq<Event>, AuditLogError> {
    if Blank(r.eventType) then Err(EmptyEventType)
    else if Blank(r.actor) then Err(EmptyActor)
    else Ok(log + [Build(h, log, r.id, r.eventType, r.actor, r.payload, r.now)])
  }

  function AppendAll(h: Digest, rs: seq<Request>): seq<Event> {
    if rs == [] then []
    else
      var before := AppendAll(h, rs[..|rs| - 1]);
      match Append(h, before, rs[|rs| - 1])
      case Ok(log) => log
      case Err(_) => before
  }

  /** Every log that one appender builds verifies. */
  lemma {:induction false} AppendedVerifies(h: Digest, rs: seq<Request>)
    ensures Verifies(h, AppendAll(h, rs))
  {
    if rs != [] {
      var before, r := AppendAll(h, rs[..|rs| - 1]), rs[|rs| - 1];
      AppendedVerifies(h, rs[..|rs| - 1]);
      StaleAppendIff(h, before, |before|, r.id, r.eventType, r.actor, r.payload, r.now);
      assert before[..|before|] == before;
    }
  }

  // ----- the last hash stands for the whole log

  ghost predicate SameBodies(a: seq<Event>, b: seq<Event>) {
    |a| == |b| && forall k :: 0 <= k < |a| ==> a[k].body == b[k].body && a[k].hash == b[k].hash
  }

  /** Two verifying logs with the same last hash have the same length and hashed fields throughout. */
  lemma {:induction false} LastHashCommits(h: Digest, a: seq<Event>, b: seq<Event>)
    requires Injective(h) && Verifies(h, a) && Verifies(h, b)
    requires a != [] && b != [] && LastHash(a) == LastHash(b)
    ensures SameBodies(a, b)
  {
    var n, m := |a| - 1, |b| - 1;
    assert LinkOk(h, a, n) && LinkOk(h, b, m);
    assert a[n].body == b[m].body;
    if n > 0 {
      PrefixVerifies(h, a, n);
      PrefixVerifies(h, b, n);
      LastHashCommits(h, a[..n], b[..n]);
      forall k | 0 <= k < n
        ensures a[k].body == b[k].body && a[k].hash == b[k].hash
      {
        assert a[..n][k].body == b[..n][k].body && a[..n][k].hash == b[..n][k].hash;
      }
    }
  }

  /** Identifiers are not protected: logs with the same hashed fields verify together. */
  lemma IdIsNotHashed(h: Digest, a: seq<Event>, b: seq<Event>)
    requires SameBodies(a, b)
    ensures Verifies(h, a) <==> Verifies(h, b)
  {
    forall k | 0 <= k < |a|
      ensures LinkOk(h, a, k) <==> LinkOk(h, b, k)
    {}
  }

  /**
   Replacing one event is noticed unless its hashed fields and hash stay, or it is
   the last one and the new event is itself a proper continuation.
   */
  lemma EditVerifiesIff(h: Digest, log: seq<Event>, k: nat, e: Event)
    requires Injective(h) && Verifies(h, log) && k < |log|
    ensures Verifies(h, log[k := e]) <==>
            (e.body == log[k].body && e.hash == log[k].hash)
            || (k == |log| - 1 && e.body.sequence == k + 1 && e.body.prevHash == log[k].body.prevHash && e.hash == h(e.body))
  {
    var edited := log[k := e];
    assert LinkOk(h, log, k);
    assert edited[..k] == log[..k] && edited[k] == e;
    assert LinkOk(h, edited, k) <==>
           e.body.sequence == k + 1 && e.body.prevHash == log[k].body.prevHash && e.hash == h(e.body);
    if e.body == log[k].body && e.hash == log[k].hash {
      IdIsNotHashed(h, log, edited);
    } else if k == |log| - 1 {
      assert edited == log[..k] + [e];
      PrefixVerifies(h, log, k);
      ExtendedVerifiesIff(h, log[..k], e);
    } else if Verifies(h, edited) {
      assert LastHash(edited) == LastHash(log);
      LastHashCommits(h, log, edited);
    }
  }

  /** In a verifying log the sequence numbers are 1, 2, 3, and so on, so a lookup is a position. */
  function BySequence(log: seq<Event>, n: int): Option<Event> {
    if log == [] then None else if log[0].body.sequence == n then Some(log[0]) else BySequence(log[1..], n)
  }

  lemma {:induction false} BySequenceFrom(log: seq<Event>, n: int, from: int)
    requires forall k :: 0 <= k < |log| ==> log[k].body.sequence == from + k + 1
    ensures BySequence(log, n) == if from < n <= from + |log| then Some(log[n - from - 1]) else None
    decreases log
  {
    if log != [] {
      forall k | 0 <= k < |log| - 1
        ensures log[1..][k].body.sequence == from + 1 + k + 1
      {
        assert log[1..][k] == log[k + 1];
      }
      BySequenceFrom(log[1..], n, from + 1);
    }
  }

  lemma BySequenceIsPosition(h: Digest, log: seq<Event>, n: int)
    requires Verifies(h, log)
    ensures BySequence(log, n) == if 1 <= n <= |log| then Some(log[n - 1]) else None
  {
    forall k | 0 <= k < |log|
      ensures log[k].body.sequence == 0 + k + 1
    {
      assert LinkOk(h, log, k);
    }
    BySequenceFrom(log, n, 0);
  }

  // ----- the service

  class InMemoryAuditLog {
    var events: seq<Event>

    constructor ()
      ensures events == []
    {
      events := [];
    }

    method AppendEvent(event: Event)
      modifies this
      ensures events == old(events) + [event]
    {
      events := events + [event];
    }

    method GetBySequence(sequence: int) returns (e: Option<Event>)
      ensures e == BySequence(events, sequence)
      ensures forall h :: Verifies(h, events) ==>
                e == if 1 <= sequence <= |events| then Some(events[sequence - 1]) else None
    {
      forall h: Digest | Verifies(h, events)
        ensures BySequence(events, sequence) == if 1 <= sequence <= |events| then Some(events[sequence - 1]) else None
      {
        BySequenceIsPosition(h, events, sequence);
      }
      for i := 0 to |events|
        invariant BySequence(events, sequence) == BySequence(events[i..], sequence)
      {
        assert events[i..][1..] == events[i + 1..];
        if events[i].body.sequence == sequence {
          return Some(events[i]);
        }
      }
      e := None;
    }
  }

  class AuditService {
    const log: InMemoryAuditLog
    const hash: Digest

    constructor (log: InMemoryAuditLog, hash: Digest)
      ensures this.log == log && this.hash == hash
    {
      this.log, this.hash := log, hash;
    }

    /** append, undisturbed: the id, the redacted payload and the clock are inputs. */
    method AppendEvent(r: Request) returns (result: Result<Event, AuditLogError>)
      modifies log
      ensures match Append(hash, old(log.events), r)
              case Err(e) => result == Err(e) && log.events == old(log.events)
              case Ok(events) => log.events == events && events != [] && result == Ok(events[|events| - 1])
      ensures Verifies(hash, old(log.events)) ==> Verifies(hash, log.events)
    {
      if Blank(r.eventType) {
        return Err(EmptyEventType);
      }
      if Blank(r.actor) {
        return Err(EmptyActor);
      }
      var before := log.events;
      var sequence := if before == [] then 1 else before[|before| - 1].body.sequence + 1;
      var prevHash := if before == [] then GENESIS else before[|before| - 1].hash;
      var body := Body(sequence, r.eventType, r.actor, r.payload, prevHash, r.now);
      var event := Event(r.id, body, hash(body));
      log.AppendEvent(event);
      if Verifies(hash, before) {
        StaleAppendIff(hash, before, |before|, r.id, r.eventType, r.actor, r.payload, r.now);
        assert before[..|before|] == before;
      }
      result := Ok(event);
    }

    method VerifyChain() returns (ok: bool)
      ensures ok <==> Verifies(hash, log.events)
    {
      var events := log.events;
      var expectedPrev, expectedSeq := GENESIS, 1;
      for k := 0 to |events|
        invariant expectedPrev == LastHash(events[..k]) && expectedSeq == k + 1
        invariant forall j :: 0 <= j < k ==> LinkOk(hash, events, j)
      {
        var ev := events[k];
        if ev.body.sequence != expectedSeq || ev.body.prevHash != expectedPrev || hash(ev.body) != ev.hash {
          assert !LinkOk(hash, events, k);
          return false;
        }
        expectedPrev, expectedSeq := ev.hash, expectedSeq + 1;
        assert events[..k + 1][k] == ev;
      }
      ok := true;
    }
  }
}
