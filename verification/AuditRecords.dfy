/**
 What an append-only log records of the requests made to it (engine/core/audit_log.py).
 */
module AuditRecords {
  import opened Wrappers
  import opened AuditLog

  /** The text says something: not only spaces, tabs and line breaks. */
  ghost predicate Says(s: string) {
    exists i :: 0 <= i < |s| && s[i] != ' ' && s[i] != '\t' && s[i] != '\n' && s[i] != '\r'
  }

  /** The requests that name an event type and an actor. */
  ghost function Proper(rs: seq<Request>): seq<Request> {
    if rs == [] then []
    else
      var r := rs[|rs| - 1];
      Proper(rs[..|rs| - 1]) + (if Says(r.eventType) && Says(r.actor) then [r] else [])
  }

  /** The k-th event is the k-th of those requests, numbered, dated and linked to the event before it. */
  ghost predicate Recorded(h: Digest, log: seq<Event>, rs: seq<Request>, k: nat)
    requires k < |log| && k < |rs|
  {
    var e, b, r := log[k], log[k].body, rs[k];
    && e.id == r.id && b.eventType == r.eventType && b.actor == r.actor && b.payload == r.payload && b.created == r.now
    && b.sequence == k + 1 && e.hash == h(b)
    && (k > 0 ==> b.prevHash == log[k - 1].hash)
    && (k == 0 ==> b.prevHash == GENESIS)
  }

  lemma BlankIff(s: string)
    ensures Blank(s) <==> !Says(s)
  {
    var blanks := " \t\n\r";
    assert blanks == [' ', '\t', '\n', '\r'];
    assert forall c :: c in blanks <==> c == ' ' || c == '\t' || c == '\n' || c == '\r';
    if !Blank(s) {
      var c :| c in s && c !in blanks;
      var i :| 0 <= i < |s| && s[i] == c;
    } else {
      assert forall i :: 0 <= i < |s| ==> s[i] in s;
    }
  }

  lemma AppendRecords(h: Digest, log: seq<Event>, done: seq<Request>, r: Request)
    requires Verifies(h, log) && |log| == |done| && forall k :: 0 <= k < |log| ==> Recorded(h, log, done, k)
    requires !Blank(r.eventType) && !Blank(r.actor)
    ensures var after := Append(h, log, r);
            after.Ok? && |after.value| == |done| + 1
            && forall k :: 0 <= k < |after.value| ==> Recorded(h, after.value, done + [r], k)
  {
    SequenceIsLength(h, log);
    var after := Append(h, log, r).value;
    forall k | 0 <= k < |after|
      ensures Recorded(h, after, done + [r], k)
    {
      if k < |log| {
        assert Recorded(h, log, done, k);
        assert after[k] == log[k] && (k > 0 ==> after[k - 1] == log[k - 1]);
      }
    }
  }

  /** A log that one appender builds holds exactly the proper requests, in order, as they were made. */
  lemma {:induction false} LogIsTheRequests(h: Digest, rs: seq<Request>)
    ensures |AppendAll(h, rs)| == |Proper(rs)|
    ensures forall k :: 0 <= k < |Proper(rs)| ==> Recorded(h, AppendAll(h, rs), Proper(rs), k)
    decreases rs
  {
    if rs != [] {
      hide Recorded, Blank, Says, Verifies;
      var init, r := rs[..|rs| - 1], rs[|rs| - 1];
      LogIsTheRequests(h, init);
      BlankIff(r.eventType);
      BlankIff(r.actor);
      if Says(r.eventType) && Says(r.actor) {
        AppendedVerifies(h, init);
        AppendRecords(h, AppendAll(h, init), Proper(init), r);
      } else {
        assert Proper(rs) == Proper(init);
      }
    }
  }
}
