/**
 What a rollback, a retirement and a repeated deployment do to the versions of a
 strategy (engine/core/strategy_versioning.py), record by record.
 */
module VersionCalls {
  import opened Wrappers
  import opened IdIndex
  import opened Versioning
  import opened Rollback

  /** The version was live once and is retired now. */
  ghost predicate WasLive(v: Version) {
    v.status == RETIRED && v.activatedAt != None
  }

  /** Place b holds the version last live among those retired, the earliest listed of them. */
  ghost predicate LastLive(vs: seq<Version>, b: nat) {
    && b < |vs| && WasLive(vs[b])
    && forall k :: 0 <= k < |vs| && WasLive(vs[k]) ==>
         vs[k].activatedAt.value < vs[b].activatedAt.value || (vs[k].activatedAt == vs[b].activatedAt && b <= k)
  }

  ghost predicate AtMostOneActive(vs: seq<Version>) {
    forall i, j :: 0 <= i < |vs| && 0 <= j < |vs| && vs[i].status.ACTIVE? && vs[j].status.ACTIVE? ==> i == j
  }

  /** What a rollback to place b makes of the version at place i. */
  function RolledBack(vs: seq<Version>, b: nat, i: nat, now: real): Version
    requires i < |vs|
  {
    if i == b then vs[i].(status := ACTIVE, activatedAt := Some(now))
    else if vs[i].status.ACTIVE? then vs[i].(status := RETIRED)
    else vs[i]
  }

  /** There is a rollback exactly if some version was live and is retired. */
  lemma RollsBackIff(vs: seq<Version>, now: real)
    ensures RollbackOn(vs, now).Some? <==> exists k :: 0 <= k < |vs| && WasLive(vs[k])
  {
    LatestCandidateFacts(vs);
    if LatestCandidate(vs).Some? {
      var k :| 0 <= k < |vs| && vs[k] == LatestCandidate(vs).value;
      assert WasLive(vs[k]);
    }
    if k :| 0 <= k < |vs| && WasLive(vs[k]) {
      assert vs[k] in vs && IsCandidate(vs[k]);
    }
  }

  /** It retires the active version, activates the one last live, and changes no other record. */
  lemma RollbackTells(vs: seq<Version>, now: real, b: nat)
    requires UniqueIds(vs) && AtMostOneActive(vs) && LastLive(vs, b)
    ensures RollbackOn(vs, now).Some?
    ensures var after := RollbackOn(vs, now).value;
            |after| == |vs| && forall i :: 0 <= i < |vs| ==> after[i] == RolledBack(vs, b, i, now)
  {
    RollsBackIff(vs, now);
    var m := TargetPlace(vs);
    assert WasLive(vs[m]);
    assert IsCandidate(vs[b]);
    assert m == b;
    FirstActiveFacts(vs);
    if FirstActive(vs).Some? {
      var a :| 0 <= a < |vs| && vs[a] == FirstActive(vs).value;
      var c := RollbackAt(vs, now, a);
      assert vs[c] == vs[b];
      assert c == b;
    } else {
      ReplaceAt(vs, b, Promoted(vs[b], now));
      assert forall i :: 0 <= i < |vs| ==> vs[i] in vs;
    }
  }

  // ----- calls that no other task interrupts

  predicate Returned(sys: System, t: nat, s: string) {
    TaskOf(sys, t).Idle? && s !in sys.locks
  }

  lemma NextStep(sys: System, t: nat, now: real, newId: nat, n: nat)
    requires n > 0
    ensures StepN(sys, t, now, newId, n) == StepN(Advance(sys, t, now, newId), t, now, newId, n - 1)
  {}

  lemma LoneRelease(sys: System, t: nat, s: string, now: real, newId: nat)
    requires TaskOf(sys, t) == Releasing(s)
    ensures var after := StepN(sys, t, now, newId, 1); Returned(after, t, s) && after.reg == sys.reg
  {
    NextStep(sys, t, now, newId, 1);
    assert StepN(Advance(sys, t, now, newId), t, now, newId, 0) == Advance(sys, t, now, newId);
  }

  lemma LoneFind(sys: System, t: nat, id: nat, allow: bool, now: real, newId: nat)
    requires TaskOf(sys, t) == RetireRead(id, allow) && id in sys.reg.byId && sys.reg.byId[id].strategy !in sys.locks
    ensures var s2 := Advance(Advance(sys, t, now, newId), t, now, newId);
            && s2.reg == sys.reg && TaskOf(s2, t) == RetireGet(id, sys.reg.byId[id].strategy, allow)
            && forall n: nat :: StepN(sys, t, now, newId, n + 2) == StepN(s2, t, now, newId, n)
  {
    var s1 := Advance(sys, t, now, newId);
    assert s1.reg == sys.reg && s1.locks == sys.locks;
    forall n: nat
      ensures StepN(sys, t, now, newId, n + 2) == StepN(Advance(s1, t, now, newId), t, now, newId, n)
    {
      NextStep(sys, t, now, newId, n + 2);
      NextStep(s1, t, now, newId, n + 1);
    }
  }

  /** A lone retirement marks the version retired and changes nothing else; an active one only with consent. */
  lemma LoneRetire(sys: System, t: nat, id: nat, allow: bool, now: real, newId: nat)
    requires TaskOf(sys, t) == RetireRead(id, allow) && id in sys.reg.byId && sys.reg.byId[id].strategy !in sys.locks
    requires sys.reg.byId[id].id == id
    ensures var v := sys.reg.byId[id];
            if v.status == ACTIVE && !allow then
              var after := StepN(sys, t, now, newId, 4); Returned(after, t, v.strategy) && after.reg == sys.reg
            else
              var after := StepN(sys, t, now, newId, 5);
              Returned(after, t, v.strategy) && after.reg == sys.reg.(byId := sys.reg.byId[id := v.(status := RETIRED)])
  {
    hide StepN;
    var v := sys.reg.byId[id];
    LoneFind(sys, t, id, allow, now, newId);
    var s2 := Advance(Advance(sys, t, now, newId), t, now, newId);
    var s3 := Advance(s2, t, now, newId);
    NextStep(s2, t, now, newId, 2);
    NextStep(s2, t, now, newId, 3);
    if v.status == ACTIVE && !allow {
      LoneRelease(s3, t, v.strategy, now, newId);
    } else {
      NextStep(s3, t, now, newId, 2);
      LoneRelease(Advance(s3, t, now, newId), t, v.strategy, now, newId);
    }
  }

  /** A lone deployment of hashes that a stored version has changes nothing. */
  lemma LoneRedeploy(sys: System, t: nat, s: string, c: string, g: string, now: real, newId: nat, v: Version)
    requires TaskOf(sys, t) == DeployWait(s, c, g) && s !in sys.locks
    requires v in Versions(sys.reg, s) && v.codeHash == c && v.configHash == g
    ensures var after := StepN(sys, t, now, newId, 3); Returned(after, t, s) && after.reg == sys.reg
  {
    hide StepN, Versions, FindByHashes;
    var vs := Versions(sys.reg, s);
    var i :| 0 <= i < |vs| && vs[i] == v;
    var s1 := Advance(sys, t, now, newId);
    assert s1.reg == sys.reg && TaskOf(s1, t) == DeployFind(s, c, g);
    KnownIsFound(vs, c, g, i);
    var s2 := Advance(s1, t, now, newId);
    NextStep(sys, t, now, newId, 3);
    NextStep(s1, t, now, newId, 2);
    LoneRelease(s2, t, s, now, newId);
  }

  lemma {:induction false} KnownIsFound(vs: seq<Version>, c: string, g: string, i: nat)
    requires i < |vs| && vs[i].codeHash == c && vs[i].configHash == g
    ensures FindByHashes(vs, c, g).Some?
  {
    if i > 0 {
      KnownIsFound(vs[1..], c, g, i - 1);
    }
  }
}
