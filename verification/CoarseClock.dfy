/**
 A run that shows why rolling back twice needs a clock that moves
 (engine/core/strategy_versioning.py): three versions deployed and activated at
 one reading of the clock.
 */
module CoarseClock {
  import opened Wrappers
  import opened Versioning
  import opened Rollback

  // ----- uninterrupted calls as parts of runs

  function Steps(t: nat, now: real, newId: nat, n: nat): seq<Action> {
    if n == 0 then [] else Steps(t, now, newId, n - 1) + [Step(t, now, newId)]
  }

  lemma {:induction false} StepNLast(sys: System, t: nat, now: real, newId: nat, n: nat)
    requires n > 0
    ensures StepN(sys, t, now, newId, n) == Advance(StepN(sys, t, now, newId, n - 1), t, now, newId)
    decreases n
  {
    hide Advance;
    if n > 1 {
      StepNLast(Advance(sys, t, now, newId), t, now, newId, n - 1);
    }
  }

  lemma {:induction false} RunSteps(actions: seq<Action>, t: nat, now: real, newId: nat, n: nat)
    ensures Run(actions + Steps(t, now, newId, n)) == StepN(Run(actions), t, now, newId, n)
    decreases n
  {
    hide Advance, StepN;
    var all := actions + Steps(t, now, newId, n);
    if n == 0 {
      assert all == actions;
      NoSteps(Run(actions), t, now, newId);
    } else {
      RunSteps(actions, t, now, newId, n - 1);
      StepNLast(Run(actions), t, now, newId, n);
      assert all[..|all| - 1] == actions + Steps(t, now, newId, n - 1);
      assert all[|all| - 1] == Step(t, now, newId);
    }
  }

  lemma NoSteps(sys: System, t: nat, now: real, newId: nat)
    ensures StepN(sys, t, now, newId, 0) == sys
  {}

  /** Task 0 is idle and nobody holds the lock of strategy s. */
  predicate Quiet(sys: System, s: string) { TaskOf(sys, 0).Idle? && s !in sys.locks }

  /** A call by task 0, and n steps of it. */
  function Call(actions: seq<Action>, task: Task, now: real, newId: nat, n: nat): seq<Action> {
    actions + [Begin(0, task)] + Steps(0, now, newId, n)
  }

  lemma RunCall(actions: seq<Action>, task: Task, now: real, newId: nat, n: nat)
    requires TaskOf(Run(actions), 0).Idle? && IsStart(task)
    ensures Run(Call(actions, task, now, newId, n)) == StepN(Goto(Run(actions), 0, task), 0, now, newId, n)
  {
    hide Advance, StepN;
    RunSteps(actions + [Begin(0, task)], 0, now, newId, n);
    assert (actions + [Begin(0, task)])[..|actions|] == actions;
  }

  lemma UnrollFive(sys: System, t: nat, now: real, newId: nat, s1: System, s2: System, s3: System, s4: System)
    requires s1 == Advance(sys, t, now, newId) && s2 == Advance(s1, t, now, newId) && s3 == Advance(s2, t, now, newId)
    requires s4 == Advance(s3, t, now, newId)
    ensures StepN(sys, t, now, newId, 5) == Advance(s4, t, now, newId)
    ensures forall n: nat :: StepN(sys, t, now, newId, n + 4) == StepN(s4, t, now, newId, n)
  {
    hide Advance;
    forall n: nat
      ensures StepN(sys, t, now, newId, n + 4) == StepN(s4, t, now, newId, n)
    {
      assert StepN(sys, t, now, newId, n + 4) == StepN(s1, t, now, newId, n + 3);
      assert StepN(s1, t, now, newId, n + 3) == StepN(s2, t, now, newId, n + 2);
      assert StepN(s2, t, now, newId, n + 2) == StepN(s3, t, now, newId, n + 1);
    }
    assert StepN(s4, t, now, newId, 1) == StepN(Advance(s4, t, now, newId), t, now, newId, 0);
  }

  /** Five steps of an uninterrupted deploy with new hashes. */
  lemma LoneDeploy(sys: System, s: string, c: string, now: real, id: nat)
    requires TaskOf(sys, 0) == DeployWait(s, c, "") && s !in sys.locks && id !in sys.reg.byId
    requires FindByHashes(Versions(sys.reg, s), c, "").None?
    ensures var after := StepN(sys, 0, now, id, 5);
            && Quiet(after, s)
            && after.reg == Save(sys.reg, Version(id, s, MaxNumber(Versions(sys.reg, s)) + 1, c, "", DRAFT, now, None))
  {
    hide Versions, Save, FindByHashes;
    var s1 := Advance(sys, 0, now, id);
    var s2 := Advance(s1, 0, now, id);
    var s3 := Advance(s2, 0, now, id);
    var s4 := Advance(s3, 0, now, id);
    assert TaskOf(s1, 0) == DeployFind(s, c, "") && s1.reg == sys.reg;
    assert TaskOf(s2, 0) == DeployList(s, c, "") && s2.reg == sys.reg;
    assert TaskOf(s3, 0) == DeploySave(s, c, "", MaxNumber(Versions(sys.reg, s)) + 1) && s3.reg == sys.reg;
    assert TaskOf(s4, 0) == Releasing(s);
    UnrollFive(sys, 0, now, id, s1, s2, s3, s4);
  }

  /** The registry after the saves of an activation of v over the versions `pending`. */
  function ActivateSaves(reg: Registry, v: Version, pending: seq<Version>, now: real): Registry
    decreases pending
  {
    if pending == [] then Save(reg, Promoted(v, now))
    else ActivateSaves(Save(reg, Retired(pending[0])), v, pending[1..], now)
  }

  /** The steps of an activation from its first save on. */
  lemma {:induction false} LoneSaves(sys: System, v: Version, pending: seq<Version>, now: real)
    requires TaskOf(sys, 0) == ActivateSave(v, pending) && v.strategy in sys.locks
    ensures var after := StepN(sys, 0, now, 0, |pending| + 2);
            Quiet(after, v.strategy) && after.reg == ActivateSaves(sys.reg, v, pending, now)
    decreases pending
  {
    hide Save;
    var next := Advance(sys, 0, now, 0);
    assert StepN(sys, 0, now, 0, |pending| + 2) == StepN(next, 0, now, 0, |pending| + 1);
    if pending == [] {
      assert TaskOf(next, 0) == Releasing(v.strategy);
      assert StepN(next, 0, now, 0, 1) == StepN(Advance(next, 0, now, 0), 0, now, 0, 0) == Advance(next, 0, now, 0);
    } else {
      LoneSaves(next, v, pending[1..], now);
    }
  }

  /** The steps of an uninterrupted activation. */
  lemma LoneActivate(sys: System, id: nat, now: real)
    requires TaskOf(sys, 0) == ActivateRead(id) && id in sys.reg.byId && !sys.reg.byId[id].status.RETIRED?
    requires sys.reg.byId[id].strategy !in sys.locks
    ensures var v := sys.reg.byId[id];
            var pending := OtherActive(Versions(sys.reg, v.strategy), v.id);
            var after := StepN(sys, 0, now, 0, |pending| + 6);
            Quiet(after, v.strategy) && after.reg == ActivateSaves(sys.reg, v, pending, now)
  {
    hide Versions, Save;
    var v := sys.reg.byId[id];
    var s := v.strategy;
    var pending := OtherActive(Versions(sys.reg, s), v.id);
    var s1 := Advance(sys, 0, now, 0);
    var s2 := Advance(s1, 0, now, 0);
    var s3 := Advance(s2, 0, now, 0);
    var s4 := Advance(s3, 0, now, 0);
    assert TaskOf(s1, 0) == ActivateWait(id, s) && s1.reg == sys.reg && s1.locks == sys.locks;
    assert TaskOf(s2, 0) == ActivateGet(id, s) && s2.reg == sys.reg && s in s2.locks;
    assert TaskOf(s3, 0) == ActivateList(v) && s3.reg == sys.reg && s in s3.locks;
    assert TaskOf(s4, 0) == ActivateSave(v, pending) && s4.reg == sys.reg && s in s4.locks;
    UnrollFive(sys, 0, now, 0, s1, s2, s3, s4);
    LoneSaves(s4, v, pending, now);
    assert |pending| + 6 == (|pending| + 2) + 4;
  }

  // ----- the run

  /** The list of strategy "s" after `actions`, with nobody at work. */
  ghost predicate Shows(actions: seq<Action>, vs: seq<Version>) {
    Quiet(Run(actions), "s") && Versions(Run(actions).reg, "s") == vs
  }

  lemma DeployCall(actions: seq<Action>, vs: seq<Version>, c: string, id: nat) returns (more: seq<Action>)
    requires Shows(actions, vs) && FindByHashes(vs, c, "").None? && id !in Run(actions).reg.byId
    ensures Shows(more, vs + [Version(id, "s", |vs| + 1, c, "", DRAFT, 5.0, None)])
    ensures Run(more).reg.byId.Keys == Run(actions).reg.byId.Keys + {id}
  {
    hide Run, StepN;
    var sys := Run(actions);
    var v := Version(id, "s", |vs| + 1, c, "", DRAFT, 5.0, None);
    more := Call(actions, DeployWait("s", c, ""), 5.0, id, 5);
    RunCall(actions, DeployWait("s", c, ""), 5.0, id, 5);
    EveryStateSafe(actions);
    LoneDeploy(Goto(sys, 0, DeployWait("s", c, "")), "s", c, 5.0, id);
    assert Safe(Versions(sys.reg, "s"));
    MaxNumberIsLength(vs);
    SaveNew(sys.reg, v);
  }

  lemma ActivateCall(actions: seq<Action>, vs: seq<Version>, i: nat) returns (more: seq<Action>)
    requires Shows(actions, vs) && i < |vs| && !vs[i].status.RETIRED? && |OtherActive(vs, vs[i].id)| <= 1
    ensures var pending := OtherActive(vs, vs[i].id);
            Shows(more, Replace(if pending == [] then vs else Replace(vs, Retired(pending[0])), Promoted(vs[i], 5.0)))
  {
    hide Run, StepN;
    var sys := Run(actions);
    var pending := OtherActive(vs, vs[i].id);
    EveryStateSafe(actions);
    ListedIsStored(sys.reg, "s", vs[i]);
    more := Call(actions, ActivateRead(vs[i].id), 5.0, 0, |pending| + 6);
    RunCall(actions, ActivateRead(vs[i].id), 5.0, 0, |pending| + 6);
    LoneActivate(Goto(sys, 0, ActivateRead(vs[i].id)), vs[i].id, 5.0);
    OtherActiveFacts(vs, vs[i].id);
    ActivateReplaces(sys.reg, vs[i], pending);
  }

  lemma ActivateReplaces(reg: Registry, v: Version, pending: seq<Version>)
    requires Indexed(reg) && Stored(reg, v) && v.strategy == "s" && |pending| <= 1
    requires forall p :: p in pending ==> p in Versions(reg, "s") && p.id != v.id
    ensures Versions(ActivateSaves(reg, v, pending, 5.0), "s")
            == Replace(if pending == [] then Versions(reg, "s") else Replace(Versions(reg, "s"), Retired(pending[0])), Promoted(v, 5.0))
  {
    hide Versions, Indexed, Replace;
    if pending == [] {
      SaveIsReplace(reg, Promoted(v, 5.0));
    } else {
      assert pending[0] in pending;
      ListedIsStored(reg, "s", pending[0]);
      SaveIsReplace(reg, Retired(pending[0]));
      SaveIsReplace(Save(reg, Retired(pending[0])), Promoted(v, 5.0));
      assert pending[1..] == [];
    }
  }

  function New(id: nat, c: string): Version { Version(id, "s", id, c, "", DRAFT, 5.0, None) }

  lemma ThreeDeployed() returns (actions: seq<Action>)
    ensures Shows(actions, [New(1, "a"), New(2, "b"), New(3, "c")])
  {
    hide Run, Shows, FindByHashes;
    EmptyRun();
    HashesOf([], "a");
    var a := DeployCall([], [], "a", 1);
    assert [] + [New(1, "a")] == [New(1, "a")];
    HashesOf([New(1, "a")], "b");
    var b := DeployCall(a, [New(1, "a")], "b", 2);
    assert [New(1, "a")] + [New(2, "b")] == [New(1, "a"), New(2, "b")];
    HashesOf([New(1, "a"), New(2, "b")], "c");
    actions := DeployCall(b, [New(1, "a"), New(2, "b")], "c", 3);
    assert [New(1, "a"), New(2, "b")] + [New(3, "c")] == [New(1, "a"), New(2, "b"), New(3, "c")];
  }

  lemma EmptyRun()
    ensures Shows([], []) && Run([]).reg.byId == map[]
  {}

  lemma {:induction false} HashesOf(vs: seq<Version>, c: string)
    requires forall i :: 0 <= i < |vs| ==> vs[i].codeHash != c
    ensures FindByHashes(vs, c, "").None?
  {
    if vs != [] {
      HashesOf(vs[1..], c);
    }
  }

  lemma OtherOfThree(a: Version, b: Version, c: Version, id: nat)
    ensures OtherActive([a, b, c], id)
            == (if a.id != id && a.status.ACTIVE? then [a] else []) + (if b.id != id && b.status.ACTIVE? then [b] else [])
               + (if c.id != id && c.status.ACTIVE? then [c] else [])
  {
    assert [a, b, c][1..] == [b, c] && [b, c][1..] == [c] && |[c][1..]| == 0;
    assert OtherActive([c], id) == if c.id != id && c.status.ACTIVE? then [c] else [];
  }

  lemma ReplaceInThree(a: Version, b: Version, c: Version, v: Version)
    ensures Replace([a, b, c], v)
            == [if a.id == v.id then v else a, if b.id == v.id then v else b, if c.id == v.id then v else c]
  {
    assert [a, b, c][1..] == [b, c] && [b, c][1..] == [c] && |[c][1..]| == 0;
    assert Replace([c], v) == [if c.id == v.id then v else c];
    assert Replace([b, c], v) == [if b.id == v.id then v else b, if c.id == v.id then v else c];
  }

  function Live(id: nat, c: string): Version { Promoted(New(id, c), 5.0) }

  lemma ThreeActivated() returns (actions: seq<Action>)
    ensures Shows(actions, [Retired(Live(1, "a")), Retired(Live(2, "b")), Live(3, "c")])
  {
    hide Shows, Run, Replace, OtherActive;
    var start := ThreeDeployed();
    var a, b, c := New(1, "a"), New(2, "b"), New(3, "c");
    OtherOfThree(a, b, c, 1);
    var one := ActivateCall(start, [a, b, c], 0);
    ReplaceInThree(a, b, c, Live(1, "a"));
    OtherOfThree(Live(1, "a"), b, c, 2);
    var two := ActivateCall(one, [Live(1, "a"), b, c], 1);
    ReplaceInThree(Live(1, "a"), b, c, Retired(Live(1, "a")));
    ReplaceInThree(Retired(Live(1, "a")), b, c, Live(2, "b"));
    OtherOfThree(Retired(Live(1, "a")), Live(2, "b"), c, 3);
    actions := ActivateCall(two, [Retired(Live(1, "a")), Live(2, "b"), c], 2);
    ReplaceInThree(Retired(Live(1, "a")), Live(2, "b"), c, Retired(Live(2, "b")));
    ReplaceInThree(Retired(Live(1, "a")), Retired(Live(2, "b")), c, Live(3, "c"));
  }

  /** There is a run, all at one instant, after which two rollbacks do not restore the active version. */
  lemma CoarseClockBreaksInvolution(t1: real, t2: real) returns (actions: seq<Action>)
    ensures var vs := Versions(Run(actions).reg, "s");
            |vs| == 3 && SingleActive(vs, 2) && RollbackOn(vs, t1).Some? && !Restores(vs, t1, t2, 2)
  {
    hide Run;
    actions := ThreeActivated();
    var vs := [Retired(Live(1, "a")), Retired(Live(2, "b")), Live(3, "c")];
    EveryStateSafe(actions);
    VersionsUnique(Run(actions).reg, "s");
    assert IsTarget(vs, 0) && !Outranks(vs, 2, 1) && IsCandidate(vs[1]);
    LatestCandidateFacts(vs);
    assert vs[0] in vs;
    RestoresIff(vs, t1, t2, 2, 0);
  }
}
