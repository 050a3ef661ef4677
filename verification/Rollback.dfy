/**
 Rollback over activation times (engine/core/strategy_versioning.py): with a
 strictly increasing clock the active version is always the one activated
 last, and so rolling back twice restores it.
 */
module Rollback {
  import opened Wrappers
  import opened IdIndex
  import opened Versioning

  // ----- the clock of a run

  function Clock(t0: real, actions: seq<Action>): real {
    if actions == [] then t0
    else
      var last := actions[|actions| - 1];
      if last.Step? then last.now else Clock(t0, actions[..|actions| - 1])
  }

  /** Every reading of the clock is later than the one before. */
  ghost predicate StrictClock(t0: real, actions: seq<Action>) {
    actions == [] ||
    var init, last := actions[..|actions| - 1], actions[|actions| - 1];
    StrictClock(t0, init) && (last.Step? ==> Clock(t0, init) < last.now)
  }

  ghost predicate ActivatedBy(v: Version, clock: real) {
    v.activatedAt.Some? ==> v.activatedAt.value <= clock
  }

  /** v is not active, or every other activation is before its own. */
  ghost predicate LatestIfActive(vs: seq<Version>, i: nat)
    requires i < |vs|
  {
    vs[i].status.ACTIVE? ==>
      && vs[i].activatedAt.Some?
      && forall k :: 0 <= k < |vs| && k != i && vs[k].activatedAt.Some? ==> vs[k].activatedAt.value < vs[i].activatedAt.value
  }

  ghost predicate Timed(vs: seq<Version>, clock: real) {
    && (forall i :: 0 <= i < |vs| ==> ActivatedBy(vs[i], clock))
    && (forall i :: 0 <= i < |vs| ==> LatestIfActive(vs, i))
  }

  lemma TimedLater(vs: seq<Version>, clock: real, clock': real)
    requires Timed(vs, clock) && clock <= clock'
    ensures Timed(vs, clock')
  {
    forall i | 0 <= i < |vs|
      ensures ActivatedBy(vs[i], clock') && LatestIfActive(vs, i)
    {
      assert ActivatedBy(vs[i], clock) && LatestIfActive(vs, i);
    }
  }

  lemma TimedRetire(vs: seq<Version>, i: nat, w: Version, clock: real)
    requires Timed(vs, clock) && i < |vs| && w.activatedAt == vs[i].activatedAt && !w.status.ACTIVE?
    ensures Timed(vs[i := w], clock)
  {
    var ws := vs[i := w];
    forall k | 0 <= k < |ws|
      ensures ActivatedBy(ws[k], clock) && LatestIfActive(ws, k)
    {
      assert ActivatedBy(vs[k], clock) && LatestIfActive(vs, k);
    }
  }

  lemma TimedPromote(vs: seq<Version>, i: nat, w: Version, clock: real, now: real)
    requires Timed(vs, clock) && clock < now && i < |vs| && w.activatedAt == Some(now)
    requires forall k :: 0 <= k < |vs| && vs[k].status.ACTIVE? ==> k == i
    ensures Timed(vs[i := w], now)
  {
    var ws := vs[i := w];
    forall k | 0 <= k < |ws|
      ensures ActivatedBy(ws[k], now) && LatestIfActive(ws, k)
    {
      assert ActivatedBy(vs[k], clock);
      if k == i {
        forall m | 0 <= m < |vs| && m != i && vs[m].activatedAt.Some?
          ensures vs[m].activatedAt.value < now
        {
          assert ActivatedBy(vs[m], clock);
        }
      }
    }
  }

  lemma TimedAppend(vs: seq<Version>, w: Version, clock: real)
    requires Timed(vs, clock) && w.activatedAt.None? && !w.status.ACTIVE?
    ensures Timed(vs + [w], clock)
  {
    var ws := vs + [w];
    forall k | 0 <= k < |ws|
      ensures ActivatedBy(ws[k], clock) && LatestIfActive(ws, k)
    {
      if k < |vs| {
        assert ActivatedBy(vs[k], clock) && LatestIfActive(vs, k);
      }
    }
  }

  // ----- the active version carries the latest activation, in every reachable state

  lemma RetireTimed(reg: Registry, v: Version, clock: real)
    requires Indexed(reg) && Safe(Versions(reg, v.strategy)) && StoredUpToStatus(reg, v) && Timed(Versions(reg, v.strategy), clock)
    ensures Timed(Versions(Save(reg, Retired(v)), v.strategy), clock)
  {
    var i := RetireSafe(reg, v);
    TimedRetire(Versions(reg, v.strategy), i, Retired(v), clock);
  }

  lemma PromoteTimed(reg: Registry, v: Version, clock: real, now: real)
    requires Indexed(reg) && Stored(reg, v) && OnlyActive(Versions(reg, v.strategy), v.id)
    requires Timed(Versions(reg, v.strategy), clock) && clock < now
    ensures Timed(Versions(Save(reg, Promoted(v, now)), v.strategy), now)
  {
    var i := PlaceOf(reg, v.id);
    var vs := Versions(reg, v.strategy);
    SaveExisting(reg, Promoted(v, now), i);
    VersionsAre(reg, v.strategy);
    forall k | 0 <= k < |vs| && vs[k].status.ACTIVE?
      ensures k == i
    {
      NoDuplicatesMeans(IdsOf(reg, v.strategy), i, k);
    }
    TimedPromote(vs, i, Promoted(v, now), clock, now);
  }

  /** Whatever record a task saves, its strategy stays timed. */
  lemma WriteTimed(reg: Registry, task: Task, clock: real, now: real, newId: nat)
    requires Indexed(reg) && TaskOk(reg, task) && Local(reg, task, now, newId).Write? && clock < now
    requires var s := Local(reg, task, now, newId).v.strategy;
             Safe(Versions(reg, s)) && Timed(Versions(reg, s), clock)
    ensures var v := Local(reg, task, now, newId).v; Timed(Versions(Save(reg, v), v.strategy), now)
  {
    match task
    case DeploySave(s, c, g, n) =>
      var v := Version(newId, s, n, c, g, DRAFT, now, None);
      SaveNew(reg, v);
      TimedAppend(Versions(reg, s), v, clock);
      TimedLater(Versions(Save(reg, v), s), clock, now);
    case ActivateSave(v, pending) =>
      if pending != [] {
        assert pending[0] in pending;
        RetireTimedLater(reg, pending[0], clock, now);
      } else {
        PromoteTimed(reg, v, clock, now);
      }
    case RollbackRetire(active, previous) => RetireTimedLater(reg, active, clock, now);
    case RollbackPromote(previous) =>
      NoneActiveIsOnly(Versions(reg, previous.strategy), previous.id);
      PromoteTimed(reg, previous, clock, now);
    case RetireSave(v) => RetireTimedLater(reg, v, clock, now);
  }

  lemma RetireTimedLater(reg: Registry, v: Version, clock: real, now: real)
    requires Indexed(reg) && Safe(Versions(reg, v.strategy)) && StoredUpToStatus(reg, v)
    requires Timed(Versions(reg, v.strategy), clock) && clock <= now
    ensures Timed(Versions(Save(reg, Retired(v)), v.strategy), now)
  {
    RetireTimed(reg, v, clock);
    TimedLater(Versions(Save(reg, Retired(v)), v.strategy), clock, now);
  }

  lemma StepTimed(sys: System, t: nat, clock: real, now: real, newId: nat, s: string)
    requires Inv(sys) && clock < now && Timed(Versions(sys.reg, s), clock)
    ensures Timed(Versions(Advance(sys, t, now, newId).reg, s), now)
  {
    InvAt(sys, t);
    var task := TaskOf(sys, t);
    var o := Local(sys.reg, task, now, newId);
    LocalOk(sys.reg, task, now, newId);
    if o.Write? && o.v.strategy == s {
      WriteTimed(sys.reg, task, clock, now, newId);
    } else {
      TimedLater(Versions(sys.reg, s), clock, now);
      if o.Write? {
        SaveElsewhere(sys.reg, o.v, s);
      }
    }
  }

  /** In every reachable state under a strict clock the active version was activated last. */
  lemma {:induction false} ActiveIsLatest(t0: real, actions: seq<Action>, s: string)
    requires StrictClock(t0, actions)
    ensures Timed(Versions(Run(actions).reg, s), Clock(t0, actions))
  {
    if actions != [] {
      var init, last := actions[..|actions| - 1], actions[|actions| - 1];
      ActiveIsLatest(t0, init, s);
      EveryStateSafe(init);
      if last.Step? {
        StepTimed(Run(init), last.t, Clock(t0, init), last.now, last.newId, s);
      }
    }
  }

  // ----- what one rollback does to a strategy's list

  /** The list with the record of v's id replaced by v. */
  function Replace(vs: seq<Version>, v: Version): seq<Version> {
    if vs == [] then [] else [if vs[0].id == v.id then v else vs[0]] + Replace(vs[1..], v)
  }

  /** One uninterrupted rollback; None when there is no candidate. */
  function RollbackOn(vs: seq<Version>, now: real): Option<seq<Version>> {
    var active, previous := FirstActive(vs), LatestCandidate(vs);
    if previous.None? then None
    else
      var retired := if active.Some? then Replace(vs, Retired(active.value)) else vs;
      Some(Replace(retired, Promoted(previous.value, now)))
  }

  ghost predicate UniqueIds(vs: seq<Version>) {
    forall i, j :: 0 <= i < |vs| && 0 <= j < |vs| && vs[i].id == vs[j].id ==> i == j
  }

  lemma {:induction false} ReplaceMisses(vs: seq<Version>, v: Version)
    requires forall k :: 0 <= k < |vs| ==> vs[k].id != v.id
    ensures Replace(vs, v) == vs
  {
    if vs != [] {
      ReplaceMisses(vs[1..], v);
    }
  }

  lemma {:induction false} ReplaceAt(vs: seq<Version>, i: nat, v: Version)
    requires i < |vs| && vs[i].id == v.id && UniqueIds(vs)
    ensures Replace(vs, v) == vs[i := v]
  {
    if i == 0 {
      ReplaceMisses(vs[1..], v);
    } else {
      ReplaceAt(vs[1..], i - 1, v);
      assert vs[0].id != v.id;
    }
  }

  lemma VersionsUnique(reg: Registry, s: string)
    requires Indexed(reg)
    ensures UniqueIds(Versions(reg, s))
  {
    VersionsAre(reg, s);
    var vs := Versions(reg, s);
    forall i, j | 0 <= i < |vs| && 0 <= j < |vs| && vs[i].id == vs[j].id
      ensures i == j
    {
      NoDuplicatesMeans(IdsOf(reg, s), i, j);
    }
  }

  /** A rollback from the active version at place a promotes the candidate at another place b. */
  lemma RollbackAt(vs: seq<Version>, now: real, a: nat) returns (b: nat)
    requires UniqueIds(vs) && a < |vs| && FirstActive(vs) == Some(vs[a]) && RollbackOn(vs, now).Some?
    ensures b < |vs| && b != a && IsCandidate(vs[b]) && LatestCandidate(vs) == Some(vs[b])
    ensures RollbackOn(vs, now).value == vs[a := Retired(vs[a])][b := Promoted(vs[b], now)]
  {
    FirstActiveFacts(vs);
    LatestCandidateFacts(vs);
    b :| 0 <= b < |vs| && vs[b] == LatestCandidate(vs).value;
    ReplaceAt(vs, a, Retired(vs[a]));
    var retired := vs[a := Retired(vs[a])];
    UniqueAfter(vs, a, Retired(vs[a]));
    ReplaceAt(retired, b, Promoted(vs[b], now));
  }

  lemma UniqueAfter(vs: seq<Version>, i: nat, w: Version)
    requires UniqueIds(vs) && i < |vs| && w.id == vs[i].id
    ensures UniqueIds(vs[i := w])
  {}

  lemma {:induction false} FirstActiveAt(vs: seq<Version>, i: nat)
    requires i < |vs| && vs[i].status.ACTIVE? && forall k :: 0 <= k < |vs| && k != i ==> !vs[k].status.ACTIVE?
    ensures FirstActive(vs) == Some(vs[i])
  {
    if i > 0 {
      FirstActiveAt(vs[1..], i - 1);
    }
  }

  ghost predicate SingleActive(vs: seq<Version>, a: nat) {
    a < |vs| && vs[a].status.ACTIVE? && forall k :: 0 <= k < |vs| && vs[k].status.ACTIVE? ==> k == a
  }

  /** Activated after k, or at the same time and listed before it. */
  predicate Outranks(vs: seq<Version>, a: nat, k: nat)
    requires a < |vs| && k < |vs|
  {
    && vs[a].activatedAt.Some? && vs[k].activatedAt.Some?
    && (vs[k].activatedAt.value < vs[a].activatedAt.value || (vs[k].activatedAt.value == vs[a].activatedAt.value && a < k))
  }

  /** The candidate that max() picks: the first of the greatest activation time. */
  ghost predicate IsTarget(vs: seq<Version>, m: nat) {
    m < |vs| && IsCandidate(vs[m]) && forall k :: 0 <= k < |vs| && k != m && IsCandidate(vs[k]) ==> Outranks(vs, m, k)
  }

  lemma {:induction false} TargetPlace(vs: seq<Version>) returns (m: nat)
    requires LatestCandidate(vs).Some?
    ensures IsTarget(vs, m) && vs[m] == LatestCandidate(vs).value
  {
    var rest := vs[1..];
    LatestCandidateFacts(vs);
    LatestCandidateFacts(rest);
    assert forall k :: 0 < k < |vs| ==> vs[k] == rest[k - 1] && vs[k] in rest;
    if LatestCandidate(rest).Some? && LatestCandidate(vs) == LatestCandidate(rest) && Later(vs[0], LatestCandidate(rest)) != Some(vs[0]) {
      var n := TargetPlace(rest);
      m := n + 1;
      forall k | 0 <= k < |vs| && k != m && IsCandidate(vs[k])
        ensures Outranks(vs, m, k)
      {
        if k > 0 {
          assert Outranks(rest, n, k - 1);
        }
      }
    } else {
      m := 0;
    }
  }

  lemma OneTarget(vs: seq<Version>, m: nat, n: nat)
    requires IsTarget(vs, m) && IsTarget(vs, n)
    ensures m == n
  {
    var mn, nm := Outranks(vs, m, n), Outranks(vs, n, m);
  }

  /** The condition on the list, before the first rollback, under which the second one comes back. */
  ghost predicate ComesBack(vs: seq<Version>, a: nat, b: nat)
    requires a < |vs|
  {
    vs[a].activatedAt.Some?
    && forall k :: 0 <= k < |vs| && k != a && k != b && IsCandidate(vs[k]) ==> Outranks(vs, a, k)
  }

  lemma TargetAfterRollback(vs: seq<Version>, now: real, a: nat, b: nat)
    requires SingleActive(vs, a) && b < |vs| && a != b && IsCandidate(vs[b])
    ensures IsTarget(vs[a := Retired(vs[a])][b := Promoted(vs[b], now)], a) <==> ComesBack(vs, a, b)
  {
    var vs' := vs[a := Retired(vs[a])][b := Promoted(vs[b], now)];
    if IsTarget(vs', a) {
      forall k | 0 <= k < |vs| && k != a && k != b && IsCandidate(vs[k])
        ensures Outranks(vs, a, k)
      {
        assert Outranks(vs', a, k);
      }
    }
    if ComesBack(vs, a, b) {
      forall k | 0 <= k < |vs'| && k != a && IsCandidate(vs'[k])
        ensures Outranks(vs', a, k)
      {
        assert Outranks(vs, a, k);
      }
    }
  }

  ghost predicate Restores(vs: seq<Version>, t1: real, t2: real, a: nat)
    requires a < |vs| && RollbackOn(vs, t1).Some?
  {
    var twice := RollbackOn(RollbackOn(vs, t1).value, t2);
    twice.Some? && FirstActive(twice.value) == Some(Promoted(vs[a], t2))
  }

  /** Whatever the clock reads, two rollbacks restore the active version exactly if no third candidate outranks it. */
  lemma RestoresIff(vs: seq<Version>, t1: real, t2: real, a: nat, b: nat)
    requires UniqueIds(vs) && SingleActive(vs, a) && LatestCandidate(vs).Some? && IsTarget(vs, b)
    ensures RollbackOn(vs, t1).Some? && (Restores(vs, t1, t2, a) <==> ComesBack(vs, a, b))
    ensures ComesBack(vs, a, b) ==>
              RollbackOn(RollbackOn(vs, t1).value, t2) == Some(vs[a := Promoted(vs[a], t2)][b := Retired(Promoted(vs[b], t1))])
  {
    var vs1 := OnceRolledBack(vs, t1, a, b);
    TargetAfterRollback(vs, t1, a, b);
    FirstActiveAt(vs1, b);
    if LatestCandidate(vs1).Some? {
      SecondRollback(vs, t1, t2, a, b, vs1);
    } else if IsTarget(vs1, a) {
      LatestCandidateFacts(vs1);
    }
  }

  lemma OnceRolledBack(vs: seq<Version>, t1: real, a: nat, b: nat) returns (vs1: seq<Version>)
    requires UniqueIds(vs) && SingleActive(vs, a) && LatestCandidate(vs).Some? && IsTarget(vs, b)
    ensures RollbackOn(vs, t1) == Some(vs1) && vs1 == vs[a := Retired(vs[a])][b := Promoted(vs[b], t1)]
    ensures UniqueIds(vs1) && SingleActive(vs1, b) && a != b
  {
    FirstActiveAt(vs, a);
    var b' := RollbackAt(vs, t1, a);
    var m := TargetPlace(vs);
    assert vs[m].id == vs[b'].id;
    OneTarget(vs, b, m);
    vs1 := vs[a := Retired(vs[a])][b := Promoted(vs[b], t1)];
    UniqueAfter(vs, a, Retired(vs[a]));
    UniqueAfter(vs[a := Retired(vs[a])], b, Promoted(vs[b], t1));
  }

  lemma SecondRollback(vs: seq<Version>, t1: real, t2: real, a: nat, b: nat, vs1: seq<Version>)
    requires UniqueIds(vs) && a < |vs| && b < |vs| && a != b && vs1 == vs[a := Retired(vs[a])][b := Promoted(vs[b], t1)]
    requires UniqueIds(vs1) && SingleActive(vs1, b) && LatestCandidate(vs1).Some?
    ensures RollbackOn(vs1, t2).Some?
    ensures FirstActive(RollbackOn(vs1, t2).value) == Some(Promoted(vs[a], t2)) <==> IsTarget(vs1, a)
    ensures IsTarget(vs1, a) ==> RollbackOn(vs1, t2).value == vs[a := Promoted(vs[a], t2)][b := Retired(Promoted(vs[b], t1))]
  {
    var m := TargetPlace(vs1);
    var vs2 := OnceRolledBack(vs1, t2, b, m);
    FirstActiveAt(vs2, m);
    if IsTarget(vs1, a) {
      OneTarget(vs1, a, m);
    }
    if a != m {
      assert vs1[m].id != vs1[a].id;
    } else {
      assert vs2 == vs[a := Promoted(vs[a], t2)][b := Retired(Promoted(vs[b], t1))];
    }
  }

  /** When the active version was activated last, rolling back twice restores it and leaves every third version as it was. */
  lemma RollbackTwice(vs: seq<Version>, clock: real, t1: real, t2: real, a: nat)
    requires UniqueIds(vs) && Timed(vs, clock) && SingleActive(vs, a)
    requires RollbackOn(vs, t1).Some?
    ensures Restores(vs, t1, t2, a)
    ensures exists b :: 0 <= b < |vs| && b != a &&
                        RollbackOn(RollbackOn(vs, t1).value, t2) == Some(vs[a := Promoted(vs[a], t2)][b := Retired(Promoted(vs[b], t1))])
  {
    var b := TargetPlace(vs);
    assert LatestIfActive(vs, a);
    RestoresIff(vs, t1, t2, a, b);
  }

  /** In a reachable state the active version of a strategy stands at one place. */
  lemma ActivePlace(actions: seq<Action>, s: string) returns (a: nat)
    requires FirstActive(Versions(Run(actions).reg, s)).Some?
    ensures UniqueIds(Versions(Run(actions).reg, s)) && SingleActive(Versions(Run(actions).reg, s), a)
    ensures FirstActive(Versions(Run(actions).reg, s)) == Some(Versions(Run(actions).reg, s)[a])
  {
    var vs := Versions(Run(actions).reg, s);
    EveryStateSafe(actions);
    VersionsUnique(Run(actions).reg, s);
    FirstActiveFacts(vs);
    a :| 0 <= a < |vs| && vs[a] == FirstActive(vs).value;
    assert Safe(vs);
    forall k | 0 <= k < |vs| && vs[k].status.ACTIVE?
      ensures k == a
    {
      if k < a { SafeMeans(vs, k, a); }
      if a < k { SafeMeans(vs, a, k); }
    }
  }

  /** From every state that tasks reach under a strict clock, two rollbacks restore the active version. */
  lemma RollbackIsInvolution(t0: real, actions: seq<Action>, s: string, t1: real, t2: real)
    requires StrictClock(t0, actions)
    requires FirstActive(Versions(Run(actions).reg, s)).Some?
    requires RollbackOn(Versions(Run(actions).reg, s), t1).Some?
    ensures var vs := Versions(Run(actions).reg, s);
            var again := RollbackOn(RollbackOn(vs, t1).value, t2);
            again.Some? && FirstActive(again.value) == Some(Promoted(FirstActive(vs).value, t2))
  {
    ActiveIsLatest(t0, actions, s);
    var a := ActivePlace(actions, s);
    RollbackTwice(Versions(Run(actions).reg, s), Clock(t0, actions), t1, t2, a);
  }

  // ----- the stepped rollback is that rollback

  function StepN(sys: System, t: nat, now: real, newId: nat, n: nat): System
    decreases n
  {
    if n == 0 then sys else StepN(Advance(sys, t, now, newId), t, now, newId, n - 1)
  }

  /** Four uninterrupted steps of a task that asks for a rollback carry it out on the registry. */
  lemma LoneRollback(sys: System, t: nat, s: string, now: real, newId: nat)
    requires Inv(sys) && TaskOf(sys, t) == RollbackWait(s) && s !in sys.locks
    ensures var vs := Versions(sys.reg, s);
            Versions(StepN(sys, t, now, newId, 4).reg, s) == if RollbackOn(vs, now).Some? then RollbackOn(vs, now).value else vs
  {
    var s2 := Advance(Advance(sys, t, now, newId), t, now, newId);
    LonePlan(sys, t, s, now, newId);
    LoneSaves(s2, t, s, now, newId);
    assert StepN(sys, t, now, newId, 4) == StepN(s2, t, now, newId, 2);
  }

  lemma LonePlan(sys: System, t: nat, s: string, now: real, newId: nat)
    requires TaskOf(sys, t) == RollbackWait(s) && s !in sys.locks
    ensures var s2 := Advance(Advance(sys, t, now, newId), t, now, newId);
            TaskOf(s2, t) == RollbackPlan(s, Versions(sys.reg, s)) && s2.reg == sys.reg
  {
    var s1 := Advance(sys, t, now, newId);
    assert s1.reg == sys.reg && TaskOf(s1, t) == RollbackList(s);
  }

  lemma LoneSaves(sys: System, t: nat, s: string, now: real, newId: nat)
    requires Indexed(sys.reg) && TaskOf(sys, t) == RollbackPlan(s, Versions(sys.reg, s))
    ensures var vs := Versions(sys.reg, s);
            Versions(StepN(sys, t, now, newId, 2).reg, s) == if RollbackOn(vs, now).Some? then RollbackOn(vs, now).value else vs
  {
    hide Versions, Save;
    RollbackSaves(sys.reg, s, now);
    var s1 := Advance(sys, t, now, newId);
    var s2 := Advance(s1, t, now, newId);
    assert StepN(sys, t, now, newId, 2) == StepN(s1, t, now, newId, 1) == StepN(s2, t, now, newId, 0) == s2;
    var task := TaskOf(sys, t);
    if task.RollbackRetire? {
      assert TaskOf(s1, t) == RollbackPromote(task.previous);
    } else if task.RollbackPromote? {
      assert TaskOf(s1, t) == Releasing(task.previous.strategy);
      assert s2.reg == s1.reg;
    } else {
      assert task == Releasing(s) && TaskOf(s1, t) == Idle;
      assert s1.reg == sys.reg && s2.reg == s1.reg;
    }
  }

  /** The saves of a rollback, read off the list. */
  lemma RollbackSaves(reg: Registry, s: string, now: real)
    requires Indexed(reg)
    ensures var vs := Versions(reg, s);
            var active, previous := FirstActive(vs), LatestCandidate(vs);
            && (active.Some? && previous.Some? ==>
                  RollbackOn(vs, now) == Some(Versions(Save(Save(reg, Retired(active.value)), Promoted(previous.value, now)), s)))
            && (active.None? && previous.Some? ==>
                  RollbackOn(vs, now) == Some(Versions(Save(reg, Promoted(previous.value, now)), s)))
  {
    var vs := Versions(reg, s);
    var active, previous := FirstActive(vs), LatestCandidate(vs);
    FirstActiveFacts(vs);
    LatestCandidateFacts(vs);
    if previous.Some? {
      ListedIsStored(reg, s, previous.value);
      if active.Some? {
        ListedIsStored(reg, s, active.value);
        SaveIsReplace(reg, Retired(active.value));
        SaveIsReplace(Save(reg, Retired(active.value)), Promoted(previous.value, now));
      } else {
        SaveIsReplace(reg, Promoted(previous.value, now));
      }
    }
  }

  lemma SaveIsReplace(reg: Registry, v: Version)
    requires Indexed(reg) && v.id in reg.byId && reg.byId[v.id].strategy == v.strategy
    ensures Indexed(Save(reg, v))
    ensures Versions(Save(reg, v), v.strategy) == Replace(Versions(reg, v.strategy), v)
  {
    var i := PlaceOf(reg, v.id);
    SaveKeepsIndexed(reg, v);
    SaveExisting(reg, v, i);
    VersionsUnique(reg, v.strategy);
    ReplaceAt(Versions(reg, v.strategy), i, v);
  }
}
