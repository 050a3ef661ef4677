/**
 Strategy versions (engine/core/strategy_versioning.py): the registry, and
 the four lifecycle operations as steps of concurrent tasks. Every await is a
 step boundary, every step makes at most one registry save, and a lock per
 strategy is all that orders the tasks. Hashes and ids are opaque values.
 */
module Versioning {
  import opened Wrappers
  import opened IdIndex

  datatype Status = DRAFT | ACTIVE | RETIRED

  datatype Version = Version(
    id: nat, strategy: string, number: int, codeHash: string, configHash: string,
    status: Status, createdAt: real, activatedAt: Option<real>)

  // ----- the registry

  datatype Registry = Registry(byId: map<nat, Version>, byStrategy: map<string, seq<nat>>)

  function IdsOf(reg: Registry, s: string): seq<nat> {
    if s in reg.byStrategy then reg.byStrategy[s] else []
  }

  function Get(reg: Registry, id: nat): Option<Version> {
    if id in reg.byId then Some(reg.byId[id]) else None
  }

  function Save(reg: Registry, v: Version): Registry {
    Registry(reg.byId[v.id := v],
             if v.id in reg.byId then reg.byStrategy
             else reg.byStrategy[v.strategy := IdsOf(reg, v.strategy) + [v.id]])
  }

  /** list_for_strategy. */
  function Versions(reg: Registry, s: string): seq<Version> {
    Lookup(reg.byId, IdsOf(reg, s))
  }

  function FindByHashes(vs: seq<Version>, codeHash: string, configHash: string): Option<Version> {
    if vs == [] then None
    else if vs[0].codeHash == codeHash && vs[0].configHash == configHash then Some(vs[0])
    else FindByHashes(vs[1..], codeHash, configHash)
  }

  /** The two indexes agree: every id is listed once, under its own strategy. */
  ghost predicate Indexed(reg: Registry) {
    && (forall s, i :: s in reg.byStrategy && 0 <= i < |reg.byStrategy[s]| ==>
          reg.byStrategy[s][i] in reg.byId && reg.byId[reg.byStrategy[s][i]].strategy == s)
    && (forall id :: id in reg.byId ==> reg.byId[id].id == id && id in IdsOf(reg, reg.byId[id].strategy))
    && (forall s :: s in reg.byStrategy ==> NoDuplicates(reg.byStrategy[s]))
  }

  lemma VersionsAre(reg: Registry, s: string)
    requires Indexed(reg)
    ensures |Versions(reg, s)| == |IdsOf(reg, s)|
    ensures forall i :: 0 <= i < |IdsOf(reg, s)| ==>
              IdsOf(reg, s)[i] in reg.byId && Versions(reg, s)[i] == reg.byId[IdsOf(reg, s)[i]]
              && Versions(reg, s)[i].strategy == s && Versions(reg, s)[i].id == IdsOf(reg, s)[i]
  {
    LookupAll(reg.byId, IdsOf(reg, s));
  }

  /** The place of a stored version in its strategy's list. */
  lemma PlaceOf(reg: Registry, id: nat) returns (i: nat)
    requires Indexed(reg) && id in reg.byId
    ensures i < |Versions(reg, reg.byId[id].strategy)| && Versions(reg, reg.byId[id].strategy)[i] == reg.byId[id]
  {
    var s := reg.byId[id].strategy;
    VersionsAre(reg, s);
    i :| 0 <= i < |IdsOf(reg, s)| && IdsOf(reg, s)[i] == id;
  }

  lemma SaveLists(reg: Registry, v: Version, s: string)
    ensures IdsOf(Save(reg, v), s) == if v.id !in reg.byId && s == v.strategy then IdsOf(reg, s) + [v.id] else IdsOf(reg, s)
    ensures s in Save(reg, v).byStrategy <==> s in reg.byStrategy || (v.id !in reg.byId && s == v.strategy)
  {}

  lemma SavedListOk(reg: Registry, v: Version, s: string)
    requires Indexed(reg) && (v.id in reg.byId ==> reg.byId[v.id].strategy == v.strategy)
    ensures var ids := IdsOf(Save(reg, v), s);
            && NoDuplicates(ids)
            && forall i :: 0 <= i < |ids| ==> ids[i] in Save(reg, v).byId && Save(reg, v).byId[ids[i]].strategy == s
  {
    SaveLists(reg, v, s);
    var ids := IdsOf(reg, s);
    assert forall i :: 0 <= i < |ids| ==> ids[i] in reg.byId && reg.byId[ids[i]].strategy == s;
    if v.id !in reg.byId && s == v.strategy {
      NoDuplicatesAppend(ids, v.id);
    }
  }

  lemma SaveKeepsIndexed(reg: Registry, v: Version)
    requires Indexed(reg) && (v.id in reg.byId ==> reg.byId[v.id].strategy == v.strategy)
    ensures Indexed(Save(reg, v))
  {
    var reg' := Save(reg, v);
    forall s
      ensures s in reg'.byStrategy ==> IdsOf(reg', s) == reg'.byStrategy[s] && NoDuplicates(reg'.byStrategy[s])
      ensures forall i :: s in reg'.byStrategy && 0 <= i < |reg'.byStrategy[s]| ==>
                reg'.byStrategy[s][i] in reg'.byId && reg'.byId[reg'.byStrategy[s][i]].strategy == s
    {
      SavedListOk(reg, v, s);
    }
    forall id | id in reg'.byId
      ensures reg'.byId[id].id == id && id in IdsOf(reg', reg'.byId[id].strategy)
    {
      SaveLists(reg, v, reg'.byId[id].strategy);
      if id != v.id {
        assert id in IdsOf(reg, reg.byId[id].strategy);
      }
    }
  }

  /** A save shows in no other strategy's list. */
  lemma SaveElsewhere(reg: Registry, v: Version, s: string)
    requires Indexed(reg) && (v.id in reg.byId ==> reg.byId[v.id].strategy == v.strategy) && s != v.strategy
    ensures Versions(Save(reg, v), s) == Versions(reg, s)
  {
    var reg' := Save(reg, v);
    SaveKeepsIndexed(reg, v);
    VersionsAre(reg, s);
    VersionsAre(reg', s);
    forall k | 0 <= k < |Versions(reg, s)|
      ensures Versions(reg, s)[k] == Versions(reg', s)[k]
    {}
  }

  /** Saving a stored id replaces its record in place. */
  lemma SaveExisting(reg: Registry, v: Version, i: nat)
    requires Indexed(reg) && v.id in reg.byId && reg.byId[v.id].strategy == v.strategy
    requires i < |Versions(reg, v.strategy)| && Versions(reg, v.strategy)[i].id == v.id
    ensures Versions(Save(reg, v), v.strategy) == Versions(reg, v.strategy)[i := v]
  {
    var reg' := Save(reg, v);
    SaveKeepsIndexed(reg, v);
    VersionsAre(reg, v.strategy);
    VersionsAre(reg', v.strategy);
    var after := Versions(reg, v.strategy)[i := v];
    forall k | 0 <= k < |after|
      ensures Versions(reg', v.strategy)[k] == after[k]
    {
      if IdsOf(reg, v.strategy)[k] == v.id {
        NoDuplicatesMeans(IdsOf(reg, v.strategy), i, k);
      }
    }
  }

  /** Saving a new id appends to its strategy's list. */
  lemma SaveNew(reg: Registry, v: Version)
    requires Indexed(reg) && v.id !in reg.byId
    ensures Versions(Save(reg, v), v.strategy) == Versions(reg, v.strategy) + [v]
  {
    var reg' := Save(reg, v);
    SaveKeepsIndexed(reg, v);
    assert IdsOf(reg', v.strategy) == IdsOf(reg, v.strategy) + [v.id];
    VersionsAre(reg, v.strategy);
    VersionsAre(reg', v.strategy);
    var after := Versions(reg, v.strategy) + [v];
    forall k | 0 <= k < |after|
      ensures Versions(reg', v.strategy)[k] == after[k]
    {}
  }

  // ----- what holds of one strategy after every save

  ghost predicate NoneActive(vs: seq<Version>) {
    vs == [] || (!vs[|vs| - 1].status.ACTIVE? && NoneActive(vs[..|vs| - 1]))
  }

  /** Version by version: the next number, a new hash pair, and no second active one. */
  ghost predicate Safe(vs: seq<Version>) {
    vs == [] ||
    var init, last := vs[..|vs| - 1], vs[|vs| - 1];
    && Safe(init)
    && last.number == |vs|
    && FindByHashes(init, last.codeHash, last.configHash).None?
    && (last.status.ACTIVE? ==> NoneActive(init))
  }

  function MaxNumber(vs: seq<Version>): int {
    if vs == [] then 0
    else
      var m := MaxNumber(vs[..|vs| - 1]);
      if vs[|vs| - 1].number > m then vs[|vs| - 1].number else m
  }

  lemma {:induction false} MaxNumberIsLength(vs: seq<Version>)
    requires Safe(vs)
    ensures MaxNumber(vs) == |vs|
  {
    if vs != [] {
      MaxNumberIsLength(vs[..|vs| - 1]);
    }
  }

  lemma {:induction false} FindMisses(vs: seq<Version>, codeHash: string, configHash: string, i: nat)
    requires FindByHashes(vs, codeHash, configHash).None? && i < |vs|
    ensures !(vs[i].codeHash == codeHash && vs[i].configHash == configHash)
  {
    if i > 0 {
      FindMisses(vs[1..], codeHash, configHash, i - 1);
    }
  }

  lemma {:induction false} NoneActiveMeans(vs: seq<Version>, i: nat)
    requires NoneActive(vs) && i < |vs|
    ensures !vs[i].status.ACTIVE?
  {
    if i < |vs| - 1 {
      NoneActiveMeans(vs[..|vs| - 1], i);
    }
  }

  lemma {:induction false} NoneActiveIf(vs: seq<Version>)
    requires forall i :: 0 <= i < |vs| ==> !vs[i].status.ACTIVE?
    ensures NoneActive(vs)
  {
    if vs != [] {
      NoneActiveIf(vs[..|vs| - 1]);
    }
  }

  /** Safe, spelled out for one version and for two. */
  lemma {:induction false} SafeMeans(vs: seq<Version>, i: nat, j: nat)
    requires Safe(vs) && i < j < |vs|
    ensures vs[i].number == i + 1 && vs[j].number == j + 1
    ensures !(vs[i].status.ACTIVE? && vs[j].status.ACTIVE?)
    ensures !(vs[i].codeHash == vs[j].codeHash && vs[i].configHash == vs[j].configHash)
  {
    var init := vs[..|vs| - 1];
    if j < |vs| - 1 {
      SafeMeans(init, i, j);
    } else {
      FindMisses(init, vs[j].codeHash, vs[j].configHash, i);
      if vs[j].status.ACTIVE? {
        NoneActiveMeans(init, i);
      }
      SafeNumber(init, i);
    }
  }

  lemma {:induction false} SafeNumber(vs: seq<Version>, i: nat)
    requires Safe(vs) && i < |vs|
    ensures vs[i].number == i + 1
  {
    if i < |vs| - 1 {
      SafeNumber(vs[..|vs| - 1], i);
    }
  }

  ghost predicate SameDeployment(v: Version, w: Version) {
    v.number == w.number && v.codeHash == w.codeHash && v.configHash == w.configHash
  }

  lemma {:induction false} FindUpdated(vs: seq<Version>, i: nat, w: Version, codeHash: string, configHash: string)
    requires i < |vs| && SameDeployment(vs[i], w) && FindByHashes(vs, codeHash, configHash).None?
    ensures FindByHashes(vs[i := w], codeHash, configHash).None?
  {
    if i > 0 {
      FindUpdated(vs[1..], i - 1, w, codeHash, configHash);
      assert vs[i := w][1..] == vs[1..][i - 1 := w];
    } else {
      assert vs[i := w][1..] == vs[1..];
    }
  }

  /** Taking one version out of service keeps a list safe. */
  lemma {:induction false} RetireInList(vs: seq<Version>, i: nat, w: Version)
    requires Safe(vs) && i < |vs| && SameDeployment(vs[i], w) && !w.status.ACTIVE?
    ensures Safe(vs[i := w])
    ensures NoneActive(vs) ==> NoneActive(vs[i := w])
    ensures vs[i].status.ACTIVE? ==> NoneActive(vs[i := w])
  {
    var n := |vs| - 1;
    if i < n {
      RetireInList(vs[..n], i, w);
      FindUpdated(vs[..n], i, w, vs[n].codeHash, vs[n].configHash);
      assert vs[i := w][..n] == vs[..n][i := w];
      if vs[i].status.ACTIVE? && vs[n].status.ACTIVE? {
        NoneActiveMeans(vs[..n], i);
      }
    } else {
      assert vs[i := w][..n] == vs[..n];
    }
  }

  /** Making one version active keeps a list safe when no other is. */
  lemma {:induction false} PromoteInList(vs: seq<Version>, i: nat, w: Version)
    requires Safe(vs) && i < |vs| && SameDeployment(vs[i], w)
    requires forall k :: 0 <= k < |vs| && vs[k].status.ACTIVE? ==> k == i
    ensures Safe(vs[i := w])
  {
    var n := |vs| - 1;
    if i < n {
      PromoteInList(vs[..n], i, w);
      FindUpdated(vs[..n], i, w, vs[n].codeHash, vs[n].configHash);
      assert vs[i := w][..n] == vs[..n][i := w];
    } else {
      NoneActiveIf(vs[..n]);
      assert vs[i := w][..n] == vs[..n];
    }
  }

  // ----- the tasks

  /** Where a task stands; the records it carries are the snapshots its code holds in local variables. */
  datatype Task =
    | Idle
    | DeployWait(strategy: string, codeHash: string, configHash: string)
    | DeployFind(strategy: string, codeHash: string, configHash: string)
    | DeployList(strategy: string, codeHash: string, configHash: string)
    | DeploySave(strategy: string, codeHash: string, configHash: string, number: int)
    | ActivateRead(id: nat)
    | ActivateWait(id: nat, strategy: string)
    | ActivateGet(id: nat, strategy: string)
    | ActivateList(current: Version)
    | ActivateSave(current: Version, pending: seq<Version>)
    | RollbackWait(strategy: string)
    | RollbackList(strategy: string)
    | RollbackRetire(active: Version, previous: Version)
    | RollbackPromote(previous: Version)
    | RetireRead(id: nat, allowActive: bool)
    | RetireWait(id: nat, strategy: string, allowActive: bool)
    | RetireGet(id: nat, strategy: string, allowActive: bool)
    | RetireSave(current: Version)
    | Releasing(strategy: string)

  /** The strategy whose lock the task holds. */
  function Holding(task: Task): Option<string> {
    match task
    case DeployFind(s, _, _) => Some(s)
    case DeployList(s, _, _) => Some(s)
    case DeploySave(s, _, _, _) => Some(s)
    case ActivateGet(_, s) => Some(s)
    case ActivateList(v) => Some(v.strategy)
    case ActivateSave(v, _) => Some(v.strategy)
    case RollbackList(s) => Some(s)
    case RollbackRetire(_, v) => Some(v.strategy)
    case RollbackPromote(v) => Some(v.strategy)
    case RetireGet(_, s, _) => Some(s)
    case RetireSave(v) => Some(v.strategy)
    case Releasing(s) => Some(s)
    case _ => None
  }

  datatype System = System(reg: Registry, locks: map<string, nat>, tasks: map<nat, Task>)

  function TaskOf(sys: System, t: nat): Task {
    if t in sys.tasks then sys.tasks[t] else Idle
  }

  function Goto(sys: System, t: nat, task: Task): System {
    sys.(tasks := sys.tasks[t := task])
  }

  function Store(sys: System, t: nat, v: Version, next: Task): System {
    Goto(sys.(reg := Save(sys.reg, v)), t, next)
  }

  /** The siblings that activate is about to retire. */
  function OtherActive(vs: seq<Version>, id: nat): seq<Version> {
    if vs == [] then []
    else (if vs[0].id != id && vs[0].status.ACTIVE? then [vs[0]] else []) + OtherActive(vs[1..], id)
  }

  function FirstActive(vs: seq<Version>): Option<Version> {
    if vs == [] then None else if vs[0].status.ACTIVE? then Some(vs[0]) else FirstActive(vs[1..])
  }

  /** A retired version that has been live. */
  predicate IsCandidate(v: Version) {
    v.status.RETIRED? && v.activatedAt.Some?
  }

  /** v if it is a candidate that was live no earlier than the best of the later ones. */
  function Later(v: Version, rest: Option<Version>): Option<Version> {
    if IsCandidate(v) && (rest.Some? && rest.value.activatedAt.Some? ==> v.activatedAt.value >= rest.value.activatedAt.value)
    then Some(v) else rest
  }

  /** The rollback target: the first of the candidates with the greatest activation time. */
  function LatestCandidate(vs: seq<Version>): Option<Version> {
    if vs == [] then None else Later(vs[0], LatestCandidate(vs[1..]))
  }

  function Retired(v: Version): Version { v.(status := RETIRED) }

  function Promoted(v: Version, now: real): Version { v.(status := ACTIVE, activatedAt := Some(now)) }

  /** What a task does up to its next await: wait for a lock, move on, save one record, or release its lock. */
  datatype Outcome = Stay | Lock(strategy: string, next: Task) | Move(next: Task) | Write(v: Version, next: Task) | Unlock(strategy: string)

  function Local(reg: Registry, task: Task, now: real, newId: nat): Outcome {
    match task
    case Idle => Stay
    case DeployWait(s, c, g) => Lock(s, DeployFind(s, c, g))
    case DeployFind(s, c, g) =>
      Move(if FindByHashes(Versions(reg, s), c, g).Some? then Releasing(s) else DeployList(s, c, g))
    case DeployList(s, c, g) => Move(DeploySave(s, c, g, MaxNumber(Versions(reg, s)) + 1))
    case DeploySave(s, c, g, n) =>
      if newId in reg.byId then Stay else Write(Version(newId, s, n, c, g, DRAFT, now, None), Releasing(s))
    case ActivateRead(id) =>
      var v := Get(reg, id);
      Move(if v.Some? then ActivateWait(id, v.value.strategy) else Idle)
    case ActivateWait(id, s) => Lock(s, ActivateGet(id, s))
    case ActivateGet(id, s) =>
      var v := Get(reg, id);
      Move(if v.Some? && !v.value.status.RETIRED? then ActivateList(v.value) else Releasing(s))
    case ActivateList(v) => Move(ActivateSave(v, OtherActive(Versions(reg, v.strategy), v.id)))
    case ActivateSave(v, pending) =>
      if pending != [] then Write(Retired(pending[0]), ActivateSave(v, pending[1..]))
      else Write(Promoted(v, now), Releasing(v.strategy))
    case RollbackWait(s) => Lock(s, RollbackList(s))
    case RollbackList(s) => Move(RollbackPlan(s, Versions(reg, s)))
    case RollbackRetire(active, previous) => Write(Retired(active), RollbackPromote(previous))
    case RollbackPromote(previous) => Write(Promoted(previous, now), Releasing(previous.strategy))
    case RetireRead(id, allow) =>
      var v := Get(reg, id);
      Move(if v.Some? then RetireWait(id, v.value.strategy, allow) else Idle)
    case RetireWait(id, s, allow) => Lock(s, RetireGet(id, s, allow))
    case RetireGet(id, s, allow) =>
      var v := Get(reg, id);
      Move(if v.Some? && (v.value.status.ACTIVE? ==> allow) then RetireSave(v.value) else Releasing(s))
    case RetireSave(v) => Write(Retired(v), Releasing(v.strategy))
    case Releasing(s) => Unlock(s)
  }

  /** What rollback decides on from the list: the error path releases the lock. */
  function RollbackPlan(s: string, vs: seq<Version>): Task {
    var active, previous := FirstActive(vs), LatestCandidate(vs);
    if previous.None? then Releasing(s)
    else if active.Some? then RollbackRetire(active.value, previous.value)
    else RollbackPromote(previous.value)
  }

  /** One step of task t. A task that waits for a held lock stays where it is. */
  function Advance(sys: System, t: nat, now: real, newId: nat): System {
    match Local(sys.reg, TaskOf(sys, t), now, newId)
    case Stay => sys
    case Lock(s, next) => if s in sys.locks then sys else Goto(sys.(locks := sys.locks[s := t]), t, next)
    case Move(next) => Goto(sys, t, next)
    case Write(v, next) => Store(sys, t, v, next)
    case Unlock(s) => Goto(sys.(locks := sys.locks - {s}), t, Idle)
  }

  /** A call begins: the task leaves Idle. */
  predicate IsStart(task: Task) {
    task.DeployWait? || task.ActivateRead? || task.RollbackWait? || task.RetireRead?
  }

  datatype Action = Begin(t: nat, task: Task) | Step(t: nat, now: real, newId: nat)

  function Act(sys: System, a: Action): System {
    match a
    case Begin(t, task) => if TaskOf(sys, t).Idle? && IsStart(task) then Goto(sys, t, task) else sys
    case Step(t, now, newId) => Advance(sys, t, now, newId)
  }

  const INITIAL := System(Registry(map[], map[]), map[], map[])

  function Run(actions: seq<Action>): System {
    if actions == [] then INITIAL else Act(Run(actions[..|actions| - 1]), actions[|actions| - 1])
  }

  // ----- the inductive invariant

  ghost predicate Stored(reg: Registry, v: Version) {
    v.id in reg.byId && reg.byId[v.id] == v
  }

  /** The stored record of v's id is v up to its status. */
  ghost predicate StoredUpToStatus(reg: Registry, v: Version) {
    v.id in reg.byId && reg.byId[v.id].(status := v.status) == v
  }

  /** What the snapshots of a task still say about the registry. */
  ghost predicate TaskOk(reg: Registry, task: Task) {
    match task
    case DeployList(s, c, g) => FindByHashes(Versions(reg, s), c, g).None?
    case DeploySave(s, c, g, n) => FindByHashes(Versions(reg, s), c, g).None? && n == |Versions(reg, s)| + 1
    case ActivateWait(id, s) => id in reg.byId && reg.byId[id].strategy == s
    case ActivateGet(id, s) => id in reg.byId && reg.byId[id].strategy == s
    case ActivateList(v) => Stored(reg, v)
    case ActivateSave(v, pending) =>
      && Stored(reg, v)
      && (forall p :: p in pending ==> p.strategy == v.strategy && p.id != v.id && StoredUpToStatus(reg, p))
      && (forall i :: 0 <= i < |Versions(reg, v.strategy)| && Versions(reg, v.strategy)[i].status.ACTIVE?
            ==> Versions(reg, v.strategy)[i].id == v.id || Versions(reg, v.strategy)[i] in pending)
    case RollbackRetire(active, previous) =>
      Stored(reg, active) && active.status.ACTIVE? && active.strategy == previous.strategy
      && Stored(reg, previous) && IsCandidate(previous)
    case RollbackPromote(previous) =>
      Stored(reg, previous) && IsCandidate(previous) && NoneActive(Versions(reg, previous.strategy))
    case RetireWait(id, s, _) => id in reg.byId && reg.byId[id].strategy == s
    case RetireGet(id, s, _) => id in reg.byId && reg.byId[id].strategy == s
    case RetireSave(v) => Stored(reg, v)
    case _ => true
  }

  ghost predicate LockHeld(sys: System, t: nat) {
    var h := Holding(TaskOf(sys, t));
    h.Some? ==> h.value in sys.locks && sys.locks[h.value] == t
  }

  ghost predicate Inv(sys: System) {
    && Indexed(sys.reg)
    && (forall s :: Safe(Versions(sys.reg, s)))
    && (forall t :: LockHeld(sys, t) && TaskOk(sys.reg, TaskOf(sys, t)))
  }

  /** A save under one lock leaves the snapshots of all other tasks true. */
  lemma SaveKeepsTask(reg: Registry, v: Version, task: Task)
    requires Indexed(reg) && (v.id in reg.byId ==> reg.byId[v.id].strategy == v.strategy)
    requires TaskOk(reg, task) && Holding(task) != Some(v.strategy)
    ensures TaskOk(Save(reg, v), task)
  {
    hide Versions, Indexed, FindByHashes, NoneActive;
    if Holding(task).Some? {
      SaveElsewhere(reg, v, Holding(task).value);
    }
  }

  /** A step that saves v under its lock: only v's strategy and the task itself remain to be checked. */
  lemma StoreKeepsInv(sys: System, t: nat, v: Version, next: Task)
    requires Inv(sys) && Holding(TaskOf(sys, t)) == Some(v.strategy) && Holding(next) == Some(v.strategy)
    requires v.id in sys.reg.byId ==> sys.reg.byId[v.id].strategy == v.strategy
    requires Safe(Versions(Save(sys.reg, v), v.strategy)) && TaskOk(Save(sys.reg, v), next)
    ensures Inv(Store(sys, t, v, next))
  {
    var sys' := Store(sys, t, v, next);
    SaveKeepsIndexed(sys.reg, v);
    assert LockHeld(sys, t);
    forall s
      ensures Safe(Versions(sys'.reg, s))
    {
      if s != v.strategy {
        SaveElsewhere(sys.reg, v, s);
      }
    }
    forall u
      ensures LockHeld(sys', u) && TaskOk(sys'.reg, TaskOf(sys', u))
    {
      assert LockHeld(sys, u) && TaskOk(sys.reg, TaskOf(sys, u));
      if u != t {
        SaveKeepsTask(sys.reg, v, TaskOf(sys, u));
      }
    }
  }

  /** A step that only moves the task on. */
  lemma GotoKeepsInv(sys: System, t: nat, next: Task)
    requires Inv(sys) && TaskOk(sys.reg, next)
    requires Holding(next).Some? ==> Holding(TaskOf(sys, t)) == Holding(next)
    ensures Inv(Goto(sys, t, next))
  {
    var sys' := Goto(sys, t, next);
    assert LockHeld(sys, t);
    forall u
      ensures LockHeld(sys', u) && TaskOk(sys'.reg, TaskOf(sys', u))
    {
      assert LockHeld(sys, u) && TaskOk(sys.reg, TaskOf(sys, u));
    }
  }

  lemma AcquireKeepsInv(sys: System, t: nat, s: string, next: Task)
    requires Inv(sys) && TaskOk(sys.reg, next) && Holding(TaskOf(sys, t)).None? && Holding(next) == Some(s) && s !in sys.locks
    ensures Inv(Goto(sys.(locks := sys.locks[s := t]), t, next))
  {
    var sys' := Goto(sys.(locks := sys.locks[s := t]), t, next);
    forall u
      ensures LockHeld(sys', u) && TaskOk(sys'.reg, TaskOf(sys', u))
    {
      assert LockHeld(sys, u) && TaskOk(sys.reg, TaskOf(sys, u));
    }
  }

  lemma ReleaseKeepsInv(sys: System, t: nat, s: string)
    requires Inv(sys) && TaskOf(sys, t) == Releasing(s)
    ensures Inv(Goto(sys.(locks := sys.locks - {s}), t, Idle))
  {
    var sys' := Goto(sys.(locks := sys.locks - {s}), t, Idle);
    assert LockHeld(sys, t);
    forall u
      ensures LockHeld(sys', u) && TaskOk(sys'.reg, TaskOf(sys', u))
    {
      assert LockHeld(sys, u) && TaskOk(sys.reg, TaskOf(sys, u));
    }
  }

  // ----- the saving steps

  lemma DeploySaveSafe(reg: Registry, v: Version)
    requires Indexed(reg) && Safe(Versions(reg, v.strategy)) && v.id !in reg.byId && v.status.DRAFT?
    requires FindByHashes(Versions(reg, v.strategy), v.codeHash, v.configHash).None? && v.number == |Versions(reg, v.strategy)| + 1
    ensures Safe(Versions(Save(reg, v), v.strategy))
  {
    SaveNew(reg, v);
    var vs := Versions(reg, v.strategy);
    assert (vs + [v])[..|vs|] == vs;
  }

  /** Saving a snapshot of a stored version as retired. */
  lemma RetireSafe(reg: Registry, v: Version) returns (i: nat)
    requires Indexed(reg) && Safe(Versions(reg, v.strategy)) && StoredUpToStatus(reg, v)
    ensures Safe(Versions(Save(reg, Retired(v)), v.strategy))
    ensures i < |Versions(reg, v.strategy)| && Versions(reg, v.strategy)[i] == reg.byId[v.id]
    ensures Versions(Save(reg, Retired(v)), v.strategy) == Versions(reg, v.strategy)[i := Retired(v)]
    ensures reg.byId[v.id].status.ACTIVE? ==> NoneActive(Versions(Save(reg, Retired(v)), v.strategy))
  {
    i := PlaceOf(reg, v.id);
    SaveExisting(reg, Retired(v), i);
    RetireInList(Versions(reg, v.strategy), i, Retired(v));
  }

  ghost predicate OnlyActive(vs: seq<Version>, id: nat) {
    forall i :: 0 <= i < |vs| && vs[i].status.ACTIVE? ==> vs[i].id == id
  }

  /** Saving a snapshot as active is safe once no other version is active. */
  lemma PromoteSafe(reg: Registry, v: Version, now: real)
    requires Indexed(reg) && Safe(Versions(reg, v.strategy)) && Stored(reg, v)
    requires OnlyActive(Versions(reg, v.strategy), v.id)
    ensures Safe(Versions(Save(reg, Promoted(v, now)), v.strategy))
  {
    var i := PlaceOf(reg, v.id);
    var vs := Versions(reg, v.strategy);
    SaveExisting(reg, Promoted(v, now), i);
    VersionsAre(reg, v.strategy);
    forall k | 0 <= k < |vs| && vs[k].status.ACTIVE?
      ensures k == i
    {
      NoDuplicatesMeans(IdsOf(reg, v.strategy), i, k);
    }
    PromoteInList(vs, i, Promoted(v, now));
  }

  /** What an outcome owes to the invariant. */
  ghost predicate OutcomeOk(reg: Registry, task: Task, o: Outcome) {
    match o
    case Stay => true
    case Lock(s, next) => Holding(task).None? && Holding(next) == Some(s) && TaskOk(reg, next)
    case Move(next) => (Holding(next).Some? ==> Holding(next) == Holding(task)) && TaskOk(reg, next)
    case Write(v, next) =>
      && Holding(task) == Some(v.strategy) && Holding(next) == Some(v.strategy)
      && (v.id in reg.byId ==> reg.byId[v.id].strategy == v.strategy)
      && Safe(Versions(Save(reg, v), v.strategy))
      && TaskOk(Save(reg, v), next)
    case Unlock(s) => task == Releasing(s)
  }

  lemma RetirePendingOk(reg: Registry, v: Version, pending: seq<Version>)
    requires Indexed(reg) && Safe(Versions(reg, v.strategy)) && TaskOk(reg, ActivateSave(v, pending)) && pending != []
    ensures OutcomeOk(reg, ActivateSave(v, pending), Write(Retired(pending[0]), ActivateSave(v, pending[1..])))
  {
    hide Lookup, Safe, Save, Versions, Indexed, NoneActive;
    assert pending[0] in pending;
    var i := RetireSafe(reg, pending[0]);
    NextPendingOk(reg, v, pending);
  }

  /** After one old version is retired the rest of the plan is still right. */
  lemma NextPendingOk(reg: Registry, v: Version, pending: seq<Version>)
    requires Indexed(reg) && Safe(Versions(reg, v.strategy)) && TaskOk(reg, ActivateSave(v, pending)) && pending != []
    ensures TaskOk(Save(reg, Retired(pending[0])), ActivateSave(v, pending[1..]))
  {
    hide Lookup, Safe, Save, Versions, Indexed, NoneActive;
    assert pending[0] in pending;
    var i := RetireSafe(reg, pending[0]);
    PendingStaysStored(reg, v, pending);
    ActivePendingAfter(reg, v, pending, i);
  }

  lemma PendingStaysStored(reg: Registry, v: Version, pending: seq<Version>)
    requires TaskOk(reg, ActivateSave(v, pending)) && pending != []
    ensures var reg' := Save(reg, Retired(pending[0]));
            Stored(reg', v) && forall q :: q in pending[1..] ==> q.strategy == v.strategy && q.id != v.id && StoredUpToStatus(reg', q)
  {
    assert pending[0] in pending;
    forall q | q in pending[1..]
      ensures q.strategy == v.strategy && q.id != v.id && StoredUpToStatus(Save(reg, Retired(pending[0])), q)
    {
      assert q in pending;
    }
  }

  lemma ActivePendingAfter(reg: Registry, v: Version, pending: seq<Version>, i: nat)
    requires pending != [] && i < |Versions(reg, v.strategy)| && Versions(reg, v.strategy)[i].id == pending[0].id
    requires Indexed(reg) && TaskOk(reg, ActivateSave(v, pending))
    ensures var vs' := Versions(reg, v.strategy)[i := Retired(pending[0])];
            forall k :: 0 <= k < |vs'| && vs'[k].status.ACTIVE? ==> vs'[k].id == v.id || vs'[k] in pending[1..]
  {
    var vs := Versions(reg, v.strategy);
    VersionsAre(reg, v.strategy);
    forall k | 0 <= k < |vs| && k != i && vs[k].status.ACTIVE? && vs[k].id != v.id
      ensures vs[k] in pending[1..]
    {
      if vs[k] == pending[0] {
        NoDuplicatesMeans(IdsOf(reg, v.strategy), i, k);
      }
    }
  }

  lemma PromoteOk(reg: Registry, task: Task, v: Version, now: real)
    requires Indexed(reg) && Safe(Versions(reg, v.strategy)) && Stored(reg, v) && Holding(task) == Some(v.strategy)
    requires OnlyActive(Versions(reg, v.strategy), v.id)
    ensures OutcomeOk(reg, task, Write(Promoted(v, now), Releasing(v.strategy)))
  {
    hide Versions, Safe, Indexed, Save, OnlyActive;
    PromoteSafe(reg, v, now);
  }

  lemma NoneActiveIsOnly(vs: seq<Version>, id: nat)
    requires NoneActive(vs)
    ensures OnlyActive(vs, id)
  {
    forall i | 0 <= i < |vs|
      ensures !vs[i].status.ACTIVE?
    {
      NoneActiveMeans(vs, i);
    }
  }

  lemma RollbackRetireOk(reg: Registry, active: Version, previous: Version)
    requires Indexed(reg) && Safe(Versions(reg, active.strategy)) && TaskOk(reg, RollbackRetire(active, previous))
    ensures OutcomeOk(reg, RollbackRetire(active, previous), Write(Retired(active), RollbackPromote(previous)))
  {
    hide Versions, Safe, Indexed;
    var i := RetireSafe(reg, active);
  }

  lemma RetireSaveOk(reg: Registry, v: Version)
    requires Indexed(reg) && Safe(Versions(reg, v.strategy)) && Stored(reg, v)
    ensures OutcomeOk(reg, RetireSave(v), Write(Retired(v), Releasing(v.strategy)))
  {
    hide Versions, Safe, Indexed, Save;
    var i := RetireSafe(reg, v);
  }

  lemma {:induction false} OtherActiveFacts(vs: seq<Version>, id: nat)
    ensures forall v :: v in OtherActive(vs, id) ==> v in vs && v.id != id
    ensures forall i :: 0 <= i < |vs| && vs[i].status.ACTIVE? ==> vs[i].id == id || vs[i] in OtherActive(vs, id)
  {
    if vs != [] {
      OtherActiveFacts(vs[1..], id);
    }
  }

  lemma {:induction false} FirstActiveFacts(vs: seq<Version>)
    ensures FirstActive(vs).Some? ==> FirstActive(vs).value in vs && FirstActive(vs).value.status.ACTIVE?
    ensures FirstActive(vs).None? ==> forall i :: 0 <= i < |vs| ==> !vs[i].status.ACTIVE?
  {
    if vs != [] {
      FirstActiveFacts(vs[1..]);
    }
  }

  /** The rollback target was live before, is retired now, and no candidate was live later. */
  lemma {:induction false} LatestCandidateFacts(vs: seq<Version>)
    ensures LatestCandidate(vs).Some? ==> LatestCandidate(vs).value in vs && IsCandidate(LatestCandidate(vs).value)
    ensures forall v :: v in vs && IsCandidate(v) ==>
              LatestCandidate(vs).Some? && v.activatedAt.value <= LatestCandidate(vs).value.activatedAt.value
  {
    if vs != [] {
      LatestCandidateFacts(vs[1..]);
    }
  }

  lemma ListedIsStored(reg: Registry, s: string, v: Version)
    requires Indexed(reg) && v in Versions(reg, s)
    ensures Stored(reg, v) && v.strategy == s
  {
    VersionsAre(reg, s);
  }

  lemma ActivateListOk(reg: Registry, v: Version)
    requires Indexed(reg) && Stored(reg, v)
    ensures TaskOk(reg, ActivateSave(v, OtherActive(Versions(reg, v.strategy), v.id)))
  {
    var vs := Versions(reg, v.strategy);
    OtherActiveFacts(vs, v.id);
    forall p | p in OtherActive(vs, v.id)
      ensures p.strategy == v.strategy && p.id != v.id && StoredUpToStatus(reg, p)
    {
      ListedIsStored(reg, v.strategy, p);
    }
  }

  lemma RollbackListOk(reg: Registry, s: string)
    requires Indexed(reg)
    ensures TaskOk(reg, RollbackPlan(s, Versions(reg, s))) && Holding(RollbackPlan(s, Versions(reg, s))) == Some(s)
  {
    hide Versions, Indexed;
    var vs := Versions(reg, s);
    var active, previous := FirstActive(vs), LatestCandidate(vs);
    FirstActiveFacts(vs);
    LatestCandidateFacts(vs);
    if previous.Some? {
      ListedIsStored(reg, s, previous.value);
      if active.Some? {
        ListedIsStored(reg, s, active.value);
      } else {
        NoneActiveIf(vs);
      }
    }
  }

  lemma FindOk(reg: Registry, s: string, c: string, g: string, now: real, newId: nat)
    ensures OutcomeOk(reg, DeployFind(s, c, g), Local(reg, DeployFind(s, c, g), now, newId))
  {
    hide Versions, FindByHashes;
  }

  ghost predicate IdsOwn(reg: Registry) {
    forall id :: id in reg.byId ==> reg.byId[id].id == id
  }

  /** The steps before a task holds its lock, and those that only read under it. */
  lemma ActivateReadOk(reg: Registry, id: nat, now: real, newId: nat)
    requires IdsOwn(reg)
    ensures OutcomeOk(reg, ActivateRead(id), Local(reg, ActivateRead(id), now, newId))
  {}

  lemma ActivateGetOk(reg: Registry, id: nat, s: string, now: real, newId: nat)
    requires IdsOwn(reg) && id in reg.byId && reg.byId[id].strategy == s
    ensures OutcomeOk(reg, ActivateGet(id, s), Local(reg, ActivateGet(id, s), now, newId))
  {}

  lemma RetireReadOk(reg: Registry, id: nat, allow: bool, now: real, newId: nat)
    requires IdsOwn(reg)
    ensures OutcomeOk(reg, RetireRead(id, allow), Local(reg, RetireRead(id, allow), now, newId))
  {}

  lemma RetireGetOk(reg: Registry, id: nat, s: string, allow: bool, now: real, newId: nat)
    requires IdsOwn(reg) && id in reg.byId && reg.byId[id].strategy == s
    ensures OutcomeOk(reg, RetireGet(id, s, allow), Local(reg, RetireGet(id, s, allow), now, newId))
  {}

  lemma DeploySaveOk(reg: Registry, s: string, c: string, g: string, n: int, now: real, newId: nat)
    requires Indexed(reg) && Safe(Versions(reg, s)) && newId !in reg.byId
    requires FindByHashes(Versions(reg, s), c, g).None? && n == |Versions(reg, s)| + 1
    ensures OutcomeOk(reg, DeploySave(s, c, g, n), Write(Version(newId, s, n, c, g, DRAFT, now, None), Releasing(s)))
  {
    hide Versions, FindByHashes, Safe, Save;
    DeploySaveSafe(reg, Version(newId, s, n, c, g, DRAFT, now, None));
  }

  lemma DeployListOk(reg: Registry, s: string, c: string, g: string)
    requires Safe(Versions(reg, s)) && TaskOk(reg, DeployList(s, c, g))
    ensures OutcomeOk(reg, DeployList(s, c, g), Move(DeploySave(s, c, g, MaxNumber(Versions(reg, s)) + 1)))
  {
    hide Versions, FindByHashes, Safe;
    MaxNumberIsLength(Versions(reg, s));
  }

  lemma ActivateMoveOk(reg: Registry, v: Version)
    requires Indexed(reg) && TaskOk(reg, ActivateList(v))
    ensures OutcomeOk(reg, ActivateList(v), Move(ActivateSave(v, OtherActive(Versions(reg, v.strategy), v.id))))
  {
    hide Versions, Indexed, OtherActive;
    ActivateListOk(reg, v);
  }

  lemma RollbackMoveOk(reg: Registry, s: string)
    requires Indexed(reg)
    ensures OutcomeOk(reg, RollbackList(s), Move(RollbackPlan(s, Versions(reg, s))))
  {
    hide Versions, Indexed, RollbackPlan;
    RollbackListOk(reg, s);
  }

  lemma PromoteActivatedOk(reg: Registry, v: Version, now: real)
    requires Indexed(reg) && Safe(Versions(reg, v.strategy)) && TaskOk(reg, ActivateSave(v, []))
    ensures OutcomeOk(reg, ActivateSave(v, []), Write(Promoted(v, now), Releasing(v.strategy)))
  {
    PromoteOk(reg, ActivateSave(v, []), v, now);
  }

  /** The steps that wait, release, or find nothing to do. */
  lemma WaitingOk(reg: Registry, task: Task, now: real, newId: nat)
    requires TaskOk(reg, task)
    requires task.Idle? || task.DeployWait? || task.ActivateWait? || task.RollbackWait? || task.RetireWait? || task.Releasing?
             || (task.DeploySave? && newId in reg.byId)
    ensures OutcomeOk(reg, task, Local(reg, task, now, newId))
  {
    hide Versions, FindByHashes;
  }

  /** Whatever a task does next keeps its strategy safe and its own snapshots true. */
  lemma LocalOk(reg: Registry, task: Task, now: real, newId: nat)
    requires Indexed(reg) && TaskOk(reg, task)
    requires Holding(task).Some? ==> Safe(Versions(reg, Holding(task).value))
    ensures OutcomeOk(reg, task, Local(reg, task, now, newId))
  {
    if task.Idle? || task.DeployWait? || task.ActivateWait? || task.RollbackWait? || task.RetireWait? || task.Releasing?
       || (task.DeploySave? && newId in reg.byId) {
      WaitingOk(reg, task, now, newId);
    } else if task.DeploySave? {
      DeploySaveOk(reg, task.strategy, task.codeHash, task.configHash, task.number, now, newId);
    } else if task.RollbackRetire? {
      RollbackRetireOk(reg, task.active, task.previous);
    } else {
      hide OutcomeOk, TaskOk, Indexed, Safe, Versions, OtherActive, RollbackPlan, FindByHashes;
      match task
      case DeployList(s, c, g) => DeployListOk(reg, s, c, g);
      case ActivateList(v) => ActivateMoveOk(reg, v);
      case ActivateSave(v, pending) =>
        if pending != [] {
          RetirePendingOk(reg, v, pending);
        } else {
          PromoteActivatedOk(reg, v, now);
        }
      case RollbackList(s) => RollbackMoveOk(reg, s);
      case RollbackPromote(previous) => PromoteRolledBackOk(reg, previous, now);
      case RetireSave(v) => RetireRecordOk(reg, v);
      case DeployFind(s, c, g) => FindOk(reg, s, c, g, now, newId);
      case ActivateRead(id) => ActivateReadOk(reg, id, now, newId);
      case ActivateGet(id, s) => ActivateGetOk(reg, id, s, now, newId);
      case RetireRead(id, allow) => RetireReadOk(reg, id, allow, now, newId);
      case RetireGet(id, s, allow) => RetireGetOk(reg, id, s, allow, now, newId);
    }
  }

  lemma PromoteRolledBackOk(reg: Registry, previous: Version, now: real)
    requires Indexed(reg) && Safe(Versions(reg, previous.strategy)) && TaskOk(reg, RollbackPromote(previous))
    ensures OutcomeOk(reg, RollbackPromote(previous), Write(Promoted(previous, now), Releasing(previous.strategy)))
  {
    PromotePreviousOk(reg, previous, now);
  }

  lemma RetireRecordOk(reg: Registry, v: Version)
    requires Indexed(reg) && Safe(Versions(reg, v.strategy)) && TaskOk(reg, RetireSave(v))
    ensures OutcomeOk(reg, RetireSave(v), Write(Retired(v), Releasing(v.strategy)))
  {
    RetireSaveOk(reg, v);
  }

  lemma PromotePreviousOk(reg: Registry, previous: Version, now: real)
    requires Indexed(reg) && Safe(Versions(reg, previous.strategy)) && TaskOk(reg, RollbackPromote(previous))
    ensures OutcomeOk(reg, RollbackPromote(previous), Write(Promoted(previous, now), Releasing(previous.strategy)))
  {
    NoneActiveIsOnly(Versions(reg, previous.strategy), previous.id);
    PromoteOk(reg, RollbackPromote(previous), previous, now);
  }

  lemma InvAt(sys: System, t: nat)
    requires Inv(sys)
    ensures Indexed(sys.reg) && LockHeld(sys, t) && TaskOk(sys.reg, TaskOf(sys, t))
    ensures Holding(TaskOf(sys, t)).Some? ==> Safe(Versions(sys.reg, Holding(TaskOf(sys, t)).value))
  {}

  lemma AdvanceKeepsInv(sys: System, t: nat, now: real, newId: nat)
    requires Inv(sys)
    ensures Inv(Advance(sys, t, now, newId))
  {
    var task := TaskOf(sys, t);
    var o := Local(sys.reg, task, now, newId);
    InvAt(sys, t);
    LocalOk(sys.reg, task, now, newId);
    match o
    case Stay =>
    case Lock(s, next) => if s !in sys.locks { AcquireKeepsInv(sys, t, s, next); }
    case Move(next) => GotoKeepsInv(sys, t, next);
    case Write(v, next) => StoreKeepsInv(sys, t, v, next);
    case Unlock(s) => ReleaseKeepsInv(sys, t, s);
  }

  /** Under every interleaving, after every single save, all invariants hold. */
  lemma {:induction false} EveryStateSafe(actions: seq<Action>)
    ensures Inv(Run(actions))
  {
    if actions != [] {
      EveryStateSafe(actions[..|actions| - 1]);
      var sys := Run(actions[..|actions| - 1]);
      match actions[|actions| - 1]
      case Begin(t, task) =>
        if TaskOf(sys, t).Idle? && IsStart(task) {
          GotoKeepsInv(sys, t, task);
        }
      case Step(t, now, newId) => AdvanceKeepsInv(sys, t, now, newId);
    }
  }

  /** At most one active version, numbers exactly 1..n, no hash pair twice: in every reachable state. */
  lemma VersionSafety(actions: seq<Action>, s: string)
    ensures var vs := Versions(Run(actions).reg, s);
            && (forall i, j :: 0 <= i < j < |vs| ==> !(vs[i].status.ACTIVE? && vs[j].status.ACTIVE?))
            && (forall i :: 0 <= i < |vs| ==> vs[i].number == i + 1)
            && (forall i, j :: 0 <= i < j < |vs| ==> !(vs[i].codeHash == vs[j].codeHash && vs[i].configHash == vs[j].configHash))
  {
    EveryStateSafe(actions);
    var vs := Versions(Run(actions).reg, s);
    assert Safe(vs);
    forall i, j | 0 <= i < j < |vs|
      ensures !(vs[i].status.ACTIVE? && vs[j].status.ACTIVE?)
      ensures !(vs[i].codeHash == vs[j].codeHash && vs[i].configHash == vs[j].configHash)
    {
      SafeMeans(vs, i, j);
    }
    forall i | 0 <= i < |vs|
      ensures vs[i].number == i + 1
    {
      SafeNumber(vs, i);
    }
  }
}
