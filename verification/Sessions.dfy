/**
 User sessions (engine/api/sessions.py): the capped in-memory store, and
 create, touch, revoke and revoke-all as steps of concurrent tasks. Every
 await is a step boundary, every step makes at most one store save, and a
 lock per user is all that orders the tasks. Session ids are never reissued.
 */
module Sessions {
  import opened Wrappers
  import opened IdIndex

  datatype Session = Session(id: nat, user: string, createdAt: int, lastActiveAt: int, revoked: bool)

  /** The timeouts in microseconds, the concurrent-session cap and the store's cap per user. */
  datatype Config = Config(idleTimeout: int, absoluteTimeout: int, maxConcurrent: int, storeCap: nat)

  // ----- the store

  datatype Store = Store(byId: map<nat, Session>, byUser: map<string, seq<nat>>)

  function IdsOf(st: Store, user: string): seq<nat> {
    if user in st.byUser then st.byUser[user] else []
  }

  function Get(st: Store, id: nat): Option<Session> {
    if id in st.byId then Some(st.byId[id]) else None
  }

  /** How many of the oldest ids go when the list has grown to n. */
  function Excess(n: nat, cap: nat): nat {
    if n > cap then n - cap else 0
  }

  function Save(st: Store, s: Session, cap: nat): Store {
    if s.id in st.byId then st.(byId := st.byId[s.id := s])
    else
      var ids := IdsOf(st, s.user) + [s.id];
      var k := Excess(|ids|, cap);
      Store((st.byId - set id | id in ids[..k])[s.id := s], st.byUser[s.user := ids[k..]])
  }

  /** list_for_user. */
  function SessionsOf(st: Store, user: string): seq<Session> {
    Lookup(st.byId, IdsOf(st, user))
  }

  function Unrevoked(ss: seq<Session>): seq<Session> {
    if ss == [] then [] else (if ss[0].revoked then [] else [ss[0]]) + Unrevoked(ss[1..])
  }

  /** The first of the oldest sessions. */
  function Oldest(ss: seq<Session>): Session
    requires ss != []
  {
    if |ss| == 1 then ss[0]
    else
      var rest := Oldest(ss[1..]);
      if ss[0].createdAt <= rest.createdAt then ss[0] else rest
  }

  /** The two indexes agree: every stored session is listed once, under its own user, and nothing else is listed. */
  ghost predicate Indexed(st: Store) {
    && (forall u, i :: u in st.byUser && 0 <= i < |st.byUser[u]| ==>
          st.byUser[u][i] in st.byId && st.byId[st.byUser[u][i]].user == u)
    && (forall id :: id in st.byId ==> st.byId[id].id == id && id in IdsOf(st, st.byId[id].user))
    && (forall u :: u in st.byUser ==> NoDuplicates(st.byUser[u]))
  }

  lemma SessionsAre(st: Store, user: string)
    requires Indexed(st)
    ensures |SessionsOf(st, user)| == |IdsOf(st, user)|
    ensures forall i :: 0 <= i < |IdsOf(st, user)| ==>
              IdsOf(st, user)[i] in st.byId && SessionsOf(st, user)[i] == st.byId[IdsOf(st, user)[i]]
              && SessionsOf(st, user)[i].user == user && SessionsOf(st, user)[i].id == IdsOf(st, user)[i]
  {
    LookupAll(st.byId, IdsOf(st, user));
  }

  lemma PlaceOf(st: Store, id: nat) returns (i: nat)
    requires Indexed(st) && id in st.byId
    ensures i < |SessionsOf(st, st.byId[id].user)| && SessionsOf(st, st.byId[id].user)[i] == st.byId[id]
  {
    var user := st.byId[id].user;
    SessionsAre(st, user);
    i :| 0 <= i < |IdsOf(st, user)| && IdsOf(st, user)[i] == id;
  }

  /** The ids that a save of a new session drops are the user's oldest. */
  lemma SaveNewIds(st: Store, s: Session, cap: nat)
    requires Indexed(st) && s.id !in st.byId && cap >= 1
    ensures var ids := IdsOf(st, s.user);
            var k := Excess(|ids| + 1, cap);
            && k <= |ids| && IdsOf(Save(st, s, cap), s.user) == ids[k..] + [s.id]
            && NoDuplicates(ids[k..] + [s.id]) && s.id !in ids
            && Save(st, s, cap).byId == (st.byId - set id | id in ids[..k])[s.id := s]
  {
    var ids := IdsOf(st, s.user);
    var k := Excess(|ids| + 1, cap);
    assert forall i :: 0 <= i < |ids| ==> ids[i] != s.id;
    NoDuplicatesDrop(ids, k);
    assert forall id :: id in ids[k..] ==> id in ids;
    NoDuplicatesAppend(ids[k..], s.id);
    assert (ids + [s.id])[k..] == ids[k..] + [s.id];
    assert (ids + [s.id])[..k] == ids[..k];
  }

  /** What is kept of a user's list is not among what is dropped. */
  lemma KeptNotDropped(ids: seq<nat>, k: nat, j: nat)
    requires NoDuplicates(ids) && k <= j < |ids|
    ensures ids[j] !in ids[..k]
  {
    if ids[j] in ids[..k] {
      var i :| 0 <= i < k && ids[i] == ids[j];
      NoDuplicatesMeans(ids, i, j);
    }
  }

  lemma SaveNewLists(st: Store, s: Session, cap: nat, u: string, i: nat)
    requires Indexed(st) && s.id !in st.byId && cap >= 1
    requires u in Save(st, s, cap).byUser && i < |Save(st, s, cap).byUser[u]|
    ensures var st' := Save(st, s, cap); st'.byUser[u][i] in st'.byId && st'.byId[st'.byUser[u][i]].user == u
  {
    hide NoDuplicates;
    SaveNewIds(st, s, cap);
    var st', ids := Save(st, s, cap), IdsOf(st, s.user);
    var k := Excess(|ids| + 1, cap);
    if u == s.user && i < |ids| - k {
      KeptNotDropped(ids, k, k + i);
    } else if u != s.user {
      assert st'.byUser[u][i] in st.byId;
    }
  }

  lemma StillListed(ids: seq<nat>, k: nat, id: nat, more: nat)
    requires k <= |ids| && id in ids && id !in ids[..k]
    ensures id in ids[k..] + [more]
  {
    assert ids == ids[..k] + ids[k..];
  }

  lemma KeepsOtherLists(st: Store, s: Session, cap: nat, u: string)
    requires s.id !in st.byId && u != s.user
    ensures IdsOf(Save(st, s, cap), u) == IdsOf(st, u)
  {}

  lemma SaveNewStores(st: Store, s: Session, cap: nat, id: nat)
    requires Indexed(st) && s.id !in st.byId && cap >= 1 && id in Save(st, s, cap).byId
    ensures var st' := Save(st, s, cap); st'.byId[id].id == id && id in IdsOf(st', st'.byId[id].user)
  {
    hide NoDuplicates;
    SaveNewIds(st, s, cap);
    var ids := IdsOf(st, s.user);
    var k := Excess(|ids| + 1, cap);
    if id == s.id {
      assert (ids[k..] + [s.id])[|ids| - k] == id;
    } else {
      assert id in st.byId && id !in ids[..k];
      hide IdsOf;
      if st.byId[id].user == s.user {
        StillListed(ids, k, id, s.id);
      } else {
        KeepsOtherLists(st, s, cap, st.byId[id].user);
      }
    }
  }

  lemma SaveNewIndexed(st: Store, s: Session, cap: nat)
    requires Indexed(st) && s.id !in st.byId && cap >= 1
    ensures Indexed(Save(st, s, cap))
  {
    var st' := Save(st, s, cap);
    forall u, i | u in st'.byUser && 0 <= i < |st'.byUser[u]|
      ensures st'.byUser[u][i] in st'.byId && st'.byId[st'.byUser[u][i]].user == u
    {
      SaveNewLists(st, s, cap, u, i);
    }
    forall id | id in st'.byId
      ensures st'.byId[id].id == id && id in IdsOf(st', st'.byId[id].user)
    {
      SaveNewStores(st, s, cap, id);
    }
    SaveNewIds(st, s, cap);
  }

  lemma SaveKeepsIndexed(st: Store, s: Session, cap: nat)
    requires Indexed(st) && cap >= 1 && (s.id in st.byId ==> st.byId[s.id].user == s.user)
    ensures Indexed(Save(st, s, cap))
  {
    if s.id !in st.byId {
      SaveNewIndexed(st, s, cap);
    }
  }

  /** A save of a new session keeps the indexes in agreement exactly when the cap is positive. */
  lemma SaveIndexedIff(st: Store, s: Session, cap: nat)
    requires Indexed(st) && s.id !in st.byId
    ensures Indexed(Save(st, s, cap)) <==> cap >= 1
  {
    if cap >= 1 {
      SaveNewIndexed(st, s, cap);
    } else {
      var st' := Save(st, s, cap);
      assert IdsOf(st', s.user) == [];
      assert st'.byId[s.id] == s;
    }
  }

  /** No user's list exceeds the cap after a save. */
  ghost predicate WithinCap(st: Store, cap: nat) {
    forall u :: |IdsOf(st, u)| <= cap
  }

  lemma SaveKeepsCap(st: Store, s: Session, cap: nat)
    requires WithinCap(st, cap)
    ensures WithinCap(Save(st, s, cap), cap)
  {
    forall u
      ensures |IdsOf(Save(st, s, cap), u)| <= cap
    {
      assert |IdsOf(st, u)| <= cap;
    }
  }

  lemma SaveElsewhere(st: Store, s: Session, cap: nat, user: string)
    requires Indexed(st) && cap >= 1 && (s.id in st.byId ==> st.byId[s.id].user == s.user) && user != s.user
    ensures SessionsOf(Save(st, s, cap), user) == SessionsOf(st, user)
    ensures forall id :: id in st.byId && st.byId[id].user == user ==> Get(Save(st, s, cap), id) == Get(st, id)
  {
    var st' := Save(st, s, cap);
    SaveKeepsIndexed(st, s, cap);
    SessionsAre(st, user);
    SessionsAre(st', user);
    assert IdsOf(st', user) == IdsOf(st, user);
    forall id | id in st.byId && st.byId[id].user == user
      ensures Get(st', id) == Get(st, id)
    {
      if s.id !in st.byId {
        SaveNewIds(st, s, cap);
      }
    }
    forall k | 0 <= k < |SessionsOf(st, user)|
      ensures SessionsOf(st, user)[k] == SessionsOf(st', user)[k]
    {
      assert Get(st', IdsOf(st, user)[k]) == Get(st, IdsOf(st, user)[k]);
    }
  }

  lemma SaveExisting(st: Store, s: Session, cap: nat, i: nat)
    requires Indexed(st) && cap >= 1 && s.id in st.byId && st.byId[s.id].user == s.user
    requires i < |SessionsOf(st, s.user)| && SessionsOf(st, s.user)[i].id == s.id
    ensures SessionsOf(Save(st, s, cap), s.user) == SessionsOf(st, s.user)[i := s]
  {
    var st' := Save(st, s, cap);
    SaveKeepsIndexed(st, s, cap);
    SessionsAre(st, s.user);
    SessionsAre(st', s.user);
    var after := SessionsOf(st, s.user)[i := s];
    forall k | 0 <= k < |after|
      ensures SessionsOf(st', s.user)[k] == after[k]
    {
      if IdsOf(st, s.user)[k] == s.id {
        NoDuplicatesMeans(IdsOf(st, s.user), i, k);
      }
    }
  }

  lemma SaveNew(st: Store, s: Session, cap: nat)
    requires Indexed(st) && cap >= 1 && s.id !in st.byId
    ensures var k := Excess(|SessionsOf(st, s.user)| + 1, cap);
            k <= |SessionsOf(st, s.user)| && SessionsOf(Save(st, s, cap), s.user) == SessionsOf(st, s.user)[k..] + [s]
  {
    var st' := Save(st, s, cap);
    SaveNewIds(st, s, cap);
    SaveKeepsIndexed(st, s, cap);
    SessionsAre(st, s.user);
    SessionsAre(st', s.user);
    var k := Excess(|SessionsOf(st, s.user)| + 1, cap);
    var after := SessionsOf(st, s.user)[k..] + [s];
    assert IdsOf(st', s.user) == IdsOf(st, s.user)[k..] + [s.id];
    forall j | 0 <= j < |after|
      ensures SessionsOf(st', s.user)[j] == after[j]
    {
      if j < |after| - 1 {
        KeptNotDropped(IdsOf(st, s.user), k, k + j);
      }
    }
  }

  // ----- counting unrevoked sessions

  function Live(ss: seq<Session>): nat {
    |Unrevoked(ss)|
  }

  lemma {:induction false} LiveConcat(a: seq<Session>, b: seq<Session>)
    ensures Unrevoked(a + b) == Unrevoked(a) + Unrevoked(b)
  {
    if a == [] {
      assert a + b == b;
    } else {
      assert (a + b)[1..] == a[1..] + b;
      LiveConcat(a[1..], b);
    }
  }

  lemma LiveUpdate(ss: seq<Session>, i: nat, s: Session)
    requires i < |ss|
    ensures Live(ss[i := s]) == Live(ss) - (if ss[i].revoked then 0 else 1) + (if s.revoked then 0 else 1)
  {
    assert ss == ss[..i] + ([ss[i]] + ss[i + 1..]);
    assert ss[i := s] == ss[..i] + ([s] + ss[i + 1..]);
    LiveConcat(ss[..i], [ss[i]] + ss[i + 1..]);
    LiveConcat([ss[i]], ss[i + 1..]);
    LiveConcat(ss[..i], [s] + ss[i + 1..]);
    LiveConcat([s], ss[i + 1..]);
  }

  lemma LiveDropAppend(ss: seq<Session>, k: nat, s: Session)
    requires k <= |ss|
    ensures Live(ss[k..] + [s]) <= Live(ss) + 1
  {
    assert ss == ss[..k] + ss[k..];
    LiveConcat(ss[..k], ss[k..]);
    LiveConcat(ss[k..], [s]);
  }

  lemma {:induction false} UnrevokedFacts(ss: seq<Session>)
    ensures forall s :: s in Unrevoked(ss) <==> s in ss && !s.revoked
  {
    if ss != [] {
      UnrevokedFacts(ss[1..]);
      assert forall s :: s in ss <==> s == ss[0] || s in ss[1..];
    }
  }

  lemma {:induction false} OldestFacts(ss: seq<Session>)
    requires ss != []
    ensures Oldest(ss) in ss && forall s :: s in ss ==> Oldest(ss).createdAt <= s.createdAt
  {
    if |ss| > 1 {
      OldestFacts(ss[1..]);
    }
  }

  // ----- the tasks

  /** Where a task stands, with the snapshots its code holds in local variables. */
  datatype Task =
    | Idle
    | CreateWait(user: string)
    | CreateList(user: string)
    | CreateEvict(oldest: Session)
    | CreateSave(user: string)
    | TouchRead(id: nat)
    | TouchWait(id: nat, user: string)
    | TouchGet(id: nat, user: string)
    | TouchSave(updated: Session)
    | RevokeRead(id: nat)
    | RevokeWait(id: nat, user: string)
    | RevokeGet(id: nat, user: string)
    | RevokeSave(current: Session)
    | RevokeAllWait(user: string)
    | RevokeAllList(user: string)
    | RevokeAllSave(user: string, pending: seq<Session>)
    | Releasing(user: string)

  /** The user whose lock the task holds. */
  function Holding(task: Task): Option<string> {
    match task
    case CreateList(u) => Some(u)
    case CreateEvict(s) => Some(s.user)
    case CreateSave(u) => Some(u)
    case TouchGet(_, u) => Some(u)
    case TouchSave(s) => Some(s.user)
    case RevokeGet(_, u) => Some(u)
    case RevokeSave(s) => Some(s.user)
    case RevokeAllList(u) => Some(u)
    case RevokeAllSave(u, _) => Some(u)
    case Releasing(u) => Some(u)
    case _ => None
  }

  datatype Outcome = Stay | Lock(user: string, next: Task) | Move(next: Task) | Write(s: Session, next: Task) | Unlock(user: string)

  function Revoked(s: Session): Session { s.(revoked := true) }

  predicate Expired(cfg: Config, s: Session, now: int) {
    now - s.lastActiveAt > cfg.idleTimeout || now - s.createdAt > cfg.absoluteTimeout
  }

  /** The eviction of create: below the cap go on, at the cap revoke the oldest, with nobody to revoke raise. */
  function EvictionPlan(cfg: Config, user: string, ss: seq<Session>): Task {
    var active := Unrevoked(ss);
    if |active| < cfg.maxConcurrent then CreateSave(user)
    else if active == [] then Releasing(user)
    else CreateEvict(Oldest(active))
  }

  /** What a task does up to its next await. `used` holds every id that was ever issued. */
  function Local(cfg: Config, st: Store, used: set<nat>, task: Task, now: int, newId: nat): Outcome {
    match task
    case Idle => Stay
    case CreateWait(u) => Lock(u, CreateList(u))
    case CreateList(u) => Move(EvictionPlan(cfg, u, SessionsOf(st, u)))
    case CreateEvict(s) => Write(Revoked(s), CreateSave(s.user))
    case CreateSave(u) => if newId in used then Stay else Write(Session(newId, u, now, now, false), Releasing(u))
    case TouchRead(id) =>
      var s := Get(st, id);
      Move(if s.Some? then TouchWait(id, s.value.user) else Idle)
    case TouchWait(id, u) => Lock(u, TouchGet(id, u))
    case TouchGet(id, u) =>
      var s := Get(st, id);
      Move(if s.None? || s.value.revoked || Expired(cfg, s.value, now) then Releasing(u)
           else TouchSave(s.value.(lastActiveAt := now)))
    case TouchSave(s) => Write(s, Releasing(s.user))
    case RevokeRead(id) =>
      var s := Get(st, id);
      Move(if s.Some? then RevokeWait(id, s.value.user) else Idle)
    case RevokeWait(id, u) => Lock(u, RevokeGet(id, u))
    case RevokeGet(id, u) =>
      var s := Get(st, id);
      Move(if s.None? || s.value.revoked then Releasing(u) else RevokeSave(s.value))
    case RevokeSave(s) => Write(Revoked(s), Releasing(s.user))
    case RevokeAllWait(u) => Lock(u, RevokeAllList(u))
    case RevokeAllList(u) => Move(RevokeAllSave(u, Unrevoked(SessionsOf(st, u))))
    case RevokeAllSave(u, pending) =>
      if pending == [] then Move(Releasing(u)) else Write(Revoked(pending[0]), RevokeAllSave(u, pending[1..]))
    case Releasing(u) => Unlock(u)
  }

  datatype System = System(store: Store, used: set<nat>, locks: map<string, nat>, tasks: map<nat, Task>)

  function TaskOf(sys: System, t: nat): Task {
    if t in sys.tasks then sys.tasks[t] else Idle
  }

  function Goto(sys: System, t: nat, task: Task): System {
    sys.(tasks := sys.tasks[t := task])
  }

  function Commit(cfg: Config, sys: System, t: nat, s: Session, next: Task): System {
    Goto(sys.(store := Save(sys.store, s, cfg.storeCap), used := sys.used + {s.id}), t, next)
  }

  /** One step of task t. A task that waits for a held lock stays where it is. */
  function Advance(cfg: Config, sys: System, t: nat, now: int, newId: nat): System {
    match Local(cfg, sys.store, sys.used, TaskOf(sys, t), now, newId)
    case Stay => sys
    case Lock(u, next) => if u in sys.locks then sys else Goto(sys.(locks := sys.locks[u := t]), t, next)
    case Move(next) => Goto(sys, t, next)
    case Write(s, next) => Commit(cfg, sys, t, s, next)
    case Unlock(u) => Goto(sys.(locks := sys.locks - {u}), t, Idle)
  }

  predicate IsStart(task: Task) {
    task.CreateWait? || task.TouchRead? || task.RevokeRead? || task.RevokeAllWait?
  }

  datatype Action = Begin(t: nat, task: Task) | Step(t: nat, now: int, newId: nat)

  function Act(cfg: Config, sys: System, a: Action): System {
    match a
    case Begin(t, task) => if TaskOf(sys, t).Idle? && IsStart(task) then Goto(sys, t, task) else sys
    case Step(t, now, newId) => Advance(cfg, sys, t, now, newId)
  }

  const INITIAL := System(Store(map[], map[]), {}, map[], map[])

  function Run(cfg: Config, actions: seq<Action>): System {
    if actions == [] then INITIAL else Act(cfg, Run(cfg, actions[..|actions| - 1]), actions[|actions| - 1])
  }

  // ----- the inductive invariant

  /** The largest number of unrevoked sessions a user may have. */
  function LiveCap(cfg: Config): nat {
    if cfg.maxConcurrent > 0 then cfg.maxConcurrent else 0
  }

  /** The store still holds s, up to its activity time and revocation. */
  ghost predicate Kept(st: Store, s: Session) {
    s.id in st.byId && st.byId[s.id].user == s.user
  }

  /** What the snapshots of a task still say about the store. */
  ghost predicate TaskOk(cfg: Config, st: Store, used: set<nat>, task: Task) {
    match task
    case CreateEvict(s) => Kept(st, s) && !st.byId[s.id].revoked && Live(SessionsOf(st, s.user)) <= cfg.maxConcurrent
    case CreateSave(u) => Live(SessionsOf(st, u)) < cfg.maxConcurrent
    case TouchWait(id, u) => id in used && (id in st.byId ==> st.byId[id].user == u)
    case TouchGet(id, u) => id in used && (id in st.byId ==> st.byId[id].user == u)
    case TouchSave(s) => Kept(st, s) && !st.byId[s.id].revoked
    case RevokeWait(id, u) => id in used && (id in st.byId ==> st.byId[id].user == u)
    case RevokeGet(id, u) => id in used && (id in st.byId ==> st.byId[id].user == u)
    case RevokeSave(s) => Kept(st, s)
    case RevokeAllSave(u, pending) => forall p :: p in pending ==> p.user == u && Kept(st, p)
    case _ => true
  }

  ghost predicate LockHeld(sys: System, t: nat) {
    var h := Holding(TaskOf(sys, t));
    h.Some? ==> h.value in sys.locks && sys.locks[h.value] == t
  }

  ghost predicate Inv(cfg: Config, sys: System) {
    && Indexed(sys.store)
    && WithinCap(sys.store, cfg.storeCap)
    && sys.store.byId.Keys <= sys.used
    && (forall u :: Live(SessionsOf(sys.store, u)) <= LiveCap(cfg))
    && (forall t :: LockHeld(sys, t) && TaskOk(cfg, sys.store, sys.used, TaskOf(sys, t)))
  }

  /** Sessions that are gone or revoked stay so. */
  ghost predicate Dead(st: Store, id: nat) {
    id !in st.byId || st.byId[id].revoked
  }

  /** What an outcome owes to the invariant. */
  ghost predicate OutcomeOk(cfg: Config, st: Store, used: set<nat>, task: Task, o: Outcome) {
    match o
    case Stay => true
    case Lock(u, next) => Holding(task).None? && Holding(next) == Some(u) && TaskOk(cfg, st, used, next)
    case Move(next) => (Holding(next).Some? ==> Holding(next) == Holding(task)) && TaskOk(cfg, st, used, next)
    case Write(s, next) => WriteOk(cfg, st, used, s) && Holding(task) == Some(s.user) && Holding(next) == Some(s.user)
                           && TaskOk(cfg, Save(st, s, cfg.storeCap), used + {s.id}, next)
    case Unlock(u) => task == Releasing(u)
  }

  /** A save is of a stored session of the same user or of a fresh one, revives nothing, and respects the cap. */
  ghost predicate WriteOk(cfg: Config, st: Store, used: set<nat>, s: Session) {
    && (if s.id in st.byId then st.byId[s.id].user == s.user && (st.byId[s.id].revoked ==> s.revoked) else s.id !in used)
    && Live(SessionsOf(Save(st, s, cfg.storeCap), s.user)) <= LiveCap(cfg)
  }

  lemma RevokeOk(cfg: Config, st: Store, s: Session)
    requires Indexed(st) && cfg.storeCap >= 1 && Kept(st, s)
    ensures Live(SessionsOf(Save(st, Revoked(s), cfg.storeCap), s.user))
            == Live(SessionsOf(st, s.user)) - (if st.byId[s.id].revoked then 0 else 1)
  {
    var i := PlaceOf(st, s.id);
    SaveExisting(st, Revoked(s), cfg.storeCap, i);
    LiveUpdate(SessionsOf(st, s.user), i, Revoked(s));
  }

  lemma TouchOk(cfg: Config, st: Store, s: Session)
    requires Indexed(st) && cfg.storeCap >= 1 && Kept(st, s) && !st.byId[s.id].revoked
    ensures Live(SessionsOf(Save(st, s, cfg.storeCap), s.user)) <= Live(SessionsOf(st, s.user))
  {
    var i := PlaceOf(st, s.id);
    SaveExisting(st, s, cfg.storeCap, i);
    LiveUpdate(SessionsOf(st, s.user), i, s);
  }

  lemma CreateOk(cfg: Config, st: Store, s: Session)
    requires Indexed(st) && cfg.storeCap >= 1 && s.id !in st.byId
    ensures Live(SessionsOf(Save(st, s, cfg.storeCap), s.user)) <= Live(SessionsOf(st, s.user)) + 1
  {
    SaveNew(st, s, cfg.storeCap);
    LiveDropAppend(SessionsOf(st, s.user), Excess(|SessionsOf(st, s.user)| + 1, cfg.storeCap), s);
  }

  lemma ListedIsStored(st: Store, u: string, s: Session)
    requires Indexed(st) && s in SessionsOf(st, u)
    ensures s.id in st.byId && st.byId[s.id] == s && s.user == u
  {
    SessionsAre(st, u);
  }

  lemma EvictionPlanOk(cfg: Config, st: Store, used: set<nat>, u: string)
    requires Indexed(st) && Live(SessionsOf(st, u)) <= LiveCap(cfg)
    ensures var next := EvictionPlan(cfg, u, SessionsOf(st, u));
            Holding(next) == Some(u) && TaskOk(cfg, st, used, next)
  {
    var active := Unrevoked(SessionsOf(st, u));
    if active != [] {
      OldestFacts(active);
      UnrevokedFacts(SessionsOf(st, u));
      ListedIsStored(st, u, Oldest(active));
    }
  }

  lemma RevokeAllListOk(cfg: Config, st: Store, used: set<nat>, u: string)
    requires Indexed(st)
    ensures TaskOk(cfg, st, used, RevokeAllSave(u, Unrevoked(SessionsOf(st, u))))
  {
    UnrevokedFacts(SessionsOf(st, u));
    forall p | p in Unrevoked(SessionsOf(st, u))
      ensures p.user == u && Kept(st, p)
    {
      ListedIsStored(st, u, p);
    }
  }

  lemma RevokePendingOk(cfg: Config, st: Store, used: set<nat>, u: string, pending: seq<Session>)
    requires Indexed(st) && cfg.storeCap >= 1 && pending != [] && Live(SessionsOf(st, u)) <= LiveCap(cfg)
    requires TaskOk(cfg, st, used, RevokeAllSave(u, pending))
    ensures OutcomeOk(cfg, st, used, RevokeAllSave(u, pending), Write(Revoked(pending[0]), RevokeAllSave(u, pending[1..])))
  {
    hide Indexed, SessionsOf, Live;
    var p := pending[0];
    assert p in pending;
    RevokeOk(cfg, st, p);
    forall q | q in pending[1..]
      ensures q.user == u && Kept(Save(st, Revoked(p), cfg.storeCap), q)
    {
      assert q in pending;
    }
  }

  lemma CreateListOk(cfg: Config, st: Store, used: set<nat>, u: string)
    requires Indexed(st) && Live(SessionsOf(st, u)) <= LiveCap(cfg)
    ensures OutcomeOk(cfg, st, used, CreateList(u), Move(EvictionPlan(cfg, u, SessionsOf(st, u))))
  {
    EvictionPlanOk(cfg, st, used, u);
  }

  lemma TouchSaveOk(cfg: Config, st: Store, used: set<nat>, s: Session)
    requires Indexed(st) && cfg.storeCap >= 1 && TaskOk(cfg, st, used, TouchSave(s)) && Live(SessionsOf(st, s.user)) <= LiveCap(cfg)
    ensures OutcomeOk(cfg, st, used, TouchSave(s), Write(s, Releasing(s.user)))
  {
    TouchOk(cfg, st, s);
  }

  lemma RevokeSaveOk(cfg: Config, st: Store, used: set<nat>, s: Session)
    requires Indexed(st) && cfg.storeCap >= 1 && TaskOk(cfg, st, used, RevokeSave(s)) && Live(SessionsOf(st, s.user)) <= LiveCap(cfg)
    ensures OutcomeOk(cfg, st, used, RevokeSave(s), Write(Revoked(s), Releasing(s.user)))
  {
    RevokeOk(cfg, st, s);
  }

  lemma RevokeAllMoveOk(cfg: Config, st: Store, used: set<nat>, u: string)
    requires Indexed(st)
    ensures OutcomeOk(cfg, st, used, RevokeAllList(u), Move(RevokeAllSave(u, Unrevoked(SessionsOf(st, u)))))
  {
    hide Unrevoked, SessionsOf, Indexed;
    RevokeAllListOk(cfg, st, used, u);
  }

  /** Whatever a task does next keeps the caps, revives nothing and keeps its own snapshots true. */
  lemma LocalOk(cfg: Config, st: Store, used: set<nat>, task: Task, now: int, newId: nat)
    requires Indexed(st) && cfg.storeCap >= 1 && st.byId.Keys <= used && TaskOk(cfg, st, used, task)
    requires Holding(task).Some? ==> Live(SessionsOf(st, Holding(task).value)) <= LiveCap(cfg)
    ensures OutcomeOk(cfg, st, used, task, Local(cfg, st, used, task, now, newId))
  {
    if (task.CreateSave? && newId in used) || (task.RevokeAllSave? && task.pending == []) {
      IdleStepOk(cfg, st, used, task, now, newId);
    } else {
      hide OutcomeOk, TaskOk, Indexed, SessionsOf, Live, EvictionPlan, Unrevoked, LiveCap;
      match task
      case CreateList(u) => CreateListOk(cfg, st, used, u);
      case CreateEvict(s) => EvictOk(cfg, st, used, s);
      case CreateSave(u) => CreateSaveOk(cfg, st, used, u, Session(newId, u, now, now, false));
      case TouchSave(s) => TouchSaveOk(cfg, st, used, s);
      case RevokeSave(s) => RevokeSaveOk(cfg, st, used, s);
      case RevokeAllList(u) => RevokeAllMoveOk(cfg, st, used, u);
      case RevokeAllSave(u, pending) => RevokePendingOk(cfg, st, used, u, pending);
      case _ => SimpleOk(cfg, st, used, task, now, newId);
    }
  }

  lemma IdleStepOk(cfg: Config, st: Store, used: set<nat>, task: Task, now: int, newId: nat)
    requires (task.CreateSave? && newId in used) || (task.RevokeAllSave? && task.pending == [])
    ensures OutcomeOk(cfg, st, used, task, Local(cfg, st, used, task, now, newId))
  {}

  /** Revoking the oldest at the cap makes room for one. */
  lemma EvictOk(cfg: Config, st: Store, used: set<nat>, s: Session)
    requires Indexed(st) && cfg.storeCap >= 1 && TaskOk(cfg, st, used, CreateEvict(s))
    ensures OutcomeOk(cfg, st, used, CreateEvict(s), Write(Revoked(s), CreateSave(s.user)))
  {
    RevokeOk(cfg, st, s);
  }

  lemma CreateSaveOk(cfg: Config, st: Store, used: set<nat>, u: string, s: Session)
    requires Indexed(st) && cfg.storeCap >= 1 && st.byId.Keys <= used && TaskOk(cfg, st, used, CreateSave(u))
    requires s.user == u && s.id !in used
    ensures OutcomeOk(cfg, st, used, CreateSave(u), Write(s, Releasing(u)))
  {
    CreateOk(cfg, st, s);
  }

  /** The steps that only read, wait or release. */
  lemma SimpleOk(cfg: Config, st: Store, used: set<nat>, task: Task, now: int, newId: nat)
    requires Indexed(st) && st.byId.Keys <= used && TaskOk(cfg, st, used, task)
    requires task.Idle? || task.CreateWait? || task.TouchRead? || task.TouchWait? || task.TouchGet? || task.RevokeRead?
             || task.RevokeWait? || task.RevokeGet? || task.RevokeAllWait? || task.Releasing?
    ensures OutcomeOk(cfg, st, used, task, Local(cfg, st, used, task, now, newId))
  {}

  // ----- the invariant over steps

  /** A save under one lock leaves the snapshots of all other tasks true. */
  lemma SaveKeepsTask(cfg: Config, st: Store, used: set<nat>, s: Session, task: Task)
    requires Indexed(st) && cfg.storeCap >= 1 && st.byId.Keys <= used && WriteOk(cfg, st, used, s)
    requires TaskOk(cfg, st, used, task) && Holding(task) != Some(s.user)
    ensures TaskOk(cfg, Save(st, s, cfg.storeCap), used + {s.id}, task)
  {
    if Holding(task).Some? {
      SaveElsewhere(st, s, cfg.storeCap, Holding(task).value);
    }
    ForeignIds(cfg, st, used, s);
    match task
    case RevokeAllSave(u, pending) =>
      forall p | p in pending
        ensures p.user == u && Kept(Save(st, s, cfg.storeCap), p)
      {
        assert Get(Save(st, s, cfg.storeCap), p.id) == Get(st, p.id);
      }
    case CreateEvict(o) => assert Get(Save(st, s, cfg.storeCap), o.id) == Get(st, o.id);
    case TouchSave(o) => assert Get(Save(st, s, cfg.storeCap), o.id) == Get(st, o.id);
    case RevokeSave(o) => assert Get(Save(st, s, cfg.storeCap), o.id) == Get(st, o.id);
    case _ =>
  }

  /** A save changes no stored user, brings back no issued id and revives no revoked session. */
  lemma ForeignIds(cfg: Config, st: Store, used: set<nat>, s: Session)
    requires Indexed(st) && cfg.storeCap >= 1 && st.byId.Keys <= used && WriteOk(cfg, st, used, s)
    ensures var st' := Save(st, s, cfg.storeCap);
            && st'.byId.Keys <= used + {s.id}
            && (forall id :: id in used && id in st'.byId ==> id in st.byId && st'.byId[id].user == st.byId[id].user)
            && (forall id :: id in used && Dead(st, id) ==> Dead(st', id))
  {
    if s.id !in st.byId {
      SaveNewIds(st, s, cfg.storeCap);
    }
  }

  lemma CommitKeepsInv(cfg: Config, sys: System, t: nat, s: Session, next: Task)
    requires Inv(cfg, sys) && cfg.storeCap >= 1 && WriteOk(cfg, sys.store, sys.used, s)
    requires Holding(TaskOf(sys, t)) == Some(s.user) && Holding(next) == Some(s.user)
    requires TaskOk(cfg, Save(sys.store, s, cfg.storeCap), sys.used + {s.id}, next)
    ensures Inv(cfg, Commit(cfg, sys, t, s, next))
  {
    var sys' := Commit(cfg, sys, t, s, next);
    SaveKeepsIndexed(sys.store, s, cfg.storeCap);
    SaveKeepsCap(sys.store, s, cfg.storeCap);
    ForeignIds(cfg, sys.store, sys.used, s);
    assert LockHeld(sys, t);
    forall u
      ensures Live(SessionsOf(sys'.store, u)) <= LiveCap(cfg)
    {
      if u != s.user {
        SaveElsewhere(sys.store, s, cfg.storeCap, u);
      }
    }
    forall u
      ensures LockHeld(sys', u) && TaskOk(cfg, sys'.store, sys'.used, TaskOf(sys', u))
    {
      assert LockHeld(sys, u) && TaskOk(cfg, sys.store, sys.used, TaskOf(sys, u));
      if u != t {
        SaveKeepsTask(cfg, sys.store, sys.used, s, TaskOf(sys, u));
      }
    }
  }

  lemma GotoKeepsInv(cfg: Config, sys: System, t: nat, next: Task)
    requires Inv(cfg, sys) && TaskOk(cfg, sys.store, sys.used, next)
    requires Holding(next).Some? ==> Holding(TaskOf(sys, t)) == Holding(next)
    ensures Inv(cfg, Goto(sys, t, next))
  {
    var sys' := Goto(sys, t, next);
    assert LockHeld(sys, t);
    forall u
      ensures LockHeld(sys', u) && TaskOk(cfg, sys'.store, sys'.used, TaskOf(sys', u))
    {
      assert LockHeld(sys, u) && TaskOk(cfg, sys.store, sys.used, TaskOf(sys, u));
    }
  }

  lemma LockKeepsInv(cfg: Config, sys: System, t: nat, user: string, next: Task)
    requires Inv(cfg, sys) && TaskOk(cfg, sys.store, sys.used, next) && Holding(next) == Some(user)
    requires Holding(TaskOf(sys, t)).None? && user !in sys.locks
    ensures Inv(cfg, Goto(sys.(locks := sys.locks[user := t]), t, next))
  {
    var sys' := Goto(sys.(locks := sys.locks[user := t]), t, next);
    forall u
      ensures LockHeld(sys', u) && TaskOk(cfg, sys'.store, sys'.used, TaskOf(sys', u))
    {
      assert LockHeld(sys, u) && TaskOk(cfg, sys.store, sys.used, TaskOf(sys, u));
    }
  }

  lemma UnlockKeepsInv(cfg: Config, sys: System, t: nat, user: string)
    requires Inv(cfg, sys) && TaskOf(sys, t) == Releasing(user)
    ensures Inv(cfg, Goto(sys.(locks := sys.locks - {user}), t, Idle))
  {
    var sys' := Goto(sys.(locks := sys.locks - {user}), t, Idle);
    assert LockHeld(sys, t);
    forall u
      ensures LockHeld(sys', u) && TaskOk(cfg, sys'.store, sys'.used, TaskOf(sys', u))
    {
      assert LockHeld(sys, u) && TaskOk(cfg, sys.store, sys.used, TaskOf(sys, u));
    }
  }

  lemma InvAt(cfg: Config, sys: System, t: nat)
    requires Inv(cfg, sys)
    ensures Indexed(sys.store) && sys.store.byId.Keys <= sys.used
    ensures LockHeld(sys, t) && TaskOk(cfg, sys.store, sys.used, TaskOf(sys, t))
    ensures Holding(TaskOf(sys, t)).Some? ==> Live(SessionsOf(sys.store, Holding(TaskOf(sys, t)).value)) <= LiveCap(cfg)
  {}

  lemma AdvanceKeepsInv(cfg: Config, sys: System, t: nat, now: int, newId: nat)
    requires Inv(cfg, sys) && cfg.storeCap >= 1
    ensures Inv(cfg, Advance(cfg, sys, t, now, newId))
  {
    var task := TaskOf(sys, t);
    var o := Local(cfg, sys.store, sys.used, task, now, newId);
    InvAt(cfg, sys, t);
    LocalOk(cfg, sys.store, sys.used, task, now, newId);
    match o
    case Stay =>
    case Lock(u, next) => if u !in sys.locks { LockKeepsInv(cfg, sys, t, u, next); }
    case Move(next) => GotoKeepsInv(cfg, sys, t, next);
    case Write(s, next) => CommitKeepsInv(cfg, sys, t, s, next);
    case Unlock(u) => UnlockKeepsInv(cfg, sys, t, u);
  }

  lemma {:induction false} EveryStateSafe(cfg: Config, actions: seq<Action>)
    requires cfg.storeCap >= 1
    ensures Inv(cfg, Run(cfg, actions))
  {
    if actions != [] {
      EveryStateSafe(cfg, actions[..|actions| - 1]);
      var sys := Run(cfg, actions[..|actions| - 1]);
      match actions[|actions| - 1]
      case Begin(t, task) =>
        if TaskOf(sys, t).Idle? && IsStart(task) {
          GotoKeepsInv(cfg, sys, t, task);
        }
      case Step(t, now, newId) => AdvanceKeepsInv(cfg, sys, t, now, newId);
    }
  }

  /** Under every interleaving, after every single save: the concurrent cap, the store cap and both indexes. */
  lemma SessionSafety(cfg: Config, actions: seq<Action>, user: string)
    requires cfg.storeCap >= 1
    ensures var st := Run(cfg, actions).store;
            && Live(SessionsOf(st, user)) <= LiveCap(cfg)
            && |IdsOf(st, user)| <= cfg.storeCap
            && Indexed(st)
  {
    EveryStateSafe(cfg, actions);
  }

  lemma StepRevivesNothing(cfg: Config, sys: System, a: Action, id: nat)
    requires Inv(cfg, sys) && cfg.storeCap >= 1 && id in sys.used && Dead(sys.store, id)
    ensures id in Act(cfg, sys, a).used && Dead(Act(cfg, sys, a).store, id)
  {
    if a.Step? {
      var task := TaskOf(sys, a.t);
      InvAt(cfg, sys, a.t);
      LocalOk(cfg, sys.store, sys.used, task, a.now, a.newId);
      var o := Local(cfg, sys.store, sys.used, task, a.now, a.newId);
      if o.Write? {
        ForeignIds(cfg, sys.store, sys.used, o.s);
      }
    }
  }

  lemma RunAppend(cfg: Config, actions: seq<Action>, a: Action)
    ensures Run(cfg, actions + [a]) == Act(cfg, Run(cfg, actions), a)
  {
    hide Act;
    assert (actions + [a])[..|actions|] == actions;
  }

  /** Once a session is revoked or dropped it is never live again, whatever happens later. */
  lemma {:induction false} RevokedStaysRevoked(cfg: Config, actions: seq<Action>, later: seq<Action>, id: nat)
    requires cfg.storeCap >= 1 && id in Run(cfg, actions).used && Dead(Run(cfg, actions).store, id)
    ensures id in Run(cfg, actions + later).used && Dead(Run(cfg, actions + later).store, id)
  {
    if later == [] {
      assert actions + later == actions;
    } else {
      hide Run, Act, Inv, Dead;
      var init, last := later[..|later| - 1], later[|later| - 1];
      RevokedStaysRevoked(cfg, actions, init, id);
      EveryStateSafe(cfg, actions + init);
      assert actions + later == actions + init + [last];
      RunAppend(cfg, actions + init, last);
      StepRevivesNothing(cfg, Run(cfg, actions + init), last, id);
    }
  }
}
