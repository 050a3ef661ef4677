/**
 What a session call does when no other task comes between its steps
 (engine/api/sessions.py), and how long a session can stay in use, whatever
 comes between them.
 */
module SessionCalls {
  import opened Wrappers
  import opened IdIndex
  import opened Sessions
  import opened SessionServiceObject

  function StepN(cfg: Config, sys: System, t: nat, now: int, newId: nat, n: nat): System
    decreases n
  {
    if n == 0 then sys else StepN(cfg, Advance(cfg, sys, t, now, newId), t, now, newId, n - 1)
  }

  /** The call has returned: the task is idle and the user's lock is free. */
  predicate Returned(sys: System, t: nat, user: string) {
    TaskOf(sys, t).Idle? && user !in sys.locks
  }

  lemma NextStep(cfg: Config, sys: System, t: nat, now: int, newId: nat, n: nat)
    requires n > 0
    ensures StepN(cfg, sys, t, now, newId, n) == StepN(cfg, Advance(cfg, sys, t, now, newId), t, now, newId, n - 1)
  {}

  lemma NoStep(cfg: Config, sys: System, t: nat, now: int, newId: nat)
    ensures StepN(cfg, sys, t, now, newId, 0) == sys
  {}

  /** A release is the last step of a call. */
  lemma LoneRelease(cfg: Config, sys: System, t: nat, user: string, now: int, newId: nat)
    requires TaskOf(sys, t) == Releasing(user)
    ensures var after := StepN(cfg, sys, t, now, newId, 1); Returned(after, t, user) && after.store == sys.store && after.used == sys.used
  {
    NextStep(cfg, sys, t, now, newId, 1);
    NoStep(cfg, Advance(cfg, sys, t, now, newId), t, now, newId);
  }

  /** A save, and the release after it. */
  lemma LoneSave(cfg: Config, sys: System, t: nat, s: Session, now: int, newId: nat)
    requires Local(cfg, sys.store, sys.used, TaskOf(sys, t), now, newId) == Write(s, Releasing(s.user))
    ensures var after := StepN(cfg, sys, t, now, newId, 2); Returned(after, t, s.user) && after.store == Save(sys.store, s, cfg.storeCap)
  {
    hide Save;
    NextStep(cfg, sys, t, now, newId, 2);
    LoneRelease(cfg, Advance(cfg, sys, t, now, newId), t, s.user, now, newId);
  }

  // ----- touch and revoke

  /** Nothing has been heard of the session for longer than the idle timeout, or it is older than the absolute one. */
  ghost predicate TimedOut(cfg: Config, s: Session, now: int) {
    s.lastActiveAt < now - cfg.idleTimeout || s.createdAt < now - cfg.absoluteTimeout
  }

  /** The first three steps of a touch or a revoke find the session under the lock. */
  lemma LoneFind(cfg: Config, sys: System, t: nat, id: nat, now: int, newId: nat)
    requires TaskOf(sys, t) == TouchRead(id) || TaskOf(sys, t) == RevokeRead(id)
    requires id in sys.store.byId && sys.store.byId[id].user !in sys.locks
    ensures var s2 := Advance(cfg, Advance(cfg, sys, t, now, newId), t, now, newId);
            && s2.store == sys.store
            && TaskOf(s2, t) == (if TaskOf(sys, t).TouchRead? then TouchGet(id, sys.store.byId[id].user) else RevokeGet(id, sys.store.byId[id].user))
            && forall n: nat :: StepN(cfg, sys, t, now, newId, n + 2) == StepN(cfg, s2, t, now, newId, n)
  {
    var s1 := Advance(cfg, sys, t, now, newId);
    assert s1.store == sys.store && s1.locks == sys.locks;
    forall n: nat
      ensures StepN(cfg, sys, t, now, newId, n + 2) == StepN(cfg, Advance(cfg, s1, t, now, newId), t, now, newId, n)
    {
      NextStep(cfg, sys, t, now, newId, n + 2);
      NextStep(cfg, s1, t, now, newId, n + 1);
    }
  }

  /** A lone touch of a live session sets its activity time and nothing else; of a revoked or timed out one it changes nothing. */
  lemma LoneTouch(cfg: Config, sys: System, t: nat, id: nat, now: int, newId: nat)
    requires TaskOf(sys, t) == TouchRead(id) && id in sys.store.byId && sys.store.byId[id].user !in sys.locks
    requires sys.store.byId[id].id == id
    ensures var s := sys.store.byId[id];
            if s.revoked || TimedOut(cfg, s, now) then
              var after := StepN(cfg, sys, t, now, newId, 4); Returned(after, t, s.user) && after.store == sys.store
            else
              var after := StepN(cfg, sys, t, now, newId, 5);
              Returned(after, t, s.user) && after.store == sys.store.(byId := sys.store.byId[id := s.(lastActiveAt := now)])
  {
    hide StepN;
    var s := sys.store.byId[id];
    LoneFind(cfg, sys, t, id, now, newId);
    var s2 := Advance(cfg, Advance(cfg, sys, t, now, newId), t, now, newId);
    var s3 := Advance(cfg, s2, t, now, newId);
    assert s3.store == sys.store;
    NextStep(cfg, s2, t, now, newId, 2);
    NextStep(cfg, s2, t, now, newId, 3);
    if s.revoked || TimedOut(cfg, s, now) {
      LoneRelease(cfg, s3, t, s.user, now, newId);
    } else {
      LoneSave(cfg, s3, t, s.(lastActiveAt := now), now, newId);
    }
  }

  /** A lone revoke marks the session revoked and changes nothing else. */
  lemma LoneRevoke(cfg: Config, sys: System, t: nat, id: nat, now: int, newId: nat)
    requires TaskOf(sys, t) == RevokeRead(id) && id in sys.store.byId && sys.store.byId[id].user !in sys.locks
    requires sys.store.byId[id].id == id
    ensures var s := sys.store.byId[id];
            var after := StepN(cfg, sys, t, now, newId, if s.revoked then 4 else 5);
            Returned(after, t, s.user) && after.store == sys.store.(byId := sys.store.byId[id := s.(revoked := true)])
  {
    hide StepN;
    var s := sys.store.byId[id];
    LoneFind(cfg, sys, t, id, now, newId);
    var s2 := Advance(cfg, Advance(cfg, sys, t, now, newId), t, now, newId);
    var s3 := Advance(cfg, s2, t, now, newId);
    assert s3.store == sys.store;
    NextStep(cfg, s2, t, now, newId, 2);
    NextStep(cfg, s2, t, now, newId, 3);
    if s.revoked {
      assert s.(revoked := true) == s;
      assert sys.store.byId[id := s] == sys.store.byId;
      LoneRelease(cfg, s3, t, s.user, now, newId);
    } else {
      LoneSave(cfg, s3, t, Revoked(s), now, newId);
    }
  }

  /** Calls for an unknown session return at once. */
  lemma LoneUnknown(cfg: Config, sys: System, t: nat, id: nat, now: int, newId: nat)
    requires (TaskOf(sys, t) == TouchRead(id) || TaskOf(sys, t) == RevokeRead(id)) && id !in sys.store.byId
    ensures var after := StepN(cfg, sys, t, now, newId, 1); TaskOf(after, t).Idle? && after.store == sys.store && after.locks == sys.locks
  {
    NextStep(cfg, sys, t, now, newId, 1);
    NoStep(cfg, Advance(cfg, sys, t, now, newId), t, now, newId);
  }

  // ----- create

  /**
   A lone create below the concurrent cap saves the new session; at the cap it first revokes the oldest live one,
   and with a cap that admits nobody it saves nothing.
   */
  lemma LoneCreate(cfg: Config, sys: System, t: nat, user: string, now: int, newId: nat)
    requires Indexed(sys.store) && TaskOf(sys, t) == CreateWait(user) && user !in sys.locks && newId !in sys.used
    requires sys.store.byId.Keys <= sys.used
    ensures var ss, created := SessionsOf(sys.store, user), Session(newId, user, now, now, false);
            if Live(ss) < cfg.maxConcurrent then
              var after := StepN(cfg, sys, t, now, newId, 4);
              Returned(after, t, user) && after.store == Save(sys.store, created, cfg.storeCap)
            else if Live(ss) == 0 then
              var after := StepN(cfg, sys, t, now, newId, 3);
              Returned(after, t, user) && after.store == sys.store
            else
              var after := StepN(cfg, sys, t, now, newId, 5);
              && Returned(after, t, user)
              && exists i: nat :: IsOldestLive(ss, i) && after.store
                   == Save(sys.store.(byId := sys.store.byId[ss[i].id := ss[i].(revoked := true)]), created, cfg.storeCap)
  {
    hide StepN, SessionsOf, Save, Unrevoked, Indexed;
    var ss, created := SessionsOf(sys.store, user), Session(newId, user, now, now, false);
    var s1 := Advance(cfg, sys, t, now, newId);
    var s2 := Advance(cfg, s1, t, now, newId);
    assert s1.store == sys.store && s2.store == sys.store && TaskOf(s1, t) == CreateList(user);
    forall n: nat
      ensures StepN(cfg, sys, t, now, newId, n + 2) == StepN(cfg, s2, t, now, newId, n)
    {
      NextStep(cfg, sys, t, now, newId, n + 2);
      NextStep(cfg, s1, t, now, newId, n + 1);
    }
    UnrevokedFacts(ss);
    if Live(ss) < cfg.maxConcurrent {
      LoneSave(cfg, s2, t, created, now, newId);
    } else if Live(ss) == 0 {
      LoneRelease(cfg, s2, t, user, now, newId);
    } else {
      var i := OldestLiveAt(ss);
      var oldest := ss[i];
      ListedIsStored(sys.store, user, oldest);
      var s3 := Advance(cfg, s2, t, now, newId);
      SaveStored(sys.store, Revoked(oldest), cfg.storeCap);
      assert s3.used == sys.used;
      LoneSave(cfg, s3, t, created, now, newId);
      NextStep(cfg, s2, t, now, newId, 3);
    }
  }

  // ----- revoke all

  /** A user's session once revoke-all has come to it. */
  function RevokedFor(user: string, s: Session): Session {
    if s.user == user then s.(revoked := true) else s
  }

  /** The listed sessions of the user are stored as they were read, each once. */
  ghost predicate AsRead(st: Store, user: string, pending: seq<Session>) {
    && (forall p :: p in pending ==> p.id in st.byId && st.byId[p.id] == p && p.user == user)
    && (forall i, j :: 0 <= i < j < |pending| ==> pending[i].id != pending[j].id)
  }

  /** The listed sessions are revoked, and nothing else is changed. */
  ghost predicate Revokes(st: Store, st': Store, pending: seq<Session>) {
    && st'.byUser == st.byUser && st'.byId.Keys == st.byId.Keys
    && (forall p :: p in pending && p.id in st'.byId ==> st'.byId[p.id] == Revoked(p))
    && (forall id :: id in st.byId && (forall p :: p in pending ==> p.id != id) ==> st'.byId[id] == st.byId[id])
  }

  lemma RevokesFirst(st: Store, st1: Store, st': Store, user: string, pending: seq<Session>)
    requires pending != [] && AsRead(st, user, pending)
    requires st1 == st.(byId := st.byId[pending[0].id := Revoked(pending[0])])
    ensures AsRead(st1, user, pending[1..])
    ensures Revokes(st1, st', pending[1..]) ==> Revokes(st, st', pending)
  {
    var first, rest := pending[0], pending[1..];
    assert first in pending;
    assert forall q :: q in pending <==> q == first || q in rest;
    forall q | q in rest
      ensures q.id != first.id
    {
      var k :| 0 <= k < |rest| && rest[k] == q;
      assert pending[k + 1] == q;
    }
  }

  /** The saves of a revoke-all. */
  lemma {:induction false} LoneRevocations(cfg: Config, sys: System, t: nat, user: string, pending: seq<Session>, now: int, newId: nat)
    requires TaskOf(sys, t) == RevokeAllSave(user, pending) && AsRead(sys.store, user, pending)
    ensures var after := StepN(cfg, sys, t, now, newId, |pending| + 2);
            Returned(after, t, user) && Revokes(sys.store, after.store, pending)
    decreases pending
  {
    hide StepN, Save, Revokes, AsRead;
    var next := Advance(cfg, sys, t, now, newId);
    NextStep(cfg, sys, t, now, newId, |pending| + 2);
    if pending == [] {
      LoneRelease(cfg, next, t, user, now, newId);
      RevokesNothing(sys.store);
    } else {
      SavesFirst(cfg, sys.store, user, pending);
      var after := StepN(cfg, next, t, now, newId, |pending| + 1);
      RevokesFirst(sys.store, next.store, after.store, user, pending);
      LoneRevocations(cfg, next, t, user, pending[1..], now, newId);
    }
  }

  lemma RevokesNothing(st: Store)
    ensures Revokes(st, st, [])
  {}

  lemma SavesFirst(cfg: Config, st: Store, user: string, pending: seq<Session>)
    requires pending != [] && AsRead(st, user, pending)
    ensures Save(st, Revoked(pending[0]), cfg.storeCap) == st.(byId := st.byId[pending[0].id := Revoked(pending[0])])
    ensures pending[0].user == user
  {
    assert pending[0] in pending;
  }

  lemma {:induction false} UnrevokedDistinct(ss: seq<Session>)
    requires forall i, j :: 0 <= i < j < |ss| ==> ss[i].id != ss[j].id
    ensures forall i, j :: 0 <= i < j < |Unrevoked(ss)| ==> Unrevoked(ss)[i].id != Unrevoked(ss)[j].id
    decreases ss
  {
    if ss != [] {
      var rest := ss[1..];
      UnrevokedDistinct(rest);
      UnrevokedFacts(rest);
      assert forall i :: 0 <= i < |rest| ==> rest[i] == ss[i + 1];
      assert forall s :: s in rest ==> s.id != ss[0].id;
      assert Unrevoked(ss) == (if ss[0].revoked then [] else [ss[0]]) + Unrevoked(rest);
      forall i | 0 <= i < |Unrevoked(rest)|
        ensures Unrevoked(rest)[i].id != ss[0].id
      {
        assert Unrevoked(rest)[i] in Unrevoked(rest);
      }
    }
  }

  /** A lone revoke-all leaves every session of the user revoked and every other one as it was. */
  lemma LoneRevokeAll(cfg: Config, sys: System, t: nat, user: string, now: int, newId: nat)
    requires Indexed(sys.store) && TaskOf(sys, t) == RevokeAllWait(user) && user !in sys.locks
    ensures var after := StepN(cfg, sys, t, now, newId, |Unrevoked(SessionsOf(sys.store, user))| + 4);
            && Returned(after, t, user) && after.store.byUser == sys.store.byUser && after.store.byId.Keys == sys.store.byId.Keys
            && forall id :: id in sys.store.byId ==> after.store.byId[id] == RevokedFor(user, sys.store.byId[id])
  {
    hide StepN, SessionsOf, Unrevoked, Indexed, AsRead, Revokes;
    var pending := Unrevoked(SessionsOf(sys.store, user));
    var s1 := Advance(cfg, sys, t, now, newId);
    var s2 := Advance(cfg, s1, t, now, newId);
    assert s1.store == sys.store && s2.store == sys.store && TaskOf(s1, t) == RevokeAllList(user);
    NextStep(cfg, sys, t, now, newId, |pending| + 4);
    NextStep(cfg, s1, t, now, newId, |pending| + 3);
    LiveAsRead(sys.store, user);
    LoneRevocations(cfg, s2, t, user, pending, now, newId);
    RevokesWholeUser(sys.store, StepN(cfg, s2, t, now, newId, |pending| + 2).store, user);
  }

  lemma LiveAsRead(st: Store, user: string)
    requires Indexed(st)
    ensures AsRead(st, user, Unrevoked(SessionsOf(st, user)))
  {
    hide SessionsOf, Unrevoked;
    var ss := SessionsOf(st, user);
    SessionsDistinct(st, user);
    UnrevokedDistinct(ss);
    UnrevokedFacts(ss);
    forall p | p in Unrevoked(ss)
      ensures p.id in st.byId && st.byId[p.id] == p && p.user == user
    {
      ListedIsStored(st, user, p);
    }
  }

  /** Revoking a user's live sessions leaves the user with revoked ones only. */
  lemma RevokesWholeUser(st: Store, st': Store, user: string)
    requires Indexed(st) && Revokes(st, st', Unrevoked(SessionsOf(st, user)))
    ensures st'.byUser == st.byUser && st'.byId.Keys == st.byId.Keys
    ensures forall id :: id in st.byId ==> st'.byId[id] == RevokedFor(user, st.byId[id])
  {
    hide SessionsOf, Unrevoked;
    var ss := SessionsOf(st, user);
    UnrevokedFacts(ss);
    forall id | id in st.byId
      ensures st'.byId[id] == RevokedFor(user, st.byId[id])
    {
      var s := st.byId[id];
      assert s.id == id;
      if s.user == user && !s.revoked {
        var k := PlaceOf(st, id);
        assert ss[k] == s;
      } else {
        forall p | p in Unrevoked(ss)
          ensures p.id != id
        {
          ListedIsStored(st, user, p);
        }
      }
    }
  }

  lemma SessionsDistinct(st: Store, user: string)
    requires Indexed(st)
    ensures var ss := SessionsOf(st, user); forall i, j :: 0 <= i < j < |ss| ==> ss[i].id != ss[j].id
  {
    SessionsAre(st, user);
    var ids := IdsOf(st, user);
    assert NoDuplicates(ids);
    forall i, j | 0 <= i < j < |ids|
      ensures ids[i] != ids[j]
    {
      if ids[i] == ids[j] {
        NoDuplicatesMeans(ids, i, j);
      }
    }
  }

  // ----- how long a session stays in use

  /** The session was last used before it had outlived the absolute timeout. */
  predicate Timely(cfg: Config, s: Session) {
    s.lastActiveAt == s.createdAt || s.lastActiveAt <= s.createdAt + cfg.absoluteTimeout
  }

  ghost predicate TaskTimely(cfg: Config, task: Task) {
    match task
    case CreateEvict(s) => Timely(cfg, s)
    case TouchSave(s) => Timely(cfg, s)
    case RevokeSave(s) => Timely(cfg, s)
    case RevokeAllSave(_, pending) => forall p :: p in pending ==> Timely(cfg, p)
    case _ => true
  }

  ghost predicate AllTimely(cfg: Config, sys: System) {
    && (forall id :: id in sys.store.byId ==> Timely(cfg, sys.store.byId[id]))
    && (forall t :: TaskTimely(cfg, TaskOf(sys, t)))
  }

  lemma {:induction false} LookupTimely(cfg: Config, byId: map<nat, Session>, ids: seq<nat>)
    requires forall id :: id in byId ==> Timely(cfg, byId[id])
    ensures forall s :: s in Lookup(byId, ids) ==> Timely(cfg, s)
    decreases ids
  {
    if ids != [] {
      LookupTimely(cfg, byId, ids[1..]);
    }
  }

  lemma PlanTimely(cfg: Config, st: Store, user: string)
    requires forall id :: id in st.byId ==> Timely(cfg, st.byId[id])
    ensures TaskTimely(cfg, EvictionPlan(cfg, user, SessionsOf(st, user)))
    ensures TaskTimely(cfg, RevokeAllSave(user, Unrevoked(SessionsOf(st, user))))
  {
    LookupTimely(cfg, st.byId, IdsOf(st, user));
    var ss := SessionsOf(st, user);
    UnrevokedFacts(ss);
    if Unrevoked(ss) != [] {
      OldestFacts(Unrevoked(ss));
    }
  }

  lemma LocalTimely(cfg: Config, sys: System, t: nat, now: int, newId: nat)
    requires AllTimely(cfg, sys)
    ensures var o := Local(cfg, sys.store, sys.used, TaskOf(sys, t), now, newId);
            && (o.Write? ==> Timely(cfg, o.s))
            && (o.Write? || o.Move? || o.Lock? ==> TaskTimely(cfg, o.next))
  {
    hide EvictionPlan, Unrevoked, SessionsOf;
    var task := TaskOf(sys, t);
    assert TaskTimely(cfg, task);
    match task
    case CreateList(u) => PlanTimely(cfg, sys.store, u);
    case RevokeAllList(u) => PlanTimely(cfg, sys.store, u);
    case RevokeAllSave(_, pending) =>
      if pending != [] {
        assert pending[0] in pending;
      }
    case _ =>
  }

  lemma ActTimely(cfg: Config, sys: System, a: Action)
    requires AllTimely(cfg, sys)
    ensures AllTimely(cfg, Act(cfg, sys, a))
  {
    hide Local, Timely;
    if a.Step? {
      LocalTimely(cfg, sys, a.t, a.now, a.newId);
    }
    var after := Act(cfg, sys, a);
    forall t
      ensures TaskTimely(cfg, TaskOf(after, t))
    {
      assert TaskTimely(cfg, TaskOf(sys, t));
    }
  }

  /** In every interleaving no stored session was ever used after its absolute timeout: touches cannot keep it alive. */
  lemma {:induction false} NoUseAfterTimeout(cfg: Config, actions: seq<Action>)
    ensures AllTimely(cfg, Run(cfg, actions))
    decreases actions
  {
    if actions != [] {
      NoUseAfterTimeout(cfg, actions[..|actions| - 1]);
      ActTimely(cfg, Run(cfg, actions[..|actions| - 1]), actions[|actions| - 1]);
    }
  }
}
