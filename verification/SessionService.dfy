/**
 The in-memory session store and the session service as objects
 (engine/api/sessions.py), for calls that run uninterrupted. What interleaved
 calls do is the subject of the Sessions module.
 */
module SessionServiceObject {
  import opened Wrappers
  import opened IdIndex
  import opened Sessions

  datatype Error = NotFound | WasRevoked | HasExpired | NobodyToEvict

  class InMemorySessionStore {
    const cap: nat
    var byId: map<nat, Session>
    var byUser: map<string, seq<nat>>

    ghost function State(): Store
      reads this
    {
      Store(byId, byUser)
    }

    constructor (cap: nat)
      ensures this.cap == cap && State() == Store(map[], map[])
    {
      this.cap := cap;
      byId, byUser := map[], map[];
    }

    method Get(id: nat) returns (s: Option<Session>)
      ensures s == Sessions.Get(State(), id)
    {
      return if id in byId then Some(byId[id]) else None;
    }

    /** Appends a new id, pops the oldest ids while the list is over the cap, and writes the record. */
    method Save(s: Session)
      modifies this
      ensures State() == Sessions.Save(old(State()), s, cap)
    {
      if s.id !in byId {
        var ids := (if s.user in byUser then byUser[s.user] else []) + [s.id];
        ghost var all, stored := ids, byId;
        ghost var k := 0;
        assert stored - (set id | id in all[..0]) == stored;
        while |ids| > cap
          invariant 0 <= k <= Excess(|all|, cap) && ids == all[k..]
          invariant byId == stored - set id | id in all[..k]
          invariant byUser == old(byUser)
          decreases |ids|
        {
          var drop := ids[0];
          ids := ids[1..];
          byId := byId - {drop};
          assert all[..k + 1] == all[..k] + [drop];
          k := k + 1;
        }
        byUser := byUser[s.user := ids];
      }
      byId := byId[s.id := s];
    }

    method ListForUser(user: string) returns (ss: seq<Session>)
      ensures ss == SessionsOf(State(), user)
    {
      var ids := if user in byUser then byUser[user] else [];
      ss := [];
      LookupEnds(byId, ids);
      hide Lookup;
      for i := 0 to |ids|
        invariant ss + Lookup(byId, ids[i..]) == Lookup(byId, ids)
      {
        LookupStep(byId, ids, i);
        if ids[i] in byId {
          ss := ss + [byId[ids[i]]];
        }
      }
    }
  }

  ghost predicate Ready(cfg: Config, store: InMemorySessionStore)
    reads store
  {
    store.cap == cfg.storeCap >= 1 && Indexed(store.State())
  }

  /** The place of the first unrevoked session of the smallest creation time. */
  ghost predicate IsOldestLive(ss: seq<Session>, i: nat) {
    && i < |ss| && !ss[i].revoked
    && forall j :: 0 <= j < |ss| && !ss[j].revoked ==>
         ss[i].createdAt <= ss[j].createdAt && (j < i ==> ss[i].createdAt < ss[j].createdAt)
  }

  lemma {:induction false} OldestLiveAt(ss: seq<Session>) returns (i: nat)
    requires Unrevoked(ss) != []
    ensures IsOldestLive(ss, i) && ss[i] == Oldest(Unrevoked(ss))
  {
    var rest := ss[1..];
    UnrevokedFacts(rest);
    UnrevokedFacts(ss);
    assert forall j :: 0 < j < |ss| ==> ss[j] == rest[j - 1] && ss[j] in rest;
    if ss[0].revoked {
      assert Unrevoked(ss) == Unrevoked(rest);
    } else {
      assert Unrevoked(ss)[0] == ss[0] && Unrevoked(ss)[1..] == Unrevoked(rest);
    }
    if !ss[0].revoked && (Unrevoked(rest) == [] || ss[0].createdAt <= Oldest(Unrevoked(rest)).createdAt) {
      i := 0;
      if Unrevoked(rest) != [] {
        OldestFacts(Unrevoked(rest));
      }
    } else {
      var k := OldestLiveAt(rest);
      i := k + 1;
      forall j | 0 <= j < |ss| && !ss[j].revoked
        ensures ss[i].createdAt <= ss[j].createdAt && (j < i ==> ss[i].createdAt < ss[j].createdAt)
      {
        if j > 0 {
          assert ss[j] == rest[j - 1];
        }
      }
    }
  }

  /** Below the concurrent cap nothing happens; at the cap exactly the oldest live session is revoked. */
  ghost predicate MakesRoom(cfg: Config, before: seq<Session>, after: seq<Session>) {
    if Live(before) < cfg.maxConcurrent then after == before
    else exists i: nat :: IsOldestLive(before, i) && after == before[i := Revoked(before[i])]
  }

  /** Room is made, the oldest entries beyond the store cap go, and the new session comes last. */
  ghost predicate IsCreation(cfg: Config, before: seq<Session>, after: seq<Session>, s: Session) {
    exists room :: MakesRoom(cfg, before, room) && IsAppend(cfg, room, after, s)
  }

  ghost predicate IsAppend(cfg: Config, room: seq<Session>, after: seq<Session>, s: Session) {
    Excess(|room| + 1, cfg.storeCap) <= |room| && after == room[Excess(|room| + 1, cfg.storeCap)..] + [s]
  }

  lemma SaveStored(st: Store, s: Session, cap: nat)
    requires s.id in st.byId
    ensures Save(st, s, cap) == st.(byId := st.byId[s.id := s])
  {}

  /** Saving a new session appends it, drops what is over the store cap and touches no other user. */
  lemma SaveNewSession(cfg: Config, st: Store, s: Session)
    requires Indexed(st) && cfg.storeCap >= 1 && s.id !in st.byId && Live(SessionsOf(st, s.user)) < cfg.maxConcurrent
    ensures var st' := Save(st, s, cfg.storeCap);
            && Indexed(st') && IsAppend(cfg, SessionsOf(st, s.user), SessionsOf(st', s.user), s)
            && Live(SessionsOf(st', s.user)) <= LiveCap(cfg)
            && forall other :: other != s.user ==> SessionsOf(st', other) == SessionsOf(st, other)
  {
    hide Save, SessionsOf;
    SaveKeepsIndexed(st, s, cfg.storeCap);
    SaveNew(st, s, cfg.storeCap);
    LiveDropAppend(SessionsOf(st, s.user), Excess(|SessionsOf(st, s.user)| + 1, cfg.storeCap), s);
    forall other | other != s.user
      ensures SessionsOf(Save(st, s, cfg.storeCap), other) == SessionsOf(st, other)
    {
      SaveElsewhere(st, s, cfg.storeCap, other);
    }
  }

  class SessionService {
    const store: InMemorySessionStore
    const cfg: Config

    constructor (store: InMemorySessionStore, cfg: Config)
      ensures this.store == store && this.cfg == cfg
    {
      this.store, this.cfg := store, cfg;
    }

    /** _evict_to_make_room_locked: at the cap the oldest live session is revoked; with none to revoke it raises. */
    method EvictToMakeRoom(user: string) returns (raised: bool)
      requires Ready(cfg, store) && Live(SessionsOf(store.State(), user)) <= LiveCap(cfg)
      modifies store
      ensures Ready(cfg, store) && store.byId.Keys == old(store.byId.Keys) && store.byUser == old(store.byUser)
      ensures raised <==> cfg.maxConcurrent <= 0
      ensures raised ==> unchanged(store)
      ensures !raised ==> MakesRoom(cfg, old(SessionsOf(store.State(), user)), SessionsOf(store.State(), user))
                          && Live(SessionsOf(store.State(), user)) < cfg.maxConcurrent
      ensures forall other :: other != user ==> SessionsOf(store.State(), other) == old(SessionsOf(store.State(), other))
    {
      ghost var st := store.State();
      var listed := store.ListForUser(user);
      var active := Unrevoked(listed);
      if |active| < cfg.maxConcurrent {
        return false;
      }
      if active == [] {
        return true;
      }
      var oldest := Oldest(active);
      OldestFacts(active);
      UnrevokedFacts(listed);
      ListedIsStored(st, user, oldest);
      RevokeOk(cfg, st, oldest);
      SaveKeepsIndexed(st, Revoked(oldest), cfg.storeCap);
      ghost var i := OldestLiveAt(listed);
      SaveExisting(st, Revoked(oldest), cfg.storeCap, i);
      LiveUpdate(listed, i, Revoked(oldest));
      forall other | other != user
        ensures SessionsOf(Sessions.Save(st, Revoked(oldest), cfg.storeCap), other) == SessionsOf(st, other)
      {
        SaveElsewhere(st, Revoked(oldest), cfg.storeCap, other);
      }
      store.Save(Revoked(oldest));
      return false;
    }

    /** The user's list changes as IsCreation says, and no other user's does. */
    method Create(user: string, newId: nat, now: int) returns (r: Result<Session, Error>)
      requires Ready(cfg, store) && newId !in store.byId
      requires Live(SessionsOf(store.State(), user)) <= LiveCap(cfg)
      modifies store
      ensures Ready(cfg, store) && Live(SessionsOf(store.State(), user)) <= LiveCap(cfg)
      ensures r.Ok? <==> cfg.maxConcurrent > 0
      ensures r.Ok? ==> r.value == Session(newId, user, now, now, false) && Sessions.Get(store.State(), newId) == Some(r.value)
      ensures r.Ok? ==> IsCreation(cfg, old(SessionsOf(store.State(), user)), SessionsOf(store.State(), user), r.value)
      ensures forall other :: other != user ==> SessionsOf(store.State(), other) == old(SessionsOf(store.State(), other))
      ensures r.Err? ==> r.error == NobodyToEvict && unchanged(store)
    {
      var raised := EvictToMakeRoom(user);
      if raised {
        return Err(NobodyToEvict);
      }
      var s := Session(newId, user, now, now, false);
      ghost var st := store.State();
      SaveNewSession(cfg, st, s);
      store.Save(s);
      assert IsAppend(cfg, SessionsOf(st, user), SessionsOf(store.State(), user), s);
      return Ok(s);
    }

    /** Only a live session that neither timeout has caught is touched, and only its activity time moves. */
    method Touch(id: nat, now: int) returns (r: Result<Session, Error>)
      requires Ready(cfg, store)
      modifies store
      ensures Ready(cfg, store)
      ensures r.Ok? <==> id in old(store.byId) && !old(store.byId[id]).revoked
                         && now - old(store.byId[id]).lastActiveAt <= cfg.idleTimeout && now - old(store.byId[id]).createdAt <= cfg.absoluteTimeout
      ensures r.Ok? ==> r.value == old(store.byId)[id].(lastActiveAt := now) && store.byId == old(store.byId)[id := r.value]
      ensures store.byUser == old(store.byUser)
      ensures r.Err? ==> unchanged(store)
      ensures r == Err(NotFound) <==> id !in old(store.byId)
      ensures r == Err(WasRevoked) <==> id in old(store.byId) && old(store.byId[id]).revoked
    {
      var found := store.Get(id);
      if found.None? {
        return Err(NotFound);
      }
      var s := found.value;
      if s.revoked {
        return Err(WasRevoked);
      }
      if now - s.lastActiveAt > cfg.idleTimeout {
        return Err(HasExpired);
      }
      if now - s.createdAt > cfg.absoluteTimeout {
        return Err(HasExpired);
      }
      var updated := s.(lastActiveAt := now);
      SaveKeepsIndexed(store.State(), updated, cfg.storeCap);
      store.Save(updated);
      return Ok(updated);
    }

    method Revoke(id: nat)
      requires Ready(cfg, store)
      modifies store
      ensures Ready(cfg, store)
      ensures store.byUser == old(store.byUser)
      ensures store.byId.Keys == old(store.byId).Keys
      ensures id in store.byId ==> store.byId[id] == Revoked(old(store.byId)[id])
      ensures forall other :: other in store.byId && other != id ==> store.byId[other] == old(store.byId)[other]
    {
      var current := store.Get(id);
      if current.None? || current.value.revoked {
        return;
      }
      SaveKeepsIndexed(store.State(), Revoked(current.value), cfg.storeCap);
      store.Save(Revoked(current.value));
    }

    /** Every session of the user ends up revoked, no other user's changes, and the count is of those that were live. */
    method RevokeAllForUser(user: string) returns (count: nat)
      requires Ready(cfg, store)
      modifies store
      ensures Ready(cfg, store)
      ensures count == Live(old(SessionsOf(store.State(), user)))
      ensures store.byUser == old(store.byUser) && store.byId.Keys == old(store.byId).Keys
      ensures forall id :: id in store.byId ==>
                store.byId[id] == if old(store.byId)[id].user == user then Revoked(old(store.byId)[id]) else old(store.byId)[id]
    {
      hide Sessions.Save, SessionsOf, Indexed;
      var sessions := store.ListForUser(user);
      ghost var byId0 := store.byId;
      SessionsAre(store.State(), user);
      count := 0;
      for i := 0 to |sessions|
        invariant Ready(cfg, store) && store.byUser == old(store.byUser) && store.byId.Keys == byId0.Keys
        invariant count + Live(sessions[i..]) == Live(sessions)
        invariant forall id :: id in byId0 ==> store.byId[id] == RevokedUpTo(sessions[..i], byId0[id])
      {
        var s := sessions[i];
        assert sessions[i..][1..] == sessions[i + 1..];
        assert sessions[..i + 1] == sessions[..i] + [s];
        assert s.id in byId0 && byId0[s.id] == s;
        if !s.revoked {
          SaveKeepsIndexed(store.State(), Revoked(s), cfg.storeCap);
          SaveStored(store.State(), Revoked(s), cfg.storeCap);
          store.Save(Revoked(s));
          count := count + 1;
        }
      }
      assert sessions[..|sessions|] == sessions;
      forall id | id in byId0 && byId0[id].user == user
        ensures byId0[id] in sessions
      {
        var k := PlaceOf(old(store.State()), id);
      }
    }
  }

  /** A stored session once the loop has passed `done`. */
  ghost function RevokedUpTo(done: seq<Session>, s: Session): Session {
    if s in done then Revoked(s) else s
  }
}
