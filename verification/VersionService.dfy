/**
 The in-memory registry and the version service as objects
 (engine/core/strategy_versioning.py), for calls that run uninterrupted.
 What interleaved calls do is the subject of the Versioning module.
 */
module VersionService {
  import opened Wrappers
  import opened IdIndex
  import opened Versioning
  import opened Rollback

  datatype Error = NotFound | IsRetired | IsActive

  class InMemoryStrategyRegistry {
    var byId: map<nat, Version>
    var byStrategy: map<string, seq<nat>>

    ghost function State(): Registry
      reads this
    {
      Registry(byId, byStrategy)
    }

    constructor ()
      ensures State() == Registry(map[], map[]) && Indexed(State())
    {
      byId, byStrategy := map[], map[];
    }

    method Get(id: nat) returns (v: Option<Version>)
      ensures v == Versioning.Get(State(), id)
    {
      return if id in byId then Some(byId[id]) else None;
    }

    method Save(v: Version)
      modifies this
      ensures State() == Versioning.Save(old(State()), v)
    {
      if v.id !in byId {
        byStrategy := byStrategy[v.strategy := (if v.strategy in byStrategy then byStrategy[v.strategy] else []) + [v.id]];
      }
      byId := byId[v.id := v];
    }

    method ListForStrategy(s: string) returns (vs: seq<Version>)
      ensures vs == Versions(State(), s)
    {
      var ids := if s in byStrategy then byStrategy[s] else [];
      vs := [];
      LookupEnds(byId, ids);
      hide Lookup;
      for i := 0 to |ids|
        invariant vs + Lookup(byId, ids[i..]) == Lookup(byId, ids)
      {
        LookupStep(byId, ids, i);
        if ids[i] in byId {
          vs := vs + [byId[ids[i]]];
        }
      }
    }

    method FindByHashes(s: string, codeHash: string, configHash: string) returns (v: Option<Version>)
      ensures v == Versioning.FindByHashes(Versions(State(), s), codeHash, configHash)
    {
      var vs := ListForStrategy(s);
      for i := 0 to |vs|
        invariant Versioning.FindByHashes(vs[i..], codeHash, configHash) == Versioning.FindByHashes(vs, codeHash, configHash)
      {
        assert vs[i..][1..] == vs[i + 1..];
        if vs[i].codeHash == codeHash && vs[i].configHash == configHash {
          return Some(vs[i]);
        }
      }
      return None;
    }
  }

  /** What activating `id` does to one record of its strategy. */
  function Activated(v: Version, id: nat, now: real): Version {
    if v.id == id then Promoted(v, now) else if v.status.ACTIVE? then Retired(v) else v
  }

  /** The list after the activation of `id`, element by element. */
  ghost predicate IsActivation(before: seq<Version>, after: seq<Version>, id: nat, now: real) {
    |after| == |before| && forall i :: 0 <= i < |before| ==> after[i] == Activated(before[i], id, now)
  }

  /** A sibling before or after the activation's loop has passed it. */
  function Demoted(v: Version, id: nat, passed: bool): Version {
    if passed && v.id != id && v.status.ACTIVE? then Retired(v) else v
  }

  /** No other strategy's list changes. */
  ghost predicate OnlyTouches(before: Registry, after: Registry, s: string) {
    forall other :: other != s ==> Versions(after, other) == Versions(before, other)
  }

  lemma SaveTouches(start: Registry, reg: Registry, v: Version)
    requires Indexed(reg) && (v.id in reg.byId ==> reg.byId[v.id].strategy == v.strategy)
    requires OnlyTouches(start, reg, v.strategy)
    ensures OnlyTouches(start, Versioning.Save(reg, v), v.strategy)
  {
    hide Versioning.Save, Versions;
    forall other | other != v.strategy
      ensures Versions(Versioning.Save(reg, v), other) == Versions(start, other)
    {
      SaveElsewhere(reg, v, other);
    }
  }

  class StrategyVersionService {
    const registry: InMemoryStrategyRegistry

    constructor (registry: InMemoryStrategyRegistry)
      ensures this.registry == registry
    {
      this.registry := registry;
    }

    /** Redeploying known hashes returns the stored version; otherwise the next number is appended as a draft. */
    method Deploy(s: string, codeHash: string, configHash: string, now: real, newId: nat) returns (v: Version)
      requires Indexed(registry.State()) && Safe(Versions(registry.State(), s)) && newId !in registry.byId
      modifies registry
      ensures Indexed(registry.State()) && Safe(Versions(registry.State(), s))
      ensures v.codeHash == codeHash && v.configHash == configHash
      ensures var before, after := old(Versions(registry.State(), s)), Versions(registry.State(), s);
              if exists i :: 0 <= i < |before| && before[i].codeHash == codeHash && before[i].configHash == configHash
              then v in before && after == before
              else v == Version(newId, s, |before| + 1, codeHash, configHash, DRAFT, now, None) && after == before + [v]
      ensures OnlyTouches(old(registry.State()), registry.State(), s)
    {
      ghost var reg := registry.State();
      ghost var vs := Versions(reg, s);
      var existing := registry.FindByHashes(s, codeHash, configHash);
      if existing.Some? {
        FindHits(vs, codeHash, configHash);
        return existing.value;
      }
      forall i | 0 <= i < |vs|
        ensures !(vs[i].codeHash == codeHash && vs[i].configHash == configHash)
      {
        FindMisses(vs, codeHash, configHash, i);
      }
      var siblings := registry.ListForStrategy(s);
      MaxNumberIsLength(siblings);
      v := Version(newId, s, MaxNumber(siblings) + 1, codeHash, configHash, DRAFT, now, None);
      DeploySaveSafe(reg, v);
      SaveTouches(reg, reg, v);
      SaveNew(reg, v);
      SaveKeepsIndexed(reg, v);
      registry.Save(v);
    }

    /** Exactly the activated version is active afterwards; nothing but statuses and its time changes. */
    method Activate(id: nat, now: real) returns (r: Result<Version, Error>)
      requires Indexed(registry.State())
      modifies registry
      ensures Indexed(registry.State())
      ensures r.Err? ==> unchanged(registry)
      ensures r == Err(NotFound) <==> id !in old(registry.byId)
      ensures r == Err(IsRetired) <==> id in old(registry.byId) && old(registry.byId[id]).status.RETIRED?
      ensures r.Ok? ==>
                var s := old(registry.byId)[id].strategy;
                && r.value == Promoted(old(registry.byId)[id], now)
                && IsActivation(old(Versions(registry.State(), s)), Versions(registry.State(), s), id, now)
                && OnlyTouches(old(registry.State()), registry.State(), s)
    {
      var found := registry.Get(id);
      if found.None? {
        return Err(NotFound);
      }
      var current := found.value;
      if current.status.RETIRED? {
        return Err(IsRetired);
      }
      var s := current.strategy;
      var siblings := registry.ListForStrategy(s);
      ghost var start := registry.State();
      assert siblings == Versions(start, s);
      VersionsUnique(registry.State(), s);
      VersionsAre(registry.State(), s);
      ghost var place := PlaceOf(registry.State(), id);
      for i := 0 to |siblings|
        invariant Indexed(registry.State()) && UniqueIds(siblings)
        invariant OnlyTouches(start, registry.State(), s)
        invariant |Versions(registry.State(), s)| == |siblings|
        invariant forall k :: 0 <= k < |siblings| ==> Versions(registry.State(), s)[k] == Demoted(siblings[k], id, k < i)
      {
        VersionsAre(registry.State(), s);
        if siblings[i].id != id && siblings[i].status.ACTIVE? {
          SaveAtPlace(registry.State(), Retired(siblings[i]), i);
          SaveTouches(start, registry.State(), Retired(siblings[i]));
          registry.Save(Retired(siblings[i]));
        }
      }
      var updated := Promoted(current, now);
      VersionsAre(registry.State(), s);
      SaveAtPlace(registry.State(), updated, place);
      SaveTouches(start, registry.State(), updated);
      registry.Save(updated);
      return Ok(updated);
    }

    /** The whole rollback, as the list function says. */
    method RollBack(s: string, now: real) returns (r: Result<Version, Error>)
      requires Indexed(registry.State())
      modifies registry
      ensures Indexed(registry.State())
      ensures var before := old(Versions(registry.State(), s));
              && (r.Ok? <==> RollbackOn(before, now).Some?)
              && (r.Ok? ==> Some(Versions(registry.State(), s)) == RollbackOn(before, now)
                            && LatestCandidate(before).Some? && r.value == Promoted(LatestCandidate(before).value, now))
              && (r.Err? ==> unchanged(registry) && r.error == NotFound)
      ensures OnlyTouches(old(registry.State()), registry.State(), s)
    {
      ghost var start := registry.State();
      var siblings := registry.ListForStrategy(s);
      RollbackSaves(registry.State(), s, now);
      FirstActiveFacts(siblings);
      LatestCandidateFacts(siblings);
      var active, previous := FirstActive(siblings), LatestCandidate(siblings);
      if previous.None? {
        return Err(NotFound);
      }
      ListedIsStored(registry.State(), s, previous.value);
      if active.Some? {
        ListedIsStored(registry.State(), s, active.value);
        SaveKeepsIndexed(registry.State(), Retired(active.value));
        SaveTouches(start, registry.State(), Retired(active.value));
        registry.Save(Retired(active.value));
      }
      var promoted := Promoted(previous.value, now);
      SaveKeepsIndexed(registry.State(), promoted);
      SaveTouches(start, registry.State(), promoted);
      registry.Save(promoted);
      return Ok(promoted);
    }

    /** Retiring the active version needs the caller's explicit consent. */
    method Retire(id: nat, allowActive: bool) returns (r: Result<Version, Error>)
      requires Indexed(registry.State())
      modifies registry
      ensures Indexed(registry.State())
      ensures r.Err? ==> unchanged(registry)
      ensures r == Err(NotFound) <==> id !in old(registry.byId)
      ensures r == Err(IsActive) <==> id in old(registry.byId) && old(registry.byId[id]).status.ACTIVE? && !allowActive
      ensures r.Ok? ==>
                var s := old(registry.byId)[id].strategy;
                && r.value == Retired(old(registry.byId)[id])
                && Versions(registry.State(), s) == Replace(old(Versions(registry.State(), s)), r.value)
                && OnlyTouches(old(registry.State()), registry.State(), s)
    {
      var found := registry.Get(id);
      if found.None? {
        return Err(NotFound);
      }
      if found.value.status.ACTIVE? && !allowActive {
        return Err(IsActive);
      }
      var updated := Retired(found.value);
      SaveIsReplace(registry.State(), updated);
      SaveTouches(registry.State(), registry.State(), updated);
      registry.Save(updated);
      return Ok(updated);
    }
  }

  lemma {:induction false} FindHits(vs: seq<Version>, codeHash: string, configHash: string)
    requires Versioning.FindByHashes(vs, codeHash, configHash).Some?
    ensures var v := Versioning.FindByHashes(vs, codeHash, configHash).value;
            v.codeHash == codeHash && v.configHash == configHash && exists i :: 0 <= i < |vs| && vs[i] == v
  {
    if !(vs[0].codeHash == codeHash && vs[0].configHash == configHash) {
      FindHits(vs[1..], codeHash, configHash);
      var i :| 0 <= i < |vs[1..]| && vs[1..][i] == Versioning.FindByHashes(vs, codeHash, configHash).value;
      assert vs[i + 1] == Versioning.FindByHashes(vs, codeHash, configHash).value;
    }
  }

  lemma SaveAtPlace(reg: Registry, v: Version, i: nat)
    requires Indexed(reg) && v.id in reg.byId && reg.byId[v.id].strategy == v.strategy
    requires i < |Versions(reg, v.strategy)| && Versions(reg, v.strategy)[i].id == v.id
    ensures Indexed(Versioning.Save(reg, v))
    ensures Versions(Versioning.Save(reg, v), v.strategy) == Versions(reg, v.strategy)[i := v]
  {
    SaveKeepsIndexed(reg, v);
    SaveExisting(reg, v, i);
  }
}
