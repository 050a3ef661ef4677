/**
 Calls that overlap a re-encryption (engine/core/secrets.py): it writes every
 secret of its snapshot back, and whatever reaches the store in between may be
 overwritten.
 */
module SecretRaces {
  import opened Wrappers
  import opened OrderedDict
  import opened Secrets

  /** What reaches the store once the snapshot is taken: a put, a delete, or the next write-back. */
  datatype Event = UserPut(name: string, value: string, now: real) | UserDelete(name: string) | WriteNext

  /** How many write-backs have been made. */
  function Written(es: seq<Event>): nat {
    if es == [] then 0 else Written(es[..|es| - 1]) + (if es[|es| - 1].WriteNext? then 1 else 0)
  }

  /** One write-back, under the key of the re-encryption. */
  function WriteOne(s: State, o: Opened, now: real): State {
    s.(store := Assign(s.store, o.name, Record(Encrypt(s.master, o.plain), o.created, now)))
  }

  /** The state after the events; `os` is the snapshot and `now` the time of the re-encryption. */
  function Mix(s: State, os: seq<Opened>, now: real, es: seq<Event>): State {
    if es == [] then s
    else
      var init := es[..|es| - 1];
      var before := Mix(s, os, now, init);
      match es[|es| - 1]
      case UserPut(name, value, t) => Or(Put(before, name, value, t), before)
      case UserDelete(name) => Or(Delete(before, name), before)
      case WriteNext => if Written(init) < |os| then WriteOne(before, os[Written(init)], now) else before
  }

  /** Undisturbed write-backs are the re-encryption cut short after as many writes. */
  lemma {:induction false} UndisturbedIsReencrypt(s: State, now: real, es: seq<Event>)
    requires Failures(s.master, s.store) == 0 && forall i :: 0 <= i < |es| ==> es[i].WriteNext?
    requires |es| <= |OpenAll(s.master, s.store)|
    ensures Written(es) == |es| && Mix(s, OpenAll(s.master, s.store), now, es) == Reencrypt(s, Some(|es|), now)
  {
    if es != [] {
      UndisturbedIsReencrypt(s, now, es[..|es| - 1]);
    }
  }

  // ----- the last call of a name

  /** The call takes effect on the secret n. */
  predicate Affects(e: Event, n: string) {
    match e
    case UserPut(name, value, _) => name == n && value != ""
    case UserDelete(name) => name == n
    case WriteNext => false
  }

  /** The place of the last call that affects n. */
  function LastCall(es: seq<Event>, n: string): (i: Option<nat>)
    ensures i.Some? ==> i.value < |es| && Affects(es[i.value], n)
  {
    if es == [] then None
    else if Affects(es[|es| - 1], n) then Some(|es| - 1)
    else LastCall(es[..|es| - 1], n)
  }

  /** What that call asks a later get to return. */
  function Asked(e: Event): Option<string> {
    if e.UserPut? then Some(e.value) else None
  }

  /** The place of n in the snapshot. */
  function Place(os: seq<Opened>, n: string): (k: Option<nat>)
    ensures k.Some? ==> k.value < |os| && os[k.value].name == n
    ensures k.None? ==> forall j :: 0 <= j < |os| ==> os[j].name != n
  {
    if os == [] then None
    else if os[0].name == n then Some(0)
    else match Place(os[1..], n) case Some(k) => Some(k + 1) case None => None
  }

  /** The event at place i comes between the snapshot and the write-back of n, which is made. */
  predicate BeforeWriteBack(os: seq<Opened>, es: seq<Event>, i: nat, n: string)
    requires i < |es|
  {
    var k := Place(os, n);
    k.Some? && Written(es[..i]) <= k.value < Written(es)
  }

  /** What get returns in the end. */
  ghost function Outcome(s: State, os: seq<Opened>, es: seq<Event>, n: string): Option<string>
    requires Get(s, n).Ok?
  {
    var i := LastCall(es, n);
    if i.None? then Get(s, n).value
    else if BeforeWriteBack(os, es, i.value, n) then Some(os[Place(os, n).value].plain)
    else Asked(es[i.value])
  }

  // ----- one event

  /** The names of a snapshot differ, and it holds what get returns. */
  ghost predicate IsSnapshot(s: State, os: seq<Opened>) {
    && Distinct(s.store)
    && (forall j, k :: 0 <= j < k < |os| ==> os[j].name != os[k].name)
    && (forall k :: 0 <= k < |os| && os[k].name != "" ==> Get(s, os[k].name) == Ok(Some(os[k].plain)))
  }

  lemma {:induction false} OpenedNamesDiffer(m: MasterKey, d: Store, j: nat, k: nat)
    requires Distinct(d) && j < k < |OpenAll(m, d)|
    ensures OpenAll(m, d)[j].name != OpenAll(m, d)[k].name
  {
    if Decrypt(m, d[0].value.cipher).None? {
      OpenedNamesDiffer(m, d[1..], j, k);
    } else if j > 0 {
      OpenedNamesDiffer(m, d[1..], j - 1, k - 1);
    } else {
      OpenAllOpens(m, d[1..], OpenAll(m, d[1..])[k - 1]);
      FindInKeys(d[1..], OpenAll(m, d)[k].name);
    }
  }

  /** What a re-encryption reads first is such a snapshot. */
  lemma OpenAllIsSnapshot(s: State)
    requires Distinct(s.store)
    ensures IsSnapshot(s, OpenAll(s.master, s.store))
  {
    var os := OpenAll(s.master, s.store);
    forall j, k | 0 <= j < k < |os|
      ensures os[j].name != os[k].name
    {
      OpenedNamesDiffer(s.master, s.store, j, k);
    }
    forall k | 0 <= k < |os| && os[k].name != ""
      ensures Get(s, os[k].name) == Ok(Some(os[k].plain))
    {
      OpenAllOpens(s.master, s.store, os[k]);
    }
  }

  lemma WriteOneReads(s: State, o: Opened, now: real, n: string)
    requires n != ""
    ensures Get(WriteOne(s, o, now), n) == if o.name == n then Ok(Some(o.plain)) else Get(s, n)
  {
    AssignFacts(s.store, o.name, Record(Encrypt(s.master, o.plain), o.created, now));
  }

  lemma PutReads(s: State, name: string, value: string, t: real, n: string)
    requires n != ""
    ensures Get(Or(Put(s, name, value, t), s), n) == if name == n && value != "" then Ok(Some(value)) else Get(s, n)
    ensures Or(Put(s, name, value, t), s).master == s.master
  {
    if value != "" && name != "" {
      var created := match Find(s.store, name) case Some(rec) => rec.created case None => t;
      AssignFacts(s.store, name, Record(Encrypt(s.master, value), created, t));
    }
  }

  lemma DeleteReads(s: State, name: string, n: string)
    requires n != ""
    ensures Get(Or(Delete(s, name), s), n) == if name == n then Ok(None) else Get(s, n)
    ensures Or(Delete(s, name), s).master == s.master
  {
    WithoutFacts(s.store, name);
  }

  lemma {:induction false} PlaceIs(os: seq<Opened>, k: nat)
    requires k < |os| && forall i, j :: 0 <= i < j < |os| ==> os[i].name != os[j].name
    ensures Place(os, os[k].name) == Some(k)
  {
    if k > 0 {
      assert os[0].name != os[k].name;
      PlaceIs(os[1..], k - 1);
    }
  }

  lemma {:induction false} WrittenGrows(es: seq<Event>, i: nat)
    requires i <= |es|
    ensures Written(es[..i]) <= Written(es)
  {
    if i < |es| {
      WrittenGrows(es[..|es| - 1], i);
      assert es[..|es| - 1][..i] == es[..i];
    } else {
      assert es[..i] == es;
    }
  }

  // ----- the result

  /** What every get returns after any calls during a re-encryption. */
  lemma {:induction false} MixOutcome(s: State, os: seq<Opened>, now: real, es: seq<Event>, n: string)
    requires IsSnapshot(s, os) && n != "" && Get(s, n).Ok?
    ensures Get(Mix(s, os, now, es), n) == Ok(Outcome(s, os, es, n))
  {
    if es != [] {
      var init := es[..|es| - 1];
      MixOutcome(s, os, now, init, n);
      MixStep(s, os, now, es, n);
    }
  }

  /** The outcome after one more event, from the outcome before it. */
  lemma OutcomeStep(s: State, os: seq<Opened>, init: seq<Event>, e: Event, n: string)
    requires IsSnapshot(s, os) && n != "" && Get(s, n).Ok?
    ensures Outcome(s, os, init + [e], n)
            == if Affects(e, n) then Asked(e)
               else if e.WriteNext? && Written(init) < |os| && os[Written(init)].name == n then Some(os[Written(init)].plain)
               else Outcome(s, os, init, n)
  {
    hide Get;
    var es := init + [e];
    assert es[..|init|] == init && es[|init|] == e;
    if LastCall(init, n).Some? {
      var i := LastCall(init, n).value;
      assert init[..i] == es[..i];
      WrittenGrows(init, i);
    }
    if e.WriteNext? && Written(init) < |os| {
      PlaceIs(os, Written(init));
    }
  }

  lemma MixStep(s: State, os: seq<Opened>, now: real, es: seq<Event>, n: string)
    requires IsSnapshot(s, os) && n != "" && Get(s, n).Ok? && es != []
    requires Get(Mix(s, os, now, es[..|es| - 1]), n) == Ok(Outcome(s, os, es[..|es| - 1], n))
    ensures Get(Mix(s, os, now, es), n) == Ok(Outcome(s, os, es, n))
  {
    hide Get, Put, Delete, WriteOne, Outcome, IsSnapshot, Written;
    var init, e := es[..|es| - 1], es[|es| - 1];
    var before := Mix(s, os, now, init);
    assert es == init + [e];
    OutcomeStep(s, os, init, e, n);
    match e
    case UserPut(name, value, t) => PutReads(before, name, value, t, n);
    case UserDelete(name) => DeleteReads(before, name, n);
    case WriteNext =>
      if Written(init) < |os| {
        WriteOneReads(before, os[Written(init)], now, n);
      }
  }

  /**
   The last put or delete of a name during a re-encryption survives exactly if it does not come between
   the snapshot and the write-back of that name, or asks for what the snapshot holds.
   */
  lemma LastCallSurvivesIff(s: State, now: real, es: seq<Event>, n: string)
    requires Distinct(s.store) && Get(s, n).Ok? && n != "" && LastCall(es, n).Some?
    ensures var os, i := OpenAll(s.master, s.store), LastCall(es, n).value;
            Get(Mix(s, os, now, es), n) == Ok(Asked(es[i])) <==>
            !BeforeWriteBack(os, es, i, n) || Get(s, n).value == Asked(es[i])
  {
    var os := OpenAll(s.master, s.store);
    OpenAllIsSnapshot(s);
    MixOutcome(s, os, now, es, n);
  }

  /** A secret that no call touches reads as before, whatever else overlaps. */
  lemma UntouchedSurvives(s: State, now: real, es: seq<Event>, n: string)
    requires Distinct(s.store) && Get(s, n).Ok? && n != "" && LastCall(es, n).None?
    ensures Get(Mix(s, OpenAll(s.master, s.store), now, es), n) == Get(s, n)
  {
    OpenAllIsSnapshot(s);
    MixOutcome(s, OpenAll(s.master, s.store), now, es, n);
  }

  function WriteBacks(n: nat): seq<Event> { seq(n, _ => WriteNext) }

  lemma {:induction false} AfterFirst(e: Event, n: nat, name: string)
    requires !e.WriteNext? && Affects(e, name)
    ensures Written([e] + WriteBacks(n)) == n && LastCall([e] + WriteBacks(n), name) == Some(0)
  {
    var es := [e] + WriteBacks(n);
    if n > 0 {
      AfterFirst(e, n - 1, name);
      assert es[..|es| - 1] == [e] + WriteBacks(n - 1);
    } else {
      assert es == [e] && [e][..0] == [];
    }
  }

  /** From any state a put or delete right after the snapshot is lost if it asks for something else than is stored. */
  lemma CallIsLost(s: State, now: real, n: string, e: Event)
    requires Distinct(s.store) && n != "" && Get(s, n).Ok? && Get(s, n).value.Some? && Affects(e, n)
    requires Asked(e) != Get(s, n).value
    ensures var os := OpenAll(s.master, s.store);
            Get(Mix(s, os, now, [e] + WriteBacks(|os|)), n) == Get(s, n)
  {
    var os := OpenAll(s.master, s.store);
    var es := [e] + WriteBacks(|os|);
    OpenAllIsSnapshot(s);
    AfterFirst(e, |os|, n);
    var k := OpenAllFinds(s.master, s.store, n);
    assert Place(os, n).Some?;
    assert Written(es[..0]) == 0;
    MixOutcome(s, os, now, es, n);
  }

  /** A run that loses a put, and one that undoes a delete. */
  lemma PutAndDeleteAreLost(now: real)
    ensures var s := Run(State(MasterKey(1, None), []), [DoPut("k", "old", 0.0)]);
            var os := OpenAll(s.master, s.store);
            && Get(Mix(s, os, now, [UserPut("k", "new", now)] + WriteBacks(|os|)), "k") == Ok(Some("old"))
            && Get(Mix(s, os, now, [UserDelete("k")] + WriteBacks(|os|)), "k") == Ok(Some("old"))
  {
    var ops := [DoPut("k", "old", 0.0)];
    assert ops[..0] == [];
    EverySecretSurvives(MasterKey(1, None), ops, "k");
    RunKeepsInv(MasterKey(1, None), ops);
    var s := Run(State(MasterKey(1, None), []), ops);
    CallIsLost(s, now, "k", UserPut("k", "new", now));
    CallIsLost(s, now, "k", UserDelete("k"));
  }
}
