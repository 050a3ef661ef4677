/**
 Key rotation of engine/core/secrets.py. Encryption is symbolic: a ciphertext
 opens only under the key it was made with. Names are in canonical form.
 */
module Secrets {
  import opened Wrappers
  import opened OrderedDict

  type Key = nat
  datatype Cipher = Cipher(key: Key, plain: string)
  datatype MasterKey = MasterKey(current: Key, previous: Option<Key>)
  datatype Record = Record(cipher: Cipher, created: real, updated: real)
  type Store = seq<Entry<string, Record>>
  datatype SecretsError = EmptyValue | EmptyName | TokenInvalid | RotationPending | Aborted(failures: nat)

  /** MultiFernet: encrypts with the current key, decrypts with either. */
  function Encrypt(m: MasterKey, plain: string): Cipher { Cipher(m.current, plain) }

  function Decrypt(m: MasterKey, c: Cipher): Option<string> {
    if c.key == m.current || Some(c.key) == m.previous then Some(c.plain) else None
  }

  // ----- the operations on values

  datatype State = State(master: MasterKey, store: Store)

  function Get(s: State, name: string): Result<Option<string>, SecretsError> {
    if name == "" then Err(EmptyName)
    else
      match Find(s.store, name)
      case None => Ok(None)
      case Some(rec) =>
        match Decrypt(s.master, rec.cipher)
        case None => Err(TokenInvalid)
        case Some(plain) => Ok(Some(plain))
  }

  function Put(s: State, name: string, value: string, now: real): Result<State, SecretsError> {
    if value == "" then Err(EmptyValue)
    else if name == "" then Err(EmptyName)
    else
      var created := match Find(s.store, name) case Some(rec) => rec.created case None => now;
      Ok(s.(store := Assign(s.store, name, Record(Encrypt(s.master, value), created, now))))
  }

  function Delete(s: State, name: string): Result<State, SecretsError> {
    if name == "" then Err(EmptyName) else Ok(s.(store := Without(s.store, name)))
  }

  function Rotate(s: State, key: Key): Result<State, SecretsError> {
    if s.master.previous.Some? then Err(RotationPending)
    else Ok(s.(master := MasterKey(key, Some(s.master.current))))
  }

  function Drop(s: State): State { s.(master := MasterKey(s.master.current, None)) }

  datatype Opened = Opened(name: string, plain: string, created: real)

  /** Phase 1 over the records: how many fail, and the plaintexts of the others. */
  function Failures(m: MasterKey, d: Store): nat {
    if d == [] then 0 else (if Decrypt(m, d[0].value.cipher).None? then 1 else 0) + Failures(m, d[1..])
  }

  function OpenAll(m: MasterKey, d: Store): seq<Opened> {
    if d == [] then []
    else
      match Decrypt(m, d[0].value.cipher)
      case None => OpenAll(m, d[1..])
      case Some(plain) => [Opened(d[0].key, plain, d[0].value.created)] + OpenAll(m, d[1..])
  }

  /** Phase 2 after k writes. */
  function WriteBack(m: MasterKey, d: Store, os: seq<Opened>, k: nat, now: real): Store
    requires k <= |os|
  {
    if k == 0 then d
    else
      var o := os[k - 1];
      Assign(WriteBack(m, d, os, k - 1, now), o.name, Record(Encrypt(m, o.plain), o.created, now))
  }

  /** reencrypt_all that stops after `writes` writes, or not at all. */
  function Reencrypt(s: State, writes: Option<nat>, now: real): State {
    if Failures(s.master, s.store) > 0 then s
    else
      var os := OpenAll(s.master, s.store);
      var k := if writes.Some? && writes.value < |os| then writes.value else |os|;
      s.(store := WriteBack(s.master, s.store, os, k, now))
  }

  // ----- what a store must be

  /** Reading every name gives what is wanted: the last value put, or nothing. */
  ghost predicate Holds(s: State, wanted: map<string, string>) {
    && Distinct(s.store)
    && forall n :: n != "" ==> Get(s, n) == Ok(if n in wanted then Some(wanted[n]) else None)
  }

  /** No record needs the previous key. */
  ghost predicate Drained(s: State) {
    forall n :: Find(s.store, n).Some? ==> Find(s.store, n).value.cipher.key == s.master.current
  }

  /** No record is under an empty name. */
  ghost predicate Named(d: Store) { Find(d, "").None? }

  // ----- phase 1

  /** What is opened is what the records hold. */
  lemma {:induction false} OpenAllOpens(m: MasterKey, d: Store, o: Opened)
    requires Distinct(d) && o in OpenAll(m, d)
    ensures Opens(m, d, o)
  {
    if Decrypt(m, d[0].value.cipher).None? || o != OpenAll(m, d)[0] {
      OpenAllOpens(m, d[1..], o);
      FindInKeys(d[1..], o.name);
    }
  }

  /** Every readable record is opened. */
  lemma {:induction false} OpenAllFinds(m: MasterKey, d: Store, n: string) returns (i: nat)
    requires Find(d, n).Some? && Decrypt(m, Find(d, n).value.cipher).Some?
    ensures i < |OpenAll(m, d)| && OpenAll(m, d)[i].name == n
  {
    if n == d[0].key {
      i := 0;
    } else {
      i := OpenAllFinds(m, d[1..], n);
      if Decrypt(m, d[0].value.cipher).Some? {
        i := i + 1;
      }
    }
  }

  /** o is the plaintext of the record under its name. */
  ghost predicate Opens(m: MasterKey, d: Store, o: Opened) {
    && Find(d, o.name).Some?
    && Decrypt(m, Find(d, o.name).value.cipher) == Some(o.plain)
    && Find(d, o.name).value.created == o.created
  }

  ghost predicate Unreadable(m: MasterKey, d: Store, n: string) {
    Find(d, n).Some? && Decrypt(m, Find(d, n).value.cipher).None?
  }

  lemma {:induction false} NoFailuresIff(m: MasterKey, d: Store)
    requires Distinct(d)
    ensures Failures(m, d) == 0 <==> forall n :: !Unreadable(m, d, n)
  {
    if d != [] {
      NoFailuresIff(m, d[1..]);
      forall n
        ensures Unreadable(m, d, n) <==>
                (n == d[0].key && Decrypt(m, d[0].value.cipher).None?) || Unreadable(m, d[1..], n)
      {
        FindInKeys(d[1..], n);
      }
      if Decrypt(m, d[0].value.cipher).None? {
        assert Unreadable(m, d, d[0].key);
      } else if Failures(m, d[1..]) > 0 {
        var n :| Unreadable(m, d[1..], n);
        assert Unreadable(m, d, n);
      }
    }
  }

  // ----- phase 2

  /** After k writes every name still reads the same, and the first k are under the current key. */
  lemma {:induction false} WriteBackKeeps(m: MasterKey, d: Store, os: seq<Opened>, k: nat, now: real, n: string)
    requires k <= |os| && forall o :: o in os ==> Opens(m, d, o)
    ensures var r := Find(WriteBack(m, d, os, k, now), n);
            && (r.Some? <==> Find(d, n).Some?)
            && (r.Some? ==> Decrypt(m, r.value.cipher) == Decrypt(m, Find(d, n).value.cipher)
                            && r.value.created == Find(d, n).value.created)
    ensures (exists i :: 0 <= i < k && os[i].name == n) ==>
              Find(WriteBack(m, d, os, k, now), n).Some?
              && Find(WriteBack(m, d, os, k, now), n).value.cipher.key == m.current
  {
    if k > 0 {
      WriteBackKeeps(m, d, os, k - 1, now, n);
      var o := os[k - 1];
      AssignFacts(WriteBack(m, d, os, k - 1, now), o.name, Record(Encrypt(m, o.plain), o.created, now));
      assert Opens(m, d, o);
    }
  }

  lemma {:induction false} WriteBackDistinct(m: MasterKey, d: Store, os: seq<Opened>, k: nat, now: real)
    requires k <= |os| && Distinct(d)
    ensures Distinct(WriteBack(m, d, os, k, now))
  {
    if k > 0 {
      WriteBackDistinct(m, d, os, k - 1, now);
      var o := os[k - 1];
      AssignFacts(WriteBack(m, d, os, k - 1, now), o.name, Record(Encrypt(m, o.plain), o.created, now));
    }
  }

  /** Whatever write a re-encryption stops after, no name reads differently, and no creation time moves. */
  lemma ReencryptKeepsReads(s: State, writes: Option<nat>, now: real, n: string)
    requires Distinct(s.store)
    ensures Get(Reencrypt(s, writes, now), n) == Get(s, n)
    ensures var r, r' := Find(s.store, n), Find(Reencrypt(s, writes, now).store, n);
            (r'.Some? <==> r.Some?) && (r.Some? ==> r'.value.created == r.value.created)
    ensures Distinct(Reencrypt(s, writes, now).store)
  {
    if Failures(s.master, s.store) == 0 {
      var os := OpenAll(s.master, s.store);
      forall o | o in os
        ensures Opens(s.master, s.store, o)
      {
        OpenAllOpens(s.master, s.store, o);
      }
      var k := if writes.Some? && writes.value < |os| then writes.value else |os|;
      WriteBackKeeps(s.master, s.store, os, k, now, n);
      WriteBackDistinct(s.master, s.store, os, k, now);
    }
  }

  /** A record that neither key opens stops the whole call before its first write. */
  lemma AbortedIff(s: State, now: real)
    requires Distinct(s.store) && Named(s.store)
    ensures Failures(s.master, s.store) > 0 <==> exists n :: Get(s, n) == Err(TokenInvalid)
    ensures Failures(s.master, s.store) > 0 ==> Reencrypt(s, None, now) == s
  {
    NoFailuresIff(s.master, s.store);
    forall n
      ensures Unreadable(s.master, s.store, n) <==> Get(s, n) == Err(TokenInvalid)
    {}
  }

  /** A run to the end that did not abort leaves nothing under the previous key. */
  lemma ReencryptDrains(s: State, now: real)
    requires Distinct(s.store) && Failures(s.master, s.store) == 0
    ensures Drained(Reencrypt(s, None, now))
  {
    NoFailuresIff(s.master, s.store);
    var os := OpenAll(s.master, s.store);
    forall o | o in os
      ensures Opens(s.master, s.store, o)
    {
      OpenAllOpens(s.master, s.store, o);
    }
    forall n | Find(Reencrypt(s, None, now).store, n).Some?
      ensures Find(Reencrypt(s, None, now).store, n).value.cipher.key == s.master.current
    {
      WriteBackKeeps(s.master, s.store, os, |os|, now, n);
      assert !Unreadable(s.master, s.store, n);
      var i := OpenAllFinds(s.master, s.store, n);
    }
  }

  // ----- dropping the previous key

  /** Only the previous key opens the record under n. */
  ghost predicate NeedsPrevious(s: State, n: string) {
    && Find(s.store, n).Some?
    && Find(s.store, n).value.cipher.key != s.master.current
    && Some(Find(s.store, n).value.cipher.key) == s.master.previous
  }

  /** Forgetting the previous key changes no read exactly if no record needs it. */
  lemma DropSafeIff(s: State)
    requires Named(s.store)
    ensures (forall n :: Get(Drop(s), n) == Get(s, n)) <==> forall n :: !NeedsPrevious(s, n)
  {
    forall n
      ensures Get(Drop(s), n) == Get(s, n) <==> !NeedsPrevious(s, n)
    {}
  }

  // ----- whole runs

  datatype Op = DoPut(name: string, value: string, now: real) | DoDelete(name: string) | DoRotate(key: Key)
              | DoReencrypt(writes: Option<nat>, now: real) | DoDrop

  function Or(r: Result<State, SecretsError>, s: State): State { if r.Ok? then r.value else s }

  function Do(s: State, op: Op): State {
    match op
    case DoPut(name, value, now) => Or(Put(s, name, value, now), s)
    case DoDelete(name) => Or(Delete(s, name), s)
    case DoRotate(key) => Or(Rotate(s, key), s)
    case DoReencrypt(writes, now) => Reencrypt(s, writes, now)
    case DoDrop => Drop(s)
  }

  function Run(s: State, ops: seq<Op>): State {
    if ops == [] then s else Do(Run(s, ops[..|ops| - 1]), ops[|ops| - 1])
  }

  /** The value last put under each name and not deleted since. */
  function Wanted(ops: seq<Op>): map<string, string> {
    if ops == [] then map[]
    else
      var w, op := Wanted(ops[..|ops| - 1]), ops[|ops| - 1];
      match op
      case DoPut(name, value, _) => if name == "" || value == "" then w else w[name := value]
      case DoDelete(name) => if name == "" then w else w - {name}
      case _ => w
  }

  /** A re-encryption ran to its end, without abort, since the last rotation that took place. */
  function Migrated(s: State, ops: seq<Op>): bool {
    if ops == [] then s.master.previous.None?
    else
      var before, op := ops[..|ops| - 1], ops[|ops| - 1];
      match op
      case DoReencrypt(writes, _) =>
        var b := Run(s, before);
        Migrated(s, before) || (Failures(b.master, b.store) == 0
                                && (writes.None? || writes.value >= |OpenAll(b.master, b.store)|))
      case DoRotate(_) => Migrated(s, before) && Run(s, before).master.previous.Some?
      case DoDrop => true
      case _ => Migrated(s, before)
  }

  /** The operator's duty: the previous key is dropped only after such a re-encryption. */
  ghost predicate Careful(s: State, ops: seq<Op>) {
    ops == [] || (Careful(s, ops[..|ops| - 1]) && (ops[|ops| - 1].DoDrop? ==> Migrated(s, ops[..|ops| - 1])))
  }

  ghost predicate Inv(s: State, wanted: map<string, string>, migrated: bool) {
    Holds(s, wanted) && Named(s.store) && (migrated ==> Drained(s))
  }

  lemma PutKeeps(s: State, w: map<string, string>, g: bool, name: string, value: string, now: real)
    requires Inv(s, w, g) && name != "" && value != ""
    ensures Inv(Put(s, name, value, now).value, w[name := value], g)
  {
    var created := match Find(s.store, name) case Some(rec) => rec.created case None => now;
    AssignFacts(s.store, name, Record(Encrypt(s.master, value), created, now));
    var s' := Put(s, name, value, now).value;
    forall n | n != ""
      ensures Get(s', n) == Ok(if n in w[name := value] then Some(w[name := value][n]) else None)
    {
      assert Get(s, n) == Ok(if n in w then Some(w[n]) else None);
    }
  }

  lemma DeleteKeeps(s: State, w: map<string, string>, g: bool, name: string)
    requires Inv(s, w, g) && name != ""
    ensures Inv(Delete(s, name).value, w - {name}, g)
  {
    WithoutFacts(s.store, name);
    var s' := Delete(s, name).value;
    forall n | n != ""
      ensures Get(s', n) == Ok(if n in w - {name} then Some((w - {name})[n]) else None)
    {
      assert Get(s, n) == Ok(if n in w then Some(w[n]) else None);
    }
  }

  lemma RotateKeeps(s: State, w: map<string, string>, g: bool, key: Key)
    requires Inv(s, w, g) && Rotate(s, key).Ok?
    ensures Inv(Rotate(s, key).value, w, false)
  {
    forall n | n != ""
      ensures Get(Rotate(s, key).value, n) == Get(s, n)
    {
      assert Get(s, n).Ok?;
    }
  }

  lemma ReencryptKeeps(s: State, w: map<string, string>, g: bool, writes: Option<nat>, now: real)
    requires Inv(s, w, g)
    ensures Inv(Reencrypt(s, writes, now), w, g)
  {
    forall n
      ensures Get(Reencrypt(s, writes, now), n) == Get(s, n)
      ensures Find(Reencrypt(s, writes, now).store, n).Some? <==> Find(s.store, n).Some?
    {
      ReencryptKeepsReads(s, writes, now, n);
    }
    ReencryptKeepsReads(s, writes, now, "");
    if g {
      forall n | Find(Reencrypt(s, writes, now).store, n).Some?
        ensures Find(Reencrypt(s, writes, now).store, n).value.cipher.key == s.master.current
      {
        ReencryptStaysDrained(s, writes, now, n);
      }
    }
  }

  lemma ReencryptStaysDrained(s: State, writes: Option<nat>, now: real, n: string)
    requires Distinct(s.store) && Drained(s) && Find(Reencrypt(s, writes, now).store, n).Some?
    ensures Find(Reencrypt(s, writes, now).store, n).value.cipher.key == s.master.current
  {
    var os := OpenAll(s.master, s.store);
    if Failures(s.master, s.store) == 0 {
      WriteBackStaysDrained(s, os, if writes.Some? && writes.value < |os| then writes.value else |os|, now, n);
    }
  }

  lemma {:induction false} WriteBackStaysDrained(s: State, os: seq<Opened>, k: nat, now: real, n: string)
    requires k <= |os| && Drained(s) && Find(WriteBack(s.master, s.store, os, k, now), n).Some?
    ensures Find(WriteBack(s.master, s.store, os, k, now), n).value.cipher.key == s.master.current
  {
    if k > 0 {
      var o := os[k - 1];
      AssignFacts(WriteBack(s.master, s.store, os, k - 1, now), o.name, Record(Encrypt(s.master, o.plain), o.created, now));
      if o.name != n {
        WriteBackStaysDrained(s, os, k - 1, now, n);
      }
    }
  }

  lemma DropKeeps(s: State, w: map<string, string>)
    requires Inv(s, w, true)
    ensures Inv(Drop(s), w, true)
  {
    forall n | n != ""
      ensures Get(Drop(s), n) == Get(s, n)
    {}
  }

  /** A complete re-encryption makes the flag true, and earns it. */
  lemma CompleteReencrypt(s: State, w: map<string, string>, g: bool, writes: Option<nat>, now: real)
    requires Inv(s, w, g) && Failures(s.master, s.store) == 0
    requires writes.None? || writes.value >= |OpenAll(s.master, s.store)|
    ensures Inv(Reencrypt(s, writes, now), w, true)
  {
    ReencryptKeeps(s, w, g, writes, now);
    ReencryptDrains(s, now);
    assert Reencrypt(s, writes, now) == Reencrypt(s, None, now);
  }

  lemma {:induction false} RunKeepsInv(m: MasterKey, ops: seq<Op>)
    requires m.previous.None? && Careful(State(m, []), ops)
    ensures Inv(Run(State(m, []), ops), Wanted(ops), Migrated(State(m, []), ops))
  {
    if ops != [] {
      var s0, before, op := State(m, []), ops[..|ops| - 1], ops[|ops| - 1];
      RunKeepsInv(m, before);
      var s, w, g := Run(s0, before), Wanted(before), Migrated(s0, before);
      match op
      case DoPut(name, value, now) =>
        if name != "" && value != "" {
          PutKeeps(s, w, g, name, value, now);
        }
      case DoDelete(name) =>
        if name != "" {
          DeleteKeeps(s, w, g, name);
        }
      case DoRotate(key) =>
        if Rotate(s, key).Ok? {
          RotateKeeps(s, w, g, key);
        }
      case DoReencrypt(writes, now) =>
        ReencryptKeeps(s, w, g, writes, now);
        if Failures(s.master, s.store) == 0 && (writes.None? || writes.value >= |OpenAll(s.master, s.store)|) {
          CompleteReencrypt(s, w, g, writes, now);
        }
      case DoDrop =>
        DropKeeps(s, w);
    }
  }

  /**
   Over every run from an empty store in which the previous key is dropped only after a
   completed re-encryption, with re-encryptions cut short anywhere, each name reads the
   value last put under it, and re-encryption never aborts.
   */
  lemma EverySecretSurvives(m: MasterKey, ops: seq<Op>, n: string)
    requires m.previous.None? && Careful(State(m, []), ops) && n != ""
    ensures Get(Run(State(m, []), ops), n) == Ok(if n in Wanted(ops) then Some(Wanted(ops)[n]) else None)
    ensures Failures(Run(State(m, []), ops).master, Run(State(m, []), ops).store) == 0
  {
    RunKeepsInv(m, ops);
    var s := Run(State(m, []), ops);
    NoFailuresIff(s.master, s.store);
    forall x
      ensures !Unreadable(s.master, s.store, x)
    {
      assert x != "" ==> Get(s, x).Ok?;
    }
  }

  /** Without that care a secret is lost: rotate, then drop at once. */
  lemma CarelessDropLoses()
    ensures var s := Run(State(MasterKey(1, None), []), [DoPut("k", "v", 0.0), DoRotate(2), DoDrop]);
            Get(s, "k") == Err(TokenInvalid)
  {
    var s0 := State(MasterKey(1, None), []);
    var ops := [DoPut("k", "v", 0.0), DoRotate(2), DoDrop];
    assert ops[..2][..1] == [DoPut("k", "v", 0.0)] && ops[..2] == [DoPut("k", "v", 0.0), DoRotate(2)];
    assert [DoPut("k", "v", 0.0)][..0] == [];
    assert Run(s0, []) == s0;
    assert Run(s0, ops[..2][..1]).store == [Entry("k", Record(Cipher(1, "v"), 0.0, 0.0))];
  }

  // ----- the service

  class InMemorySecretStore {
    var records: Store

    constructor ()
      ensures records == []
    {
      records := [];
    }

    method PutRecord(name: string, rec: Record)
      modifies this
      ensures records == Assign(old(records), name, rec)
    {
      records := Assign(records, name, rec);
    }

    method GetRecord(name: string) returns (rec: Option<Record>)
      ensures rec == Find(records, name)
    {
      rec := Find(records, name);
    }

    method DeleteRecord(name: string)
      modifies this
      ensures records == Without(old(records), name)
    {
      records := Without(records, name);
    }
  }

  class SecretsService {
    const store: InMemorySecretStore
    var master: MasterKey

    constructor (store: InMemorySecretStore, master: MasterKey)
      ensures this.store == store && this.master == master
    {
      this.store, this.master := store, master;
    }

    function Value(): State
      reads this, store
    {
      State(master, store.records)
    }

    method PutSecret(name: string, value: string, now: real) returns (error: Option<SecretsError>)
      modifies store
      ensures Value() == Or(Put(old(Value()), name, value, now), old(Value()))
      ensures error == match Put(old(Value()), name, value, now) case Ok(_) => None case Err(e) => Some(e)
    {
      if value == "" {
        return Some(EmptyValue);
      }
      if name == "" {
        return Some(EmptyName);
      }
      var ct := Encrypt(master, value);
      var existing := store.GetRecord(name);
      var created := if existing.Some? then existing.value.created else now;
      store.PutRecord(name, Record(ct, created, now));
      error := None;
    }

    method GetSecret(name: string) returns (r: Result<Option<string>, SecretsError>)
      ensures r == Get(Value(), name)
    {
      if name == "" {
        return Err(EmptyName);
      }
      var rec := store.GetRecord(name);
      if rec.None? {
        return Ok(None);
      }
      var plain := Decrypt(master, rec.value.cipher);
      return if plain.None? then Err(TokenInvalid) else Ok(Some(plain.value));
    }

    method DeleteSecret(name: string) returns (error: Option<SecretsError>)
      modifies store
      ensures Value() == Or(Delete(old(Value()), name), old(Value()))
      ensures error == if name == "" then Some(EmptyName) else None
    {
      if name == "" {
        return Some(EmptyName);
      }
      store.DeleteRecord(name);
      error := None;
    }

    method RotateMasterKey(key: Key) returns (error: Option<SecretsError>)
      modifies this`master
      ensures Value() == Or(Rotate(old(Value()), key), old(Value()))
      ensures error == if old(master).previous.Some? then Some(RotationPending) else None
    {
      if master.previous.Some? {
        return Some(RotationPending);
      }
      master := MasterKey(key, Some(master.current));
      error := None;
    }

    method DropPreviousKey()
      modifies this`master
      ensures Value() == Drop(old(Value()))
    {
      master := MasterKey(master.current, None);
    }

    /** Phase 1: nothing is written. */
    method OpenRecords() returns (plaintexts: seq<Opened>, failures: nat)
      ensures plaintexts == OpenAll(master, store.records) && failures == Failures(master, store.records)
    {
      var records := store.records;
      plaintexts, failures := [], 0;
      for i := 0 to |records|
        invariant plaintexts + OpenAll(master, records[i..]) == OpenAll(master, records)
        invariant failures + Failures(master, records[i..]) == Failures(master, records)
      {
        var rec := records[i];
        assert records[i..][0] == rec && records[i..][1..] == records[i + 1..];
        var plain := Decrypt(master, rec.value.cipher);
        if plain.None? {
          failures := failures + 1;
        } else {
          plaintexts := plaintexts + [Opened(rec.key, plain.value, rec.value.created)];
        }
      }
      assert records[|records|..] == [];
    }

    /**
     `trail` holds the state after each write of phase 2, the one a crash there leaves.
     In every one of them each name reads as before the call.
     */
    method ReencryptAll(now: real) returns (r: Result<nat, SecretsError>, ghost trail: seq<State>)
      requires Distinct(store.records)
      modifies store
      ensures r == if Failures(master, old(store.records)) > 0 then Err(Aborted(Failures(master, old(store.records))))
                   else Ok(|OpenAll(master, old(store.records))|)
      ensures r.Err? ==> Value() == old(Value())
      ensures r.Ok? ==> Value() == Reencrypt(old(Value()), None, now) && Drained(Value())
      ensures r.Ok? ==> |trail| == r.value + 1
                        && forall k :: 0 <= k <= r.value ==> trail[k] == Reencrypt(old(Value()), Some(k), now)
      ensures r.Ok? ==> forall k, n :: 0 <= k <= r.value ==> Get(trail[k], n) == Get(old(Value()), n)
    {
      ghost var before := Value();
      var plaintexts, failures := OpenRecords();
      if failures > 0 {
        return Err(Aborted(failures)), [];
      }
      trail := [before];
      for k := 0 to |plaintexts|
        invariant store.records == WriteBack(before.master, before.store, plaintexts, k, now)
        invariant |trail| == k + 1 && forall j :: 0 <= j <= k ==> trail[j] == Reencrypt(before, Some(j), now)
      {
        var o := plaintexts[k];
        var ct := Encrypt(master, o.plain);
        store.PutRecord(o.name, Record(ct, o.created, now));
        trail := trail + [Value()];
      }
      ReencryptDrains(before, now);
      forall k, n | 0 <= k <= |plaintexts|
        ensures Get(trail[k], n) == Get(before, n)
      {
        ReencryptKeepsReads(before, Some(k), now, n);
      }
      r := Ok(|plaintexts|);
    }
  }
}
