/**
 Which names hold a secret and since when (engine/core/secrets.py), over any calls:
 re-encryption and rotation change neither.
 */
module SecretRecords {
  import opened Wrappers
  import opened OrderedDict
  import opened Secrets

  /** The time of the first put of a name since its last delete, if there was one. */
  function CreatedAt(ops: seq<Op>, n: string): Option<real> {
    if ops == [] then None
    else
      var before := CreatedAt(ops[..|ops| - 1], n);
      match ops[|ops| - 1]
      case DoPut(name, value, now) => if name == n && value != "" && before.None? then Some(now) else before
      case DoDelete(name) => if name == n then None else before
      case _ => before
  }

  lemma DoDates(s: State, op: Op, n: string)
    requires Distinct(s.store) && n != ""
    ensures Distinct(Do(s, op).store)
    ensures var r, r' := Find(s.store, n), Find(Do(s, op).store, n);
            match op
            case DoPut(name, value, now) =>
              if name != n || value == "" then r' == r
              else r'.Some? && r'.value.updated == now && r'.value.created == if r.Some? then r.value.created else now
            case DoDelete(name) => r' == if name == n then None else r
            case DoReencrypt(_, _) => (r'.Some? <==> r.Some?) && (r.Some? ==> r'.value.created == r.value.created)
            case _ => r' == r
  {
    match op
    case DoPut(name, value, now) =>
      if name != "" && value != "" {
        var created := match Find(s.store, name) case Some(rec) => rec.created case None => now;
        AssignFacts(s.store, name, Record(Encrypt(s.master, value), created, now));
      }
    case DoDelete(name) => WithoutFacts(s.store, name);
    case DoReencrypt(writes, now) => ReencryptKeepsReads(s, writes, now, n);
    case _ =>
  }

  /** After any calls a name holds a secret exactly if it was put and not deleted since, and its record dates from the first such put. */
  lemma {:induction false} DatesFromFirstPut(m: MasterKey, ops: seq<Op>, n: string)
    requires n != ""
    ensures Distinct(Run(State(m, []), ops).store)
    ensures var r := Find(Run(State(m, []), ops).store, n);
            CreatedAt(ops, n) == if r.Some? then Some(r.value.created) else None
    decreases ops
  {
    if ops != [] {
      hide Do;
      DatesFromFirstPut(m, ops[..|ops| - 1], n);
      DoDates(Run(State(m, []), ops[..|ops| - 1]), ops[|ops| - 1], n);
    }
  }
}
