/**
 The control plane's three registry operations on the Redis hash and on the
 worker rows that mirror it, one at a time; each writes the database last, and
 a database error leaves Redis changed.
 */
module Registry {
  import opened Common
  import H = WorkerHash

  type Entries = map<string, H.Worker>

  datatype Store = Store(hash: Entries, rows: Entries)

  datatype Op =
    | Register(w: H.Worker, dbOk: bool)
    | Deregister(id: string, dbOk: bool)
    | MarkUnhealthy(id: string, dbOk: bool)

  /** A database call that raised. */
  datatype Raised = Raised

  type Unit = Result<bool, Raised>

  function Outcome(dbOk: bool): Unit { if dbOk then Ok(true) else Err(Raised) }

  function Relabelled(hash: Entries, id: string): Entries {
    if id in hash then hash[id := hash[id].(status := H.UNHEALTHY)] else hash
  }

  /** The row that a marking mirrors has neither host nor port. */
  function Step(s: Store, op: Op): Store {
    match op
    case Register(w, dbOk) => Store(s.hash[w.id := w], if dbOk then s.rows[w.id := w] else s.rows)
    case Deregister(id, dbOk) => Store(s.hash - {id}, if dbOk then s.rows - {id} else s.rows)
    case MarkUnhealthy(id, dbOk) =>
      Store(Relabelled(s.hash, id), if dbOk then s.rows[id := H.Worker(id, "", 0, H.UNHEALTHY)] else s.rows)
  }

  function Run(ops: seq<Op>): Store {
    if ops == [] then Store(map[], map[]) else Step(Run(ops[..|ops| - 1]), ops[|ops| - 1])
  }

  class Registry {
    var hash: Entries
    var rows: Entries

    function View(): Store reads this { Store(hash, rows) }

    constructor ()
      ensures View() == Run([])
    {
      hash, rows := map[], map[];
    }

    method Register(w: H.Worker, dbOk: bool) returns (r: Unit)
      modifies this
      ensures View() == Step(old(View()), Op.Register(w, dbOk)) && r == Outcome(dbOk)
      ensures hash == old(hash)[w.id := w] && rows == (if dbOk then old(rows)[w.id := w] else old(rows)) && (r.Ok? <==> dbOk)
    {
      hash := hash[w.id := w];
      if !dbOk { return Err(Raised); }
      rows := rows[w.id := w];
      r := Ok(true);
    }

    method Deregister(id: string, dbOk: bool) returns (r: Unit)
      modifies this
      ensures View() == Step(old(View()), Op.Deregister(id, dbOk)) && r == Outcome(dbOk)
      ensures hash == old(hash) - {id} && rows == (if dbOk then old(rows) - {id} else old(rows)) && (r.Ok? <==> dbOk)
    {
      hash := hash - {id};
      if !dbOk { return Err(Raised); }
      rows := rows - {id};
      r := Ok(true);
    }

    method MarkUnhealthy(id: string, dbOk: bool) returns (r: Unit)
      modifies this
      ensures View() == Step(old(View()), Op.MarkUnhealthy(id, dbOk)) && r == Outcome(dbOk)
      ensures hash == if id in old(hash) then old(hash)[id := old(hash)[id].(status := "unhealthy")] else old(hash)
      ensures rows == if dbOk then old(rows)[id := H.Worker(id, "", 0, "unhealthy")] else old(rows)
      ensures r.Ok? <==> dbOk
    {
      if id in hash {
        hash := hash[id := hash[id].(status := H.UNHEALTHY)];
      }
      if !dbOk { return Err(Raised); }
      rows := rows[id := H.Worker(id, "", 0, H.UNHEALTHY)];
      r := Ok(true);
    }
  }

  // ---- What entries and rows say ---------------------------------------------------------

  function Subject(op: Op): string { if op.Register? then op.w.id else op.id }

  /** A row is what the last operation about the worker whose database write succeeded made of it. */
  lemma {:induction false} RowIsLastWrite(ops: seq<Op>, id: string) returns (i: nat)
    requires id in Run(ops).rows
    ensures i < |ops| && Subject(ops[i]) == id && ops[i].dbOk && !ops[i].Deregister?
    ensures forall j :: i < j < |ops| ==> Subject(ops[j]) != id || !ops[j].dbOk
    ensures Run(ops).rows[id] == if ops[i].Register? then ops[i].w else H.Worker(id, "", 0, "unhealthy")
  {
    var before, last := ops[..|ops| - 1], ops[|ops| - 1];
    if Subject(last) == id && last.dbOk {
      i := |ops| - 1;
    } else {
      i := RowIsLastWrite(before, id);
      assert before[i] == ops[i];
    }
  }

  /**
   An entry is that of the last registration, which no deregistration followed; it
   is unhealthy if the worker was marked since, and otherwise as it was registered.
   */
  lemma {:induction false} EntryIsLastRegistration(ops: seq<Op>, id: string) returns (i: nat)
    requires id in Run(ops).hash
    ensures i < |ops| && ops[i].Register? && ops[i].w.id == id
    ensures forall j :: i < j < |ops| ==> Subject(ops[j]) != id || ops[j].MarkUnhealthy?
    ensures Run(ops).hash[id]
         == if exists j :: i < j < |ops| && Subject(ops[j]) == id then ops[i].w.(status := "unhealthy") else ops[i].w
  {
    var before, last := ops[..|ops| - 1], ops[|ops| - 1];
    if last.Register? && last.w.id == id {
      i := |ops| - 1;
    } else {
      i := EntryIsLastRegistration(before, id);
      assert before[i] == ops[i];
      assert forall j :: i < j < |before| ==> before[j] == ops[j];
      if Subject(last) == id {
        assert i < |ops| - 1 && ops[|ops| - 1] == last;
      } else {
        assert (exists j :: i < j < |ops| && Subject(ops[j]) == id) <==> (exists j :: i < j < |before| && Subject(before[j]) == id);
      }
    }
  }

  // ---- The hash half is the state machine's ------------------------------------------

  /** What an operation does to the hash when nothing interleaves with its commands. */
  function Commands(op: Op, task: nat): seq<H.Action> {
    match op
    case Register(w, _) => [H.Register(w)]
    case Deregister(id, _) => [H.Delete(id)]
    case MarkUnhealthy(_, _) => [H.Get(task), H.Set(task)]
  }

  /** The task that a marking runs as. */
  function Started(s: H.System, op: Op, task: nat): H.System {
    if op.MarkUnhealthy? then s.(tasks := s.tasks[task := H.Removal(H.Pending(op.id, H.UNHEALTHY))]) else s
  }

  lemma HashRefines(s: H.System, rows: Entries, op: Op, task: nat)
    ensures H.Exec(Started(s, op, task), Commands(op, task)).hash == Step(Store(s.hash, rows), op).hash
  {
    var s0, cs := Started(s, op, task), Commands(op, task);
    var s1 := H.Next(s0, cs[0]);
    assert H.Exec(s0, cs) == H.Exec(s1, cs[1..]);
    if op.MarkUnhealthy? {
      assert cs[1..] == [cs[1]] && [cs[1]][1..] == [];
      assert H.Exec(s1, [cs[1]]) == H.Exec(H.Next(s1, cs[1]), []);
    } else {
      assert cs[1..] == [];
    }
  }

  // ---- When the rows mirror the hash ---------------------------------------------------

  predicate InSync(s: Store) { s.rows.Keys == s.hash.Keys }

  /**
   What a caller can tell beforehand: a database error does no harm only where
   the set of workers stays the same, and marking wants the worker to be there.
   */
  predicate Harmless(s: Store, op: Op) {
    match op
    case Register(w, dbOk) => dbOk || w.id in s.hash
    case Deregister(id, dbOk) => dbOk || id !in s.hash
    case MarkUnhealthy(id, dbOk) => !dbOk || id in s.hash
  }

  lemma StepInSyncIff(s: Store, op: Op)
    requires InSync(s)
    ensures InSync(Step(s, op)) <==> Harmless(s, op)
  {
    var s' := Step(s, op);
    match op
    case Register(w, dbOk) =>
      assert s'.hash.Keys == s.hash.Keys + {w.id};
      assert s'.rows.Keys == if dbOk then s.rows.Keys + {w.id} else s.rows.Keys;
      if !Harmless(s, op) { assert w.id in s'.hash.Keys && w.id !in s'.rows.Keys; }
    case Deregister(id, dbOk) =>
      assert s'.hash.Keys == s.hash.Keys - {id};
      assert s'.rows.Keys == if dbOk then s.rows.Keys - {id} else s.rows.Keys;
      if !Harmless(s, op) { assert id !in s'.hash.Keys && id in s'.rows.Keys; }
    case MarkUnhealthy(id, dbOk) =>
      assert s'.hash.Keys == s.hash.Keys;
      assert s'.rows.Keys == if dbOk then s.rows.Keys + {id} else s.rows.Keys;
      if !Harmless(s, op) { assert id !in s'.hash.Keys && id in s'.rows.Keys; }
  }

  /** After every operation of the run, and before the first. */
  predicate AlwaysInSync(ops: seq<Op>) {
    InSync(Run(ops)) && (ops == [] || AlwaysInSync(ops[..|ops| - 1]))
  }

  predicate AllHarmless(ops: seq<Op>) {
    ops == [] || (Harmless(Run(ops[..|ops| - 1]), ops[|ops| - 1]) && AllHarmless(ops[..|ops| - 1]))
  }

  /**
   The dashboard's rows name exactly the workers in the hash throughout a run iff
   no registration or deletion that changed the hash lost its database write, and
   no absent worker was marked.
   */
  lemma {:induction false} RowsMirrorIff(ops: seq<Op>)
    ensures AlwaysInSync(ops) <==> AllHarmless(ops)
  {
    if ops != [] {
      var before := ops[..|ops| - 1];
      RowsMirrorIff(before);
      if InSync(Run(before)) { StepInSyncIff(Run(before), ops[|ops| - 1]); }
    }
  }
}
