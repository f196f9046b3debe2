/**
 The shared Redis hash of workers as a state machine, together with the health
 checker and its table of failed checks. Gateway tasks, the checker and draining
 workers change an entry by an HGET and a later HSET, so anything may happen
 between the two; registrations and deletions are single commands. An action
 that is not enabled leaves the state alone.
 */
module WorkerHash {

  const HEALTHY := "healthy"
  const UNHEALTHY := "unhealthy"
  const DRAINING := "draining"
  const DRAIN_SECONDS := 8.0
  const MAX_FAILURES := 3

  datatype Worker = Worker(id: string, host: string, port: int, status: string)

  /** A split write: the HGET is outstanding, or its copy, already changed, waits for the HSET. */
  datatype Errand = Pending(worker: string, status: string) | Held(worker: string, copy: Worker)

  datatype Task =
    | Request(todo: seq<string>, since: real)                    // gateway: candidates left to try
    | Sending(worker: string, todo: seq<string>, since: real)    // gateway: waiting for the worker
    | Marking(errand: Errand, todo: seq<string>, since: real)    // gateway: marking a failed worker
    | Shutdown(errand: Errand)                                   // a worker marks itself as draining
    | Window(worker: string, since: real)                        // ... and waits before deregistering
    | Pinging(worker: string)                                    // health checker: listed, GET /health sent
    | Removal(errand: Errand)                                    // ... third failure: marking it
    | Mirroring(worker: string)                                  // ... marked, row update to follow
    | Removing(worker: string)                                   // ... row updated, HDEL to follow
    | Clearing(worker: string)                                   // ... entry gone, row deletion to follow

  type Table = map<string, nat>

  function CountOf(t: Table, id: string): nat { if id in t then t[id] else 0 }

  /** `counts` is the health checker's table of failed checks. */
  datatype System = System(clock: real, hash: map<string, Worker>, tasks: map<nat, Task>, counts: Table)

  datatype Action =
    | Tick(delta: real)
    | Register(w: Worker)
    | Delete(worker: string)                 // DELETE /api/workers/{id}
    | Snapshot(task: nat, order: seq<string>)
    | Send(task: nat)
    | Reply(task: nat, ok: bool)
    | Get(task: nat)
    | Set(task: nat)
    | Fault(task: nat)                       // a Redis, database or HTTP error ends the step
    | BeginShutdown(task: nat, worker: string)
    | Finish(task: nat)                      // the drain window is over and the deregistration gets through
    | Check(task: nat, worker: string)       // a round lists the worker and pings it
    | Pong(task: nat, ok: bool)              // 200 or anything else
    | Mirror(task: nat)
    | Expunge(task: nat)
    | Clear(task: nat)

  predicate Routable(s: System, w: string) { w in s.hash && s.hash[w].status == HEALTHY }

  predicate Distinct(xs: seq<string>) {
    forall i, j :: 0 <= i < j < |xs| ==> xs[i] != xs[j]
  }

  predicate Waits(t: Task) { (t.Marking? || t.Shutdown? || t.Removal?) && t.errand.Pending? }

  predicate Holds(t: Task) { (t.Marking? || t.Shutdown? || t.Removal?) && t.errand.Held? }

  /** The health checker is at work on the worker. */
  predicate Checks(t: Task, w: string) { (t.Pinging? && t.worker == w) || Expels(t, w) || (t.Clearing? && t.worker == w) }

  /** ... and has begun to remove it. */
  predicate Expels(t: Task, w: string) {
    (t.Removal? && t.errand.worker == w) || ((t.Mirroring? || t.Removing?) && t.worker == w)
  }

  /** What follows the split write, or a failure of it. */
  function After(s: System, id: nat, t: Task, failed: bool): System
    requires t.Marking? || t.Shutdown? || t.Removal?
  {
    match t
    case Marking(_, todo, since) => s.(tasks := s.tasks[id := Request(todo, since)])
    case Shutdown(e) => s.(tasks := s.tasks[id := Window(e.worker, s.clock)])
    case Removal(e) =>
      if failed then s.(tasks := s.tasks - {id}) else s.(tasks := s.tasks[id := Mirroring(e.worker)])
  }

  predicate Enabled(s: System, a: Action) {
    match a
    case Tick(d) => d >= 0.0
    case Register(_) => true
    case Delete(_) => true
    case Snapshot(id, order) =>
      id !in s.tasks && Distinct(order) && forall w :: w in order ==> Routable(s, w)
    case Send(id) => id in s.tasks && s.tasks[id].Request? && s.tasks[id].todo != []
    case Reply(id, _) => id in s.tasks && s.tasks[id].Sending?
    case Get(id) => id in s.tasks && Waits(s.tasks[id])
    case Set(id) => id in s.tasks && Holds(s.tasks[id])
    case Fault(id) => id in s.tasks && MayFault(s.tasks[id])
    case BeginShutdown(id, _) => id !in s.tasks
    case Finish(id) => id in s.tasks && s.tasks[id].Window? && s.clock >= s.tasks[id].since + DRAIN_SECONDS
    case Check(id, w) => id !in s.tasks && w in s.hash && Unchecked(s, w)
    case Pong(id, _) => id in s.tasks && s.tasks[id].Pinging?
    case Mirror(id) => id in s.tasks && s.tasks[id].Mirroring?
    case Expunge(id) => id in s.tasks && s.tasks[id].Removing?
    case Clear(id) => id in s.tasks && s.tasks[id].Clearing?
  }

  /** A round begins only when the previous one is over, so a worker has one check at a time. */
  predicate Unchecked(s: System, w: string) { forall id :: id in s.tasks ==> !Checks(s.tasks[id], w) }

  predicate MayFault(t: Task) {
    Waits(t) || Holds(t) || t.Window? || t.Mirroring? || t.Removing? || t.Clearing?
  }

  /** HGET: an absent entry ends the write; otherwise the copy is held with its new status. */
  function Read(s: System, id: nat, t: Task): System
    requires Waits(t)
  {
    var e := t.errand;
    if e.worker !in s.hash then After(s, id, t, false)
    else s.(tasks := s.tasks[id := t.(errand := Held(e.worker, s.hash[e.worker].(status := e.status)))])
  }

  function Next(s: System, a: Action): System {
    if !Enabled(s, a) then s else
    match a
    case Tick(d) => s.(clock := s.clock + d)
    case Register(w) => s.(hash := s.hash[w.id := w])
    case Delete(w) => s.(hash := s.hash - {w})
    case Snapshot(id, order) => s.(tasks := s.tasks[id := Request(order, s.clock)])
    case Send(id) =>
      var t := s.tasks[id];
      s.(tasks := s.tasks[id := Sending(t.todo[0], t.todo[1..], t.since)])
    case Reply(id, ok) =>
      var t := s.tasks[id];
      if ok then s.(tasks := s.tasks - {id})
      else s.(tasks := s.tasks[id := Marking(Pending(t.worker, UNHEALTHY), t.todo, t.since)])
    case Get(id) => Read(s, id, s.tasks[id])
    case Set(id) =>
      var e := s.tasks[id].errand;
      After(s.(hash := s.hash[e.worker := e.copy]), id, s.tasks[id], false)
    case Fault(id) =>
      var t := s.tasks[id];
      if Waits(t) || Holds(t) then After(s, id, t, true) else s.(tasks := s.tasks - {id})
    case BeginShutdown(id, w) => s.(tasks := s.tasks[id := Shutdown(Pending(w, DRAINING))])
    case Finish(id) => s.(hash := s.hash - {s.tasks[id].worker}, tasks := s.tasks - {id})
    case Check(id, w) => s.(tasks := s.tasks[id := Pinging(w)])
    case Pong(id, ok) => Answered(s, id, s.tasks[id].worker, ok)
    case Mirror(id) => s.(tasks := s.tasks[id := Removing(s.tasks[id].worker)])
    case Expunge(id) =>
      var w := s.tasks[id].worker;
      s.(hash := s.hash - {w}, tasks := s.tasks[id := Clearing(w)])
    case Clear(id) => s.(tasks := s.tasks - {id}, counts := s.counts - {s.tasks[id].worker})
  }

  /** The count after a check, and the removal that a third failure begins. */
  function Answered(s: System, id: nat, w: string, ok: bool): System {
    if ok then s.(tasks := s.tasks - {id}, counts := s.counts[w := 0])
    else
      var count := CountOf(s.counts, w) + 1;
      var s' := s.(counts := s.counts[w := count]);
      if count >= MAX_FAILURES
      then s'.(tasks := s.tasks[id := Removal(Pending(w, UNHEALTHY))])
      else s'.(tasks := s.tasks - {id})
  }

  lemma ExecFirst(s: System, a: Action, rest: seq<Action>)
    ensures Exec(s, [a] + rest) == Exec(Next(s, a), rest)
  {
    assert ([a] + rest)[1..] == rest;
  }

  lemma {:induction false} ExecAppend(s: System, a: seq<Action>, b: seq<Action>)
    ensures Exec(s, a + b) == Exec(Exec(s, a), b)
    decreases |a|
  {
    if a == [] {
      assert a + b == b;
    } else {
      assert (a + b)[1..] == a[1..] + b;
      ExecAppend(Next(s, a[0]), a[1..], b);
    }
  }

  function Exec(s: System, acts: seq<Action>): System
    decreases |acts|
  {
    if acts == [] then s else Exec(Next(s, acts[0]), acts[1..])
  }

  const EMPTY := System(0.0, map[], map[], map[])

  // ---- The invariant of every interleaving ------------------------------------

  ghost predicate TaskOk(s: System, t: Task) {
    match t
    case Request(todo, since) => Distinct(todo) && since <= s.clock
    case Sending(w, todo, since) => Distinct(todo) && w !in todo && since <= s.clock
    case Marking(e, todo, since) => Distinct(todo) && e.worker !in todo && since <= s.clock && ErrandOk(e)
    case Shutdown(e) => ErrandOk(e)
    case Removal(e) => ErrandOk(e)
    case Window(_, since) => since <= s.clock
    case _ => true
  }

  /** Copies carry the id of their key and a status that is not routable. */
  ghost predicate ErrandOk(e: Errand) {
    match e
    case Pending(_, status) => status != HEALTHY
    case Held(w, copy) => copy.id == w && copy.status != HEALTHY
  }

  ghost predicate OneCheckEach(s: System) {
    forall i, j, w :: i in s.tasks && j in s.tasks && Checks(s.tasks[i], w) && Checks(s.tasks[j], w) ==> i == j
  }

  ghost predicate Inv(s: System) {
    && (forall w :: w in s.hash ==> s.hash[w].id == w)
    && (forall id :: id in s.tasks ==> TaskOk(s, s.tasks[id]))
    && OneCheckEach(s)
    && CountsOk(s)
  }

  /** A worker under removal has failed enough checks, until its count is cleared. */
  ghost predicate CountsOk(s: System) {
    forall id, w :: id in s.tasks && Checks(s.tasks[id], w) && !s.tasks[id].Pinging? ==> CountOf(s.counts, w) >= MAX_FAILURES
  }

  /** A task takes up checking a worker only by a check of it; it never changes to another. */
  lemma NextKeepsChecks(s: System, a: Action, id: nat, w: string)
    requires id in Next(s, a).tasks && Checks(Next(s, a).tasks[id], w)
    ensures (id in s.tasks && Checks(s.tasks[id], w)) || (Enabled(s, a) && a == Check(id, w))
  {}

  lemma NextKeepsOneCheck(s: System, a: Action)
    requires OneCheckEach(s)
    ensures OneCheckEach(Next(s, a))
  {
    var s' := Next(s, a);
    forall i, j, w | i in s'.tasks && j in s'.tasks && Checks(s'.tasks[i], w) && Checks(s'.tasks[j], w)
      ensures i == j
    {
      NextKeepsChecks(s, a, i, w);
      NextKeepsChecks(s, a, j, w);
    }
  }

  lemma NextKeepsCounts(s: System, a: Action)
    requires OneCheckEach(s) && CountsOk(s)
    ensures CountsOk(Next(s, a))
  {
    var s' := Next(s, a);
    forall id, w | id in s'.tasks && Checks(s'.tasks[id], w) && !s'.tasks[id].Pinging?
      ensures CountOf(s'.counts, w) >= MAX_FAILURES
    {
      NextKeepsChecks(s, a, id, w);
      if Enabled(s, a) && (a.Pong? || a.Clear?) && a.task != id {
        var v := s.tasks[a.task].worker;
        assert s'.tasks[id] == s.tasks[id];
        assert Checks(s.tasks[id], w) && Checks(s.tasks[a.task], v);
        assert v != w;
        assert CountOf(s'.counts, w) == CountOf(s.counts, w);
      }
    }
  }

  lemma NextKeepsTasks(s: System, a: Action)
    requires forall w :: w in s.hash ==> s.hash[w].id == w
    requires forall id :: id in s.tasks ==> TaskOk(s, s.tasks[id])
    ensures forall id :: id in Next(s, a).tasks ==> TaskOk(Next(s, a), Next(s, a).tasks[id])
  {
    if Enabled(s, a) && a.Send? {
      var todo := s.tasks[a.task].todo;
      assert todo == [todo[0]] + todo[1..];
    }
  }

  lemma NextKeepsInv(s: System, a: Action)
    requires Inv(s)
    ensures Inv(Next(s, a))
  {
    NextKeepsOneCheck(s, a);
    NextKeepsCounts(s, a);
    NextKeepsTasks(s, a);
  }

  lemma {:induction false} ExecKeepsInv(s: System, acts: seq<Action>)
    requires Inv(s)
    ensures Inv(Exec(s, acts))
    decreases |acts|
  {
    if acts != [] {
      NextKeepsInv(s, acts[0]);
      ExecKeepsInv(Next(s, acts[0]), acts[1..]);
    }
  }

  /** In every reachable state each entry's id is its key. */
  lemma IdsMatchKeys(acts: seq<Action>)
    ensures forall w :: w in Exec(EMPTY, acts).hash ==> Exec(EMPTY, acts).hash[w].id == w
  {
    ExecKeepsInv(EMPTY, acts);
  }

  // ---- No resurrection ---------------------------------------------------------

  predicate NeverRegisters(acts: seq<Action>, w: string) {
    forall i :: 0 <= i < |acts| && acts[i].Register? ==> acts[i].w.id != w
  }

  predicate NeverRegistersHealthy(acts: seq<Action>, w: string) {
    forall i :: 0 <= i < |acts| && acts[i].Register? && acts[i].w.id == w ==> acts[i].w.status != HEALTHY
  }

  lemma NextStaysUnroutable(s: System, a: Action, w: string)
    requires Inv(s) && !Routable(s, w)
    requires a.Register? && a.w.id == w ==> a.w.status != HEALTHY
    ensures !Routable(Next(s, a), w)
  {
    if Enabled(s, a) && a.Set? {
      assert TaskOk(s, s.tasks[a.task]);
    }
  }

  /** However the split writes interleave, only a healthy registration makes a worker routable again. */
  lemma {:induction false} NoResurrection(s: System, acts: seq<Action>, w: string)
    requires Inv(s) && !Routable(s, w) && NeverRegistersHealthy(acts, w)
    ensures !Routable(Exec(s, acts), w)
    decreases |acts|
  {
    if acts != [] {
      NextStaysUnroutable(s, acts[0], w);
      NextKeepsInv(s, acts[0]);
      assert NeverRegistersHealthy(acts[1..], w) by {
        assert forall i :: 0 <= i < |acts[1..]| ==> acts[1..][i] == acts[i + 1];
      }
      NoResurrection(Next(s, acts[0]), acts[1..], w);
    }
  }

  function RoutableSet(s: System): set<string> { set w | w in s.hash && s.hash[w].status == HEALTHY }

  lemma RoutableSetShrinks(s: System, acts: seq<Action>)
    requires Inv(s) && forall i :: 0 <= i < |acts| ==> !acts[i].Register?
    ensures RoutableSet(Exec(s, acts)) <= RoutableSet(s)
  {
    forall w | w in RoutableSet(Exec(s, acts))
      ensures w in RoutableSet(s)
    {
      if !Routable(s, w) { NoResurrection(s, acts, w); }
    }
  }
}
