/**
 The pieces of code that write a worker's hash entry, as their processes run
 them: at every `await` all the other tasks may act. Each run is a run of the
 state machine in WorkerHash.
 */
module WorkerTasks {
  import opened WorkerHash
  import opened DeadWorker
  import opened WorkerHashTheorems

  /** The action belongs to the task. */
  predicate ActsOn(a: Action, id: nat) {
    match a
    case Tick(_) => false
    case Register(_) => false
    case Delete(_) => false
    case _ => a.task == id
  }

  predicate Foreign(id: nat, acts: seq<Action>) {
    forall i :: 0 <= i < |acts| ==> !ActsOn(acts[i], id)
  }

  lemma {:induction false} ForeignKeepsTask(s: System, acts: seq<Action>, id: nat)
    requires Foreign(id, acts)
    ensures id in Exec(s, acts).tasks <==> id in s.tasks
    ensures id in s.tasks ==> Exec(s, acts).tasks[id] == s.tasks[id]
    ensures s.clock <= Exec(s, acts).clock
    decreases |acts|
  {
    if acts != [] {
      assert !ActsOn(acts[0], id);
      assert Foreign(id, acts[1..]) by {
        assert forall i :: 0 <= i < |acts[1..]| ==> acts[1..][i] == acts[i + 1];
      }
      ForeignStep(s, acts[0], id);
      ForeignKeepsTask(Next(s, acts[0]), acts[1..], id);
    }
  }

  lemma {:induction false} ForeignMarksNothing(s: System, acts: seq<Action>, id: nat)
    requires Foreign(id, acts)
    ensures MarksOf(s, acts, id) == [] && SendsOf(s, acts, id) == []
    decreases |acts|
  {
    if acts != [] {
      assert !ActsOn(acts[0], id);
      assert Foreign(id, acts[1..]) by {
        assert forall i :: 0 <= i < |acts[1..]| ==> acts[1..][i] == acts[i + 1];
      }
      ForeignMarksNothing(Next(s, acts[0]), acts[1..], id);
    }
  }

  lemma ForeignStep(s: System, a: Action, id: nat)
    requires !ActsOn(a, id)
    ensures id in Next(s, a).tasks <==> id in s.tasks
    ensures id in s.tasks ==> Next(s, a).tasks[id] == s.tasks[id]
    ensures s.clock <= Next(s, a).clock
  {}

  /** What one split write meets: which of its two commands work, and what happens meanwhile. */
  datatype Io = Io(getOk: bool, setOk: bool, beforeGet: seq<Action>, beforeSet: seq<Action>)

  predicate IoOk(id: nat, io: Io) { Foreign(id, io.beforeGet) && Foreign(id, io.beforeSet) }

  predicate NeverChecks(acts: seq<Action>, w: string) {
    forall i :: 0 <= i < |acts| && acts[i].Check? ==> acts[i].worker != w
  }

  /** Nobody but this task is checking the worker. */
  ghost predicate OnlyChecker(s: System, id: nat, w: string) {
    forall i :: i in s.tasks && Checks(s.tasks[i], w) ==> i == id
  }

  /** The count of a worker belongs to the task that checks it; without one, only a new check can change it. */
  lemma {:induction false} ForeignKeepsCount(s: System, acts: seq<Action>, id: nat, w: string)
    requires Foreign(id, acts) && OnlyChecker(s, id, w)
    requires (id in s.tasks && Checks(s.tasks[id], w)) || NeverChecks(acts, w)
    ensures CountOf(Exec(s, acts).counts, w) == CountOf(s.counts, w) && OnlyChecker(Exec(s, acts), id, w)
    decreases |acts|
  {
    if acts != [] {
      assert !ActsOn(acts[0], id);
      assert Foreign(id, acts[1..]) && (NeverChecks(acts, w) ==> NeverChecks(acts[1..], w)) by {
        assert forall i :: 0 <= i < |acts[1..]| ==> acts[1..][i] == acts[i + 1];
      }
      OneForeignStep(s, acts[0], id, w);
      ForeignKeepsCount(Next(s, acts[0]), acts[1..], id, w);
    }
  }

  lemma OneForeignStep(s: System, a: Action, id: nat, w: string)
    requires !ActsOn(a, id) && OnlyChecker(s, id, w)
    requires (id in s.tasks && Checks(s.tasks[id], w)) || (a.Check? ==> a.worker != w)
    ensures CountOf(Next(s, a).counts, w) == CountOf(s.counts, w) && OnlyChecker(Next(s, a), id, w)
    ensures id in s.tasks ==> id in Next(s, a).tasks && Next(s, a).tasks[id] == s.tasks[id]
  {
    var s' := Next(s, a);
    forall i | i in s'.tasks && Checks(s'.tasks[i], w)
      ensures i == id
    {
      NextKeepsChecks(s, a, i, w);
    }
  }

  /** With its only check over, nobody is checking the worker. */
  lemma LastCheckOver(s: System, s': System, id: nat, w: string)
    requires Inv(s) && id in s.tasks && Checks(s.tasks[id], w) && s'.tasks == s.tasks - {id}
    ensures Unchecked(s', w)
  {
    forall i | i in s'.tasks
      ensures !Checks(s'.tasks[i], w)
    {
      assert s'.tasks[i] == s.tasks[i] && i != id;
    }
  }

  /** What a request has done: the workers it was sent to, and those it began to mark, in order. */
  datatype Log = Log(sent: seq<string>, marked: seq<string>) {
    function Add(s: System, a: Action, id: nat): Log { Log(sent + SendOf(s, a, id), marked + MarkOf(s, a, id)) }
  }

  class Fleet {
    var clock: real
    var hash: map<string, Worker>
    var tasks: map<nat, Task>
    var counts: Table
    /** Everything that has happened since the hash was empty. */
    ghost var trace: seq<Action>

    function View(): System reads this { System(clock, hash, tasks, counts) }

    /** The workers to which the request has been sent so far, and those it has begun to mark. */
    ghost function History(id: nat): Log reads this { Log(SendsOf(EMPTY, trace, id), MarksOf(EMPTY, trace, id)) }

    ghost predicate Valid() reads this { View() == Exec(EMPTY, trace) }

    constructor ()
      ensures Valid() && trace == []
    {
      clock, hash, tasks, counts := 0.0, map[], map[], map[];
      trace := [];
    }

    /**
     An `await`: the other tasks make whatever moves they like. They leave the
     task alone, and the count of a worker it is checking; of the workers in
     `still`, which nobody registers, none becomes routable.
     */
    method Await(id: nat, acts: seq<Action>, ghost still: set<string> := {})
      requires Valid() && Foreign(id, acts) && Still(acts, still)
      modifies this
      ensures Valid() && trace == old(trace) + acts && View() == Exec(old(View()), acts)
      ensures id in tasks <==> id in old(tasks)
      ensures id in tasks ==> tasks[id] == old(tasks)[id]
      ensures old(clock) <= clock
      ensures forall w :: w in still && !Routable(old(View()), w) ==> !Routable(View(), w)
      ensures id in tasks ==> forall w :: Checks(tasks[id], w) ==> CountOf(counts, w) == CountOf(old(counts), w)
      ensures History(id) == old(History(id))
    {
      MarksAppend(EMPTY, trace, acts, id);
      SendsAppend(EMPTY, trace, acts, id);
      ForeignMarksNothing(View(), acts, id);
      ExecAppend(EMPTY, trace, acts);
      ExecKeepsInv(EMPTY, trace);
      ForeignKeepsTask(View(), acts, id);
      StillUnroutable(View(), acts, still);
      CheckedCountKept(View(), acts, id);
      var s := Exec(View(), acts);
      clock, hash, tasks, counts := s.clock, s.hash, s.tasks, s.counts;
      trace := trace + acts;
    }

    /** The bookkeeping of an action whose effect on the hash and the counts the code has already made. */
    method Close(ghost before: System, a: Action, after: map<nat, Task>, ghost id: nat := 0)
      requires before == Exec(EMPTY, trace) && View() == before.(hash := hash, counts := counts)
      requires Next(before, a) == System(clock, hash, after, counts)
      modifies this`tasks, this`trace
      ensures Valid() && trace == old(trace) + [a] && tasks == after
      ensures !a.Register? ==> forall w :: !Routable(before, w) ==> !Routable(View(), w)
      ensures History(id) == old(History(id)).Add(before, a, id)
    {
      MarksAppend(EMPTY, trace, [a], id);
      SendsAppend(EMPTY, trace, [a], id);
      assert [a][1..] == [];
      assert MarksOf(before, [a], id) == MarkOf(before, a, id) + MarksOf(Next(before, a), [], id);
      assert SendsOf(before, [a], id) == SendOf(before, a, id) + SendsOf(Next(before, a), [], id);
      ExecKeepsInv(EMPTY, trace);
      ExecAppend(EMPTY, trace, [a]);
      assert Exec(before, [a]) == Exec(Next(before, a), []) by { assert [a][1..] == []; }
      if !a.Register? {
        forall w | !Routable(before, w)
          ensures !Routable(Next(before, a), w)
        {
          NextStaysUnroutable(before, a, w);
        }
      }
      tasks := after;
      trace := trace + [a];
    }

    // ---- The split write ---------------------------------------------------------

    /**
     HGET, change the status, HSET. `done` tells whether the copy was written;
     the entry is then exactly what it was at the moment `at` of the HGET, relabelled.
     */
    method Relabel(id: nat, io: Io, ghost still: set<string> := {}) returns (done: bool, ghost at: nat)
      requires Valid() && IoOk(id, io) && id in tasks && Waits(tasks[id])
      requires Still(io.beforeGet, still) && Still(io.beforeSet, still)
      modifies this
      ensures Valid() && old(trace) <= trace && old(clock) <= clock
      ensures var e := old(tasks)[id].errand;
              && (done ==> ReadAt(old(trace), at, e.worker) && e.worker in hash
                           && hash[e.worker] == EntryAt(at, e.worker).(status := e.status))
              && (io.getOk && io.setOk ==> !Routable(View(), e.worker))
              && (Checks(old(tasks)[id], e.worker) ==> CountOf(counts, e.worker) == CountOf(old(counts), e.worker))
      ensures id in tasks ==> tasks[id] == Following(old(tasks)[id], clock)
      ensures id !in tasks ==> old(tasks)[id].Removal? && !done && !(io.getOk && io.setOk)
      ensures old(tasks)[id].Removal? && !io.getOk ==> id !in tasks
      ensures id !in tasks ==> Unchecked(View(), old(tasks)[id].errand.worker)
      ensures forall w :: w in still && !Routable(old(View()), w) ==> !Routable(View(), w)
      ensures History(id) == old(History(id))
    {
      var t := tasks[id];
      var held;
      held, at := Fetch(id, io, still);
      done := false;
      if held {
        ghost var reading := trace;
        done := Write(id, io, still);
        assert trace[..at] == reading[..at];
      }
    }

    /** The HGET found the entry of the worker at that moment. */
    ghost predicate ReadAt(before: seq<Action>, at: nat, w: string) reads this {
      |before| <= at <= |trace| && w in Exec(EMPTY, trace[..at]).hash
    }

    ghost function EntryAt(at: nat, w: string): Worker
      requires at <= |trace| && w in Exec(EMPTY, trace[..at]).hash
      reads this
    {
      Exec(EMPTY, trace[..at]).hash[w]
    }

    /** HGET: afterwards the task holds the relabelled copy, or its write is over. */
    method Fetch(id: nat, io: Io, ghost still: set<string>) returns (held: bool, ghost at: nat)
      requires Valid() && IoOk(id, io) && id in tasks && Waits(tasks[id]) && Still(io.beforeGet, still)
      modifies this
      ensures Valid() && old(trace) <= trace && old(clock) <= clock
      ensures var t := old(tasks)[id];
              && (held ==> ReadAt(old(trace), at, t.errand.worker) && id in tasks
                           && tasks[id] == t.(errand := Held(t.errand.worker,
                                              EntryAt(at, t.errand.worker).(status := t.errand.status))))
              && (!held ==> if id in tasks then tasks[id] == Following(t, clock)
                            else t.Removal? && !io.getOk && Unchecked(View(), t.errand.worker))
              && (t.Removal? && !io.getOk ==> id !in tasks)
              && (!held && io.getOk ==> !Routable(View(), t.errand.worker))
              && (Checks(t, t.errand.worker) ==> CountOf(counts, t.errand.worker) == CountOf(old(counts), t.errand.worker))
      ensures forall w :: w in still && !Routable(old(View()), w) ==> !Routable(View(), w)
      ensures History(id) == old(History(id))
    {
      var t := tasks[id];
      held, at := false, 0;
      Await(id, io.beforeGet, still);
      if !io.getOk {
        Abandon(id);
        return;
      }
      if t.errand.worker !in hash {
        Close(View(), Get(id), tasks[id := Following(t, clock)], id);
        return;
      }
      at := |trace|;
      ghost var reading := trace;
      var copy := hash[t.errand.worker].(status := t.errand.status);
      Close(View(), Get(id), tasks[id := t.(errand := Held(t.errand.worker, copy))], id);
      held := true;
      assert trace[..at] == reading && reading[..at] == reading;
    }

    /** HSET of the copy the task holds. */
    method Write(id: nat, io: Io, ghost still: set<string>) returns (done: bool)
      requires Valid() && IoOk(id, io) && id in tasks && Holds(tasks[id]) && Still(io.beforeSet, still)
      modifies this
      ensures Valid() && old(trace) <= trace && old(clock) <= clock
      ensures var e := old(tasks)[id].errand;
              && (done ==> e.worker in hash && hash[e.worker] == e.copy && !Routable(View(), e.worker))
              && (Checks(old(tasks)[id], e.worker) ==> CountOf(counts, e.worker) == CountOf(old(counts), e.worker))
      ensures done <==> io.setOk
      ensures id in tasks ==> tasks[id] == Following(old(tasks)[id], clock)
      ensures id !in tasks ==> old(tasks)[id].Removal? && !io.setOk && Unchecked(View(), old(tasks)[id].errand.worker)
      ensures forall w :: w in still && !Routable(old(View()), w) ==> !Routable(View(), w)
      ensures History(id) == old(History(id))
    {
      Await(id, io.beforeSet, still);
      done := io.setOk;
      if done { Put(id); } else { Abandon(id); }
    }

    /** The HSET itself. */
    method Put(id: nat)
      requires Valid() && id in tasks && Holds(tasks[id])
      modifies this`hash, this`tasks, this`trace
      ensures Valid() && old(trace) <= trace
      ensures var e := old(tasks)[id].errand; hash == old(hash)[e.worker := e.copy] && !Routable(View(), e.worker)
      ensures id in tasks && tasks[id] == Following(old(tasks)[id], clock)
      ensures forall w :: !Routable(old(View()), w) ==> !Routable(View(), w)
      ensures History(id) == old(History(id))
    {
      var t := tasks[id];
      ghost var before := View();
      ExecKeepsInv(EMPTY, trace);
      assert TaskOk(before, t);
      hash := hash[t.errand.worker := t.errand.copy];
      Close(before, Set(id), tasks[id := Following(t, clock)], id);
    }

    /** A command raised: the gateway and the draining worker go on, the health checker's removal ends. */
    method Abandon(id: nat)
      requires Valid() && id in tasks && (Waits(tasks[id]) || Holds(tasks[id]))
      modifies this`tasks, this`trace
      ensures Valid() && old(trace) <= trace
      ensures if old(tasks)[id].Removal? then id !in tasks && Unchecked(View(), old(tasks)[id].errand.worker)
              else id in tasks && tasks[id] == Following(old(tasks)[id], clock)
      ensures forall w :: !Routable(old(View()), w) ==> !Routable(View(), w)
      ensures History(id) == old(History(id))
    {
      var t := tasks[id];
      var after := if t.Removal? then tasks - {id} else tasks[id := Following(t, clock)];
      ghost var before := View();
      ExecKeepsInv(EMPTY, trace);
      Close(before, Fault(id), after, id);
      if t.Removal? { LastCheckOver(before, View(), id, t.errand.worker); }
    }

    /** What a task does once its split write is over. */
    static function Following(t: Task, now: real): Task
      requires t.Marking? || t.Shutdown? || t.Removal?
    {
      match t
      case Marking(_, todo, since) => Request(todo, since)
      case Shutdown(e) => Window(e.worker, now)
      case Removal(e) => Mirroring(e.worker)
    }

    /** `_mark_worker_failed`, after a reply that failed: attempted once, whether its commands succeed or not. */
    method MarkWorkerFailed(id: nat, io: Io, ghost still: set<string> := {}) returns (done: bool)
      requires Valid() && IoOk(id, io) && id in tasks && tasks[id].Sending?
      requires Still(io.beforeGet, still) && Still(io.beforeSet, still)
      modifies this
      ensures Valid() && old(trace) <= trace
      ensures id in tasks && tasks[id] == Request(old(tasks)[id].todo, old(tasks)[id].since)
      ensures io.getOk && io.setOk ==> !Routable(View(), old(tasks)[id].worker)
      ensures done ==> var w := old(tasks)[id].worker; w in hash && hash[w].status == "unhealthy"
      ensures forall w :: w in still && !Routable(old(View()), w) ==> !Routable(View(), w)
      ensures History(id) == old(History(id)).(marked := old(History(id)).marked + [old(tasks)[id].worker])
    {
      var t := tasks[id];
      Close(View(), Reply(id, false), tasks[id := Marking(Pending(t.worker, UNHEALTHY), t.todo, t.since)], id);
      ghost var at;
      done, at := Relabel(id, io, still);
    }

    // ---- Registration and shutdown ---------------------------------------------------

    /**
     A worker's registration: HSET. It holds against whatever the tasks under way,
     and quiet ones to come, will do exactly if none of them is writing or deleting
     this worker's entry.
     */
    method RegisterWorker(w: Worker)
      requires Valid() && w.status == HEALTHY
      modifies this
      ensures Valid() && old(trace) <= trace && Routable(View(), w.id) && hash[w.id] == w
      ensures (forall acts :: AllQuiet(View(), acts, w.id) ==> Routable(Exec(View(), acts), w.id))
         <==> Undisturbed(old(View()), w.id)
    {
      ghost var before := View();
      ExecKeepsInv(EMPTY, trace);
      hash := hash[w.id := w];
      Close(before, Register(w), tasks);
      RegistrationSurvivesIffUndisturbed(before, w);
    }

    /**
     The worker's shutdown: mark as draining, stay up for the window, try to
     deregister. `done` tells whether the mark was written, by the moment `marked`,
     and `reached` whether the control plane deleted the entry. If
     the marking commands succeed and nobody registers the worker again, then at
     the end the worker is not routable, whether it was reached or not, and if
     requests are prompt none is at it.
     */
    method ShutDown(id: nat, worker: string, io: Io, window: seq<Action>, reached: bool)
      returns (done: bool, ghost marked: nat)
      requires Valid() && IoOk(id, io) && id !in tasks && Foreign(id, window)
      requires Elapsed(window) >= 8.0
      modifies this
      ensures Valid() && old(trace) <= trace && id !in tasks
      ensures |old(trace)| <= marked <= |trace|
      ensures done ==> var s := Exec(EMPTY, trace[..marked]); worker in s.hash && s.hash[worker].status == "draining"
      ensures reached ==> worker !in hash
      ensures io.getOk && io.setOk && NeverRegisters(window, worker) ==> !Routable(View(), worker)
      ensures io.getOk && io.setOk && NeverRegisters(window, worker) && Prompt(View()) ==>
                forall r :: r in tasks && tasks[r].Sending? ==> tasks[r].worker != worker
    {
      Close(View(), BeginShutdown(id, worker), tasks[id := Shutdown(Pending(worker, DRAINING))]);
      ghost var at;
      done, at := Relabel(id, io);
      ghost var drained, sofar := View(), trace;
      marked := |trace|;
      ExecKeepsInv(EMPTY, trace);
      ClockAdvances(drained, window);
      Await(id, window);
      if io.getOk && io.setOk && NeverRegisters(window, worker) {
        AfterDrain(drained, window, worker);
      }
      ghost var before := View();
      Deregister(id, worker, reached);
      OthersPrompt(before, id, View());
      assert trace[..marked] == sofar;
    }

    /** The best-effort DELETE of a worker that shuts down; if it fails, the entry stays. */
    method Deregister(id: nat, worker: string, reached: bool)
      requires Valid() && id in tasks && tasks[id].Window? && tasks[id].worker == worker
      requires clock >= tasks[id].since + DRAIN_SECONDS
      modifies this
      ensures Valid() && old(trace) <= trace
      ensures View() == old(View()).(hash := if reached then old(hash) - {worker} else old(hash), tasks := old(tasks) - {id})
    {
      ghost var before := View();
      if reached {
        hash := hash - {worker};
        Close(before, Finish(id), tasks - {id});
      } else {
        Close(before, Fault(id), tasks - {id});
      }
    }
  }

  /** Nobody registers these workers. */
  predicate Still(acts: seq<Action>, ids: set<string>) {
    forall i :: 0 <= i < |acts| && acts[i].Register? ==> acts[i].w.id !in ids
  }

  lemma StillUnroutable(s: System, acts: seq<Action>, ids: set<string>)
    requires Inv(s) && Still(acts, ids)
    ensures forall w :: w in ids && !Routable(s, w) ==> !Routable(Exec(s, acts), w)
  {
    forall w | w in ids && !Routable(s, w)
      ensures !Routable(Exec(s, acts), w)
    {
      NoResurrection(s, acts, w);
    }
  }

  lemma CheckedCountKept(s: System, acts: seq<Action>, id: nat)
    requires Inv(s) && Foreign(id, acts)
    ensures id in s.tasks ==> forall w :: Checks(s.tasks[id], w) ==> CountOf(Exec(s, acts).counts, w) == CountOf(s.counts, w)
  {
    if id in s.tasks {
      forall w | Checks(s.tasks[id], w)
        ensures CountOf(Exec(s, acts).counts, w) == CountOf(s.counts, w)
      {
        ForeignKeepsCount(s, acts, id, w);
      }
    }
  }

  lemma OthersPrompt(s: System, id: nat, s': System)
    requires id in s.tasks && !s.tasks[id].Sending? && s'.tasks == s.tasks - {id} && s'.clock == s.clock
    ensures Prompt(s') ==> Prompt(s)
  {
    if Prompt(s') {
      forall r | r in s.tasks && s.tasks[r].Sending?
        ensures s.clock - s.tasks[r].since < DRAIN_SECONDS
      {
        assert r in s'.tasks && s'.tasks[r].Sending?;
      }
    }
  }

  /** How long the actions take. */
  function Elapsed(acts: seq<Action>): real {
    if acts == [] then 0.0
    else (if acts[0].Tick? && acts[0].delta >= 0.0 then acts[0].delta else 0.0) + Elapsed(acts[1..])
  }

  lemma {:induction false} ClockAdvances(s: System, acts: seq<Action>)
    ensures Exec(s, acts).clock == s.clock + Elapsed(acts)
    decreases |acts|
  {
    if acts != [] { ClockAdvances(Next(s, acts[0]), acts[1..]); }
  }

  /** From the moment an entry is not routable: a window later, prompt requests have left the worker. */
  lemma AfterDrain(s: System, window: seq<Action>, w: string)
    requires Inv(s) && !Routable(s, w) && NeverRegisters(window, w) && Elapsed(window) >= DRAIN_SECONDS
    ensures var s' := Exec(s, window);
            && !Routable(s', w)
            && (Prompt(s') ==> forall r :: r in s'.tasks && s'.tasks[r].Sending? ==> s'.tasks[r].worker != w)
  {
    NoResurrection(s, window, w);
    assert OnlyOldSnapshots(s, w, s.clock) by {
      forall r | r in s.tasks && InPlay(s.tasks[r], w)
        ensures s.tasks[r].since <= s.clock
      {
        assert TaskOk(s, s.tasks[r]);
      }
    }
    SnapshotsStayOld(s, window, w, s.clock);
    ClockAdvances(s, window);
    if Prompt(Exec(s, window)) { OldRequestsAreOver(Exec(s, window), w, s.clock); }
  }
}
