/** Registrations, failed requests and draining workers under every interleaving. */
module WorkerHashTheorems {
  import opened WorkerHash
  import opened DeadWorker

  // ---- When a registration is lost ---------------------------------------------------

  /** A started task that will still write or delete the entry, whatever it hears from the worker. */
  predicate Disturbs(t: Task, w: string) {
    match t
    case Marking(e, _, _) => e.worker == w
    case Shutdown(e) => e.worker == w
    case Window(v, _) => v == w
    case _ => Expels(t, w)
  }

  ghost predicate Undisturbed(s: System, w: string) {
    forall id :: id in s.tasks ==> !Disturbs(s.tasks[id], w)
  }

  /**
   Nothing new happens to the worker: no reply of its own that fails, no deletion,
   shutdown, third failed check or registration. Other workers may do anything.
   */
  predicate Quiet(s: System, a: Action, w: string) {
    match a
    case Register(v) => v.id != w
    case Delete(v) => v != w
    case BeginShutdown(_, v) => v != w
    case Reply(id, ok) => ok || !(id in s.tasks && s.tasks[id].Sending? && s.tasks[id].worker == w)
    case Pong(_, _) => !Happens(RemovalBegins, s, a, w)
    case _ => true
  }

  predicate AllQuiet(s: System, acts: seq<Action>, w: string)
    decreases |acts|
  {
    acts == [] || (Quiet(s, acts[0], w) && AllQuiet(Next(s, acts[0]), acts[1..], w))
  }

  lemma NextStaysUndisturbed(s: System, a: Action, w: string)
    requires Inv(s) && Routable(s, w) && Undisturbed(s, w) && Quiet(s, a, w)
    ensures Routable(Next(s, a), w) && Undisturbed(Next(s, a), w)
  {}

  lemma {:induction false} UndisturbedStaysRoutable(s: System, acts: seq<Action>, w: string)
    requires Inv(s) && Routable(s, w) && Undisturbed(s, w) && AllQuiet(s, acts, w)
    ensures Routable(Exec(s, acts), w)
    decreases |acts|
  {
    if acts != [] {
      NextKeepsInv(s, acts[0]);
      NextStaysUndisturbed(s, acts[0], w);
      UndisturbedStaysRoutable(Next(s, acts[0]), acts[1..], w);
    }
  }

  lemma TwoQuiet(s: System, a: Action, b: Action, w: string)
    ensures Exec(s, [a, b]) == Next(Next(s, a), b)
    ensures AllQuiet(s, [a, b], w) <==> Quiet(s, a, w) && Quiet(Next(s, a), b, w)
  {
    ExecTwo(s, a, b);
    assert [a, b][1..] == [b] && [b][1..] == [];
    assert AllQuiet(Next(s, a), [b], w) <==> Quiet(Next(s, a), b, w) && AllQuiet(Next(Next(s, a), b), [], w);
  }

  /** Any task already under way with the worker can undo its registration by itself. */
  lemma DisturbedIsLost(s: System, id: nat, w: string) returns (acts: seq<Action>)
    requires Inv(s) && Routable(s, w) && id in s.tasks && Disturbs(s.tasks[id], w)
    ensures AllQuiet(s, acts, w) && !Routable(Exec(s, acts), w)
  {
    var t := s.tasks[id];
    assert TaskOk(s, t);
    if Waits(t) {
      acts := [Get(id), Set(id)];
    } else if Holds(t) {
      acts := [Set(id), Tick(0.0)];
    } else if t.Window? {
      acts := [Tick(DRAIN_SECONDS), Finish(id)];
    } else if t.Mirroring? {
      acts := [Mirror(id), Expunge(id)];
    } else {
      acts := [Expunge(id), Tick(0.0)];
    }
    TwoQuiet(s, acts[0], acts[1], w);
  }

  /**
   A healthy registration survives every quiet continuation exactly when, at
   that moment, no marking, shutdown or removal of the worker is under way.
   */
  lemma RegistrationSurvivesIffUndisturbed(s: System, v: Worker)
    requires Inv(s) && v.status == HEALTHY
    ensures var s1 := Next(s, Register(v));
            (forall acts :: AllQuiet(s1, acts, v.id) ==> Routable(Exec(s1, acts), v.id)) <==> Undisturbed(s, v.id)
  {
    var s1 := Next(s, Register(v));
    NextKeepsInv(s, Register(v));
    if Undisturbed(s, v.id) {
      forall acts | AllQuiet(s1, acts, v.id)
        ensures Routable(Exec(s1, acts), v.id)
      {
        UndisturbedStaysRoutable(s1, acts, v.id);
      }
    } else {
      var id :| id in s.tasks && Disturbs(s.tasks[id], v.id);
      var acts := DisturbedIsLost(s1, id, v.id);
      assert AllQuiet(s1, acts, v.id) && !Routable(Exec(s1, acts), v.id);
    }
  }

  /** A request to the worker is about to be answered with a failure when the worker registers again. */
  function FailingRequest(w: string): seq<Action> { [Snapshot(0, [w]), Send(0), Reply(0, false)] }

  /**
   The failing input: a worker registers, fails a request, registers again, and the
   marking that was under way makes it unroutable.
   */
  lemma RegistrationCanBeLost(v: Worker)
    requires v.status == HEALTHY
    ensures !Undisturbed(Exec(EMPTY, [Register(v)] + FailingRequest(v.id)), v.id)
    ensures var s := Exec(EMPTY, ([Register(v)] + FailingRequest(v.id)) + [Register(v)]);
            Routable(s, v.id) && AllQuiet(s, [Get(0), Set(0)], v.id) && !Routable(Exec(s, [Get(0), Set(0)]), v.id)
  {
    var w := v.id;
    var before := [Register(v)] + FailingRequest(w);
    ExecFirst(EMPTY, Register(v), FailingRequest(w));
    var s1 := Next(EMPTY, Register(v));
    ExecThree(s1, Snapshot(0, [w]), Send(0), Reply(0, false));
    var s2 := Exec(EMPTY, before);
    assert [w][1..] == [];
    assert s2.tasks == map[0 := Marking(Pending(w, UNHEALTHY), [], 0.0)];
    assert Disturbs(s2.tasks[0], w);
    ExecAppend(EMPTY, before, [Register(v)]);
    ExecFirst(s2, Register(v), []);
    assert [Register(v)] + [] == [Register(v)];
    TwoQuiet(Exec(s2, [Register(v)]), Get(0), Set(0), w);
  }

  // ---- Which workers a request marks ----------------------------------------------------

  /** The worker for which the request begins a marking in this step. */
  function MarkOf(s: System, a: Action, id: nat): seq<string> {
    if Enabled(s, a) && a == Reply(id, false) then [s.tasks[id].worker] else []
  }

  /** ... and in a whole run, in order. */
  function MarksOf(s: System, acts: seq<Action>, id: nat): seq<string>
    decreases |acts|
  {
    if acts == [] then [] else MarkOf(s, acts[0], id) + MarksOf(Next(s, acts[0]), acts[1..], id)
  }

  lemma {:induction false} MarksAppend(s: System, a: seq<Action>, b: seq<Action>, id: nat)
    ensures MarksOf(s, a + b, id) == MarksOf(s, a, id) + MarksOf(Exec(s, a), b, id)
    decreases |a|
  {
    if a == [] {
      assert a + b == b;
    } else {
      assert (a + b)[1..] == a[1..] + b;
      MarksAppend(Next(s, a[0]), a[1..], b, id);
    }
  }

  predicate OfGateway(t: Task) { t.Request? || t.Sending? || t.Marking? }

  /** The candidates that have not failed the request yet. */
  function Unfailed(t: Task): seq<string>
    requires OfGateway(t)
  {
    match t
    case Request(todo, _) => todo
    case Sending(w, todo, _) => [w] + todo
    case Marking(_, todo, _) => todo
  }

  lemma NextMarks(s: System, a: Action, id: nat)
    requires id in s.tasks && OfGateway(s.tasks[id]) && a != Reply(id, true)
    ensures id in Next(s, a).tasks && OfGateway(Next(s, a).tasks[id])
    ensures MarkOf(s, a, id) + Unfailed(Next(s, a).tasks[id]) == Unfailed(s.tasks[id])
  {
    NextStaysOfGateway(s, a, id);
    if a == Send(id) { SendTakesFirst(s, a); }
  }

  lemma NextStaysOfGateway(s: System, a: Action, id: nat)
    requires id in s.tasks && OfGateway(s.tasks[id]) && a != Reply(id, true)
    ensures id in Next(s, a).tasks && OfGateway(Next(s, a).tasks[id])
    ensures a != Send(id) && a != Reply(id, false) ==> Unfailed(Next(s, a).tasks[id]) == Unfailed(s.tasks[id])
  {}

  /**
   In every run until a worker answers, whatever commands fail and whatever else
   happens: a mark has been attempted on exactly the candidates that failed, in
   order, and on none of those still to come.
   */
  lemma {:induction false} MarksAreTheFailed(s: System, acts: seq<Action>, id: nat)
    requires id in s.tasks && OfGateway(s.tasks[id]) && Reply(id, true) !in acts
    ensures id in Exec(s, acts).tasks && OfGateway(Exec(s, acts).tasks[id])
    ensures MarksOf(s, acts, id) + Unfailed(Exec(s, acts).tasks[id]) == Unfailed(s.tasks[id])
    decreases |acts|
  {
    if acts != [] {
      assert acts[0] in acts;
      NextMarks(s, acts[0], id);
      var s1 := Next(s, acts[0]);
      MarksAreTheFailed(s1, acts[1..], id);
      var now, later, left := MarkOf(s, acts[0], id), MarksOf(s1, acts[1..], id), Unfailed(Exec(s1, acts[1..]).tasks[id]);
      assert (now + later) + left == now + (later + left);
    }
  }

  /** The worker to which the request is sent in this step, and in a whole run, in order. */
  function SendOf(s: System, a: Action, id: nat): seq<string> {
    if Enabled(s, a) && a == Send(id) then [s.tasks[id].todo[0]] else []
  }

  function SendsOf(s: System, acts: seq<Action>, id: nat): seq<string>
    decreases |acts|
  {
    if acts == [] then [] else SendOf(s, acts[0], id) + SendsOf(Next(s, acts[0]), acts[1..], id)
  }

  lemma {:induction false} SendsAppend(s: System, a: seq<Action>, b: seq<Action>, id: nat)
    ensures SendsOf(s, a + b, id) == SendsOf(s, a, id) + SendsOf(Exec(s, a), b, id)
    decreases |a|
  {
    if a == [] {
      assert a + b == b;
    } else {
      assert (a + b)[1..] == a[1..] + b;
      SendsAppend(Next(s, a[0]), a[1..], b, id);
    }
  }

  // ---- A request that every worker failed ---------------------------------------------

  /** The gateway's request still has the worker ahead of it, or is dealing with it. */
  predicate Ahead(t: Task, w: string) {
    match t
    case Request(todo, _) => w in todo
    case Sending(v, todo, _) => v == w || w in todo
    case Marking(e, todo, _) => e.worker == w || w in todo
    case _ => false
  }

  /** Every candidate fails the request, and none of its own Redis commands does. */
  predicate AllFail(acts: seq<Action>, id: nat) {
    forall i :: 0 <= i < |acts| ==> acts[i] != Fault(id) && acts[i] != Reply(id, true)
  }

  /**
   Whatever the other tasks do: a worker of the snapshot that nobody registers
   again is not routable when the request has run out of candidates, as long as
   the request's own Redis commands are not refused.
   */
  lemma {:induction false} FailedWorkersUnroutable(s: System, id: nat, acts: seq<Action>, w: string)
    requires Inv(s) && id in s.tasks && (Routable(s, w) ==> Ahead(s.tasks[id], w))
    requires s.tasks[id].Request? || s.tasks[id].Sending? || s.tasks[id].Marking?
    requires NeverRegisters(acts, w) && AllFail(acts, id)
    ensures var s' := Exec(s, acts);
            id in s'.tasks && (s'.tasks[id].Request? && s'.tasks[id].todo == [] ==> !Routable(s', w))
    decreases |acts|
  {
    if acts != [] {
      TailNeverRegisters(acts, w);
      var a := acts[0];
      assert a != Fault(id) && a != Reply(id, true);
      assert AllFail(acts[1..], id) by {
        assert forall i :: 0 <= i < |acts[1..]| ==> acts[1..][i] == acts[i + 1];
      }
      NextKeepsInv(s, a);
      NextKeepsAhead(s, id, a, w);
      FailedWorkersUnroutable(Next(s, a), id, acts[1..], w);
    }
  }

  lemma NextKeepsRequest(s: System, id: nat, a: Action)
    requires id in s.tasks && (s.tasks[id].Request? || s.tasks[id].Sending? || s.tasks[id].Marking?)
    requires a != Fault(id) && a != Reply(id, true)
    ensures id in Next(s, a).tasks
    ensures var t := Next(s, a).tasks[id]; t.Request? || t.Sending? || t.Marking?
  {}

  lemma NextKeepsAhead(s: System, id: nat, a: Action, w: string)
    requires Inv(s) && id in s.tasks && (Routable(s, w) ==> Ahead(s.tasks[id], w))
    requires s.tasks[id].Request? || s.tasks[id].Sending? || s.tasks[id].Marking?
    requires (a.Register? ==> a.w.id != w) && a != Fault(id) && a != Reply(id, true)
    ensures var s' := Next(s, a);
            && id in s'.tasks && (Routable(s', w) ==> Ahead(s'.tasks[id], w))
            && (s'.tasks[id].Request? || s'.tasks[id].Sending? || s'.tasks[id].Marking?)
  {
    NextKeepsRequest(s, id, a);
    SendTakesFirst(s, a);
    if !Routable(s, w) {
      NextStaysUnroutable(s, a, w);
    } else {
      assert TaskOk(s, s.tasks[id]);
    }
  }

  // ---- Draining -------------------------------------------------------------------------

  /** When the gateway took the snapshot that brought the worker into play for this task. */
  predicate InPlay(t: Task, w: string) {
    match t
    case Request(todo, _) => w in todo
    case Sending(v, todo, _) => v == w || w in todo
    case Marking(_, todo, _) => w in todo
    case _ => false
  }

  ghost predicate OnlyOldSnapshots(s: System, w: string, t: real) {
    forall id :: id in s.tasks && InPlay(s.tasks[id], w) ==> s.tasks[id].since <= t
  }

  lemma NextKeepsOld(s: System, a: Action, w: string, t: real)
    requires !Routable(s, w) && OnlyOldSnapshots(s, w, t)
    ensures OnlyOldSnapshots(Next(s, a), w, t)
  {
    SendTakesFirst(s, a);
  }

  lemma {:induction false} SnapshotsStayOld(s: System, acts: seq<Action>, w: string, t: real)
    requires Inv(s) && !Routable(s, w) && OnlyOldSnapshots(s, w, t) && NeverRegisters(acts, w)
    ensures OnlyOldSnapshots(Exec(s, acts), w, t)
    decreases |acts|
  {
    if acts != [] {
      TailNeverRegisters(acts, w);
      NextStaysUnroutable(s, acts[0], w);
      NextKeepsInv(s, acts[0]);
      NextKeepsOld(s, acts[0], w, t);
      SnapshotsStayOld(Next(s, acts[0]), acts[1..], w, t);
    }
  }

  /** Every request still on its way to a worker was taken up less than the drain window ago. */
  ghost predicate Prompt(s: System) {
    forall id :: id in s.tasks && s.tasks[id].Sending? ==> s.clock - s.tasks[id].since < 8.0
  }

  /**
   After a successful drain write, and without a new registration, every request
   that still involves the worker comes from an older snapshot; if requests are
   prompt, none is at the worker when its window ends.
   */
  lemma DrainSafety(s: System, id: nat, acts: seq<Action>)
    requires Inv(s) && id in s.tasks && s.tasks[id].Shutdown? && Holds(s.tasks[id])
    requires NeverRegisters(acts, s.tasks[id].errand.worker)
    ensures var w := s.tasks[id].errand.worker;
            var s' := Exec(Next(s, Set(id)), acts);
            && OnlyOldSnapshots(s', w, s.clock)
            && (s'.clock >= s.clock + 8.0 && Prompt(s') ==>
                  forall r :: r in s'.tasks && s'.tasks[r].Sending? ==> s'.tasks[r].worker != w)
  {
    var w := s.tasks[id].errand.worker;
    var s1 := Next(s, Set(id));
    assert TaskOk(s, s.tasks[id]);
    NextKeepsInv(s, Set(id));
    assert OnlyOldSnapshots(s1, w, s.clock) by {
      forall r | r in s1.tasks && InPlay(s1.tasks[r], w)
        ensures s1.tasks[r].since <= s.clock
      {
        assert r in s.tasks && TaskOk(s1, s1.tasks[r]);
      }
    }
    SnapshotsStayOld(s1, acts, w, s.clock);
    if Exec(s1, acts).clock >= s.clock + DRAIN_SECONDS && Prompt(Exec(s1, acts)) {
      OldRequestsAreOver(Exec(s1, acts), w, s.clock);
    }
  }

  lemma OldRequestsAreOver(s: System, w: string, t: real)
    requires OnlyOldSnapshots(s, w, t) && Prompt(s) && s.clock >= t + DRAIN_SECONDS
    ensures forall r :: r in s.tasks && s.tasks[r].Sending? ==> s.tasks[r].worker != w
  {
    forall r | r in s.tasks && s.tasks[r].Sending?
      ensures s.tasks[r].worker != w
    {
      assert s.tasks[r].since > t;
    }
  }
}
