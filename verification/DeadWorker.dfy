/** What becomes of a worker that has died, under every interleaving. */
module DeadWorker {
  import opened Common
  import opened WorkerHash

  lemma TailNeverRegisters(acts: seq<Action>, w: string)
    requires acts != [] && NeverRegisters(acts, w)
    ensures NeverRegisters(acts[1..], w) && (acts[0].Register? ==> acts[0].w.id != w)
  {
    assert forall i :: 0 <= i < |acts[1..]| ==> acts[1..][i] == acts[i + 1];
  }

  predicate NeverShutsDown(acts: seq<Action>, w: string) {
    forall i :: 0 <= i < |acts| && acts[i].BeginShutdown? ==> acts[i].worker != w
  }

  lemma TailNeverShutsDown(acts: seq<Action>, w: string)
    requires acts != [] && NeverShutsDown(acts, w)
    ensures NeverShutsDown(acts[1..], w) && (acts[0].BeginShutdown? ==> acts[0].worker != w)
  {
    assert forall i :: 0 <= i < |acts[1..]| ==> acts[1..][i] == acts[i + 1];
  }

  // ---- When a removed worker is gone for good -----------------------------------

  ghost predicate SomeoneHolds(s: System, w: string) {
    exists id :: id in s.tasks && Holds(s.tasks[id]) && s.tasks[id].errand.worker == w
  }

  /** No task can put the entry back: only a registration can. */
  ghost predicate GoneForGood(s: System, w: string) {
    forall acts :: NeverRegisters(acts, w) ==> w !in Exec(s, acts).hash
  }

  lemma {:induction false} AbsentStaysAbsent(s: System, acts: seq<Action>, w: string)
    requires w !in s.hash && !SomeoneHolds(s, w) && NeverRegisters(acts, w)
    ensures w !in Exec(s, acts).hash && !SomeoneHolds(Exec(s, acts), w)
    decreases |acts|
  {
    if acts != [] {
      TailNeverRegisters(acts, w);
      var s1 := Next(s, acts[0]);
      assert !SomeoneHolds(s1, w);
      AbsentStaysAbsent(s1, acts[1..], w);
    }
  }

  /** A worker out of the hash stays out, short of a registration, exactly when no task holds a copy of it. */
  lemma GoneForGoodIffUnheld(s: System, w: string)
    requires w !in s.hash
    ensures GoneForGood(s, w) <==> !SomeoneHolds(s, w)
  {
    if SomeoneHolds(s, w) {
      var id :| id in s.tasks && Holds(s.tasks[id]) && s.tasks[id].errand.worker == w;
      var acts := [Set(id)];
      assert Exec(s, acts) == Next(s, Set(id)) by { assert acts[1..] == []; }
      assert NeverRegisters(acts, w) && w in Exec(s, acts).hash;
    } else {
      forall acts | NeverRegisters(acts, w)
        ensures w !in Exec(s, acts).hash
      {
        AbsentStaysAbsent(s, acts, w);
      }
    }
  }

  // ---- What is counted over a run ---------------------------------------------------

  datatype Occasion =
    | Return          // an absent entry is put back
    | RemovalBegins   // a failed check is one too many
    | RemovalBreaks   // an error ends a removal half-way
    | CheckFails
    | CheckPasses
    | RowUpdated      // the database accepts the row of a worker under removal
    | Undercut        // somebody deletes the entry between the HGET and the HSET of its removal

  predicate Happens(o: Occasion, s: System, a: Action, w: string) {
    Enabled(s, a) &&
    match o
    case Return => w !in s.hash && w in Next(s, a).hash
    case RemovalBegins => CheckOf(s, a, w, false) && CountOf(s.counts, w) + 1 >= MAX_FAILURES
    case RemovalBreaks => a.Fault? && Expels(s.tasks[a.task], w)
    case CheckFails => CheckOf(s, a, w, false)
    case CheckPasses => CheckOf(s, a, w, true)
    case RowUpdated => a.Mirror? && s.tasks[a.task].worker == w
    case Undercut => w in s.hash && w !in Next(s, a).hash && RemovalHolds(s, w)
  }

  predicate CheckOf(s: System, a: Action, w: string, ok: bool)
    requires Enabled(s, a)
  {
    a.Pong? && a.ok == ok && s.tasks[a.task].worker == w
  }

  function Once(o: Occasion, s: System, a: Action, w: string): nat { if Happens(o, s, a, w) then 1 else 0 }

  /** How often something happens to the worker in a run. */
  function Times(o: Occasion, s: System, acts: seq<Action>, w: string): nat
    decreases |acts|
  {
    if acts == [] then 0 else Once(o, s, acts[0], w) + Times(o, Next(s, acts[0]), acts[1..], w)
  }

  // ---- What can still happen --------------------------------------------------------

  /** A gateway or shutdown task that may still write the entry. */
  predicate Owes(t: Task, w: string) {
    match t
    case Request(todo, _) => w in todo
    case Sending(v, todo, _) => v == w || w in todo
    case Marking(e, todo, _) => e.worker == w || w in todo
    case Shutdown(e) => e.worker == w
    case _ => false
  }

  function Owing(s: System, w: string): set<nat> { set id | id in s.tasks && Owes(s.tasks[id], w) }

  /** ... or a removal by the health checker that may. */
  predicate MayWrite(t: Task, w: string) { Owes(t, w) || (t.Removal? && t.errand.worker == w) }

  function Writers(s: System, w: string): set<nat> { set id | id in s.tasks && MayWrite(s.tasks[id], w) }

  ghost predicate UnderRemoval(s: System, w: string) { exists id :: id in s.tasks && Expels(s.tasks[id], w) }

  ghost predicate BeingPinged(s: System, w: string) { exists id :: id in s.tasks && s.tasks[id] == Pinging(w) }

  ghost predicate BeingCleared(s: System, w: string) { exists id :: id in s.tasks && s.tasks[id] == Clearing(w) }

  /** The worker is listed, or was when its check began, and its removal has yet to begin. */
  ghost predicate Outstanding(s: System, w: string) {
    (w in s.hash || BeingPinged(s, w)) && !UnderRemoval(s, w)
  }

  ghost function Credit(s: System, w: string): nat { if Outstanding(s, w) then 1 else 0 }

  /** Failed checks that remain, up to the one that begins a removal. */
  function ChecksLeft(count: nat): nat { if count >= 3 then 1 else 3 - count }

  ghost function Patience(s: System, w: string): nat {
    if !Outstanding(s, w) then 0
    else if BeingCleared(s, w) then MAX_FAILURES
    else ChecksLeft(CountOf(s.counts, w))
  }

  // ---- One step -----------------------------------------------------------------------

  /** Nothing that brings the worker back to life: no registration, no start of its own shutdown. */
  predicate Lifeless(a: Action, w: string) {
    (a.Register? ==> a.w.id != w) && (a.BeginShutdown? ==> a.worker != w)
  }

  lemma SendTakesFirst(s: System, a: Action)
    ensures Enabled(s, a) && a.Send? ==> var todo := s.tasks[a.task].todo; todo == [todo[0]] + todo[1..]
  {}

  /** An entry comes back on behalf of a gateway or a draining worker, not of the checker. */
  predicate Revives(s: System, a: Action, w: string) {
    Happens(Return, s, a, w) && a.Set? && !s.tasks[a.task].Removal?
  }

  lemma NextSpendsOwing(s: System, a: Action, w: string)
    requires Inv(s) && !Routable(s, w) && Lifeless(a, w)
    ensures Owing(Next(s, a), w) <= Owing(s, w) - if Revives(s, a, w) then {a.task} else {}
    ensures Revives(s, a, w) ==> a.task in Owing(s, w)
  {
    SendTakesFirst(s, a);
  }

  lemma NextOwing(s: System, a: Action, w: string)
    requires Inv(s) && !Routable(s, w) && Lifeless(a, w)
    ensures |Owing(Next(s, a), w)| + (if Revives(s, a, w) then 1 else 0) <= |Owing(s, w)|
  {
    NextSpendsOwing(s, a, w);
    SubsetSize(Owing(Next(s, a), w), Owing(s, w) - if Revives(s, a, w) then {a.task} else {});
  }

  /** The checker's removal is between its HGET and its HSET. */
  predicate RemovalHolds(s: System, w: string) {
    exists id :: id in s.tasks && s.tasks[id].Removal? && s.tasks[id].errand.Held? && s.tasks[id].errand.worker == w
  }

  /** ... and what it is about to write has been deleted meanwhile. */
  predicate Stale(s: System, w: string) { w !in s.hash && RemovalHolds(s, w) }

  function StaleCopies(s: System, w: string): nat { if Stale(s, w) then 1 else 0 }

  /** The checker takes a copy only of an entry that is there, and stays. */
  lemma NextHolds(s: System, a: Action, w: string)
    requires RemovalHolds(Next(s, a), w) && !(w in s.hash && w in Next(s, a).hash)
    ensures RemovalHolds(s, w)
  {
    var s' := Next(s, a);
    var id :| id in s'.tasks && s'.tasks[id].Removal? && s'.tasks[id].errand.Held? && s'.tasks[id].errand.worker == w;
    assert id in s.tasks && s.tasks[id] == s'.tasks[id];
  }

  /** After the removal's own HSET it holds nothing any more, and no other removal does. */
  lemma OwnSetEndsHold(s: System, a: Action, w: string)
    requires OneCheckEach(s) && Enabled(s, a) && a.Set? && s.tasks[a.task].Removal? && s.tasks[a.task].errand.worker == w
    ensures !RemovalHolds(Next(s, a), w) && RemovalHolds(s, w)
  {
    var s' := Next(s, a);
    assert Checks(s.tasks[a.task], w);
    assert forall id :: id in s'.tasks && id != a.task ==> s'.tasks[id] == s.tasks[id] && !Checks(s.tasks[id], w);
  }

  /** It is never the checker itself that deletes the entry under its own removal. */
  lemma UndercutIsForeign(s: System, a: Action, w: string)
    requires OneCheckEach(s) && Happens(Undercut, s, a, w)
    ensures !a.Expunge?
  {
    var id :| id in s.tasks && s.tasks[id].Removal? && s.tasks[id].errand.Held? && s.tasks[id].errand.worker == w;
    assert Checks(s.tasks[id], w);
    if a.Expunge? { assert Checks(s.tasks[a.task], w); }
  }

  lemma NextStale(s: System, a: Action, w: string)
    requires Inv(s) && Lifeless(a, w)
    ensures Once(Return, s, a, w) + StaleCopies(Next(s, a), w)
         <= StaleCopies(s, w) + (if Revives(s, a, w) then 1 else 0) + Once(Undercut, s, a, w)
  {
    var s' := Next(s, a);
    if Happens(Return, s, a, w) {
      if !Revives(s, a, w) { OwnSetEndsHold(s, a, w); }
    } else if Stale(s', w) {
      NextHolds(s, a, w);
    }
  }

  lemma ExpungeLeavesCleared(s: System, id: nat, w: string)
    requires OneCheckEach(s) && id in s.tasks && s.tasks[id] == Removing(w)
    ensures var s' := Next(s, Expunge(id)); w !in s'.hash && BeingCleared(s', w) && !BeingPinged(s', w)
  {
    var s' := Next(s, Expunge(id));
    assert s'.tasks[id] == Clearing(w) && Checks(s.tasks[id], w);
    assert forall i :: i in s'.tasks && i != id ==> s'.tasks[i] == s.tasks[i] && !Checks(s.tasks[i], w);
  }

  lemma ExpelsGoesOn(s: System, a: Action, id: nat, w: string)
    requires id in s.tasks && Expels(s.tasks[id], w) && a != Expunge(id) && a != Fault(id)
    ensures id in Next(s, a).tasks && Expels(Next(s, a).tasks[id], w)
  {}

  /** Removals go on, or end with the entry gone, or break; nothing else ends one. */
  lemma NextStaysUnderRemoval(s: System, a: Action, w: string)
    requires Inv(s) && UnderRemoval(s, w)
    ensures UnderRemoval(Next(s, a), w) || Happens(RemovalBreaks, s, a, w)
         || (w !in Next(s, a).hash && BeingCleared(Next(s, a), w) && !BeingPinged(Next(s, a), w))
  {
    var id :| id in s.tasks && Expels(s.tasks[id], w);
    if a != Expunge(id) && a != Fault(id) {
      ExpelsGoesOn(s, a, id, w);
    } else if s.tasks[id].Removing? && a == Expunge(id) {
      ExpungeLeavesCleared(s, id, w);
    }
  }

  lemma NextBegins(s: System, a: Action, w: string)
    requires Inv(s) && Happens(RemovalBegins, s, a, w)
    ensures Outstanding(s, w) && !BeingCleared(s, w) && UnderRemoval(Next(s, a), w)
  {
    assert s.tasks[a.task] == Pinging(w) && Checks(s.tasks[a.task], w);
    assert Expels(Next(s, a).tasks[a.task], w);
  }

  /** A worker becomes outstanding by coming back or by a removal that breaks. */
  lemma NextOutstanding(s: System, a: Action, w: string)
    requires Inv(s) && Lifeless(a, w) && Outstanding(Next(s, a), w)
    ensures Outstanding(s, w) || Revives(s, a, w) || Happens(RemovalBreaks, s, a, w)
  {
    if UnderRemoval(s, w) {
      NextStaysUnderRemoval(s, a, w);
    } else if BeingPinged(Next(s, a), w) && !BeingPinged(s, w) {
      assert a.Check? && a.worker == w;
    }
  }

  lemma NextCredit(s: System, a: Action, w: string)
    requires Inv(s) && Lifeless(a, w)
    ensures Once(RemovalBegins, s, a, w) + Credit(Next(s, a), w)
         <= Credit(s, w) + (if Revives(s, a, w) then 1 else 0) + Once(RemovalBreaks, s, a, w)
  {
    if Happens(RemovalBegins, s, a, w) { NextBegins(s, a, w); }
    if Outstanding(Next(s, a), w) { NextOutstanding(s, a, w); }
  }

  lemma FailedCheckCosts(s: System, a: Action, w: string)
    requires Inv(s) && Happens(CheckFails, s, a, w)
    ensures Patience(Next(s, a), w) < Patience(s, w)
  {
    assert s.tasks[a.task] == Pinging(w) && Checks(s.tasks[a.task], w);
    assert !UnderRemoval(s, w) && !BeingCleared(s, w);
    if Happens(RemovalBegins, s, a, w) {
      NextBegins(s, a, w);
    } else {
      assert !BeingCleared(Next(s, a), w);
    }
  }

  lemma PatienceKept(s: System, a: Action, w: string)
    requires Inv(s) && Enabled(s, a) && Outstanding(s, w)
    requires !Happens(CheckFails, s, a, w) && !Happens(CheckPasses, s, a, w)
    ensures Patience(Next(s, a), w) <= Patience(s, w)
  {
    if a.Clear? && s.tasks[a.task].worker == w {
      assert s.tasks[a.task] == Clearing(w);
    } else {
      CountKept(s, a, w);
    }
    ClearingIsNotNew(s, a, w);
  }

  lemma CountKept(s: System, a: Action, w: string)
    requires Enabled(s, a) && !Happens(CheckFails, s, a, w) && !Happens(CheckPasses, s, a, w)
    requires !(a.Clear? && s.tasks[a.task].worker == w)
    ensures CountOf(Next(s, a).counts, w) == CountOf(s.counts, w)
  {}

  lemma ClearingIsNotNew(s: System, a: Action, w: string)
    requires Enabled(s, a) && !UnderRemoval(s, w)
    ensures BeingCleared(Next(s, a), w) ==> BeingCleared(s, w)
  {}

  lemma NextPatience(s: System, a: Action, w: string)
    requires Inv(s) && Lifeless(a, w) && !Happens(CheckPasses, s, a, w)
    ensures Once(CheckFails, s, a, w) + Patience(Next(s, a), w)
         <= Patience(s, w) + (if Revives(s, a, w) then MAX_FAILURES else 0) + Once(RemovalBreaks, s, a, w)
  {
    var s' := Next(s, a);
    if Happens(CheckFails, s, a, w) {
      FailedCheckCosts(s, a, w);
    } else if Enabled(s, a) && Outstanding(s', w) {
      NextOutstanding(s, a, w);
      if Outstanding(s, w) {
        PatienceKept(s, a, w);
      } else if Happens(RemovalBreaks, s, a, w) {
        BrokenRemovalLeavesOne(s, a, w);
      }
    }
  }

  lemma BrokenRemovalLeavesOne(s: System, a: Action, w: string)
    requires Inv(s) && Happens(RemovalBreaks, s, a, w)
    ensures Patience(Next(s, a), w) <= 1
  {
    var s' := Next(s, a);
    assert Checks(s.tasks[a.task], w);
    assert forall id :: id in s'.tasks ==> s'.tasks[id] == s.tasks[id] && !Checks(s.tasks[id], w);
  }

  // ---- Whole runs ------------------------------------------------------------------------

  /**
   A dead worker reappears at most once for each gateway or shutdown task that
   finishes its business with it, and once for each deletion by somebody else that
   falls between the HGET and the HSET of its removal.
   */
  lemma {:induction false} ReturnsBounded(s: System, acts: seq<Action>, w: string)
    requires Inv(s) && !Routable(s, w) && NeverRegisters(acts, w) && NeverShutsDown(acts, w)
    ensures Times(Return, s, acts, w) + |Owing(Exec(s, acts), w)| + StaleCopies(Exec(s, acts), w)
         <= |Owing(s, w)| + StaleCopies(s, w) + Times(Undercut, s, acts, w)
    decreases |acts|
  {
    if acts != [] {
      TailNeverRegisters(acts, w);
      TailNeverShutsDown(acts, w);
      NextOwing(s, acts[0], w);
      NextStale(s, acts[0], w);
      NextStaysUnroutable(s, acts[0], w);
      NextKeepsInv(s, acts[0]);
      ReturnsBounded(Next(s, acts[0]), acts[1..], w);
    }
  }

  /**
   Once a dead worker has been removed, each gateway or shutdown task that still
   held it brings it back at most once, if nobody undercuts a later removal.
   */
  lemma OncePerHolder(s: System, acts: seq<Action>, w: string)
    requires Inv(s) && w !in s.hash && !RemovalHolds(s, w) && NeverRegisters(acts, w) && NeverShutsDown(acts, w)
    requires Times(Undercut, s, acts, w) == 0
    ensures Times(Return, s, acts, w) <= |Owing(s, w)|
  {
    ReturnsBounded(s, acts, w);
  }

  // A run in which a dead worker reappears although no gateway or shutdown task has
  // any business with it.

  function Check1(w: string): seq<Action> { [Check(1, w), Pong(1, false)] }

  lemma ExecTwo(s: System, a: Action, b: Action)
    ensures Exec(s, [a, b]) == Next(Next(s, a), b)
  {
    assert [a, b] == [a] + [b] && [b] == [b] + [];
    ExecFirst(s, a, [b]);
    ExecFirst(Next(s, a), b, []);
  }

  lemma FailsCheck(s: System, w: string)
    requires s.tasks == map[] && w in s.hash
    ensures Exec(s, Check1(w)) == Answered(s.(tasks := map[1 := Pinging(w)]), 1, w, false)
  {
    ExecTwo(s, Check(1, w), Pong(1, false));
  }

  lemma ExecThree(s: System, a: Action, b: Action, c: Action)
    ensures Exec(s, [a, b, c]) == Next(Next(Next(s, a), b), c)
  {
    assert [a, b, c] == [a] + [b, c];
    ExecFirst(s, a, [b, c]);
    ExecTwo(Next(s, a), b, c);
  }

  /** A worker that registers, fails three checks, and whose removal is broken off by its row update. */
  function Failing(v: Worker): seq<Action> {
    [Register(v)] + (Check1(v.id) + (Check1(v.id) + (Check1(v.id) + [Get(1), Set(1), Fault(1)])))
  }

  lemma FailsTwice(v: Worker)
    ensures Exec(EMPTY, [Register(v)] + (Check1(v.id) + Check1(v.id)))
         == System(0.0, map[v.id := v], map[], map[v.id := 2])
  {
    var w := v.id;
    ExecFirst(EMPTY, Register(v), Check1(w) + Check1(w));
    var s1 := Next(EMPTY, Register(v));
    assert s1 == System(0.0, map[w := v], map[], map[]);
    ExecAppend(s1, Check1(w), Check1(w));
    FailsCheck(s1, w);
    var s2 := Exec(s1, Check1(w));
    assert s2 == System(0.0, map[w := v], map[], map[w := 1]);
    FailsCheck(s2, w);
  }

  lemma RemovalBroken(s: System, w: string)
    requires s.tasks == map[] && w in s.hash && CountOf(s.counts, w) == 2
    ensures Exec(s, Check1(w) + [Get(1), Set(1), Fault(1)])
         == s.(hash := s.hash[w := s.hash[w].(status := UNHEALTHY)], counts := s.counts[w := 3])
  {
    ExecAppend(s, Check1(w), [Get(1), Set(1), Fault(1)]);
    FailsCheck(s, w);
    var s1 := Exec(s, Check1(w));
    assert s1 == s.(tasks := map[1 := Removal(Pending(w, UNHEALTHY))], counts := s.counts[w := 3]);
    ExecThree(s1, Get(1), Set(1), Fault(1));
  }

  lemma FailsThrice(v: Worker)
    ensures Exec(EMPTY, Failing(v))
         == System(0.0, map[v.id := v.(status := UNHEALTHY)], map[], map[v.id := 3])
  {
    var w := v.id;
    var start, rest := [Register(v)] + (Check1(w) + Check1(w)), Check1(w) + [Get(1), Set(1), Fault(1)];
    assert Failing(v) == start + rest;
    ExecAppend(EMPTY, start, rest);
    FailsTwice(v);
    RemovalBroken(Exec(EMPTY, start), w);
  }

  lemma {:induction false} TimesAppend(o: Occasion, s: System, a: seq<Action>, b: seq<Action>, w: string)
    ensures Times(o, s, a + b, w) == Times(o, s, a, w) + Times(o, Exec(s, a), b, w)
    decreases |a|
  {
    if a == [] {
      assert a + b == b;
    } else {
      assert (a + b)[1..] == a[1..] + b;
      TimesAppend(o, Next(s, a[0]), a[1..], b, w);
    }
  }

  lemma UndercutReturns(s: System, w: string)
    requires w in s.hash && s.tasks == map[1 := Removal(Pending(w, UNHEALTHY))]
    ensures Times(Return, s, [Get(1), Delete(w), Set(1)], w) == 1
    ensures Owing(Exec(s, [Get(1), Delete(w), Set(1)]), w) == {}
  {
    ExecThree(s, Get(1), Delete(w), Set(1));
    var acts := [Get(1), Delete(w), Set(1)];
    var s1 := Next(s, Get(1));
    var s2 := Next(s1, Delete(w));
    assert acts[1..] == [Delete(w), Set(1)] && acts[1..][1..] == [Set(1)] && acts[1..][1..][1..] == [];
    assert Times(Return, s2, [Set(1)], w) == 1;
    assert Times(Return, s1, [Delete(w), Set(1)], w) == 1;
  }

  /**
   The failing input: after a removal that broke off, the next one reads the entry,
   an operator deletes it, and the removal writes it back. The dead worker reappears,
   with no gateway or shutdown task that ever held it.
   */
  lemma ReturnsWithoutHolder(v: Worker)
    ensures var s, w := Exec(EMPTY, Failing(v)), v.id;
            var acts := Check1(w) + [Get(1), Delete(w), Set(1)];
            && !Routable(s, w) && NeverRegisters(acts, w) && NeverShutsDown(acts, w)
            && Owing(s, w) == {} && !RemovalHolds(s, w) && Times(Return, s, acts, w) > |Owing(s, w)|
  {
    var w := v.id;
    FailsThrice(v);
    var s := Exec(EMPTY, Failing(v));
    FailsCheck(s, w);
    var s1 := Exec(s, Check1(w));
    assert s1.tasks == map[1 := Removal(Pending(w, UNHEALTHY))];
    UndercutReturns(s1, w);
    TimesAppend(Return, s, Check1(w), [Get(1), Delete(w), Set(1)], w);
    assert Owing(s, w) == {};
  }

  /**
   Every removal that begins is paid for by the one listing there was, by a
   gateway or shutdown task that finished its business with the worker, or by a
   removal that an error ended half-way.
   */
  lemma {:induction false} RemovalsBounded(s: System, acts: seq<Action>, w: string)
    requires Inv(s) && !Routable(s, w) && NeverRegisters(acts, w) && NeverShutsDown(acts, w)
    ensures Times(RemovalBegins, s, acts, w) + |Owing(Exec(s, acts), w)| + Credit(Exec(s, acts), w)
         <= |Owing(s, w)| + Credit(s, w) + Times(RemovalBreaks, s, acts, w)
    decreases |acts|
  {
    if acts != [] {
      TailNeverRegisters(acts, w);
      TailNeverShutsDown(acts, w);
      NextOwing(s, acts[0], w);
      NextCredit(s, acts[0], w);
      NextStaysUnroutable(s, acts[0], w);
      NextKeepsInv(s, acts[0]);
      RemovalsBounded(Next(s, acts[0]), acts[1..], w);
    }
  }

  /**
   A dead worker fails three checks for its listing and three for each task that
   may bring it back, plus one for each removal that an error ends half-way.
   */
  lemma {:induction false} FailedChecksBounded(s: System, acts: seq<Action>, w: string)
    requires Inv(s) && !Routable(s, w) && NeverRegisters(acts, w) && NeverShutsDown(acts, w)
    requires Times(CheckPasses, s, acts, w) == 0
    ensures Times(CheckFails, s, acts, w) + MAX_FAILURES * |Owing(Exec(s, acts), w)| + Patience(Exec(s, acts), w)
         <= MAX_FAILURES * |Owing(s, w)| + Patience(s, w) + Times(RemovalBreaks, s, acts, w)
    decreases |acts|
  {
    if acts != [] {
      TailNeverRegisters(acts, w);
      TailNeverShutsDown(acts, w);
      NextOwing(s, acts[0], w);
      NextPatience(s, acts[0], w);
      NextStaysUnroutable(s, acts[0], w);
      NextKeepsInv(s, acts[0]);
      FailedChecksBounded(Next(s, acts[0]), acts[1..], w);
    }
  }

  /**
   A dead worker never becomes routable; it reappears and fails checks only as
   often as the tasks that have business with it, and errors, allow; and when the
   last task that may write its entry is done, an absent entry is gone for good.
   */
  lemma DeadWorkerConverges(s: System, acts: seq<Action>, w: string)
    requires Inv(s) && !Routable(s, w) && NeverRegisters(acts, w) && NeverShutsDown(acts, w)
    requires Times(CheckPasses, s, acts, w) == 0
    ensures var s', broken := Exec(s, acts), Times(RemovalBreaks, s, acts, w);
            && !Routable(s', w)
            && Times(Return, s, acts, w) <= |Owing(s, w)| + StaleCopies(s, w) + Times(Undercut, s, acts, w)
            && Times(CheckFails, s, acts, w) <= 3 * |Owing(s, w)| + Patience(s, w) + broken
            && (w !in s'.hash && Writers(s', w) == {} ==> GoneForGood(s', w))
  {
    ReturnsBounded(s, acts, w);
    FailedChecksBounded(s, acts, w);
    NoResurrection(s, acts, w) by { assert NeverRegistersHealthy(acts, w); }
    var s' := Exec(s, acts);
    if w !in s'.hash && Writers(s', w) == {} {
      forall id | id in s'.tasks && Holds(s'.tasks[id])
        ensures s'.tasks[id].errand.worker != w
      {
        assert id !in Writers(s', w);
      }
      GoneForGoodIffUnheld(s', w);
    }
  }

  // ---- When the database refuses the row of every removal -----------------------------------

  /** No shutdown or removal is far enough to delete the entry. */
  ghost predicate NoDeletionPending(s: System, w: string) {
    forall id :: id in s.tasks ==>
      && !(s.tasks[id].Shutdown? && s.tasks[id].errand.worker == w)
      && !((s.tasks[id].Window? || s.tasks[id].Removing?) && s.tasks[id].worker == w)
  }

  predicate NeverDeleted(acts: seq<Action>, w: string) {
    forall i :: 0 <= i < |acts| && acts[i].Delete? ==> acts[i].worker != w
  }

  lemma NextKeepsEntry(s: System, a: Action, w: string)
    requires w in s.hash && NoDeletionPending(s, w) && !Happens(RowUpdated, s, a, w)
    requires (a.Delete? ==> a.worker != w) && (a.BeginShutdown? ==> a.worker != w)
    ensures w in Next(s, a).hash && NoDeletionPending(Next(s, a), w)
  {}

  /**
   While every row update of its removals raises, the checker never gets a worker
   out of the hash, however many checks it fails: only somebody else could delete it.
   */
  lemma {:induction false} NeverRemovedWithoutRow(s: System, acts: seq<Action>, w: string)
    requires w in s.hash && NoDeletionPending(s, w)
    requires Times(RowUpdated, s, acts, w) == 0 && NeverDeleted(acts, w) && NeverShutsDown(acts, w)
    ensures w in Exec(s, acts).hash
    decreases |acts|
  {
    if acts != [] {
      TailNeverShutsDown(acts, w);
      assert NeverDeleted(acts[1..], w) by {
        assert forall i :: 0 <= i < |acts[1..]| ==> acts[1..][i] == acts[i + 1];
      }
      NextKeepsEntry(s, acts[0], w);
      NeverRemovedWithoutRow(Next(s, acts[0]), acts[1..], w);
    }
  }
}
