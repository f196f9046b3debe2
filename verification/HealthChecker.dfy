/**
 The health checker's table against the history of a worker's checks, in every
 run of the shared hash: rounds check all workers at once and anything may
 interleave.
 */
module HealthChecker {
  import opened WorkerHash
  import opened DeadWorker

  /** Failed checks since the last successful one. */
  function Trailing(checks: seq<bool>): nat {
    if checks == [] || checks[|checks| - 1] then 0 else 1 + Trailing(checks[..|checks| - 1])
  }

  /** The last check is a third failure in a row, a sixth, and so on. */
  predicate AtThird(checks: seq<bool>) { Trailing(checks) > 0 && Trailing(checks) % 3 == 0 }

  function Thirds(checks: seq<bool>): nat {
    if checks == [] then 0 else Thirds(checks[..|checks| - 1]) + if AtThird(checks) then 1 else 0
  }

  /** The outcomes of the worker's checks, oldest first. */
  function Answers(s: System, acts: seq<Action>, w: string): seq<bool>
    decreases |acts|
  {
    if acts == [] then [] else Answer(s, acts[0], w) + Answers(Next(s, acts[0]), acts[1..], w)
  }

  function Answer(s: System, a: Action, w: string): seq<bool> {
    if Happens(CheckPasses, s, a, w) then [true] else if Happens(CheckFails, s, a, w) then [false] else []
  }

  lemma HistoryGrows(h: seq<bool>, ok: bool)
    ensures Trailing(h + [ok]) == if ok then 0 else Trailing(h) + 1
    ensures Thirds(h + [ok]) == Thirds(h) + if AtThird(h + [ok]) then 1 else 0
  {
    assert (h + [ok])[..|h|] == h;
  }

  // ---- With errors anywhere ---------------------------------------------------------

  lemma NextCountBelow(s: System, a: Action, h: seq<bool>, w: string)
    requires CountOf(s.counts, w) <= Trailing(h)
    ensures CountOf(Next(s, a).counts, w) <= Trailing(h + Answer(s, a, w))
    ensures Happens(RemovalBegins, s, a, w) ==> Trailing(h + Answer(s, a, w)) >= MAX_FAILURES
  {
    if Answer(s, a, w) == [] {
      assert h + [] == h;
    } else {
      HistoryGrows(h, Answer(s, a, w)[0]);
    }
  }

  /** At least one of any three consecutive checks passed. */
  predicate OneInThree(checks: seq<bool>) {
    forall i :: 0 <= i < |checks| - 2 ==> checks[i] || checks[i + 1] || checks[i + 2]
  }

  lemma {:induction false} TrailingAllFailed(checks: seq<bool>, k: nat)
    requires k <= Trailing(checks)
    ensures k <= |checks| && forall i :: |checks| - k <= i < |checks| ==> !checks[i]
  {
    if k > 0 { TrailingAllFailed(checks[..|checks| - 1], k - 1); }
  }

  lemma LongRunBreaksRule(checks: seq<bool>, more: seq<bool>)
    requires Trailing(checks) >= MAX_FAILURES
    ensures !OneInThree(checks + more)
  {
    TrailingAllFailed(checks, MAX_FAILURES);
    var i, all := |checks| - MAX_FAILURES, checks + more;
    assert !all[i] && !all[i + 1] && !all[i + 2];
  }

  lemma {:induction false} CountBelow(s: System, acts: seq<Action>, h: seq<bool>, w: string)
    requires CountOf(s.counts, w) <= Trailing(h) && OneInThree(h + Answers(s, acts, w))
    ensures Times(RemovalBegins, s, acts, w) == 0
    decreases |acts|
  {
    if acts != [] {
      var s1 := Next(s, acts[0]);
      var h1 := h + Answer(s, acts[0], w);
      assert h1 + Answers(s1, acts[1..], w) == h + Answers(s, acts, w);
      NextCountBelow(s, acts[0], h, w);
      if Trailing(h1) >= MAX_FAILURES { LongRunBreaksRule(h1, Answers(s1, acts[1..], w)); }
      CountBelow(s1, acts[1..], h1, w);
    }
  }

  /** A worker that passes one of any three consecutive checks is never removed, whatever errors occur. */
  lemma OneInThreeSuffices(acts: seq<Action>, w: string)
    requires OneInThree(Answers(EMPTY, acts, w))
    ensures Times(RemovalBegins, EMPTY, acts, w) == 0
  {
    assert [] + Answers(EMPTY, acts, w) == Answers(EMPTY, acts, w);
    CountBelow(EMPTY, acts, [], w);
  }

  // ---- Without errors of the checker's own calls --------------------------------------

  /** A Redis or database call of the checker about this worker raises. */
  predicate Errs(s: System, a: Action, w: string) {
    Enabled(s, a) && a.Fault? && Checks(s.tasks[a.task], w)
  }

  predicate Errorless(s: System, acts: seq<Action>, w: string)
    decreases |acts|
  {
    acts == [] || (!Errs(s, acts[0], w) && Errorless(Next(s, acts[0]), acts[1..], w))
  }

  ghost predicate Expelling(s: System, w: string) {
    exists id :: id in s.tasks && Checks(s.tasks[id], w) && !s.tasks[id].Pinging?
  }

  /** The count is the run of failures modulo three; it stands at three while a removal is under way. */
  ghost predicate HistoryOk(s: System, h: seq<bool>, w: string) {
    if Expelling(s, w) then CountOf(s.counts, w) == MAX_FAILURES && AtThird(h)
    else CountOf(s.counts, w) == Trailing(h) % MAX_FAILURES
  }

  lemma CheckKeepsHistory(s: System, a: Action, h: seq<bool>, w: string, ok: bool)
    requires Inv(s) && HistoryOk(s, h, w) && Enabled(s, a) && CheckOf(s, a, w, ok)
    ensures HistoryOk(Next(s, a), h + [ok], w)
    ensures Happens(RemovalBegins, s, a, w) <==> AtThird(h + [ok])
  {
    var s' := Next(s, a);
    assert s.tasks[a.task] == Pinging(w) && Checks(s.tasks[a.task], w);
    assert !Expelling(s, w);
    HistoryGrows(h, ok);
    if Happens(RemovalBegins, s, a, w) {
      assert Checks(s'.tasks[a.task], w);
    } else {
      assert !Expelling(s', w);
    }
  }

  lemma OtherKeepsHistory(s: System, a: Action, h: seq<bool>, w: string)
    requires Inv(s) && HistoryOk(s, h, w) && Enabled(s, a) && !Errs(s, a, w)
    requires !Happens(CheckPasses, s, a, w) && !Happens(CheckFails, s, a, w)
    ensures HistoryOk(Next(s, a), h, w)
  {
    var s' := Next(s, a);
    if a.Clear? && s.tasks[a.task].worker == w {
      assert Checks(s.tasks[a.task], w);
      assert forall id :: id in s'.tasks ==> id in s.tasks && s'.tasks[id] == s.tasks[id];
      assert !Expelling(s', w);
    } else {
      assert CountOf(s'.counts, w) == CountOf(s.counts, w);
      if Expelling(s, w) { ExpellingGoesOn(s, a, w); }
      if Expelling(s', w) { ExpellingIsNotNew(s, a, w); }
    }
  }

  lemma ExpellingGoesOn(s: System, a: Action, w: string)
    requires Enabled(s, a) && !Errs(s, a, w) && !(a.Clear? && s.tasks[a.task].worker == w) && Expelling(s, w)
    ensures Expelling(Next(s, a), w)
  {
    var s' := Next(s, a);
    var id :| id in s.tasks && Checks(s.tasks[id], w) && !s.tasks[id].Pinging?;
    assert id in s'.tasks && Checks(s'.tasks[id], w) && !s'.tasks[id].Pinging?;
  }

  lemma ExpellingIsNotNew(s: System, a: Action, w: string)
    requires Enabled(s, a) && !Happens(CheckFails, s, a, w) && Expelling(Next(s, a), w)
    ensures Expelling(s, w)
  {
    var s' := Next(s, a);
    var id :| id in s'.tasks && Checks(s'.tasks[id], w) && !s'.tasks[id].Pinging?;
    NextKeepsChecks(s, a, id, w);
    assert id in s.tasks && Checks(s.tasks[id], w) && !s.tasks[id].Pinging?;
  }

  lemma NextKeepsHistory(s: System, a: Action, h: seq<bool>, w: string)
    requires Inv(s) && HistoryOk(s, h, w) && !Errs(s, a, w)
    ensures HistoryOk(Next(s, a), h + Answer(s, a, w), w)
    ensures Thirds(h + Answer(s, a, w)) == Thirds(h) + Once(RemovalBegins, s, a, w)
  {
    if Answer(s, a, w) == [] {
      assert h + [] == h;
      if Enabled(s, a) { OtherKeepsHistory(s, a, h, w); }
    } else {
      CheckKeepsHistory(s, a, h, w, Answer(s, a, w)[0]);
      HistoryGrows(h, Answer(s, a, w)[0]);
    }
  }

  lemma {:induction false} ExecKeepsHistory(s: System, acts: seq<Action>, h: seq<bool>, w: string)
    requires Inv(s) && HistoryOk(s, h, w) && Errorless(s, acts, w)
    ensures HistoryOk(Exec(s, acts), h + Answers(s, acts, w), w)
    ensures Thirds(h + Answers(s, acts, w)) == Thirds(h) + Times(RemovalBegins, s, acts, w)
    decreases |acts|
  {
    if acts == [] {
      assert h + [] == h;
    } else {
      var s1 := Next(s, acts[0]);
      var h1 := h + Answer(s, acts[0], w);
      assert h1 + Answers(s1, acts[1..], w) == h + Answers(s, acts, w);
      NextKeepsHistory(s, acts[0], h, w);
      NextKeepsInv(s, acts[0]);
      ExecKeepsHistory(s1, acts[1..], h1, w);
    }
  }

  /**
   In every run in which the checker's own calls about a worker succeed: its
   removals are exactly the third failed checks in a row, and unless one is under
   way its count is its run of failures modulo three.
   */
  lemma RefinesHistory(acts: seq<Action>, w: string)
    requires Errorless(EMPTY, acts, w)
    ensures var s, checks := Exec(EMPTY, acts), Answers(EMPTY, acts, w);
            && Times(RemovalBegins, EMPTY, acts, w) == Thirds(checks)
            && (!Expelling(s, w) ==> CountOf(s.counts, w) == Trailing(checks) % 3)
            && (Expelling(s, w) ==> AtThird(checks))
  {
    assert [] + Answers(EMPTY, acts, w) == Answers(EMPTY, acts, w);
    ExecKeepsHistory(EMPTY, acts, [], w);
  }

  // ---- Three failures are enough, whatever goes wrong -------------------------------------

  /** How many more failed checks a worker can have without a removal, plus one. */
  ghost function Slack(s: System, w: string): nat {
    if Expelling(s, w) then MAX_FAILURES else ChecksLeft(CountOf(s.counts, w))
  }

  lemma ExpellingHasCount(s: System, w: string)
    requires Inv(s) && Expelling(s, w)
    ensures CountOf(s.counts, w) >= MAX_FAILURES
  {}

  lemma FailureUsesSlack(s: System, a: Action, w: string)
    requires Inv(s) && Happens(CheckFails, s, a, w)
    ensures 1 + Slack(Next(s, a), w) <= Slack(s, w) + MAX_FAILURES * Once(RemovalBegins, s, a, w)
  {
    var s' := Next(s, a);
    assert s.tasks[a.task] == Pinging(w) && Checks(s.tasks[a.task], w);
    assert !Expelling(s, w);
    if !Happens(RemovalBegins, s, a, w) {
      assert forall id :: id in s'.tasks ==> id in s.tasks && s'.tasks[id] == s.tasks[id];
      assert !Expelling(s', w);
    }
  }

  lemma NextSlack(s: System, a: Action, w: string)
    requires Inv(s) && !Happens(CheckPasses, s, a, w)
    ensures Once(CheckFails, s, a, w) + Slack(Next(s, a), w)
         <= Slack(s, w) + MAX_FAILURES * Once(RemovalBegins, s, a, w)
  {
    if Enabled(s, a) && a.Clear? && s.tasks[a.task].worker == w { ClearEndsExpelling(s, a, w); }
    if Happens(CheckFails, s, a, w) {
      FailureUsesSlack(s, a, w);
    } else if Enabled(s, a) && !Expelling(s, w) {
      if Expelling(Next(s, a), w) { ExpellingIsNotNew(s, a, w); }
      CountKept(s, a, w);
    }
  }

  lemma ClearEndsExpelling(s: System, a: Action, w: string)
    requires Enabled(s, a) && a.Clear? && s.tasks[a.task].worker == w
    ensures Expelling(s, w)
  {
    assert Checks(s.tasks[a.task], w);
  }

  lemma {:induction false} ExecSlack(s: System, acts: seq<Action>, w: string)
    requires Inv(s) && Times(CheckPasses, s, acts, w) == 0
    ensures Times(CheckFails, s, acts, w) + Slack(Exec(s, acts), w)
         <= Slack(s, w) + MAX_FAILURES * Times(RemovalBegins, s, acts, w)
    decreases |acts|
  {
    if acts != [] {
      NextSlack(s, acts[0], w);
      NextKeepsInv(s, acts[0]);
      ExecSlack(Next(s, acts[0]), acts[1..], w);
    }
  }

  /**
   After any run, with any errors and interleaving: of the checks that a worker
   fails without passing one, every third begins a removal of it, at the latest.
   */
  lemma ThreeFailuresRemove(before: seq<Action>, acts: seq<Action>, w: string)
    requires Times(CheckPasses, Exec(EMPTY, before), acts, w) == 0
    ensures var s := Exec(EMPTY, before);
            Times(RemovalBegins, s, acts, w) >= Times(CheckFails, s, acts, w) / 3
  {
    ExecKeepsInv(EMPTY, before);
    ExecSlack(Exec(EMPTY, before), acts, w);
  }
}
