/** The results about whole runs of the request path, for every schedule. */
module PipelineTheorems {
  import opened Common
  import opened CacheKey
  import opened Analyst
  import opened Pipeline
  import opened PipelineProofs
  import CB = CircuitBreaker
  import G = Guard
  import C = Counters

  // ---- Discipline of one task ------------------------------------------------

  /**
   A task asks the breaker at most once, records at most one success or failure
   and only if it was admitted, calls Gemini at most three times and only if it
   was admitted, and counts a fail-open exactly when it ends in a fail-open verdict.
   */
  lemma TaskDiscipline(cfg: Config, acts: seq<Action>, id: nat)
    requires id in Exec(cfg, Start(cfg), acts).tasks
    ensures var t := Exec(cfg, Start(cfg), acts).tasks[id];
            && t.tally.admissions <= t.tally.asks <= 1
            && t.tally.successes + t.tally.failures <= t.tally.admissions
            && t.tally.calls <= MAX_ATTEMPTS * t.tally.admissions
            && (t.phase.Settled? ==>
                  t.tally.failOpens == if t.phase.outcome.Judged? && t.phase.outcome.source.FailedOpen? then 1 else 0)
            && (t.phase.Settled? && (t.phase.outcome.Passed? || t.phase.outcome.source.FromCache?) ==> t.tally == UNTOUCHED)
  {
    Reachable(cfg, acts);
    assert TaskOk(cfg, Exec(cfg, Start(cfg), acts), Exec(cfg, Start(cfg), acts).tasks[id]);
  }

  /** In a running worker, too, admission is decided by its own recorded history alone. */
  lemma AdmissionFollowsHistory(cfg: Config, acts: seq<Action>, id: nat, setup: Option<string>)
    requires var s := Exec(cfg, Start(cfg), acts);
             && id in s.tasks && s.tasks[id].phase.Fetched? && s.tasks[id].phase.cached.None?
    ensures var s := Exec(cfg, Start(cfg), acts);
            var trip := CB.TrippedAt(cfg.breaker, EventsOf(s, s.tasks[id].worker));
            Next(cfg, s, Go(id, Resume(setup))).tasks[id].phase.Admitted?
            <==> !(trip.Some? && s.clock - trip.value <= cfg.breaker.resetTimeout)
  {
    var s := Exec(cfg, Start(cfg), acts);
    Reachable(cfg, acts);
    NewWorkerOk(cfg, s.clock);
    CB.AdmissionRefinesHistory(cfg.breaker, EventsOf(s, s.tasks[id].worker), s.clock);
  }

  // ---- The breaker's history is what happened to the exchanges ------------------------

  /**
   With this move the task's exchange with Gemini ends in a timeout, or in an error
   that mentions a server-error code and is not retried as a rate limit.
   */
  predicate Faults(t: Task, m: Move) {
    match m
    case Answer(Raised(Timeout)) => true
    case Answer(Raised(Error(e))) => ServerError(e) && !(Contains(e, "429") && t.phase.Calling? && t.phase.attempt < 2)
    case Answer(Text(Err(e))) => ServerError(e)
    case Begin => t.phase.Admitted? && t.phase.setup.Some? && ServerError(t.phase.setup.value)
    case _ => false
  }

  /** ... or in a reply that parses. */
  predicate Succeeds(m: Move) { m.Answer? && m.reply.Text? && m.reply.parsed.Ok? }

  function EndedBy(t: Task, m: Move, now: real): seq<CB.Event> {
    if Faults(t, m) then [CB.Failure(now)] else if Succeeds(m) then [CB.Success] else []
  }

  function Ended(cfg: Config, s: Plane, a: Action, w: nat): seq<CB.Event> {
    if a.Go? && Enabled(cfg, s, a) && s.tasks[a.id].worker == w then EndedBy(s.tasks[a.id], a.move, s.clock) else []
  }

  /** How the worker's exchanges ended in a run, and when. */
  function Exchanges(cfg: Config, s: Plane, acts: seq<Action>, w: nat): seq<CB.Event>
    decreases |acts|
  {
    if acts == [] then [] else Ended(cfg, s, acts[0], w) + Exchanges(cfg, Next(cfg, s, acts[0]), acts[1..], w)
  }

  lemma RecordsAppend(es: seq<CB.Event>, e: CB.Event)
    ensures CB.Records(es + [e]) == CB.Records(es) + if e.Ask? then [] else [e]
  {
    assert (es + [e])[..|es|] == es;
  }

  lemma MoveEnds(cfg: Config, v: View, id: nat, t: Task, m: Move)
    requires Ready(cfg, t, m)
    ensures var e := Moved(cfg, v, id, t, m).event;
            EndedBy(t, m, v.clock) == if e.Some? && !e.value.Ask? then [e.value] else []
  {
    if m.Answer? && m.reply.Raised? { CountsIffServerError(m.reply.failure); }
    if m.Answer? && m.reply.Text? && m.reply.parsed.Err? { CountsIffServerError(Error(m.reply.parsed.error)); }
    if m.Begin? && t.phase.setup.Some? { CountsIffServerError(Error(t.phase.setup.value)); }
  }

  lemma ApplyRecords(cfg: Config, s: Plane, id: nat, e: Effect, w: nat)
    ensures CB.Records(EventsOf(Apply(cfg, s, id, e), w)) == CB.Records(EventsOf(s, w))
            + if e.task.worker == w && e.event.Some? && !e.event.value.Ask? then [e.event.value] else []
  {
    ObservedAppends(cfg, s, id, e, w);
    if e.task.worker == w && e.event.Some? { RecordsAppend(EventsOf(s, w), e.event.value); }
  }

  lemma GoRecords(cfg: Config, s: Plane, id: nat, m: Move, w: nat)
    requires id in s.tasks && Ready(cfg, s.tasks[id], m)
    ensures CB.Records(EventsOf(Next(cfg, s, Go(id, m)), w)) == CB.Records(EventsOf(s, w)) + Ended(cfg, s, Go(id, m), w)
  {
    var t := s.tasks[id];
    var v := Sees(cfg, s, t);
    MoveIsLocal(cfg, v, id, t, m);
    MoveEnds(cfg, v, id, t, m);
    ApplyRecords(cfg, s, id, Moved(cfg, v, id, t, m), w);
  }

  lemma NextRecords(cfg: Config, s: Plane, a: Action, w: nat)
    ensures CB.Records(EventsOf(Next(cfg, s, a), w)) == CB.Records(EventsOf(s, w)) + Ended(cfg, s, a, w)
  {
    if Enabled(cfg, s, a) && a.Go? {
      GoRecords(cfg, s, a.id, a.move, w);
    } else {
      assert EventsOf(Next(cfg, s, a), w) == EventsOf(s, w);
    }
  }

  /**
   In every run the history of a worker's breaker is, without its requests for
   admission, exactly how its exchanges with Gemini ended: each timeout and each
   server error that is not retried is a failure at its time, each parsed reply a
   success, and nothing else is recorded.
   */
  lemma {:induction false} HistoryIsExchanges(cfg: Config, s: Plane, acts: seq<Action>, w: nat)
    ensures CB.Records(EventsOf(Exec(cfg, s, acts), w)) == CB.Records(EventsOf(s, w)) + Exchanges(cfg, s, acts, w)
    decreases |acts|
  {
    if acts != [] {
      var s1 := Next(cfg, s, acts[0]);
      NextRecords(cfg, s, acts[0], w);
      HistoryIsExchanges(cfg, s1, acts[1..], w);
      Regroup(CB.Records(EventsOf(s, w)), Ended(cfg, s, acts[0], w), Exchanges(cfg, s1, acts[1..], w));
    }
  }

  lemma Regroup<T>(a: seq<T>, b: seq<T>, c: seq<T>)
    ensures (a + b) + c == a + (b + c)
  {}

  /** Refused from the third fault on, for 60 seconds; admitted before and after. */
  predicate RefusedAfterThree(p: Phase, faults: seq<CB.Event>, now: real, setup: Option<string>) {
    p == if |faults| >= 3 && faults[2].Failure? && now - faults[2].at <= 60.0
         then Failing("Gemini circuit breaker open — request passed (fail-open policy)") else Admitted(setup)
  }

  /**
   Three timeouts or server errors since the last success, whatever else the tasks do
   in between: the next request that misses the cache is refused for 60 seconds from
   the third, and admitted before the third and after the 60 seconds.
   */
  lemma ThreeFaultsRefuse(cfg: Config, before: seq<Action>, acts: seq<Action>, s0: Plane, s: Plane, id: nat,
                          setup: Option<string>)
    requires cfg.breaker == CB.Settings(3, 60.0)
    requires s0 == Exec(cfg, Start(cfg), before) && s == Exec(cfg, s0, acts)
    requires id in s.tasks && s.tasks[id].phase.Fetched? && s.tasks[id].phase.cached.None?
    requires CB.Settled(Exchanges(cfg, Start(cfg), before, s.tasks[id].worker))
    requires CB.OnlyFailures(Exchanges(cfg, s0, acts, s.tasks[id].worker))
    ensures RefusedAfterThree(Next(cfg, s, Go(id, Resume(setup))).tasks[id].phase,
                              Exchanges(cfg, s0, acts, s.tasks[id].worker), s.clock, setup)
  {
    var w := s.tasks[id].worker;
    RecordsOfRun(cfg, before, acts, s0, s, w);
    RefusedByRecords(cfg, s, id, setup, Exchanges(cfg, Start(cfg), before, w), Exchanges(cfg, s0, acts, w));
  }

  lemma RecordsOfRun(cfg: Config, before: seq<Action>, acts: seq<Action>, s0: Plane, s: Plane, w: nat)
    requires s0 == Exec(cfg, Start(cfg), before) && s == Exec(cfg, s0, acts)
    ensures CB.Records(EventsOf(s, w)) == Exchanges(cfg, Start(cfg), before, w) + Exchanges(cfg, s0, acts, w)
    ensures Inv(cfg, s)
  {
    ReachableRecords(cfg, before, s0, w);
    HistoryIsExchanges(cfg, s0, acts, w);
    ExecKeepsInv(cfg, s0, acts);
  }

  lemma ReachableRecords(cfg: Config, acts: seq<Action>, s: Plane, w: nat)
    requires s == Exec(cfg, Start(cfg), acts)
    ensures CB.Records(EventsOf(s, w)) == Exchanges(cfg, Start(cfg), acts, w) && Inv(cfg, s)
  {
    HistoryIsExchanges(cfg, Start(cfg), acts, w);
    assert CB.Records(EventsOf(Start(cfg), w)) == [];
    Reachable(cfg, acts);
  }

  lemma RefusedByRecords(cfg: Config, s: Plane, id: nat, setup: Option<string>, before: seq<CB.Event>, faults: seq<CB.Event>)
    requires Inv(cfg, s) && cfg.breaker == CB.Settings(3, 60.0)
    requires id in s.tasks && s.tasks[id].phase.Fetched? && s.tasks[id].phase.cached.None?
    requires CB.Records(EventsOf(s, s.tasks[id].worker)) == before + faults && CB.Settled(before) && CB.OnlyFailures(faults)
    ensures RefusedAfterThree(Next(cfg, s, Go(id, Resume(setup))).tasks[id].phase, faults, s.clock, setup)
  {
    var w := s.tasks[id].worker;
    NewWorkerOk(cfg, s.clock);
    assert LocalOk(cfg, At(cfg, s, w), s.clock) && At(cfg, s, w).events == EventsOf(s, w);
    CB.ThirdStrike(EventsOf(s, w), before, faults, s.clock);
    ResumeAsks(cfg, s, id, setup);
    if |faults| >= 3 { assert faults[2] in faults; }
  }

  lemma ResumeAsks(cfg: Config, s: Plane, id: nat, setup: Option<string>)
    requires id in s.tasks && s.tasks[id].phase.Fetched? && s.tasks[id].phase.cached.None?
    ensures Next(cfg, s, Go(id, Resume(setup))).tasks[id].phase
         == if CB.Admits(cfg.breaker, At(cfg, s, s.tasks[id].worker).breaker, s.clock) then Admitted(setup) else Failing(REFUSED)
  {}

  // ---- The breaker's history is the tasks' own -----------------------------------

  function Succeeded(s: Plane, w: nat): set<nat> {
    set id | id in s.tasks && s.tasks[id].worker == w && s.tasks[id].tally.successes > 0
  }

  function Faulted(s: Plane, w: nat): set<nat> {
    set id | id in s.tasks && s.tasks[id].worker == w && s.tasks[id].tally.failures > 0
  }

  ghost predicate EventsOfTasks(s: Plane, w: nat) {
    CB.Successes(EventsOf(s, w)) == |Succeeded(s, w)| && CB.Failures(EventsOf(s, w)) == |Faulted(s, w)|
  }

  lemma MoveRecords(cfg: Config, v: View, id: nat, t: Task, m: Move)
    requires Ready(cfg, t, m) && TallyFits(t.phase, t.tally)
    ensures var e := Moved(cfg, v, id, t, m);
            var y, y' := t.tally, e.task.tally;
            && (if e.event == Some(CB.Success) then y.successes == 0 && y'.successes == 1 else y'.successes == y.successes)
            && (if e.event.Some? && e.event.value.Failure? then y.failures == 0 && y'.failures == 1
                else y'.failures == y.failures)
  {}

  lemma SucceededAfter(cfg: Config, s: Plane, id: nat, e: Effect, w: nat)
    requires id in s.tasks && Onward(s.tasks[id], e.task)
    requires var y, y' := s.tasks[id].tally.successes, e.task.tally.successes; y' == y || (y == 0 && y' == 1)
    ensures var y, y' := s.tasks[id].tally.successes, e.task.tally.successes;
            Succeeded(Apply(cfg, s, id, e), w) == Succeeded(s, w) + if e.task.worker == w && y' != y then {id} else {}
    ensures var y, y' := s.tasks[id].tally.successes, e.task.tally.successes; y' != y ==> id !in Succeeded(s, w)
  {}

  lemma FaultedAfter(cfg: Config, s: Plane, id: nat, e: Effect, w: nat)
    requires id in s.tasks && Onward(s.tasks[id], e.task)
    requires var y, y' := s.tasks[id].tally.failures, e.task.tally.failures; y' == y || (y == 0 && y' == 1)
    ensures var y, y' := s.tasks[id].tally.failures, e.task.tally.failures;
            Faulted(Apply(cfg, s, id, e), w) == Faulted(s, w) + if e.task.worker == w && y' != y then {id} else {}
    ensures var y, y' := s.tasks[id].tally.failures, e.task.tally.failures; y' != y ==> id !in Faulted(s, w)
  {}

  lemma SuccessCounted(es: seq<CB.Event>, e: Option<CB.Event>, done: set<nat>, id: nat)
    requires CB.Successes(es) == |done| && (e == Some(CB.Success) ==> id !in done)
    ensures CB.Successes(if e.Some? then es + [e.value] else es) == |done + if e == Some(CB.Success) then {id} else {}|
  {
    if e.Some? { assert (es + [e.value])[..|es|] == es; }
    assert done + {} == done;
  }

  lemma FailureCounted(es: seq<CB.Event>, e: Option<CB.Event>, done: set<nat>, id: nat)
    requires CB.Failures(es) == |done| && (e.Some? && e.value.Failure? ==> id !in done)
    ensures CB.Failures(if e.Some? then es + [e.value] else es)
         == |done + if e.Some? && e.value.Failure? then {id} else {}|
  {
    if e.Some? { assert (es + [e.value])[..|es|] == es; }
    assert done + {} == done;
  }

  lemma ApplyCountsSuccesses(cfg: Config, s: Plane, id: nat, e: Effect, w: nat)
    requires CB.Successes(EventsOf(s, w)) == |Succeeded(s, w)| && id in s.tasks && Onward(s.tasks[id], e.task)
    requires var y, y' := s.tasks[id].tally.successes, e.task.tally.successes;
             if e.event == Some(CB.Success) then y == 0 && y' == 1 else y' == y
    ensures CB.Successes(EventsOf(Apply(cfg, s, id, e), w)) == |Succeeded(Apply(cfg, s, id, e), w)|
  {
    ObservedAppends(cfg, s, id, e, w);
    SucceededAfter(cfg, s, id, e, w);
    SuccessCounted(EventsOf(s, w), if e.task.worker == w then e.event else None, Succeeded(s, w), id);
  }

  lemma ApplyCountsFailures(cfg: Config, s: Plane, id: nat, e: Effect, w: nat)
    requires CB.Failures(EventsOf(s, w)) == |Faulted(s, w)| && id in s.tasks && Onward(s.tasks[id], e.task)
    requires var y, y' := s.tasks[id].tally.failures, e.task.tally.failures;
             if e.event.Some? && e.event.value.Failure? then y == 0 && y' == 1 else y' == y
    ensures CB.Failures(EventsOf(Apply(cfg, s, id, e), w)) == |Faulted(Apply(cfg, s, id, e), w)|
  {
    ObservedAppends(cfg, s, id, e, w);
    FaultedAfter(cfg, s, id, e, w);
    FailureCounted(EventsOf(s, w), if e.task.worker == w then e.event else None, Faulted(s, w), id);
  }

  /** A move adds its event, if it has one, to the history of its own worker only. */
  lemma ObservedAppends(cfg: Config, s: Plane, id: nat, e: Effect, w: nat)
    ensures var es, es' := EventsOf(s, w), EventsOf(Apply(cfg, s, id, e), w);
            if e.task.worker == w && e.event.Some? then es' == es + [e.event.value] && es'[..|es'| - 1] == es else es' == es
  {}

  lemma GoKeepsEvents(cfg: Config, s: Plane, id: nat, m: Move, w: nat)
    requires id in s.tasks && Ready(cfg, s.tasks[id], m) && TallyFits(s.tasks[id].phase, s.tasks[id].tally)
    requires EventsOfTasks(s, w)
    ensures EventsOfTasks(Next(cfg, s, Go(id, m)), w)
  {
    var t := s.tasks[id];
    var v := Sees(cfg, s, t);
    MoveIsLocal(cfg, v, id, t, m);
    MoveRecords(cfg, v, id, t, m);
    ApplyCountsSuccesses(cfg, s, id, Moved(cfg, v, id, t, m), w);
    ApplyCountsFailures(cfg, s, id, Moved(cfg, v, id, t, m), w);
  }

  lemma NextKeepsEvents(cfg: Config, s: Plane, a: Action, w: nat)
    requires Inv(cfg, s) && EventsOfTasks(s, w)
    ensures EventsOfTasks(Next(cfg, s, a), w)
  {
    if Enabled(cfg, s, a) && a.Go? {
      assert TaskOk(cfg, s, s.tasks[a.id]);
      GoKeepsEvents(cfg, s, a.id, a.move, w);
    } else {
      OtherKeepsEvents(cfg, s, a, w);
    }
  }

  lemma OtherKeepsEvents(cfg: Config, s: Plane, a: Action, w: nat)
    requires EventsOfTasks(s, w) && !(Enabled(cfg, s, a) && a.Go?)
    ensures EventsOfTasks(Next(cfg, s, a), w)
  {
    assert EventsOf(Next(cfg, s, a), w) == EventsOf(s, w);
    assert Succeeded(Next(cfg, s, a), w) == Succeeded(s, w) && Faulted(Next(cfg, s, a), w) == Faulted(s, w);
  }

  lemma {:induction false} ExecKeepsEvents(cfg: Config, s: Plane, acts: seq<Action>, w: nat)
    requires Inv(cfg, s) && EventsOfTasks(s, w)
    ensures EventsOfTasks(Exec(cfg, s, acts), w)
    decreases |acts|
  {
    if acts != [] {
      NextKeepsInv(cfg, s, acts[0]);
      NextKeepsEvents(cfg, s, acts[0], w);
      ExecKeepsEvents(cfg, Next(cfg, s, acts[0]), acts[1..], w);
    }
  }

  /**
   Each opening of a worker's breaker costs a full trip count of its tasks that
   recorded a failure, and there is at most one more opening than tasks of it that
   recorded a success. Tasks of other workers never matter.
   */
  lemma OpeningsCostTasks(cfg: Config, acts: seq<Action>, w: nat)
    ensures var s := Exec(cfg, Start(cfg), acts);
            && CB.Openings(cfg.breaker, EventsOf(s, w)) * CB.TripCount(cfg.breaker) <= |Faulted(s, w)|
            && CB.Openings(cfg.breaker, EventsOf(s, w)) <= |Succeeded(s, w)| + 1
  {
    var s0 := Start(cfg);
    Reachable(cfg, []);
    assert Exec(cfg, s0, []) == s0;
    assert Succeeded(s0, w) == {} && Faulted(s0, w) == {};
    ExecKeepsEvents(cfg, s0, acts, w);
    CB.OpeningsBounded(cfg.breaker, EventsOf(Exec(cfg, s0, acts), w));
  }

  // ---- Draining while the breaker is open -------------------------------------

  /** Tasks admitted by the breaker whose Gemini exchange is not over. */
  predicate Inside(p: Phase) { p.Admitted? || p.Calling? || p.BackingOff? }

  function InGemini(s: Plane, w: nat): set<nat> {
    set id | id in s.tasks && s.tasks[id].worker == w && Inside(s.tasks[id].phase)
  }

  /** The worker's breaker is open, and was opened less than the timeout before `until`. */
  predicate Shut(cfg: Config, s: Plane, w: nat, until: real) {
    var b := At(cfg, s, w).breaker;
    b.mode == CB.Open && s.clock <= until && until - b.openedAt <= cfg.breaker.resetTimeout
  }

  /** The breaker events of the worker in `s'` that `s` did not have yet. */
  function Since(s: Plane, s': Plane, w: nat): seq<CB.Event> {
    if |EventsOf(s, w)| <= |EventsOf(s', w)| then EventsOf(s', w)[|EventsOf(s, w)|..] else []
  }

  lemma MoveStaysOut(cfg: Config, v: View, id: nat, t: Task, m: Move)
    requires Ready(cfg, t, m) && !CB.Admits(cfg.breaker, v.breaker, v.clock)
    ensures Inside(Moved(cfg, v, id, t, m).task.phase) ==> Inside(t.phase)
  {}

  lemma ApplyStaysShut(cfg: Config, s: Plane, id: nat, e: Effect, w: nat, until: real)
    requires Shut(cfg, s, w, until)
    requires e.task.worker == w && e.event.Some? ==> e.event.value != CB.Success
    requires e.event.Some? && e.event.value.Ask? ==> e.event.value.at == s.clock
    ensures Shut(cfg, Apply(cfg, s, id, e), w, until)
    ensures At(cfg, Apply(cfg, s, id, e), w).breaker.openedAt == At(cfg, s, w).breaker.openedAt
  {}

  lemma GoDrains(cfg: Config, s: Plane, id: nat, m: Move, w: nat, until: real)
    requires Shut(cfg, s, w, until) && Enabled(cfg, s, Go(id, m))
    requires CB.Success !in Since(s, Next(cfg, s, Go(id, m)), w)
    ensures var s' := Next(cfg, s, Go(id, m));
            && Shut(cfg, s', w, until) && InGemini(s', w) <= InGemini(s, w)
            && At(cfg, s', w).breaker.openedAt == At(cfg, s, w).breaker.openedAt
  {
    var s' := Next(cfg, s, Go(id, m));
    var t := s.tasks[id];
    var v := Sees(cfg, s, t);
    var e := Moved(cfg, v, id, t, m);
    MoveIsLocal(cfg, v, id, t, m);
    ObservedAppends(cfg, s, id, e, w);
    if t.worker == w {
      MoveStaysOut(cfg, v, id, t, m);
      if e.event.Some? {
        assert Since(s, s', w) == [e.event.value];
        assert e.event.value in Since(s, s', w);
      }
    }
    ApplyStaysShut(cfg, s, id, e, w, until);
  }

  lemma NextDrains(cfg: Config, s: Plane, a: Action, w: nat, until: real)
    requires Shut(cfg, s, w, until) && Next(cfg, s, a).clock <= until
    requires CB.Success !in Since(s, Next(cfg, s, a), w)
    ensures var s' := Next(cfg, s, a);
            && Shut(cfg, s', w, until) && InGemini(s', w) <= InGemini(s, w)
            && At(cfg, s', w).breaker.openedAt == At(cfg, s, w).breaker.openedAt
  {
    if Enabled(cfg, s, a) && a.Go? { GoDrains(cfg, s, a.id, a.move, w, until); }
  }

  lemma SinceAdds(cfg: Config, s: Plane, a: Action, s': Plane, w: nat)
    requires Extends(Next(cfg, s, a), s')
    ensures Since(s, s', w) == Since(s, Next(cfg, s, a), w) + Since(Next(cfg, s, a), s', w)
  {
    NextExtends(cfg, s, a);
    EventsGrow(s, Next(cfg, s, a), w);
    EventsGrow(Next(cfg, s, a), s', w);
    SuffixAdds(EventsOf(s, w), EventsOf(Next(cfg, s, a), w), EventsOf(s', w));
  }

  lemma EventsGrow(s: Plane, s': Plane, w: nat)
    requires Extends(s, s')
    ensures EventsOf(s, w) <= EventsOf(s', w)
  {}

  lemma SuffixAdds<T>(a: seq<T>, b: seq<T>, c: seq<T>)
    requires a <= b <= c
    ensures c[|a|..] == b[|a|..] + c[|b|..]
  {}

  /**
   While a worker's breaker stays open (it records no success and the timeout has
   not passed) no task of it enters the Gemini exchange: the ones inside can only leave.
   */
  lemma {:induction false} OpenBreakerOnlyDrains(cfg: Config, s: Plane, acts: seq<Action>, w: nat)
    requires At(cfg, s, w).breaker.mode == CB.Open
    requires CB.Success !in Since(s, Exec(cfg, s, acts), w)
    requires Exec(cfg, s, acts).clock - At(cfg, s, w).breaker.openedAt <= cfg.breaker.resetTimeout
    ensures InGemini(Exec(cfg, s, acts), w) <= InGemini(s, w)
    decreases |acts|
  {
    if acts != [] {
      var s1 := Next(cfg, s, acts[0]);
      var s' := Exec(cfg, s, acts);
      NextExtends(cfg, s, acts[0]);
      ExecExtends(cfg, s1, acts[1..]);
      SinceAdds(cfg, s, acts[0], s', w);
      NextDrains(cfg, s, acts[0], w, s'.clock);
      OpenBreakerOnlyDrains(cfg, s1, acts[1..], w);
    }
  }

  // ---- Cache coherence ---------------------------------------------------------

  /**
   Every verdict served from the cache repeats, apart from `from_cache`, the
   verdict of an earlier task of any worker with the same key whose own Gemini call
   produced it, stored no longer ago than its time to live.
   */
  lemma CacheCoherence(cfg: Config, acts: seq<Action>, id: nat)
    requires var s := Exec(cfg, Start(cfg), acts);
             && id in s.tasks && s.tasks[id].phase.Settled?
             && s.tasks[id].phase.outcome.Judged? && s.tasks[id].phase.outcome.source.FromCache?
    ensures var s := Exec(cfg, Start(cfg), acts);
            var o := s.tasks[id].phase.outcome;
            var e := o.source.entry;
            && e.author in s.tasks
            && Key(cfg, s.tasks[e.author].ctx) == Key(cfg, s.tasks[id].ctx)
            && Concluded(s.tasks[e.author].phase)
            && s.tasks[e.author].phase.outcome == Judged(Fresh(e.doc), FromGemini(e.doc))
            && o.verdict == Fresh(e.doc).(fromCache := true)
            && o.verdict == Verdict(e.doc.isAttack, e.doc.attackType, e.doc.confidence, e.doc.explanation,
                                    e.doc.affectedParameter, e.doc.remediationHint, true)
            && e.storedAt <= o.source.at < e.storedAt + e.ttl
  {
    Reachable(cfg, acts);
    var s := Exec(cfg, Start(cfg), acts);
    assert TaskOk(cfg, s, s.tasks[id]);
  }

  /** No two texts of requests in the run have one digest. */
  ghost predicate NoCollision(cfg: Config, s: Plane) {
    forall i, j :: i in s.tasks && j in s.tasks && Key(cfg, s.tasks[i].ctx) == Key(cfg, s.tasks[j].ctx)
                   ==> Content(s.tasks[i].ctx) == Content(s.tasks[j].ctx)
  }

  /**
   A verdict is served only to a request with the same method, path, query and first
   512 body characters as the one it was given for, if those have no colon and the
   digest does not collide.
   */
  lemma ServedToSameRequest(cfg: Config, acts: seq<Action>, id: nat)
    requires var s := Exec(cfg, Start(cfg), acts);
             && id in s.tasks && s.tasks[id].phase.Settled? && NoCollision(cfg, s)
             && s.tasks[id].phase.outcome.Judged? && s.tasks[id].phase.outcome.source.FromCache?
             && (forall i :: i in s.tasks ==>
                   ':' !in s.tasks[i].ctx.verb && ':' !in s.tasks[i].ctx.path && ':' !in s.tasks[i].ctx.query)
    ensures var s := Exec(cfg, Start(cfg), acts);
            var author := s.tasks[id].phase.outcome.source.entry.author;
            && author in s.tasks
            && var a, b := s.tasks[author].ctx, s.tasks[id].ctx;
               a.verb == b.verb && a.path == b.path && a.query == b.query && SameHead(a.body, b.body)
  {
    CacheCoherence(cfg, acts, id);
    var s := Exec(cfg, Start(cfg), acts);
    var author := s.tasks[id].phase.outcome.source.entry.author;
    SameTextIff(s.tasks[author].ctx, s.tasks[id].ctx);
  }

  /** The other half: requests that agree in those parts share their key, whatever else differs. */
  lemma SameRequestSameKey(cfg: Config, a: RequestContext, b: RequestContext)
    requires a.verb == b.verb && a.path == b.path && a.query == b.query && SameHead(a.body, b.body)
    ensures Key(cfg, a) == Key(cfg, b)
  {
    SameHeadIff(a.body, b.body);
  }

  /** The task holds a live entry that it will serve or not, or has done what such a task does. */
  predicate OnHit(t: Task, e: Entry, at: real) {
    if t.phase == Fetched(Some(e), at) then t.tally.asks == 0
    else if e.doc.fromCache.None? then
      t.tally.asks == 0 && Concluded(t.phase) && t.phase.outcome.Judged? && t.phase.outcome.source == FromCache(e, at)
    else t.tally.asks == 1
  }

  lemma MoveKeepsHit(cfg: Config, v: View, id: nat, t: Task, m: Move, e: Entry, at: real)
    requires Ready(cfg, t, m) && TallyFits(t.phase, t.tally) && OnHit(t, e, at)
    ensures OnHit(Moved(cfg, v, id, t, m).task, e, at)
  {}

  lemma NextKeepsHit(cfg: Config, s: Plane, a: Action, id: nat, e: Entry, at: real)
    requires id in s.tasks && TallyFits(s.tasks[id].phase, s.tasks[id].tally) && OnHit(s.tasks[id], e, at)
    ensures id in Next(cfg, s, a).tasks && OnHit(Next(cfg, s, a).tasks[id], e, at)
  {
    if Enabled(cfg, s, a) && a.Go? && a.id == id {
      MoveKeepsHit(cfg, Sees(cfg, s, s.tasks[id]), id, s.tasks[id], a.move, e, at);
    }
  }

  lemma HitOutcome(t: Task, e: Entry, at: real)
    requires OnHit(t, e, at) && TallyFits(t.phase, t.tally) && t.phase.Settled?
    ensures t.phase.outcome.Judged? && t.phase.outcome.source == FromCache(e, at) <==> e.doc.fromCache.None?
    ensures t.phase.outcome.Judged? && t.phase.outcome.source.FromCache? ==> e.doc.fromCache.None?
    ensures t.tally.asks == if e.doc.fromCache.None? then 0 else 1
  {}

  lemma {:induction false} ExecKeepsHit(cfg: Config, s: Plane, acts: seq<Action>, id: nat, e: Entry, at: real)
    requires Inv(cfg, s) && id in s.tasks && OnHit(s.tasks[id], e, at)
    ensures id in Exec(cfg, s, acts).tasks && OnHit(Exec(cfg, s, acts).tasks[id], e, at)
    decreases |acts|
  {
    if acts != [] {
      assert TaskOk(cfg, s, s.tasks[id]);
      NextKeepsHit(cfg, s, acts[0], id, e, at);
      NextKeepsInv(cfg, s, acts[0]);
      ExecKeepsHit(cfg, Next(cfg, s, acts[0]), acts[1..], id, e, at);
    }
  }

  /**
   However a run that reaches a live hit goes on: a settled task was served the
   entry if the stored document has no `from_cache` key of its own, and has asked
   the breaker instead if it has one.
   */
  lemma HitServedIffUnmarked(cfg: Config, before: seq<Action>, after: seq<Action>, id: nat, e: Entry, at: real)
    requires var s := Exec(cfg, Start(cfg), before); id in s.tasks && s.tasks[id].phase == Fetched(Some(e), at)
    requires var s := Exec(cfg, Exec(cfg, Start(cfg), before), after); id in s.tasks && s.tasks[id].phase.Settled?
    ensures var t := Exec(cfg, Exec(cfg, Start(cfg), before), after).tasks[id];
            && (t.phase.outcome.Judged? && t.phase.outcome.source == FromCache(e, at) <==> e.doc.fromCache.None?)
            && t.tally.asks == (if e.doc.fromCache.None? then 0 else 1)
            && (t.phase.outcome.Judged? && t.phase.outcome.source.FromCache? ==> e.doc.fromCache.None?)
  {
    Reachable(cfg, before);
    var s := Exec(cfg, Start(cfg), before);
    assert TallyFits(s.tasks[id].phase, s.tasks[id].tally) by { assert TaskOk(cfg, s, s.tasks[id]); }
    ExecKeepsHit(cfg, s, after, id, e, at);
    ExecKeepsInv(cfg, s, after);
    var t := Exec(cfg, s, after).tasks[id];
    assert TallyFits(t.phase, t.tally) by { assert TaskOk(cfg, Exec(cfg, s, after), t); }
    HitOutcome(t, e, at);
  }

  /** In no run is any request served from a document that carries the key. */
  lemma MarkedNeverServed(cfg: Config, acts: seq<Action>, id: nat)
    requires var s := Exec(cfg, Start(cfg), acts);
             && id in s.tasks && s.tasks[id].phase.Settled?
             && s.tasks[id].phase.outcome.Judged? && s.tasks[id].phase.outcome.source.FromCache?
    ensures Exec(cfg, Start(cfg), acts).tasks[id].phase.outcome.source.entry.doc.fromCache.None?
  {
    Reachable(cfg, acts);
    var s := Exec(cfg, Start(cfg), acts);
    assert TaskOk(cfg, s, s.tasks[id]);
  }

  // A run in which it happens: one task caches such a document, the next one fetches it.

  function Moves(id: nat, ms: seq<Move>): seq<Action> {
    if ms == [] then [] else [Go(id, ms[0])] + Moves(id, ms[1..])
  }

  function Suspicious(score: real): seq<Move> { [ReadThreshold, Infer(G.Scored(score)), Fetch(true)] }

  function Cached(doc: Document): seq<Move> {
    [Resume(None), Begin, Answer(Text(Ok(doc))), ReadTtl(Some(300)), Store(true), Respond]
  }

  lemma ExecFirst(cfg: Config, s: Plane, a: Action, rest: seq<Action>)
    ensures Exec(cfg, s, [a] + rest) == Exec(cfg, Next(cfg, s, a), rest)
  {
    assert ([a] + rest)[1..] == rest;
  }

  /** A run of one task that starts in a phase, makes a move and then the rest. */
  lemma MovesFirst(cfg: Config, s: Plane, id: nat, ms: seq<Move>)
    requires ms != []
    ensures Exec(cfg, s, Moves(id, ms)) == Exec(cfg, Next(cfg, s, Go(id, ms[0])), Moves(id, ms[1..]))
  {
    ExecFirst(cfg, s, Go(id, ms[0]), Moves(id, ms[1..]));
  }

  /** Nothing but the requests has changed. */
  ghost predicate OnlyTasks(cfg: Config, s: Plane, s': Plane) {
    s'.cache == s.cache && s'.clock == s.clock && forall v :: At(cfg, s', v) == At(cfg, s, v)
  }

  lemma Arrives(cfg: Config, s: Plane, id: nat, w: nat, ctx: RequestContext)
    requires id !in s.tasks
    ensures var s' := Next(cfg, Next(cfg, s, Arrive(id, w, ctx)), Go(id, ReadThreshold));
            && OnlyTasks(cfg, s, s')
            && s'.tasks == s.tasks[id := Task(w, ctx, Scoring, At(cfg, s, w).threshold, G.Crashed, UNTOUCHED)]
  {}

  lemma Stops(cfg: Config, s: Plane, id: nat, score: real)
    requires id in s.tasks && s.tasks[id].phase == Scoring && cfg.mayScore(s.tasks[id].ctx, score)
    requires s.tasks[id].threshold.Number? && score >= s.tasks[id].threshold.value
    ensures var s' := Next(cfg, s, Go(id, Infer(G.Scored(score))));
            && OnlyTasks(cfg, s, s')
            && s'.tasks == s.tasks[id := s.tasks[id].(phase := Suspect, inference := G.Scored(score))]
  {}

  lemma Looks(cfg: Config, s: Plane, id: nat)
    requires id in s.tasks && s.tasks[id].phase == Suspect
    ensures var s' := Next(cfg, s, Go(id, Fetch(true)));
            && OnlyTasks(cfg, s, s')
            && s'.tasks == s.tasks[id := s.tasks[id].(phase := Fetched(Live(cfg, s, s.tasks[id].ctx), s.clock))]
  {}

  /** A fresh request is scored, found suspicious, and fetches what the cache holds for it. */
  lemma Fetches(cfg: Config, s: Plane, id: nat, w: nat, ctx: RequestContext, score: real)
    requires id !in s.tasks && At(cfg, s, w) == NewWorker(cfg) && score >= cfg.sensitivity && cfg.mayScore(ctx, score)
    ensures var s' := Exec(cfg, s, [Arrive(id, w, ctx)] + Moves(id, Suspicious(score)));
            && OnlyTasks(cfg, s, s')
            && s'.tasks == s.tasks[id := Task(w, ctx, Fetched(Live(cfg, s, ctx), s.clock), G.Number(cfg.sensitivity),
                                              G.Scored(score), UNTOUCHED)]
  {
    var rest := [Infer(G.Scored(score)), Fetch(true)];
    assert Suspicious(score) == [ReadThreshold] + rest;
    ArrivesFirst(cfg, s, id, w, ctx, rest);
    Arrives(cfg, s, id, w, ctx);
    var s1 := Next(cfg, Next(cfg, s, Arrive(id, w, ctx)), Go(id, ReadThreshold));
    ScoredAndFetched(cfg, s, s1, id, w, ctx, score);
  }

  lemma ScoredAndFetched(cfg: Config, s: Plane, s1: Plane, id: nat, w: nat, ctx: RequestContext, score: real)
    requires OnlyTasks(cfg, s, s1) && score >= cfg.sensitivity && cfg.mayScore(ctx, score)
    requires s1.tasks == s.tasks[id := Task(w, ctx, Scoring, G.Number(cfg.sensitivity), G.Crashed, UNTOUCHED)]
    ensures var s' := Exec(cfg, s1, Moves(id, [Infer(G.Scored(score)), Fetch(true)]));
            && OnlyTasks(cfg, s, s')
            && s'.tasks == s.tasks[id := Task(w, ctx, Fetched(Live(cfg, s, ctx), s.clock), G.Number(cfg.sensitivity),
                                              G.Scored(score), UNTOUCHED)]
  {
    StopsAndFetches(cfg, s1, id, score);
    OnlyTasksTwice(cfg, s, s1, Exec(cfg, s1, Moves(id, [Infer(G.Scored(score)), Fetch(true)])), ctx);
  }

  lemma OnlyTasksTwice(cfg: Config, s: Plane, s': Plane, s'': Plane, ctx: RequestContext)
    requires OnlyTasks(cfg, s, s') && OnlyTasks(cfg, s', s'')
    ensures OnlyTasks(cfg, s, s'') && Live(cfg, s', ctx) == Live(cfg, s, ctx)
  {}

  lemma ArrivesFirst(cfg: Config, s: Plane, id: nat, w: nat, ctx: RequestContext, rest: seq<Move>)
    ensures var s' := Next(cfg, Next(cfg, s, Arrive(id, w, ctx)), Go(id, ReadThreshold));
            Exec(cfg, s, [Arrive(id, w, ctx)] + Moves(id, [ReadThreshold] + rest)) == Exec(cfg, s', Moves(id, rest))
  {
    var ms := [ReadThreshold] + rest;
    assert ms[1..] == rest;
    ExecFirst(cfg, s, Arrive(id, w, ctx), Moves(id, ms));
    MovesFirst(cfg, Next(cfg, s, Arrive(id, w, ctx)), id, ms);
  }

  lemma StopsAndFetches(cfg: Config, s: Plane, id: nat, score: real)
    requires id in s.tasks && s.tasks[id].phase == Scoring && cfg.mayScore(s.tasks[id].ctx, score)
    requires s.tasks[id].threshold.Number? && score >= s.tasks[id].threshold.value
    ensures var s', t := Exec(cfg, s, Moves(id, [Infer(G.Scored(score)), Fetch(true)])), s.tasks[id];
            && OnlyTasks(cfg, s, s')
            && s'.tasks == s.tasks[id := t.(phase := Fetched(Live(cfg, s, t.ctx), s.clock), inference := G.Scored(score))]
  {
    var ms := [Infer(G.Scored(score)), Fetch(true)];
    MovesFirst(cfg, s, id, ms);
    var s1 := Next(cfg, s, Go(id, ms[0]));
    Stops(cfg, s, id, score);
    MovesFirst(cfg, s1, id, ms[1..]);
    Looks(cfg, s1, id);
    var s2 := Next(cfg, s1, Go(id, ms[1]));
    assert Exec(cfg, s2, Moves(id, [])) == s2;
  }

  /** After a miss with a closed breaker, Gemini's document ends up in the cache. */
  lemma Caches(cfg: Config, s: Plane, id: nat, doc: Document)
    requires id in s.tasks && s.tasks[id].phase.Fetched? && s.tasks[id].phase.cached.None?
    requires At(cfg, s, s.tasks[id].worker).breaker.mode == CB.Closed && cfg.mayReply(s.tasks[id].ctx, doc)
    ensures HasCached(cfg, s, Exec(cfg, s, Moves(id, Cached(doc))), id, doc)
  {
    var ms := Cached(doc);
    MovesFirst(cfg, s, id, ms);
    Admits(cfg, s, id);
    var s1 := Next(cfg, s, Go(id, ms[0]));
    MovesFirst(cfg, s1, id, ms[1..]);
    Calls(cfg, s1, id);
    var s2 := Next(cfg, s1, Go(id, ms[1]));
    Replies(cfg, s2, id, doc);
  }

  /** The task is where it should be, and nothing outside its worker has changed. */
  ghost predicate Reached(cfg: Config, s: Plane, s': Plane, id: nat, p: Phase)
    requires id in s.tasks
  {
    && s'.tasks.Keys == s.tasks.Keys && s'.clock == s.clock && s'.cache == s.cache
    && s'.tasks[id].phase == p && s'.tasks[id].worker == s.tasks[id].worker && s'.tasks[id].ctx == s.tasks[id].ctx
    && forall v :: v != s.tasks[id].worker ==> At(cfg, s', v) == At(cfg, s, v)
  }

  lemma Admits(cfg: Config, s: Plane, id: nat)
    requires id in s.tasks && s.tasks[id].phase.Fetched? && s.tasks[id].phase.cached.None?
    requires At(cfg, s, s.tasks[id].worker).breaker.mode == CB.Closed
    ensures Reached(cfg, s, Next(cfg, s, Go(id, Resume(None))), id, Admitted(None))
  {}

  lemma Calls(cfg: Config, s: Plane, id: nat)
    requires id in s.tasks && s.tasks[id].phase == Admitted(None)
    ensures Reached(cfg, s, Next(cfg, s, Go(id, Begin)), id, Calling(0))
  {}

  /** The task has stored the document, and other workers have noticed nothing else. */
  ghost predicate HasCached(cfg: Config, s: Plane, s': Plane, id: nat, doc: Document)
    requires id in s.tasks
  {
    var key := Key(cfg, s.tasks[id].ctx);
    && s'.tasks.Keys == s.tasks.Keys && s'.clock == s.clock
    && (forall v :: v != s.tasks[id].worker ==> At(cfg, s', v) == At(cfg, s, v))
    && key in s'.cache && s'.cache[key] == Entry(doc, s.clock, 300.0, id)
  }

  lemma Replies(cfg: Config, s: Plane, id: nat, doc: Document)
    requires id in s.tasks && s.tasks[id].phase == Calling(0) && cfg.mayReply(s.tasks[id].ctx, doc)
    ensures HasCached(cfg, s, Exec(cfg, s, Moves(id, Cached(doc)[2..])), id, doc)
  {
    var ms := Cached(doc)[2..];
    MovesFirst(cfg, s, id, ms);
    var s1 := Next(cfg, s, Go(id, ms[0]));
    assert s1.tasks[id].phase == Recorded(doc);
    assert ms[1..] == Cached(doc)[3..];
    Stores(cfg, s1, id, doc);
  }

  lemma Stores(cfg: Config, s: Plane, id: nat, doc: Document)
    requires id in s.tasks && s.tasks[id].phase == Recorded(doc)
    ensures HasCached(cfg, s, Exec(cfg, s, Moves(id, Cached(doc)[3..])), id, doc)
  {
    var ms := Cached(doc)[3..];
    MovesFirst(cfg, s, id, ms);
    var s1 := Next(cfg, s, Go(id, ms[0]));
    assert ms[1..] == [Store(true), Respond];
    Writes(cfg, s1, id, doc);
  }

  lemma Writes(cfg: Config, s: Plane, id: nat, doc: Document)
    requires id in s.tasks && s.tasks[id].phase == Writing(doc, 300.0)
    ensures HasCached(cfg, s, Exec(cfg, s, Moves(id, [Store(true), Respond])), id, doc)
  {
    var ms := [Store(true), Respond];
    MovesFirst(cfg, s, id, ms);
    Puts(cfg, s, id, doc);
    var s1 := Next(cfg, s, Go(id, ms[0]));
    MovesFirst(cfg, s1, id, ms[1..]);
    Answers(cfg, s1, id);
    var s2 := Next(cfg, s1, Go(id, ms[1]));
    assert Exec(cfg, s2, Moves(id, [])) == s2;
  }

  lemma Puts(cfg: Config, s: Plane, id: nat, doc: Document)
    requires id in s.tasks && s.tasks[id].phase == Writing(doc, 300.0)
    ensures var s' := Next(cfg, s, Go(id, Store(true)));
            HasCached(cfg, s, s', id, doc) && s'.tasks[id].phase.Returned? && s'.tasks[id].worker == s.tasks[id].worker
  {}

  lemma Answers(cfg: Config, s: Plane, id: nat)
    requires id in s.tasks && s.tasks[id].phase.Returned?
    ensures var s' := Next(cfg, s, Go(id, Respond)); OnlyTasks(cfg, s, s') && s'.tasks.Keys == s.tasks.Keys
  {}

  /**
   The failing input: whenever a request can be scored as suspicious and Gemini may
   answer it with a document that carries `from_cache`, asking twice, even at two
   workers, caches that document, fetches it live, and goes to the breaker and to
   Gemini all the same.
   */
  lemma MarkedHitIsAskedAgain(cfg: Config, ctx: RequestContext, score: real, doc: Document)
    returns (acts: seq<Action>, entry: Entry)
    requires cfg.mayScore(ctx, score) && score >= cfg.sensitivity && cfg.mayReply(ctx, doc) && doc.fromCache.Some?
    ensures var s := Exec(cfg, Start(cfg), acts);
            && entry.doc == doc && 1 in s.tasks && s.tasks[1].worker == 1 && s.tasks[1].phase == Fetched(Some(entry), s.clock)
            && 0 in s.tasks && s.tasks[0].worker == 0 && entry.author == 0
            && Next(cfg, s, Go(1, Resume(None))).tasks[1].phase == Admitted(None)
  {
    var first, third := FirstAsks(ctx, score, doc), [Arrive(1, 1, ctx)] + Moves(1, Suspicious(score));
    CachesFirst(cfg, ctx, score, doc);
    var s2 := Exec(cfg, Start(cfg), first);
    entry := Entry(doc, 0.0, 300.0, 0);
    Fetches(cfg, s2, 1, 1, ctx, score);
    ExecAppend(cfg, Start(cfg), first, third);
    acts := first + third;
    MarkedGoesOn(cfg, Exec(cfg, s2, third), 1, entry);
  }

  lemma MarkedGoesOn(cfg: Config, s: Plane, id: nat, e: Entry)
    requires id in s.tasks && s.tasks[id].phase == Fetched(Some(e), s.clock) && e.doc.fromCache.Some?
    requires At(cfg, s, s.tasks[id].worker).breaker.mode == CB.Closed
    ensures Next(cfg, s, Go(id, Resume(None))).tasks[id].phase == Admitted(None)
  {}

  /** A request at the first worker, whose document ends up in the cache. */
  function FirstAsks(ctx: RequestContext, score: real, doc: Document): seq<Action> {
    ([Arrive(0, 0, ctx)] + Moves(0, Suspicious(score))) + Moves(0, Cached(doc))
  }

  lemma CachesFirst(cfg: Config, ctx: RequestContext, score: real, doc: Document)
    requires cfg.mayScore(ctx, score) && score >= cfg.sensitivity && cfg.mayReply(ctx, doc)
    ensures var s := Exec(cfg, Start(cfg), FirstAsks(ctx, score, doc));
            && s.clock == 0.0 && s.tasks.Keys == {0} && s.tasks[0].worker == 0 && At(cfg, s, 1) == NewWorker(cfg)
            && Live(cfg, s, ctx) == Some(Entry(doc, 0.0, 300.0, 0))
  {
    var s0 := Start(cfg);
    var first, second := [Arrive(0, 0, ctx)] + Moves(0, Suspicious(score)), Moves(0, Cached(doc));
    Fetches(cfg, s0, 0, 0, ctx, score);
    var s1 := Exec(cfg, s0, first);
    Caches(cfg, s1, 0, doc);
    ExecExtends(cfg, s1, second);
    ExecAppend(cfg, s0, first, second);
  }

  // ---- Refinement of the failure-free pipeline ------------------------------------

  /**
   The pipeline without cache, breaker or failures: block what the model scores
   at or above the threshold the operator meant and the analyser calls an attack.
   */
  predicate ReferenceBlocks(cfg: Config, model: RequestContext -> real, oracle: RequestContext -> Document,
                            meaning: string -> real, ctx: RequestContext, t: G.Threshold) {
    model(ctx) >= Limit(cfg, meaning, t) && oracle(ctx).isAttack
  }

  function Limit(cfg: Config, meaning: string -> real, t: G.Threshold): real {
    match t case Number(x) => x case Null => cfg.sensitivity case Text(c) => meaning(c)
  }

  /** Both models answer deterministically whenever they answer. */
  ghost predicate Deterministic(cfg: Config, model: RequestContext -> real, oracle: RequestContext -> Document) {
    && (forall c, x :: cfg.mayScore(c, x) ==> x == model(c))
    && (forall c, d :: cfg.mayReply(c, d) ==> d == oracle(c))
  }

  /** Requests seen in the run that share a cache key get the same analysis. */
  ghost predicate KeyDecides(cfg: Config, s: Plane, oracle: RequestContext -> Document) {
    forall i, j :: i in s.tasks && j in s.tasks && Key(cfg, s.tasks[i].ctx) == Key(cfg, s.tasks[j].ctx)
                   ==> oracle(s.tasks[i].ctx) == oracle(s.tasks[j].ctx)
  }

  predicate GuardFailedOpen(o: Outcome) { o.Passed? && o.guardFailed }

  predicate AnalystFailedOpen(o: Outcome) { o.Judged? && o.source.FailedOpen? }

  /** A verdict from Gemini or from the cache is the oracle's about this very request. */
  lemma JudgedByOracle(cfg: Config, s: Plane, id: nat, model: RequestContext -> real, oracle: RequestContext -> Document)
    requires id in s.tasks && s.tasks[id].phase.Settled? && DocFits(cfg, s, s.tasks[id])
    requires Deterministic(cfg, model, oracle) && KeyDecides(cfg, s, oracle)
    requires var o := s.tasks[id].phase.outcome; o.Judged? && !o.source.FailedOpen?
    ensures s.tasks[id].phase.outcome.verdict.isAttack == oracle(s.tasks[id].ctx).isAttack
  {
    var o := s.tasks[id].phase.outcome;
    if o.source.FromCache? {
      var e := o.source.entry;
      assert cfg.mayReply(s.tasks[e.author].ctx, e.doc);
      assert oracle(s.tasks[e.author].ctx) == oracle(s.tasks[id].ctx);
    }
  }

  /** Unless it failed open, the guard stops exactly what the model scores at or above the limit. */
  lemma GuardRefines(cfg: Config, t: Task, model: RequestContext -> real, meaning: string -> real)
    requires GuardFits(cfg, t) && t.phase.Settled?
    requires forall c, x :: cfg.mayScore(c, x) ==> x == model(c)
    ensures !GuardFailedOpen(t.phase.outcome) ==>
              (t.phase.outcome.Judged? <==> model(t.ctx) >= Limit(cfg, meaning, t.threshold))
  {}

  lemma OutcomeRefines(cfg: Config, s: Plane, id: nat, model: RequestContext -> real,
                       oracle: RequestContext -> Document, meaning: string -> real)
    requires id in s.tasks && s.tasks[id].phase.Settled?
    requires GuardFits(cfg, s.tasks[id]) && DocFits(cfg, s, s.tasks[id])
    requires Deterministic(cfg, model, oracle) && KeyDecides(cfg, s, oracle)
    ensures var t := s.tasks[id];
            var o := t.phase.outcome;
            IsBlocked(o) <==> ReferenceBlocks(cfg, model, oracle, meaning, t.ctx, t.threshold)
                              && !GuardFailedOpen(o) && !AnalystFailedOpen(o)
  {
    GuardRefines(cfg, s.tasks[id], model, meaning);
    var o := s.tasks[id].phase.outcome;
    if o.Judged? && !o.source.FailedOpen? {
      JudgedByOracle(cfg, s, id, model, oracle);
    }
  }

  /**
   For every schedule with failures anywhere: a request is blocked exactly when
   the failure-free pipeline would block it and neither stage failed open; an
   analyst fail-open is counted exactly once.
   */
  lemma EndToEndRefinement(cfg: Config, acts: seq<Action>, id: nat, model: RequestContext -> real,
                           oracle: RequestContext -> Document, meaning: string -> real)
    requires var s := Exec(cfg, Start(cfg), acts);
             && id in s.tasks && s.tasks[id].phase.Settled?
             && Deterministic(cfg, model, oracle) && KeyDecides(cfg, s, oracle)
    ensures var t := Exec(cfg, Start(cfg), acts).tasks[id];
            var o := t.phase.outcome;
            && (IsBlocked(o) <==> ReferenceBlocks(cfg, model, oracle, meaning, t.ctx, t.threshold)
                                  && !GuardFailedOpen(o) && !AnalystFailedOpen(o))
            && (AnalystFailedOpen(o) <==> t.tally.failOpens == 1)
            && t.tally.failOpens <= 1
  {
    Reachable(cfg, acts);
    var s := Exec(cfg, Start(cfg), acts);
    assert TaskOk(cfg, s, s.tasks[id]);
    OutcomeRefines(cfg, s, id, model, oracle, meaning);
    TaskDiscipline(cfg, acts, id);
  }

  /**
   When the key decides the analysis: the analysis looks only at method, path, query
   and the first 512 body characters,
   no method, path or query seen has a colon, and no two texts seen have one digest.
   */
  lemma KeyDecidesWithoutColons(cfg: Config, s: Plane, oracle: RequestContext -> Document)
    requires forall a: RequestContext, b: RequestContext :: a.verb == b.verb && a.path == b.path && a.query == b.query && SameHead(a.body, b.body)
                            ==> oracle(a) == oracle(b)
    requires forall i :: i in s.tasks ==>
               ':' !in s.tasks[i].ctx.verb && ':' !in s.tasks[i].ctx.path && ':' !in s.tasks[i].ctx.query
    requires NoCollision(cfg, s)
    ensures KeyDecides(cfg, s, oracle)
  {
    forall i, j | i in s.tasks && j in s.tasks && Key(cfg, s.tasks[i].ctx) == Key(cfg, s.tasks[j].ctx)
      ensures oracle(s.tasks[i].ctx) == oracle(s.tasks[j].ctx)
    {
      SameTextIff(s.tasks[i].ctx, s.tasks[j].ctx);
    }
  }

  // ---- Thresholds published by the settings API ------------------------------------

  predicate OnlyStrings(acts: seq<Action>, w: nat) {
    forall i :: 0 <= i < |acts| && acts[i].Configure? && acts[i].worker == w ==> acts[i].threshold.Text?
  }

  /** The task has not read its threshold yet, or it read a string and goes nowhere but through. */
  predicate PassedOnString(t: Task) {
    t.phase.Arrived? || (t.threshold.Text? && (t.phase.Scoring? || (Concluded(t.phase) && t.phase.outcome == Passed(true))))
  }

  /** No task of the worker has read anything but a string since. */
  predicate OnString(s: Plane, w: nat, id: nat) {
    id in s.tasks && s.tasks[id].worker == w ==> PassedOnString(s.tasks[id])
  }

  lemma NextOnString(cfg: Config, s: Plane, a: Action, w: nat, id: nat)
    requires At(cfg, s, w).threshold.Text? && OnString(s, w, id)
    requires a.Configure? && a.worker == w ==> a.threshold.Text?
    ensures At(cfg, Next(cfg, s, a), w).threshold.Text? && OnString(Next(cfg, s, a), w, id)
  {
    if Enabled(cfg, s, a) && a.Go? {
      MoveIsLocal(cfg, Sees(cfg, s, s.tasks[a.id]), a.id, s.tasks[a.id], a.move);
    }
  }

  /**
   From the moment a string threshold is in force in a worker, and as long as only
   strings are published, every request of it that reads its threshold is let through.
   */
  lemma {:induction false} StringThresholdBlocksNothing(cfg: Config, s: Plane, acts: seq<Action>, w: nat, id: nat)
    requires At(cfg, s, w).threshold.Text? && OnlyStrings(acts, w) && OnString(s, w, id)
    ensures OnString(Exec(cfg, s, acts), w, id)
    decreases |acts|
  {
    if acts != [] {
      assert OnlyStrings(acts[1..], w) by {
        assert forall i :: 0 <= i < |acts[1..]| ==> acts[1..][i] == acts[i + 1];
      }
      NextOnString(cfg, s, acts[0], w, id);
      StringThresholdBlocksNothing(cfg, Next(cfg, s, acts[0]), acts[1..], w, id);
    }
  }

  // ---- Counters of the running workers ----------------------------------------------

  /** Settled requests whose own counter command took effect. */
  ghost function Counted(s: Plane): set<nat> {
    set id | id in s.tasks && s.tasks[id].phase.Settled? && id in s.stats.jobs && s.stats.jobs[id].second.Applied?
  }

  ghost function CountedClean(s: Plane): set<nat> {
    set id | id in Counted(s) && s.tasks[id].phase.outcome.Passed?
  }

  ghost function CountedFalsePositive(s: Plane): set<nat> {
    set id | id in Counted(s) && s.tasks[id].phase.outcome.Judged? && !s.tasks[id].phase.outcome.verdict.isAttack
  }

  ghost function CountedBlocked(s: Plane): set<nat> {
    set id | id in Counted(s) && s.tasks[id].phase.outcome.Judged? && s.tasks[id].phase.outcome.verdict.isAttack
  }

  /**
   At every moment the counters account for the settled requests: each counter is
   the number of requests with that outcome whose command took effect, the totals
   balance, and incident rows are blocked requests that were counted.
   */
  lemma CountersAccountForRequests(cfg: Config, acts: seq<Action>)
    ensures var s := Exec(cfg, Start(cfg), acts);
            && (forall id :: id in s.stats.jobs <==> id in s.tasks && s.tasks[id].phase.Settled?)
            && s.stats.clean == |CountedClean(s)|
            && s.stats.falsePositives == |CountedFalsePositive(s)|
            && s.stats.blocked == |CountedBlocked(s)|
            && s.stats.incidents <= CountedBlocked(s)
            && s.stats.total + |C.OnlySecond(s.stats)|
               == s.stats.clean + s.stats.falsePositives + s.stats.blocked + |C.OnlyFirst(s.stats)|
  {
    Reachable(cfg, acts);
    var s := Exec(cfg, Start(cfg), acts);
    C.Balance(s.stats);
    assert CountedClean(s) == C.SecondApplied(s.stats, C.Clean);
    assert CountedFalsePositive(s) == C.SecondApplied(s.stats, C.FalsePositive);
    assert CountedBlocked(s) == C.SecondApplied(s.stats, C.Blocked);
  }
}
