/** What every interleaving of the request path keeps, and what it refines. */
module PipelineProofs {
  import opened Common
  import opened CacheKey
  import opened Analyst
  import opened Pipeline
  import CB = CircuitBreaker
  import G = Guard
  import C = Counters

  // ---- The invariant ---------------------------------------------------------

  /** How much a task may have done by the time it is in a phase. */
  predicate TallyFits(p: Phase, y: Tally) {
    match p
    case Arrived | Scoring | Suspect | Fetched(_, _) => y == UNTOUCHED
    case Admitted(_) => y == Tally(1, 1, 0, 0, 0, 0)
    case Calling(k) => k < MAX_ATTEMPTS && y == Tally(1, 1, k + 1, 0, 0, 0)
    case BackingOff(k) => k < MAX_ATTEMPTS - 1 && y == Tally(1, 1, k + 1, 0, 0, 0)
    case Recorded(_) | Writing(_, _) => 1 <= y.calls <= MAX_ATTEMPTS && y == Tally(1, 1, y.calls, 1, 0, 0)
    case Failing(_) => FailedTally(y)
    case Returned(o) => OutcomeTally(o, y)
    case Settled(o) => OutcomeTally(o, y)
  }

  predicate OutcomeTally(o: Outcome, y: Tally) {
    match o
    case Passed(_) => y == UNTOUCHED
    case Judged(_, FromCache(_, _)) => y == UNTOUCHED
    case Judged(_, FromGemini(_)) => 1 <= y.calls <= MAX_ATTEMPTS && y == Tally(1, 1, y.calls, 1, 0, 0)
    case Judged(_, FailedOpen) => FailedTally(y)
  }

  predicate FailedTally(y: Tally) {
    && y.asks == 1 && y.admissions <= 1 && y.calls <= MAX_ATTEMPTS * y.admissions
    && y.successes == 0 && y.failures <= y.admissions && y.failOpens == 1
  }

  predicate Stopped(cfg: Config, t: Task) {
    !G.Score(t.threshold, cfg.sensitivity, t.inference).passed
  }

  /** The guard's verdict on the task is the one its phase says it was. */
  predicate GuardFits(cfg: Config, t: Task) {
    && (t.phase.Arrived? || t.phase.Scoring? || (t.inference.Scored? ==> cfg.mayScore(t.ctx, t.inference.score)))
    && (t.phase.Arrived? || t.phase.Scoring?
        || if Concluded(t.phase) && t.phase.outcome.Passed?
           then !Stopped(cfg, t) && t.phase.outcome.guardFailed == G.FailsOpen(t.threshold, t.inference)
           else Stopped(cfg, t))
  }

  /** A document under a key was produced by a task with that key which returned it. */
  ghost predicate EntryOk(cfg: Config, s: Plane, key: string, e: Entry) {
    && e.author in s.tasks
    && Key(cfg, s.tasks[e.author].ctx) == key
    && Concluded(s.tasks[e.author].phase)
    && s.tasks[e.author].phase.outcome == Judged(Fresh(e.doc), FromGemini(e.doc))
    && cfg.mayReply(s.tasks[e.author].ctx, e.doc)
    && e.storedAt <= s.clock
  }

  ghost predicate ServedOk(cfg: Config, s: Plane, key: string, e: Entry, at: real) {
    EntryOk(cfg, s, key, e) && e.storedAt <= at <= s.clock && at < e.storedAt + e.ttl
  }

  ghost predicate DocFits(cfg: Config, s: Plane, t: Task) {
    match t.phase
    case Fetched(Some(e), at) => ServedOk(cfg, s, Key(cfg, t.ctx), e, at)
    case Recorded(doc) => cfg.mayReply(t.ctx, doc)
    case Writing(doc, _) => cfg.mayReply(t.ctx, doc)
    case Returned(o) => SourceFits(cfg, s, t.ctx, o)
    case Settled(o) => SourceFits(cfg, s, t.ctx, o)
    case _ => true
  }

  ghost predicate SourceFits(cfg: Config, s: Plane, ctx: RequestContext, o: Outcome) {
    match o
    case Passed(_) => true
    case Judged(v, FromCache(e, at)) => ServedOk(cfg, s, Key(cfg, ctx), e, at) && Served(e.doc) == Some(v)
    case Judged(v, FromGemini(doc)) => cfg.mayReply(ctx, doc) && v == Fresh(doc)
    case Judged(v, FailedOpen) => v == FailOpen(v.explanation)
  }

  ghost predicate TaskOk(cfg: Config, s: Plane, t: Task) {
    TallyFits(t.phase, t.tally) && GuardFits(cfg, t) && DocFits(cfg, s, t)
  }

  ghost predicate LocalOk(cfg: Config, l: Local, now: real) {
    l.breaker == CB.Run(cfg.breaker, l.events) && CB.Monotone(l.events) && CB.NotAfter(l.events, now)
  }

  ghost predicate BreakersOk(cfg: Config, s: Plane) {
    forall w :: w in s.workers ==> LocalOk(cfg, s.workers[w], s.clock)
  }

  /** Exactly the settled tasks have a job, of the kind their outcome asks for. */
  ghost predicate JobsOk(s: Plane) {
    && C.Inv(s.stats)
    && (forall id :: id in s.stats.jobs <==> id in s.tasks && s.tasks[id].phase.Settled?)
    && (forall id :: id in s.stats.jobs ==> s.stats.jobs[id].kind == JobOf(s.tasks[id].phase.outcome))
  }

  ghost predicate Inv(cfg: Config, s: Plane) {
    && BreakersOk(cfg, s)
    && JobsOk(s)
    && (forall id :: id in s.tasks ==> TaskOk(cfg, s, s.tasks[id]))
    && (forall key :: key in s.cache ==> EntryOk(cfg, s, key, s.cache[key]))
  }

  /** What any schedule keeps of a state: requests, decided outcomes, and the past. */
  ghost predicate Extends(s: Plane, s': Plane) {
    && s.clock <= s'.clock
    && s.workers.Keys <= s'.workers.Keys
    && (forall w :: w in s.workers ==> s.workers[w].events <= s'.workers[w].events)
    && (forall id :: id in s.tasks ==>
          id in s'.tasks && s'.tasks[id].ctx == s.tasks[id].ctx && s'.tasks[id].worker == s.tasks[id].worker
          && (Concluded(s.tasks[id].phase) ==>
                Concluded(s'.tasks[id].phase) && s'.tasks[id].phase.outcome == s.tasks[id].phase.outcome)
          && (s.tasks[id].phase.Settled? ==> s'.tasks[id] == s.tasks[id]))
  }

  // ---- One task's move -------------------------------------------------------

  ghost predicate ViewOk(cfg: Config, s: Plane, t: Task, v: View) {
    && v == Sees(cfg, s, t)
    && (v.live.Some? ==> EntryOk(cfg, s, Key(cfg, t.ctx), v.live.value))
  }

  ghost predicate Onward(t: Task, t': Task) {
    !t.phase.Settled? && t'.ctx == t.ctx && t'.worker == t.worker
    && (t.phase.Returned? ==> t'.phase == Settled(t.phase.outcome))
  }

  /** A move leaves the request alone, is never made by a settled task, and stamps events with the clock. */
  lemma MoveIsLocal(cfg: Config, v: View, id: nat, t: Task, m: Move)
    requires Ready(cfg, t, m)
    ensures var e := Moved(cfg, v, id, t, m);
            && Onward(t, e.task)
            && (e.event.Some? && !e.event.value.Success? ==> e.event.value.at == v.clock)
            && (e.entry.Some? ==> t.phase.Writing? && e.task.phase.Returned?
                                  && e.entry.value == Entry(t.phase.doc, v.clock, t.phase.ttl, id)
                                  && e.task.phase.outcome == Judged(Fresh(t.phase.doc), FromGemini(t.phase.doc)))
  {}

  lemma MoveKeepsTally(cfg: Config, v: View, id: nat, t: Task, m: Move)
    requires Ready(cfg, t, m) && TallyFits(t.phase, t.tally)
    ensures TallyFits(Moved(cfg, v, id, t, m).task.phase, Moved(cfg, v, id, t, m).task.tally)
  {}

  lemma MoveKeepsGuard(cfg: Config, v: View, id: nat, t: Task, m: Move)
    requires Ready(cfg, t, m) && GuardFits(cfg, t)
    ensures GuardFits(cfg, Moved(cfg, v, id, t, m).task)
  {}

  lemma MoveKeepsDoc(cfg: Config, s: Plane, v: View, id: nat, t: Task, m: Move)
    requires Ready(cfg, t, m) && DocFits(cfg, s, t) && ViewOk(cfg, s, t, v)
    ensures DocFits(cfg, s, Moved(cfg, v, id, t, m).task)
  {}

  lemma MoveKeepsTask(cfg: Config, s: Plane, v: View, id: nat, t: Task, m: Move)
    requires Ready(cfg, t, m) && TaskOk(cfg, s, t) && ViewOk(cfg, s, t, v)
    ensures var e := Moved(cfg, v, id, t, m);
            && Onward(t, e.task) && TaskOk(cfg, s, e.task) && WroteOwn(cfg, v, id, e)
            && (e.event.Some? && !e.event.value.Success? ==> e.event.value.at == v.clock)
  {
    MoveIsLocal(cfg, v, id, t, m);
    MoveKeepsTally(cfg, v, id, t, m);
    MoveKeepsGuard(cfg, v, id, t, m);
    MoveKeepsDoc(cfg, s, v, id, t, m);
  }

  /** A cache entry that a move writes is the verdict the same task returns. */
  ghost predicate WroteOwn(cfg: Config, v: View, id: nat, e: Effect) {
    e.entry.Some? ==>
      && e.task.phase == Returned(Judged(Fresh(e.entry.value.doc), FromGemini(e.entry.value.doc)))
      && cfg.mayReply(e.task.ctx, e.entry.value.doc)
      && e.entry.value.author == id && e.entry.value.storedAt == v.clock
  }

  // ---- The whole worker ------------------------------------------------------

  lemma ApplyExtends(cfg: Config, s: Plane, id: nat, e: Effect)
    requires id in s.tasks && Onward(s.tasks[id], e.task)
    ensures Extends(s, Apply(cfg, s, id, e))
  {}

  lemma NextExtends(cfg: Config, s: Plane, a: Action)
    ensures Extends(s, Next(cfg, s, a))
  {
    if Enabled(cfg, s, a) && a.Go? {
      var t := s.tasks[a.id];
      var v := Sees(cfg, s, t);
      MoveIsLocal(cfg, v, a.id, t, a.move);
      ApplyExtends(cfg, s, a.id, Moved(cfg, v, a.id, t, a.move));
    }
  }

  lemma EntryStable(cfg: Config, s: Plane, s': Plane, key: string, e: Entry)
    requires Extends(s, s') && EntryOk(cfg, s, key, e)
    ensures EntryOk(cfg, s', key, e)
  {}

  lemma DocStable(cfg: Config, s: Plane, s': Plane, t: Task)
    requires Extends(s, s') && DocFits(cfg, s, t)
    ensures DocFits(cfg, s', t)
  {}

  lemma ObserveKeepsBreaker(cfg: Config, l: Local, e: Option<CB.Event>, now: real)
    requires LocalOk(cfg, l, now) && (e.Some? && !e.value.Success? ==> e.value.at == now)
    ensures LocalOk(cfg, Observed(cfg, l, e), now)
  {
    if e.Some? {
      var es := l.events + [e.value];
      assert es[..|es| - 1] == l.events;
    }
  }

  lemma NewWorkerOk(cfg: Config, now: real)
    ensures LocalOk(cfg, NewWorker(cfg), now)
  {}

  lemma ApplyKeepsBreaker(cfg: Config, s: Plane, id: nat, e: Effect)
    requires BreakersOk(cfg, s)
    requires e.event.Some? && !e.event.value.Success? ==> e.event.value.at == s.clock
    ensures BreakersOk(cfg, Apply(cfg, s, id, e))
  {
    NewWorkerOk(cfg, s.clock);
    ObserveKeepsBreaker(cfg, At(cfg, s, e.task.worker), e.event, s.clock);
  }

  lemma OtherKeepsBreakers(cfg: Config, s: Plane, a: Action)
    requires BreakersOk(cfg, s) && !a.Go? && Enabled(cfg, s, a)
    ensures BreakersOk(cfg, Next(cfg, s, a))
  {
    NewWorkerOk(cfg, s.clock);
  }

  lemma SpawnKeepsJobs(cfg: Config, s: Plane, id: nat, e: Effect)
    requires JobsOk(s) && id in s.tasks && !s.tasks[id].phase.Settled?
    ensures JobsOk(Apply(cfg, s, id, e))
  {
    if e.task.phase.Settled? {
      C.NextKeepsInv(s.stats, C.Spawn(id, JobOf(e.task.phase.outcome)));
    }
  }

  lemma StatsKeepKinds(st: C.Stats, a: C.Action)
    requires !a.Spawn?
    ensures C.Next(st, a).jobs.Keys == st.jobs.Keys
    ensures forall id :: id in st.jobs ==> C.Next(st, a).jobs[id].kind == st.jobs[id].kind
  {}

  lemma ApplyKeepsEntries(cfg: Config, s: Plane, id: nat, e: Effect, key: string)
    requires Inv(cfg, s) && id in s.tasks && Onward(s.tasks[id], e.task)
    requires WroteOwn(cfg, Sees(cfg, s, e.task), id, e)
    requires key in Apply(cfg, s, id, e).cache
    ensures EntryOk(cfg, Apply(cfg, s, id, e), key, Apply(cfg, s, id, e).cache[key])
  {
    var s' := Apply(cfg, s, id, e);
    if key in s.cache && s'.cache[key] == s.cache[key] {
      ApplyExtends(cfg, s, id, e);
      EntryStable(cfg, s, s', key, s.cache[key]);
    }
  }

  lemma ApplyKeepsCache(cfg: Config, s: Plane, id: nat, e: Effect)
    requires Inv(cfg, s) && id in s.tasks && Onward(s.tasks[id], e.task)
    requires WroteOwn(cfg, Sees(cfg, s, e.task), id, e)
    ensures var s' := Apply(cfg, s, id, e); forall key :: key in s'.cache ==> EntryOk(cfg, s', key, s'.cache[key])
  {
    forall key | key in Apply(cfg, s, id, e).cache
      ensures EntryOk(cfg, Apply(cfg, s, id, e), key, Apply(cfg, s, id, e).cache[key])
    {
      ApplyKeepsEntries(cfg, s, id, e, key);
    }
  }

  lemma ApplyKeepsTasks(cfg: Config, s: Plane, id: nat, e: Effect)
    requires forall i :: i in s.tasks ==> TaskOk(cfg, s, s.tasks[i])
    requires TaskOk(cfg, s, e.task) && Extends(s, Apply(cfg, s, id, e))
    ensures forall i :: i in Apply(cfg, s, id, e).tasks ==> TaskOk(cfg, Apply(cfg, s, id, e), Apply(cfg, s, id, e).tasks[i])
  {
    var s' := Apply(cfg, s, id, e);
    forall i | i in s'.tasks
      ensures TaskOk(cfg, s', s'.tasks[i])
    {
      DocStable(cfg, s, s', s'.tasks[i]);
    }
  }

  lemma ApplyKeepsInv(cfg: Config, s: Plane, id: nat, e: Effect)
    requires Inv(cfg, s) && id in s.tasks && Onward(s.tasks[id], e.task) && TaskOk(cfg, s, e.task)
    requires WroteOwn(cfg, Sees(cfg, s, e.task), id, e)
    requires e.event.Some? && !e.event.value.Success? ==> e.event.value.at == s.clock
    ensures Inv(cfg, Apply(cfg, s, id, e))
  {
    ApplyExtends(cfg, s, id, e);
    ApplyKeepsBreaker(cfg, s, id, e);
    SpawnKeepsJobs(cfg, s, id, e);
    ApplyKeepsTasks(cfg, s, id, e);
    ApplyKeepsCache(cfg, s, id, e);
  }

  lemma GoKeepsInv(cfg: Config, s: Plane, id: nat, m: Move)
    requires Inv(cfg, s) && id in s.tasks && Ready(cfg, s.tasks[id], m)
    ensures Inv(cfg, Next(cfg, s, Go(id, m)))
  {
    var t := s.tasks[id];
    var v := Sees(cfg, s, t);
    assert TaskOk(cfg, s, t);
    MoveKeepsTask(cfg, s, v, id, t, m);
    ApplyKeepsInv(cfg, s, id, Moved(cfg, v, id, t, m));
  }

  lemma OtherKeepsInv(cfg: Config, s: Plane, a: Action)
    requires Inv(cfg, s) && !a.Go? && Enabled(cfg, s, a)
    ensures Inv(cfg, Next(cfg, s, a))
  {
    var s' := Next(cfg, s, a);
    NextExtends(cfg, s, a);
    OtherKeepsBreakers(cfg, s, a);
    if a.Stats? {
      StatsKeepKinds(s.stats, a.job);
      C.NextKeepsInv(s.stats, a.job);
    }
    forall i | i in s'.tasks
      ensures TaskOk(cfg, s', s'.tasks[i])
    {
      if i in s.tasks {
        assert TaskOk(cfg, s, s.tasks[i]);
        DocStable(cfg, s, s', s.tasks[i]);
      }
    }
    forall key | key in s'.cache
      ensures EntryOk(cfg, s', key, s'.cache[key])
    {
      EntryStable(cfg, s, s', key, s.cache[key]);
    }
  }

  lemma NextKeepsInv(cfg: Config, s: Plane, a: Action)
    requires Inv(cfg, s)
    ensures Inv(cfg, Next(cfg, s, a))
  {
    if Enabled(cfg, s, a) {
      if a.Go? { GoKeepsInv(cfg, s, a.id, a.move); } else { OtherKeepsInv(cfg, s, a); }
    }
  }

  lemma {:induction false} ExecKeepsInv(cfg: Config, s: Plane, acts: seq<Action>)
    requires Inv(cfg, s)
    ensures Inv(cfg, Exec(cfg, s, acts)) && Extends(s, Exec(cfg, s, acts))
    decreases |acts|
  {
    if acts != [] {
      NextKeepsInv(cfg, s, acts[0]);
      NextExtends(cfg, s, acts[0]);
      ExecKeepsInv(cfg, Next(cfg, s, acts[0]), acts[1..]);
    }
  }

  lemma {:induction false} ExecAppend(cfg: Config, s: Plane, a: seq<Action>, b: seq<Action>)
    ensures Exec(cfg, s, a + b) == Exec(cfg, Exec(cfg, s, a), b)
    decreases |a|
  {
    if a == [] {
      assert a + b == b;
    } else {
      assert (a + b)[1..] == a[1..] + b;
      ExecAppend(cfg, Next(cfg, s, a[0]), a[1..], b);
    }
  }

  lemma {:induction false} ExecExtends(cfg: Config, s: Plane, acts: seq<Action>)
    ensures Extends(s, Exec(cfg, s, acts))
    decreases |acts|
  {
    if acts != [] {
      NextExtends(cfg, s, acts[0]);
      ExecExtends(cfg, Next(cfg, s, acts[0]), acts[1..]);
    }
  }

  lemma Reachable(cfg: Config, acts: seq<Action>)
    ensures Inv(cfg, Exec(cfg, Start(cfg), acts))
  {
    C.EmptyInv();
    ExecKeepsInv(cfg, Start(cfg), acts);
  }
}
