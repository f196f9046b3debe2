/**
 The request path of all workers as a state machine. A transition is one stretch
 of code between two `await` points, so tasks interleave wherever the event loops
 let them (the phases Admitted and Returned split two stretches further, which
 only adds schedules). The tasks of one worker share its breaker and its
 configuration; all workers share the cache and the counters in Redis. Replies,
 errors and the clock are chosen by the action.
 */
module Pipeline {
  import opened Common
  import opened CacheKey
  import opened Analyst
  import CB = CircuitBreaker
  import G = Guard
  import C = Counters

  /**
   `digest` is the hash behind the cache key; `mayScore` and `mayReply` say what
   the ONNX model and Gemini may answer about a request.
   */
  datatype Config = Config(
    breaker: CB.Settings,
    sensitivity: real,
    digest: string -> string,
    mayScore: (RequestContext, real) -> bool,
    mayReply: (RequestContext, Document) -> bool)

  function Key(cfg: Config, ctx: RequestContext): string { cfg.digest(Content(ctx)) }

  /** A cached document; `author` names the task whose Gemini call produced it. */
  datatype Entry = Entry(doc: Document, storedAt: real, ttl: real, author: nat)

  datatype Source = FromCache(entry: Entry, at: real) | FromGemini(doc: Document) | FailedOpen

  datatype Outcome = Passed(guardFailed: bool) | Judged(verdict: Verdict, source: Source)

  datatype Phase =
    | Arrived
    | Scoring                                    // inference runs in the executor
    | Suspect                                    // cache GET sent
    | Fetched(cached: Option<Entry>, at: real)   // cache GET answered
    | Admitted(setup: Option<string>)            // let through by the breaker
    | Calling(attempt: nat)                      // generate_content running
    | BackingOff(attempt: nat)                   // sleeping after a rate-limit error
    | Recorded(doc: Document)                    // success recorded, TTL GET sent
    | Writing(doc: Document, ttl: real)          // cache SET sent
    | Failing(reason: string)                    // fail-open INCR sent
    | Returned(outcome: Outcome)                 // guard or analyser is done
    | Settled(outcome: Outcome)                  // answered or forwarded, job spawned

  /** What one task has done so far: breaker queries, admissions, calls, records, fail-open counts. */
  datatype Tally = Tally(asks: nat, admissions: nat, calls: nat, successes: nat, failures: nat, failOpens: nat)

  const UNTOUCHED := Tally(0, 0, 0, 0, 0, 0)

  datatype Task = Task(worker: nat, ctx: RequestContext, phase: Phase, threshold: G.Threshold, inference: G.Inference, tally: Tally)

  /** The outcome is decided; it never changes again. */
  predicate Concluded(p: Phase) { p.Returned? || p.Settled? }

  predicate IsBlocked(o: Outcome) { o.Judged? && o.verdict.isAttack }

  /** Which background job the middleware spawns for an outcome. */
  function JobOf(o: Outcome): C.Kind {
    if o.Passed? then C.Clean else if o.verdict.isAttack then C.Blocked else C.FalsePositive
  }

  /** What a worker process holds in memory; `events` is the history of its breaker. */
  datatype Local = Local(threshold: G.Threshold, breaker: CB.Breaker, events: seq<CB.Event>)

  datatype Plane = Plane(
    clock: real,
    workers: map<nat, Local>,
    cache: map<string, Entry>,
    tasks: map<nat, Task>,
    stats: C.Stats)

  function NewWorker(cfg: Config): Local { Local(G.Number(cfg.sensitivity), CB.INITIAL, []) }

  function At(cfg: Config, s: Plane, w: nat): Local { if w in s.workers then s.workers[w] else NewWorker(cfg) }

  function EventsOf(s: Plane, w: nat): seq<CB.Event> { if w in s.workers then s.workers[w].events else [] }

  /** What a task does when the event loop resumes it; replies and errors come with the move. */
  datatype Move =
    | ReadThreshold
    | Infer(inference: G.Inference)
    | Fetch(ok: bool)
    | Resume(setup: Option<string>)   // Some: configuring the Gemini client is going to raise
    | Begin
    | Answer(reply: Reply)
    | Retry
    | ReadTtl(ttl: Option<int>)       // None: the read failed or the setting is no integer
    | Store(ok: bool)
    | CountFailOpen
    | Respond

  datatype Action =
    | Advance(delta: real)
    | Boot(worker: nat)
    | Configure(worker: nat, threshold: G.Threshold)    // a published setting reaches the worker
    | Arrive(id: nat, worker: nat, ctx: RequestContext)
    | Go(id: nat, move: Move)
    | Stats(job: C.Action)

  function Start(cfg: Config): Plane {
    Plane(0.0, map[], map[], map[], C.EMPTY)
  }

  // ---- One task's transitions -----------------------------------------------

  /** The shared state that a task can see, with the live cache entry for its own key. */
  datatype View = View(clock: real, threshold: G.Threshold, breaker: CB.Breaker, live: Option<Entry>)

  /** The task after the move, the breaker event it caused, and the cache entry it wrote. */
  datatype Effect = Effect(task: Task, event: Option<CB.Event>, entry: Option<Entry>)

  function Only(t: Task): Effect { Effect(t, None, None) }

  function Conclude(t: Task, o: Outcome): Effect { Only(t.(phase := Returned(o))) }

  /** The two `except` branches around the Gemini call. */
  function Fail(v: View, t: Task, f: Failure): Effect {
    var counts := CountsAgainstBreaker(f);
    var y := t.tally.(failures := t.tally.failures + if counts then 1 else 0, failOpens := t.tally.failOpens + 1);
    Effect(t.(phase := Failing(Reason(f)), tally := y), if counts then Some(CB.Failure(v.clock)) else None, None)
  }

  function Judge(cfg: Config, t: Task, i: G.Inference): Effect {
    var t' := t.(inference := i);
    if G.Score(t.threshold, cfg.sensitivity, i).passed
    then Conclude(t', Passed(G.FailsOpen(t.threshold, i)))
    else Only(t'.(phase := Suspect))
  }

  /** After the cache GET: serve a hit, or ask the breaker and start the first call. */
  function Continue(cfg: Config, v: View, t: Task, setup: Option<string>): Effect
    requires t.phase.Fetched?
  {
    var hit := t.phase.cached;
    if hit.Some? && Served(hit.value.doc).Some?
    then Conclude(t, Judged(Served(hit.value.doc).value, FromCache(hit.value, t.phase.at)))
    else
      var asked := t.tally.(asks := t.tally.asks + 1);
      var ask := Some(CB.Ask(v.clock));
      if !CB.Admits(cfg.breaker, v.breaker, v.clock)
      then Effect(t.(phase := Failing(REFUSED), tally := asked.(failOpens := asked.failOpens + 1)), ask, None)
      else
        var admitted := asked.(admissions := asked.admissions + 1);
        Effect(t.(phase := Admitted(setup), tally := admitted), ask, None)
  }

  /** Right after admission, without an `await`: configure the client and start the call. */
  function Begun(v: View, t: Task): Effect
    requires t.phase.Admitted?
  {
    if t.phase.setup.Some?
    then Fail(v, t, Error(t.phase.setup.value))
    else Only(t.(phase := Calling(0), tally := t.tally.(calls := t.tally.calls + 1)))
  }

  function Hear(v: View, t: Task, r: Reply): Effect
    requires t.phase.Calling?
  {
    match r
    case Text(Ok(doc)) =>
      Effect(t.(phase := Recorded(doc), tally := t.tally.(successes := t.tally.successes + 1)), Some(CB.Success), None)
    case Text(Err(message)) => Fail(v, t, Error(message))
    case Raised(f) =>
      if Retryable(r) && t.phase.attempt < MAX_ATTEMPTS - 1
      then Only(t.(phase := BackingOff(t.phase.attempt)))
      else Fail(v, t, f)
  }

  predicate Ready(cfg: Config, t: Task, m: Move) {
    match m
    case ReadThreshold => t.phase.Arrived?
    case Infer(i) => t.phase.Scoring? && (i.Scored? ==> cfg.mayScore(t.ctx, i.score))
    case Fetch(_) => t.phase.Suspect?
    case Resume(_) => t.phase.Fetched?
    case Begin => t.phase.Admitted?
    case Answer(r) => t.phase.Calling? && (r.Text? && r.parsed.Ok? ==> cfg.mayReply(t.ctx, r.parsed.value))
    case Retry => t.phase.BackingOff?
    case ReadTtl(_) => t.phase.Recorded?
    case Store(ok) => t.phase.Writing? && (ok ==> t.phase.ttl > 0.0)   // Redis refuses a non-positive TTL
    case CountFailOpen => t.phase.Failing?
    case Respond => t.phase.Returned?
  }

  function Moved(cfg: Config, v: View, id: nat, t: Task, m: Move): Effect
    requires Ready(cfg, t, m)
  {
    match m
    case ReadThreshold => Only(t.(phase := Scoring, threshold := v.threshold))
    case Infer(i) => Judge(cfg, t, i)
    case Fetch(ok) => Only(t.(phase := Fetched(if ok then v.live else None, v.clock)))
    case Resume(setup) => Continue(cfg, v, t, setup)
    case Begin => Begun(v, t)
    case Answer(r) => Hear(v, t, r)
    case Retry =>
      Only(t.(phase := Calling(t.phase.attempt + 1), tally := t.tally.(calls := t.tally.calls + 1)))
    case ReadTtl(ttl) =>
      if ttl.Some?
      then Only(t.(phase := Writing(t.phase.doc, ttl.value as real)))
      else Conclude(t, Judged(Fresh(t.phase.doc), FromGemini(t.phase.doc)))
    case Store(ok) =>
      var doc := t.phase.doc;
      Effect(t.(phase := Returned(Judged(Fresh(doc), FromGemini(doc)))), None,
             if ok then Some(Entry(doc, v.clock, t.phase.ttl, id)) else None)
    case CountFailOpen => Conclude(t, Judged(FailOpen(t.phase.reason), FailedOpen))
    case Respond => Only(t.(phase := Settled(t.phase.outcome)))
  }

  // ---- All workers -----------------------------------------------------------

  function Live(cfg: Config, s: Plane, ctx: RequestContext): Option<Entry> {
    var key := Key(cfg, ctx);
    if key in s.cache && s.clock < s.cache[key].storedAt + s.cache[key].ttl then Some(s.cache[key]) else None
  }

  function Sees(cfg: Config, s: Plane, t: Task): View {
    var l := At(cfg, s, t.worker);
    View(s.clock, l.threshold, l.breaker, Live(cfg, s, t.ctx))
  }

  /** A worker's memory after a breaker event. */
  function Observed(cfg: Config, l: Local, e: Option<CB.Event>): Local {
    if e.None? then l else l.(breaker := CB.Step(cfg.breaker, l.breaker, e.value), events := l.events + [e.value])
  }

  function Apply(cfg: Config, s: Plane, id: nat, e: Effect): Plane {
    s.(tasks := s.tasks[id := e.task],
       workers := s.workers[e.task.worker := Observed(cfg, At(cfg, s, e.task.worker), e.event)],
       cache := if e.entry.Some? then s.cache[Key(cfg, e.task.ctx) := e.entry.value] else s.cache,
       stats := if e.task.phase.Settled?
                then C.Next(s.stats, C.Spawn(id, JobOf(e.task.phase.outcome)))
                else s.stats)
  }

  predicate Enabled(cfg: Config, s: Plane, a: Action) {
    match a
    case Advance(d) => d >= 0.0
    case Boot(_) => true
    case Configure(_, _) => true
    case Arrive(id, _, _) => id !in s.tasks
    case Go(id, m) => id in s.tasks && Ready(cfg, s.tasks[id], m)
    case Stats(job) => !job.Spawn?
  }

  function Next(cfg: Config, s: Plane, a: Action): Plane {
    if !Enabled(cfg, s, a) then s else
    match a
    case Advance(d) => s.(clock := s.clock + d)
    case Boot(w) => s.(workers := s.workers[w := At(cfg, s, w)])
    case Configure(w, t) => s.(workers := s.workers[w := At(cfg, s, w).(threshold := t)])
    case Arrive(id, w, ctx) => s.(tasks := s.tasks[id := Task(w, ctx, Arrived, G.Null, G.Crashed, UNTOUCHED)])
    case Go(id, m) =>
      var t := s.tasks[id];
      Apply(cfg, s, id, Moved(cfg, Sees(cfg, s, t), id, t, m))
    case Stats(job) => s.(stats := C.Next(s.stats, job))
  }

  /** The action belongs to the task; every other action leaves the task alone. */
  predicate ActsOn(a: Action, id: nat) { (a.Arrive? || a.Go?) && a.id == id }

  /** Any schedule whatever: actions that are not enabled are skipped. */
  function Exec(cfg: Config, s: Plane, acts: seq<Action>): Plane
    decreases |acts|
  {
    if acts == [] then s else Exec(cfg, Next(cfg, s, acts[0]), acts[1..])
  }
}
