/**
 The request path as one worker's code runs it: `Dispatch` and `Analyze` are the
 coroutines, and at every `await` the other tasks of this worker, and all other
 workers, may make any transitions of their own. Whatever they do, the coroutine's
 run is a run of the state machine.
 */
module Worker {
  import opened Common
  import opened CacheKey
  import opened Analyst
  import opened Pipeline
  import opened PipelineProofs
  import CB = CircuitBreaker
  import G = Guard
  import C = Counters

  /** The answers one request meets, and what the other tasks do at its k-th await. */
  datatype Io = Io(
    inference: G.Inference, fetchOk: bool, setup: Option<string>, reply: nat -> Reply,
    ttl: Setting, storeOk: bool, gap: nat -> seq<Action>)

  /** The lifetime in the settings: not there, a number, or something that raises. */
  datatype Setting = Missing | Seconds(n: int) | Unusable

  const DEFAULT_TTL := 86400

  function Lifetime(t: Setting): Option<int> {
    match t case Missing => Some(DEFAULT_TTL) case Seconds(n) => Some(n) case Unusable => None
  }

  /** What the client gets back. */
  datatype Response = Forwarded | Forbidden(attackType: string, explanation: string)

  predicate RateLimit(r: Reply) { r.Raised? && r.failure.Error? && Contains(r.failure.message, "429") }

  const TIMED_OUT := "AI analysis timed out — request passed (fail-open policy)"
  const FAILED := "AI analysis error — request passed (fail-open policy)"
  const BREAKER_OPEN := "Gemini circuit breaker open — request passed (fail-open policy)"

  /** The verdict that lets a request pass for want of a better one. */
  function LetPass(reason: string): Verdict { Verdict(false, "none", 0.0, reason, None, None, false) }

  /** The outcome that the reply ending the loop leads to. */
  predicate FollowsFrom(o: Outcome, r: Reply) {
    match r
    case Text(Ok(d)) =>
      o == Judged(Verdict(d.isAttack, d.attackType, d.confidence, d.explanation, d.affectedParameter, d.remediationHint,
                          d.fromCache == Some(true)), FromGemini(d))
    case Raised(Timeout) => o == Judged(LetPass(TIMED_OUT), FailedOpen)
    case _ => o == Judged(LetPass(FAILED), FailedOpen)
  }

  /** After n + 1 calls: each but the last ran into the rate limit, and the last was the third or did not. */
  ghost predicate LoopEndedAt(n: int, o: Outcome, reply: nat -> Reply) {
    && 0 <= n <= 2 && (forall k: nat :: k < n ==> RateLimit(reply(k))) && (n < 2 ==> !RateLimit(reply(n)))
    && FollowsFrom(o, reply(n))
  }

  ghost predicate Foreign(id: nat, acts: seq<Action>) {
    forall i :: 0 <= i < |acts| ==> !ActsOn(acts[i], id)
  }

  ghost predicate IoOk(cfg: Config, id: nat, ctx: RequestContext, io: Io) {
    && (io.inference.Scored? ==> cfg.mayScore(ctx, io.inference.score))
    && (forall k: nat :: io.reply(k).Text? && io.reply(k).parsed.Ok? ==> cfg.mayReply(ctx, io.reply(k).parsed.value))
    && (forall k: nat :: Foreign(id, io.gap(k)))
  }

  lemma {:induction false} ForeignKeepsTask(cfg: Config, s: Plane, acts: seq<Action>, id: nat)
    requires Foreign(id, acts)
    ensures id in Exec(cfg, s, acts).tasks <==> id in s.tasks
    ensures id in s.tasks ==> Exec(cfg, s, acts).tasks[id] == s.tasks[id]
    decreases |acts|
  {
    if acts != [] {
      assert !ActsOn(acts[0], id);
      assert Foreign(id, acts[1..]) by {
        assert forall i :: 0 <= i < |acts[1..]| ==> acts[1..][i] == acts[i + 1];
      }
      ForeignKeepsTask(cfg, Next(cfg, s, acts[0]), acts[1..], id);
    }
  }

  lemma ExecOne(cfg: Config, s: Plane, trace: seq<Action>, a: Action)
    ensures Exec(cfg, s, trace + [a]) == Next(cfg, Exec(cfg, s, trace), a)
  {
    ExecAppend(cfg, s, trace, [a]);
    assert [a][1..] == [];
  }

  lemma PutBack<T>(m: map<nat, T>, k: nat)
    requires k in m
    ensures (m - {k})[k := m[k]] == m
  {}

  class WafWorker {
    const cfg: Config
    const me: nat
    const breaker: CB.CircuitBreaker
    var threshold: G.Threshold
    var events: seq<CB.Event>
    /** The world around it: clock, Redis, the other workers, and all requests. */
    var clock: real
    var others: map<nat, Local>
    var cache: map<string, Entry>
    var tasks: map<nat, Task>
    var stats: C.Stats
    /** Everything that has happened since the start. */
    ghost var trace: seq<Action>

    function Memory(): Local reads this, breaker { Local(threshold, breaker.View(), events) }

    function View(): Plane reads this, breaker { Plane(clock, others[me := Memory()], cache, tasks, stats) }

    ghost predicate Valid() reads this, breaker {
      breaker.settings == cfg.breaker && View() == Exec(cfg, Start(cfg), trace)
    }

    constructor (cfg: Config, me: nat)
      requires cfg.breaker == CB.DEFAULT_SETTINGS
      ensures Valid() && trace == [Boot(me)] && this.cfg == cfg && this.me == me && fresh(breaker)
    {
      this.cfg, this.me := cfg, me;
      breaker := new CB.CircuitBreaker();
      threshold, events := G.Number(cfg.sensitivity), [];
      clock, others, cache, tasks, stats := 0.0, map[], map[], map[], C.EMPTY;
      trace := [Boot(me)];
      new;
      ExecOne(cfg, Start(cfg), [], Boot(me));
      assert [] + [Boot(me)] == [Boot(me)];
    }

    /** An `await`: everybody else makes whatever moves they like. */
    method Await(acts: seq<Action>)
      requires Valid()
      modifies this, breaker
      ensures Valid() && trace == old(trace) + acts
      ensures View() == Exec(cfg, old(View()), acts)
    {
      ExecAppend(cfg, Start(cfg), trace, acts);
      ExecExtends(cfg, View(), acts);
      var s := Exec(cfg, View(), acts);
      var mine := s.workers[me];
      clock, others, cache, tasks, stats := s.clock, s.workers - {me}, s.cache, s.tasks, s.stats;
      threshold, events := mine.threshold, mine.events;
      breaker.failures, breaker.mode, breaker.openedAt := mine.breaker.failures, mine.breaker.mode, mine.breaker.openedAt;
      trace := trace + acts;
      PutBack(s.workers, me);
    }

    method AwaitAs(id: nat, acts: seq<Action>)
      requires Valid() && Foreign(id, acts)
      modifies this, breaker
      ensures Valid() && old(trace) <= trace
      ensures id in tasks <==> id in old(tasks)
      ensures id in tasks ==> tasks[id] == old(tasks)[id]
    {
      ForeignKeepsTask(cfg, View(), acts, id);
      Await(acts);
    }

    /** The event loop's record of a move of the task, once the code has made its changes. */
    method Close(before: Plane, was: CB.Breaker, id: nat, m: Move, e: Effect)
      requires breaker.settings == cfg.breaker && before == Exec(cfg, Start(cfg), trace)
      requires id in before.tasks && before.tasks[id].worker == me && Ready(cfg, before.tasks[id], m)
      requires e == Moved(cfg, Sees(cfg, before, before.tasks[id]), id, before.tasks[id], m)
      requires before == Plane(clock, others[me := Local(threshold, was, events)], before.cache, tasks, stats)
      requires breaker.View() == if e.event.Some? then CB.Step(cfg.breaker, was, e.event.value) else was
      requires cache == Apply(cfg, before, id, e).cache
      modifies this`tasks, this`stats, this`events, this`trace
      ensures Valid() && trace == old(trace) + [Go(id, m)]
      ensures tasks == old(tasks)[id := e.task]
      ensures events == old(events) + if e.event.Some? then [e.event.value] else []
      ensures stats == if e.task.phase.Settled? then C.Next(old(stats), C.Spawn(id, JobOf(e.task.phase.outcome))) else old(stats)
    {
      ExecOne(cfg, Start(cfg), trace, Go(id, m));
      MoveIsLocal(cfg, Sees(cfg, before, before.tasks[id]), id, before.tasks[id], m);
      var now := Observed(cfg, At(cfg, before, me), e.event);
      assert At(cfg, before, me) == Local(threshold, was, events);
      assert before.workers[me := now] == others[me := now];
      tasks := tasks[id := e.task];
      events := now.events;
      stats := if e.task.phase.Settled? then C.Next(stats, C.Spawn(id, JobOf(e.task.phase.outcome))) else stats;
      trace := trace + [Go(id, m)];
    }

    /** A move that changes nothing but the task itself. */
    method Step(id: nat, m: Move, t: Task)
      requires Valid() && Mine(id) && Ready(cfg, tasks[id], m)
      requires Moved(cfg, Sees(cfg, View(), tasks[id]), id, tasks[id], m) == Only(t)
      modifies this`tasks, this`stats, this`events, this`trace
      ensures Valid() && trace == old(trace) + [Go(id, m)]
      ensures tasks == old(tasks)[id := t] && events == old(events)
      ensures stats == if t.phase.Settled? then C.Next(old(stats), C.Spawn(id, JobOf(t.phase.outcome))) else old(stats)
    {
      Close(View(), breaker.View(), id, m, Only(t));
    }

    ghost predicate Mine(id: nat) reads this { id in tasks && tasks[id].worker == me }

    ghost predicate Running(id: nat, p: Phase) reads this { Mine(id) && tasks[id].phase == p }

    method Join(id: nat, ctx: RequestContext)
      requires Valid() && id !in tasks
      modifies this`tasks, this`trace
      ensures Valid() && trace == old(trace) + [Arrive(id, me, ctx)]
      ensures Running(id, Arrived) && tasks[id].ctx == ctx && tasks[id].tally == UNTOUCHED
    {
      ExecOne(cfg, Start(cfg), trace, Arrive(id, me, ctx));
      tasks := tasks[id := Task(me, ctx, Arrived, G.Null, G.Crashed, UNTOUCHED)];
      trace := trace + [Arrive(id, me, ctx)];
    }

    /** `if not _breaker.allow_request()` */
    method Ask(id: nat, setup: Option<string>) returns (allowed: bool)
      requires Valid() && Mine(id) && tasks[id].phase.Fetched?
      requires tasks[id].phase.cached.Some? ==> Served(tasks[id].phase.cached.value.doc).None?
      modifies this, breaker
      ensures Valid() && old(trace) <= trace
      ensures allowed <==> !(old(breaker.mode) == CB.Open && clock - old(breaker.openedAt) <= cfg.breaker.resetTimeout)
      ensures Running(id, if allowed then Admitted(setup) else Failing(BREAKER_OPEN))
      ensures Same(tasks[id], old(tasks)[id]) && tasks[id].tally.calls == old(tasks)[id].tally.calls
    {
      var before, was := View(), breaker.View();
      var e := Continue(cfg, Sees(cfg, before, tasks[id]), tasks[id], setup);
      allowed := breaker.AllowRequest(clock);
      Close(before, was, id, Resume(setup), e);
    }

    /** A failed exchange: `record_failure` if it counts. `m` is the move that raised. */
    method Fault(id: nat, m: Move, f: Failure)
      requires Valid() && Mine(id) && Ready(cfg, tasks[id], m)
      requires var v := Sees(cfg, View(), tasks[id]);
               Moved(cfg, v, id, tasks[id], m) == Fail(v, tasks[id], f)
      modifies this, breaker
      ensures Valid() && old(trace) <= trace
      ensures Running(id, Failing(if f.Timeout? then TIMED_OUT else FAILED)) && Same(tasks[id], old(tasks)[id])
      ensures tasks[id].tally.calls == old(tasks)[id].tally.calls && clock == old(clock)
      ensures var counts := f.Timeout? || Contains(f.message, "500") || Contains(f.message, "502")
                            || Contains(f.message, "503") || Contains(f.message, "504");
              && breaker.failures == old(breaker.failures) + (if counts then 1 else 0)
              && events == old(events) + (if counts then [CB.Failure(clock)] else [])
    {
      CountsIffServerError(f);
      var e := Fail(Sees(cfg, View(), tasks[id]), tasks[id], f);
      if CountsAgainstBreaker(f) {
        Record(id, m, e);
      } else {
        Close(View(), breaker.View(), id, m, e);
      }
    }

    /** `record_failure` */
    method Record(id: nat, m: Move, e: Effect)
      requires Valid() && Mine(id) && Ready(cfg, tasks[id], m)
      requires e == Moved(cfg, Sees(cfg, View(), tasks[id]), id, tasks[id], m)
      requires e.entry.None? && e.event == Some(CB.Failure(clock))
      modifies this, breaker
      ensures Valid() && old(trace) <= trace && tasks == old(tasks)[id := e.task] && clock == old(clock)
      ensures breaker.failures == old(breaker.failures) + 1 && events == old(events) + [CB.Failure(clock)]
    {
      var before, was := View(), breaker.View();
      breaker.RecordFailure(clock);
      Close(before, was, id, m, e);
    }

    /** A parsed reply: `record_success`. */
    method Accept(id: nat, doc: Document)
      requires Valid() && Mine(id) && tasks[id].phase.Calling? && cfg.mayReply(tasks[id].ctx, doc)
      modifies this, breaker
      ensures Valid() && old(trace) <= trace
      ensures Running(id, Recorded(doc)) && Same(tasks[id], old(tasks)[id])
      ensures breaker.failures == 0 && breaker.mode == CB.Closed && events == old(events) + [CB.Success]
      ensures tasks[id].tally.calls == old(tasks)[id].tally.calls
    {
      var before, was := View(), breaker.View();
      var r := Text(Ok(doc));
      var e := Hear(Sees(cfg, before, tasks[id]), tasks[id], r);
      breaker.RecordSuccess();
      Close(before, was, id, Answer(r), e);
    }

    /** `redis.set(cache_key, ..., ex=ttl)`; the server refuses a non-positive lifetime. */
    method Cache(id: nat, doc: Document, ttl: real, reachable: bool)
      requires Valid() && Running(id, Writing(doc, ttl))
      modifies this
      ensures Valid() && old(trace) <= trace
      ensures Running(id, Returned(Judged(Fresh(doc), FromGemini(doc)))) && Same(tasks[id], old(tasks)[id])
      ensures tasks[id].tally.calls == old(tasks)[id].tally.calls && clock == old(clock)
      ensures cache == if reachable && ttl > 0.0 then old(cache)[Key(cfg, tasks[id].ctx) := Entry(doc, clock, ttl, id)]
                       else old(cache)
    {
      var before, was := View(), breaker.View();
      var ok := reachable && ttl > 0.0;
      var t := tasks[id];
      var e := Effect(t.(phase := Returned(Judged(Fresh(doc), FromGemini(doc)))), None,
                      if ok then Some(Entry(doc, clock, ttl, id)) else None);
      if ok {
        cache := cache[Key(cfg, t.ctx) := Entry(doc, clock, ttl, id)];
      }
      Close(before, was, id, Store(ok), e);
    }

    /** The request, the threshold it was measured against and its score never change again. */
    static predicate Same(t: Task, t': Task) {
      t.worker == t'.worker && t.ctx == t'.ctx && t.threshold == t'.threshold && t.inference == t'.inference
    }

    /** `_increment_fail_open`, and the fail-open verdict. */
    method OpenUp(id: nat, reason: string, gap: seq<Action>) returns (o: Outcome)
      requires Valid() && Foreign(id, gap) && Running(id, Failing(reason))
      modifies this, breaker
      ensures Valid() && old(trace) <= trace
      ensures o == Judged(LetPass(reason), FailedOpen)
      ensures Running(id, Returned(o)) && Same(tasks[id], old(tasks)[id])
      ensures tasks[id].tally.calls == old(tasks)[id].tally.calls
    {
      AwaitAs(id, gap);
      o := Judged(FailOpen(reason), FailedOpen);
      Step(id, CountFailOpen, tasks[id].(phase := Returned(o)));
    }

    /** After a parsed reply: record the success, cache the document, return the verdict. */
    method Keep(id: nat, doc: Document, io: Io) returns (o: Outcome)
      requires Valid() && Mine(id) && IoOk(cfg, id, tasks[id].ctx, io) && tasks[id].phase.Calling?
      requires cfg.mayReply(tasks[id].ctx, doc)
      modifies this, breaker
      ensures Valid() && old(trace) <= trace
      ensures FollowsFrom(o, Text(Ok(doc)))
      ensures Running(id, Returned(o)) && Same(tasks[id], old(tasks)[id])
      ensures var key := Key(cfg, tasks[id].ctx);
              && (io.storeOk && io.ttl.Missing? ==> key in cache && cache[key] == Entry(doc, clock, 86400.0, id))
              && (io.storeOk && io.ttl.Seconds? && io.ttl.n > 0 ==>
                    key in cache && cache[key] == Entry(doc, clock, io.ttl.n as real, id))
      ensures tasks[id].tally.calls == old(tasks)[id].tally.calls
    {
      Accept(id, doc);
      o := Remember(id, doc, io);
    }

    /** The cache write, which changes nothing about the verdict if it fails. */
    method Remember(id: nat, doc: Document, io: Io) returns (o: Outcome)
      requires Valid() && Running(id, Recorded(doc)) && IoOk(cfg, id, tasks[id].ctx, io)
      modifies this, breaker
      ensures Valid() && old(trace) <= trace
      ensures FollowsFrom(o, Text(Ok(doc)))
      ensures Running(id, Returned(o)) && Same(tasks[id], old(tasks)[id])
      ensures var key := Key(cfg, tasks[id].ctx);
              && (io.storeOk && io.ttl.Missing? ==> key in cache && cache[key] == Entry(doc, clock, 86400.0, id))
              && (io.storeOk && io.ttl.Seconds? && io.ttl.n > 0 ==>
                    key in cache && cache[key] == Entry(doc, clock, io.ttl.n as real, id))
      ensures tasks[id].tally.calls == old(tasks)[id].tally.calls
    {
      AwaitAs(id, io.gap(10));
      o := Judged(Fresh(doc), FromGemini(doc));
      var lifetime := Lifetime(io.ttl);
      if lifetime.None? {
        Step(id, ReadTtl(None), tasks[id].(phase := Returned(o)));
      } else {
        Save(id, doc, lifetime.value, io);
      }
    }

    method Save(id: nat, doc: Document, lifetime: int, io: Io)
      requires Valid() && Running(id, Recorded(doc)) && Foreign(id, io.gap(11))
      modifies this, breaker
      ensures Valid() && old(trace) <= trace
      ensures Running(id, Returned(Judged(Fresh(doc), FromGemini(doc)))) && Same(tasks[id], old(tasks)[id])
      ensures var key := Key(cfg, tasks[id].ctx);
              io.storeOk && lifetime > 0 ==> key in cache && cache[key] == Entry(doc, clock, lifetime as real, id)
      ensures tasks[id].tally.calls == old(tasks)[id].tally.calls
    {
      var ttl := lifetime as real;
      Step(id, ReadTtl(Some(lifetime)), tasks[id].(phase := Writing(doc, ttl)));
      AwaitAs(id, io.gap(11));
      Cache(id, doc, ttl, io.storeOk);
    }

    /** The verdict of the stored document, marked as cached; the document itself is not. */
    static predicate RepeatsEntry(o: Outcome)
      requires o.Judged? && o.source.FromCache?
    {
      var d := o.source.entry.doc;
      && d.fromCache.None?
      && o.verdict == Verdict(d.isAttack, d.attackType, d.confidence, d.explanation, d.affectedParameter, d.remediationHint, true)
    }

    /** What the cache had to offer the request: a live entry, reachable, whose document is not marked. */
    static function Offer(cfg: Config, s: Plane, ctx: RequestContext, fetchOk: bool): Option<Entry> {
      var key := Key(cfg, ctx);
      if fetchOk && key in s.cache && s.clock < s.cache[key].storedAt + s.cache[key].ttl && s.cache[key].doc.fromCache.None?
      then Some(s.cache[key]) else None
    }

    /**
     How an outcome of the analyser came about: served from the cache, refused by the
     breaker, failed while the client was configured, or by the reply that ended the loop.
     */
    ghost predicate Heard(t: Task, o: Outcome, io: Io) {
      o.Judged? &&
      if t.tally.calls > 0 then LoopEndedAt(t.tally.calls - 1, o, io.reply)
      else
        || (o.source.FromCache? && RepeatsEntry(o)) || o == Judged(LetPass(BREAKER_OPEN), FailedOpen)
        || (io.setup.Some? && o == Judged(LetPass(FAILED), FailedOpen))
    }

    /** An exchange that ended in an exception: record it, count the fail-open. */
    method Reject(id: nat, m: Move, f: Failure, gap: seq<Action>) returns (o: Outcome)
      requires Valid() && Foreign(id, gap) && Mine(id) && Ready(cfg, tasks[id], m)
      requires var v := Sees(cfg, View(), tasks[id]);
               Moved(cfg, v, id, tasks[id], m) == Fail(v, tasks[id], f)
      modifies this, breaker
      ensures Valid() && old(trace) <= trace
      ensures o == Judged(LetPass(if f.Timeout? then TIMED_OUT else FAILED), FailedOpen)
      ensures Running(id, Returned(o)) && Same(tasks[id], old(tasks)[id])
      ensures tasks[id].tally.calls == old(tasks)[id].tally.calls
    {
      Fault(id, m, f);
      o := OpenUp(id, Reason(f), gap);
    }

    /** A rate-limit error before the last attempt: sleep, then call again. */
    method BackOff(id: nat, attempt: nat, r: Reply, gap: seq<Action>)
      requires Valid() && Foreign(id, gap) && Running(id, Calling(attempt))
      requires Retryable(r) && attempt < MAX_ATTEMPTS - 1
      modifies this, breaker
      ensures Valid() && old(trace) <= trace
      ensures Running(id, Calling(attempt + 1)) && Same(tasks[id], old(tasks)[id])
      ensures tasks[id].tally.calls == old(tasks)[id].tally.calls + 1
    {
      Step(id, Answer(r), tasks[id].(phase := BackingOff(attempt)));
      AwaitAs(id, gap);
      var t := tasks[id];
      Step(id, Retry, t.(phase := Calling(attempt + 1), tally := t.tally.(calls := t.tally.calls + 1)));
    }

    /** The reply that ends the loop: a verdict to keep, or an exception. */
    method Finish(id: nat, attempt: nat, r: Reply, io: Io) returns (o: Outcome)
      requires Valid() && Running(id, Calling(attempt)) && IoOk(cfg, id, tasks[id].ctx, io) && r == io.reply(attempt)
      requires Retryable(r) ==> attempt >= MAX_ATTEMPTS - 1
      modifies this, breaker
      ensures Valid() && old(trace) <= trace
      ensures Running(id, Returned(o)) && Same(tasks[id], old(tasks)[id])
      ensures FollowsFrom(o, r) && tasks[id].tally.calls == old(tasks)[id].tally.calls
    {
      if r.Text? && r.parsed.Ok? {
        o := Keep(id, r.parsed.value, io);
      } else {
        o := Reject(id, Answer(r), if r.Text? then Error(r.parsed.error) else r.failure, io.gap(12));
      }
    }

    /** One pass of the loop: true if its reply was the last one. */
    method Turn(id: nat, attempt: nat, io: Io) returns (done: bool, o: Outcome)
      requires Valid() && Running(id, Calling(attempt)) && IoOk(cfg, id, tasks[id].ctx, io) && attempt < MAX_ATTEMPTS
      modifies this, breaker
      ensures Valid() && old(trace) <= trace
      ensures Mine(id) && Same(tasks[id], old(tasks)[id])
      ensures !done ==>
                && RateLimit(io.reply(attempt)) && attempt < 2
                && tasks[id].phase == Calling(attempt + 1) && tasks[id].tally.calls == old(tasks)[id].tally.calls + 1
      ensures done ==>
                && tasks[id].phase == Returned(o) && FollowsFrom(o, io.reply(attempt))
                && (attempt < 2 ==> !RateLimit(io.reply(attempt)))
                && tasks[id].tally.calls == old(tasks)[id].tally.calls
    {
      AwaitAs(id, io.gap(4 + 2 * attempt));
      var r := io.reply(attempt);
      if Retryable(r) && attempt < MAX_ATTEMPTS - 1 {
        BackOff(id, attempt, r, io.gap(5 + 2 * attempt));
        done, o := false, Passed(false);
      } else {
        o := Finish(id, attempt, r, io);
        done := true;
      }
    }

    /** The retry loop around `generate_content`. */
    method CallModel(id: nat, io: Io) returns (o: Outcome)
      requires Valid() && Running(id, Calling(0)) && tasks[id].tally.calls == 1 && IoOk(cfg, id, tasks[id].ctx, io)
      modifies this, breaker
      ensures Valid() && old(trace) <= trace
      ensures Running(id, Returned(o)) && Same(tasks[id], old(tasks)[id])
      ensures tasks[id].tally.calls > 0 && LoopEndedAt(tasks[id].tally.calls - 1, o, io.reply)
    {
      var attempt := 0;
      while true
        invariant 0 <= attempt < MAX_ATTEMPTS
        invariant Valid() && old(trace) <= trace
        invariant Running(id, Calling(attempt)) && tasks[id].tally.calls == attempt + 1
        invariant Same(tasks[id], old(tasks)[id])
        invariant forall k: nat :: k < attempt ==> RateLimit(io.reply(k))
        decreases MAX_ATTEMPTS - attempt
      {
        var done: bool;
        done, o := Turn(id, attempt, io);
        if done { return; }
        attempt := attempt + 1;
      }
    }

    /** `redis.get(cache_key)`, and the resumption after it. */
    method Lookup(id: nat, io: Io) returns (cached: Option<Entry>, at: real, ghost moment: nat)
      requires Valid() && Running(id, Suspect) && IoOk(cfg, id, tasks[id].ctx, io)
      modifies this, breaker
      ensures Valid() && old(trace) <= trace
      ensures Running(id, Fetched(cached, at)) && Same(tasks[id], old(tasks)[id])
      ensures tasks[id].tally == old(tasks)[id].tally
      ensures |old(trace)| <= moment <= |trace|
      ensures var s, key := Exec(cfg, Start(cfg), trace[..moment]), Key(cfg, tasks[id].ctx);
              && at == s.clock
              && cached == if io.fetchOk && key in s.cache && at < s.cache[key].storedAt + s.cache[key].ttl
                           then Some(s.cache[key]) else None
    {
      AwaitAs(id, io.gap(1));
      moment := |trace|;
      ghost var now := trace;
      cached, at := None, clock;
      if io.fetchOk {
        var key := Key(cfg, tasks[id].ctx);
        if key in cache && clock < cache[key].storedAt + cache[key].ttl {
          cached := Some(cache[key]);
        }
      }
      Step(id, Fetch(io.fetchOk), tasks[id].(phase := Fetched(cached, at)));
      AwaitAs(id, io.gap(2));
      assert trace[..moment] == now;
    }

    /** `moment` is when the cache was read: what it had to offer then is what is served. */
    method Analyze(id: nat, io: Io) returns (o: Outcome, ghost moment: nat)
      requires Valid() && Running(id, Suspect) && tasks[id].tally == UNTOUCHED && IoOk(cfg, id, tasks[id].ctx, io)
      modifies this, breaker
      ensures Valid() && old(trace) <= trace
      ensures Running(id, Returned(o)) && Same(tasks[id], old(tasks)[id])
      ensures Heard(tasks[id], o, io)
      ensures |old(trace)| <= moment <= |trace|
      ensures var s := Exec(cfg, Start(cfg), trace[..moment]);
              var offer := Offer(cfg, s, tasks[id].ctx, io.fetchOk);
              && (o.source.FromCache? <==> offer.Some?)
              && (offer.Some? ==> o.source == FromCache(offer.value, s.clock))
    {
      var cached, at;
      cached, at, moment := Lookup(id, io);
      ghost var read := trace;
      if cached.Some? && Served(cached.value.doc).Some? {
        o := Judged(Served(cached.value.doc).value, FromCache(cached.value, at));
        Step(id, Resume(io.setup), tasks[id].(phase := Returned(o)));
      } else {
        o := Consult(id, io);
      }
      assert trace[..moment] == read[..moment];
    }

    /** No usable cache entry: ask the breaker, then Gemini. */
    method Consult(id: nat, io: Io) returns (o: Outcome)
      requires Valid() && Mine(id) && tasks[id].phase.Fetched? && IoOk(cfg, id, tasks[id].ctx, io)
      requires tasks[id].tally == UNTOUCHED
      requires tasks[id].phase.cached.Some? ==> Served(tasks[id].phase.cached.value.doc).None?
      modifies this, breaker
      ensures Valid() && old(trace) <= trace
      ensures Running(id, Returned(o)) && Same(tasks[id], old(tasks)[id])
      ensures Heard(tasks[id], o, io) && !o.source.FromCache?
    {
      var allowed := Ask(id, io.setup);
      if allowed {
        o := Exchange(id, io);
      } else {
        o := OpenUp(id, BREAKER_OPEN, io.gap(3));
      }
    }

    /** The `try` block: configure the client, call the model. */
    method Exchange(id: nat, io: Io) returns (o: Outcome)
      requires Valid() && Running(id, Admitted(io.setup)) && IoOk(cfg, id, tasks[id].ctx, io) && tasks[id].tally.calls == 0
      modifies this, breaker
      ensures Valid() && old(trace) <= trace
      ensures Running(id, Returned(o)) && Same(tasks[id], old(tasks)[id])
      ensures Heard(tasks[id], o, io) && !o.source.FromCache?
    {
      if io.setup.Some? {
        o := Reject(id, Begin, Error(io.setup.value), io.gap(3));
      } else {
        StartCall(id);
        o := CallModel(id, io);
      }
    }

    /** The client is configured: the first call starts. */
    method StartCall(id: nat)
      requires Valid() && Mine(id) && tasks[id].phase == Admitted(None)
      modifies this`tasks, this`stats, this`events, this`trace
      ensures Valid() && old(trace) <= trace
      ensures Running(id, Calling(0)) && Same(tasks[id], old(tasks)[id])
      ensures tasks[id].tally.calls == old(tasks)[id].tally.calls + 1
    {
      var t := tasks[id];
      Step(id, Begin, t.(phase := Calling(0), tally := t.tally.(calls := t.tally.calls + 1)));
    }

    /** The model answered, and not below the threshold that was read; null stands for the default. */
    static predicate Stops(t: G.Threshold, sensitivity: real, i: G.Inference) {
      i.Scored? && !t.Text? && i.score >= if t.Null? then sensitivity else t.value
    }

    /** The fast path: read the threshold, score the request, let it through or not. */
    method Screen(id: nat, io: Io) returns (passed: bool)
      requires Valid() && Running(id, Arrived) && tasks[id].tally == UNTOUCHED && IoOk(cfg, id, tasks[id].ctx, io)
      modifies this, breaker
      ensures Valid() && old(trace) <= trace
      ensures Mine(id) && tasks[id].ctx == old(tasks)[id].ctx && tasks[id].inference == io.inference
      ensures tasks[id].tally == UNTOUCHED
      ensures tasks[id].threshold == old(threshold)
      ensures passed <==> !Stops(tasks[id].threshold, cfg.sensitivity, io.inference)
      ensures tasks[id].phase == if passed then Returned(Passed(io.inference.Crashed? || tasks[id].threshold.Text?)) else Suspect
    {
      var limit := threshold;
      Step(id, ReadThreshold, tasks[id].(phase := Scoring, threshold := limit));
      AwaitAs(id, io.gap(0));
      passed := G.Score(limit, cfg.sensitivity, io.inference).passed;
      var p := if passed then Returned(Passed(G.FailsOpen(limit, io.inference))) else Suspect;
      Step(id, Infer(io.inference), tasks[id].(inference := io.inference, phase := p));
    }

    /** Which counters the background job increments. */
    static function KindOf(o: Outcome): C.Kind {
      if o.Passed? then C.Clean else if o.verdict.isAttack then C.Blocked else C.FalsePositive
    }

    /** Spawn the counter job and answer or forward. */
    method Reply(id: nat, o: Outcome) returns (response: Response)
      requires Valid() && Running(id, Returned(o))
      modifies this`tasks, this`stats, this`events, this`trace
      ensures Valid() && old(trace) <= trace
      ensures tasks == old(tasks)[id := old(tasks)[id].(phase := Settled(o))]
      ensures stats == old(stats).(jobs := old(stats).jobs[id := C.Job(KindOf(o), C.Unanswered, C.Unanswered, C.NoRow)])
      ensures response == if o.Judged? && o.verdict.isAttack then Forbidden(o.verdict.attackType, o.verdict.explanation)
                          else Forwarded
    {
      Reachable(cfg, trace);
      response := Forwarded;
      if o.Judged? && o.verdict.isAttack {
        response := Forbidden(o.verdict.attackType, o.verdict.explanation);
      }
      Step(id, Respond, tasks[id].(phase := Settled(o)));
    }

    /** One request, from its arrival to the answer it gets. */
    method Dispatch(id: nat, ctx: RequestContext, io: Io) returns (o: Outcome, response: Response)
      requires Valid() && IoOk(cfg, id, ctx, io) && id !in tasks
      modifies this, breaker
      ensures Valid() && old(trace) <= trace
      ensures Running(id, Settled(o)) && tasks[id].ctx == ctx && tasks[id].inference == io.inference
      ensures tasks[id].threshold == old(threshold)
      ensures o.Passed? <==> !Stops(old(threshold), cfg.sensitivity, io.inference)
      ensures o.Passed? ==> o.guardFailed == (io.inference.Crashed? || old(threshold).Text?)
      ensures o.Judged? ==> Heard(tasks[id], o, io)
      ensures response == if o.Judged? && o.verdict.isAttack then Forbidden(o.verdict.attackType, o.verdict.explanation)
                          else Forwarded
    {
      Join(id, ctx);
      var passed := Screen(id, io);
      if passed {
        o := tasks[id].phase.outcome;
        response := Reply(id, o);
      } else {
        o, response := DeepPath(id, io);
      }
    }

    /** What the guard stopped is analysed, and then answered or forwarded. */
    method DeepPath(id: nat, io: Io) returns (o: Outcome, response: Response)
      requires Valid() && Running(id, Suspect) && tasks[id].tally == UNTOUCHED && IoOk(cfg, id, tasks[id].ctx, io)
      modifies this, breaker
      ensures Valid() && old(trace) <= trace
      ensures Running(id, Settled(o)) && Same(tasks[id], old(tasks)[id])
      ensures Heard(tasks[id], o, io)
      ensures response == if o.Judged? && o.verdict.isAttack then Forbidden(o.verdict.attackType, o.verdict.explanation)
                          else Forwarded
    {
      ghost var moment;
      o, moment := Analyze(id, io);
      response := Reply(id, o);
    }
  }
}
