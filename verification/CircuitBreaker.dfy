/**
 The per-worker circuit breaker that guards the Gemini API, its three atomic
 methods, and a reference semantics that looks only at the recorded history.
 */
module CircuitBreaker {
  import opened Common

  datatype Mode = Closed | Open | HalfOpen

  datatype Settings = Settings(threshold: int, resetTimeout: real)

  const DEFAULT_SETTINGS := Settings(3, 60.0)

  datatype Breaker = Breaker(failures: nat, mode: Mode, openedAt: real)

  const INITIAL := Breaker(0, Closed, 0.0)

  function OnSuccess(b: Breaker): Breaker {
    b.(failures := 0, mode := Closed)
  }

  function OnFailure(cfg: Settings, b: Breaker, now: real): Breaker {
    var b' := b.(failures := b.failures + 1);
    if b'.failures >= cfg.threshold && b.mode == Closed
    then b'.(mode := Open, openedAt := now)
    else b'
  }

  /** Only an open breaker whose timeout has not passed refuses a request. */
  predicate Admits(cfg: Settings, b: Breaker, now: real) {
    b.mode == Open ==> now - b.openedAt > cfg.resetTimeout
  }

  function OnAsk(cfg: Settings, b: Breaker, now: real): Breaker {
    if b.mode == Open && Admits(cfg, b, now) then b.(mode := HalfOpen) else b
  }

  /** The mutable object that a worker process holds. */
  class CircuitBreaker {
    const settings: Settings
    var failures: nat
    var mode: Mode
    var openedAt: real

    function View(): Breaker reads this { Breaker(failures, mode, openedAt) }

    constructor ()
      ensures View() == INITIAL && settings == DEFAULT_SETTINGS == Settings(3, 60.0)
      ensures failures == 0 && mode == Closed
    {
      settings := DEFAULT_SETTINGS;
      failures, mode, openedAt := 0, Closed, 0.0;
    }

    method RecordSuccess()
      modifies this
      ensures View() == OnSuccess(old(View()))
      ensures failures == 0 && mode == Closed && openedAt == old(openedAt)
    {
      failures := 0;
      mode := Closed;
    }

    method RecordFailure(now: real)
      modifies this
      ensures View() == OnFailure(settings, old(View()), now)
      ensures failures == old(failures) + 1
      ensures if old(mode) == Closed && failures >= settings.threshold then mode == Open && openedAt == now
              else mode == old(mode) && openedAt == old(openedAt)
    {
      failures := failures + 1;
      if failures >= settings.threshold && mode == Closed {
        mode := Open;
        openedAt := now;
      }
    }

    method AllowRequest(now: real) returns (allowed: bool)
      modifies this
      ensures allowed == Admits(settings, old(View()), now)
      ensures View() == OnAsk(settings, old(View()), now)
      ensures !allowed <==> old(mode) == Open && now - old(openedAt) <= settings.resetTimeout
      ensures mode == if old(mode) == Open && allowed then HalfOpen else old(mode)
      ensures failures == old(failures) && openedAt == old(openedAt)
    {
      if mode == Closed { return true; }
      if mode == Open {
        var elapsed := now - openedAt;
        if elapsed > settings.resetTimeout {
          mode := HalfOpen;
          return true;
        }
        return false;
      }
      return true;
    }
  }

  // ---- Histories ---------------------------------------------------------

  datatype Event = Success | Failure(at: real) | Ask(at: real)

  function Step(cfg: Settings, b: Breaker, e: Event): Breaker {
    match e
    case Success => OnSuccess(b)
    case Failure(t) => OnFailure(cfg, b, t)
    case Ask(t) => OnAsk(cfg, b, t)
  }

  /** The breaker after the whole history, oldest event first. */
  function Run(cfg: Settings, es: seq<Event>): Breaker {
    if es == [] then INITIAL else Step(cfg, Run(cfg, es[..|es| - 1]), es[|es| - 1])
  }

  /** Times of the failures recorded since the last success, oldest first. */
  function FailuresSinceSuccess(es: seq<Event>): seq<real> {
    if es == [] then [] else
      var before := FailuresSinceSuccess(es[..|es| - 1]);
      match es[|es| - 1]
      case Success => []
      case Failure(t) => before + [t]
      case Ask(_) => before
  }

  /** A non-positive threshold trips on the first failure, exactly like one. */
  function TripCount(cfg: Settings): nat
    ensures TripCount(cfg) >= 1
  {
    if cfg.threshold < 1 then 1 else cfg.threshold
  }

  /** When the breaker last tripped, if it did so since the last success. */
  function TrippedAt(cfg: Settings, es: seq<Event>): Option<real> {
    var fs := FailuresSinceSuccess(es);
    if |fs| >= TripCount(cfg) then Some(fs[TripCount(cfg) - 1]) else None
  }

  ghost predicate NotAfter(es: seq<Event>, t: real) {
    forall i :: 0 <= i < |es| && !es[i].Success? ==> es[i].at <= t
  }

  /** Times never go backwards, as `time.monotonic` promises. */
  ghost predicate Monotone(es: seq<Event>) {
    forall i, j :: 0 <= i <= j < |es| && !es[i].Success? && !es[j].Success? ==> es[i].at <= es[j].at
  }

  /** Fields of the breaker as functions of the history, on any clock. */
  lemma {:induction false} RefinesHistory(cfg: Settings, es: seq<Event>)
    ensures Run(cfg, es).failures == |FailuresSinceSuccess(es)|
    ensures Run(cfg, es).mode == Closed <==> |FailuresSinceSuccess(es)| < TripCount(cfg)
    ensures cfg.threshold >= 1 ==> (Run(cfg, es).mode == Closed <==> |FailuresSinceSuccess(es)| < cfg.threshold)
    ensures TrippedAt(cfg, es).Some? ==> Run(cfg, es).openedAt == TrippedAt(cfg, es).value
  {
    if es != [] {
      RefinesHistory(cfg, es[..|es| - 1]);
    }
  }

  lemma {:induction false} HalfOpenMeansTimedOut(cfg: Settings, es: seq<Event>, t: real)
    requires Monotone(es) && NotAfter(es, t)
    ensures Run(cfg, es).mode == HalfOpen ==> t - Run(cfg, es).openedAt > cfg.resetTimeout
  {
    if es != [] {
      var before := es[..|es| - 1];
      assert Monotone(before) && NotAfter(before, t) by {
        assert forall i :: 0 <= i < |before| ==> before[i] == es[i];
      }
      HalfOpenMeansTimedOut(cfg, before, t);
    }
  }

  /**
   Admission depends on nothing but the history: a request is refused exactly
   while the trip, if there is one, is no older than the timeout.
   */
  lemma AdmissionRefinesHistory(cfg: Settings, es: seq<Event>, t: real)
    requires Monotone(es) && NotAfter(es, t)
    ensures !Admits(cfg, Run(cfg, es), t)
       <==> TrippedAt(cfg, es).Some? && t - TrippedAt(cfg, es).value <= cfg.resetTimeout
  {
    RefinesHistory(cfg, es);
    HalfOpenMeansTimedOut(cfg, es, t);
  }

  lemma {:induction false} TripSurvivesWithoutSuccess(cfg: Settings, es: seq<Event>, later: seq<Event>)
    requires Success !in later
    ensures FailuresSinceSuccess(es) <= FailuresSinceSuccess(es + later)
    ensures TrippedAt(cfg, es).Some? ==> TrippedAt(cfg, es + later) == TrippedAt(cfg, es)
  {
    if later == [] {
      assert es + later == es;
    } else {
      var rest := later[..|later| - 1];
      assert (es + later)[..|es + later| - 1] == es + rest;
      assert (es + later)[|es + later| - 1] == later[|later| - 1];
      assert later[|later| - 1] in later;
      assert Success !in rest;
      TripSurvivesWithoutSuccess(cfg, es, rest);
    }
  }

  /**
   The half-open phase is not a single trial: once the timeout has passed,
   every request is admitted until the next success, however many failures are
   recorded in between, and none of those failures re-opens the breaker.
   */
  lemma HalfOpenAdmitsEveryRequest(cfg: Settings, es: seq<Event>, later: seq<Event>, t: real)
    requires TrippedAt(cfg, es).Some? && Success !in later
    requires Monotone(es + later) && NotAfter(es + later, t)
    requires t - TrippedAt(cfg, es).value > cfg.resetTimeout
    ensures Admits(cfg, Run(cfg, es + later), t)
    ensures Run(cfg, es + later).openedAt == TrippedAt(cfg, es).value
  {
    TripSurvivesWithoutSuccess(cfg, es, later);
    AdmissionRefinesHistory(cfg, es + later, t);
    RefinesHistory(cfg, es + later);
  }

  // ---- How often the breaker opens ----------------------------------------

  function Openings(cfg: Settings, es: seq<Event>): nat {
    if es == [] then 0 else
      var before := es[..|es| - 1];
      Openings(cfg, before)
      + if Run(cfg, before).mode == Closed && Run(cfg, es).mode == Open then 1 else 0
  }

  function Successes(es: seq<Event>): nat {
    if es == [] then 0 else Successes(es[..|es| - 1]) + if es[|es| - 1].Success? then 1 else 0
  }

  function Failures(es: seq<Event>): nat {
    if es == [] then 0 else Failures(es[..|es| - 1]) + if es[|es| - 1].Failure? then 1 else 0
  }

  lemma {:induction false} OpeningsAccounted(cfg: Settings, es: seq<Event>)
    ensures Openings(cfg, es) <= Successes(es) + if Run(cfg, es).mode == Closed then 0 else 1
    ensures Openings(cfg, es) * TripCount(cfg)
         <= Failures(es) - if Run(cfg, es).mode == Closed then Run(cfg, es).failures else 0
  {
    if es != [] {
      OpeningsAccounted(cfg, es[..|es| - 1]);
      RefinesHistory(cfg, es[..|es| - 1]);
      OneMore(Openings(cfg, es[..|es| - 1]), TripCount(cfg));
    }
  }

  lemma OneMore(n: nat, k: nat)
    ensures (n + 1) * k == n * k + k
  {}

  /** At most one opening per success, plus one; each costs a full trip of failures. */
  lemma OpeningsBounded(cfg: Settings, es: seq<Event>)
    ensures Openings(cfg, es) <= Successes(es) + 1
    ensures Openings(cfg, es) * TripCount(cfg) <= Failures(es)
  {
    OpeningsAccounted(cfg, es);
  }

  // ---- Three strikes ------------------------------------------------------------

  /** The recorded failures and successes, without the requests for admission. */
  function Records(es: seq<Event>): seq<Event> {
    if es == [] then [] else
      var before := Records(es[..|es| - 1]);
      if es[|es| - 1].Ask? then before else before + [es[|es| - 1]]
  }

  lemma {:induction false} AsksDoNotCount(es: seq<Event>)
    ensures FailuresSinceSuccess(Records(es)) == FailuresSinceSuccess(es)
  {
    if es != [] {
      AsksDoNotCount(es[..|es| - 1]);
      if !es[|es| - 1].Ask? { assert Records(es)[..|Records(es)| - 1] == Records(es[..|es| - 1]); }
    }
  }

  /** A history that ends in a success, or is empty. */
  predicate Settled(es: seq<Event>) { es == [] || es[|es| - 1] == Success }

  predicate OnlyFailures(es: seq<Event>) { forall e :: e in es ==> e.Failure? }

  lemma {:induction false} FailuresListed(before: seq<Event>, rest: seq<Event>)
    requires Settled(before) && OnlyFailures(rest)
    ensures |FailuresSinceSuccess(before + rest)| == |rest|
    ensures forall k :: 0 <= k < |rest| ==> FailuresSinceSuccess(before + rest)[k] == rest[k].at
  {
    if rest == [] {
      assert before + rest == before;
    } else {
      var init, last := rest[..|rest| - 1], rest[|rest| - 1];
      assert last in rest && forall e :: e in init ==> e in rest;
      assert (before + rest)[..|before + rest| - 1] == before + init;
      assert (before + rest)[|before + rest| - 1] == last;
      FailuresListed(before, init);
    }
  }

  /**
   With the settings the workers run with: fewer than three failures since the last
   success never make the breaker refuse; from the third on it refuses for exactly
   60 seconds from that third failure.
   */
  lemma ThirdStrike(es: seq<Event>, before: seq<Event>, faults: seq<Event>, t: real)
    requires Records(es) == before + faults && Settled(before) && OnlyFailures(faults)
    requires Monotone(es) && NotAfter(es, t)
    ensures |faults| < 3 ==> Admits(Settings(3, 60.0), Run(Settings(3, 60.0), es), t)
    ensures |faults| >= 3 ==> (Admits(Settings(3, 60.0), Run(Settings(3, 60.0), es), t) <==> t - faults[2].at > 60.0)
  {
    AsksDoNotCount(es);
    FailuresListed(before, faults);
    AdmissionRefinesHistory(Settings(3, 60.0), es, t);
    if |faults| >= 3 { assert faults[2] in faults; }
  }
}
