/**
 The traffic counters and the incident table. Every settled request spawns one
 background job that sends two INCR commands in a non-transactional pipeline;
 a job for a blocked request then inserts an incident row. Jobs interleave, may
 stop anywhere, and each command may be refused on its own.
 */
module Counters {
  import opened Common

  datatype Kind = Clean | FalsePositive | Blocked

  datatype Command = Unanswered | Applied | Rejected

  datatype Row = NoRow | Inserted | InsertFailed

  datatype Job = Job(kind: Kind, first: Command, second: Command, row: Row)

  datatype Stats = Stats(total: nat, clean: nat, falsePositives: nat, blocked: nat, incidents: set<nat>, jobs: map<nat, Job>)

  const EMPTY := Stats(0, 0, 0, 0, {}, map[])

  datatype Action =
    | Spawn(id: nat, kind: Kind)
    | First(id: nat, ok: bool)     // INCR requests_total
    | Second(id: nat, ok: bool)    // INCR of the kind's own counter
    | Insert(id: nat, ok: bool)    // the incident row

  predicate Enabled(s: Stats, a: Action) {
    match a
    case Spawn(id, _) => id !in s.jobs
    case First(id, _) => id in s.jobs && s.jobs[id].first.Unanswered?
    case Second(id, _) => id in s.jobs && !s.jobs[id].first.Unanswered? && s.jobs[id].second.Unanswered?
    case Insert(id, _) =>
      // `pipe.execute()` raises if either command was refused, so no row follows
      id in s.jobs && s.jobs[id].kind.Blocked? && s.jobs[id].row.NoRow?
      && s.jobs[id].first.Applied? && s.jobs[id].second.Applied?
  }

  function Answer(ok: bool): Command { if ok then Applied else Rejected }

  function CountKind(s: Stats, k: Kind): Stats {
    match k
    case Clean => s.(clean := s.clean + 1)
    case FalsePositive => s.(falsePositives := s.falsePositives + 1)
    case Blocked => s.(blocked := s.blocked + 1)
  }

  /** An action that is not enabled leaves the state alone. */
  function Next(s: Stats, a: Action): Stats {
    if !Enabled(s, a) then s else
    match a
    case Spawn(id, k) => s.(jobs := s.jobs[id := Job(k, Unanswered, Unanswered, NoRow)])
    case First(id, ok) =>
      var s' := if ok then s.(total := s.total + 1) else s;
      s'.(jobs := s.jobs[id := s.jobs[id].(first := Answer(ok))])
    case Second(id, ok) =>
      var s' := if ok then CountKind(s, s.jobs[id].kind) else s;
      s'.(jobs := s.jobs[id := s.jobs[id].(second := Answer(ok))])
    case Insert(id, ok) =>
      var s' := if ok then s.(incidents := s.incidents + {id}) else s;
      s'.(jobs := s.jobs[id := s.jobs[id].(row := if ok then Inserted else InsertFailed)])
  }

  function Exec(s: Stats, acts: seq<Action>): Stats
    decreases |acts|
  {
    if acts == [] then s else Exec(Next(s, acts[0]), acts[1..])
  }

  // ---- Conservation ---------------------------------------------------------

  ghost function FirstApplied(s: Stats): set<nat> {
    set id | id in s.jobs && s.jobs[id].first.Applied?
  }

  ghost function SecondApplied(s: Stats, k: Kind): set<nat> {
    set id | id in s.jobs && s.jobs[id].kind == k && s.jobs[id].second.Applied?
  }

  /** Jobs between their two increments, stopped there, or refused the second one. */
  ghost function OnlyFirst(s: Stats): set<nat> {
    set id | id in s.jobs && s.jobs[id].first.Applied? && !s.jobs[id].second.Applied?
  }

  /** Jobs whose total increment was refused although the second one was applied. */
  ghost function OnlySecond(s: Stats): set<nat> {
    set id | id in s.jobs && !s.jobs[id].first.Applied? && s.jobs[id].second.Applied?
  }

  ghost predicate Inv(s: Stats) {
    && s.total == |FirstApplied(s)|
    && s.clean == |SecondApplied(s, Clean)|
    && s.falsePositives == |SecondApplied(s, FalsePositive)|
    && s.blocked == |SecondApplied(s, Blocked)|
    && (forall id :: id in s.incidents <==> id in s.jobs && s.jobs[id].row.Inserted?)
    && (forall id :: id in s.incidents ==> s.jobs[id].kind.Blocked? && s.jobs[id].second.Applied?)
  }

  function Tally(s: Stats, k: Kind): nat {
    match k
    case Clean => s.clean
    case FalsePositive => s.falsePositives
    case Blocked => s.blocked
  }

  lemma NextCountsFirst(s: Stats, a: Action)
    requires s.total == |FirstApplied(s)|
    ensures Next(s, a).total == |FirstApplied(Next(s, a))|
  {
    var s' := Next(s, a);
    if Enabled(s, a) && a.First? && a.ok {
      assert FirstApplied(s') == FirstApplied(s) + {a.id};
    } else {
      assert FirstApplied(s') == FirstApplied(s);
    }
  }

  lemma NextCountsSecond(s: Stats, a: Action, k: Kind)
    requires Tally(s, k) == |SecondApplied(s, k)|
    ensures Tally(Next(s, a), k) == |SecondApplied(Next(s, a), k)|
  {
    var s' := Next(s, a);
    if Enabled(s, a) && a.Second? && a.ok && s.jobs[a.id].kind == k {
      assert SecondApplied(s', k) == SecondApplied(s, k) + {a.id};
    } else {
      assert SecondApplied(s', k) == SecondApplied(s, k);
    }
  }

  lemma NextKeepsInv(s: Stats, a: Action)
    requires Inv(s)
    ensures Inv(Next(s, a))
  {
    NextCountsFirst(s, a);
    NextCountsSecond(s, a, Clean);
    NextCountsSecond(s, a, FalsePositive);
    NextCountsSecond(s, a, Blocked);
  }

  lemma {:induction false} ExecKeepsInv(s: Stats, acts: seq<Action>)
    requires Inv(s)
    ensures Inv(Exec(s, acts))
    decreases |acts|
  {
    if acts != [] {
      NextKeepsInv(s, acts[0]);
      ExecKeepsInv(Next(s, acts[0]), acts[1..]);
    }
  }

  lemma EmptyInv()
    ensures Inv(EMPTY)
  {
    assert FirstApplied(EMPTY) == {};
    assert forall k :: SecondApplied(EMPTY, k) == {};
  }

  lemma {:induction false} DisjointSum<T>(a: set<T>, b: set<T>)
    requires a !! b
    ensures |a + b| == |a| + |b|
  {}

  ghost function AllSecond(s: Stats): set<nat> {
    set id | id in s.jobs && s.jobs[id].second.Applied?
  }

  lemma SecondsByKind(s: Stats)
    ensures |AllSecond(s)|
         == |SecondApplied(s, Clean)| + |SecondApplied(s, FalsePositive)| + |SecondApplied(s, Blocked)|
  {
    var c, f, b := SecondApplied(s, Clean), SecondApplied(s, FalsePositive), SecondApplied(s, Blocked);
    assert AllSecond(s) == c + f + b;
    DisjointSum(c, f);
    DisjointSum(c + f, b);
  }

  lemma Balance(s: Stats)
    requires Inv(s)
    ensures s.total + |OnlySecond(s)| == s.clean + s.falsePositives + s.blocked + |OnlyFirst(s)|
  {
    SecondsByKind(s);
    assert FirstApplied(s) + OnlySecond(s) == AllSecond(s) + OnlyFirst(s);
    DisjointSum(FirstApplied(s), OnlySecond(s));
    DisjointSum(AllSecond(s), OnlyFirst(s));
  }

  /** No interleaving, failure or early stop of the jobs can lose or invent a request. */
  lemma Conservation(acts: seq<Action>)
    ensures var s := Exec(EMPTY, acts);
            s.total + |OnlySecond(s)| == s.clean + s.falsePositives + s.blocked + |OnlyFirst(s)|
  {
    EmptyInv();
    ExecKeepsInv(EMPTY, acts);
    Balance(Exec(EMPTY, acts));
  }

  /** Incident rows belong to blocked requests only and never outnumber the blocked counter. */
  lemma IncidentsWithinBlocked(acts: seq<Action>)
    ensures var s := Exec(EMPTY, acts);
            |s.incidents| <= s.blocked
            && forall id :: id in s.incidents ==> id in s.jobs && s.jobs[id].kind.Blocked?
  {
    EmptyInv();
    ExecKeepsInv(EMPTY, acts);
    var s := Exec(EMPTY, acts);
    SubsetSize(s.incidents, SecondApplied(s, Blocked));
  }

  // ---- Which incidents there are ------------------------------------------------

  /** The database accepts the row of a blocked request whose two commands took effect. */
  predicate Inserts(s: Stats, a: Action, id: nat) {
    && a == Insert(id, true) && id in s.jobs && s.jobs[id].kind == Blocked
    && s.jobs[id].first == Applied && s.jobs[id].second == Applied && s.jobs[id].row == NoRow
  }

  predicate InsertedIn(s: Stats, acts: seq<Action>, id: nat)
    decreases |acts|
  {
    acts != [] && (Inserts(s, acts[0], id) || InsertedIn(Next(s, acts[0]), acts[1..], id))
  }

  lemma NextIncident(s: Stats, a: Action, id: nat)
    ensures id in Next(s, a).incidents <==> id in s.incidents || Inserts(s, a, id)
  {}

  lemma {:induction false} ExecIncident(s: Stats, acts: seq<Action>, id: nat)
    ensures id in Exec(s, acts).incidents <==> id in s.incidents || InsertedIn(s, acts, id)
    decreases |acts|
  {
    if acts != [] {
      NextIncident(s, acts[0], id);
      ExecIncident(Next(s, acts[0]), acts[1..], id);
    }
  }

  /**
   The incident rows are exactly those of the blocked requests whose row write was
   accepted: none is lost, none invented.
   */
  lemma IncidentsAreInserts(acts: seq<Action>, id: nat)
    ensures id in Exec(EMPTY, acts).incidents <==> InsertedIn(EMPTY, acts, id)
  {
    ExecIncident(EMPTY, acts, id);
  }

  // ---- The jobs as the worker runs them -------------------------------------

  /**
   How far one pipeline got: commands executed by the server, their answers, and
   whether those answers arrived.
   */
  datatype Delivery = Delivery(sent: nat, firstOk: bool, secondOk: bool, answered: bool, rowOk: bool)

  /** `execute()` returns; otherwise it raises. */
  predicate Returns(d: Delivery) { d.sent >= 2 && d.firstOk && d.secondOk && d.answered }

  function PipelineActions(id: nat, kind: Kind, d: Delivery): seq<Action> {
    [Spawn(id, kind)]
    + (if d.sent >= 1 then [First(id, d.firstOk)] else [])
    + (if d.sent >= 2 then [Second(id, d.secondOk)] else [])
  }

  lemma {:induction false} ExecAppend(s: Stats, a: seq<Action>, b: seq<Action>)
    ensures Exec(s, a + b) == Exec(Exec(s, a), b)
    decreases |a|
  {
    if a == [] {
      assert a + b == b;
    } else {
      assert (a + b)[1..] == a[1..] + b;
      ExecAppend(Next(s, a[0]), a[1..], b);
    }
  }

  lemma ExecOne(s: Stats, acts: seq<Action>, a: Action)
    ensures Exec(s, acts + [a]) == Next(Exec(s, acts), a)
  {
    ExecAppend(s, acts, [a]);
    assert [a][1..] == [];
  }

  class StatsStore {
    var total: nat
    var clean: nat
    var falsePositives: nat
    var blocked: nat
    var incidents: set<nat>
    var jobs: map<nat, Job>

    function View(): Stats reads this {
      Stats(total, clean, falsePositives, blocked, incidents, jobs)
    }

    constructor ()
      ensures View() == EMPTY
    {
      total, clean, falsePositives, blocked, incidents, jobs := 0, 0, 0, 0, {}, map[];
    }

    /**
     `_increment_counters`: true if `execute()` returned. Both commands were applied
     then; they may also have been when it raises, if the answer was lost.
     */
    method SendPipeline(id: nat, kind: Kind, d: Delivery) returns (executed: bool)
      requires id !in jobs
      modifies this
      ensures View() == Exec(old(View()), PipelineActions(id, kind, d))
      ensures executed <==> Returns(d)
      ensures id in jobs && jobs[id].kind == kind && jobs[id].row == NoRow
      ensures executed <==> jobs[id].first == jobs[id].second == Applied && d.answered
      ensures executed <==> d.sent >= 2 && d.firstOk && d.secondOk && d.answered
      ensures total == old(total) + (if d.sent >= 1 && d.firstOk then 1 else 0) && incidents == old(incidents)
      ensures clean == old(clean) + (if kind == Clean && d.sent >= 2 && d.secondOk then 1 else 0)
      ensures falsePositives == old(falsePositives) + (if kind == FalsePositive && d.sent >= 2 && d.secondOk then 1 else 0)
      ensures blocked == old(blocked) + (if kind == Blocked && d.sent >= 2 && d.secondOk then 1 else 0)
    {
      ghost var s := View();
      jobs := jobs[id := Job(kind, Unanswered, Unanswered, NoRow)];
      ghost var acts := [Spawn(id, kind)];
      ExecOne(s, [], Spawn(id, kind));
      if d.sent >= 1 {
        ExecOne(s, acts, First(id, d.firstOk));
        acts := acts + [First(id, d.firstOk)];
        CountTotal(id, d.firstOk);
      }
      if d.sent >= 2 {
        ExecOne(s, acts, Second(id, d.secondOk));
        acts := acts + [Second(id, d.secondOk)];
        CountOutcome(id, d.secondOk);
      }
      assert acts == PipelineActions(id, kind, d);
      executed := d.sent >= 2 && d.firstOk && d.secondOk && d.answered;
    }

    /** `INCR requests_total` */
    method CountTotal(id: nat, ok: bool)
      requires id in jobs && jobs[id].first.Unanswered?
      modifies this`total, this`jobs
      ensures View() == Next(old(View()), First(id, ok))
    {
      if ok { total := total + 1; }
      jobs := jobs[id := jobs[id].(first := Answer(ok))];
    }

    /** `INCR` of the counter for the outcome. */
    method CountOutcome(id: nat, ok: bool)
      requires id in jobs && !jobs[id].first.Unanswered? && jobs[id].second.Unanswered?
      modifies this
      ensures View() == Next(old(View()), Second(id, ok))
    {
      if ok {
        if jobs[id].kind == Clean {
          clean := clean + 1;
        } else if jobs[id].kind == FalsePositive {
          falsePositives := falsePositives + 1;
        } else {
          blocked := blocked + 1;
        }
      }
      jobs := jobs[id := jobs[id].(second := Answer(ok))];
    }

    /** `_log_blocked`: the row is written only after the pipeline returned, and then it is. */
    method LogBlocked(id: nat, d: Delivery)
      requires id !in jobs
      modifies this
      ensures View() == Exec(old(View()), PipelineActions(id, Blocked, d) + if Returns(d) then [Insert(id, d.rowOk)] else [])
      ensures incidents == if d.sent >= 2 && d.firstOk && d.secondOk && d.answered && d.rowOk
                           then old(incidents) + {id} else old(incidents)
      ensures total == old(total) + (if d.sent >= 1 && d.firstOk then 1 else 0)
      ensures blocked == old(blocked) + (if d.sent >= 2 && d.secondOk then 1 else 0)
      ensures clean == old(clean) && falsePositives == old(falsePositives)
    {
      ExecAppend(View(), PipelineActions(id, Blocked, d), if Returns(d) then [Insert(id, d.rowOk)] else []);
      var executed := SendPipeline(id, Blocked, d);
      assert Exec(View(), [Insert(id, d.rowOk)]) == Next(View(), Insert(id, d.rowOk));
      if executed {
        if d.rowOk { incidents := incidents + {id}; }
        jobs := jobs[id := jobs[id].(row := if d.rowOk then Inserted else InsertFailed)];
      }
    }
  }
}
