/**
 The registry operations as they interleave: between the Redis commands of one
 and its database write, any other may run, and gateways relabel entries without
 touching the rows.
 */
module RegistryRows {
  import opened Common
  import H = WorkerHash
  import R = Registry

  /**
   An operation after its first command; `was` says whether the hash had the
   worker before it.
   */
  datatype Pc =
    | Upserting(w: H.Worker, was: bool)                  // registration: HSET done, row next
    | Deleting(id: string, was: bool)                    // deregistration: HDEL done, row next
    | Relabelling(id: string, copy: H.Worker)            // marking: HGET done, HSET next
    | Mirroring(id: string, was: bool)                   // marking: row next
    | Rewriting(id: string, copy: H.Worker)              // gateway or draining worker: HSET next, no row

  datatype Kind = Register(w: H.Worker) | Deregister(id: string) | Mark(id: string) | Rewrite(id: string, status: string)

  datatype State = State(hash: R.Entries, rows: R.Entries, tasks: map<nat, Pc>)

  datatype Action = Start(task: nat, kind: Kind) | Hset(task: nat) | Commit(task: nat, dbOk: bool)

  function Subject(k: Kind): string { if k.Register? then k.w.id else k.id }

  function About(pc: Pc): string { if pc.Upserting? then pc.w.id else pc.id }

  predicate Enabled(s: State, a: Action) {
    match a
    case Start(t, _) => t !in s.tasks
    case Hset(t) => t in s.tasks && (s.tasks[t].Relabelling? || s.tasks[t].Rewriting?)
    case Commit(t, _) => t in s.tasks && !s.tasks[t].Relabelling? && !s.tasks[t].Rewriting?
  }

  function Begin(s: State, t: nat, k: Kind): State {
    match k
    case Register(w) => s.(hash := s.hash[w.id := w], tasks := s.tasks[t := Upserting(w, w.id in s.hash)])
    case Deregister(id) => s.(hash := s.hash - {id}, tasks := s.tasks[t := Deleting(id, id in s.hash)])
    case Mark(id) =>
      if id in s.hash then s.(tasks := s.tasks[t := Relabelling(id, s.hash[id].(status := H.UNHEALTHY))])
      else s.(tasks := s.tasks[t := Mirroring(id, false)])
    case Rewrite(id, status) =>
      if id in s.hash then s.(tasks := s.tasks[t := Rewriting(id, s.hash[id].(status := status))]) else s
  }

  /** The row write of an operation; an error loses it, and the operation is over either way. */
  function Written(s: State, t: nat, pc: Pc, dbOk: bool): State {
    var s' := s.(tasks := s.tasks - {t});
    if !dbOk then s' else
    match pc
    case Upserting(w, _) => s'.(rows := s.rows[w.id := w])
    case Deleting(id, _) => s'.(rows := s.rows - {id})
    case Mirroring(id, _) => s'.(rows := s.rows[id := H.Worker(id, "", 0, H.UNHEALTHY)])
    case _ => s'
  }

  function Next(s: State, a: Action): State {
    if !Enabled(s, a) then s else
    match a
    case Start(t, k) => Begin(s, t, k)
    case Hset(t) =>
      var pc := s.tasks[t];
      var s' := s.(hash := s.hash[pc.id := pc.copy]);
      if pc.Relabelling? then s'.(tasks := s.tasks[t := Mirroring(pc.id, true)]) else s'.(tasks := s.tasks - {t})
    case Commit(t, dbOk) => Written(s, t, s.tasks[t], dbOk)
  }

  function Exec(s: State, acts: seq<Action>): State
    decreases |acts|
  {
    if acts == [] then s else Exec(Next(s, acts[0]), acts[1..])
  }

  const EMPTY := State(map[], map[], map[])

  // ---- One worker's entry and row ----------------------------------------------------

  predicate Busy(s: State, w: string) { exists t :: t in s.tasks && About(s.tasks[t]) == w }

  /** The operations about this worker do not overlap; those about others may. */
  predicate OneAtATime(s: State, acts: seq<Action>, w: string)
    decreases |acts|
  {
    acts == [] || ((acts[0].Start? && Subject(acts[0].kind) == w ==> !Busy(s, w)) && OneAtATime(Next(s, acts[0]), acts[1..], w))
  }

  predicate InSync(s: State, w: string) { w in s.rows <==> w in s.hash }

  /** In every state of the run in which no operation about the worker is under way. */
  predicate AlwaysInSync(s: State, acts: seq<Action>, w: string)
    decreases |acts|
  {
    (!Busy(s, w) ==> InSync(s, w)) && (acts == [] || AlwaysInSync(Next(s, acts[0]), acts[1..], w))
  }

  /** The same condition as for operations one at a time, about the hash when the operation began. */
  predicate Harmless(pc: Pc, dbOk: bool) {
    match pc
    case Upserting(_, was) => dbOk || was
    case Deleting(_, was) => dbOk || !was
    case Mirroring(_, was) => !dbOk || was
    case _ => true
  }

  predicate HarmlessStep(s: State, a: Action, w: string) {
    Enabled(s, a) && a.Commit? && About(s.tasks[a.task]) == w ==> Harmless(s.tasks[a.task], a.dbOk)
  }

  predicate AllHarmless(s: State, acts: seq<Action>, w: string)
    decreases |acts|
  {
    acts == [] || (HarmlessStep(s, acts[0], w) && AllHarmless(Next(s, acts[0]), acts[1..], w))
  }

  /** What an operation under way says about the worker's entry and row. */
  predicate Tracks(s: State, pc: Pc, w: string) {
    match pc
    case Upserting(_, was) => w in s.hash && (w in s.rows <==> was)
    case Deleting(_, was) => w !in s.hash && (w in s.rows <==> was)
    case Relabelling(_, _) => w in s.hash && w in s.rows
    case Mirroring(_, was) => (w in s.hash <==> was) && (w in s.rows <==> was)
    case Rewriting(_, _) => w in s.hash && w in s.rows
  }

  ghost predicate Inv(s: State, w: string) {
    && (!Busy(s, w) ==> InSync(s, w))
    && (forall t :: t in s.tasks && About(s.tasks[t]) == w ==> Tracks(s, s.tasks[t], w))
    && (forall t, u :: t in s.tasks && u in s.tasks && About(s.tasks[t]) == w && About(s.tasks[u]) == w ==> t == u)
  }

  lemma ForeignLeaves(s: State, a: Action, w: string)
    requires Enabled(s, a) && if a.Start? then Subject(a.kind) != w else About(s.tasks[a.task]) != w
    ensures var s' := Next(s, a); (w in s'.hash <==> w in s.hash) && (w in s'.rows <==> w in s.rows)
    ensures var s' := Next(s, a);
            && (forall t :: t in s'.tasks && About(s'.tasks[t]) == w ==> t in s.tasks && s'.tasks[t] == s.tasks[t])
            && (forall t :: t in s.tasks && About(s.tasks[t]) == w ==> t in s'.tasks && s'.tasks[t] == s.tasks[t])
  {}

  lemma ForeignKeeps(s: State, a: Action, w: string)
    requires Inv(s, w) && Enabled(s, a)
    requires if a.Start? then Subject(a.kind) != w else About(s.tasks[a.task]) != w
    ensures Inv(Next(s, a), w)
  {
    var s' := Next(s, a);
    ForeignLeaves(s, a, w);
    assert Busy(s', w) <==> Busy(s, w);
    forall t | t in s'.tasks && About(s'.tasks[t]) == w
      ensures Tracks(s', s'.tasks[t], w)
    {
      assert Tracks(s, s.tasks[t], w);
    }
  }

  lemma StartKeeps(s: State, t: nat, k: Kind)
    requires Inv(s, Subject(k)) && !Busy(s, Subject(k)) && t !in s.tasks
    ensures Inv(Next(s, Start(t, k)), Subject(k))
  {
    var s' := Next(s, Start(t, k));
    assert forall u :: u in s'.tasks && About(s'.tasks[u]) == Subject(k) ==> u == t;
    if t in s'.tasks { assert About(s'.tasks[t]) == Subject(k); }
  }

  lemma HsetKeeps(s: State, t: nat)
    requires t in s.tasks && Inv(s, About(s.tasks[t])) && Enabled(s, Hset(t))
    ensures Inv(Next(s, Hset(t)), About(s.tasks[t]))
  {
    var s', w := Next(s, Hset(t)), About(s.tasks[t]);
    assert forall u :: u in s'.tasks && About(s'.tasks[u]) == w ==> u == t;
    if t in s'.tasks { assert About(s'.tasks[t]) == w; }
  }

  lemma CommitInSyncIff(s: State, t: nat, dbOk: bool)
    requires t in s.tasks && Inv(s, About(s.tasks[t])) && Enabled(s, Commit(t, dbOk))
    ensures var s', w := Next(s, Commit(t, dbOk)), About(s.tasks[t]);
            && !Busy(s', w)
            && (InSync(s', w) <==> Harmless(s.tasks[t], dbOk))
            && (Harmless(s.tasks[t], dbOk) ==> Inv(s', w))
  {
    var s', w := Next(s, Commit(t, dbOk)), About(s.tasks[t]);
    assert forall u :: u in s'.tasks ==> u in s.tasks && s'.tasks[u] == s.tasks[u] && About(s.tasks[u]) != w;
  }

  lemma NextKeeps(s: State, a: Action, w: string)
    requires Inv(s, w) && HarmlessStep(s, a, w)
    requires a.Start? && Subject(a.kind) == w ==> !Busy(s, w)
    ensures Inv(Next(s, a), w)
  {
    if Enabled(s, a) {
      if (if a.Start? then Subject(a.kind) != w else About(s.tasks[a.task]) != w) {
        ForeignKeeps(s, a, w);
      } else {
        match a
        case Start(t, k) => StartKeeps(s, t, k);
        case Hset(t) => HsetKeeps(s, t);
        case Commit(t, dbOk) => CommitInSyncIff(s, t, dbOk);
      }
    }
  }

  lemma {:induction false} SyncIffHarmless(s: State, acts: seq<Action>, w: string)
    requires Inv(s, w) && OneAtATime(s, acts, w)
    ensures AlwaysInSync(s, acts, w) <==> AllHarmless(s, acts, w)
    decreases |acts|
  {
    if acts != [] {
      var a := acts[0];
      if HarmlessStep(s, a, w) {
        NextKeeps(s, a, w);
        SyncIffHarmless(Next(s, a), acts[1..], w);
      } else {
        CommitInSyncIff(s, a.task, a.dbOk);
      }
    }
  }

  /**
   However the operations about different workers interleave: if those about one
   worker do not overlap, its row is there exactly when its entry is, whenever none
   is under way, iff each of them was harmless: no registration or deletion that
   changed the hash lost its database write, and the worker was not marked while absent.
   */
  lemma RowMirrorsIff(acts: seq<Action>, w: string)
    requires OneAtATime(EMPTY, acts, w)
    ensures AlwaysInSync(EMPTY, acts, w) <==> AllHarmless(EMPTY, acts, w)
  {
    SyncIffHarmless(EMPTY, acts, w);
  }

  /** A registration whose row is written after a deregistration that began later is over. */
  function Overlap(v: H.Worker): seq<Action> {
    [Start(0, Register(v)), Start(1, Deregister(v.id)), Commit(1, true), Commit(0, true)]
  }

  lemma ExecFirst(s: State, acts: seq<Action>, w: string)
    requires acts != []
    ensures Exec(s, acts) == Exec(Next(s, acts[0]), acts[1..])
    ensures AllHarmless(s, acts, w) <==> HarmlessStep(s, acts[0], w) && AllHarmless(Next(s, acts[0]), acts[1..], w)
  {}

  /** The failing input without the condition: no error, every step harmless, and a row without an entry stays. */
  lemma OverlapLeavesRow(v: H.Worker)
    ensures AllHarmless(EMPTY, Overlap(v), v.id)
    ensures var s := Exec(EMPTY, Overlap(v)); s.tasks == map[] && v.id in s.rows && v.id !in s.hash
  {
    var w, acts := v.id, Overlap(v);
    ExecFirst(EMPTY, acts, w);
    var s1 := Next(EMPTY, acts[0]);
    assert acts[1..] == [acts[1], acts[2], acts[3]];
    ExecFirst(s1, acts[1..], w);
    var s2 := Next(s1, acts[1]);
    assert acts[1..][1..] == [acts[2], acts[3]];
    ExecFirst(s2, [acts[2], acts[3]], w);
    var s3 := Next(s2, acts[2]);
    assert [acts[2], acts[3]][1..] == [acts[3]];
    ExecFirst(s3, [acts[3]], w);
    assert [acts[3]][1..] == [];
    assert s3.tasks == map[0 := Upserting(v, false)];
    assert Next(s3, acts[3]).tasks == map[];
  }
}
