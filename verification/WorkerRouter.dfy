/**
 The SSL gateway's routing code: reading the worker list, the round-robin choice
 and the failover loop, during which every other task may act.
 */
module WorkerRouter {
  import opened Common
  import opened WorkerHash
  import opened WorkerTasks
  import RR = RoundRobin

  /** One hash value as text: a JSON object, or something that does not parse. */
  type Raw = Option<Worker>

  type Registry = map<string, Raw>

  datatype Reply = Status(code: int, body: string) | Unreachable

  datatype Response = Response(code: int, content: string)

  const NO_WORKERS := Response(503, "No WAF workers available")
  const ALL_UNAVAILABLE := Response(503, "All WAF workers unavailable")

  predicate Failed(r: Reply) { r.Unreachable? || r.code == 502 || r.code == 503 || r.code == 504 }

  predicate Usable(raw: Raw) { raw.Some? && raw.value.status == HEALTHY }

  /** The healthy entries in the order in which the server lists the keys. */
  function Healthy(reg: Registry, order: seq<string>): seq<Worker>
    requires forall k :: k in order ==> k in reg
  {
    if order == [] then [] else
      var rest := Healthy(reg, order[..|order| - 1]);
      var raw := reg[order[|order| - 1]];
      if Usable(raw) then rest + [raw.value] else rest
  }

  /** Everyone but the worker with the given id, in order. */
  function Others(ws: seq<Worker>, id: string): seq<Worker> {
    if ws == [] then []
    else (if ws[0].id != id then [ws[0]] else []) + Others(ws[1..], id)
  }

  function Candidates(ws: seq<Worker>, i: nat): seq<Worker>
    requires i < |ws|
  {
    [ws[i]] + Others(ws, ws[i].id)
  }

  // ---- Properties of the specification ---------------------------------------

  lemma {:induction false} HealthyExactly(reg: Registry, order: seq<string>, w: Worker)
    requires forall k :: k in order ==> k in reg
    ensures w in Healthy(reg, order) <==> exists k :: k in order && reg[k] == Some(w) && w.status == "healthy"
  {
    if order != [] {
      var init, last := order[..|order| - 1], order[|order| - 1];
      HealthyExactly(reg, init, w);
      assert order == init + [last];
      assert forall k :: k in order <==> k in init || k == last;
    }
  }

  ghost predicate IdsAreKeys(reg: Registry) {
    forall k :: k in reg && reg[k].Some? ==> reg[k].value.id == k
  }

  lemma {:induction false} HealthyDistinct(reg: Registry, order: seq<string>)
    requires (forall k :: k in order ==> k in reg) && IdsAreKeys(reg) && Distinct(order)
    ensures DistinctIds(Healthy(reg, order))
    ensures forall w :: w in Healthy(reg, order) ==> w.id in order
  {
    if order != [] {
      var init, last := order[..|order| - 1], order[|order| - 1];
      assert order == init + [last];
      HealthyDistinct(reg, init);
      assert last !in init;
      var ws := Healthy(reg, init);
      assert forall i :: 0 <= i < |ws| ==> ws[i] in ws && ws[i].id in init;
    }
  }

  ghost predicate Before(order: seq<string>, a: string, b: string) {
    exists p, q :: 0 <= p < q < |order| && order[p] == a && order[q] == b
  }

  /** The list is in the order in which the server gave the keys. */
  lemma {:induction false} HealthyInOrder(reg: Registry, order: seq<string>, i: nat, j: nat)
    requires (forall k :: k in order ==> k in reg) && IdsAreKeys(reg)
    requires i < j < |Healthy(reg, order)|
    ensures Before(order, Healthy(reg, order)[i].id, Healthy(reg, order)[j].id)
  {
    var init, last := order[..|order| - 1], |order| - 1;
    var before := Healthy(reg, init);
    if j < |before| {
      HealthyInOrder(reg, init, i, j);
      var p, q :| 0 <= p < q < |init| && init[p] == before[i].id && init[q] == before[j].id;
      assert order[p] == init[p] && order[q] == init[q];
    } else {
      HealthyListed(reg, init, before[i]);
      var p :| 0 <= p < |init| && init[p] == before[i].id;
      assert order[p] == init[p] && order[last] == Healthy(reg, order)[j].id;
    }
  }

  lemma HealthyListed(reg: Registry, order: seq<string>, w: Worker)
    requires (forall k :: k in order ==> k in reg) && IdsAreKeys(reg) && w in Healthy(reg, order)
    ensures exists p :: 0 <= p < |order| && order[p] == w.id
  {
    HealthyExactly(reg, order, w);
    var k :| k in order && reg[k] == Some(w);
    assert k == w.id;
  }

  /** The selected worker comes first, the others follow in the order of the snapshot. */
  lemma {:induction false} OthersInOrder(ws: seq<Worker>, i: nat)
    requires DistinctIds(ws) && i < |ws|
    ensures Others(ws, ws[i].id) == ws[..i] + ws[i + 1..]
  {
    var tail := ws[1..];
    if i == 0 {
      OthersAll(tail, ws[0].id);
      assert ws[..0] == [];
    } else {
      assert DistinctIds(tail) && tail[i - 1] == ws[i] && ws[0].id != ws[i].id;
      OthersInOrder(tail, i - 1);
      Reheaded(ws, i);
    }
  }

  lemma Reheaded(ws: seq<Worker>, i: nat)
    requires 0 < i < |ws|
    ensures [ws[0]] + (ws[1..][..i - 1] + ws[1..][i..]) == ws[..i] + ws[i + 1..]
  {
    assert ws[..i] == [ws[0]] + ws[1..][..i - 1] && ws[i + 1..] == ws[1..][i..];
  }

  predicate DistinctIds(ws: seq<Worker>) {
    forall i, j :: 0 <= i < j < |ws| ==> ws[i].id != ws[j].id
  }

  lemma {:induction false} OthersComplement(ws: seq<Worker>, i: nat)
    requires i < |ws| && DistinctIds(ws)
    ensures multiset(Others(ws, ws[i].id)) + multiset{ws[i]} == multiset(ws)
  {
    assert ws == [ws[0]] + ws[1..];
    if i == 0 {
      OthersAll(ws[1..], ws[0].id);
    } else {
      OthersComplement(ws[1..], i - 1);
    }
  }

  lemma {:induction false} OthersAll(ws: seq<Worker>, id: string)
    requires forall k :: 0 <= k < |ws| ==> ws[k].id != id
    ensures Others(ws, id) == ws
  {
    if ws != [] {
      OthersAll(ws[1..], id);
      assert ws == [ws[0]] + ws[1..];
    }
  }

  /** Each worker of the snapshot is a candidate exactly once. */
  lemma CandidatesPermuteSnapshot(reg: Registry, order: seq<string>, i: nat)
    requires (forall k :: k in order ==> k in reg) && IdsAreKeys(reg) && Distinct(order)
    requires i < |Healthy(reg, order)|
    ensures multiset(Candidates(Healthy(reg, order), i)) == multiset(Healthy(reg, order))
  {
    HealthyDistinct(reg, order);
    OthersComplement(Healthy(reg, order), i);
  }

  lemma CandidateIds(reg: Registry, order: seq<string>, i: nat)
    requires (forall k :: k in order ==> k in reg) && IdsAreKeys(reg) && Distinct(order)
    requires i < |Healthy(reg, order)|
    ensures var cs := Candidates(Healthy(reg, order), i);
            Distinct(Ids(cs)) && forall c :: c in cs ==> c.id in reg && Usable(reg[c.id])
  {
    var ws := Healthy(reg, order);
    var cs := Candidates(ws, i);
    HealthyDistinct(reg, order);
    CandidatesPermuteSnapshot(reg, order, i);
    OthersLack(ws, ws[i].id);
    OthersDistinct(ws, ws[i].id);
    forall c | c in cs
      ensures c.id in reg && Usable(reg[c.id])
    {
      assert c in multiset(cs);
      assert c in ws;
      HealthyExactly(reg, order, c);
    }
  }

  lemma {:induction false} OthersLack(ws: seq<Worker>, id: string)
    ensures forall w :: w in Others(ws, id) <==> w in ws && w.id != id
  {
    if ws != [] {
      assert ws == [ws[0]] + ws[1..];
      OthersLack(ws[1..], id);
    }
  }

  lemma {:induction false} OthersDistinct(ws: seq<Worker>, id: string)
    requires DistinctIds(ws)
    ensures DistinctIds(Others(ws, id))
  {
    if ws != [] {
      OthersLack(ws[1..], id);
      OthersDistinct(ws[1..], id);
      assert forall j :: 0 < j < |ws| ==> ws[j] in ws[1..];
      var rest := Others(ws[1..], id);
      assert forall j :: 0 <= j < |rest| ==> rest[j] in ws[1..];
    }
  }

  function Ids(ws: seq<Worker>): seq<string> {
    seq(|ws|, i requires 0 <= i < |ws| => ws[i].id)
  }

  /** The values of the hash, all of which parse: every write is a JSON object. */
  function AsRaw(hash: map<string, Worker>): Registry { map k | k in hash :: Some(hash[k]) }

  // ---- The gateway ---------------------------------------------------------------

  /** The keys of the hash, each once, in some order. */
  predicate Lists(order: seq<string>, hash: map<string, Worker>) {
    Distinct(order) && (forall k :: k in order ==> k in hash) && (forall k :: k in hash ==> k in order)
  }

  predicate Unchanged(order: seq<string>, hash: map<string, Worker>, ws: seq<Worker>) {
    Lists(order, hash) && Healthy(AsRaw(hash), order) == ws
  }

  function Occurrences(xs: seq<string>, x: string): nat {
    if xs == [] then 0 else Occurrences(xs[..|xs| - 1], x) + if xs[|xs| - 1] == x then 1 else 0
  }

  lemma {:induction false} OccurrencesArePicks(ws: seq<Worker>, start: nat, firsts: seq<string>, w: string)
    requires ws != [] && InTurn(ws, start, firsts)
    ensures Occurrences(firsts, w) == RR.Picks(Ids(ws), start, |firsts|, w)
  {
    if firsts != [] { OccurrencesArePicks(ws, start, firsts[..|firsts| - 1], w); }
  }

  lemma FirstsArePicks(ws: seq<Worker>, start: nat, firsts: seq<string>)
    requires ws != [] && DistinctIds(ws) && InTurn(ws, start, firsts)
    ensures forall w :: w in Ids(ws) ==>
              |firsts| / |ws| <= Occurrences(firsts, w) <= |firsts| / |ws| + if |firsts| % |ws| == 0 then 0 else 1
  {
    forall w | w in Ids(ws)
      ensures |firsts| / |ws| <= Occurrences(firsts, w) <= |firsts| / |ws| + if |firsts| % |ws| == 0 then 0 else 1
    {
      OccurrencesArePicks(ws, start, firsts, w);
      RR.Fair(Ids(ws), start, |firsts|, w);
    }
  }

  method GetWorkers(reg: Registry, order: seq<string>) returns (ws: seq<Worker>)
    requires forall k :: k in order ==> k in reg
    ensures ws == Healthy(reg, order)
  {
    ws := [];
    for i := 0 to |order|
      invariant ws == Healthy(reg, order[..i])
    {
      assert order[..i + 1][..i] == order[..i];
      var raw := reg[order[i]];
      if raw.Some? && raw.value.status == HEALTHY {
        ws := ws + [raw.value];
      }
    }
    assert order[..|order|] == order;
  }

  class LoadBalancer {
    var counter: nat

    /** INCR returns the value after the increment, or raises. */
    method SelectWorker(ws: seq<Worker>, ok: bool) returns (index: Option<nat>)
      requires ws != []
      modifies this
      ensures counter == if ok then old(counter) + 1 else old(counter)
      ensures index == if ok then Some(counter % |ws|) else None
    {
      if !ok { return None; }
      counter := counter + 1;
      index := Some(counter % |ws|);
    }
  }

  /** One attempt: the worker's answer, the marking that may follow, and what happens meanwhile. */
  datatype Hop = Hop(reply: Reply, sending: seq<Action>, mark: Io)

  predicate HopOk(id: nat, h: Hop, still: set<string>) {
    && Foreign(id, h.sending) && IoOk(id, h.mark)
    && Still(h.sending, still) && Still(h.mark.beforeGet, still) && Still(h.mark.beforeSet, still)
  }

  predicate Marks(h: Hop) { h.mark.getOk && h.mark.setOk }

  /** Of the candidates that failed, those whose marking succeeded and whom nobody registers are not routable. */
  ghost predicate MarkedOut(s: System, cs: seq<Worker>, tried: nat, hops: nat -> Hop, still: set<string>) {
    tried <= |cs| && forall j :: 0 <= j < tried && Marks(hops(j)) && cs[j].id in still ==> !Routable(s, cs[j].id)
  }

  lemma AllMarkedOut(s: System, ws: seq<Worker>, i: nat, tried: nat, hops: nat -> Hop, still: set<string>)
    requires i < |ws|
    requires MarkedOut(s, [ws[i]] + (ws[..i] + ws[i + 1..]), tried, hops, still)
    ensures tried == |ws| && (forall j: nat :: j < |ws| ==> Marks(hops(j))) ==>
              forall w :: w in ws && w.id in still ==> !Routable(s, w.id)
  {
    var cs := [ws[i]] + (ws[..i] + ws[i + 1..]);
    assert |cs| == |ws|;
    forall w | w in ws
      ensures w in cs
    {
      var k :| 0 <= k < |ws| && ws[k] == w;
      assert if k == i then cs[0] == w else if k < i then cs[k + 1] == w else cs[k] == w;
    }
  }

  lemma SnapshotEnabled(s: System, id: nat, order: seq<string>, i: nat)
    requires Inv(s) && id !in s.tasks && Lists(order, s.hash) && i < |Healthy(AsRaw(s.hash), order)|
    ensures Enabled(s, Snapshot(id, Ids(Candidates(Healthy(AsRaw(s.hash), order), i))))
  {
    CandidateIds(AsRaw(s.hash), order, i);
  }

  /** The k-th request goes first to the worker at the k-th counter value after `start`. */
  ghost predicate InTurn(ws: seq<Worker>, start: nat, firsts: seq<string>)
    requires ws != []
  {
    forall k: nat :: k < |firsts| ==> firsts[k] == ws[(start + 1 + k) % |ws|].id
  }

  /** One request and what it meets. */
  datatype Client = Client(id: nat, hops: nat -> Hop)

  predicate AlwaysOk(c: Client, k: nat) { HopOk(c.id, c.hops(k), {}) }

  ghost predicate ClientOk(c: Client) { forall k: nat :: AlwaysOk(c, k) }

  class Gateway {
    const fleet: Fleet
    const lb: LoadBalancer

    constructor (fleet: Fleet, lb: LoadBalancer)
      ensures this.fleet == fleet && this.lb == lb
    {
      this.fleet, this.lb := fleet, lb;
    }

    /** Sends the request to its next candidate and waits for the answer; a worker that fails is marked. */
    method Attempt(id: nat, h: Hop, ghost still: set<string>) returns (failed: bool)
      requires fleet.Valid() && HopOk(id, h, still)
      requires id in fleet.tasks && fleet.tasks[id].Request? && fleet.tasks[id].todo != []
      modifies fleet
      ensures fleet.Valid() && old(fleet.trace) <= fleet.trace
      ensures failed <==> h.reply.Unreachable? || h.reply.code == 502 || h.reply.code == 503 || h.reply.code == 504
      ensures failed ==>
                var t := old(fleet.tasks)[id];
                && id in fleet.tasks && fleet.tasks[id] == Request(t.todo[1..], t.since)
                && (Marks(h) ==> !Routable(fleet.View(), t.todo[0]))
      ensures forall w :: w in still && !Routable(old(fleet.View()), w) ==> !Routable(fleet.View(), w)
      ensures var w, before := old(fleet.tasks)[id].todo[0], old(fleet.History(id));
              fleet.History(id) == Log(before.sent + [w], before.marked + if failed then [w] else [])
    {
      var t := fleet.tasks[id];
      fleet.Close(fleet.View(), Action.Send(id), fleet.tasks[id := Sending(t.todo[0], t.todo[1..], t.since)], id);
      fleet.Await(id, h.sending, still);
      failed := h.reply.Unreachable? || h.reply.code == 502 || h.reply.code == 503 || h.reply.code == 504;
      if failed {
        var _ := fleet.MarkWorkerFailed(id, h.mark, still);
      } else {
        fleet.Close(fleet.View(), Action.Reply(id, true), fleet.tasks - {id}, id);
      }
    }

    /** How many workers the request has been sent to when `tried` of the candidates have failed. */
    static function Sent(tried: nat, candidates: nat): nat { if tried < candidates then tried + 1 else candidates }

    /**
     The failover loop, while all other tasks may act. `tried` counts the
     candidates that failed, and a mark is attempted on exactly those; `still` are
     workers that nobody registers meanwhile.
     */
    method TryInTurn(id: nat, cs: seq<Worker>, hops: nat -> Hop, ghost still: set<string>)
      returns (r: Response, tried: nat)
      requires fleet.Valid() && (forall k: nat :: HopOk(id, hops(k), still))
      requires id in fleet.tasks && fleet.tasks[id].Request? && fleet.tasks[id].todo == Ids(cs)
      modifies fleet
      ensures fleet.Valid() && old(fleet.trace) <= fleet.trace && tried <= |cs|
      ensures forall j :: 0 <= j < tried ==> Failed(hops(j).reply)
      ensures MarkedOut(fleet.View(), cs, tried, hops, still)
      ensures tried == |cs| ==> r == ALL_UNAVAILABLE
      ensures tried < |cs| ==> !Failed(hops(tried).reply)
                               && r == Response(hops(tried).reply.code, hops(tried).reply.body)
      ensures fleet.History(id) == Log(old(fleet.History(id)).sent + Ids(cs)[..Sent(tried, |cs|)],
                                       old(fleet.History(id)).marked + Ids(cs)[..tried])
    {
      tried := 0;
      while tried < |cs|
        invariant tried <= |cs| && fleet.Valid() && old(fleet.trace) <= fleet.trace
        invariant id in fleet.tasks && fleet.tasks[id].Request? && fleet.tasks[id].todo == Ids(cs)[tried..]
        invariant forall j :: 0 <= j < tried ==> Failed(hops(j).reply)
        invariant MarkedOut(fleet.View(), cs, tried, hops, still)
        invariant fleet.History(id) == Log(old(fleet.History(id)).sent + Ids(cs)[..tried],
                                           old(fleet.History(id)).marked + Ids(cs)[..tried])
      {
        assert Ids(cs)[..tried + 1] == Ids(cs)[..tried] + [Ids(cs)[tried]];
        var failed := Attempt(id, hops(tried), still);
        if !failed { return Response(hops(tried).reply.code, hops(tried).reply.body), tried; }
        tried := tried + 1;
      }
      r := ALL_UNAVAILABLE;
    }

    /**
     `forward_to_worker`. `order` is how the server lists the hash. An exception of
     the snapshot or of the counter ends the request before any worker is tried. The
     request goes to the worker at the incremented counter first, and to the others,
     in the order of the snapshot, as long as those before have failed.
     */
    method Forward(id: nat, order: seq<string>, snapshotOk: bool, countOk: bool, hops: nat -> Hop, ghost still: set<string>)
      returns (r: Option<Response>, tried: nat)
      requires fleet.Valid() && id !in fleet.tasks && (forall k: nat :: HopOk(id, hops(k), still))
      requires Lists(order, fleet.hash)
      modifies fleet, lb
      ensures fleet.Valid() && old(fleet.trace) <= fleet.trace
      ensures var ws := Healthy(AsRaw(old(fleet.hash)), order);
              if !snapshotOk || ws == [] || !countOk then
                && r == (if snapshotOk && ws == [] then Some(Response(503, "No WAF workers available")) else None)
                && tried == 0 && fleet.View() == old(fleet.View()) && fleet.trace == old(fleet.trace)
                && lb.counter == old(lb.counter)
              else
                var i := (old(lb.counter) + 1) % |ws|;
                var cs := [ws[i]] + (ws[..i] + ws[i + 1..]);
                && lb.counter == old(lb.counter) + 1
                && Forwarded(cs, tried, r, hops)
                && fleet.History(id).sent == old(fleet.History(id)).sent + Ids(cs)[..Sent(tried, |cs|)]
                && fleet.History(id).marked == old(fleet.History(id)).marked + Ids(cs)[..tried]
                && MarkedOut(fleet.View(), cs, tried, hops, still)
                && (tried == |cs| && (forall j: nat :: j < |cs| ==> Marks(hops(j))) ==>
                      forall w :: w in ws && w.id in still ==> !Routable(fleet.View(), w.id))
    {
      if !snapshotOk { return None, 0; }
      var ws := GetWorkers(AsRaw(fleet.hash), order);
      if ws == [] { return Some(NO_WORKERS), 0; }
      var index := lb.SelectWorker(ws, countOk);
      if index.None? { return None, 0; }
      r, tried := RouteAll(id, order, ws, index.value, hops, still);
    }

    method RouteAll(id: nat, order: seq<string>, ws: seq<Worker>, i: nat, hops: nat -> Hop, ghost still: set<string>)
      returns (r: Option<Response>, tried: nat)
      requires fleet.Valid() && id !in fleet.tasks && (forall k: nat :: HopOk(id, hops(k), still))
      requires Lists(order, fleet.hash) && ws == Healthy(AsRaw(fleet.hash), order) && i < |ws|
      modifies fleet
      ensures fleet.Valid() && old(fleet.trace) <= fleet.trace
      ensures var cs := [ws[i]] + (ws[..i] + ws[i + 1..]);
              && Forwarded(cs, tried, r, hops)
              && fleet.History(id).sent == old(fleet.History(id)).sent + Ids(cs)[..Sent(tried, |cs|)]
              && fleet.History(id).marked == old(fleet.History(id)).marked + Ids(cs)[..tried]
              && MarkedOut(fleet.View(), cs, tried, hops, still)
              && (tried == |cs| && (forall j: nat :: j < |cs| ==> Marks(hops(j))) ==>
                    forall w :: w in ws && w.id in still ==> !Routable(fleet.View(), w.id))
    {
      r, tried := Route(id, order, ws, i, hops, still);
      AllMarkedOut(fleet.View(), ws, i, tried, hops, still);
    }

    /** From the selection on. */
    method Route(id: nat, order: seq<string>, ws: seq<Worker>, i: nat, hops: nat -> Hop, ghost still: set<string>)
      returns (r: Option<Response>, tried: nat)
      requires fleet.Valid() && id !in fleet.tasks && (forall k: nat :: HopOk(id, hops(k), still))
      requires Lists(order, fleet.hash) && ws == Healthy(AsRaw(fleet.hash), order) && i < |ws|
      modifies fleet
      ensures fleet.Valid() && old(fleet.trace) <= fleet.trace
      ensures var cs := [ws[i]] + (ws[..i] + ws[i + 1..]);
              && Forwarded(cs, tried, r, hops)
              && fleet.History(id).sent == old(fleet.History(id)).sent + Ids(cs)[..Sent(tried, |cs|)]
              && fleet.History(id).marked == old(fleet.History(id)).marked + Ids(cs)[..tried]
              && MarkedOut(fleet.View(), cs, tried, hops, still)
    {
      ghost var reg := AsRaw(fleet.hash);
      ExecKeepsInv(EMPTY, fleet.trace);
      HealthyDistinct(reg, order);
      OthersInOrder(ws, i);
      var cs := [ws[i]] + Others(ws, ws[i].id);
      Open(id, order, ws, i);
      var response;
      response, tried := TryInTurn(id, cs, hops, still);
      r := Some(response);
    }

    /** The first answer that is not a failure, or none. */
    static ghost predicate Forwarded(cs: seq<Worker>, tried: nat, r: Option<Response>, hops: nat -> Hop) {
      && tried <= |cs|
      && (forall j :: 0 <= j < tried ==> Failed(hops(j).reply))
      && (tried == |cs| ==> r == Some(Response(503, "All WAF workers unavailable")))
      && (tried < |cs| ==> !Failed(hops(tried).reply)
                           && r == Some(Response(hops(tried).reply.code, hops(tried).reply.body)))
    }

    /** One request; `first` is the worker it is sent to first. */
    method ForwardOne(c: Client, order: seq<string>, ws: seq<Worker>) returns (ghost first: string)
      requires fleet.Valid() && c.id !in fleet.tasks && ClientOk(c)
      requires ws != [] && Unchanged(order, fleet.hash, ws)
      modifies fleet, lb
      ensures fleet.Valid() && lb.counter == old(lb.counter) + 1 && first == ws[lb.counter % |ws|].id
      ensures old(fleet.History(c.id)).sent + [first] <= fleet.History(c.id).sent
    {
      ghost var before := fleet.History(c.id).sent;
      assert forall k: nat :: AlwaysOk(c, k) ==> HopOk(c.id, c.hops(k), {});
      var _, _ := Forward(c.id, order, true, true, c.hops, {});
      first := fleet.History(c.id).sent[|before|];
    }

    /**
     Requests one after the other, for as long as the list of workers stays as it is:
     `firsts` are the workers each of them was sent to first.
     */
    method Serve(requests: seq<Client>, order: seq<string>, ws: seq<Worker>) returns (n: nat, ghost firsts: seq<string>)
      requires fleet.Valid() && ws != [] && (forall r :: r in requests ==> ClientOk(r))
      modifies fleet, lb
      ensures fleet.Valid() && n <= |requests| && |firsts| == n && lb.counter == old(lb.counter) + n
      ensures InTurn(ws, old(lb.counter), firsts)
    {
      n, firsts := 0, [];
      while n < |requests| && requests[n].id !in fleet.tasks && Unchanged(order, fleet.hash, ws)
        invariant fleet.Valid() && n <= |requests| && |firsts| == n && lb.counter == old(lb.counter) + n
        invariant InTurn(ws, old(lb.counter), firsts)
      {
        assert ClientOk(requests[n]);
        ghost var first := ForwardOne(requests[n], order, ws);
        firsts := firsts + [first];
        n := n + 1;
      }
    }

    /**
     ... so, whatever fails and whatever else happens, each of k workers is the first
     choice of floor(n/k) or ceil(n/k) of the n requests.
     */
    method ServeFairly(requests: seq<Client>, order: seq<string>) returns (n: nat, ghost firsts: seq<string>)
      requires fleet.Valid() && Lists(order, fleet.hash) && Healthy(AsRaw(fleet.hash), order) != []
      requires forall r :: r in requests ==> ClientOk(r)
      modifies fleet, lb
      ensures fleet.Valid() && n <= |requests| && |firsts| == n && lb.counter == old(lb.counter) + n
      ensures var ws := Healthy(AsRaw(old(fleet.hash)), order);
              && InTurn(ws, old(lb.counter), firsts)
              && (forall w :: w in Ids(ws) ==>
                    n / |ws| <= Occurrences(firsts, w) <= n / |ws| + if n % |ws| == 0 then 0 else 1)
    {
      var ws := GetWorkers(AsRaw(fleet.hash), order);
      ExecKeepsInv(EMPTY, fleet.trace);
      HealthyDistinct(AsRaw(fleet.hash), order);
      n, firsts := Serve(requests, order, ws);
      FirstsArePicks(ws, old(lb.counter), firsts);
    }

    /** The request with its candidates, as of the snapshot. */
    method Open(id: nat, order: seq<string>, ws: seq<Worker>, i: nat)
      requires fleet.Valid() && id !in fleet.tasks
      requires Lists(order, fleet.hash)
      requires ws == Healthy(AsRaw(fleet.hash), order) && i < |ws|
      modifies fleet
      ensures fleet.Valid() && old(fleet.trace) <= fleet.trace
      ensures id in fleet.tasks && fleet.tasks[id] == Request(Ids(Candidates(ws, i)), fleet.clock)
      ensures fleet.History(id) == old(fleet.History(id))
    {
      var ids := Ids(Candidates(ws, i));
      ExecKeepsInv(EMPTY, fleet.trace);
      SnapshotEnabled(fleet.View(), id, order, i);
      fleet.Close(fleet.View(), Snapshot(id, ids), fleet.tasks[id := Request(ids, fleet.clock)], id);
    }
  }
}
