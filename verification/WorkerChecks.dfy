/**
 The health checker as it runs: the ping, the two commands of the marking, the
 row update, the deletion and the deletion of the row are all points where other
 tasks, among them the checks of other workers, may act.
 */
module WorkerChecks {
  import opened Common
  import opened WorkerHash
  import opened DeadWorker
  import opened WorkerTasks

  /** What one check meets, and what the other tasks do at its awaits. */
  datatype Visit = Visit(
    answered200: bool, io: Io, markOk: bool, hdelOk: bool, deleteOk: bool,
    ping: seq<Action>, mirroring: seq<Action>, deleting: seq<Action>, clearing: seq<Action>, pause: seq<Action>)

  predicate VisitOk(id: nat, v: Visit) {
    && IoOk(id, v.io) && Foreign(id, v.ping) && Foreign(id, v.mirroring) && Foreign(id, v.deleting)
    && Foreign(id, v.clearing) && Foreign(id, v.pause)
  }

  /** No command up to the deletion of the entry is refused. */
  predicate Smooth(v: Visit) { v.io.getOk && v.io.setOk && v.markOk && v.hdelOk }

  /** A command that every removal needs is refused. */
  predicate Blocked(v: Visit) { !(v.io.getOk && v.markOk && v.hdelOk) }

  /** The check is one failure too many. */
  predicate Condemns(count: nat, v: Visit) { !v.answered200 && count + 1 >= 3 }

  class Checker {
    const fleet: Fleet

    constructor (fleet: Fleet)
      ensures this.fleet == fleet
    {
      this.fleet := fleet;
    }

    /** The ping and its count; `condemned` means that the removal begins. */
    method Ping(id: nat, w: string, v: Visit) returns (condemned: bool)
      requires fleet.Valid() && id !in fleet.tasks && VisitOk(id, v)
      requires w in fleet.hash && Unchecked(fleet.View(), w)
      modifies fleet
      ensures fleet.Valid() && old(fleet.trace) <= fleet.trace
      ensures condemned <==> Condemns(CountOf(old(fleet.counts), w), v)
      ensures CountOf(fleet.counts, w) == if v.answered200 then 0 else CountOf(old(fleet.counts), w) + 1
      ensures condemned ==> id in fleet.tasks && fleet.tasks[id] == Removal(Pending(w, UNHEALTHY))
      ensures !condemned ==> id !in fleet.tasks && Unchecked(fleet.View(), w)
    {
      fleet.Close(fleet.View(), Check(id, w), fleet.tasks[id := Pinging(w)]);
      fleet.Await(id, v.ping);
      condemned := Count(id, w, v);
    }

    /** The answer to the ping, or its absence. */
    method Count(id: nat, w: string, v: Visit) returns (condemned: bool)
      requires fleet.Valid() && id in fleet.tasks && fleet.tasks[id] == Pinging(w)
      modifies fleet
      ensures fleet.Valid() && old(fleet.trace) <= fleet.trace
      ensures condemned <==> Condemns(CountOf(old(fleet.counts), w), v)
      ensures CountOf(fleet.counts, w) == if v.answered200 then 0 else CountOf(old(fleet.counts), w) + 1
      ensures condemned ==> id in fleet.tasks && fleet.tasks[id] == Removal(Pending(w, UNHEALTHY))
      ensures !condemned ==> id !in fleet.tasks && Unchecked(fleet.View(), w)
    {
      ghost var before := fleet.View();
      ExecKeepsInv(EMPTY, fleet.trace);
      if v.answered200 {
        fleet.counts := fleet.counts[w := 0];
        condemned := false;
      } else {
        fleet.counts := fleet.counts[w := CountOf(fleet.counts, w) + 1];
        condemned := fleet.counts[w] >= MAX_FAILURES;
      }
      if condemned {
        fleet.Close(before, Pong(id, v.answered200), fleet.tasks[id := Removal(Pending(w, UNHEALTHY))]);
      } else {
        fleet.Close(before, Pong(id, v.answered200), fleet.tasks - {id});
        LastCheckOver(before, fleet.View(), id, w);
      }
    }

    /** An error ends the removal; the count stays. */
    method GiveUp(id: nat, w: string)
      requires fleet.Valid() && id in fleet.tasks && Checks(fleet.tasks[id], w)
      requires fleet.tasks[id].Mirroring? || fleet.tasks[id].Removing? || fleet.tasks[id].Clearing?
      modifies fleet
      ensures fleet.Valid() && old(fleet.trace) <= fleet.trace
      ensures id !in fleet.tasks && Unchecked(fleet.View(), w) && fleet.counts == old(fleet.counts)
    {
      ghost var before := fleet.View();
      ExecKeepsInv(EMPTY, fleet.trace);
      fleet.Close(before, Fault(id), fleet.tasks - {id});
      LastCheckOver(before, fleet.View(), id, w);
    }

    /** After the marking: row update, HDEL, row deletion, and only then the count. */
    method Delete(id: nat, w: string, v: Visit) returns (removed: bool, ghost gone: nat)
      requires fleet.Valid() && VisitOk(id, v) && id in fleet.tasks && fleet.tasks[id] == Mirroring(w)
      modifies fleet
      ensures fleet.Valid() && old(fleet.trace) <= fleet.trace
      ensures id !in fleet.tasks && Unchecked(fleet.View(), w)
      ensures removed <==> v.markOk && v.hdelOk
      ensures removed ==> |old(fleet.trace)| <= gone <= |fleet.trace| && w !in Exec(EMPTY, fleet.trace[..gone]).hash
      ensures CountOf(fleet.counts, w) == if removed && v.deleteOk then 0 else CountOf(old(fleet.counts), w)
    {
      removed, gone := false, 0;
      fleet.Await(id, v.mirroring);
      if !v.markOk {
        GiveUp(id, w);
        return;
      }
      fleet.Close(fleet.View(), Mirror(id), fleet.tasks[id := Removing(w)]);
      removed, gone := Drop(id, w, v);
    }

    /** `deregister_worker`, up to an HDEL that raises. */
    method Drop(id: nat, w: string, v: Visit) returns (removed: bool, ghost gone: nat)
      requires fleet.Valid() && VisitOk(id, v) && id in fleet.tasks && fleet.tasks[id] == Removing(w)
      modifies fleet
      ensures fleet.Valid() && old(fleet.trace) <= fleet.trace
      ensures id !in fleet.tasks && Unchecked(fleet.View(), w)
      ensures removed <==> v.hdelOk
      ensures removed ==> |old(fleet.trace)| <= gone <= |fleet.trace| && w !in Exec(EMPTY, fleet.trace[..gone]).hash
      ensures CountOf(fleet.counts, w) == if removed && v.deleteOk then 0 else CountOf(old(fleet.counts), w)
    {
      removed, gone := false, 0;
      fleet.Await(id, v.deleting);
      if v.hdelOk {
        removed, gone := Expel(id, w, v);
      } else {
        GiveUp(id, w);
      }
    }

    /** HDEL, then `delete_worker`; the count is dropped only after both. */
    method Expel(id: nat, w: string, v: Visit) returns (removed: bool, ghost gone: nat)
      requires fleet.Valid() && VisitOk(id, v) && id in fleet.tasks && fleet.tasks[id] == Removing(w)
      modifies fleet
      ensures fleet.Valid() && old(fleet.trace) <= fleet.trace
      ensures id !in fleet.tasks && Unchecked(fleet.View(), w) && removed
      ensures |old(fleet.trace)| <= gone <= |fleet.trace| && w !in Exec(EMPTY, fleet.trace[..gone]).hash
      ensures CountOf(fleet.counts, w) == if v.deleteOk then 0 else CountOf(old(fleet.counts), w)
    {
      ghost var before := fleet.View();
      fleet.hash := fleet.hash - {w};
      fleet.Close(before, Expunge(id), fleet.tasks[id := Clearing(w)]);
      removed, gone := true, |fleet.trace|;
      ghost var at := fleet.trace;
      fleet.Await(id, v.clearing);
      if v.deleteOk {
        Forget(id, w);
      } else {
        GiveUp(id, w);
      }
      assert fleet.trace[..gone] == at;
    }

    method Forget(id: nat, w: string)
      requires fleet.Valid() && id in fleet.tasks && fleet.tasks[id] == Clearing(w)
      modifies fleet
      ensures fleet.Valid() && old(fleet.trace) <= fleet.trace
      ensures id !in fleet.tasks && Unchecked(fleet.View(), w) && CountOf(fleet.counts, w) == 0
    {
      ghost var before := fleet.View();
      ExecKeepsInv(EMPTY, fleet.trace);
      fleet.counts := fleet.counts - {w};
      fleet.Close(before, Clear(id), fleet.tasks - {id});
      LastCheckOver(before, fleet.View(), id, w);
    }

    /** `mark_worker_unhealthy` and `deregister_worker` for a condemned worker. */
    method Remove(id: nat, w: string, v: Visit) returns (removed: bool, ghost gone: nat)
      requires fleet.Valid() && VisitOk(id, v)
      requires id in fleet.tasks && fleet.tasks[id] == Removal(Pending(w, UNHEALTHY))
      modifies fleet
      ensures fleet.Valid() && old(fleet.trace) <= fleet.trace
      ensures id !in fleet.tasks && Unchecked(fleet.View(), w)
      ensures (Smooth(v) ==> removed) && (Blocked(v) ==> !removed)
      ensures removed ==> |old(fleet.trace)| <= gone <= |fleet.trace| && w !in Exec(EMPTY, fleet.trace[..gone]).hash
      ensures CountOf(fleet.counts, w) == if removed && v.deleteOk then 0 else CountOf(old(fleet.counts), w)
    {
      removed, gone := false, 0;
      ghost var at;
      var done;
      done, at := fleet.Relabel(id, v.io);
      if id in fleet.tasks {
        removed, gone := Delete(id, w, v);
      }
    }

    /**
     `_check_worker` for a worker that the round listed. The count is cleared by an
     answer or by a removal that ran to its end; an error on the way leaves it, so
     the next failed check tries again. `gone` is a moment at which the entry is out.
     */
    method CheckWorker(id: nat, w: string, v: Visit) returns (removed: bool, ghost gone: nat)
      requires fleet.Valid() && id !in fleet.tasks && VisitOk(id, v)
      requires w in fleet.hash && Unchecked(fleet.View(), w)
      modifies fleet
      ensures fleet.Valid() && old(fleet.trace) <= fleet.trace
      ensures id !in fleet.tasks && Unchecked(fleet.View(), w)
      ensures removed ==> Condemns(CountOf(old(fleet.counts), w), v) && !Blocked(v)
      ensures Condemns(CountOf(old(fleet.counts), w), v) && Smooth(v) ==> removed
      ensures removed ==> |old(fleet.trace)| <= gone <= |fleet.trace| && w !in Exec(EMPTY, fleet.trace[..gone]).hash
      ensures CountOf(fleet.counts, w) ==
                if v.answered200 || (removed && v.deleteOk) then 0 else CountOf(old(fleet.counts), w) + 1
    {
      removed, gone := false, 0;
      var condemned := Ping(id, w, v);
      if condemned {
        removed, gone := Remove(id, w, v);
      }
    }

    /** The pause between two rounds, in which only this checker would check the worker. */
    method Rest(id: nat, w: string, pause: seq<Action>)
      requires fleet.Valid() && id !in fleet.tasks && Foreign(id, pause) && NeverChecks(pause, w)
      requires Unchecked(fleet.View(), w)
      modifies fleet
      ensures fleet.Valid() && old(fleet.trace) <= fleet.trace
      ensures id !in fleet.tasks && Unchecked(fleet.View(), w)
      ensures CountOf(fleet.counts, w) == CountOf(old(fleet.counts), w)
    {
      ForeignKeepsCount(fleet.View(), pause, id, w);
      fleet.Await(id, pause);
    }

    /**
     The rounds that a dead worker sees while it is listed, with any errors. Either
     its entry is out of the hash at some moment, after at most three checks if
     none of the commands of the third is refused, and then for good exactly if no
     task holds a copy of it; or every removal that was due met an error.
     */
    method CheckUntilGone(id: nat, w: string, visits: seq<Visit>) returns (n: nat, ghost gone: Option<nat>)
      requires fleet.Valid() && id !in fleet.tasks && Unchecked(fleet.View(), w)
      requires forall v :: v in visits ==> VisitOk(id, v) && !v.answered200 && NeverChecks(v.pause, w)
      modifies fleet
      ensures fleet.Valid() && old(fleet.trace) <= fleet.trace && n <= |visits|
      ensures forall k :: ChecksLeft(CountOf(old(fleet.counts), w)) <= k + 1 < n ==> !Smooth(visits[k])
      ensures gone.None? ==> n == |visits| && w in fleet.hash
                             && forall k :: ChecksLeft(CountOf(old(fleet.counts), w)) <= k + 1 <= n ==> !Smooth(visits[k])
      ensures gone.Some? ==>
                && |old(fleet.trace)| <= gone.value <= |fleet.trace|
                && var s := Exec(EMPTY, fleet.trace[..gone.value]);
                   w !in s.hash && (GoneForGood(s, w) <==> !SomeoneHolds(s, w))
    {
      n, gone := 0, None;
      while n < |visits| && w in fleet.hash
        invariant n <= |visits| && fleet.Valid() && old(fleet.trace) <= fleet.trace
        invariant id !in fleet.tasks && Unchecked(fleet.View(), w)
        invariant CountOf(fleet.counts, w) == CountOf(old(fleet.counts), w) + n
        invariant forall k :: ChecksLeft(CountOf(old(fleet.counts), w)) <= k + 1 <= n ==> !Smooth(visits[k])
      {
        var v := visits[n];
        var removed;
        ghost var at;
        removed, at := CheckWorker(id, w, v);
        n := n + 1;
        if removed {
          gone := Some(at);
          GoneForGoodIffUnheld(Exec(EMPTY, fleet.trace[..at]), w);
          return;
        }
        Rest(id, w, v.pause);
      }
      if w !in fleet.hash {
        gone := Some(|fleet.trace|);
        assert fleet.trace[..|fleet.trace|] == fleet.trace;
        GoneForGoodIffUnheld(fleet.View(), w);
      }
    }
  }
}
