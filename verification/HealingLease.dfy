/**
 The leader key of the self-healing job: SET NX EX 60, never released. Replicas
 try to take it at arbitrary times; the winner heals for as long as it takes.
 */
module HealingLease {
  import opened Common

  const LEADER_TTL := 60.0

  /** The key is there until its deadline. */
  predicate Taken(deadline: Option<real>, now: real) { deadline.Some? && now < deadline.value }

  class LeaderKey {
    var deadline: Option<real>

    constructor ()
      ensures deadline == None
    {
      deadline := None;
    }

    method Acquire(now: real) returns (leader: bool)
      modifies this
      ensures leader <==> !Taken(old(deadline), now)
      ensures leader <==> old(deadline).None? || now >= old(deadline).value
      ensures deadline == if leader then Some(now + 60.0) else old(deadline)
    {
      leader := !Taken(deadline, now);
      if leader {
        deadline := Some(now + LEADER_TTL);
      }
    }

    /** Serves a sequence of attempts by any replicas and reports which ones won. */
    method Serve(attempts: seq<real>) returns (won: seq<real>)
      requires deadline == None
      modifies this
      ensures won == Winners(attempts) && deadline == Deadline(attempts)
    {
      won := [];
      for i := 0 to |attempts|
        invariant won == Winners(attempts[..i]) && deadline == Deadline(attempts[..i])
      {
        assert attempts[..i + 1][..i] == attempts[..i];
        var leader := Acquire(attempts[i]);
        if leader {
          won := won + [attempts[i]];
        }
      }
      assert attempts[..|attempts|] == attempts;
    }
  }

  function Deadline(attempts: seq<real>): Option<real> {
    if attempts == [] then None else
      var before, now := Deadline(attempts[..|attempts| - 1]), attempts[|attempts| - 1];
      if Taken(before, now) then before else Some(now + LEADER_TTL)
  }

  function Winners(attempts: seq<real>): seq<real> {
    if attempts == [] then [] else
      var before, now := attempts[..|attempts| - 1], attempts[|attempts| - 1];
      if Taken(Deadline(before), now) then Winners(before) else Winners(before) + [now]
  }

  lemma {:induction false} LastWinnerSetsDeadline(attempts: seq<real>)
    ensures Winners(attempts) == [] <==> Deadline(attempts) == None
    ensures var ws := Winners(attempts);
            ws != [] ==> Deadline(attempts) == Some(ws[|ws| - 1] + LEADER_TTL)
  {
    if attempts != [] { LastWinnerSetsDeadline(attempts[..|attempts| - 1]); }
  }

  /** An attempt wins exactly if it is the first, or the last winner is at least 60 seconds back. */
  lemma WinsIffFree(attempts: seq<real>, now: real)
    ensures var ws := Winners(attempts);
            Winners(attempts + [now]) == if ws == [] || now - ws[|ws| - 1] >= 60.0 then ws + [now] else ws
  {
    assert (attempts + [now])[..|attempts|] == attempts;
    LastWinnerSetsDeadline(attempts);
  }

  lemma {:induction false} NeighboursSpaced(attempts: seq<real>, i: nat)
    requires i + 1 < |Winners(attempts)|
    ensures Winners(attempts)[i + 1] >= Winners(attempts)[i] + LEADER_TTL
  {
    var before := attempts[..|attempts| - 1];
    LastWinnerSetsDeadline(before);
    if i + 1 < |Winners(before)| { NeighboursSpaced(before, i); }
  }

  /** Acquisitions i and j are at least 60 (j - i) seconds apart, however the replicas race. */
  lemma {:induction false} AcquisitionsSpaced(attempts: seq<real>, i: nat, j: nat)
    requires i <= j < |Winners(attempts)|
    ensures Winners(attempts)[j] >= Winners(attempts)[i] + (j - i) as real * 60.0
    decreases j - i
  {
    if i < j {
      AcquisitionsSpaced(attempts, i, j - 1);
      NeighboursSpaced(attempts, j - 1);
    }
  }

  /** The acquisitions from one instant to another. */
  function WonBetween(attempts: seq<real>, start: real, end: real): set<nat> {
    set i: nat | i < |Winners(attempts)| && start <= Winners(attempts)[i] <= end
  }

  /** A non-empty set of naturals whose members differ by at most `spread` has at most spread + 1 of them. */
  lemma {:induction false} SpreadBoundsSize(s: set<nat>, spread: nat)
    requires forall i, j :: i in s && j in s ==> j - i <= spread
    ensures |s| <= spread + 1
  {
    if s != {} {
      var low := Least(s);
      RangeSize(low, spread);
      SubsetSize(s, Range(low, spread));
    }
  }

  lemma {:induction false} Least(s: set<nat>) returns (low: nat)
    requires s != {}
    ensures low in s && forall i :: i in s ==> low <= i
  {
    var some :| some in s;
    low := some;
    assert forall i :: i in s ==> i == some || i in s - {some};
    if s != {some} {
      var rest := Least(s - {some});
      if rest < some { low := rest; }
    }
  }

  /** The numbers from low to low + spread. */
  function Range(low: nat, spread: nat): set<nat> {
    if spread == 0 then {low} else Range(low, spread - 1) + {low + spread}
  }

  lemma {:induction false} RangeSize(low: nat, spread: nat)
    ensures |Range(low, spread)| == spread + 1
    ensures forall k: nat :: k in Range(low, spread) <==> low <= k <= low + spread
  {
    if spread > 0 { RangeSize(low, spread - 1); }
  }

  /** The largest number of whole lease times in a length of time. */
  function Leases(length: real): nat
    requires length >= 0.0
  {
    (length / LEADER_TTL).Floor
  }

  lemma WithinLeases(d: int, length: real)
    requires length >= 0.0 && d as real * LEADER_TTL <= length
    ensures d <= Leases(length)
  {
    assert d as real <= length / LEADER_TTL;
  }

  /** A window of the given length holds at most floor(length / 60) + 1 acquisitions. */
  lemma WindowBound(attempts: seq<real>, start: real, length: real)
    requires length >= 0.0
    ensures |WonBetween(attempts, start, start + length)| <= (length / 60.0).Floor + 1
  {
    var won := WonBetween(attempts, start, start + length);
    forall i, j | i in won && j in won
      ensures j - i <= Leases(length)
    {
      if i < j {
        AcquisitionsSpaced(attempts, i, j);
        WithinLeases(j - i, length);
      }
    }
    SpreadBoundsSize(won, Leases(length));
  }

  /** The i-th winner, healing for at most `longest`, may still be at it at the instant. */
  predicate MayBeHealing(attempts: seq<real>, i: nat, longest: real, instant: real)
    requires i < |Winners(attempts)|
  {
    Winners(attempts)[i] <= instant <= Winners(attempts)[i] + longest
  }

  function Healing(attempts: seq<real>, longest: real, instant: real): set<nat> {
    set i: nat | i < |Winners(attempts)| && MayBeHealing(attempts, i, longest, instant)
  }

  /** At most floor(longest / 60) + 1 healings are under way at any instant. */
  lemma OverlapBound(attempts: seq<real>, longest: real, instant: real)
    requires longest >= 0.0
    ensures |Healing(attempts, longest, instant)| <= (longest / 60.0).Floor + 1
  {
    WindowBound(attempts, instant - longest, longest);
    assert Healing(attempts, longest, instant) == WonBetween(attempts, instant - longest, instant);
  }

  ghost predicate Exclusive(longest: real) {
    forall attempts, i: nat, j: nat, instant ::
      i < j < |Winners(attempts)| ==>
        !(MayBeHealing(attempts, i, longest, instant) && MayBeHealing(attempts, j, longest, instant))
  }

  /** The key keeps healings apart in every run exactly when none of them can last a minute. */
  lemma ExclusiveIffShort(longest: real)
    requires longest >= 0.0
    ensures Exclusive(longest) <==> longest < 60.0
  {
    if longest < LEADER_TTL {
      forall attempts, i: nat, j: nat, instant | i < j < |Winners(attempts)|
        ensures !(MayBeHealing(attempts, i, longest, instant) && MayBeHealing(attempts, j, longest, instant))
      {
        AcquisitionsSpaced(attempts, i, j);
        assert (j - i) as real >= 1.0;
      }
    } else {
      var attempts := [0.0, LEADER_TTL];
      assert attempts[..1] == [0.0] && [0.0][..0] == [];
      assert Deadline([0.0]) == Some(LEADER_TTL) && Winners([0.0]) == [0.0];
      assert Winners(attempts) == attempts;
      assert MayBeHealing(attempts, 0, longest, LEADER_TTL) && MayBeHealing(attempts, 1, longest, LEADER_TTL);
    }
  }
}
