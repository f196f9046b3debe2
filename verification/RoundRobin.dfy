/**
 Fairness of the shared round-robin counter. Every INCR, whichever gateway sends
 it, returns the next integer, and the worker at that integer modulo the length
 of the list is chosen.
 */
module RoundRobin {
  import opened WorkerHash

  /** How often `w` is chosen for the counter values start+1 .. start+k. */
  function Picks(ws: seq<string>, start: nat, k: nat, w: string): nat
    requires ws != []
  {
    if k == 0 then 0
    else Picks(ws, start, k - 1, w) + if ws[(start + k) % |ws|] == w then 1 else 0
  }

  lemma MultipleNotSmall(n: int, d: int)
    requires n > 0 && 0 - n < n * d < n
    ensures d == 0
  {
    if d >= 1 {
      MultipleGrows(n, d);
    } else if d <= -1 {
      MultipleGrows(n, -d);
    }
  }

  lemma MultipleGrows(n: int, d: int)
    requires n > 0 && d >= 1
    ensures n * d >= n
  {}

  lemma ModUnique(x: int, q: int, r: int, n: int)
    requires n > 0 && 0 <= r < n && x == n * q + r
    ensures x % n == r
  {
    var q', r' := x / n, x % n;
    assert x == n * q' + r';
    assert n * (q - q') == n * q - n * q';
    MultipleNotSmall(n, q - q');
  }

  /** Steps from `start` until index `j` comes up, minus one. */
  function Wait(start: nat, j: nat, n: nat): nat
    requires n > 0
  {
    (j - start - 1) % n
  }

  lemma TurnComesUp(start: nat, j: nat, n: nat, k: nat)
    requires j < n && 1 <= k <= n
    ensures (start + k) % n == j <==> Wait(start, j, n) == k - 1
  {
    if (start + k) % n == j {
      ModUnique(j - start - 1, -((start + k) / n), k - 1, n);
    }
    if Wait(start, j, n) == k - 1 {
      ModUnique(start + k, -((j - start - 1) / n), j, n);
    }
  }

  lemma SameIndex(ws: seq<string>, i: nat, j: nat)
    requires Distinct(ws) && i < |ws| && j < |ws|
    ensures ws[i] == ws[j] <==> i == j
  {}

  lemma {:induction false} OneRound(ws: seq<string>, start: nat, k: nat, j: nat)
    requires Distinct(ws) && j < |ws| && k <= |ws|
    ensures Picks(ws, start, k, ws[j]) == if k > Wait(start, j, |ws|) then 1 else 0
  {
    if k > 0 {
      OneRound(ws, start, k - 1, j);
      TurnComesUp(start, j, |ws|, k);
      SameIndex(ws, (start + k) % |ws|, j);
    }
  }

  lemma {:induction false} PicksAdd(ws: seq<string>, start: nat, a: nat, b: nat, w: string)
    requires ws != []
    ensures Picks(ws, start, a + b, w) == Picks(ws, start, a, w) + Picks(ws, start + a, b, w)
  {
    if b > 0 { PicksAdd(ws, start, a, b - 1, w); }
  }

  /** Full rounds in `k` requests over `n` workers, and the requests left over. */
  function Rounds(k: nat, n: nat): nat
    requires n > 0
  {
    if k < n then 0 else 1 + Rounds(k - n, n)
  }

  function Rest(k: nat, n: nat): nat
    requires n > 0
  {
    if k < n then k else Rest(k - n, n)
  }

  lemma {:induction false} RoundsIsQuotient(k: nat, n: nat)
    requires n > 0
    ensures Rounds(k, n) == k / n && Rest(k, n) == k % n
  {
    if k >= n {
      RoundsIsQuotient(k - n, n);
      OneRoundLess(k, n);
    }
  }

  lemma OneRoundLess(k: int, n: int)
    requires k >= n > 0
    ensures (k - n) / n == k / n - 1 && (k - n) % n == k % n
  {
    ModUnique(k - n, k / n - 1, k % n, n);
    assert k - n == n * ((k - n) / n) + (k - n) % n;
    MultipleNotSmall(n, (k - n) / n - (k / n - 1));
  }

  lemma FullRound(ws: seq<string>, start: nat, j: nat)
    requires Distinct(ws) && j < |ws|
    ensures Picks(ws, start, |ws|, ws[j]) == 1
  {
    OneRound(ws, start, |ws|, j);
  }

  lemma {:induction false} FairOverRounds(ws: seq<string>, start: nat, k: nat, j: nat)
    requires Distinct(ws) && j < |ws|
    ensures Rounds(k, |ws|) <= Picks(ws, start, k, ws[j]) <= Rounds(k, |ws|) + if Rest(k, |ws|) == 0 then 0 else 1
    decreases k
  {
    var n := |ws|;
    if k < n {
      OneRound(ws, start, k, j);
    } else {
      FairOverRounds(ws, start + n, k - n, j);
      FullRound(ws, start, j);
      PicksAdd(ws, start, n, k - n, ws[j]);
    }
  }

  /** Over k consecutive counter values each of n workers is chosen floor(k/n) or ceil(k/n) times. */
  lemma Fair(ws: seq<string>, start: nat, k: nat, w: string)
    requires Distinct(ws) && w in ws
    ensures k / |ws| <= Picks(ws, start, k, w) <= k / |ws| + if k % |ws| == 0 then 0 else 1
  {
    var j :| 0 <= j < |ws| && ws[j] == w;
    FairOverRounds(ws, start, k, j);
    RoundsIsQuotient(k, |ws|);
  }

  /** A stretch of requests during which the list of workers stays the same. */
  datatype Epoch = Epoch(workers: seq<string>, requests: nat)

  function Total(es: seq<Epoch>, start: nat, w: string): nat
    requires forall e :: e in es ==> e.workers != []
  {
    if es == [] then 0
    else Picks(es[0].workers, start, es[0].requests, w) + Total(es[1..], start + es[0].requests, w)
  }

  /** Two workers present throughout m membership epochs differ by at most m requests. */
  lemma {:induction false} FairAcrossEpochs(es: seq<Epoch>, start: nat, v: string, w: string)
    requires forall e :: e in es ==> Distinct(e.workers) && v in e.workers && w in e.workers
    ensures Total(es, start, v) <= Total(es, start, w) + |es|
  {
    if es != [] {
      assert es[0] in es;
      Fair(es[0].workers, start, es[0].requests, v);
      Fair(es[0].workers, start, es[0].requests, w);
      FairAcrossEpochs(es[1..], start + es[0].requests, v, w);
    }
  }
}
