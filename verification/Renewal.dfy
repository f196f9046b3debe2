/**
 The certificate renewal task, the domain rows it works on, and the bound on how
 late a renewal can be. Times are in seconds; every database, disk or issuance
 step may raise, which ends the round.
 */
module Renewal {
  import opened Common
  import opened SniRouter

  const DAY := 86400.0
  const RENEW_BEFORE := 30.0 * DAY

  datatype Status = Pending | Issuing | Issued | Failed

  datatype Row = Row(upstream: string, status: Status, pair: Option<Pair>, issuedAt: Option<real>, expiresAt: Option<real>)

  datatype Certificate = Certificate(pair: Pair, expiresAt: real)

  /** What one issuance meets: which steps succeed, and what the CA hands out. */
  datatype Attempt = Attempt(statusOk: bool, issued: Option<Certificate>, disk: DiskIo, rowOk: bool, at: real)

  /** The step that raises, if one does. */
  predicate Raises(a: Attempt) { !a.statusOk || !a.rowOk || (a.issued.Some? && !WriteOk(a.disk)) }

  predicate Renews(a: Attempt) { a.issued.Some? && !Raises(a) }

  predicate Due(r: Row, now: real) {
    r.status == Pending || r.status == Failed || (r.expiresAt.Some? && r.expiresAt.value - now < RENEW_BEFORE)
  }

  /** The row after `_issue_for_domain`, wherever it stopped. */
  function Issue(r: Row, a: Attempt): Row {
    if !a.statusOk then r
    else if Renews(a) then
      var c := a.issued.value;
      r.(status := Issued, pair := Some(c.pair), issuedAt := Some(a.at), expiresAt := Some(c.expiresAt))
    else if Raises(a) then r.(status := Issuing)
    else r.(status := Failed)
  }

  function Visit(r: Row, now: real, a: Attempt): Row { if Due(r, now) then Issue(r, a) else r }

  /** The row after `upsert_domain`: a new one, or the old one with another upstream. */
  function Upserted(before: Option<Row>, upstream: string): Row {
    if before.Some? then before.value.(upstream := upstream) else Row(upstream, Pending, None, None, None)
  }

  /** A round starts an issuance for new and failed domains, and for certificates with less than 30 days to run. */
  lemma DueIff(r: Row, now: real)
    ensures Due(r, now) <==> r.status == Pending || r.status == Failed
                             || (r.expiresAt.Some? && r.expiresAt.value - now < 30.0 * 86400.0)
  {}

  /** What an issuance leaves of the row, step by step. */
  lemma IssueOutcome(r: Row, a: Attempt)
    ensures var r' := Issue(r, a);
            && r'.upstream == r.upstream
            && (!a.statusOk ==> r' == r)
            && (a.statusOk && a.issued.None? ==> r' == r.(status := if a.rowOk then Failed else Issuing))
            && (a.statusOk && a.issued.Some? && !(a.disk == DiskIo(true, true, true, true) && a.rowOk) ==>
                  r' == r.(status := Issuing))
            && (a.statusOk && a.issued.Some? && a.disk == DiskIo(true, true, true, true) && a.rowOk ==>
                  r' == Row(r.upstream, Issued, Some(a.issued.value.pair), Some(a.at), Some(a.issued.value.expiresAt)))
  {}

  // ---- One row over many rounds ----------------------------------------------------

  /** One round as the domain sees it; before it, the API may have changed the upstream. */
  datatype Round = Round(edit: Option<string>, at: real, attempt: Attempt)

  function Edited(r: Row, edit: Option<string>): Row { if edit.Some? then Upserted(Some(r), edit.value) else r }

  /** The row when round `n` looks at it, and after the first `n` rounds. */
  function Seen(r: Row, rounds: seq<Round>, n: nat): Row
    requires n < |rounds|
    decreases n, 1
  {
    Edited(RowAt(r, rounds, n), rounds[n].edit)
  }

  function RowAt(r: Row, rounds: seq<Round>, n: nat): Row
    requires n <= |rounds|
    decreases n, 0
  {
    if n == 0 then r else Visit(Seen(r, rounds, n - 1), rounds[n - 1].at, rounds[n - 1].attempt)
  }

  /** It makes no difference whether the upstream changes before or during an issuance. */
  lemma EditsCommute(r: Row, edit: Option<string>, now: real, a: Attempt)
    ensures Visit(Edited(r, edit), now, a) == Edited(Visit(r, now, a), edit)
  {}

  /** Round `k` takes up the domain. */
  predicate Attempted(r: Row, rounds: seq<Round>, k: nat)
    requires k < |rounds|
  {
    Due(Seen(r, rounds, k), rounds[k].at)
  }

  /** ... and replaces its certificate. */
  predicate Renewed(r: Row, rounds: seq<Round>, k: nat)
    requires k < |rounds|
  {
    Attempted(r, rounds, k) && Renews(rounds[k].attempt)
  }

  predicate SameCertificate(r: Row, r': Row) {
    r'.pair == r.pair && r'.issuedAt == r.issuedAt && r'.expiresAt == r.expiresAt
  }

  predicate Carries(r: Row, a: Attempt) {
    a.issued.Some? && r.pair == Some(a.issued.value.pair) && r.expiresAt == Some(a.issued.value.expiresAt)
    && r.issuedAt == Some(a.at)
  }

  /** The last of the first `n` rounds that replaced the certificate. */
  function LastRenewed(r: Row, rounds: seq<Round>, n: nat): (last: Option<nat>)
    requires n <= |rounds|
    ensures last.Some? ==> last.value < n && Renewed(r, rounds, last.value)
    ensures forall k: nat :: k < n && Renewed(r, rounds, k) ==> last.Some? && k <= last.value
  {
    if n == 0 then None else if Renewed(r, rounds, n - 1) then Some(n - 1) else LastRenewed(r, rounds, n - 1)
  }

  lemma VisitRenews(r: Row, now: real, a: Attempt)
    ensures if Due(r, now) && Renews(a) then Carries(Visit(r, now, a), a) && Visit(r, now, a).status == Issued
            else SameCertificate(r, Visit(r, now, a))
  {}

  /**
   After any rounds, whatever failed and whatever the API changed, the certificate,
   its key, issue time and expiry are those of the last attempt that renewed, or
   the ones at the beginning if none did.
   */
  lemma {:induction false} CertificateIsLastRenewal(r: Row, rounds: seq<Round>, n: nat)
    requires n <= |rounds|
    ensures var last := LastRenewed(r, rounds, n);
            if last.Some? then Carries(RowAt(r, rounds, n), rounds[last.value].attempt)
            else SameCertificate(r, RowAt(r, rounds, n))
  {
    if n > 0 {
      CertificateIsLastRenewal(r, rounds, n - 1);
      VisitRenews(Seen(r, rounds, n - 1), rounds[n - 1].at, rounds[n - 1].attempt);
    }
  }

  /**
   Once a renewal has succeeded the domain is left alone: no round attempts it again
   until one that starts less than 30 days before the new expiry.
   */
  lemma {:induction false} QuietAfterRenewal(r: Row, rounds: seq<Round>, k: nat, n: nat)
    requires k < n < |rounds| && Renewed(r, rounds, k)
    requires forall j: nat :: k < j <= n ==>
               rounds[k].attempt.issued.value.expiresAt - rounds[j].at >= 30.0 * 86400.0
    ensures !Attempted(r, rounds, n) && RowAt(r, rounds, n).status == Issued
    ensures Carries(RowAt(r, rounds, n), rounds[k].attempt)
    decreases n
  {
    if n == k + 1 {
      VisitRenews(Seen(r, rounds, k), rounds[k].at, rounds[k].attempt);
      assert RowAt(r, rounds, n).status == Issued;
    } else {
      QuietAfterRenewal(r, rounds, k, n - 1);
      assert RowAt(r, rounds, n) == Seen(r, rounds, n - 1);
    }
    assert Seen(r, rounds, n).expiresAt == Some(rounds[k].attempt.issued.value.expiresAt);
    assert rounds[n].at <= rounds[k].attempt.issued.value.expiresAt - 30.0 * 86400.0;
  }

  /** No later round ever takes up a row exactly when it is not pending or failed and has no expiry. */
  lemma NeverDueIff(r: Row)
    ensures (forall now :: !Due(r, now)) <==> (r.status == Issuing || r.status == Issued) && r.expiresAt.None?
  {
    if r.expiresAt.Some? {
      assert Due(r, r.expiresAt.value);
    } else {
      assert Due(r, 0.0) <==> r.status == Pending || r.status == Failed;
    }
  }

  /** The last of the first `n` rounds in which the status write of an attempt went through. */
  function LastStarted(r: Row, rounds: seq<Round>, n: nat): Option<nat>
    requires n <= |rounds|
  {
    if n == 0 then None
    else if Attempted(r, rounds, n - 1) && rounds[n - 1].attempt.statusOk then Some(n - 1)
    else LastStarted(r, rounds, n - 1)
  }

  /**
   Between rounds a domain is in `issuing` exactly when a step of the last attempt
   that was started raised, or when it began there and none was ever started.
   */
  lemma {:induction false} LeftIssuingIff(r: Row, rounds: seq<Round>, n: nat)
    requires n <= |rounds|
    ensures var last := LastStarted(r, rounds, n);
            (last.Some? ==> last.value < n)
            && (RowAt(r, rounds, n).status == Issuing
                <==> if last.Some? then Raises(rounds[last.value].attempt) else r.status == Issuing)
  {
    if n > 0 { LeftIssuingIff(r, rounds, n - 1); }
  }

  /**
   A first issuance that raises after the status write strands its domain: no round
   ever retries it, and changing its upstream through the API does not help.
   */
  lemma {:induction false} StrandedForever(r: Row, a: Attempt, now: real, rounds: seq<Round>, n: nat)
    requires r.status == Pending && r.expiresAt.None? && a.statusOk && Raises(a)
    requires n <= |rounds|
    ensures var r' := RowAt(Visit(r, now, a), rounds, n);
            r'.status == Issuing && SameCertificate(r, r') && (n < |rounds| ==> !Attempted(Visit(r, now, a), rounds, n))
  {
    if n > 0 { StrandedForever(r, a, now, rounds, n - 1); }
  }

  ghost predicate Spaced(rounds: seq<Round>, gap: real) {
    forall i, j :: 0 <= i < |rounds| && j == i + 1 && j < |rounds| ==> rounds[i].at < rounds[j].at <= rounds[i].at + gap
  }

  /** From round `i` on, at least `n` further rounds start no later than `deadline`. */
  lemma {:induction false} RoundsBefore(rounds: seq<Round>, gap: real, i: nat, n: nat, deadline: real)
    requires Spaced(rounds, gap) && gap > 0.0 && i < |rounds|
    requires rounds[i].at + (n as real) * gap <= deadline <= rounds[|rounds| - 1].at
    ensures i + n < |rounds| && forall j :: i < j <= i + n ==> rounds[i].at < rounds[j].at <= deadline
    decreases n
  {
    if n > 0 {
      var m := n - 1;
      assert (n as real) * gap == gap + (m as real) * gap;
      assert (m as real) * gap >= 0.0;
      assert i + 1 < |rounds|;
      RoundsBefore(rounds, gap, i + 1, m, deadline);
    }
  }

  lemma {:induction false} LastRoundBefore(rounds: seq<Round>, start: real, k: nat) returns (i: nat)
    requires 0 < k <= |rounds| && rounds[0].at <= start
    ensures i < k && rounds[i].at <= start && forall j :: i < j < k ==> rounds[j].at > start
  {
    if rounds[k - 1].at <= start {
      i := k - 1;
    } else {
      i := LastRoundBefore(rounds, start, k - 1);
    }
  }

  /** What is known of the rounds around the expiry of a certificate that none of them renews. */
  ghost predicate Unrenewed(r: Row, expiry: real, rounds: seq<Round>, gap: real) {
    && rounds != [] && Spaced(rounds, gap) && gap > 0.0
    && r.expiresAt == Some(expiry) && rounds[0].at <= expiry - RENEW_BEFORE && expiry <= rounds[|rounds| - 1].at
    && forall i: nat :: i < |rounds| ==> !Renewed(r, rounds, i)
  }

  /** All of the `n` rounds after `first` attempt a renewal and start before the expiry. */
  ghost predicate AttemptedInTime(r: Row, expiry: real, rounds: seq<Round>, first: nat, n: nat) {
    first + n < |rounds| &&
    forall j: nat :: first < j <= first + n ==> expiry - 30.0 * 86400.0 < rounds[j].at <= expiry && Attempted(r, rounds, j)
  }

  /**
   Renewal is never late: if a certificate was there in the first of these rounds
   with at least 30 days to run, rounds start at most `gap` apart and go on past its
   expiry, and none of them renews it, then for every n with n * gap <= 30 days some
   n consecutive rounds attempt a renewal and start before it has expired.
   */
  lemma RenewalNeverLate(r: Row, expiry: real, rounds: seq<Round>, gap: real, n: nat) returns (first: nat)
    requires Unrenewed(r, expiry, rounds, gap) && (n as real) * gap <= 30.0 * 86400.0
    ensures AttemptedInTime(r, expiry, rounds, first, n)
  {
    first := LastRoundBefore(rounds, expiry - RENEW_BEFORE, |rounds|);
    RoundsBefore(rounds, gap, first, n, expiry);
    forall j: nat | first < j <= first + n
      ensures Attempted(r, rounds, j)
    {
      CertificateIsLastRenewal(r, rounds, j);
    }
  }

  /**
   For the daily check: 30 attempts if rounds start at most 24 hours apart, and
   still 29 if the rounds themselves take up to 49 minutes before the 24 hours of sleep.
   */
  lemma DailyRenewalNeverLate(r: Row, expiry: real, rounds: seq<Round>, gap: real) returns (first: nat, n: nat)
    requires Unrenewed(r, expiry, rounds, gap) && gap <= 24.0 * 3600.0 + 49.0 * 60.0
    ensures AttemptedInTime(r, expiry, rounds, first, n)
    ensures n == if gap <= 24.0 * 3600.0 then 30 else 29
  {
    n := if gap <= DAY then 30 else 29;
    first := RenewalNeverLate(r, expiry, rounds, gap, n);
  }

  /** A row as the list query returns it. */
  datatype Listing = Listing(fqdn: string, cert: Option<Pem>, key: Option<Pem>, status: Status, expiresAt: Option<real>)

  // ---- The table and the task ---------------------------------------------------------

  class DomainTable {
    var rows: map<string, Row>

    /** The list query blanks every private key. */
    method GetAllDomains(order: seq<string>) returns (ls: seq<Listing>)
      requires forall f :: f in order ==> f in rows
      ensures |ls| == |order|
      ensures forall i :: 0 <= i < |ls| ==>
                var r := rows[order[i]];
                ls[i] == Listing(order[i], if r.pair.Some? then Some(r.pair.value.cert) else None, None, r.status, r.expiresAt)
    {
      ls := [];
      for i := 0 to |order|
        invariant |ls| == i
        invariant forall k :: 0 <= k < i ==>
                    var r := rows[order[k]];
                    ls[k] == Listing(order[k], if r.pair.Some? then Some(r.pair.value.cert) else None, None, r.status, r.expiresAt)
      {
        var r := rows[order[i]];
        ls := ls + [Listing(order[i], if r.pair.Some? then Some(r.pair.value.cert) else None, None, r.status, r.expiresAt)];
      }
    }

    /**
     A new domain is due at the next round; for an existing one the rounds to come
     take it up exactly when they would have, and its certificate stays.
     */
    method UpsertDomain(f: string, upstream: string, ok: bool) returns (done: bool)
      modifies this
      ensures done == ok
      ensures !ok ==> rows == old(rows)
      ensures ok ==> rows == old(rows)[f := Upserted(if f in old(rows) then Some(old(rows)[f]) else None, upstream)]
      ensures ok ==> forall now :: Due(rows[f], now) <==> f !in old(rows) || Due(old(rows)[f], now)
      ensures ok && f in old(rows) ==> SameCertificate(old(rows)[f], rows[f]) && rows[f].status == old(rows)[f].status
      ensures ok ==> rows[f].upstream == upstream
      ensures ok && f !in old(rows) ==> rows[f] == Row(upstream, Pending, None, None, None)
    {
      if !ok { return false; }
      if f in rows {
        rows := rows[f := rows[f].(upstream := upstream)];
      } else {
        rows := rows[f := Row(upstream, Pending, None, None, None)];
      }
      done := true;
    }

    /** UPDATE ... WHERE: a missing domain is not an error. */
    method UpdateStatus(f: string, status: Status, ok: bool) returns (done: bool)
      modifies this
      ensures done == ok
      ensures rows == if ok && f in old(rows) then old(rows)[f := old(rows)[f].(status := status)] else old(rows)
    {
      if ok && f in rows {
        rows := rows[f := rows[f].(status := status)];
      }
      done := ok;
    }

    method UpdateCert(f: string, c: Certificate, now: real, ok: bool) returns (done: bool)
      modifies this
      ensures done == ok
      ensures rows == if ok && f in old(rows)
                      then old(rows)[f := old(rows)[f].(pair := Some(c.pair), status := Issued,
                                                        issuedAt := Some(now), expiresAt := Some(c.expiresAt))]
                      else old(rows)
    {
      if ok && f in rows {
        rows := rows[f := rows[f].(pair := Some(c.pair), status := Issued,
                                   issuedAt := Some(now), expiresAt := Some(c.expiresAt))];
      }
      done := ok;
    }
  }

  predicate Complete(l: Listing) { l.cert.Some? && l.key.Some? }

  predicate Held(certs: map<string, File>, keys: map<string, File>, f: string) { f in certs && f in keys }

  /** The listing has a pair that is not on disk, and is the first for its domain. */
  predicate FirstMissing(ls: seq<Listing>, i: nat, certs: map<string, File>, keys: map<string, File>)
    requires i < |ls|
  {
    Complete(ls[i]) && !Held(certs, keys, ls[i].fqdn) && forall j :: 0 <= j < i ==> ls[j].fqdn != ls[i].fqdn
  }

  predicate Restored(certs: map<string, File>, keys: map<string, File>, l: Listing)
    requires Complete(l)
  {
    Held(certs, keys, l.fqdn) && certs[l.fqdn] == Whole(l.cert.value) && keys[l.fqdn] == Whole(l.key.value)
  }

  /** The maps differ at this key at most. */
  predicate OnlyFor<T(==)>(m: map<string, T>, n: map<string, T>, f: string) { m - {f} == n - {f} }

  /** The maps differ at these keys at most. */
  predicate Untouched<T(==)>(m: map<string, T>, n: map<string, T>, except: set<string>) { m - except == n - except }

  lemma UntouchedStep<T>(m: map<string, T>, n: map<string, T>, o: map<string, T>, except: set<string>, f: string)
    requires Untouched(m, n, except) && OnlyFor(n, o, f)
    ensures Untouched(m, o, except + {f})
  {
    assert m - (except + {f}) == (m - except) - {f};
    assert (n - except) - {f} == (n - {f}) - except;
    assert o - (except + {f}) == (o - {f}) - except;
  }

  class RenewalTask {
    const table: DomainTable
    const disk: CertDirectory
    const router: Router

    constructor (table: DomainTable, router: Router)
      ensures this.table == table && this.router == router && this.disk == router.disk
    {
      this.table, this.router, this.disk := table, router, router.disk;
    }

    /**
     `_issue_for_domain`; false if a step raised. The cached context is replaced
     only when every step succeeded.
     */
    method IssueForDomain(f: string, a: Attempt) returns (done: bool)
      requires router.disk == disk && f in table.rows
      modifies table, disk, router`contexts
      ensures done <==> !Raises(a)
      ensures done <==> a.statusOk && a.rowOk && (a.issued.Some? ==> a.disk == DiskIo(true, true, true, true))
      ensures table.rows == old(table.rows)[f := Issue(old(table.rows)[f], a)]
      ensures var r, r' := old(table.rows)[f], table.rows[f];
              && (done && a.issued.None? ==> r' == r.(status := Failed))
              && (done && a.issued.Some? ==> r' == Row(r.upstream, Issued, Some(a.issued.value.pair), Some(a.at),
                                                       Some(a.issued.value.expiresAt)))
              && (!done ==> r' == if a.statusOk then r.(status := Issuing) else r)
      ensures !(done && a.issued.Some?) ==> router.contexts == old(router.contexts)
      ensures done && a.issued.Some? ==>
                var p := a.issued.value.pair;
                && OnDisk(Gateway(disk.certs, disk.keys, router.contexts, Resting, Free, {}), f, Whole(p.cert), Whole(p.key))
                && (f in router.contexts <==> router.matches(p.cert, p.key))
                && (f in router.contexts ==> router.contexts[f] == p)
      ensures OnlyFor(old(disk.certs), disk.certs, f) && OnlyFor(old(disk.keys), disk.keys, f)
      ensures OnlyFor(old(router.contexts), router.contexts, f)
    {
      var ok := table.UpdateStatus(f, Issuing, a.statusOk);
      if !ok { return false; }
      if a.issued.None? {
        ok := table.UpdateStatus(f, Failed, a.rowOk);
        return ok;
      }
      var c := a.issued.value;
      ok := disk.WriteCertSync(f, c.pair, a.disk);
      if !ok { return false; }
      ok := table.UpdateCert(f, c, a.at, a.rowOk);
      if !ok { return false; }
      router.ReloadContext(f);
      done := true;
    }

    /**
     `_check_and_renew_all`: visits the domains in the given order until a step
     raises; `visited` domains were dealt with, the rest are untouched. `attempted`
     are those for which an issuance was started: new and failed ones, and those with
     less than 30 days to run. For all others row, files and context stay.
     */
    method CheckAndRenewAll(order: seq<string>, now: real, attempts: string -> Attempt)
      returns (visited: nat, attempted: set<string>)
      requires router.disk == disk
      requires forall f :: f in order ==> f in table.rows
      requires forall i, j :: 0 <= i < j < |order| ==> order[i] != order[j]
      modifies table, disk, router`contexts
      ensures visited <= |order| && table.rows.Keys == old(table.rows).Keys
      ensures forall f :: f in attempted <==>
                f in order[..visited] &&
                var r := old(table.rows)[f];
                r.status == Pending || r.status == Failed || (r.expiresAt.Some? && r.expiresAt.value - now < 30.0 * 86400.0)
      ensures forall f :: f in table.rows ==>
                table.rows[f] == if f in attempted then Issue(old(table.rows)[f], attempts(f)) else old(table.rows)[f]
      ensures Untouched(old(disk.certs), disk.certs, attempted) && Untouched(old(disk.keys), disk.keys, attempted)
      ensures Untouched(old(router.contexts), router.contexts, attempted)
      ensures forall i :: 0 <= i < visited - 1 ==> !(order[i] in attempted && Raises(attempts(order[i])))
      ensures visited < |order| ==>
                visited > 0 && order[visited - 1] in attempted && Raises(attempts(order[visited - 1]))
    {
      var listed := table.rows;
      visited, attempted := 0, {};
      while visited < |order|
        invariant visited <= |order| && table.rows.Keys == listed.Keys
        invariant forall f :: f in attempted <==> f in order[..visited] && Due(listed[f], now)
        invariant forall f :: f in table.rows ==>
                    table.rows[f] == if f in attempted then Issue(listed[f], attempts(f)) else listed[f]
        invariant Untouched(old(disk.certs), disk.certs, attempted) && Untouched(old(disk.keys), disk.keys, attempted)
        invariant Untouched(old(router.contexts), router.contexts, attempted)
        invariant forall i :: 0 <= i < visited ==> !(order[i] in attempted && Raises(attempts(order[i])))
      {
        var f := order[visited];
        assert f !in order[..visited];
        assert order[..visited + 1] == order[..visited] + [f];
        visited := visited + 1;
        if listed[f].status == Pending || listed[f].status == Failed
           || (listed[f].expiresAt.Some? && listed[f].expiresAt.value - now < RENEW_BEFORE) {
          ghost var certs, keys, contexts := disk.certs, disk.keys, router.contexts;
          var done := IssueForDomain(f, attempts(f));
          UntouchedStep(old(disk.certs), certs, disk.certs, attempted, f);
          UntouchedStep(old(disk.keys), keys, disk.keys, attempted, f);
          UntouchedStep(old(router.contexts), contexts, router.contexts, attempted, f);
          attempted := attempted + {f};
          if !done { return; }
        }
      }
    }

    /**
     `restore_certs_from_db`: writes the listed pairs that are missing on disk, and
     stops at the first write that raises, after `visited` listings.
     */
    method RestoreCerts(listings: seq<Listing>, io: nat -> DiskIo) returns (done: bool, visited: nat)
      modifies disk
      ensures visited <= |listings| && (done <==> visited == |listings|)
      ensures forall k :: Held(old(disk.certs), old(disk.keys), k) ==>
                Held(disk.certs, disk.keys, k) && disk.certs[k] == old(disk.certs)[k] && disk.keys[k] == old(disk.keys)[k]
      ensures forall i :: 0 <= i < visited && Complete(listings[i]) ==> Held(disk.certs, disk.keys, listings[i].fqdn)
      ensures forall i :: 0 <= i < visited && FirstMissing(listings, i, old(disk.certs), old(disk.keys)) ==>
                Restored(disk.certs, disk.keys, listings[i])
      ensures !done ==> Complete(listings[visited]) && !WriteOk(io(visited))
      ensures (forall i :: 0 <= i < |listings| ==> !Complete(listings[i])) ==>
                done && disk.certs == old(disk.certs) && disk.keys == old(disk.keys)
    {
      visited := 0;
      while visited < |listings|
        invariant visited <= |listings|
        invariant forall k :: Held(old(disk.certs), old(disk.keys), k) ==>
                    Held(disk.certs, disk.keys, k) && disk.certs[k] == old(disk.certs)[k] && disk.keys[k] == old(disk.keys)[k]
        invariant forall i :: 0 <= i < visited && Complete(listings[i]) ==> Held(disk.certs, disk.keys, listings[i].fqdn)
        invariant forall i :: 0 <= i < visited && FirstMissing(listings, i, old(disk.certs), old(disk.keys)) ==>
                    Restored(disk.certs, disk.keys, listings[i])
        invariant forall k :: (forall i :: 0 <= i < visited ==> listings[i].fqdn != k) ==>
                    (Held(disk.certs, disk.keys, k) <==> Held(old(disk.certs), old(disk.keys), k))
        invariant (forall i :: 0 <= i < |listings| ==> !Complete(listings[i])) ==>
                    disk.certs == old(disk.certs) && disk.keys == old(disk.keys)
      {
        var ok := RestoreOne(listings[visited], io(visited));
        if !ok { return false, visited; }
        visited := visited + 1;
      }
      done := true;
    }

    method RestoreOne(l: Listing, io: DiskIo) returns (ok: bool)
      modifies disk
      ensures var missing := Complete(l) && !Held(old(disk.certs), old(disk.keys), l.fqdn);
              && (ok <==> !missing || WriteOk(io))
              && (!missing ==> disk.certs == old(disk.certs) && disk.keys == old(disk.keys))
              && (missing && ok ==> disk.certs == old(disk.certs)[l.fqdn := Whole(l.cert.value)]
                                    && disk.keys == old(disk.keys)[l.fqdn := Whole(l.key.value)])
      ensures forall k :: Held(old(disk.certs), old(disk.keys), k) ==>
                Held(disk.certs, disk.keys, k) && disk.certs[k] == old(disk.certs)[k] && disk.keys[k] == old(disk.keys)[k]
    {
      ok := true;
      if Complete(l) && !Held(disk.certs, disk.keys, l.fqdn) {
        ok := disk.WriteCertSync(l.fqdn, Pair(l.cert.value, l.key.value), io);
      }
    }

    /** At start-up the listing carries no private key, so nothing is ever restored. */
    method StartUp(order: seq<string>, io: nat -> DiskIo)
      requires forall f :: f in order ==> f in table.rows
      modifies disk
      ensures disk.certs == old(disk.certs) && disk.keys == old(disk.keys)
    {
      var listings := table.GetAllDomains(order);
      var _, _ := RestoreCerts(listings, io);
    }
  }
}
