/**
 The gateway's cache of TLS contexts and the two certificate files behind it.
 Lookups and reloads run on the event loop and read the certificate file and
 then the key file; the files are written by a thread, certificate first, so the
 thread may move between the two reads, while the loop itself is busy.
 */
module SniRouter {
  import opened Common

  type Pem = string

  /** A file that is open for writing has no usable content. */
  datatype File = Torn | Whole(pem: Pem)

  datatype Pair = Pair(cert: Pem, key: Pem)

  /** Where the one writer (the renewal task) is. */
  datatype Writer =
    | Resting
    | Queued(fqdn: string, pair: Pair)     // directory to be made
    | CertOpen(fqdn: string, pair: Pair)
    | CertDone(fqdn: string, pair: Pair)
    | KeyOpen(fqdn: string, pair: Pair)
    | KeyDone(fqdn: string, pair: Pair)    // file mode to be set
    | Written(fqdn: string, pair: Pair)    // thread done, database row next
    | Stored(fqdn: string, pair: Pair)     // row updated, reload next

  /** The event loop is free, or inside `load_cert_chain` with the certificate read. */
  datatype Loop = Free | Loading(fqdn: string, cert: File)

  datatype Gateway = Gateway(
    certs: map<string, File>,
    keys: map<string, File>,
    contexts: map<string, Pair>,
    writer: Writer,
    loop: Loop,
    seen: set<(string, Pair)>)    // complete pairs that have been on disk at one moment

  datatype Action =
    | Lookup(fqdn: string)
    | ReadKey
    | BeginWrite(fqdn: string, pair: Pair)
    | Thread
    | ThreadError
    | RowUpdate(ok: bool)
    | Reload

  type Matching = (Pem, Pem) -> bool

  predicate Loads(matches: Matching, cert: File, key: File) {
    cert.Whole? && key.Whole? && matches(cert.pem, key.pem)
  }

  predicate HasCert(g: Gateway, f: string) { f in g.certs && f in g.keys }

  predicate InThread(w: Writer) { w.Queued? || w.CertOpen? || w.CertDone? || w.KeyOpen? || w.KeyDone? }

  predicate Enabled(g: Gateway, a: Action) {
    match a
    case Lookup(_) => g.loop.Free?
    case ReadKey => g.loop.Loading?
    case BeginWrite(_, _) => g.loop.Free? && g.writer.Resting?
    case Thread => InThread(g.writer)
    case ThreadError => InThread(g.writer)
    case RowUpdate(_) => g.loop.Free? && g.writer.Written?
    case Reload => g.loop.Free? && g.writer.Stored?
  }

  /** Notes the pair that is on disk for a domain, if both files are complete. */
  function Observe(g: Gateway, f: string): Gateway {
    if f in g.certs && f in g.keys && g.certs[f].Whole? && g.keys[f].Whole?
    then g.(seen := g.seen + {(f, Pair(g.certs[f].pem, g.keys[f].pem))})
    else g
  }

  function Advance(g: Gateway): Gateway
    requires InThread(g.writer)
  {
    var f, p := g.writer.fqdn, g.writer.pair;
    match g.writer
    case Queued(_, _) => g.(certs := g.certs[f := Torn], writer := CertOpen(f, p))
    case CertOpen(_, _) => Observe(g.(certs := g.certs[f := Whole(p.cert)], writer := CertDone(f, p)), f)
    case CertDone(_, _) => g.(keys := g.keys[f := Torn], writer := KeyOpen(f, p))
    case KeyOpen(_, _) => Observe(g.(keys := g.keys[f := Whole(p.key)], writer := KeyDone(f, p)), f)
    case KeyDone(_, _) => g.(writer := Written(f, p))
  }

  function StartLoad(g: Gateway, f: string): Gateway {
    if f in g.contexts || !HasCert(g, f) then g else g.(loop := Loading(f, g.certs[f]))
  }

  function Next(matches: Matching, g: Gateway, a: Action): Gateway {
    if !Enabled(g, a) then g else
    match a
    case Lookup(f) => StartLoad(g, f)
    case ReadKey =>
      var f, cert := g.loop.fqdn, g.loop.cert;
      var g' := g.(loop := Free);
      if f in g.keys && Loads(matches, cert, g.keys[f])
      then g'.(contexts := g.contexts[f := Pair(cert.pem, g.keys[f].pem)])
      else g'
    case BeginWrite(f, p) => g.(writer := Queued(f, p))
    case Thread => Advance(g)
    case ThreadError => g.(writer := Resting)
    case RowUpdate(ok) => g.(writer := if ok then Stored(g.writer.fqdn, g.writer.pair) else Resting)
    case Reload =>
      var f := g.writer.fqdn;
      StartLoad(g.(contexts := g.contexts - {f}, writer := Resting), f)
  }

  function Exec(matches: Matching, g: Gateway, acts: seq<Action>): Gateway
    decreases |acts|
  {
    if acts == [] then g else Exec(matches, Next(matches, g, acts[0]), acts[1..])
  }

  const EMPTY := Gateway(map[], map[], map[], Resting, Free, {})

  // ---- The invariant ------------------------------------------------------------

  /**
   What a caller can tell before a write: the certificate on disk may be read just
   before it is replaced and paired with the new key, which does harm only if that
   key fits it, the domain has no context yet, and the two were never on disk together.
   */
  predicate Harmless(matches: Matching, g: Gateway, f: string, p: Pair) {
    f !in g.contexts && HasCert(g, f) && Loads(matches, g.certs[f], Whole(p.key)) && g.certs[f].pem != p.cert
    ==> (f, Pair(g.certs[f].pem, p.key)) in g.seen
  }

  predicate OnDisk(g: Gateway, f: string, cert: File, key: File) {
    f in g.certs && f in g.keys && g.certs[f] == cert && g.keys[f] == key
  }

  /** What the disk holds for the domain that is being written. */
  predicate WriterOk(g: Gateway) {
    match g.writer
    case CertOpen(f, _) => f in g.certs && g.certs[f] == Torn
    case CertDone(f, p) => f in g.certs && g.certs[f] == Whole(p.cert)
    case KeyOpen(f, p) => f in g.certs && f in g.keys && g.certs[f] == Whole(p.cert) && g.keys[f] == Torn
    case KeyDone(f, p) => OnDisk(g, f, Whole(p.cert), Whole(p.key))
    case Written(f, p) => OnDisk(g, f, Whole(p.cert), Whole(p.key))
    case Stored(f, p) => OnDisk(g, f, Whole(p.cert), Whole(p.key))
    case _ => true
  }

  /** Whatever complete pair is on disk has been noted. */
  ghost predicate DiskSeen(g: Gateway) {
    forall f :: f in g.certs && f in g.keys && g.certs[f].Whole? && g.keys[f].Whole?
                ==> (f, Pair(g.certs[f].pem, g.keys[f].pem)) in g.seen
  }

  /**
   A certificate already read by the loop fits, of the keys that may still turn
   up behind it, only one that has been on disk together with it.
   */
  ghost predicate LoadOk(matches: Matching, g: Gateway) {
    g.loop.Loading? && g.loop.cert.Whole? ==>
      var f, c := g.loop.fqdn, g.loop.cert.pem;
      && (f in g.keys && g.keys[f].Whole? && matches(c, g.keys[f].pem) ==> (f, Pair(c, g.keys[f].pem)) in g.seen)
      && (InThread(g.writer) && g.writer.fqdn == f && matches(c, g.writer.pair.key) && c != g.writer.pair.cert ==>
            (f, Pair(c, g.writer.pair.key)) in g.seen)
  }

  /** The write that is queued is harmless, whenever the thread gets to it. */
  predicate QueueOk(matches: Matching, g: Gateway) {
    g.writer.Queued? ==> Harmless(matches, g, g.writer.fqdn, g.writer.pair)
  }

  ghost predicate ContextsOk(matches: Matching, g: Gateway) {
    forall f :: f in g.contexts ==> matches(g.contexts[f].cert, g.contexts[f].key) && (f, g.contexts[f]) in g.seen
  }

  ghost predicate Inv(matches: Matching, g: Gateway) {
    WriterOk(g) && DiskSeen(g) && LoadOk(matches, g) && QueueOk(matches, g) && ContextsOk(matches, g)
  }

  /** The action is no write, or a harmless one. */
  predicate Fair(matches: Matching, g: Gateway, a: Action) {
    Enabled(g, a) && a.BeginWrite? ==> Harmless(matches, g, a.fqdn, a.pair)
  }

  predicate AllFair(matches: Matching, g: Gateway, acts: seq<Action>)
    decreases |acts|
  {
    acts == [] || (Fair(matches, g, acts[0]) && AllFair(matches, Next(matches, g, acts[0]), acts[1..]))
  }

  lemma NextKeepsInv(matches: Matching, g: Gateway, a: Action)
    requires Inv(matches, g) && Fair(matches, g, a)
    ensures Inv(matches, Next(matches, g, a))
  {
    NextKeepsDisk(matches, g, a);
    NextKeepsQueue(matches, g, a);
    NextKeepsLoad(matches, g, a);
  }

  lemma NextKeepsDisk(matches: Matching, g: Gateway, a: Action)
    requires WriterOk(g) && DiskSeen(g)
    ensures var g' := Next(matches, g, a); WriterOk(g') && DiskSeen(g') && g.seen <= g'.seen
  {}

  /** What the writer has done and the disk holds, whatever is written. */
  lemma {:induction false} ExecKeepsDisk(matches: Matching, g: Gateway, acts: seq<Action>)
    requires WriterOk(g) && DiskSeen(g)
    ensures WriterOk(Exec(matches, g, acts)) && DiskSeen(Exec(matches, g, acts))
    decreases |acts|
  {
    if acts != [] {
      NextKeepsDisk(matches, g, acts[0]);
      ExecKeepsDisk(matches, Next(matches, g, acts[0]), acts[1..]);
    }
  }

  lemma NextKeepsQueue(matches: Matching, g: Gateway, a: Action)
    requires QueueOk(matches, g) && Fair(matches, g, a)
    ensures QueueOk(matches, Next(matches, g, a))
  {}

  lemma NextKeepsLoad(matches: Matching, g: Gateway, a: Action)
    requires Inv(matches, g)
    ensures LoadOk(matches, Next(matches, g, a)) && ContextsOk(matches, Next(matches, g, a))
  {}

  lemma {:induction false} ExecKeepsInv(matches: Matching, g: Gateway, acts: seq<Action>)
    requires Inv(matches, g) && AllFair(matches, g, acts)
    ensures Inv(matches, Exec(matches, g, acts))
    decreases |acts|
  {
    if acts != [] {
      NextKeepsInv(matches, g, acts[0]);
      ExecKeepsInv(matches, Next(matches, g, acts[0]), acts[1..]);
    }
  }

  /** If no write is harmful, every cached context is a matching pair that has been on disk as a whole. */
  lemma CachedPairsWereOnDisk(matches: Matching, acts: seq<Action>, f: string)
    requires AllFair(matches, EMPTY, acts) && f in Exec(matches, EMPTY, acts).contexts
    ensures var g := Exec(matches, EMPTY, acts);
            matches(g.contexts[f].cert, g.contexts[f].key) && (f, g.contexts[f]) in g.seen
  {
    ExecKeepsInv(matches, EMPTY, acts);
  }

  // ---- Fresh keys make every write harmless -------------------------------------------

  /** No key written fits an earlier, different certificate of its domain. */
  ghost predicate FreshKeys(matches: Matching, earlier: set<(string, Pem)>, acts: seq<Action>)
    decreases |acts|
  {
    acts == [] || (FreshKey(matches, earlier, acts[0]) && FreshKeys(matches, Later(earlier, acts[0]), acts[1..]))
  }

  ghost predicate FreshKey(matches: Matching, earlier: set<(string, Pem)>, a: Action) {
    a.BeginWrite? ==> forall c :: (a.fqdn, c) in earlier && c != a.pair.cert ==> !matches(c, a.pair.key)
  }

  function Later(earlier: set<(string, Pem)>, a: Action): set<(string, Pem)> {
    if a.BeginWrite? then earlier + {(a.fqdn, a.pair.cert)} else earlier
  }

  /** What is on disk, or on its way there, has been written. */
  ghost predicate OnlyWritten(g: Gateway, earlier: set<(string, Pem)>) {
    && (forall f :: f in g.certs && g.certs[f].Whole? ==> (f, g.certs[f].pem) in earlier)
    && (!g.writer.Resting? ==> (g.writer.fqdn, g.writer.pair.cert) in earlier)
  }

  lemma NextOnlyWritten(matches: Matching, g: Gateway, a: Action, earlier: set<(string, Pem)>)
    requires OnlyWritten(g, earlier)
    ensures OnlyWritten(Next(matches, g, a), Later(earlier, a))
  {}

  lemma {:induction false} FreshKeysAreFair(matches: Matching, g: Gateway, acts: seq<Action>, earlier: set<(string, Pem)>)
    requires OnlyWritten(g, earlier) && FreshKeys(matches, earlier, acts)
    ensures AllFair(matches, g, acts)
    decreases |acts|
  {
    if acts != [] {
      NextOnlyWritten(matches, g, acts[0], earlier);
      FreshKeysAreFair(matches, Next(matches, g, acts[0]), acts[1..], Later(earlier, acts[0]));
    }
  }

  /**
   With a new key for each certificate, as the code draws them: however lookups
   interleave with the writing thread and whatever fails, every cached context is a
   matching pair that has been on disk as a whole.
   */
  lemma FreshKeysNeverMix(matches: Matching, acts: seq<Action>, f: string)
    requires FreshKeys(matches, {}, acts) && f in Exec(matches, EMPTY, acts).contexts
    ensures var g := Exec(matches, EMPTY, acts);
            matches(g.contexts[f].cert, g.contexts[f].key) && (f, g.contexts[f]) in g.seen
  {
    FreshKeysAreFair(matches, EMPTY, acts, {});
    CachedPairsWereOnDisk(matches, acts, f);
  }

  /** A write that gets as far as opening the key file. */
  function BrokenWrite(f: string, p: Pair): seq<Action> { [BeginWrite(f, p)] + ([Thread, Thread] + [Thread, ThreadError]) }

  /**
   The failing input: a first issuance breaks off while it writes its key, and a
   second one uses the same key for another certificate. A lookup in between can
   pair the first certificate with that key, which were never on disk together.
   */
  lemma ReusedKeyIsHarmful(matches: Matching, f: string, first: Pem, second: Pem, key: Pem)
    requires matches(first, key) && first != second
    ensures var g := Exec(matches, EMPTY, BrokenWrite(f, Pair(first, key)));
            && AllFair(matches, EMPTY, BrokenWrite(f, Pair(first, key)))
            && g.loop.Free? && g.writer.Resting? && !Harmless(matches, g, f, Pair(second, key))
            && !NeverMixed(matches, g, f, Pair(second, key))
  {
    var p := Pair(first, key);
    var acts := BrokenWrite(f, p);
    ExecOne(matches, EMPTY, BeginWrite(f, p), [Thread, Thread] + [Thread, ThreadError]);
    var g1 := Next(matches, EMPTY, BeginWrite(f, p));
    WritesCert(matches, g1, f, p);
    ExecAppend(matches, g1, [Thread, Thread], [Thread, ThreadError]);
    ExecTwo(matches, Exec(matches, g1, [Thread, Thread]), Thread, ThreadError);
    NoWriteIsFair(matches, g1, [Thread, Thread] + [Thread, ThreadError]);
    assert acts[1..] == [Thread, Thread] + [Thread, ThreadError];
    NeverMixedIffHarmless(matches, acts, f, Pair(second, key));
  }

  /** Whatever is written, a cached context matches. */
  ghost predicate Matched(matches: Matching, g: Gateway) {
    forall f :: f in g.contexts ==> matches(g.contexts[f].cert, g.contexts[f].key)
  }

  lemma {:induction false} CachedPairsMatch(matches: Matching, g: Gateway, acts: seq<Action>)
    requires Matched(matches, g)
    ensures Matched(matches, Exec(matches, g, acts))
    decreases |acts|
  {
    if acts != [] { CachedPairsMatch(matches, Next(matches, g, acts[0]), acts[1..]); }
  }

  lemma ExecOne(matches: Matching, g: Gateway, a: Action, rest: seq<Action>)
    ensures Exec(matches, g, [a] + rest) == Exec(matches, Next(matches, g, a), rest)
  {
    assert ([a] + rest)[1..] == rest;
  }

  ghost predicate NeverMixed(matches: Matching, g: Gateway, f: string, p: Pair) {
    forall acts :: AllFair(matches, Next(matches, g, BeginWrite(f, p)), acts) ==>
      ContextsOk(matches, Exec(matches, Next(matches, g, BeginWrite(f, p)), acts))
  }

  const RACE: seq<Action> := [Thread, Thread, Thread, Thread, ReadKey]

  /** A lookup reads the old certificate, the thread replaces both files, the lookup reads the new key. */
  lemma RaceMixes(matches: Matching, g: Gateway, f: string, p: Pair)
    requires Inv(matches, g) && g.loop.Free? && g.writer.Resting? && !Harmless(matches, g, f, p)
    ensures var g1 := Next(matches, g, BeginWrite(f, p));
            var g2 := Exec(matches, g1, [Lookup(f)] + RACE);
            f in g2.contexts && g2.contexts[f] == Pair(g.certs[f].pem, p.key) && (f, g2.contexts[f]) !in g2.seen
  {
    var g1 := Next(matches, g, BeginWrite(f, p));
    ExecOne(matches, g1, Lookup(f), RACE);
    var l := Next(matches, g1, Lookup(f));
    ThreadRuns(matches, l, f, p);
    var d := Exec(matches, l, RACE[..4]);
    ExecAppend(matches, l, RACE[..4], [ReadKey]);
    assert RACE == RACE[..4] + [ReadKey];
    ExecOne(matches, d, ReadKey, []);
  }

  lemma ExecTwo(matches: Matching, g: Gateway, a: Action, b: Action)
    ensures Exec(matches, g, [a, b]) == Next(matches, Next(matches, g, a), b)
  {
    assert [a, b][1..] == [b] && [b][1..] == [];
    assert Exec(matches, Next(matches, g, a), [b]) == Exec(matches, Next(matches, Next(matches, g, a), b), []);
  }

  lemma WritesCert(matches: Matching, g: Gateway, f: string, p: Pair)
    requires g.writer == Queued(f, p)
    ensures var g' := Exec(matches, g, [Thread, Thread]);
            && g'.loop == g.loop && g'.contexts == g.contexts && g'.writer == CertDone(f, p)
            && g'.certs == g.certs[f := Whole(p.cert)] && g'.keys == g.keys
            && forall q :: (f, q) in g'.seen ==> (f, q) in g.seen || q.cert == p.cert
  {
    ExecTwo(matches, g, Thread, Thread);
  }

  lemma WritesKey(matches: Matching, g: Gateway, f: string, p: Pair)
    requires g.writer == CertDone(f, p) && f in g.certs && g.certs[f] == Whole(p.cert)
    ensures var g' := Exec(matches, g, [Thread, Thread]);
            && g'.loop == g.loop && g'.contexts == g.contexts && g'.writer == KeyDone(f, p)
            && g'.certs == g.certs && g'.keys == g.keys[f := Whole(p.key)]
            && forall q :: (f, q) in g'.seen ==> (f, q) in g.seen || q.cert == p.cert
  {
    ExecTwo(matches, g, Thread, Thread);
  }

  /** The thread writes both files while the loop may be inside a load. */
  lemma ThreadRuns(matches: Matching, g: Gateway, f: string, p: Pair)
    requires g.writer == Queued(f, p)
    ensures var g' := Exec(matches, g, RACE[..4]);
            && g'.loop == g.loop && g'.contexts == g.contexts && g'.writer == KeyDone(f, p)
            && g'.certs == g.certs[f := Whole(p.cert)] && g'.keys == g.keys[f := Whole(p.key)]
            && forall q :: (f, q) in g'.seen ==> (f, q) in g.seen || q.cert == p.cert
  {
    WritesCert(matches, g, f, p);
    WritesKey(matches, Exec(matches, g, [Thread, Thread]), f, p);
    assert RACE[..4] == [Thread, Thread] + [Thread, Thread];
    ExecAppend(matches, g, [Thread, Thread], [Thread, Thread]);
  }

  lemma {:induction false} ExecAppend(matches: Matching, g: Gateway, a: seq<Action>, b: seq<Action>)
    ensures Exec(matches, g, a + b) == Exec(matches, Exec(matches, g, a), b)
    decreases |a|
  {
    if a == [] {
      assert a + b == b;
    } else {
      assert (a + b)[1..] == a[1..] + b;
      ExecAppend(matches, Next(matches, g, a[0]), a[1..], b);
    }
  }

  lemma {:induction false} NoWriteIsFair(matches: Matching, g: Gateway, acts: seq<Action>)
    requires forall i :: 0 <= i < |acts| ==> !acts[i].BeginWrite?
    ensures AllFair(matches, g, acts)
    decreases |acts|
  {
    if acts != [] {
      assert forall i :: 0 <= i < |acts[1..]| ==> acts[1..][i] == acts[i + 1];
      NoWriteIsFair(matches, Next(matches, g, acts[0]), acts[1..]);
    }
  }

  lemma HarmlessNeverMixes(matches: Matching, g: Gateway, f: string, p: Pair)
    requires Inv(matches, g) && Harmless(matches, g, f, p)
    ensures NeverMixed(matches, g, f, p)
  {
    var g1 := Next(matches, g, BeginWrite(f, p));
    NextKeepsInv(matches, g, BeginWrite(f, p));
    forall acts | AllFair(matches, g1, acts)
      ensures ContextsOk(matches, Exec(matches, g1, acts))
    {
      ExecKeepsInv(matches, g1, acts);
    }
  }

  lemma HarmfulMixes(matches: Matching, g: Gateway, f: string, p: Pair)
    requires Inv(matches, g) && g.loop.Free? && g.writer.Resting? && !Harmless(matches, g, f, p)
    ensures !NeverMixed(matches, g, f, p)
  {
    var g1 := Next(matches, g, BeginWrite(f, p));
    RaceMixes(matches, g, f, p);
    NoWriteIsFair(matches, g1, [Lookup(f)] + RACE);
    assert !ContextsOk(matches, Exec(matches, g1, [Lookup(f)] + RACE));
  }

  /**
   In a state reached by harmless writes, a further write can never lead to a
   context that mixes two issuances exactly if it is harmless, too.
   */
  lemma NeverMixedIffHarmless(matches: Matching, before: seq<Action>, f: string, p: Pair)
    requires AllFair(matches, EMPTY, before)
    requires var g := Exec(matches, EMPTY, before); g.loop.Free? && g.writer.Resting?
    ensures var g := Exec(matches, EMPTY, before); NeverMixed(matches, g, f, p) <==> Harmless(matches, g, f, p)
  {
    ExecKeepsInv(matches, EMPTY, before);
    var g := Exec(matches, EMPTY, before);
    if Harmless(matches, g, f, p) {
      HarmlessNeverMixes(matches, g, f, p);
    } else {
      HarmfulMixes(matches, g, f, p);
    }
  }

  // ---- After an issuance ---------------------------------------------------------

  predicate NoWriteOf(acts: seq<Action>, f: string) {
    forall i :: 0 <= i < |acts| && acts[i].BeginWrite? ==> acts[i].fqdn != f
  }

  /** The files of the domain are settled, and the cache is empty, being filled, or right. */
  ghost predicate Settled(matches: Matching, g: Gateway, f: string, p: Pair) {
    && OnDisk(g, f, Whole(p.cert), Whole(p.key))
    && (!g.writer.Resting? ==> g.writer.fqdn != f)
    && (g.loop.Loading? && g.loop.fqdn == f ==> g.loop.cert == Whole(p.cert))
    && (f in g.contexts ==> g.contexts[f] == p && matches(p.cert, p.key))
    && (matches(p.cert, p.key) && g.loop.Free? ==> f in g.contexts)
    && (matches(p.cert, p.key) && g.loop.Loading? && g.loop.fqdn != f ==> f in g.contexts)
  }

  lemma {:induction false} SettledStays(matches: Matching, g: Gateway, acts: seq<Action>, f: string, p: Pair)
    requires Settled(matches, g, f, p) && NoWriteOf(acts, f)
    ensures Settled(matches, Exec(matches, g, acts), f, p)
    decreases |acts|
  {
    if acts != [] {
      assert NoWriteOf(acts[1..], f) by {
        assert forall i :: 0 <= i < |acts[1..]| ==> acts[1..][i] == acts[i + 1];
      }
      SettledStays(matches, Next(matches, g, acts[0]), acts[1..], f, p);
    }
  }

  /**
   After an issuance whose row update succeeded, and until the next write for
   the domain, the context served is the new pair if the pair matches, and none
   at all, not even the previous one, if it does not.
   */
  lemma IssuanceServedIffMatching(matches: Matching, before: seq<Action>, after: seq<Action>)
    requires var g := Exec(matches, EMPTY, before);
             && g.writer.Stored? && g.loop.Free?
             && NoWriteOf(after, g.writer.fqdn)
             && Exec(matches, Next(matches, g, Reload), after).loop.Free?
    ensures var g := Exec(matches, EMPTY, before);
            var f, p := g.writer.fqdn, g.writer.pair;
            var g' := Exec(matches, Next(matches, g, Reload), after);
            if matches(p.cert, p.key) then f in g'.contexts && g'.contexts[f] == p else f !in g'.contexts
  {
    ExecKeepsDisk(matches, EMPTY, before);
    var g := Exec(matches, EMPTY, before);
    SettledStays(matches, Next(matches, g, Reload), after, g.writer.fqdn, g.writer.pair);
  }

  // ---- The code as it runs between two awaits -------------------------------------

  /** Which steps of a write succeed. */
  datatype DiskIo = DiskIo(mkdirOk: bool, certOk: bool, keyOk: bool, chmodOk: bool)

  predicate WriteOk(io: DiskIo) { io.mkdirOk && io.certOk && io.keyOk && io.chmodOk }

  function CertsAfter(certs: map<string, File>, f: string, p: Pair, io: DiskIo): map<string, File> {
    if !io.mkdirOk then certs else certs[f := if io.certOk then Whole(p.cert) else Torn]
  }

  function KeysAfter(keys: map<string, File>, f: string, p: Pair, io: DiskIo): map<string, File> {
    if !io.mkdirOk || !io.certOk then keys else keys[f := if io.keyOk then Whole(p.key) else Torn]
  }

  /** How far the writing thread gets. */
  function ThreadActions(io: DiskIo): seq<Action> {
    if !io.mkdirOk then [ThreadError]
    else if !io.certOk then [Thread, ThreadError]
    else if !io.keyOk then [Thread, Thread] + [Thread, ThreadError]
    else RACE[..4] + [if io.chmodOk then Thread else ThreadError]
  }

  lemma ThreadOutcome(matches: Matching, g: Gateway, f: string, p: Pair, io: DiskIo)
    requires g.writer == Queued(f, p)
    ensures var g' := Exec(matches, g, ThreadActions(io));
            && g'.writer == (if WriteOk(io) then Written(f, p) else Resting)
            && g'.certs == CertsAfter(g.certs, f, p, io) && g'.keys == KeysAfter(g.keys, f, p, io)
  {
    if !io.mkdirOk {
      ExecOne(matches, g, ThreadError, []);
      assert [ThreadError] == [ThreadError] + [];
    } else if !io.certOk {
      ExecTwo(matches, g, Thread, ThreadError);
    } else if !io.keyOk {
      WritesCert(matches, g, f, p);
      ExecAppend(matches, g, [Thread, Thread], [Thread, ThreadError]);
      ExecTwo(matches, Exec(matches, g, [Thread, Thread]), Thread, ThreadError);
    } else {
      var last := if io.chmodOk then Thread else ThreadError;
      ThreadRuns(matches, g, f, p);
      ExecAppend(matches, g, RACE[..4], [last]);
      assert [last] == [last] + [];
      ExecOne(matches, Exec(matches, g, RACE[..4]), last, []);
    }
  }

  class CertDirectory {
    var certs: map<string, File>
    var keys: map<string, File>

    /**
     `_write_cert_sync`: directory, certificate, key, file mode. An I/O error leaves
     the file that was open torn; a failing mode change leaves both files whole.
     The files end as the thread's actions of the state machine leave them.
     */
    method WriteCertSync(f: string, p: Pair, io: DiskIo) returns (done: bool)
      modifies this
      ensures done <==> WriteOk(io)
      ensures certs == CertsAfter(old(certs), f, p, io) && keys == KeysAfter(old(keys), f, p, io)
      ensures !io.mkdirOk ==> certs == old(certs) && keys == old(keys)
      ensures io.mkdirOk ==> certs == old(certs)[f := if io.certOk then Whole(p.cert) else Torn]
      ensures io.mkdirOk && !io.certOk ==> keys == old(keys)
      ensures io.mkdirOk && io.certOk ==> keys == old(keys)[f := if io.keyOk then Whole(p.key) else Torn]
      ensures forall matches: Matching ::
                var g := Exec(matches, Gateway(old(certs), old(keys), map[], Queued(f, p), Free, {}), ThreadActions(io));
                certs == g.certs && keys == g.keys && (g.writer.Written? <==> done)
    {
      ghost var before := Gateway(certs, keys, map[], Queued(f, p), Free, {});
      forall matches: Matching
        ensures var g := Exec(matches, before, ThreadActions(io));
                && g.certs == CertsAfter(before.certs, f, p, io) && g.keys == KeysAfter(before.keys, f, p, io)
                && (g.writer.Written? <==> WriteOk(io))
      {
        ThreadOutcome(matches, before, f, p, io);
      }
      if !io.mkdirOk { return false; }
      certs := certs[f := Torn];
      if !io.certOk { return false; }
      certs := certs[f := Whole(p.cert)];
      keys := keys[f := Torn];
      if !io.keyOk { return false; }
      keys := keys[f := Whole(p.key)];
      done := io.chmodOk;
    }
  }

  class Router {
    const matches: Matching
    const disk: CertDirectory
    var contexts: map<string, Pair>

    constructor (matches: Matching, disk: CertDirectory)
      ensures this.matches == matches && this.disk == disk && contexts == map[]
    {
      this.matches, this.disk, contexts := matches, disk, map[];
    }

    ghost function View(): Gateway reads this, disk {
      Gateway(disk.certs, disk.keys, contexts, Resting, Free, {})
    }

    /** The lookup is the two loop steps of the model with nothing in between. */
    method GetContext(f: string) returns (r: Option<Pair>)
      modifies this`contexts
      ensures contexts == Exec(matches, old(View()), [Lookup(f), ReadKey]).contexts
      ensures r == if f in contexts then Some(contexts[f]) else None
      ensures r == if f in old(contexts) then Some(old(contexts)[f])
                   else if f in disk.certs && f in disk.keys && disk.certs[f].Whole? && disk.keys[f].Whole?
                           && matches(disk.certs[f].pem, disk.keys[f].pem)
                        then Some(Pair(disk.certs[f].pem, disk.keys[f].pem)) else None
      ensures contexts - {f} == old(contexts) - {f}
    {
      ghost var g := View();
      assert [Lookup(f), ReadKey][1..] == [ReadKey] && [ReadKey][1..] == [];
      assert Exec(matches, g, [Lookup(f), ReadKey]) == Exec(matches, Next(matches, g, Lookup(f)), [ReadKey]);
      assert Exec(matches, Next(matches, g, Lookup(f)), [ReadKey])
          == Exec(matches, Next(matches, Next(matches, g, Lookup(f)), ReadKey), []);
      if f in contexts {
        return Some(contexts[f]);
      }
      if f in disk.certs && f in disk.keys {
        var cert, key := disk.certs[f], disk.keys[f];
        if cert.Whole? && key.Whole? && matches(cert.pem, key.pem) {
          contexts := contexts[f := Pair(cert.pem, key.pem)];
          return Some(contexts[f]);
        }
      }
      r := None;
    }

    /** Drops the cached context first: if the pair on disk does not load, none is left. */
    method ReloadContext(f: string)
      modifies this`contexts
      ensures f in contexts <==> f in disk.certs && f in disk.keys && Loads(matches, disk.certs[f], disk.keys[f])
      ensures f in contexts ==> contexts[f] == Pair(disk.certs[f].pem, disk.keys[f].pem)
      ensures contexts - {f} == old(contexts) - {f}
    {
      contexts := contexts - {f};
      ghost var g := View();
      assert Exec(matches, g, [Lookup(f), ReadKey]) == Next(matches, Next(matches, g, Lookup(f)), ReadKey) by {
        assert [Lookup(f), ReadKey][1..] == [ReadKey] && [ReadKey][1..] == [];
        assert Exec(matches, Next(matches, g, Lookup(f)), [ReadKey])
            == Exec(matches, Next(matches, Next(matches, g, Lookup(f)), ReadKey), []);
      }
      var _ := GetContext(f);
    }
  }
}
