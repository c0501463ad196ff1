/**
 The bounded replay cache of internal/api/platform_replay.go.  Principals stand
 for their digests, and times are integers.
 */
module PlatformReplay {
  import opened Common

  const MAX_PRINCIPALS := 4096
  const MAX_ENTRIES := 65536
  const MAX_ENTRIES_PRINCIPAL := 2048

  type Principal = string
  type Nonce = seq<byte>
  type Bucket = map<Nonce, int>
  type Entries = map<Principal, Bucket>

  datatype Verdict = Accepted | Duplicate | Capacity

  function Live(bucket: Bucket, now: int): Bucket {
    map n | n in bucket && bucket[n] > now :: bucket[n]
  }

  /** Every principal's live entries; a principal without any is dropped. */
  function LiveEntries(entries: Entries, now: int): Entries {
    map p | p in entries && Live(entries[p], now) != map[] :: Live(entries[p], now)
  }

  function Pairs(entries: Entries): set<(Principal, Nonce)> {
    set p, n | p in entries && n in entries[p] :: (p, n)
  }

  function Lookup(entries: Entries, p: Principal): Bucket {
    if p in entries then entries[p] else map[]
  }

  /** The entries after replacing one principal's bucket; an empty bucket is not kept. */
  function Put(entries: Entries, p: Principal, bucket: Bucket): Entries {
    if bucket == map[] then entries - {p} else entries[p := bucket]
  }

  predicate NoEmptyBucket(entries: Entries) {
    forall p :: p in entries ==> entries[p] != map[]
  }

  /** The purge of every bucket runs when the caches's totals, stale entries included, reach a cap. */
  function Swept(entries: Entries, p: Principal, now: int): Entries {
    if |Pairs(entries)| >= MAX_ENTRIES || (p !in entries && |entries| >= MAX_PRINCIPALS)
    then LiveEntries(entries, now) else entries
  }

  predicate Full(entries: Entries, p: Principal) {
    || |Pairs(entries)| >= MAX_ENTRIES
    || (p !in entries && |entries| >= MAX_PRINCIPALS)
    || |Lookup(entries, p)| >= MAX_ENTRIES_PRINCIPAL
  }

  datatype Request = Request(principal: Principal, nonce: Nonce, expiresAt: int, now: int)

  function AdmitStep(entries: Entries, r: Request): (Verdict, Entries) {
    var own := Live(Lookup(entries, r.principal), r.now);
    var purged := Put(entries, r.principal, own);
    if r.nonce in own then (Duplicate, purged) else AdmitNew(purged, r)
  }

  /** The rest of `admit`, when the principal's own bucket is purged and does not hold the nonce. */
  function AdmitNew(entries: Entries, r: Request): (Verdict, Entries) {
    var swept := Swept(entries, r.principal, r.now);
    if Full(swept, r.principal) then (Capacity, swept)
    else (Accepted, swept[r.principal := Lookup(swept, r.principal)[r.nonce := r.expiresAt]])
  }

  // Sizes.

  lemma {:induction false} TaggedSize(p: Principal, nonces: set<Nonce>)
    ensures |set n | n in nonces :: (p, n)| == |nonces|
  {
    if nonces != {} {
      var x :| x in nonces;
      TaggedSize(p, nonces - {x});
      assert (set n | n in nonces :: (p, n)) == (set n | n in nonces - {x} :: (p, n)) + {(p, x)};
    }
  }

  function Tagged(p: Principal, bucket: Bucket): set<(Principal, Nonce)> {
    set n | n in bucket.Keys :: (p, n)
  }

  lemma {:induction false} InPairs(entries: Entries, q: (Principal, Nonce))
    ensures q in Pairs(entries) <==> q.0 in entries && q.1 in entries[q.0]
  {
    assert q == (q.0, q.1);
  }

  lemma {:induction false} InTagged(p: Principal, bucket: Bucket, q: (Principal, Nonce))
    ensures q in Tagged(p, bucket) <==> q.0 == p && q.1 in bucket
  {
    assert q == (q.0, q.1);
  }

  lemma {:induction false} PairsSplit(entries: Entries, p: Principal)
    ensures |Pairs(entries)| == |Pairs(entries - {p})| + |Lookup(entries, p)|
  {
    var bucket := Lookup(entries, p);
    var all, others, own := Pairs(entries), Pairs(entries - {p}), Tagged(p, bucket);
    forall q ensures q in all <==> q in others || q in own {
      InPairs(entries, q);
      InPairs(entries - {p}, q);
      InTagged(p, bucket, q);
    }
    forall q | q in others ensures q !in own {
      InPairs(entries - {p}, q);
      InTagged(p, bucket, q);
    }
    TaggedSize(p, bucket.Keys);
    DisjointUnionSize(all, others, own);
  }

  lemma {:induction false} DisjointUnionSize<T>(all: set<T>, a: set<T>, b: set<T>)
    requires a !! b && forall q :: q in all <==> q in a || q in b
    ensures |all| == |a| + |b|
  {
    assert all == a + b;
  }

  lemma {:induction false} PairsOfPut(entries: Entries, p: Principal, bucket: Bucket)
    ensures |Pairs(Put(entries, p, bucket))| == |Pairs(entries)| - |Lookup(entries, p)| + |bucket|
  {
    PairsSplit(entries, p);
    PairsSplit(Put(entries, p, bucket), p);
    assert Put(entries, p, bucket) - {p} == entries - {p};
  }

  /** The buckets of the principals in `todo` as they were, and those of the others swept. */
  function PartlySwept(entries: Entries, todo: set<Principal>, now: int): Entries {
    map p | p in entries && (p in todo || Live(entries[p], now) != map[]) ::
      if p in todo then entries[p] else Live(entries[p], now)
  }

  lemma {:induction false} SweepsOneMore(entries: Entries, todo: set<Principal>, p: Principal, now: int)
    requires p in todo && p in entries
    ensures Put(PartlySwept(entries, todo, now), p, Live(entries[p], now)) == PartlySwept(entries, todo - {p}, now)
  {
  }

  // The cache object.

  lemma {:induction false} OnePairLess(entries: Entries, p: Principal, n: Nonce)
    requires p in entries && n in entries[p]
    ensures |Pairs(entries[p := entries[p] - {n}])| == |Pairs(entries)| - 1
  {
    assert Pairs(entries[p := entries[p] - {n}]) == Pairs(entries) - {(p, n)};
  }

  class Cache {
    var entries: Entries
    var total: int

    ghost predicate Valid()
      reads this
    {
      total == |Pairs(entries)| && NoEmptyBucket(entries)
    }

    constructor ()
      ensures Valid() && entries == map[]
    {
      entries, total := map[], 0;
    }

    /** Deletes one principal's expired entries; a bucket that becomes empty is left in place. */
    method PurgeBucket(p: Principal, now: int)
      requires p in entries && total == |Pairs(entries)|
      modifies this
      ensures entries == old(entries)[p := Live(old(entries)[p], now)]
      ensures total == |Pairs(entries)|
    {
      var todo := entries[p].Keys;
      ghost var bucket0 := entries[p];
      while todo != {}
        invariant p in entries && entries == old(entries)[p := entries[p]] && total == |Pairs(entries)|
        invariant todo <= bucket0.Keys && todo <= entries[p].Keys && entries[p].Keys <= bucket0.Keys
        invariant forall n :: n in entries[p] ==> entries[p][n] == bucket0[n] && (n in todo || bucket0[n] > now)
        invariant forall n :: n in bucket0 && bucket0[n] > now ==> n in entries[p]
        decreases todo
      {
        var candidate :| candidate in todo;
        if entries[p][candidate] <= now {
          OnePairLess(entries, p, candidate);
          entries := entries[p := entries[p] - {candidate}];
          total := total - 1;
        }
        todo := todo - {candidate};
      }
      assert entries[p] == Live(bucket0, now);
    }

    /** Deletes one principal's expired entries, and its bucket when that becomes empty. */
    method PurgeAndDrop(p: Principal, now: int)
      requires p in entries && total == |Pairs(entries)|
      modifies this
      ensures entries == Put(old(entries), p, Live(old(entries)[p], now)) && total == |Pairs(entries)|
    {
      PurgeBucket(p, now);
      if entries[p] == map[] {
        assert Pairs(entries - {p}) == Pairs(entries);
        entries := entries - {p};
      }
    }

    /** Deletes every expired entry and every bucket that becomes empty. */
    method Sweep(now: int)
      requires Valid()
      modifies this
      ensures Valid() && entries == LiveEntries(old(entries), now)
    {
      ghost var entries0 := entries;
      var todo := entries.Keys;
      assert entries == PartlySwept(entries0, todo, now);
      while todo != {}
        invariant todo <= entries0.Keys && total == |Pairs(entries)|
        invariant entries == PartlySwept(entries0, todo, now)
        decreases todo
      {
        var p :| p in todo;
        SweepsOneMore(entries0, todo, p, now);
        PurgeAndDrop(p, now);
        todo := todo - {p};
      }
      assert PartlySwept(entries0, {}, now) == LiveEntries(entries0, now);
    }

    /** Stores a nonce that is not in the cache. */
    method Insert(principal: Principal, nonce: Nonce, expiresAt: int)
      requires Valid() && nonce !in Lookup(entries, principal)
      modifies this
      ensures Valid() && entries == old(entries)[principal := Lookup(old(entries), principal)[nonce := expiresAt]]
    {
      var bucket := if principal in entries then entries[principal] else map[];
      PairsOfPut(entries, principal, bucket[nonce := expiresAt]);
      entries := entries[principal := bucket[nonce := expiresAt]];
      total := total + 1;
    }

    method Admit(principal: Principal, nonce: Nonce, expiresAt: int, now: int) returns (verdict: Verdict)
      requires Valid()
      modifies this
      ensures Valid()
      ensures (verdict, entries) == AdmitStep(old(entries), Request(principal, nonce, expiresAt, now))
    {
      ghost var own := Live(Lookup(entries, principal), now);
      ghost var purged := Put(entries, principal, own);
      if principal in entries {
        PurgeAndDrop(principal, now);
        if principal in entries && nonce in entries[principal] { return Duplicate; }
      }
      assert entries == purged && nonce !in own;
      verdict := AdmitUnseen(principal, nonce, expiresAt, now);
    }

    method AdmitUnseen(principal: Principal, nonce: Nonce, expiresAt: int, now: int) returns (verdict: Verdict)
      requires Valid() && nonce !in Lookup(entries, principal)
      modifies this
      ensures Valid()
      ensures (verdict, entries) == AdmitNew(old(entries), Request(principal, nonce, expiresAt, now))
    {
      if total >= MAX_ENTRIES || (principal !in entries && |entries| >= MAX_PRINCIPALS) {
        Sweep(now);
      }
      var size := if principal in entries then |entries[principal]| else 0;
      if total >= MAX_ENTRIES || (principal !in entries && |entries| >= MAX_PRINCIPALS)
        || size >= MAX_ENTRIES_PRINCIPAL {
        return Capacity;
      }
      Insert(principal, nonce, expiresAt);
      return Accepted;
    }
  }

  // The ideal cache: every nonce ever accepted, of which only the live ones matter.

  type History = map<(Principal, Nonce), int>

  function LivePairs(h: History, now: int): set<(Principal, Nonce)> {
    set q | q in h && h[q] > now
  }

  function NoncesOf(live: set<(Principal, Nonce)>, p: Principal): set<Nonce> {
    set q | q in live && q.0 == p :: q.1
  }

  function PrincipalsOf(live: set<(Principal, Nonce)>): set<Principal> {
    set q | q in live :: q.0
  }

  /** A cap is reached by live entries alone. */
  predicate LiveFull(live: set<(Principal, Nonce)>, p: Principal) {
    || |live| >= MAX_ENTRIES
    || (NoncesOf(live, p) == {} && |PrincipalsOf(live)| >= MAX_PRINCIPALS)
    || |NoncesOf(live, p)| >= MAX_ENTRIES_PRINCIPAL
  }

  function IdealStep(h: History, r: Request): (Verdict, History) {
    var live := LivePairs(h, r.now);
    if (r.principal, r.nonce) in live then (Duplicate, h)
    else if LiveFull(live, r.principal) then (Capacity, h)
    else (Accepted, h[(r.principal, r.nonce) := r.expiresAt])
  }

  predicate LiveIn(entries: Entries, p: Principal, n: Nonce, now: int) {
    p in entries && n in entries[p] && entries[p][n] > now
  }

  predicate AgreeOn(entries: Entries, h: History, now: int, p: Principal, n: Nonce) {
    && (LiveIn(entries, p, n, now) <==> (p, n) in h && h[(p, n)] > now)
    && (LiveIn(entries, p, n, now) ==> entries[p][n] == h[(p, n)])
  }

  /** At time `now` and later, cache and history have the same live entries. */
  ghost predicate Agree(entries: Entries, h: History, now: int) {
    forall p, n {:trigger AgreeOn(entries, h, now, p, n)} :: AgreeOn(entries, h, now, p, n)
  }

  predicate OwnIsLive(entries: Entries, p: Principal, now: int) {
    forall n :: n in Lookup(entries, p) ==> Lookup(entries, p)[n] > now
  }

  lemma {:induction false} PurgeKeepsAgreement(entries: Entries, h: History, p: Principal, now: int)
    requires Agree(entries, h, now) && NoEmptyBucket(entries)
    ensures var purged := Put(entries, p, Live(Lookup(entries, p), now));
            Agree(purged, h, now) && NoEmptyBucket(purged) && OwnIsLive(purged, p, now)
  {
    var own := Live(Lookup(entries, p), now);
    var purged := Put(entries, p, own);
    forall q, n ensures AgreeOn(purged, h, now, q, n) {
      assert AgreeOn(entries, h, now, q, n);
      if q == p && LiveIn(entries, p, n, now) { assert n in own; }
    }
  }

  lemma {:induction false} SweepKeepsAgreement(entries: Entries, h: History, now: int)
    requires Agree(entries, h, now)
    ensures var swept := LiveEntries(entries, now);
            Agree(swept, h, now) && NoEmptyBucket(swept) && forall p :: OwnIsLive(swept, p, now)
  {
    var swept := LiveEntries(entries, now);
    forall p, n ensures AgreeOn(swept, h, now, p, n) {
      assert AgreeOn(entries, h, now, p, n);
      if LiveIn(entries, p, n, now) { assert n in Live(entries[p], now); }
    }
  }

  lemma {:induction false} OwnSizes(entries: Entries, h: History, p: Principal, now: int)
    requires Agree(entries, h, now) && NoEmptyBucket(entries) && OwnIsLive(entries, p, now)
    ensures var live := LivePairs(h, now);
            && Lookup(entries, p).Keys == NoncesOf(live, p)
            && |Lookup(entries, p)| == |NoncesOf(live, p)|
            && (p in entries <==> NoncesOf(live, p) != {})
  {
    var live := LivePairs(h, now);
    var own := Lookup(entries, p);
    forall n ensures n in own.Keys <==> n in NoncesOf(live, p) {
      assert AgreeOn(entries, h, now, p, n);
      if n in own.Keys { assert (p, n) in live; }
    }
    assert own.Keys == NoncesOf(live, p);
  }

  lemma {:induction false} SubsetSize<T>(a: set<T>, b: set<T>)
    requires a <= b
    ensures |a| <= |b|
  {
    assert b == a + (b - a);
  }

  /** Stale entries only make the cache's totals larger. */
  lemma {:induction false} LiveIsSmaller(entries: Entries, h: History, now: int)
    requires Agree(entries, h, now)
    ensures var live := LivePairs(h, now); |live| <= |Pairs(entries)| && |PrincipalsOf(live)| <= |entries|
  {
    var live := LivePairs(h, now);
    forall q | q in live ensures q in Pairs(entries) && q.0 in entries {
      assert q == (q.0, q.1) && AgreeOn(entries, h, now, q.0, q.1);
      InPairs(entries, q);
    }
    SubsetSize(live, Pairs(entries));
    SubsetSize(PrincipalsOf(live), entries.Keys);
  }

  lemma {:induction false} SweptIsExact(entries: Entries, h: History, now: int)
    requires Agree(entries, h, now) && NoEmptyBucket(entries) && forall p :: OwnIsLive(entries, p, now)
    ensures var live := LivePairs(h, now); |live| == |Pairs(entries)| && |PrincipalsOf(live)| == |entries|
  {
    var live := LivePairs(h, now);
    LiveIsSmaller(entries, h, now);
    forall q | q in Pairs(entries) ensures q in live {
      InPairs(entries, q);
      assert OwnIsLive(entries, q.0, now) && q.1 in Lookup(entries, q.0);
      assert q == (q.0, q.1) && AgreeOn(entries, h, now, q.0, q.1);
    }
    SubsetSize(Pairs(entries), live);
    forall p | p in entries ensures p in PrincipalsOf(live) {
      var n :| n in entries[p];
      assert OwnIsLive(entries, p, now) && AgreeOn(entries, h, now, p, n);
      assert (p, n) in live;
    }
    SubsetSize(entries.Keys, PrincipalsOf(live));
  }

  /** Whether or not the sweep runs, the cache is full exactly when live entries alone reach a cap. */
  lemma {:induction false} FullIsLiveFull(entries: Entries, h: History, r: Request)
    requires Agree(entries, h, r.now) && NoEmptyBucket(entries) && OwnIsLive(entries, r.principal, r.now)
    ensures var swept := Swept(entries, r.principal, r.now);
            && Full(swept, r.principal) == LiveFull(LivePairs(h, r.now), r.principal)
            && Agree(swept, h, r.now) && NoEmptyBucket(swept)
  {
    OwnSizes(entries, h, r.principal, r.now);
    LiveIsSmaller(entries, h, r.now);
    var swept := Swept(entries, r.principal, r.now);
    if |Pairs(entries)| >= MAX_ENTRIES || (r.principal !in entries && |entries| >= MAX_PRINCIPALS) {
      SweepKeepsAgreement(entries, h, r.now);
      OwnSizes(swept, h, r.principal, r.now);
      SweptIsExact(swept, h, r.now);
    }
  }

  /** One request gets the same verdict from both, and afterwards they still agree. */
  lemma {:induction false} StepAgrees(entries: Entries, h: History, r: Request)
    requires Agree(entries, h, r.now) && NoEmptyBucket(entries)
    ensures AdmitStep(entries, r).0 == IdealStep(h, r).0
    ensures Agree(AdmitStep(entries, r).1, IdealStep(h, r).1, r.now) && NoEmptyBucket(AdmitStep(entries, r).1)
  {
    var own := Live(Lookup(entries, r.principal), r.now);
    var purged := Put(entries, r.principal, own);
    assert AgreeOn(entries, h, r.now, r.principal, r.nonce);
    assert r.nonce in own <==> (r.principal, r.nonce) in LivePairs(h, r.now);
    PurgeKeepsAgreement(entries, h, r.principal, r.now);
    if r.nonce !in own {
      FullIsLiveFull(purged, h, r);
      InsertAgrees(Swept(purged, r.principal, r.now), h, r);
    }
  }

  lemma {:induction false} InsertAgrees(entries: Entries, h: History, r: Request)
    requires Agree(entries, h, r.now) && NoEmptyBucket(entries)
    ensures var inserted := entries[r.principal := Lookup(entries, r.principal)[r.nonce := r.expiresAt]];
            Agree(inserted, h[(r.principal, r.nonce) := r.expiresAt], r.now) && NoEmptyBucket(inserted)
  {
    var inserted := entries[r.principal := Lookup(entries, r.principal)[r.nonce := r.expiresAt]];
    var h' := h[(r.principal, r.nonce) := r.expiresAt];
    assert r.nonce in inserted[r.principal];
    forall p, n ensures AgreeOn(inserted, h', r.now, p, n) {
      assert AgreeOn(entries, h, r.now, p, n);
    }
  }

  // Runs with a nondecreasing clock.

  ghost predicate Clocked(run: seq<Request>) {
    forall i, j :: 0 <= i <= j < |run| ==> run[i].now <= run[j].now
  }

  function CacheAfter(run: seq<Request>): Entries {
    if run == [] then map[] else AdmitStep(CacheAfter(run[..|run| - 1]), run[|run| - 1]).1
  }

  function HistoryAfter(run: seq<Request>): History {
    if run == [] then map[] else IdealStep(HistoryAfter(run[..|run| - 1]), run[|run| - 1]).1
  }

  function CacheVerdict(run: seq<Request>, i: nat): Verdict
    requires i < |run|
  {
    AdmitStep(CacheAfter(run[..i]), run[i]).0
  }

  function IdealVerdict(run: seq<Request>, i: nat): Verdict
    requires i < |run|
  {
    IdealStep(HistoryAfter(run[..i]), run[i]).0
  }

  lemma {:induction false} RunAgrees(run: seq<Request>, now: int)
    requires Clocked(run) && (run != [] ==> run[|run| - 1].now <= now)
    ensures Agree(CacheAfter(run), HistoryAfter(run), now) && NoEmptyBucket(CacheAfter(run))
  {
    if run != [] {
      var init, last := run[..|run| - 1], run[|run| - 1];
      RunAgrees(init, last.now);
      StepAgrees(CacheAfter(init), HistoryAfter(init), last);
      AgreeLater(CacheAfter(run), HistoryAfter(run), last.now, now);
    } else {
      assert forall p, n :: AgreeOn(map[], map[], now, p, n);
    }
  }

  lemma {:induction false} AgreeLater(entries: Entries, h: History, now: int, later: int)
    requires Agree(entries, h, now) && now <= later
    ensures Agree(entries, h, later)
  {
    forall p, n ensures AgreeOn(entries, h, later, p, n) {
      assert AgreeOn(entries, h, now, p, n);
    }
  }

  /** Main result: lazy purging never changes a decision. */
  lemma {:induction false} LazyPurgeIsUnobservable(run: seq<Request>, i: nat)
    requires Clocked(run) && i < |run|
    ensures CacheVerdict(run, i) == IdealVerdict(run, i)
  {
    RunAgrees(run[..i], run[i].now);
    StepAgrees(CacheAfter(run[..i]), HistoryAfter(run[..i]), run[i]);
  }

  /** A refusal for capacity means that entries still live fill a cap, and that the nonce is not one of them. */
  lemma {:induction false} CapacityMeansLiveEntriesFill(run: seq<Request>, i: nat)
    requires Clocked(run) && i < |run| && CacheVerdict(run, i) == Capacity
    ensures var live := LivePairs(HistoryAfter(run[..i]), run[i].now);
            LiveFull(live, run[i].principal) && (run[i].principal, run[i].nonce) !in live
  {
    LazyPurgeIsUnobservable(run, i);
  }

  /** From its acceptance until its expiry, a nonce stays in the history. */
  lemma {:induction false} AcceptedIsRemembered(run: seq<Request>, i: nat, j: nat)
    requires Clocked(run) && i < j <= |run| && IdealVerdict(run, i) == Accepted
    requires forall k :: i < k < j ==> run[k].now < run[i].expiresAt
    ensures var q := (run[i].principal, run[i].nonce); var h := HistoryAfter(run[..j]);
      q in h && h[q] == run[i].expiresAt
    decreases j
  {
    assert run[..j][..j - 1] == run[..j - 1];
    if j - 1 > i {
      AcceptedIsRemembered(run, i, j - 1);
    }
  }

  /** No replay: an accepted nonce is refused as a duplicate for that principal until it expires. */
  lemma {:induction false} AcceptedOnceBeforeExpiry(run: seq<Request>, i: nat, j: nat)
    requires Clocked(run) && i < j < |run| && CacheVerdict(run, i) == Accepted
    requires run[j].principal == run[i].principal && run[j].nonce == run[i].nonce && run[j].now < run[i].expiresAt
    ensures CacheVerdict(run, j) == Duplicate
  {
    LazyPurgeIsUnobservable(run, i);
    LazyPurgeIsUnobservable(run, j);
    AcceptedIsRemembered(run, i, j);
  }

  /** Request i was accepted for this principal and nonce, and has not expired at the given time. */
  ghost predicate Holds(run: seq<Request>, i: nat, q: (Principal, Nonce), now: int) {
    i < |run| && (run[i].principal, run[i].nonce) == q && IdealVerdict(run, i) == Accepted && run[i].expiresAt > now
  }

  lemma {:induction false} RememberedWasAccepted(run: seq<Request>, j: nat, q: (Principal, Nonce)) returns (i: nat)
    requires j <= |run| && q in HistoryAfter(run[..j])
    ensures i < j && (run[i].principal, run[i].nonce) == q && IdealVerdict(run, i) == Accepted
    ensures HistoryAfter(run[..j])[q] == run[i].expiresAt
    decreases j
  {
    var last := run[j - 1];
    assert run[..j][..j - 1] == run[..j - 1];
    if (last.principal, last.nonce) == q && IdealVerdict(run, j - 1) == Accepted {
      i := j - 1;
    } else {
      i := RememberedWasAccepted(run, j - 1, q);
    }
  }

  /** The live entries are those accepted and not yet expired. */
  lemma {:induction false} LiveExactly(run: seq<Request>, j: nat, q: (Principal, Nonce))
    requires Clocked(run) && j < |run|
    ensures q in LivePairs(HistoryAfter(run[..j]), run[j].now) <==>
      exists i: nat :: i < j && Holds(run, i, q, run[j].now)
  {
    if q in LivePairs(HistoryAfter(run[..j]), run[j].now) {
      var i := RememberedWasAccepted(run, j, q);
      assert Holds(run, i, q, run[j].now);
    }
    if i: nat :| i < j && Holds(run, i, q, run[j].now) {
      AcceptedIsRemembered(run, i, j);
    }
  }

  /**
   Every verdict of a run, from the acceptances before it alone: a duplicate, a refusal at a cap, or an acceptance.
   */
  lemma {:induction false} VerdictExactly(run: seq<Request>, j: nat, live: set<(Principal, Nonce)>)
    requires Clocked(run) && j < |run|
    requires forall q :: q in live <==> exists i: nat :: i < j && Holds(run, i, q, run[j].now)
    ensures var p := run[j].principal; var own := set q | q in live && q.0 == p;
            CacheVerdict(run, j) ==
              if (p, run[j].nonce) in live then Duplicate
              else if |live| >= 65536 || |own| >= 2048
                      || (own == {} && |set q | q in live :: q.0| >= 4096) then Capacity
              else Accepted
  {
    forall q ensures q in live <==> q in LivePairs(HistoryAfter(run[..j]), run[j].now) {
      LiveExactly(run, j, q);
    }
    assert live == LivePairs(HistoryAfter(run[..j]), run[j].now);
    LazyPurgeIsUnobservable(run, j);
    OwnNonces(live, run[j].principal);
  }

  lemma {:induction false} OwnNonces(live: set<(Principal, Nonce)>, p: Principal)
    ensures var own := set q | q in live && q.0 == p;
            |own| == |NoncesOf(live, p)| && (own == {} <==> NoncesOf(live, p) == {})
  {
    var own := set q | q in live && q.0 == p;
    TaggedSize(p, NoncesOf(live, p));
    forall q ensures q in own <==> q in set n | n in NoncesOf(live, p) :: (p, n) {
      assert q == (q.0, q.1);
    }
    assert own == set n | n in NoncesOf(live, p) :: (p, n);
    if q :| q in own { assert q.1 in NoncesOf(live, p); }
  }
}
