/** Recent activity by path and process (`EventLog` in `ncda/src/rate.rs`): bucketed,
    preaggregated, and indexed by path prefix. */
module EventLogging {
  import opened Saturating
  import opened Buckets
  import opened Counting
  import opened Filter
  import opened Numerals
  import Processes

  datatype ActivityKey = ActivityKey(path: string, pid: u32)

  type Amounts = map<ActivityKey, u64>

  datatype EventState = EventState(buckets: seq<Bucket<Amounts>>, activities: Amounts, prefixTotals: map<string, u64>)

  const QUIET := EventState([], map[], map[])

  function Get<K>(m: map<K, u64>, k: K): u64 { if k in m then m[k] else 0 }

  function Plus<K>(m: map<K, u64>, k: K, bytes: u64): map<K, u64> { m[k := SatAdd(Get(m, k), bytes)] }

  // --- The prefixes of a path ---

  /** Bytes charged to each prefix. */
  type Charges = map<string, nat>

  function Amount(charges: Charges, q: string): nat { if q in charges then charges[q] else 0 }

  function Charged(charges: Charges, q: string, bytes: nat): Charges {
    charges[q := Amount(charges, q) + bytes]
  }

  /** The visits of `for_each_path_prefix` up to the slash before index `n`. */
  function VisitedUpTo(path: string, n: nat, bytes: nat): Charges
    requires n <= |path|
  {
    if n <= 1 then map["/" := bytes]
    else if path[n - 1] == '/' then Charged(VisitedUpTo(path, n - 1, bytes), path[..n - 1], bytes)
    else VisitedUpTo(path, n - 1, bytes)
  }

  /** All visits of `for_each_path_prefix`, each charging `bytes`. */
  function VisitsOf(path: string, bytes: nat): Charges {
    if path == "/" then map[path := bytes] else Charged(VisitedUpTo(path, |path|, bytes), path, bytes)
  }

  /** `path_matches_prefix`. */
  predicate MatchesPrefix(path: string, prefix: string) {
    prefix == "/" || path == prefix || (prefix < path && path[|prefix|] == '/')
  }

  predicate DoubleSlash(path: string) { "//" <= path }

  lemma PrefixByLength(path: string, n: nat, q: string)
    requires n < |path|
    ensures q == path[..n] <==> |q| == n && q < path
  {
  }

  lemma {:induction false} VisitedExactly(path: string, n: nat, bytes: nat, q: string)
    requires n <= |path|
    ensures Amount(VisitedUpTo(path, n, bytes), q)
         == (if q == "/" then bytes else 0) + (if 1 <= |q| < n && q < path && path[|q|] == '/' then bytes else 0)
  {
    if n > 1 {
      VisitedExactly(path, n - 1, bytes, q);
      PrefixByLength(path, n - 1, q);
    }
  }

  /** Every non-empty prefix is charged once when it matches and never otherwise, except
      that the root is charged twice for a path that starts with two slashes. The empty
      prefix, which would match every absolute path, is charged by the empty path only. */
  lemma VisitsExactly(path: string, bytes: nat, q: string)
    ensures Amount(VisitsOf(path, bytes), q)
         == (if (if q == "" then path == "" else MatchesPrefix(path, q)) then bytes else 0)
            + (if q == "/" && DoubleSlash(path) then bytes else 0)
  {
    VisitedExactly(path, |path|, bytes, q);
    if q == "/" && |path| > 1 {
      assert DoubleSlash(path) <==> q < path && path[1] == '/';
    }
  }

  lemma {:induction false} VisitedPositive(path: string, n: nat, bytes: nat, q: string)
    requires n <= |path| && bytes > 0 && q in VisitedUpTo(path, n, bytes)
    ensures VisitedUpTo(path, n, bytes)[q] > 0
  {
    if n > 1 && q in VisitedUpTo(path, n - 1, bytes) { VisitedPositive(path, n - 1, bytes, q); }
  }

  lemma {:induction false} VisitedKeys(path: string, n: nat, a: nat, b: nat, q: string)
    requires n <= |path|
    ensures q in VisitedUpTo(path, n, a) <==> q in VisitedUpTo(path, n, b)
  {
    if n > 1 { VisitedKeys(path, n - 1, a, b, q); }
  }

  // --- Updating the prefix totals ---

  ghost predicate Positive<K(!new)>(m: map<K, u64>) { forall k :: k in m ==> m[k] > 0 }

  ghost function Raised(totals: map<string, u64>, charges: Charges): map<string, u64> {
    map q | q in totals.Keys + charges.Keys :: SatAdd(Get(totals, q), Amount(charges, q))
  }

  ghost function Lowered(totals: map<string, u64>, charges: Charges): map<string, u64> {
    map q | q in totals && totals[q] > Amount(charges, q) :: totals[q] - Amount(charges, q)
  }

  lemma RaisedPositive(totals: map<string, u64>, path: string, bytes: u64)
    requires Positive(totals) && bytes > 0
    ensures Positive(Raised(totals, VisitsOf(path, bytes)))
  {
    forall q | q in VisitsOf(path, bytes)
      ensures VisitsOf(path, bytes)[q] > 0
    {
      if q in VisitedUpTo(path, |path|, bytes) { VisitedPositive(path, |path|, bytes, q); }
    }
  }

  lemma RaisedStep(totals: map<string, u64>, charges: Charges, q: string, bytes: u64)
    ensures Plus(Raised(totals, charges), q, bytes) == Raised(totals, Charged(charges, q, bytes))
  {
  }

  function VisitDown(totals: map<string, u64>, q: string, bytes: u64): map<string, u64> {
    if q !in totals then totals
    else if SatSub(totals[q], bytes) == 0 then totals - {q}
    else totals[q := SatSub(totals[q], bytes)]
  }

  ghost function Adjusted(totals: map<string, u64>, charges: Charges, add: bool): map<string, u64> {
    if add then Raised(totals, charges) else Lowered(totals, charges)
  }

  lemma NothingAdjusted(totals: map<string, u64>)
    requires Positive(totals)
    ensures Raised(totals, map[]) == totals && Lowered(totals, map[]) == totals
  {
  }

  lemma LoweredStep(totals: map<string, u64>, charges: Charges, q: string, bytes: u64)
    ensures VisitDown(Lowered(totals, charges), q, bytes) == Lowered(totals, Charged(charges, q, bytes))
  {
  }

  // --- Removing a bucket ---

  ghost function Shares(amounts: Amounts, q: string): map<ActivityKey, nat> {
    map k | k in amounts :: Amount(VisitsOf(k.path, amounts[k]), q)
  }

  /** What a bucket charges to one prefix. */
  ghost function Charge(amounts: Amounts, q: string): nat { MapSum(Shares(amounts, q)) }

  /** One key of `remove_bucket`: exhausted activity is dropped. */
  function Debited(activities: Amounts, k: ActivityKey, bytes: u64): Amounts {
    if k !in activities then activities
    else if activities[k] > bytes then activities[k := activities[k] - bytes]
    else activities - {k}
  }

  /** The activities that remain without the given amounts. */
  function Without(activities: Amounts, amounts: Amounts): Amounts {
    map k | k in activities && activities[k] > Get(amounts, k) :: activities[k] - Get(amounts, k)
  }

  ghost function DischargedBy(totals: map<string, u64>, charge: string -> nat): map<string, u64> {
    map q | q in totals && totals[q] > charge(q) :: totals[q] - charge(q)
  }

  ghost function Discharged(totals: map<string, u64>, amounts: Amounts): map<string, u64> {
    DischargedBy(totals, q => Charge(amounts, q))
  }

  lemma ChargeStep(amounts: Amounts, k: ActivityKey, bytes: u64, q: string)
    requires k !in amounts
    ensures Charge(amounts[k := bytes], q) == Charge(amounts, q) + Amount(VisitsOf(k.path, bytes), q)
  {
    var share := Amount(VisitsOf(k.path, bytes), q);
    assert Shares(amounts[k := bytes], q) == Shares(amounts, q)[k := share];
    MapSumUpdate(Shares(amounts, q), k, share);
  }

  lemma DischargedByStep(totals: map<string, u64>, before: string -> nat, charges: Charges, after: string -> nat)
    requires forall q :: after(q) == before(q) + Amount(charges, q)
    ensures Lowered(DischargedBy(totals, before), charges) == DischargedBy(totals, after)
  {
  }

  lemma DischargedStep(totals: map<string, u64>, amounts: Amounts, k: ActivityKey, bytes: u64)
    requires k !in amounts
    ensures Lowered(Discharged(totals, amounts), VisitsOf(k.path, bytes)) == Discharged(totals, amounts[k := bytes])
  {
    forall q { ChargeStep(amounts, k, bytes, q); }
    DischargedByStep(totals, q => Charge(amounts, q), VisitsOf(k.path, bytes), q => Charge(amounts[k := bytes], q));
  }

  lemma DischargedPositive(totals: map<string, u64>, activities: Amounts, amounts: Amounts)
    ensures Positive(Discharged(totals, amounts)) && Positive(Without(activities, amounts))
  {
  }

  lemma NothingDischarged(totals: map<string, u64>, activities: Amounts)
    requires Positive(totals) && Positive(activities)
    ensures Discharged(totals, map[]) == totals && Without(activities, map[]) == activities
  {
    forall q
      ensures Charge(map[], q) == 0
    {
      assert Shares(map[], q) == map[];
    }
  }

  lemma WithoutStep(activities: Amounts, amounts: Amounts, k: ActivityKey, bytes: u64)
    requires k !in amounts
    ensures Without(activities, amounts[k := bytes]) == Debited(Without(activities, amounts), k, bytes)
  {
  }

  // --- The state as a value ---

  ghost function DropFront(s: EventState): EventState
    requires |s.buckets| > 0
  {
    var load := s.buckets[0].load;
    EventState(s.buckets[1..], Without(s.activities, load), Discharged(s.prefixTotals, load))
  }

  ghost function ExpireEvents(s: EventState, cutoff: int): EventState
    decreases |s.buckets|
  {
    if |s.buckets| > 0 && s.buckets[0].latestAt < cutoff then ExpireEvents(DropFront(s), cutoff) else s
  }

  ghost function TrimEvents(s: EventState): EventState
    decreases |s.buckets|
  {
    if |s.buckets| > MAX_TIME_BUCKETS then TrimEvents(DropFront(s)) else s
  }

  lemma TrimWithin(s: EventState)
    requires |s.buckets| <= MAX_TIME_BUCKETS
    ensures TrimEvents(s) == s
  {
  }

  ghost function AddEvent(s: EventState, width: nat, now: int, key: ActivityKey, bytes: u64): EventState {
    EventState(
      Put(s.buckets, now, width, Plus(Pending(s.buckets, now, width, map[]), key, bytes)),
      Plus(s.activities, key, bytes),
      Raised(s.prefixTotals, VisitsOf(key.path, bytes)))
  }

  ghost function RecordEvent(s: EventState, window: nat, now: int, key: ActivityKey, bytes: u64): EventState {
    var live := ExpireEvents(s, now - window);
    if window == 0 || bytes == 0 then live
    else TrimEvents(AddEvent(live, BucketWidth(window), now, key, bytes))
  }

  ghost function QueryEvents(s: EventState, window: nat, now: int): EventState {
    if window == 0 then QUIET else ExpireEvents(s, now - window)
  }

  lemma {:induction false} ExpireEventsBuckets(s: EventState, cutoff: int)
    ensures ExpireEvents(s, cutoff).buckets == Fresh(s.buckets, cutoff)
    ensures Expired(s.buckets, cutoff) == 0 ==> ExpireEvents(s, cutoff) == s
    decreases |s.buckets|
  {
    if |s.buckets| > 0 && s.buckets[0].latestAt < cutoff { ExpireEventsBuckets(DropFront(s), cutoff); }
  }

  lemma AddEventReady(live: EventState, window: nat, now: int, key: ActivityKey, bytes: u64)
    requires Ready(live.buckets, window, now) && Expired(live.buckets, now - window) == 0 && window > 0
    ensures var next := AddEvent(live, BucketWidth(window), now, key, bytes);
            && Ready(next.buckets, window, now) && Expired(next.buckets, now - window) == 0
            && TrimEvents(next) == next
  {
    PutReady(live.buckets, window, now, Plus(Pending(live.buckets, now, BucketWidth(window), map[]), key, bytes));
  }

  /** Recording keeps the discipline, and never loses a live bucket to the cap. */
  lemma RecordEventReady(s: EventState, window: nat, earlier: int, now: int, key: ActivityKey, bytes: u64)
    requires Ready(s.buckets, window, earlier) && earlier <= now
    ensures var live, next := ExpireEvents(s, now - window), RecordEvent(s, window, now, key, bytes);
            && Ready(next.buckets, window, now) && Expired(next.buckets, now - window) == 0
            && ExpireEvents(next, now - window) == next
            && next == if window == 0 || bytes == 0 then live else AddEvent(live, BucketWidth(window), now, key, bytes)
  {
    hide AddEvent, Ready, Expired, Fresh, BucketWidth;
    ExpireEventsBuckets(s, now - window);
    FreshReady(s.buckets, window, earlier, now);
    if window > 0 { AddEventReady(ExpireEvents(s, now - window), window, now, key, bytes); }
    ExpireEventsBuckets(RecordEvent(s, window, now, key, bytes), now - window);
  }

  lemma PlusPositive<K(!new)>(m: map<K, u64>, k: K, bytes: u64)
    requires Positive(m) && bytes > 0
    ensures Positive(Plus(m, k, bytes))
  {
  }

  lemma PlusLaws<K>(m: map<K, u64>, j: K, k: K, a: u64, b: u64)
    ensures Plus(Plus(m, j, a), k, b) == Plus(Plus(m, k, b), j, a)
    ensures Plus(Plus(m, k, a), k, b) == Plus(m, k, SatAdd(a, b))
  {
  }

  lemma RaisedAt(totals: map<string, u64>, c: Charges, q: string)
    ensures q in Raised(totals, c) <==> q in totals || q in c
    ensures Get(Raised(totals, c), q) == SatAdd(Get(totals, q), Amount(c, q))
  {
  }

  lemma SameTotals(a: map<string, u64>, b: map<string, u64>)
    requires forall q :: (q in a <==> q in b) && Get(a, q) == Get(b, q)
    ensures a == b
  {
    assert forall q :: q in a ==> a[q] == Get(a, q) && b[q] == Get(b, q);
  }

  lemma RaisedSwap(totals: map<string, u64>, c: Charges, d: Charges)
    ensures Raised(Raised(totals, c), d) == Raised(Raised(totals, d), c)
  {
    hide Raised, Get, Amount;
    var x, y := Raised(totals, c), Raised(totals, d);
    forall q
      ensures (q in Raised(x, d) <==> q in Raised(y, c)) && Get(Raised(x, d), q) == Get(Raised(y, c), q)
    {
      RaisedAt(totals, c, q);
      RaisedAt(totals, d, q);
      RaisedAt(x, d, q);
      RaisedAt(y, c, q);
    }
    SameTotals(Raised(x, d), Raised(y, c));
  }

  lemma RaisedMerge(totals: map<string, u64>, path: string, a: u64, b: u64)
    ensures Raised(Raised(totals, VisitsOf(path, a)), VisitsOf(path, b)) == Raised(totals, VisitsOf(path, SatAdd(a, b)))
  {
    var c, d, e := VisitsOf(path, a), VisitsOf(path, b), VisitsOf(path, SatAdd(a, b));
    forall q
      ensures (q in c <==> q in e) && (q in d <==> q in e)
      ensures SatAdd(SatAdd(Get(totals, q), Amount(c, q)), Amount(d, q)) == SatAdd(Get(totals, q), Amount(e, q))
    {
      VisitedKeys(path, |path|, a, SatAdd(a, b), q);
      VisitedKeys(path, |path|, b, SatAdd(a, b), q);
      VisitsExactly(path, a, q);
      VisitsExactly(path, b, q);
      VisitsExactly(path, SatAdd(a, b), q);
    }
    RaisedTwice(totals, c, d, e);
  }

  lemma RaisedTwice(totals: map<string, u64>, c: Charges, d: Charges, e: Charges)
    requires forall q :: (q in c <==> q in e) && (q in d <==> q in e)
    requires forall q :: SatAdd(SatAdd(Get(totals, q), Amount(c, q)), Amount(d, q)) == SatAdd(Get(totals, q), Amount(e, q))
    ensures Raised(Raised(totals, c), d) == Raised(totals, e)
  {
    var cd := Raised(Raised(totals, c), d);
    assert forall q :: q in cd ==> cd[q] == SatAdd(SatAdd(Get(totals, q), Amount(c, q)), Amount(d, q));
  }

  lemma AddEventLaws(s: EventState, width: nat, now: int, j: ActivityKey, k: ActivityKey, a: u64, b: u64)
    requires width > 0
    ensures AddEvent(AddEvent(s, width, now, j, a), width, now, k, b) == AddEvent(AddEvent(s, width, now, k, b), width, now, j, a)
    ensures AddEvent(AddEvent(s, width, now, k, a), width, now, k, b) == AddEvent(s, width, now, k, SatAdd(a, b))
  {
    var none: Amounts := map[];
    var load := Pending(s.buckets, now, width, none);
    PlusLaws(load, j, k, a, b);
    PlusLaws(s.activities, j, k, a, b);
    RaisedSwap(s.prefixTotals, VisitsOf(j.path, a), VisitsOf(k.path, b));
    RaisedMerge(s.prefixTotals, k.path, a, b);
    PutTwice(s.buckets, now, width, Plus(load, j, a), Plus(Plus(load, j, a), k, b), none);
    PutTwice(s.buckets, now, width, Plus(load, k, b), Plus(Plus(load, k, b), j, a), none);
    PutTwice(s.buckets, now, width, Plus(load, k, a), Plus(Plus(load, k, a), k, b), none);
  }

  /** Activity recorded at one instant commutes, and merges when the key is the same. */
  lemma RecordEventLaws(s: EventState, window: nat, now: int, j: ActivityKey, k: ActivityKey, a: u64, b: u64)
    requires Ready(s.buckets, window, now)
    ensures RecordEvent(RecordEvent(s, window, now, j, a), window, now, k, b)
         == RecordEvent(RecordEvent(s, window, now, k, b), window, now, j, a)
    ensures RecordEvent(RecordEvent(s, window, now, k, a), window, now, k, b) == RecordEvent(s, window, now, k, SatAdd(a, b))
  {
    hide ExpireEvents, RecordEvent, AddEvent, Chain, Expired, BucketWidth;
    RecordEventReady(s, window, now, now, j, a);
    RecordEventReady(s, window, now, now, k, a);
    RecordEventReady(s, window, now, now, k, b);
    RecordEventReady(s, window, now, now, k, SatAdd(a, b));
    RecordEventReady(RecordEvent(s, window, now, j, a), window, now, now, k, b);
    RecordEventReady(RecordEvent(s, window, now, k, a), window, now, now, k, b);
    RecordEventReady(RecordEvent(s, window, now, k, b), window, now, now, j, a);
    if window > 0 {
      WidthCovers(window);
      AddEventLaws(ExpireEvents(s, now - window), BucketWidth(window), now, j, k, a, b);
    }
  }

  // --- The log itself ---

  ghost function KeysOn(activities: Amounts, path: string): set<ActivityKey> {
    set k | k in activities && k.path == path
  }

  /** Interned are exactly the active paths, with the number of processes on each. */
  ghost predicate Catalogued(activities: Amounts, interned: map<string, string>, counts: map<string, nat>) {
    && (forall p :: Amount(counts, p) == |KeysOn(activities, p)|)
    && (forall p :: p in counts ==> counts[p] > 0)
    && (forall p :: p in interned <==> p in counts)
    && (forall p :: p in interned ==> interned[p] == p)
  }

  /** The catalogue is a function of the activities. */
  lemma CatalogueDetermined(activities: Amounts, interned: map<string, string>, counts: map<string, nat>,
                            interned': map<string, string>, counts': map<string, nat>)
    requires Catalogued(activities, interned, counts) && Catalogued(activities, interned', counts')
    ensures interned == interned' && counts == counts'
  {
    assert forall p :: Amount(counts, p) == Amount(counts', p);
    assert forall p :: p in counts <==> Amount(counts, p) > 0;
    assert forall p :: p in counts' <==> Amount(counts', p) > 0;
    assert forall p :: p in interned <==> p in interned';
  }

  lemma KeysGrow(activities: Amounts, k: ActivityKey, bytes: u64, p: string)
    ensures KeysOn(Plus(activities, k, bytes), p)
         == if p == k.path then KeysOn(activities, p) + {k} else KeysOn(activities, p)
  {
  }

  lemma KeysShrink(activities: Amounts, k: ActivityKey, p: string)
    ensures KeysOn(activities - {k}, p) == if p == k.path then KeysOn(activities, p) - {k} else KeysOn(activities, p)
  {
  }

  lemma KeysKept(activities: Amounts, after: Amounts, p: string)
    requires forall k :: k in activities <==> k in after
    ensures KeysOn(after, p) == KeysOn(activities, p)
  {
  }

  function ReleasedCounts(counts: map<string, nat>, path: string): map<string, nat> {
    if Amount(counts, path) <= 1 then counts - {path} else counts[path := counts[path] - 1]
  }

  function ReleasedPaths(interned: map<string, string>, counts: map<string, nat>, path: string): map<string, string> {
    if Amount(counts, path) == 1 then interned - {path} else interned
  }

  lemma CatalogueShrinks(activities: Amounts, interned: map<string, string>, counts: map<string, nat>, k: ActivityKey)
    requires Catalogued(activities, interned, counts) && k in activities
    ensures k.path in counts && counts[k.path] > 0
    ensures Catalogued(activities - {k}, ReleasedPaths(interned, counts, k.path), ReleasedCounts(counts, k.path))
  {
    assert k in KeysOn(activities, k.path);
    forall p
      ensures |KeysOn(activities - {k}, p)| == |KeysOn(activities, p)| - if p == k.path then 1 else 0
    {
      KeysShrink(activities, k, p);
    }
  }

  lemma InternedAsItself(activities: Amounts, interned: map<string, string>, counts: map<string, nat>, path: string)
    requires Catalogued(activities, interned, counts) && path in interned
    ensures interned[path] == path
  {
  }

  lemma CatalogueGrows(activities: Amounts, interned: map<string, string>, counts: map<string, nat>,
                       k: ActivityKey, bytes: u64)
    requires Catalogued(activities, interned, counts)
    ensures Catalogued(Plus(activities, k, bytes), interned[k.path := k.path],
                       if k in activities then counts else counts[k.path := Amount(counts, k.path) + 1])
  {
    forall p
      ensures |KeysOn(Plus(activities, k, bytes), p)|
           == |KeysOn(activities, p)| + if p == k.path && k !in activities then 1 else 0
    {
      KeysGrow(activities, k, bytes, p);
      if k in activities && p == k.path { assert KeysOn(activities, p) + {k} == KeysOn(activities, p); }
    }
    if k in activities { assert k in KeysOn(activities, k.path); }
  }

  /** The activities that a filtered query adds up. */
  ghost function Selected(activities: Amounts, prefix: string, query: Query, processes: Processes.Table)
    : map<ActivityKey, nat>
  {
    map k | k in activities && MatchesPrefix(k.path, prefix)
            && Matches(query, k.path, k.pid, Processes.Lookup(processes, k.pid)) :: activities[k]
  }

  /** One filter term adds up exactly the activities below the prefix that it names: by
      command, by container, by path or by process id; a process without a row has neither
      command nor container. */
  lemma OneTermScans(activities: Amounts, q: string, v: string, lower: string -> string, table: Processes.Table,
                     wanted: u32, k: ActivityKey)
    requires k in activities && MatchesPrefix(k.path, q)
    ensures var comm := if k.pid in table then lower(table[k.pid].comm) else "";
            k in Selected(activities, q, Query([ProcessField(v)], lower), table)
            <==> Occurs(comm, v)
    ensures var box := if k.pid in table && table[k.pid].container.Some? then lower(table[k.pid].container.value) else "";
            k in Selected(activities, q, Query([ContainerField(v)], lower), table)
            <==> Occurs(box, v)
    ensures k in Selected(activities, q, Query([PathField(v)], lower), table)
            <==> Occurs(lower(k.path), v)
    ensures k in Selected(activities, q, Query([PidField(wanted)], lower), table) <==> k.pid == wanted
  {
    OneTermSelects(activities, q, ProcessField(v), lower, table, k);
    OneTermSelects(activities, q, ContainerField(v), lower, table, k);
    OneTermSelects(activities, q, PathField(v), lower, table, k);
    OneTermSelects(activities, q, PidField(wanted), lower, table, k);
    hide Selected, Occurs, MatchesPrefix;
  }

  /** All terms must hold, and a free term holds for what any of the others would name. */
  lemma TermsScan(activities: Amounts, q: string, query: Query, v: string, table: Processes.Table, term: Term, k: ActivityKey)
    ensures k in Selected(activities, q, query.(terms := query.terms + [term]), table)
       <==> k in Selected(activities, q, query, table) && k in Selected(activities, q, Query([term], query.lower), table)
    ensures k in Selected(activities, q, Query([], query.lower), table) <==> k in activities && MatchesPrefix(k.path, q)
    ensures k in Selected(activities, q, Query([AnyField(v)], query.lower), table)
       <==> || k in Selected(activities, q, Query([PathField(v)], query.lower), table)
            || k in Selected(activities, q, Query([ProcessField(v)], query.lower), table)
            || k in Selected(activities, q, Query([ContainerField(v)], query.lower), table)
            || (k in activities && MatchesPrefix(k.path, q)
                && Occurs(Decimal(k.pid), v))
  {
    var lower, both := query.lower, query.(terms := query.terms + [term]);
    SelectedExactly(activities, q, both, table, k);
    SelectedExactly(activities, q, query, table, k);
    SelectedExactly(activities, q, Query([], lower), table, k);
    OneTermSelects(activities, q, term, lower, table, k);
    OneTermSelects(activities, q, AnyField(v), lower, table, k);
    OneTermSelects(activities, q, PathField(v), lower, table, k);
    OneTermSelects(activities, q, ProcessField(v), lower, table, k);
    OneTermSelects(activities, q, ContainerField(v), lower, table, k);
    hide Selected, Occurs, MatchesPrefix, Decimal;
    assert both.terms[|query.terms|] == term && forall i :: 0 <= i < |query.terms| ==> both.terms[i] == query.terms[i];
  }

  lemma SelectedExactly(activities: Amounts, q: string, query: Query, table: Processes.Table, k: ActivityKey)
    ensures k in Selected(activities, q, query, table)
       <==> k in activities && MatchesPrefix(k.path, q)
            && forall i :: 0 <= i < |query.terms| ==>
                 Asks(query.terms[i], query.lower, k.path, k.pid, Processes.Lookup(table, k.pid))
  {
    MatchesAll(query, k.path, k.pid, Processes.Lookup(table, k.pid));
    hide Matches, Asks, MatchesPrefix;
  }

  lemma OneTermSelects(activities: Amounts, q: string, term: Term, lower: string -> string, table: Processes.Table,
                       k: ActivityKey)
    ensures k in Selected(activities, q, Query([term], lower), table)
       <==> k in activities && MatchesPrefix(k.path, q)
            && Asks(term, lower, k.path, k.pid, Processes.Lookup(table, k.pid))
  {
    var query := Query([term], lower);
    SelectedExactly(activities, q, query, table, k);
    hide Selected, Asks, MatchesPrefix;
    assert query.terms[0] == term;
  }

  lemma SelectedStep(activities: Amounts, k: ActivityKey, bytes: u64, prefix: string, query: Query,
                     processes: Processes.Table)
    requires k !in activities
    ensures MapSum(Selected(activities[k := bytes], prefix, query, processes))
         == MapSum(Selected(activities, prefix, query, processes))
            + if MatchesPrefix(k.path, prefix) && Matches(query, k.path, k.pid, Processes.Lookup(processes, k.pid))
              then bytes else 0
  {
    var before := Selected(activities, prefix, query, processes);
    var after := Selected(activities[k := bytes], prefix, query, processes);
    if k in after {
      assert after == before[k := bytes];
      MapSumUpdate(before, k, bytes);
    } else {
      assert after == before;
    }
  }

  class EventLog {
    const window: nat
    const bucketWidth: nat
    var buckets: seq<Bucket<Amounts>>
    var activities: Amounts
    var prefixTotals: map<string, u64>
    var internedPaths: map<string, string>
    var pathPidCounts: map<string, nat>

    ghost function State(): EventState
      reads this
    {
      EventState(buckets, activities, prefixTotals)
    }

    ghost predicate Consistent()
      reads this
    {
      Positive(activities) && Positive(prefixTotals) && Catalogued(activities, internedPaths, pathPidCounts)
    }

    ghost predicate Valid()
      reads this
    {
      bucketWidth == BucketWidth(window) && Consistent()
    }

    constructor (window: nat)
      ensures Valid() && this.window == window && State() == QUIET
    {
      this.window, bucketWidth := window, BucketWidth(window);
      buckets, activities, prefixTotals, internedPaths, pathPidCounts := [], map[], map[], map[], map[];
      new;
      assert forall p :: KeysOn(activities, p) == {};
    }

    method Reset()
      modifies this
      ensures Consistent() && State() == QUIET && (old(Valid()) ==> Valid())
    {
      buckets, activities, prefixTotals, internedPaths, pathPidCounts := [], map[], map[], map[], map[];
      assert forall p :: KeysOn(activities, p) == {};
    }

    /** One visit of `adjust_prefix_totals`, after those that made `charges`. */
    method VisitPrefix(prefix: string, bytes: u64, add: bool, ghost was: map<string, u64>, ghost charges: Charges)
      requires prefixTotals == Adjusted(was, charges, add)
      modifies `prefixTotals
      ensures prefixTotals == Adjusted(was, Charged(charges, prefix, bytes), add)
    {
      RaisedStep(was, charges, prefix, bytes);
      LoweredStep(was, charges, prefix, bytes);
      if add {
        if prefix in prefixTotals {
          prefixTotals := prefixTotals[prefix := SatAdd(prefixTotals[prefix], bytes)];
        } else {
          prefixTotals := prefixTotals[prefix := bytes];
        }
      } else if prefix in prefixTotals {
        var total := SatSub(prefixTotals[prefix], bytes);
        if total == 0 {
          prefixTotals := prefixTotals - {prefix};
        } else {
          prefixTotals := prefixTotals[prefix := total];
        }
      }
    }

    /** `adjust_prefix_totals` over the visits of `for_each_path_prefix`. */
    method AdjustPrefixTotals(path: string, bytes: u64, add: bool)
      requires Positive(prefixTotals)
      modifies `prefixTotals
      ensures prefixTotals == Adjusted(old(prefixTotals), VisitsOf(path, bytes), add)
    {
      ghost var was := prefixTotals;
      ghost var charges: Charges := map[];
      NothingAdjusted(was);
      VisitPrefix("/", bytes, add, was, charges);
      if path == "/" {
        return;
      }
      charges := map["/" := bytes];
      var index := 1;
      while index < |path|
        invariant 1 <= index && charges == VisitedUpTo(path, Min(index, |path|), bytes)
        invariant prefixTotals == Adjusted(was, charges, add)
      {
        if path[index] == '/' {
          VisitPrefix(path[..index], bytes, add, was, charges);
          charges := Charged(charges, path[..index], bytes);
        }
        index := index + 1;
      }
      VisitPrefix(path, bytes, add, was, charges);
    }

    /** The activity half of one key of `remove_bucket`: the last process of a path also
        gives up its interned spelling. */
    method DebitActivity(key: ActivityKey, bytes: u64)
      requires Catalogued(activities, internedPaths, pathPidCounts)
      modifies `activities, `internedPaths, `pathPidCounts
      ensures Catalogued(activities, internedPaths, pathPidCounts)
      ensures activities == Debited(old(activities), key, bytes)
    {
      if key in activities {
        if activities[key] > bytes {
          forall p { KeysKept(activities, activities[key := activities[key] - bytes], p); }
          activities := activities[key := activities[key] - bytes];
        } else {
          CatalogueShrinks(activities, internedPaths, pathPidCounts, key);
          activities := activities - {key};
          if key.path in pathPidCounts {
            var left := pathPidCounts[key.path] - 1;
            if left == 0 {
              pathPidCounts := pathPidCounts - {key.path};
              internedPaths := internedPaths - {key.path};
            } else {
              pathPidCounts := pathPidCounts[key.path := left];
            }
          }
        }
      }
    }

    /** `remove_bucket`, key by key in no particular order. */
    method RemoveBucket(load: Amounts)
      requires Consistent()
      modifies `activities, `prefixTotals, `internedPaths, `pathPidCounts
      ensures Consistent()
      ensures activities == Without(old(activities), load)
      ensures prefixTotals == Discharged(old(prefixTotals), load)
    {
      hide Without, Discharged, Debited, Catalogued;
      ghost var activities0, totals0 := activities, prefixTotals;
      NothingDischarged(prefixTotals, activities);
      var rest := load;
      ghost var done: Amounts := map[];
      while rest != map[]
        invariant forall k :: k in load <==> k in rest || k in done
        invariant forall k :: k in rest ==> k !in done && rest[k] == load[k]
        invariant forall k :: k in done ==> done[k] == load[k]
        invariant Catalogued(activities, internedPaths, pathPidCounts)
        invariant activities == Without(activities0, done) && prefixTotals == Discharged(totals0, done)
        decreases |rest|
      {
        var key :| key in rest;
        WithoutStep(activities0, done, key, rest[key]);
        DischargedStep(totals0, done, key, rest[key]);
        DischargedPositive(totals0, activities0, done);
        DebitActivity(key, rest[key]);
        AdjustPrefixTotals(key.path, rest[key], false);
        done := done[key := rest[key]];
        rest := rest - {key};
      }
      assert done == load;
      DischargedPositive(totals0, activities0, load);
    }

    method ExpireBuckets(now: int)
      requires Consistent()
      modifies this
      ensures Consistent() && State() == ExpireEvents(old(State()), now - window)
    {
      var cutoff := now - window;
      while |buckets| > 0 && buckets[0].latestAt < cutoff
        invariant Consistent() && ExpireEvents(State(), cutoff) == ExpireEvents(old(State()), cutoff)
        decreases |buckets|
      {
        RemoveBucket(buckets[0].load);
        buckets := buckets[1..];
      }
    }

    method TrimBuckets()
      requires Consistent()
      modifies this
      ensures Consistent() && State() == TrimEvents(old(State()))
    {
      while |buckets| > MAX_TIME_BUCKETS
        invariant Consistent() && TrimEvents(State()) == TrimEvents(old(State()))
        decreases |buckets|
      {
        RemoveBucket(buckets[0].load);
        buckets := buckets[1..];
      }
    }

    /** `record_at`: interning and the preaggregated totals. */
    method AddTotals(path: string, pid: u32, bytes: u64) returns (key: ActivityKey)
      requires Consistent() && bytes > 0
      modifies `activities, `prefixTotals, `internedPaths, `pathPidCounts
      ensures Consistent() && key == ActivityKey(path, pid)
      ensures activities == Plus(old(activities), key, bytes)
      ensures prefixTotals == Raised(old(prefixTotals), VisitsOf(path, bytes))
    {
      hide Catalogued, Positive, Raised, VisitsOf;
      if path in internedPaths { InternedAsItself(activities, internedPaths, pathPidCounts, path); }
      var interned := if path in internedPaths then internedPaths[path] else path;
      key := ActivityKey(interned, pid);
      CatalogueGrows(activities, internedPaths, pathPidCounts, key, bytes);
      PlusPositive(activities, key, bytes);
      RaisedPositive(prefixTotals, path, bytes);
      internedPaths := internedPaths[path := interned];
      if key in activities {
        activities := activities[key := SatAdd(activities[key], bytes)];
      } else {
        pathPidCounts := pathPidCounts[interned := Amount(pathPidCounts, interned) + 1];
        activities := activities[key := bytes];
      }
      AdjustPrefixTotals(interned, bytes, true);
    }

    /** `record_at`: the newest bucket. */
    method AddToBucket(now: int, key: ActivityKey, bytes: u64)
      requires bucketWidth == BucketWidth(window)
      modifies `buckets
      ensures buckets == Put(old(buckets), now, bucketWidth, Plus(Pending(old(buckets), now, bucketWidth, map[]), key, bytes))
    {
      var last := |buckets| - 1;
      if last >= 0 && buckets[last].startedAt <= now && now - buckets[last].startedAt < bucketWidth {
        var load := buckets[last].load;
        load := load[key := SatAdd(Get(load, key), bytes)];
        buckets := buckets[last := buckets[last].(latestAt := now, load := load)];
      } else {
        buckets := buckets + [Bucket(now, now, map[key := bytes])];
      }
    }

    method RecordAt(now: int, path: string, pid: u32, bytes: u64)
      requires Valid()
      modifies this
      ensures Valid() && State() == RecordEvent(old(State()), window, now, ActivityKey(path, pid), bytes)
    {
      ExpireBuckets(now);
      if window == 0 || bytes == 0 {
        return;
      }
      var key := AddTotals(path, pid, bytes);
      AddToBucket(now, key, bytes);
      TrimBuckets();
    }

    /** The scan of a filtered query, in no particular order. */
    method ScanActivities(prefix: string, query: Query, processes: Processes.Table) returns (bytes: nat)
      ensures bytes == MapSum(Selected(activities, prefix, query, processes))
    {
      bytes := 0;
      var rest := activities;
      ghost var done: Amounts := map[];
      assert Selected(done, prefix, query, processes) == map[];
      while rest != map[]
        invariant forall k :: k in activities <==> k in rest || k in done
        invariant forall k :: k in rest ==> k !in done && rest[k] == activities[k]
        invariant forall k :: k in done ==> done[k] == activities[k]
        invariant bytes == MapSum(Selected(done, prefix, query, processes))
        decreases |rest|
      {
        var key :| key in rest;
        SelectedStep(done, key, rest[key], prefix, query, processes);
        if MatchesPrefix(key.path, prefix) && Matches(query, key.path, key.pid, Processes.Lookup(processes, key.pid)) {
          bytes := bytes + rest[key];
        }
        done := done[key := rest[key]];
        rest := rest - {key};
      }
      assert done == activities;
    }

    /** The numerator of `rate_for_prefix_at`: an index lookup without a filter. */
    method BytesForPrefixAt(now: int, prefix: string, query: Query, processes: Processes.Table) returns (bytes: nat)
      requires Valid()
      modifies this
      ensures Valid() && State() == QueryEvents(old(State()), window, now)
      ensures bytes == if query.terms == [] then Get(State().prefixTotals, prefix)
                       else MapSum(Selected(State().activities, prefix, query, processes))
    {
      if window == 0 {
        Reset();
        assert Selected(activities, prefix, query, processes) == map[];
        return 0;
      }
      ExpireBuckets(now);
      if query.terms == [] {
        bytes := Get(prefixTotals, prefix);
      } else {
        bytes := ScanActivities(prefix, query, processes);
      }
    }
  }
}
