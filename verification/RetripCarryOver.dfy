/** What moves to the continuation trip when a Re-Trip is approved or a broken
    vehicle is replaced. */
module RetripCarryOver {
  import opened Wrappers

  datatype Status = Pending | InProgress | Collected | Missed | Skipped

  /** A daily stop row. `key` tells stops of one trip apart: (collection point,
      bin) for bin stops, (customer, collection type) for household stops. Only
      household stops ever have `availableAt`. */
  datatype Stop<K> = Stop(trip: nat, key: K, sequence: int, status: Status, deleted: bool,
                          carriedTo: Option<nat>, availableAt: Option<int>)

  datatype CollectionType = Household | Bulk

  type BinKey = (nat, Option<nat>)
  type HomeKey = (nat, CollectionType)

  type Rows<K> = map<nat, Stop<K>>

  predicate IsPending<K>(s: Stop<K>, trip: nat) {
    s.trip == trip && !s.deleted && s.status != Collected && s.status != Missed
  }

  function PendingIds<K>(rows: Rows<K>, trip: nat): set<nat> {
    set id | id in rows && IsPending(rows[id], trip)
  }

  function IdsOf<K>(rows: Rows<K>, trip: nat): set<nat> {
    set id | id in rows && rows[id].trip == trip
  }

  function KeysAt<K>(rows: Rows<K>, ids: set<nat>): set<K> {
    set id | id in ids && id in rows :: rows[id].key
  }

  function TripKeys<K>(rows: Rows<K>, trip: nat): set<K> {
    set id | id in rows && rows[id].trip == trip :: rows[id].key
  }

  /** A trip's stops have pairwise different keys. */
  predicate OnePerKey<K(==)>(rows: Rows<K>, trip: nat) {
    forall a, b :: a in rows && b in rows && rows[a].trip == trip && rows[b].trip == trip && rows[a].key == rows[b].key ==> a == b
  }

  predicate StillNew<K>(rows: Rows<K>, trip: nat) {
    forall id :: id in rows && rows[id].trip == trip ==>
      rows[id].status == Pending && !rows[id].deleted && rows[id].carriedTo == None
  }

  /** Nothing has happened yet to the stops of a new trip. */
  predicate AllNew<K>(rows: Rows<K>, trip: nat) {
    StillNew(rows, trip) && forall id :: id in rows && rows[id].trip == trip ==> rows[id].availableAt == None
  }

  /** The rows of other trips are all there, unchanged, and no others are. */
  predicate SameElsewhere<K(==)>(before: Rows<K>, after: Rows<K>, trip: nat) {
    && (forall id :: id in before && before[id].trip != trip ==> id in after && after[id] == before[id])
    && (forall id :: id in after && after[id].trip != trip ==> id in before && before[id].trip != trip)
  }

  /** The earlier rows are all there, and each new one is among the stops asked for. */
  predicate Added<K(==)>(before: Rows<K>, after: Rows<K>, stops: seq<(K, int)>) {
    && (forall id :: id in before ==> id in after && after[id] == before[id])
    && (forall id :: id in after && id !in before ==> (after[id].key, after[id].sequence) in stops)
  }

  function Wanted<K>(stops: seq<(K, int)>): set<K> {
    set i | 0 <= i < |stops| :: stops[i].0
  }

  /** Key and sequence number are those of one of the listed rows. */
  ghost predicate Lists<K>(rows: Rows<K>, ids: set<nat>, stop: (K, int)) {
    exists id :: id in ids && id in rows && rows[id].key == stop.0 && rows[id].sequence == stop.1
  }

  predicate Planned<K(==)>(plan: seq<(K, int)>, key: K) {
    exists i :: 0 <= i < |plan| && plan[i].0 == key
  }

  /** The sequence number of a stop on the continuation comes from the plan, where the plan
      has its key, and from a carried stop of that key otherwise. */
  ghost predicate Sequenced<K>(before: Rows<K>, after: Rows<K>, carried: set<nat>, continuation: nat, plan: seq<(K, int)>) {
    forall id :: id in after && after[id].trip == continuation ==>
      var stop := (after[id].key, after[id].sequence);
      if Planned(plan, stop.0) then stop in plan else Lists(before, carried, stop)
  }

  /** Stops may go, but those that stay keep trip, key and sequence number. */
  ghost predicate Trims<K>(some: Rows<K>, rows: Rows<K>) {
    forall id :: id in some ==>
      id in rows && some[id].trip == rows[id].trip && some[id].key == rows[id].key && some[id].sequence == rows[id].sequence
  }

  lemma TrimmedStaysSequenced<K>(before: Rows<K>, rows: Rows<K>, after: Rows<K>, carried: set<nat>, continuation: nat,
                                 plan: seq<(K, int)>)
    requires Sequenced(before, rows, carried, continuation, plan) && Trims(after, rows)
    ensures Sequenced(before, after, carried, continuation, plan)
  {
  }

  lemma PlanIsSequenced<K>(before: Rows<K>, mid: Rows<K>, carried: set<nat>, continuation: nat, plan: seq<(K, int)>)
    requires IdsOf(before, continuation) == {} && Added(before, mid, plan)
    ensures Sequenced(before, mid, carried, continuation, plan)
  {
    NoIdsNoKeys(before, continuation);
    forall id | id in mid && mid[id].trip == continuation
      ensures var stop := (mid[id].key, mid[id].sequence); stop in plan && Planned(plan, stop.0)
    {
      var i :| 0 <= i < |plan| && plan[i] == (mid[id].key, mid[id].sequence);
    }
  }

  lemma LiveIsSequenced<K>(before: Rows<K>, mid: Rows<K>, after: Rows<K>, carried: set<nat>, continuation: nat,
                           plan: seq<(K, int)>, live: seq<(K, int)>)
    requires Sequenced(before, mid, carried, continuation, plan) && Added(mid, after, live)
    requires OnePerKey(after, continuation) && TripKeys(mid, continuation) == Wanted(plan)
    requires forall s :: s in live ==> Lists(before, carried, s)
    ensures Sequenced(before, after, carried, continuation, plan)
  {
    forall id | id in after && id !in mid && after[id].trip == continuation
      ensures !Planned(plan, after[id].key)
    {
      if Planned(plan, after[id].key) {
        var j := PlannedRow(mid, continuation, plan, after[id].key);
      }
    }
  }

  lemma PlannedRow<K>(rows: Rows<K>, trip: nat, plan: seq<(K, int)>, key: K) returns (j: nat)
    requires TripKeys(rows, trip) == Wanted(plan) && Planned(plan, key)
    ensures j in rows && rows[j].trip == trip && rows[j].key == key
  {
    assert key in Wanted(plan);
    assert key in TripKeys(rows, trip);
    j :| j in rows && rows[j].trip == trip && rows[j].key == key;
  }

  class StopTable<K(==)> {
    var rows: Rows<K>
    var next: nat

    predicate Valid()
      reads this
    {
      forall id :: id in rows ==> id < next
    }

    /** Find the trip's stop with this key, or add a pending one. */
    method GetOrCreate(trip: nat, key: K, sequence: int) returns (created: bool)
      requires Valid()
      modifies this
      ensures Valid()
      ensures created == (key !in TripKeys(old(rows), trip))
      ensures rows == if created then old(rows)[old(next) := Stop(trip, key, sequence, Pending, false, None, None)] else old(rows)
    {
      created := forall id :: id in rows && rows[id].trip == trip ==> rows[id].key != key;
      if created {
        rows := rows[next := Stop(trip, key, sequence, Pending, false, None, None)];
        next := next + 1;
      }
    }

    method AddOne(trip: nat, stop: (K, int))
      requires Valid() && OnePerKey(rows, trip) && AllNew(rows, trip)
      modifies this
      ensures Valid() && OnePerKey(rows, trip) && AllNew(rows, trip) && SameElsewhere(old(rows), rows, trip)
      ensures TripKeys(rows, trip) == TripKeys(old(rows), trip) + {stop.0}
      ensures Added(old(rows), rows, [stop])
    {
      ghost var before, id := rows, next;
      var created := GetOrCreate(trip, stop.0, stop.1);
      if created {
        TripKeysGrow(before, id, rows[id]);
      }
    }

    /** Give the trip a stop for every wanted key it lacks: the clone of the
        plan's stops, and the carrying of stops that are not in the plan. */
    method AddMissing(trip: nat, stops: seq<(K, int)>)
      requires Valid() && OnePerKey(rows, trip) && AllNew(rows, trip)
      modifies this
      ensures Valid() && OnePerKey(rows, trip) && AllNew(rows, trip) && SameElsewhere(old(rows), rows, trip)
      ensures TripKeys(rows, trip) == TripKeys(old(rows), trip) + Wanted(stops)
      ensures Added(old(rows), rows, stops)
    {
      ghost var before := rows;
      var i := 0;
      StartsGrown(rows, trip, stops);
      while i < |stops|
        invariant i <= |stops| && Valid() && OnePerKey(rows, trip) && AllNew(rows, trip)
        invariant Grown(before, rows, trip, stops, i)
      {
        ghost var mid := rows;
        AddOne(trip, stops[i]);
        StaysGrown(before, mid, rows, trip, stops, i);
        i := i + 1;
      }
      EndsGrown(before, rows, trip, stops);
    }

    /** Delete the trip's stops whose key is not to be kept. */
    method Prune(trip: nat, keep: K -> bool)
      requires Valid()
      modifies this
      ensures Valid() && SameElsewhere(old(rows), rows, trip)
      ensures old(OnePerKey(rows, trip)) ==> OnePerKey(rows, trip)
      ensures old(AllNew(rows, trip)) ==> AllNew(rows, trip)
      ensures TripKeys(rows, trip) == set k | k in TripKeys(old(rows), trip) && keep(k)
      ensures forall id :: id in rows ==> id in old(rows) && rows[id] == old(rows)[id]
    {
      rows := map id | id in rows && (rows[id].trip != trip || keep(rows[id].key)) :: rows[id];
    }

    /** Point the listed stops at the continuation. */
    method MarkCarried(ids: set<nat>, trip: nat)
      requires Valid()
      modifies this
      ensures Valid() && rows.Keys == old(rows).Keys
      ensures forall id :: id in rows ==> rows[id] == if id in ids then old(rows)[id].(carriedTo := Some(trip)) else old(rows)[id]
    {
      rows := map id | id in rows :: if id in ids then rows[id].(carriedTo := Some(trip)) else rows[id];
    }

    /** Keys and sequence numbers of the listed stops, in some order. */
    method ListStops(ids: set<nat>) returns (stops: seq<(K, int)>)
      requires ids <= rows.Keys
      ensures Wanted(stops) == KeysAt(rows, ids)
      ensures forall s :: s in stops ==> Lists(rows, ids, s)
    {
      stops := [];
      var todo := ids;
      while todo != {}
        invariant todo <= ids
        invariant forall s :: s in stops ==> Lists(rows, ids, s)
        invariant Wanted(stops) == KeysAt(rows, ids - todo)
        decreases todo
      {
        var id :| id in todo;
        ghost var done := ids - todo;
        todo := todo - {id};
        assert ids - todo == done + {id};
        assert Lists(rows, ids, (rows[id].key, rows[id].sequence));
        stops := stops + [(rows[id].key, rows[id].sequence)];
        WantedGrows(stops, |stops| - 1);
        assert stops[..|stops| - 1] + [stops[|stops| - 1]] == stops && stops[..|stops|] == stops;
        assert KeysAt(rows, done + {id}) == KeysAt(rows, done) + {rows[id].key};
      }
    }
  }

  /** What stands after `i` of the stops were asked for. */
  ghost predicate Grown<K>(before: Rows<K>, rows: Rows<K>, trip: nat, stops: seq<(K, int)>, i: nat) {
    && i <= |stops| && SameElsewhere(before, rows, trip) && Added(before, rows, stops)
    && TripKeys(rows, trip) == TripKeys(before, trip) + Wanted(stops[..i])
  }

  lemma StartsGrown<K>(rows: Rows<K>, trip: nat, stops: seq<(K, int)>)
    ensures Grown(rows, rows, trip, stops, 0)
  {
  }

  lemma StaysGrown<K>(before: Rows<K>, mid: Rows<K>, after: Rows<K>, trip: nat, stops: seq<(K, int)>, i: nat)
    requires Grown(before, mid, trip, stops, i) && i < |stops|
    requires SameElsewhere(mid, after, trip) && Added(mid, after, [stops[i]])
    requires TripKeys(after, trip) == TripKeys(mid, trip) + {stops[i].0}
    ensures Grown(before, after, trip, stops, i + 1)
  {
    WantedGrows(stops, i);
  }

  lemma EndsGrown<K>(before: Rows<K>, rows: Rows<K>, trip: nat, stops: seq<(K, int)>)
    requires Grown(before, rows, trip, stops, |stops|)
    ensures SameElsewhere(before, rows, trip) && Added(before, rows, stops)
    ensures TripKeys(rows, trip) == TripKeys(before, trip) + Wanted(stops)
  {
    assert stops[..|stops|] == stops;
  }

  lemma WantedGrows<K>(stops: seq<(K, int)>, i: nat)
    requires i < |stops|
    ensures Wanted(stops[..i + 1]) == Wanted(stops[..i]) + {stops[i].0}
  {
    forall k | k in Wanted(stops[..i]) + {stops[i].0} ensures k in Wanted(stops[..i + 1]) {
      if k in Wanted(stops[..i]) {
        var j :| 0 <= j < i && stops[..i][j].0 == k;
        assert stops[..i + 1][j].0 == k;
      } else {
        assert stops[..i + 1][i].0 == k;
      }
    }
    forall k | k in Wanted(stops[..i + 1]) ensures k in Wanted(stops[..i]) + {stops[i].0} {
      var j :| 0 <= j < i + 1 && stops[..i + 1][j].0 == k;
      if j < i {
        assert stops[..i][j].0 == k;
      }
    }
  }

  lemma TripKeysGrow<K>(rows: Rows<K>, id: nat, stop: Stop<K>)
    requires id !in rows
    ensures TripKeys(rows[id := stop], stop.trip) == TripKeys(rows, stop.trip) + {stop.key}
  {
    assert rows[id := stop][id].key == stop.key;
    forall k | k in TripKeys(rows, stop.trip) ensures k in TripKeys(rows[id := stop], stop.trip) {
      var j :| j in rows && rows[j].trip == stop.trip && rows[j].key == k;
      assert rows[id := stop][j].key == k;
    }
  }

  // ------------------------------------------------------- what carries over

  /** A selected stop id: bin and household stops have separate id ranges. */
  datatype StopRef = BinStop(id: nat) | HomeStop(id: nat)

  function CarriedBins(rows: Rows<BinKey>, source: nat, selection: Option<set<StopRef>>): set<nat> {
    set id | id in PendingIds(rows, source) && (selection.Some? ==> BinStop(id) in selection.value)
  }

  function CarriedHomes(rows: Rows<HomeKey>, source: nat, selection: Option<set<StopRef>>): set<nat> {
    set id | id in PendingIds(rows, source) && (selection.Some? ==> HomeStop(id) in selection.value)
  }

  /** Every selected stop is pending on the trip. */
  predicate AllPending(bins: Rows<BinKey>, homes: Rows<HomeKey>, source: nat, selection: set<StopRef>) {
    forall ref :: ref in selection ==>
      match ref
      case BinStop(id) => id in PendingIds(bins, source)
      case HomeStop(id) => id in PendingIds(homes, source)
  }

  function Customers(keys: set<HomeKey>): set<nat> {
    set k | k in keys :: k.0
  }

  /** The earlier rows are all there, changed only in that the carried ones now
      point at the continuation; every new row belongs to the continuation. */
  predicate OnlyMoved<K(==)>(before: Rows<K>, after: Rows<K>, carried: set<nat>, continuation: nat) {
    && (forall id :: id in before ==>
          id in after && after[id] == if id in carried then before[id].(carriedTo := Some(continuation)) else before[id])
    && (forall id :: id in after && id !in before ==>
          && after[id].trip == continuation && after[id].status == Pending
          && !after[id].deleted && after[id].carriedTo == None)
  }

  /** A continuation stop knows that its customer is waiting exactly when a
      carried stop of that customer does, and since when one of them says. */
  predicate AvailabilityCarried(before: Rows<HomeKey>, after: Rows<HomeKey>, carried: set<nat>, continuation: nat) {
    forall j :: j in after && after[j].trip == continuation ==>
      if after[j].availableAt.Some? then
        exists id :: id in carried && id in before && before[id].key.0 == after[j].key.0 && before[id].availableAt == after[j].availableAt
      else
        forall id :: id in carried && id in before && before[id].key.0 == after[j].key.0 ==> before[id].availableAt.None?
  }

  datatype Outcome = UnknownStop | NothingToCarry | Carried

  /** Only availability differs, and only on the trip. */
  predicate OnlyAvailability(before: Rows<HomeKey>, after: Rows<HomeKey>, trip: nat) {
    && after.Keys == before.Keys
    && forall j :: j in after ==>
         after[j] == if before[j].trip == trip then before[j].(availableAt := after[j].availableAt) else before[j]
  }

  function Spread(rows: Rows<HomeKey>, stop: Stop<HomeKey>, trip: nat): Rows<HomeKey> {
    if stop.availableAt.None? then
      rows
    else
      map j | j in rows :: if rows[j].trip == trip && rows[j].key.0 == stop.key.0 then rows[j].(availableAt := stop.availableAt) else rows[j]
  }

  lemma SpreadStep(before: Rows<HomeKey>, rows: Rows<HomeKey>, done: set<nat>, id: nat, trip: nat)
    requires OnlyAvailability(before, rows, trip) && AvailabilityCarried(before, rows, done, trip) && id in before
    ensures var after := Spread(rows, before[id], trip);
      OnlyAvailability(before, after, trip) && AvailabilityCarried(before, after, done + {id}, trip)
  {
    var after := Spread(rows, before[id], trip);
    forall j | j in after && after[j].trip == trip && after[j].availableAt.Some?
      ensures exists k :: k in done + {id} && k in before && before[k].key.0 == after[j].key.0 && before[k].availableAt == after[j].availableAt
    {
      if after[j].availableAt == before[id].availableAt && after[j].key.0 == before[id].key.0 {
        assert id in done + {id};
      } else {
        assert after[j] == rows[j];
        var k :| k in done && k in before && before[k].key.0 == rows[j].key.0 && before[k].availableAt == rows[j].availableAt;
        assert k in done + {id};
      }
    }
  }

  method SpreadAvailability(homes: StopTable<HomeKey>, carried: set<nat>, continuation: nat)
    requires homes.Valid() && AllNew(homes.rows, continuation) && carried <= homes.rows.Keys
    requires forall id :: id in carried ==> homes.rows[id].trip != continuation
    modifies homes
    ensures homes.Valid() && OnlyAvailability(old(homes.rows), homes.rows, continuation)
    ensures AvailabilityCarried(old(homes.rows), homes.rows, carried, continuation)
  {
    var todo := carried;
    ghost var before := homes.rows;
    while todo != {}
      invariant todo <= carried && homes.Valid() && OnlyAvailability(before, homes.rows, continuation)
      invariant AvailabilityCarried(before, homes.rows, carried - todo, continuation)
      decreases todo
    {
      var id :| id in todo;
      SpreadStep(before, homes.rows, carried - todo, id, continuation);
      assert carried - (todo - {id}) == carried - todo + {id};
      todo := todo - {id};
      homes.rows := Spread(homes.rows, homes.rows[id], continuation);
    }
    assert carried - {} == carried;
  }

  /** The outcome for one table: the earlier rows only moved, and the
      continuation has exactly one stop for each of `keys`. */
  predicate Landed<K(==)>(before: Rows<K>, after: Rows<K>, carried: set<nat>, continuation: nat, keys: set<K>) {
    && OnlyMoved(before, after, carried, continuation)
    && OnePerKey(after, continuation) && TripKeys(after, continuation) == keys
  }

  /** Clone, add the live stops when asked to, prune to the carried pairs, and
      mark the source stops. */
  method CarryBins(bins: StopTable<BinKey>, carried: set<nat>, continuation: nat, plan: seq<(BinKey, int)>, addLive: bool)
    requires bins.Valid() && IdsOf(bins.rows, continuation) == {} && carried <= bins.rows.Keys
    modifies bins
    ensures bins.Valid()
    ensures var keys := old(KeysAt(bins.rows, carried));
      Landed(old(bins.rows), bins.rows, carried, continuation, keys * if addLive then keys else Wanted(plan))
    ensures Sequenced(old(bins.rows), bins.rows, carried, continuation, plan)
  {
    NoIdsNoKeys(bins.rows, continuation);
    ghost var before := bins.rows;
    PlaceBins(bins, carried, continuation, plan, addLive);
    ghost var placed := bins.rows;
    bins.MarkCarried(carried, continuation);
    MarkedMeansMoved(before, placed, bins.rows, carried, continuation);
    TrimmedStaysSequenced(before, placed, bins.rows, carried, continuation, plan);
  }

  method PlaceBins(bins: StopTable<BinKey>, carried: set<nat>, continuation: nat, plan: seq<(BinKey, int)>, addLive: bool)
    requires bins.Valid() && IdsOf(bins.rows, continuation) == {} && carried <= bins.rows.Keys
    modifies bins
    ensures bins.Valid() && SameElsewhere(old(bins.rows), bins.rows, continuation)
    ensures OnePerKey(bins.rows, continuation) && StillNew(bins.rows, continuation)
    ensures var keys := old(KeysAt(bins.rows, carried));
      TripKeys(bins.rows, continuation) == keys * if addLive then keys else Wanted(plan)
    ensures Sequenced(old(bins.rows), bins.rows, carried, continuation, plan)
  {
    NoIdsNoKeys(bins.rows, continuation);
    ghost var before := bins.rows;
    var live := bins.ListStops(carried);
    var carryKeys := Wanted(live);
    bins.AddMissing(continuation, plan);
    PlanIsSequenced(before, bins.rows, carried, continuation, plan);
    if addLive {
      ghost var planned := bins.rows;
      bins.AddMissing(continuation, live);
      LiveIsSequenced(before, planned, bins.rows, carried, continuation, plan, live);
    }
    ghost var full := bins.rows;
    bins.Prune(continuation, (k: BinKey) => k in carryKeys);
    TrimmedStaysSequenced(before, full, bins.rows, carried, continuation, plan);
  }

  /** The same for household stops, which are pruned by customer alone; a
      re-trip (`addLive`) also hands on who is waiting. */
  method CarryHomes(homes: StopTable<HomeKey>, carried: set<nat>, continuation: nat, plan: seq<(HomeKey, int)>,
                    addLive: bool)
    requires homes.Valid() && IdsOf(homes.rows, continuation) == {} && carried <= homes.rows.Keys
    modifies homes
    ensures homes.Valid()
    ensures Landed(old(homes.rows), homes.rows, carried, continuation, HomeKeys(old(KeysAt(homes.rows, carried)), plan, addLive))
    ensures Sequenced(old(homes.rows), homes.rows, carried, continuation, plan)
    ensures addLive ==> AvailabilityCarried(old(homes.rows), homes.rows, carried, continuation)
  {
    NoIdsNoKeys(homes.rows, continuation);
    ghost var before := homes.rows;
    PlaceHomes(homes, carried, continuation, plan, addLive);
    ghost var placed := homes.rows;
    homes.MarkCarried(carried, continuation);
    MarkedMeansMoved(before, placed, homes.rows, carried, continuation);
    TrimmedStaysSequenced(before, placed, homes.rows, carried, continuation, plan);
    if addLive {
      AvailabilityOfMarked(before, placed, homes.rows, carried, continuation);
    }
  }

  /** What a pruned household continuation serves: plan stops of carried
      customers, and every carried stop when live stops are added. */
  function HomeKeys(keys: set<HomeKey>, plan: seq<(HomeKey, int)>, addLive: bool): set<HomeKey> {
    (if addLive then keys else {}) + set k | k in Wanted(plan) && k.0 in Customers(keys)
  }

  method PlaceHomes(homes: StopTable<HomeKey>, carried: set<nat>, continuation: nat, plan: seq<(HomeKey, int)>,
                    addLive: bool)
    requires homes.Valid() && IdsOf(homes.rows, continuation) == {} && carried <= homes.rows.Keys
    modifies homes
    ensures homes.Valid() && SameElsewhere(old(homes.rows), homes.rows, continuation)
    ensures OnePerKey(homes.rows, continuation) && StillNew(homes.rows, continuation)
    ensures TripKeys(homes.rows, continuation) == HomeKeys(old(KeysAt(homes.rows, carried)), plan, addLive)
    ensures Sequenced(old(homes.rows), homes.rows, carried, continuation, plan)
    ensures addLive ==> AvailabilityCarried(old(homes.rows), homes.rows, carried, continuation)
  {
    NoIdsNoKeys(homes.rows, continuation);
    ghost var before := homes.rows;
    PruneHomes(homes, carried, continuation, plan, addLive);
    if addLive {
      ghost var pruned := homes.rows;
      SpreadAvailability(homes, carried, continuation);
      SpreadKeepsKeys(pruned, homes.rows, continuation);
      TrimmedStaysSequenced(before, pruned, homes.rows, carried, continuation, plan);
      AvailabilityOfSource(before, pruned, homes.rows, carried, continuation);
    }
  }

  method PruneHomes(homes: StopTable<HomeKey>, carried: set<nat>, continuation: nat, plan: seq<(HomeKey, int)>,
                    addLive: bool)
    requires homes.Valid() && IdsOf(homes.rows, continuation) == {} && carried <= homes.rows.Keys
    modifies homes
    ensures homes.Valid() && SameElsewhere(old(homes.rows), homes.rows, continuation)
    ensures OnePerKey(homes.rows, continuation) && AllNew(homes.rows, continuation)
    ensures TripKeys(homes.rows, continuation) == HomeKeys(old(KeysAt(homes.rows, carried)), plan, addLive)
    ensures Sequenced(old(homes.rows), homes.rows, carried, continuation, plan)
  {
    NoIdsNoKeys(homes.rows, continuation);
    ghost var before := homes.rows;
    var live := homes.ListStops(carried);
    var customers := Customers(Wanted(live));
    homes.AddMissing(continuation, plan);
    PlanIsSequenced(before, homes.rows, carried, continuation, plan);
    if addLive {
      ghost var planned := homes.rows;
      homes.AddMissing(continuation, live);
      LiveIsSequenced(before, planned, homes.rows, carried, continuation, plan, live);
    }
    ghost var full := homes.rows;
    homes.Prune(continuation, (k: HomeKey) => k.0 in customers);
    TrimmedStaysSequenced(before, full, homes.rows, carried, continuation, plan);
  }

  lemma AvailabilityOfSource(before: Rows<HomeKey>, pruned: Rows<HomeKey>, after: Rows<HomeKey>,
                             carried: set<nat>, continuation: nat)
    requires carried <= before.Keys && forall id :: id in carried ==> id in pruned && pruned[id] == before[id]
    requires AvailabilityCarried(pruned, after, carried, continuation)
    ensures AvailabilityCarried(before, after, carried, continuation)
  {
  }

  lemma AvailabilityOfMarked(before: Rows<HomeKey>, spread: Rows<HomeKey>, after: Rows<HomeKey>,
                             carried: set<nat>, continuation: nat)
    requires AvailabilityCarried(before, spread, carried, continuation) && after.Keys == spread.Keys
    requires forall j :: j in after ==> after[j].(carriedTo := None) == spread[j].(carriedTo := None)
    ensures AvailabilityCarried(before, after, carried, continuation)
  {
    assert forall j :: j in after ==>
      after[j].trip == spread[j].trip && after[j].key == spread[j].key && after[j].availableAt == spread[j].availableAt;
  }

  lemma NoIdsNoKeys<K>(rows: Rows<K>, trip: nat)
    requires IdsOf(rows, trip) == {}
    ensures forall id :: id in rows ==> rows[id].trip != trip
    ensures TripKeys(rows, trip) == {} && OnePerKey(rows, trip) && AllNew(rows, trip)
  {
    forall id | id in rows ensures rows[id].trip != trip {
      assert id !in IdsOf(rows, trip);
    }
  }

  lemma MarkedMeansMoved<K>(before: Rows<K>, mid: Rows<K>, after: Rows<K>, carried: set<nat>, continuation: nat)
    requires (forall id :: id in before ==> before[id].trip != continuation) && carried <= before.Keys
    requires SameElsewhere(before, mid, continuation)
    requires StillNew(mid, continuation)
    requires after.Keys == mid.Keys
    requires forall id :: id in after ==> after[id] == if id in carried then mid[id].(carriedTo := Some(continuation)) else mid[id]
    ensures OnlyMoved(before, after, carried, continuation)
    ensures TripKeys(after, continuation) == TripKeys(mid, continuation)
    ensures OnePerKey(mid, continuation) ==> OnePerKey(after, continuation)
  {
    forall id | id in mid ensures id in carried ==> mid[id].trip != continuation {
    }
    assert forall id :: id in after ==> after[id].trip == mid[id].trip && after[id].key == mid[id].key;
  }

  /** A stop of the trip that is neither deleted nor collected nor missed. */
  predicate Open<K(==)>(s: Stop<K>, trip: nat) {
    s.trip == trip && !s.deleted && s.status in {Pending, InProgress, Skipped}
  }

  /** The selection, if there is one, names this stop. */
  predicate Chosen(ref: StopRef, selection: Option<set<StopRef>>) {
    selection.None? || ref in selection.value
  }

  /** Some selected id is not that of an open stop of the trip. */
  ghost predicate NamesNoOpenStop(bins: Rows<BinKey>, homes: Rows<HomeKey>, source: nat, selection: set<StopRef>) {
    || (exists id :: BinStop(id) in selection && !(id in bins && Open(bins[id], source)))
    || (exists id :: HomeStop(id) in selection && !(id in homes && Open(homes[id], source)))
  }

  /** Each open chosen stop of the source trip now points at the continuation, and every
      other stop there was is as it was. */
  ghost predicate ChosenMoved<K>(before: Rows<K>, after: Rows<K>, source: nat, continuation: nat,
                                     ref: nat -> StopRef, selection: Option<set<StopRef>>) {
    forall id :: id in before ==>
      && id in after
      && if Open(before[id], source) && Chosen(ref(id), selection) then after[id] == before[id].(carriedTo := Some(continuation))
         else after[id] == before[id]
  }

  /** A chosen open stop of the source trip has this key. */
  ghost predicate ChosenKey<K>(before: Rows<K>, source: nat, ref: nat -> StopRef, selection: Option<set<StopRef>>, key: K) {
    exists id :: id in before && Open(before[id], source) && Chosen(ref(id), selection) && before[id].key == key
  }

  /** A chosen open stop of the source trip belongs to this customer. */
  ghost predicate ChosenCustomer(before: Rows<HomeKey>, source: nat, selection: Option<set<StopRef>>, customer: nat) {
    exists id :: id in before && Open(before[id], source) && Chosen(HomeStop(id), selection) && before[id].key.0 == customer
  }

  ghost predicate OnTrip<K>(rows: Rows<K>, trip: nat, key: K) {
    exists id :: id in rows && rows[id].trip == trip && rows[id].key == key
  }

  lemma OpenIsPending<K>(s: Stop<K>, trip: nat)
    ensures Open(s, trip) <==> IsPending(s, trip)
  {
  }

  /** What an approval does to bin stops: the chosen open ones, and no other, point at the
      continuation, which serves exactly their keys. */
  ghost predicate BinsApproved(before: Rows<BinKey>, after: Rows<BinKey>, source: nat, continuation: nat,
                               selection: Option<set<StopRef>>) {
    && ChosenMoved(before, after, source, continuation, (id: nat) => BinStop(id), selection)
    && forall key :: OnTrip(after, continuation, key) <==> ChosenKey(before, source, (id: nat) => BinStop(id), selection, key)
  }

  /** The same for household stops, where the continuation also serves what the plan has
      for the chosen customers, and each stop there knows who waits, and since when. */
  ghost predicate HomesApproved(before: Rows<HomeKey>, after: Rows<HomeKey>, source: nat, continuation: nat,
                                plan: seq<(HomeKey, int)>, selection: Option<set<StopRef>>) {
    && ChosenMoved(before, after, source, continuation, (id: nat) => HomeStop(id), selection)
    && (forall key :: OnTrip(after, continuation, key) <==>
          || ChosenKey(before, source, (id: nat) => HomeStop(id), selection, key)
          || (ChosenCustomer(before, source, selection, key.0) && Planned(plan, key)))
    && (forall j :: j in after && after[j].trip == continuation ==> WaitsAsChosen(before, source, selection, after[j]))
  }

  /** A chosen open household stop of this customer. */
  predicate ChosenFor(before: Rows<HomeKey>, id: nat, source: nat, selection: Option<set<StopRef>>, customer: nat) {
    id in before && Open(before[id], source) && Chosen(HomeStop(id), selection) && before[id].key.0 == customer
  }

  /** The stop's waiting time is that of a chosen stop of its customer, and missing exactly
      when none of those has one. */
  ghost predicate WaitsAsChosen(before: Rows<HomeKey>, source: nat, selection: Option<set<StopRef>>, stop: Stop<HomeKey>) {
    if stop.availableAt.Some? then
      exists id :: ChosenFor(before, id, source, selection, stop.key.0) && before[id].availableAt == stop.availableAt
    else
      forall id :: ChosenFor(before, id, source, selection, stop.key.0) ==> before[id].availableAt.None?
  }

  /** Sequence numbers on the continuation: the plan's for a key the plan has, and otherwise
      that of a chosen open stop with the key. */
  ghost predicate SequencedAsChosen<K>(before: Rows<K>, after: Rows<K>, source: nat, continuation: nat, plan: seq<(K, int)>,
                                       ref: nat -> StopRef, selection: Option<set<StopRef>>) {
    forall j :: j in after && after[j].trip == continuation ==>
      if Planned(plan, after[j].key) then (after[j].key, after[j].sequence) in plan
      else
        exists id ::
          && id in before && Open(before[id], source) && Chosen(ref(id), selection)
          && before[id].key == after[j].key && before[id].sequence == after[j].sequence
  }

  lemma BinsAreSequenced(before: Rows<BinKey>, after: Rows<BinKey>, source: nat, continuation: nat,
                         plan: seq<(BinKey, int)>, selection: Option<set<StopRef>>)
    requires Sequenced(before, after, CarriedBins(before, source, selection), continuation, plan)
    ensures SequencedAsChosen(before, after, source, continuation, plan, (id: nat) => BinStop(id), selection)
  {
    CarriedBinsAreChosen(before, source, selection);
  }

  lemma HomesAreSequenced(before: Rows<HomeKey>, after: Rows<HomeKey>, source: nat, continuation: nat,
                          plan: seq<(HomeKey, int)>, selection: Option<set<StopRef>>)
    requires Sequenced(before, after, CarriedHomes(before, source, selection), continuation, plan)
    ensures SequencedAsChosen(before, after, source, continuation, plan, (id: nat) => HomeStop(id), selection)
  {
    CarriedHomesAreChosen(before, source, selection);
  }

  /** Every stop on the continuation is one of the plan's, with its sequence number. */
  ghost predicate AllFromPlan<K>(rows: Rows<K>, continuation: nat, plan: seq<(K, int)>) {
    forall j :: j in rows && rows[j].trip == continuation ==> (rows[j].key, rows[j].sequence) in plan
  }

  lemma PlannedAreFromPlan<K>(before: Rows<K>, after: Rows<K>, carried: set<nat>, continuation: nat, plan: seq<(K, int)>)
    requires Sequenced(before, after, carried, continuation, plan) && TripKeys(after, continuation) <= Wanted(plan)
    ensures AllFromPlan(after, continuation, plan)
  {
    forall j | j in after && after[j].trip == continuation ensures Planned(plan, after[j].key) {
      assert after[j].key in TripKeys(after, continuation);
    }
  }

  lemma PendingIsOpen<K>(rows: Rows<K>, trip: nat)
    ensures forall id :: id in PendingIds(rows, trip) <==> id in rows && Open(rows[id], trip)
  {
    forall id | id in rows ensures IsPending(rows[id], trip) <==> Open(rows[id], trip) {
      OpenIsPending(rows[id], trip);
    }
  }

  lemma BinsAreApproved(before: Rows<BinKey>, after: Rows<BinKey>, source: nat, continuation: nat,
                        selection: Option<set<StopRef>>)
    requires var carried := CarriedBins(before, source, selection);
      Landed(before, after, carried, continuation, KeysAt(before, carried))
    ensures BinsApproved(before, after, source, continuation, selection)
  {
    CarriedBinsAreChosen(before, source, selection);
    forall key ensures OnTrip(after, continuation, key) <==> key in TripKeys(after, continuation) {
    }
  }

  lemma CarriedBinsAreChosen(before: Rows<BinKey>, source: nat, selection: Option<set<StopRef>>)
    ensures forall id :: id in CarriedBins(before, source, selection) <==>
      id in before && Open(before[id], source) && Chosen(BinStop(id), selection)
  {
    PendingIsOpen(before, source);
  }

  lemma CarriedHomesAreChosen(before: Rows<HomeKey>, source: nat, selection: Option<set<StopRef>>)
    ensures forall id :: id in CarriedHomes(before, source, selection) <==>
      id in before && Open(before[id], source) && Chosen(HomeStop(id), selection)
  {
    PendingIsOpen(before, source);
  }

  lemma HomeKeysAreChosen(before: Rows<HomeKey>, source: nat, plan: seq<(HomeKey, int)>, selection: Option<set<StopRef>>, key: HomeKey)
    ensures var keys := KeysAt(before, CarriedHomes(before, source, selection));
      && (key in keys <==> ChosenKey(before, source, (id: nat) => HomeStop(id), selection, key))
      && (key in (set k | k in Wanted(plan) && k.0 in Customers(keys)) <==>
            ChosenCustomer(before, source, selection, key.0) && Planned(plan, key))
  {
    CarriedHomesAreChosen(before, source, selection);
    ChosenCustomersOf(before, source, selection, key.0);
  }

  lemma HomesServed(before: Rows<HomeKey>, after: Rows<HomeKey>, source: nat, continuation: nat,
                    plan: seq<(HomeKey, int)>, selection: Option<set<StopRef>>, key: HomeKey)
    requires var keys := KeysAt(before, CarriedHomes(before, source, selection));
      TripKeys(after, continuation) == keys + set k | k in Wanted(plan) && k.0 in Customers(keys)
    ensures OnTrip(after, continuation, key) <==>
      || ChosenKey(before, source, (id: nat) => HomeStop(id), selection, key)
      || (ChosenCustomer(before, source, selection, key.0) && Planned(plan, key))
  {
    HomeKeysAreChosen(before, source, plan, selection, key);
    assert OnTrip(after, continuation, key) <==> key in TripKeys(after, continuation);
  }

  lemma HomesWait(before: Rows<HomeKey>, after: Rows<HomeKey>, source: nat, continuation: nat,
                  selection: Option<set<StopRef>>, j: nat)
    requires AvailabilityCarried(before, after, CarriedHomes(before, source, selection), continuation)
    requires j in after && after[j].trip == continuation
    ensures WaitsAsChosen(before, source, selection, after[j])
  {
    CarriedHomesAreChosen(before, source, selection);
    if after[j].availableAt.Some? {
      var id :| id in CarriedHomes(before, source, selection) && id in before
        && before[id].key.0 == after[j].key.0 && before[id].availableAt == after[j].availableAt;
      assert ChosenFor(before, id, source, selection, after[j].key.0);
    }
  }

  lemma HomesMoved(before: Rows<HomeKey>, after: Rows<HomeKey>, source: nat, continuation: nat, selection: Option<set<StopRef>>)
    requires OnlyMoved(before, after, CarriedHomes(before, source, selection), continuation)
    ensures ChosenMoved(before, after, source, continuation, (id: nat) => HomeStop(id), selection)
  {
    CarriedHomesAreChosen(before, source, selection);
  }

  lemma HomesAreApproved(before: Rows<HomeKey>, after: Rows<HomeKey>, source: nat, continuation: nat,
                         plan: seq<(HomeKey, int)>, selection: Option<set<StopRef>>)
    requires var carried := CarriedHomes(before, source, selection); var keys := KeysAt(before, carried);
      && Landed(before, after, carried, continuation, keys + set k | k in Wanted(plan) && k.0 in Customers(keys))
      && AvailabilityCarried(before, after, carried, continuation)
    ensures HomesApproved(before, after, source, continuation, plan, selection)
  {
    HomesMoved(before, after, source, continuation, selection);
    forall key ensures OnTrip(after, continuation, key) <==>
      || ChosenKey(before, source, (id: nat) => HomeStop(id), selection, key)
      || (ChosenCustomer(before, source, selection, key.0) && Planned(plan, key))
    {
      HomesServed(before, after, source, continuation, plan, selection, key);
    }
    forall j | j in after && after[j].trip == continuation ensures WaitsAsChosen(before, source, selection, after[j]) {
      HomesWait(before, after, source, continuation, selection, j);
    }
  }

  lemma ChosenCustomersOf(before: Rows<HomeKey>, source: nat, selection: Option<set<StopRef>>, customer: nat)
    ensures customer in Customers(KeysAt(before, CarriedHomes(before, source, selection))) <==>
      ChosenCustomer(before, source, selection, customer)
  {
    var carried := CarriedHomes(before, source, selection);
    CarriedHomesAreChosen(before, source, selection);
    if ChosenCustomer(before, source, selection, customer) {
      var id :| id in before && Open(before[id], source) && Chosen(HomeStop(id), selection) && before[id].key.0 == customer;
      assert before[id].key in KeysAt(before, carried);
    }
  }

  /** A breakdown's selection names bin stops only. */
  function BinsOnly(selection: Option<set<nat>>): Option<set<StopRef>> {
    if selection.None? then None else Some(set id | id in selection.value :: BinStop(id))
  }

  /** What a breakdown does: the chosen open bin stops and all open household stops point
      at the continuation, which serves those keys, and those customers, that the plan
      still has. */
  ghost predicate BinsReplaced(before: Rows<BinKey>, after: Rows<BinKey>, source: nat, continuation: nat,
                               plan: seq<(BinKey, int)>, selection: Option<set<nat>>) {
    && ChosenMoved(before, after, source, continuation, (id: nat) => BinStop(id), BinsOnly(selection))
    && forall key :: OnTrip(after, continuation, key) <==>
         ChosenKey(before, source, (id: nat) => BinStop(id), BinsOnly(selection), key) && Planned(plan, key)
  }

  ghost predicate HomesReplaced(before: Rows<HomeKey>, after: Rows<HomeKey>, source: nat, continuation: nat,
                                plan: seq<(HomeKey, int)>) {
    && ChosenMoved(before, after, source, continuation, (id: nat) => HomeStop(id), None)
    && forall key :: OnTrip(after, continuation, key) <==> ChosenCustomer(before, source, None, key.0) && Planned(plan, key)
  }

  lemma BinsAreReplaced(before: Rows<BinKey>, after: Rows<BinKey>, source: nat, continuation: nat,
                        plan: seq<(BinKey, int)>, selection: Option<set<nat>>)
    requires selection.Some? ==> selection.value <= PendingIds(before, source)
    requires var carried := if selection.Some? then selection.value else PendingIds(before, source);
      Landed(before, after, carried, continuation, KeysAt(before, carried) * Wanted(plan))
    ensures BinsReplaced(before, after, source, continuation, plan, selection)
  {
    CarriedBinsAreChosen(before, source, BinsOnly(selection));
    assert CarriedBins(before, source, BinsOnly(selection)) == if selection.Some? then selection.value else PendingIds(before, source);
    forall key ensures OnTrip(after, continuation, key) <==> key in TripKeys(after, continuation) {
    }
    forall key ensures Planned(plan, key) <==> key in Wanted(plan) {
    }
  }

  lemma HomesAreReplaced(before: Rows<HomeKey>, after: Rows<HomeKey>, source: nat, continuation: nat,
                         plan: seq<(HomeKey, int)>)
    requires var carried := PendingIds(before, source);
      Landed(before, after, carried, continuation, (set k | k in Wanted(plan) && k.0 in Customers(KeysAt(before, carried))))
    ensures HomesReplaced(before, after, source, continuation, plan)
  {
    assert CarriedHomes(before, source, None) == PendingIds(before, source);
    HomesMoved(before, after, source, continuation, None);
    forall key ensures OnTrip(after, continuation, key) <==> ChosenCustomer(before, source, None, key.0) && Planned(plan, key) {
      HomeKeysAreChosen(before, source, plan, None, key);
      assert OnTrip(after, continuation, key) <==> key in TripKeys(after, continuation);
    }
  }

  lemma SelectionIsOpen(bins: Rows<BinKey>, homes: Rows<HomeKey>, source: nat, selection: set<StopRef>)
    ensures AllPending(bins, homes, source, selection) <==> !NamesNoOpenStop(bins, homes, source, selection)
  {
    PendingIsOpen(bins, source);
    PendingIsOpen(homes, source);
    if !AllPending(bins, homes, source, selection) {
      var ref :| ref in selection && match ref
        case BinStop(id) => id !in PendingIds(bins, source)
        case HomeStop(id) => id !in PendingIds(homes, source);
      assert ref == BinStop(ref.id) || ref == HomeStop(ref.id);
    }
  }

  /** `approve_retrip` from the live stops to the marked source stops. `planBins`
      and `planHomes` are whatever the plan clone puts on the new trip. */
  method ApproveCarryOver(bins: StopTable<BinKey>, homes: StopTable<HomeKey>, source: nat, continuation: nat,
                          planBins: seq<(BinKey, int)>, planHomes: seq<(HomeKey, int)>, selection: Option<set<StopRef>>)
    returns (outcome: Outcome)
    requires bins.Valid() && homes.Valid() && source != continuation
    requires IdsOf(bins.rows, continuation) == {} && IdsOf(homes.rows, continuation) == {}
    modifies bins, homes
    ensures bins.Valid() && homes.Valid()
    ensures outcome == UnknownStop <==>
      selection.Some? && NamesNoOpenStop(old(bins.rows), old(homes.rows), source, selection.value)
    ensures outcome == NothingToCarry <==>
      && outcome != UnknownStop
      && (forall id :: id in old(bins.rows) && Open(old(bins.rows)[id], source) ==> !Chosen(BinStop(id), selection))
      && (forall id :: id in old(homes.rows) && Open(old(homes.rows)[id], source) ==> !Chosen(HomeStop(id), selection))
    // an error leaves everything as it was
    ensures outcome != Carried ==> bins.rows == old(bins.rows) && homes.rows == old(homes.rows)
    ensures outcome == Carried ==> BinsApproved(old(bins.rows), bins.rows, source, continuation, selection)
    ensures outcome == Carried ==> HomesApproved(old(homes.rows), homes.rows, source, continuation, planHomes, selection)
    ensures outcome == Carried ==>
      && SequencedAsChosen(old(bins.rows), bins.rows, source, continuation, planBins, (id: nat) => BinStop(id), selection)
      && SequencedAsChosen(old(homes.rows), homes.rows, source, continuation, planHomes, (id: nat) => HomeStop(id), selection)
    // exactly one bin stop per carried (collection point, bin) pair
    ensures outcome == Carried ==>
      var carried := old(CarriedBins(bins.rows, source, selection));
      Landed(old(bins.rows), bins.rows, carried, continuation, old(KeysAt(bins.rows, carried)))
    // household stops of exactly the carried customers, every carried one among them
    ensures outcome == Carried ==>
      var carried := old(CarriedHomes(homes.rows, source, selection));
      var keys := old(KeysAt(homes.rows, carried));
      && Landed(old(homes.rows), homes.rows, carried, continuation,
                keys + set k | k in Wanted(planHomes) && k.0 in Customers(keys))
      && AvailabilityCarried(old(homes.rows), homes.rows, carried, continuation)
  {
    if selection.Some? {
      SelectionIsOpen(bins.rows, homes.rows, source, selection.value);
      if !AllPending(bins.rows, homes.rows, source, selection.value) {
        return UnknownStop;
      }
    }
    CarriedBinsAreChosen(bins.rows, source, selection);
    CarriedHomesAreChosen(homes.rows, source, selection);
    var carriedBins := CarriedBins(bins.rows, source, selection);
    var carriedHomes := CarriedHomes(homes.rows, source, selection);
    if carriedBins == {} && carriedHomes == {} {
      return NothingToCarry;
    }
    CarryBins(bins, carriedBins, continuation, planBins, true);
    CarryHomes(homes, carriedHomes, continuation, planHomes, true);
    BinsAreApproved(old(bins.rows), bins.rows, source, continuation, selection);
    HomesAreApproved(old(homes.rows), homes.rows, source, continuation, planHomes, selection);
    BinsAreSequenced(old(bins.rows), bins.rows, source, continuation, planBins, selection);
    HomesAreSequenced(old(homes.rows), homes.rows, source, continuation, planHomes, selection);
    return Carried;
  }

  lemma SpreadKeepsKeys(before: Rows<HomeKey>, after: Rows<HomeKey>, trip: nat)
    requires OnlyAvailability(before, after, trip)
    ensures TripKeys(after, trip) == TripKeys(before, trip)
    ensures OnePerKey(before, trip) ==> OnePerKey(after, trip)
    ensures StillNew(before, trip) ==> StillNew(after, trip)
  {
    assert forall j :: j in after ==> after[j].trip == before[j].trip && after[j].key == before[j].key;
  }

  /** A vehicle-breakdown continuation: the caller picks bin stops only, and
      stops that are not in the plan are not added. */
  method BreakdownCarryOver(bins: StopTable<BinKey>, homes: StopTable<HomeKey>, source: nat, continuation: nat,
                            planBins: seq<(BinKey, int)>, planHomes: seq<(HomeKey, int)>, selection: Option<set<nat>>)
    returns (outcome: Outcome)
    requires bins.Valid() && homes.Valid() && source != continuation
    requires IdsOf(bins.rows, continuation) == {} && IdsOf(homes.rows, continuation) == {}
    modifies bins, homes
    ensures bins.Valid() && homes.Valid()
    ensures outcome == UnknownStop <==>
      selection.Some? && exists id :: id in selection.value && !(id in old(bins.rows) && Open(old(bins.rows)[id], source))
    ensures outcome == NothingToCarry <==>
      && outcome != UnknownStop
      && (forall id :: id in old(bins.rows) && Open(old(bins.rows)[id], source) ==> !Chosen(BinStop(id), BinsOnly(selection)))
      && (forall id :: id in old(homes.rows) ==> !Open(old(homes.rows)[id], source))
    ensures outcome != Carried ==> bins.rows == old(bins.rows) && homes.rows == old(homes.rows)
    ensures outcome == Carried ==> BinsReplaced(old(bins.rows), bins.rows, source, continuation, planBins, selection)
    ensures outcome == Carried ==> HomesReplaced(old(homes.rows), homes.rows, source, continuation, planHomes)
    ensures outcome == Carried ==>
      AllFromPlan(bins.rows, continuation, planBins) && AllFromPlan(homes.rows, continuation, planHomes)
    // only the carried pairs that the plan still has, and only its stops for the carried customers
    ensures outcome == Carried ==>
      var carried := if selection.Some? then selection.value else old(PendingIds(bins.rows, source));
      Landed(old(bins.rows), bins.rows, carried, continuation, old(KeysAt(bins.rows, carried)) * Wanted(planBins))
    ensures outcome == Carried ==>
      var carried := old(PendingIds(homes.rows, source));
      Landed(old(homes.rows), homes.rows, carried, continuation,
             (set k | k in Wanted(planHomes) && k.0 in Customers(old(KeysAt(homes.rows, carried)))))
  {
    PendingIsOpen(bins.rows, source);
    PendingIsOpen(homes.rows, source);
    if selection.Some? && !(selection.value <= PendingIds(bins.rows, source)) {
      return UnknownStop;
    }
    var carriedBins := if selection.Some? then selection.value else PendingIds(bins.rows, source);
    var carriedHomes := PendingIds(homes.rows, source);
    if carriedBins == {} && carriedHomes == {} {
      return NothingToCarry;
    }
    CarryBins(bins, carriedBins, continuation, planBins, false);
    CarryHomes(homes, carriedHomes, continuation, planHomes, false);
    BinsAreReplaced(old(bins.rows), bins.rows, source, continuation, planBins, selection);
    HomesAreReplaced(old(homes.rows), homes.rows, source, continuation, planHomes);
    PlannedAreFromPlan(old(bins.rows), bins.rows, carriedBins, continuation, planBins);
    PlannedAreFromPlan(old(homes.rows), homes.rows, carriedHomes, continuation, planHomes);
    return Carried;
  }

  // ------------------------------------------------------------ consequences

  predicate CounterpartOf<K(==)>(rows: Rows<K>, j: nat, continuation: nat, key: K) {
    j in rows && rows[j].trip == continuation && rows[j].key == key
  }

  /** A carried stop points at the continuation, and has a counterpart there
      exactly when its key is among those that landed, and then only one. */
  lemma CarriedStopLandsExactly<K>(before: Rows<K>, after: Rows<K>, carried: set<nat>, continuation: nat,
                                   keys: set<K>, id: nat)
    requires Landed(before, after, carried, continuation, keys) && id in carried && id in before
    ensures id in after && after[id].carriedTo == Some(continuation) && after[id].status == before[id].status
    ensures (exists j :: CounterpartOf(after, j, continuation, before[id].key)) <==> before[id].key in keys
    ensures forall j, k :: CounterpartOf(after, j, continuation, before[id].key) && CounterpartOf(after, k, continuation, before[id].key) ==> j == k
  {
    if before[id].key in TripKeys(after, continuation) {
      var j :| j in after && after[j].trip == continuation && after[j].key == before[id].key;
      assert CounterpartOf(after, j, continuation, before[id].key);
    }
  }

  /** The continuation has as many stops as keys landed: nothing is doubled. */
  lemma {:induction false} LandedCount<K>(rows: Rows<K>, trip: nat, keys: set<K>, ids: set<nat>)
    requires OnePerKey(rows, trip) && ids <= IdsOf(rows, trip) && KeysAt(rows, ids) == keys
    ensures |ids| == |keys|
    decreases ids
  {
    if ids != {} {
      var id :| id in ids;
      var rest := ids - {id};
      assert KeysAt(rows, ids) == KeysAt(rows, rest) + {rows[id].key};
      LandedCount(rows, trip, KeysAt(rows, rest), rest);
    } else {
      assert keys == {};
    }
  }

  /** After a breakdown a carried bin stop may be on no trip at all: it points
      at the continuation, but a stop that was not in the plan is not there. */
  lemma BreakdownLosesUnplannedStops(before: Rows<BinKey>, after: Rows<BinKey>, carried: set<nat>, continuation: nat,
                                     plan: seq<(BinKey, int)>, id: nat)
    requires Landed(before, after, carried, continuation, KeysAt(before, carried) * Wanted(plan))
    requires id in carried && id in before
    ensures after[id].carriedTo == Some(continuation)
    ensures (exists j :: CounterpartOf(after, j, continuation, before[id].key)) <==> before[id].key in Wanted(plan)
  {
    CarriedStopLandsExactly(before, after, carried, continuation, KeysAt(before, carried) * Wanted(plan), id);
  }

  /** One pending bin stop added to the trip after planning, and an empty plan: carried
      over by a breakdown, it is on no trip afterwards. */
  lemma BreakdownLosesAStop() returns (before: Rows<BinKey>, after: Rows<BinKey>, plan: seq<(BinKey, int)>)
    ensures before.Keys == after.Keys == PendingIds(before, 1) == {0} && IdsOf(before, 2) == {}
    ensures Landed(before, after, {0}, 2, KeysAt(before, {0}) * Wanted(plan))
    ensures after[0].carriedTo == Some(2) && forall j :: !CounterpartOf(after, j, 2, before[0].key)
  {
    var stop: Stop<BinKey> := Stop(1, (7, None), 1, Pending, false, None, None);
    before, plan := map[0 := stop], [];
    after := map[0 := stop.(carriedTo := Some(2))];
    assert Wanted(plan) == {} && KeysAt(before, {0}) * Wanted(plan) == {};
    assert TripKeys(after, 2) == {};
  }
}
