/** Weight per waste type for many trip assignments at once: what bins and households
    delivered, and the trip log's total spread over the configured types where a
    source has no detail. */
module WasteBreakdown {
  import opened Wrappers

  type Id = string
  type Extra = string

  /** An assignment and the report's extra grouping values. */
  datatype Key = Key(assignment: Id, extra: Extra)

  datatype FullKey = FullKey(group: Key, wasteType: Id)

  datatype Source = Bin | Household | All

  datatype Column = Wet | Dry | Mixed | Sanitary

  datatype BinRow = BinRow(assignment: Id, wasteType: Id, weight: real)

  datatype HouseholdRow = HouseholdRow(assignment: Id, wet: real, dry: real, mixed: real, sanitary: real)

  datatype LogRow = LogRow(assignment: Id, extra: Extra, binTotal: real, householdTotal: real)

  datatype Assignment = Assignment(types: seq<Id>, plan: Option<Id>, householdTypes: seq<Id>)

  /** The rows read for the report's assignments. `bins` and `households` are grouped
      sums, `master` lists the waste types in their own order, `named` finds the type
      that carries a household column's label. */
  datatype Db = Db(bins: seq<BinRow>, households: seq<HouseholdRow>, logs: seq<LogRow>, extras: map<Id, Extra>,
                   assignments: map<Id, Assignment>, planTypes: map<Id, seq<Id>>, master: seq<Id>,
                   named: map<Column, Id>, typeNames: map<Id, string>)

  /** The report's grouping value of an assignment, blank when it has none. */
  function ExtraOf(db: Db, assignment: Id): Extra {
    if assignment in db.extras then db.extras[assignment] else ""
  }

  function KeyOf(db: Db, assignment: Id): Key {
    Key(assignment, ExtraOf(db, assignment))
  }

  function HouseholdType(db: Db, column: Column): Id {
    if column in db.named then db.named[column]
    else "HOUSEHOLD-" + match column
      case Wet => "wet_waste"
      case Dry => "dry_waste"
      case Mixed => "mixed_waste"
      case Sanitary => "sanitary_waste"
  }

  /** The known types among `ids`, once each, in master order. */
  function Resolve(master: seq<Id>, ids: seq<Id>): seq<Id> {
    if master == [] then []
    else Resolve(master[..|master| - 1], ids) + if master[|master| - 1] in ids then [master[|master| - 1]] else []
  }

  /** Plans whose types are read at all: those of an assignment of the report that has no
      types of its own. */
  function FetchedPlans(db: Db): set<Id> {
    set a | a in db.assignments && db.assignments[a].types == [] && db.assignments[a].plan.Some? ::
      db.assignments[a].plan.value
  }

  function PlanTypes(db: Db, plan: Option<Id>): seq<Id> {
    if plan.Some? && plan.value in FetchedPlans(db) && plan.value in db.planTypes then db.planTypes[plan.value] else []
  }

  function BinTypes(db: Db, assignment: Id): seq<Id> {
    if assignment !in db.assignments then []
    else
      var a := db.assignments[assignment];
      var own := Resolve(db.master, a.types);
      if own == [] then Resolve(db.master, PlanTypes(db, a.plan)) else own
  }

  function HouseholdTypes(db: Db, assignment: Id): seq<Id> {
    if assignment !in db.assignments then []
    else
      var own := Resolve(db.master, db.assignments[assignment].householdTypes);
      if own == [] then BinTypes(db, assignment) else own
  }

  /** `ids` are sifted through the master list: what it does not know is dropped, and the
      rest comes in its order. */
  lemma {:induction false} ResolveSifts(first: seq<Id>, second: seq<Id>, ids: seq<Id>)
    ensures Resolve(first + second, ids) == Resolve(first, ids) + Resolve(second, ids)
    ensures |second| == 1 ==> Resolve(second, ids) == if second[0] in ids then second else []
  {
    if second == [] {
      assert first + second == first;
    } else {
      assert (first + second)[..|first + second| - 1] == first + second[..|second| - 1];
      ResolveSifts(first, second[..|second| - 1], ids);
    }
  }

  /** The types a log total is spread over: an assignment's own, or when it names none that
      is known, those of its plan, if the plan was read for an assignment of the report
      that names none at all; for households its household types first. */
  lemma TypesInUse(db: Db, assignment: Id)
    requires assignment in db.assignments
    ensures var a := db.assignments[assignment];
      var planRead := a.plan.Some? && a.plan.value in db.planTypes
        && exists b :: b in db.assignments && db.assignments[b].types == [] && db.assignments[b].plan == a.plan;
      && (Resolve(db.master, a.types) != [] ==> BinTypes(db, assignment) == Resolve(db.master, a.types))
      && (Resolve(db.master, a.types) == [] && planRead ==> BinTypes(db, assignment) == Resolve(db.master, db.planTypes[a.plan.value]))
      && (Resolve(db.master, a.types) == [] && !planRead ==> BinTypes(db, assignment) == [])
      && (Resolve(db.master, a.householdTypes) != [] ==> HouseholdTypes(db, assignment) == Resolve(db.master, a.householdTypes))
      && (Resolve(db.master, a.householdTypes) == [] ==> HouseholdTypes(db, assignment) == BinTypes(db, assignment))
  {
    ResolveNothing(db.master);
  }

  // --------------------------------------------------------- what is recorded

  datatype Entry = Entry(key: FullKey, weight: real)

  function WeightOf(entries: seq<Entry>, key: FullKey): real {
    if entries == [] then 0.0
    else WeightOf(entries[..|entries| - 1], key) + if entries[|entries| - 1].key == key then entries[|entries| - 1].weight else 0.0
  }

  /** The weight of a key over all waste types. */
  function TotalOf(entries: seq<Entry>, key: Key): real {
    if entries == [] then 0.0
    else TotalOf(entries[..|entries| - 1], key) + if entries[|entries| - 1].key.group == key then entries[|entries| - 1].weight else 0.0
  }

  lemma {:induction false} WeightOfBoth(first: seq<Entry>, second: seq<Entry>, key: FullKey)
    ensures WeightOf(first + second, key) == WeightOf(first, key) + WeightOf(second, key)
  {
    if second == [] {
      assert first + second == first;
    } else {
      assert (first + second)[..|first + second| - 1] == first + second[..|second| - 1];
      WeightOfBoth(first, second[..|second| - 1], key);
    }
  }

  lemma {:induction false} TotalOfBoth(first: seq<Entry>, second: seq<Entry>, key: Key)
    ensures TotalOf(first + second, key) == TotalOf(first, key) + TotalOf(second, key)
  {
    if second == [] {
      assert first + second == first;
    } else {
      assert (first + second)[..|first + second| - 1] == first + second[..|second| - 1];
      TotalOfBoth(first, second[..|second| - 1], key);
    }
  }

  function Flat(parts: seq<seq<Entry>>): seq<Entry> {
    if parts == [] then [] else Flat(parts[..|parts| - 1]) + parts[|parts| - 1]
  }

  lemma {:induction false} FlatSplits(all: seq<seq<Entry>>, some: seq<seq<Entry>>, others: seq<seq<Entry>>, key: FullKey)
    requires |all| == |some| == |others|
    requires forall i :: 0 <= i < |all| ==> WeightOf(all[i], key) == WeightOf(some[i], key) + WeightOf(others[i], key)
    ensures WeightOf(Flat(all), key) == WeightOf(Flat(some), key) + WeightOf(Flat(others), key)
  {
    var n := |all|;
    if n > 0 {
      FlatSplits(all[..n - 1], some[..n - 1], others[..n - 1], key);
      WeightOfBoth(Flat(all[..n - 1]), all[n - 1], key);
      WeightOfBoth(Flat(some[..n - 1]), some[n - 1], key);
      WeightOfBoth(Flat(others[..n - 1]), others[n - 1], key);
    }
  }

  lemma {:induction false} FlatTotal(parts: seq<seq<Entry>>, key: Key)
    ensures TotalOf(Flat(parts), key) == SumOf(parts, key)
  {
    if parts != [] {
      FlatTotal(parts[..|parts| - 1], key);
      TotalOfBoth(Flat(parts[..|parts| - 1]), parts[|parts| - 1], key);
    }
  }

  function SumOf(parts: seq<seq<Entry>>, key: Key): real {
    if parts == [] then 0.0 else SumOf(parts[..|parts| - 1], key) + TotalOf(parts[|parts| - 1], key)
  }

  function BinEntries(db: Db, row: BinRow): seq<Entry> {
    [Entry(FullKey(KeyOf(db, row.assignment), row.wasteType), row.weight)]
  }

  function BinDetail(db: Db): seq<seq<Entry>> {
    seq(|db.bins|, i requires 0 <= i < |db.bins| => BinEntries(db, db.bins[i]))
  }

  /** Sanitary waste is not among the columns the bulk query adds up. */
  function HouseholdEntries(db: Db, row: HouseholdRow): seq<Entry> {
    var key := KeyOf(db, row.assignment);
    [Entry(FullKey(key, HouseholdType(db, Wet)), row.wet),
     Entry(FullKey(key, HouseholdType(db, Dry)), row.dry),
     Entry(FullKey(key, HouseholdType(db, Mixed)), row.mixed)]
  }

  function HouseholdDetail(db: Db): seq<seq<Entry>> {
    seq(|db.households|, i requires 0 <= i < |db.households| => HouseholdEntries(db, db.households[i]))
  }

  function BinDetailKeys(db: Db): set<Key> {
    set row | row in db.bins && row.weight != 0.0 :: KeyOf(db, row.assignment)
  }

  predicate HasHouseholdDetail(row: HouseholdRow) {
    row.wet != 0.0 || row.dry != 0.0 || row.mixed != 0.0
  }

  function HouseholdDetailKeys(db: Db): set<Key> {
    set row | row in db.households && HasHouseholdDetail(row) :: KeyOf(db, row.assignment)
  }

  /** What is left of `total` after `n` equal shares, by repeated exact subtraction. */
  function Rest(total: real, share: real, n: nat): real {
    if n == 0 then total else Rest(total, share, n - 1) - share
  }

  /** `divide` is decimal division, however it rounds. */
  type Division = (real, nat) -> real

  function Shares(key: Key, total: real, types: seq<Id>, divide: Division): seq<Entry> {
    if total <= 0.0 || types == [] then []
    else
      var even := divide(total, |types|);
      seq(|types|, i requires 0 <= i < |types| =>
        Entry(FullKey(key, types[i]), if i == |types| - 1 then Rest(total, even, i) else even))
  }

  function BinFallback(db: Db, log: LogRow, divide: Division): seq<Entry> {
    var key := Key(log.assignment, log.extra);
    if key in BinDetailKeys(db) then [] else Shares(key, log.binTotal, BinTypes(db, log.assignment), divide)
  }

  function HouseholdFallback(db: Db, log: LogRow, divide: Division): seq<Entry> {
    var key := Key(log.assignment, log.extra);
    if key in HouseholdDetailKeys(db) then []
    else Shares(key, log.householdTotal, HouseholdTypes(db, log.assignment), divide)
  }

  function LogFallback(db: Db, source: Source, log: LogRow, divide: Division): seq<Entry> {
    (if source != Household then BinFallback(db, log, divide) else [])
    + (if source != Bin then HouseholdFallback(db, log, divide) else [])
  }

  function Fallback(db: Db, source: Source, divide: Division): seq<seq<Entry>> {
    seq(|db.logs|, i requires 0 <= i < |db.logs| => LogFallback(db, source, db.logs[i], divide))
  }

  /** Everything a run adds up, in order. */
  function Recorded(db: Db, source: Source, divide: Division): seq<Entry> {
    (if source != Household then Flat(BinDetail(db)) else [])
    + (if source != Bin then Flat(HouseholdDetail(db)) else [])
    + Flat(Fallback(db, source, divide))
  }

  // ------------------------------------------------------------- conservation

  lemma LogFallbackSplits(db: Db, log: LogRow, divide: Division, key: FullKey)
    ensures WeightOf(LogFallback(db, All, log, divide), key)
      == WeightOf(LogFallback(db, Bin, log, divide), key) + WeightOf(LogFallback(db, Household, log, divide), key)
  {
    OneSourceFallback(db, log, divide);
    WeightOfBoth(BinFallback(db, log, divide), HouseholdFallback(db, log, divide), key);
  }

  lemma Rearranged(b: seq<Entry>, h: seq<Entry>, all: seq<Entry>, some: seq<Entry>, others: seq<Entry>, key: FullKey)
    requires WeightOf(all, key) == WeightOf(some, key) + WeightOf(others, key)
    ensures WeightOf(b + h + all, key) == WeightOf(b + some, key) + WeightOf(h + others, key)
  {
    WeightOfBoth(b, h, key);
    WeightOfBoth(b + h, all, key);
    WeightOfBoth(b, some, key);
    WeightOfBoth(h, others, key);
  }

  lemma FallbackSplits(db: Db, divide: Division, key: FullKey)
    ensures WeightOf(Flat(Fallback(db, All, divide)), key)
      == WeightOf(Flat(Fallback(db, Bin, divide)), key) + WeightOf(Flat(Fallback(db, Household, divide)), key)
  {
    var all, some, others := Fallback(db, All, divide), Fallback(db, Bin, divide), Fallback(db, Household, divide);
    forall i | 0 <= i < |db.logs| ensures WeightOf(all[i], key) == WeightOf(some[i], key) + WeightOf(others[i], key) {
      LogFallbackSplits(db, db.logs[i], divide, key);
    }
    FlatSplits(all, some, others, key);
  }

  lemma RecordedParts(db: Db, divide: Division)
    ensures Recorded(db, Bin, divide) == Flat(BinDetail(db)) + Flat(Fallback(db, Bin, divide))
    ensures Recorded(db, Household, divide) == Flat(HouseholdDetail(db)) + Flat(Fallback(db, Household, divide))
  {
    assert Flat(BinDetail(db)) + [] == Flat(BinDetail(db));
    assert [] + Flat(HouseholdDetail(db)) == Flat(HouseholdDetail(db));
  }

  /** For every assignment, grouping and waste type, the weight over both sources is
      the weight of the bins plus the weight of the households. */
  lemma AllIsBinPlusHousehold(db: Db, divide: Division, key: FullKey)
    ensures WeightOf(Recorded(db, All, divide), key)
      == WeightOf(Recorded(db, Bin, divide), key) + WeightOf(Recorded(db, Household, divide), key)
  {
    FallbackSplits(db, divide, key);
    RecordedParts(db, divide);
    Rearranged(Flat(BinDetail(db)), Flat(HouseholdDetail(db)),
               Flat(Fallback(db, All, divide)), Flat(Fallback(db, Bin, divide)), Flat(Fallback(db, Household, divide)), key);
  }

  lemma OneMoreShare(count: real, share: real)
    ensures (count + 1.0) * share == count * share + share
  {
  }

  lemma {:induction false} RestIsDifference(total: real, share: real, n: nat)
    ensures Rest(total, share, n) == total - n as real * share
  {
    if n > 0 {
      RestIsDifference(total, share, n - 1);
      assert n as real == (n - 1) as real + 1.0;
      OneMoreShare((n - 1) as real, share);
    }
  }

  /** A positive total over some types: each but the last gets the even share, and the last
      what those leave. Otherwise nothing is spread. */
  lemma SharesAreEven(key: Key, total: real, types: seq<Id>, divide: Division)
    ensures var shares := Shares(key, total, types, divide); var n := |types|;
      if total > 0.0 && n > 0 then
        && |shares| == n
        && (forall i :: 0 <= i < n ==> shares[i].key == FullKey(key, types[i]))
        && (forall i :: 0 <= i < n - 1 ==> shares[i].weight == divide(total, n))
        && shares[n - 1].weight == total - (n - 1) as real * divide(total, n)
      else shares == []
  {
    if types != [] {
      RestIsDifference(total, divide(total, |types|), |types| - 1);
    }
  }

  lemma {:induction false} EqualSharesTotal(entries: seq<Entry>, key: Key, total: real, even: real)
    requires forall i :: 0 <= i < |entries| ==> entries[i].key.group == key && entries[i].weight == even
    ensures TotalOf(entries, key) == total - Rest(total, even, |entries|)
  {
    if entries != [] {
      EqualSharesTotal(entries[..|entries| - 1], key, total, even);
    }
  }

  /** The shares add up to the total exactly, whatever rounding the even share took. */
  lemma SharesSumToTotal(key: Key, total: real, types: seq<Id>, divide: Division)
    ensures TotalOf(Shares(key, total, types, divide), key) == if types == [] || total <= 0.0 then 0.0 else total
  {
    if types != [] && total > 0.0 {
      var shares := Shares(key, total, types, divide);
      EqualSharesTotal(shares[..|types| - 1], key, total, divide(total, |types|));
    }
  }

  lemma {:induction false} OtherKeysGetNothing(entries: seq<Entry>, key: Key)
    requires forall i :: 0 <= i < |entries| ==> entries[i].key.group != key
    ensures TotalOf(entries, key) == 0.0
  {
    if entries != [] {
      OtherKeysGetNothing(entries[..|entries| - 1], key);
    }
  }

  function Positive(weight: real): real {
    if weight > 0.0 then weight else 0.0
  }

  /** The log totals of a key that a source without detail has to account for. */
  function Logged(logs: seq<LogRow>, source: Source, key: Key): real {
    if logs == [] then 0.0
    else
      var log := logs[|logs| - 1];
      Logged(logs[..|logs| - 1], source, key)
      + if Key(log.assignment, log.extra) == key then Positive(if source == Bin then log.binTotal else log.householdTotal) else 0.0
  }

  function TypesFor(db: Db, source: Source, assignment: Id): seq<Id> {
    if source == Bin then BinTypes(db, assignment) else HouseholdTypes(db, assignment)
  }

  function DetailKeys(db: Db, source: Source): set<Key> {
    if source == Bin then BinDetailKeys(db) else HouseholdDetailKeys(db)
  }

  lemma SharesTotal(group: Key, total: real, types: seq<Id>, divide: Division, key: Key)
    ensures TotalOf(Shares(group, total, types, divide), key) == if group == key && types != [] then Positive(total) else 0.0
  {
    if group == key {
      SharesSumToTotal(key, total, types, divide);
    } else {
      OtherKeysGetNothing(Shares(group, total, types, divide), key);
    }
  }

  lemma BinFallbackTotal(db: Db, divide: Division, log: LogRow, key: Key)
    ensures TotalOf(BinFallback(db, log, divide), key) ==
      if Key(log.assignment, log.extra) == key && FallsBack(db, Bin, key) then Positive(log.binTotal) else 0.0
  {
    SharesTotal(Key(log.assignment, log.extra), log.binTotal, BinTypes(db, log.assignment), divide, key);
  }

  lemma HouseholdFallbackTotal(db: Db, divide: Division, log: LogRow, key: Key)
    ensures TotalOf(HouseholdFallback(db, log, divide), key) ==
      if Key(log.assignment, log.extra) == key && FallsBack(db, Household, key) then Positive(log.householdTotal) else 0.0
  {
    SharesTotal(Key(log.assignment, log.extra), log.householdTotal, HouseholdTypes(db, log.assignment), divide, key);
  }

  lemma OneSourceFallback(db: Db, log: LogRow, divide: Division)
    ensures LogFallback(db, Bin, log, divide) == BinFallback(db, log, divide)
    ensures LogFallback(db, Household, log, divide) == HouseholdFallback(db, log, divide)
  {
    assert BinFallback(db, log, divide) + [] == BinFallback(db, log, divide);
    assert [] + HouseholdFallback(db, log, divide) == HouseholdFallback(db, log, divide);
  }

  lemma LoggedOne(log: LogRow, source: Source, key: Key)
    ensures Logged([log], source, key) ==
      if Key(log.assignment, log.extra) == key then Positive(if source == Bin then log.binTotal else log.householdTotal) else 0.0
  {
    assert [log][..0] == [];
  }

  lemma LogFallbackTotal(db: Db, source: Source, divide: Division, log: LogRow, key: Key)
    requires source != All
    ensures TotalOf(LogFallback(db, source, log, divide), key) == if FallsBack(db, source, key) then Logged([log], source, key) else 0.0
  {
    OneSourceFallback(db, log, divide);
    LoggedOne(log, source, key);
    BinFallbackTotal(db, divide, log, key);
    HouseholdFallbackTotal(db, divide, log, key);
  }

  lemma {:induction false} LoggedSum(logs: seq<LogRow>, parts: seq<seq<Entry>>, source: Source, key: Key, due: bool)
    requires |parts| == |logs|
    requires forall i :: 0 <= i < |logs| ==> TotalOf(parts[i], key) == if due then Logged([logs[i]], source, key) else 0.0
    ensures SumOf(parts, key) == if due then Logged(logs, source, key) else 0.0
  {
    if logs != [] {
      var n := |logs| - 1;
      LoggedSum(logs[..n], parts[..n], source, key, due);
      assert [logs[n]][..0] == [];
    }
  }

  predicate FallsBack(db: Db, source: Source, key: Key) {
    key !in DetailKeys(db, source) && TypesFor(db, source, key.assignment) != []
  }

  /** A source falls back for a key exactly when none of its rows there has any weight in
      the columns that count, and some type is configured. */
  lemma FallsBackExactly(db: Db, key: Key)
    ensures FallsBack(db, Bin, key) <==>
      && (forall row :: row in db.bins && row.assignment == key.assignment && key.extra == ExtraOf(db, row.assignment) ==>
            row.weight == 0.0)
      && BinTypes(db, key.assignment) != []
    ensures FallsBack(db, Household, key) <==>
      && (forall row :: row in db.households && row.assignment == key.assignment && key.extra == ExtraOf(db, row.assignment) ==>
            row.wet == 0.0 && row.dry == 0.0 && row.mixed == 0.0)
      && HouseholdTypes(db, key.assignment) != []
  {
    forall assignment ensures KeyOf(db, assignment) == key <==> assignment == key.assignment && key.extra == ExtraOf(db, assignment) {
    }
  }

  lemma FallbackTotal(db: Db, source: Source, divide: Division, key: Key)
    requires source != All
    ensures TotalOf(Flat(Fallback(db, source, divide)), key) == if FallsBack(db, source, key) then Logged(db.logs, source, key) else 0.0
  {
    var parts := Fallback(db, source, divide);
    forall i | 0 <= i < |db.logs|
      ensures TotalOf(parts[i], key) == if FallsBack(db, source, key) then Logged([db.logs[i]], source, key) else 0.0
    {
      LogFallbackTotal(db, source, divide, db.logs[i], key);
    }
    LoggedSum(db.logs, parts, source, key, FallsBack(db, source, key));
    FlatTotal(parts, key);
  }

  function Detail(db: Db, source: Source): seq<seq<Entry>> {
    if source == Bin then BinDetail(db) else HouseholdDetail(db)
  }

  lemma DetailThenFallback(db: Db, source: Source, divide: Division)
    requires source != All
    ensures Recorded(db, source, divide) == Flat(Detail(db, source)) + Flat(Fallback(db, source, divide))
  {
    var bins, households := Flat(BinDetail(db)), Flat(HouseholdDetail(db));
    assert bins + [] == bins && [] + households == households;
  }

  /** What one source delivered for a key, over all waste types: its detail, or, where
      it has none and some type is configured, exactly the log total. */
  lemma SourceTotal(db: Db, source: Source, divide: Division, key: Key)
    requires source != All
    ensures TotalOf(Recorded(db, source, divide), key) ==
      if FallsBack(db, source, key) then Logged(db.logs, source, key) else TotalOf(Flat(Detail(db, source)), key)
  {
    DetailThenFallback(db, source, divide);
    TotalOfBoth(Flat(Detail(db, source)), Flat(Fallback(db, source, divide)), key);
    FallbackTotal(db, source, divide, key);
    if key !in DetailKeys(db, source) {
      NoDetail(db, source, key);
    }
  }

  lemma {:induction false} ZeroSum(parts: seq<seq<Entry>>, key: Key)
    requires forall i :: 0 <= i < |parts| ==> TotalOf(parts[i], key) == 0.0
    ensures SumOf(parts, key) == 0.0
  {
    if parts != [] {
      ZeroSum(parts[..|parts| - 1], key);
    }
  }

  lemma NoDetail(db: Db, source: Source, key: Key)
    requires key !in DetailKeys(db, source)
    ensures TotalOf(Flat(Detail(db, source)), key) == 0.0
  {
    var parts := Detail(db, source);
    forall i | 0 <= i < |parts| ensures TotalOf(parts[i], key) == 0.0 {
      if source == Bin {
        assert db.bins[i] in db.bins;
        TotalOfOne(parts[i][0], key);
      } else {
        assert db.households[i] in db.households;
        HouseholdEntriesTotal(db, db.households[i], key);
      }
    }
    ZeroSum(parts, key);
    FlatTotal(parts, key);
  }

  lemma TotalOfOne(entry: Entry, key: Key)
    ensures TotalOf([entry], key) == if entry.key.group == key then entry.weight else 0.0
  {
    assert [entry][..0] == [];
  }

  lemma HouseholdEntriesTotal(db: Db, row: HouseholdRow, key: Key)
    ensures TotalOf(HouseholdEntries(db, row), key) == if KeyOf(db, row.assignment) == key then row.wet + row.dry + row.mixed else 0.0
  {
    var e := HouseholdEntries(db, row);
    TotalOfOne(e[0], key);
    TotalOfOne(e[1], key);
    TotalOfOne(e[2], key);
    TotalOfBoth([e[0]], [e[1]], key);
    TotalOfBoth([e[0]] + [e[1]], [e[2]], key);
    assert e == [e[0]] + [e[1]] + [e[2]];
  }

  // --------------------------------------------------- the report's other rows

  function Alone(db: Db, assignment: Id): Db
    requires assignment in db.assignments
  {
    db.(assignments := map[assignment := db.assignments[assignment]])
  }

  /** An assignment's types differ from those it would have in a report of its own exactly
      when none of its own ids is a known type, and its plan, which has some, was read for
      another assignment. */
  lemma BatchMattersExactly(db: Db, assignment: Id)
    requires assignment in db.assignments
    ensures var a := db.assignments[assignment];
      BinTypes(db, assignment) != BinTypes(Alone(db, assignment), assignment) <==>
        && a.types != [] && Resolve(db.master, a.types) == []
        && Resolve(db.master, PlanTypes(db, a.plan)) != []
  {
    var a, alone := db.assignments[assignment], Alone(db, assignment);
    ResolveNothing(db.master);
    if a.types == [] {
      assert assignment in alone.assignments;
      assert PlanTypes(db, a.plan) == PlanTypes(alone, a.plan);
    } else {
      assert PlanTypes(alone, a.plan) == [];
    }
  }

  lemma {:induction false} ResolveNothing(master: seq<Id>)
    ensures Resolve(master, []) == []
  {
    if master != [] {
      ResolveNothing(master[..|master| - 1]);
    }
  }

  // ------------------------------------------------- the form for one assignment

  /** Bin weight of types without a name is dropped, sanitary waste is counted. */
  function NamedBin(db: Db, row: BinRow): seq<Entry> {
    if row.wasteType in db.typeNames && db.typeNames[row.wasteType] != ""
    then [Entry(FullKey(Key(row.assignment, ""), db.typeNames[row.wasteType]), row.weight)]
    else []
  }

  function NamedHousehold(row: HouseholdRow): seq<Entry> {
    var key := Key(row.assignment, "");
    [Entry(FullKey(key, "Wet Waste"), row.wet), Entry(FullKey(key, "Dry Waste"), row.dry),
     Entry(FullKey(key, "Mixed Waste"), row.mixed), Entry(FullKey(key, "Sanitary Waste"), row.sanitary)]
  }

  function NamedBins(db: Db): seq<seq<Entry>> {
    seq(|db.bins|, i requires 0 <= i < |db.bins| => NamedBin(db, db.bins[i]))
  }

  function NamedHouseholds(db: Db): seq<seq<Entry>> {
    seq(|db.households|, i requires 0 <= i < |db.households| => NamedHousehold(db.households[i]))
  }

  function Sum(weights: seq<real>): real {
    if weights == [] then 0.0 else Sum(weights[..|weights| - 1]) + weights[|weights| - 1]
  }

  function Sanitaries(db: Db, assignment: Id): seq<real> {
    seq(|db.households|, i requires 0 <= i < |db.households| =>
      if db.households[i].assignment == assignment then db.households[i].sanitary else 0.0)
  }

  function Unnamed(db: Db, assignment: Id): seq<real> {
    seq(|db.bins|, i requires 0 <= i < |db.bins| =>
      if db.bins[i].assignment == assignment && NamedBin(db, db.bins[i]) == [] then db.bins[i].weight else 0.0)
  }

  lemma {:induction false} SumsDiffer(some: seq<seq<Entry>>, someKey: Key, others: seq<seq<Entry>>,
                                      otherKey: Key, gaps: seq<real>)
    requires |some| == |others| == |gaps|
    requires forall i :: 0 <= i < |some| ==> TotalOf(some[i], someKey) == TotalOf(others[i], otherKey) + gaps[i]
    ensures SumOf(some, someKey) == SumOf(others, otherKey) + Sum(gaps)
  {
    if some != [] {
      var n := |some| - 1;
      SumsDiffer(some[..n], someKey, others[..n], otherKey, gaps[..n]);
    }
  }

  lemma NamedHouseholdTotal(row: HouseholdRow, key: Key)
    ensures TotalOf(NamedHousehold(row), key) ==
      if Key(row.assignment, "") == key then row.wet + row.dry + row.mixed + row.sanitary else 0.0
  {
    var e := NamedHousehold(row);
    TotalOfOne(e[0], key);
    TotalOfOne(e[1], key);
    TotalOfOne(e[2], key);
    TotalOfOne(e[3], key);
    TotalOfBoth([e[0]], [e[1]], key);
    TotalOfBoth([e[0]] + [e[1]], [e[2]], key);
    TotalOfBoth([e[0]] + [e[1]] + [e[2]], [e[3]], key);
    assert e == [e[0]] + [e[1]] + [e[2]] + [e[3]];
  }

  lemma HouseholdsDiffer(db: Db, assignment: Id)
    ensures TotalOf(Flat(NamedHouseholds(db)), Key(assignment, ""))
      == TotalOf(Flat(HouseholdDetail(db)), KeyOf(db, assignment)) + Sum(Sanitaries(db, assignment))
  {
    var key := KeyOf(db, assignment);
    forall i | 0 <= i < |db.households|
      ensures TotalOf(NamedHouseholds(db)[i], Key(assignment, "")) == TotalOf(HouseholdDetail(db)[i], key) + Sanitaries(db, assignment)[i]
    {
      NamedHouseholdTotal(db.households[i], Key(assignment, ""));
      HouseholdEntriesTotal(db, db.households[i], key);
    }
    SumsDiffer(NamedHouseholds(db), Key(assignment, ""), HouseholdDetail(db), key, Sanitaries(db, assignment));
    FlatTotal(NamedHouseholds(db), Key(assignment, ""));
    FlatTotal(HouseholdDetail(db), key);
  }

  lemma BinsDiffer(db: Db, assignment: Id)
    ensures TotalOf(Flat(BinDetail(db)), KeyOf(db, assignment))
      == TotalOf(Flat(NamedBins(db)), Key(assignment, "")) + Sum(Unnamed(db, assignment))
  {
    var key := KeyOf(db, assignment);
    forall i | 0 <= i < |db.bins|
      ensures TotalOf(BinDetail(db)[i], key) == TotalOf(NamedBins(db)[i], Key(assignment, "")) + Unnamed(db, assignment)[i]
    {
      TotalOfOne(BinDetail(db)[i][0], key);
      if NamedBin(db, db.bins[i]) != [] {
        TotalOfOne(NamedBin(db, db.bins[i])[0], Key(assignment, ""));
      }
    }
    SumsDiffer(BinDetail(db), key, NamedBins(db), Key(assignment, ""), Unnamed(db, assignment));
    FlatTotal(NamedBins(db), Key(assignment, ""));
    FlatTotal(BinDetail(db), key);
  }

  /** The bulk form does not mirror the form for one assignment: their totals differ by
      the sanitary waste, which only the latter counts, and by the bin weight of types
      without a name, which only the former counts. */
  lemma BulkMirrorsExactly(db: Db, assignment: Id)
    ensures TotalOf(Flat(NamedBins(db)) + Flat(NamedHouseholds(db)), Key(assignment, ""))
        == TotalOf(Flat(BinDetail(db)) + Flat(HouseholdDetail(db)), KeyOf(db, assignment))
      <==> Sum(Sanitaries(db, assignment)) == Sum(Unnamed(db, assignment))
  {
    HouseholdsDiffer(db, assignment);
    BinsDiffer(db, assignment);
    TotalOfBoth(Flat(NamedBins(db)), Flat(NamedHouseholds(db)), Key(assignment, ""));
    TotalOfBoth(Flat(BinDetail(db)), Flat(HouseholdDetail(db)), KeyOf(db, assignment));
  }

  // --------------------------------------------------- the same type by type

  function Label(column: Column): string {
    match column
    case Wet => "Wet Waste"
    case Dry => "Dry Waste"
    case Mixed => "Mixed Waste"
    case Sanitary => "Sanitary Waste"
  }

  /** The name a row of the bulk form shows for its type. */
  function ShownName(db: Db, id: Id): string {
    if id in db.typeNames && db.typeNames[id] != "" then db.typeNames[id]
    else if id == HouseholdType(db, Wet) then Label(Wet)
    else if id == HouseholdType(db, Dry) then Label(Dry)
    else if id == HouseholdType(db, Mixed) then Label(Mixed)
    else id
  }

  /** The type found for a column carries its label, and the ids made up for the other
      columns are nobody else's. */
  predicate Consistent(db: Db) {
    && (forall c :: c in db.named ==> db.named[c] in db.typeNames && db.typeNames[db.named[c]] == Label(c))
    && (forall c :: c !in db.named ==> HouseholdType(db, c) !in db.typeNames)
    && (forall c, row :: c !in db.named && row in db.bins ==> row.wasteType != HouseholdType(db, c))
    && (forall c, d :: c !in db.named && HouseholdType(db, c) == HouseholdType(db, d) ==> c == d)
  }

  function Shown(db: Db, e: Entry): Entry {
    Entry(FullKey(e.key.group, ShownName(db, e.key.wasteType)), e.weight)
  }

  function ShownAll(db: Db, entries: seq<Entry>): seq<Entry> {
    seq(|entries|, i requires 0 <= i < |entries| => Shown(db, entries[i]))
  }

  function ShownParts(db: Db, parts: seq<seq<Entry>>): seq<seq<Entry>> {
    seq(|parts|, i requires 0 <= i < |parts| => ShownAll(db, parts[i]))
  }

  lemma ShowingBoth(db: Db, first: seq<Entry>, second: seq<Entry>)
    ensures ShownAll(db, first + second) == ShownAll(db, first) + ShownAll(db, second)
  {
    var shown := ShownAll(db, first) + ShownAll(db, second);
    forall i | 0 <= i < |first + second| ensures ShownAll(db, first + second)[i] == shown[i] {
    }
  }

  lemma ShowingPrefix(db: Db, parts: seq<seq<Entry>>, n: nat)
    requires n <= |parts|
    ensures ShownParts(db, parts)[..n] == ShownParts(db, parts[..n])
  {
  }

  lemma {:induction false} ShowingFlat(db: Db, parts: seq<seq<Entry>>)
    ensures ShownAll(db, Flat(parts)) == Flat(ShownParts(db, parts))
  {
    if parts != [] {
      var n := |parts| - 1;
      ShowingFlat(db, parts[..n]);
      ShowingPrefix(db, parts, n);
      ShowingBoth(db, Flat(parts[..n]), parts[n]);
    }
  }

  function SumAt(parts: seq<seq<Entry>>, key: FullKey): real {
    if parts == [] then 0.0 else SumAt(parts[..|parts| - 1], key) + WeightOf(parts[|parts| - 1], key)
  }

  lemma {:induction false} FlatAt(parts: seq<seq<Entry>>, key: FullKey)
    ensures WeightOf(Flat(parts), key) == SumAt(parts, key)
  {
    if parts != [] {
      FlatAt(parts[..|parts| - 1], key);
      WeightOfBoth(Flat(parts[..|parts| - 1]), parts[|parts| - 1], key);
    }
  }

  lemma {:induction false} SumsDifferAt(some: seq<seq<Entry>>, someKey: FullKey, others: seq<seq<Entry>>, otherKey: FullKey,
                                        gaps: seq<real>)
    requires |some| == |others| == |gaps|
    requires forall i :: 0 <= i < |some| ==> WeightOf(some[i], someKey) == WeightOf(others[i], otherKey) + gaps[i]
    ensures SumAt(some, someKey) == SumAt(others, otherKey) + Sum(gaps)
  {
    if some != [] {
      var n := |some| - 1;
      SumsDifferAt(some[..n], someKey, others[..n], otherKey, gaps[..n]);
    }
  }

  lemma WeightOfOne(entry: Entry, key: FullKey)
    ensures WeightOf([entry], key) == if entry.key == key then entry.weight else 0.0
  {
    assert [entry][..0] == [];
  }

  lemma WeightOfThree(a: Entry, b: Entry, c: Entry, key: FullKey)
    ensures WeightOf([a, b, c], key) == WeightOf([a], key) + WeightOf([b], key) + WeightOf([c], key)
  {
    WeightOfBoth([a], [b], key);
    WeightOfBoth([a] + [b], [c], key);
    assert [a, b, c] == [a] + [b] + [c];
  }

  lemma {:induction false} PartsAddUp(parts: seq<seq<Entry>>, key: FullKey, weights: seq<real>)
    requires |parts| == |weights| && forall i :: 0 <= i < |parts| ==> WeightOf(parts[i], key) == weights[i]
    ensures SumAt(parts, key) == Sum(weights)
  {
    if parts != [] {
      var n := |parts| - 1;
      PartsAddUp(parts[..n], key, weights[..n]);
    }
  }

  /** Weights of the bins of a key and type, row by row. */
  function BinWeights(db: Db, key: Key, wasteType: Id): seq<real> {
    seq(|db.bins|, i requires 0 <= i < |db.bins| =>
      if db.bins[i].assignment == key.assignment && key.extra == ExtraOf(db, key.assignment) && db.bins[i].wasteType == wasteType
      then db.bins[i].weight else 0.0)
  }

  function OfType(some: Id, wasteType: Id, weight: real): real {
    if some == wasteType then weight else 0.0
  }

  function OfTypes(db: Db, row: HouseholdRow, wasteType: Id): real {
    OfType(HouseholdType(db, Wet), wasteType, row.wet) + OfType(HouseholdType(db, Dry), wasteType, row.dry)
    + OfType(HouseholdType(db, Mixed), wasteType, row.mixed)
  }

  /** The same for households: wet, dry and mixed waste, each under its own type. */
  function HouseholdWeights(db: Db, key: Key, wasteType: Id): seq<real> {
    seq(|db.households|, i requires 0 <= i < |db.households| =>
      if db.households[i].assignment == key.assignment && key.extra == ExtraOf(db, key.assignment)
      then OfTypes(db, db.households[i], wasteType) else 0.0)
  }

  /** The detail recorded for a key and type is the sum of those weights. */
  lemma DetailAt(db: Db, key: Key, wasteType: Id)
    ensures WeightOf(Flat(BinDetail(db)), FullKey(key, wasteType)) == Sum(BinWeights(db, key, wasteType))
    ensures WeightOf(Flat(HouseholdDetail(db)), FullKey(key, wasteType)) == Sum(HouseholdWeights(db, key, wasteType))
  {
    var full := FullKey(key, wasteType);
    forall i | 0 <= i < |db.bins| ensures WeightOf(BinDetail(db)[i], full) == BinWeights(db, key, wasteType)[i] {
      WeightOfOne(BinDetail(db)[i][0], full);
    }
    PartsAddUp(BinDetail(db), full, BinWeights(db, key, wasteType));
    FlatAt(BinDetail(db), full);
    forall i | 0 <= i < |db.households|
      ensures WeightOf(HouseholdDetail(db)[i], full) == HouseholdWeights(db, key, wasteType)[i]
    {
      HouseholdEntriesAt(db, db.households[i], full);
    }
    PartsAddUp(HouseholdDetail(db), full, HouseholdWeights(db, key, wasteType));
    FlatAt(HouseholdDetail(db), full);
  }

  lemma HouseholdEntriesAt(db: Db, row: HouseholdRow, full: FullKey)
    ensures WeightOf(HouseholdEntries(db, row), full) ==
      if KeyOf(db, row.assignment) == full.group then OfTypes(db, row, full.wasteType) else 0.0
  {
    var e := HouseholdEntries(db, row);
    WeightOfOne(e[0], full);
    WeightOfOne(e[1], full);
    WeightOfOne(e[2], full);
    WeightOfThree(e[0], e[1], e[2], full);
    assert e == [e[0], e[1], e[2]];
  }

  /** For the form for one assignment: bins whose type has the name. */
  function NamedBinWeights(db: Db, assignment: Id, name: string): seq<real> {
    seq(|db.bins|, i requires 0 <= i < |db.bins| =>
      if db.bins[i].assignment == assignment && db.bins[i].wasteType in db.typeNames && db.typeNames[db.bins[i].wasteType] == name
      then db.bins[i].weight else 0.0)
  }

  /** And household columns so labelled, sanitary waste among them. */
  function NamedHouseholdWeights(db: Db, assignment: Id, name: string): seq<real> {
    seq(|db.households|, i requires 0 <= i < |db.households| =>
      if db.households[i].assignment != assignment then 0.0
      else if name == "Wet Waste" then db.households[i].wet
      else if name == "Dry Waste" then db.households[i].dry
      else if name == "Mixed Waste" then db.households[i].mixed
      else if name == "Sanitary Waste" then db.households[i].sanitary
      else 0.0)
  }

  lemma NamedDetailAt(db: Db, assignment: Id, name: string)
    requires name != ""
    ensures WeightOf(Flat(NamedBins(db)) + Flat(NamedHouseholds(db)), FullKey(Key(assignment, ""), name))
      == Sum(NamedBinWeights(db, assignment, name)) + Sum(NamedHouseholdWeights(db, assignment, name))
  {
    var full := FullKey(Key(assignment, ""), name);
    forall i | 0 <= i < |db.bins| ensures WeightOf(NamedBins(db)[i], full) == NamedBinWeights(db, assignment, name)[i] {
      if NamedBins(db)[i] != [] {
        WeightOfOne(NamedBins(db)[i][0], full);
        assert NamedBins(db)[i] == [NamedBins(db)[i][0]];
      }
    }
    LabelsDiffer();
    forall i | 0 <= i < |db.households|
      ensures WeightOf(NamedHouseholds(db)[i], full) == NamedHouseholdWeights(db, assignment, name)[i]
    {
      NamedHouseholdAt(db.households[i], assignment, name);
    }
    PartsAddUp(NamedBins(db), full, NamedBinWeights(db, assignment, name));
    PartsAddUp(NamedHouseholds(db), full, NamedHouseholdWeights(db, assignment, name));
    FlatAt(NamedBins(db), full);
    FlatAt(NamedHouseholds(db), full);
    WeightOfBoth(Flat(NamedBins(db)), Flat(NamedHouseholds(db)), full);
  }

  lemma LabelsDiffer()
    ensures forall c, d :: Label(c) == Label(d) ==> c == d
  {
    assert Label(Wet)[0] == 'W' && Label(Dry)[0] == 'D' && Label(Mixed)[0] == 'M' && Label(Sanitary)[0] == 'S';
  }

  function IfNamed(name: string, column: Column, weight: real): real {
    if name == Label(column) then weight else 0.0
  }

  lemma NamedHouseholdAt(row: HouseholdRow, assignment: Id, name: string)
    ensures WeightOf(NamedHousehold(row), FullKey(Key(assignment, ""), name)) ==
      if row.assignment != assignment then 0.0
      else IfNamed(name, Wet, row.wet) + IfNamed(name, Dry, row.dry) + IfNamed(name, Mixed, row.mixed) + IfNamed(name, Sanitary, row.sanitary)
  {
    var e, key := NamedHousehold(row), FullKey(Key(assignment, ""), name);
    WeightOfOne(e[0], key);
    WeightOfOne(e[1], key);
    WeightOfOne(e[2], key);
    WeightOfOne(e[3], key);
    WeightOfThree(e[0], e[1], e[2], key);
    WeightOfBoth([e[0], e[1], e[2]], [e[3]], key);
    assert e == [e[0], e[1], e[2]] + [e[3]];
  }

  lemma ShownColumn(db: Db, column: Column)
    requires Consistent(db) && column != Sanitary
    ensures ShownName(db, HouseholdType(db, column)) == Label(column)
  {
    assert column in db.named || HouseholdType(db, column) !in db.typeNames;
  }

  lemma ShownHouseholdAt(db: Db, row: HouseholdRow, assignment: Id, name: string)
    requires Consistent(db)
    ensures WeightOf(ShownAll(db, HouseholdEntries(db, row)), FullKey(KeyOf(db, assignment), name)) ==
      if row.assignment != assignment then 0.0
      else IfNamed(name, Wet, row.wet) + IfNamed(name, Dry, row.dry) + IfNamed(name, Mixed, row.mixed)
  {
    var e, key := ShownAll(db, HouseholdEntries(db, row)), FullKey(KeyOf(db, assignment), name);
    ShownColumn(db, Wet);
    ShownColumn(db, Dry);
    ShownColumn(db, Mixed);
    WeightOfOne(e[0], key);
    WeightOfOne(e[1], key);
    WeightOfOne(e[2], key);
    WeightOfThree(e[0], e[1], e[2], key);
    assert e == [e[0], e[1], e[2]];
  }

  /** Sanitary waste of an assignment, for the one name that shows it. */
  function SanitariesAs(db: Db, assignment: Id, name: string): seq<real> {
    seq(|db.households|, i requires 0 <= i < |db.households| =>
      if db.households[i].assignment == assignment then IfNamed(name, Sanitary, db.households[i].sanitary) else 0.0)
  }

  /** Bin weight of types without a name, which the bulk form shows by their id. */
  function UnnamedAs(db: Db, assignment: Id, name: string): seq<real> {
    seq(|db.bins|, i requires 0 <= i < |db.bins| =>
      if db.bins[i].assignment == assignment && NamedBin(db, db.bins[i]) == [] && db.bins[i].wasteType == name
      then db.bins[i].weight else 0.0)
  }

  lemma HouseholdsDifferAt(db: Db, assignment: Id, name: string)
    requires Consistent(db)
    ensures WeightOf(Flat(NamedHouseholds(db)), FullKey(Key(assignment, ""), name))
      == WeightOf(ShownAll(db, Flat(HouseholdDetail(db))), FullKey(KeyOf(db, assignment), name)) + Sum(SanitariesAs(db, assignment, name))
  {
    var named, shown, gaps := NamedHouseholds(db), ShownParts(db, HouseholdDetail(db)), SanitariesAs(db, assignment, name);
    var key, shownKey := FullKey(Key(assignment, ""), name), FullKey(KeyOf(db, assignment), name);
    forall i | 0 <= i < |db.households| ensures WeightOf(named[i], key) == WeightOf(shown[i], shownKey) + gaps[i] {
      NamedHouseholdAt(db.households[i], assignment, name);
      ShownHouseholdAt(db, db.households[i], assignment, name);
    }
    SumsDifferAt(named, key, shown, shownKey, gaps);
    ShowingFlat(db, HouseholdDetail(db));
    FlatAt(named, key);
    FlatAt(shown, shownKey);
  }

  lemma ShownBin(db: Db, row: BinRow)
    requires Consistent(db) && row in db.bins
    ensures ShownName(db, row.wasteType) == if NamedBin(db, row) == [] then row.wasteType else db.typeNames[row.wasteType]
  {
    assert forall c :: c in db.named && row.wasteType == db.named[c] ==> row.wasteType in db.typeNames && db.typeNames[row.wasteType] == Label(c);
  }

  lemma BinAt(db: Db, row: BinRow, assignment: Id, name: string)
    requires Consistent(db) && row in db.bins
    ensures WeightOf(ShownAll(db, BinEntries(db, row)), FullKey(KeyOf(db, assignment), name))
      == WeightOf(NamedBin(db, row), FullKey(Key(assignment, ""), name))
        + if row.assignment == assignment && NamedBin(db, row) == [] && row.wasteType == name then row.weight else 0.0
  {
    ShownBin(db, row);
    var shown := ShownAll(db, BinEntries(db, row));
    assert shown == [shown[0]];
    WeightOfOne(shown[0], FullKey(KeyOf(db, assignment), name));
    if NamedBin(db, row) != [] {
      assert NamedBin(db, row) == [NamedBin(db, row)[0]];
      WeightOfOne(NamedBin(db, row)[0], FullKey(Key(assignment, ""), name));
    }
  }

  lemma BinsDifferAt(db: Db, assignment: Id, name: string)
    requires Consistent(db)
    ensures WeightOf(ShownAll(db, Flat(BinDetail(db))), FullKey(KeyOf(db, assignment), name))
      == WeightOf(Flat(NamedBins(db)), FullKey(Key(assignment, ""), name)) + Sum(UnnamedAs(db, assignment, name))
  {
    var named, shown, gaps := NamedBins(db), ShownParts(db, BinDetail(db)), UnnamedAs(db, assignment, name);
    var key, shownKey := FullKey(Key(assignment, ""), name), FullKey(KeyOf(db, assignment), name);
    forall i | 0 <= i < |db.bins| ensures WeightOf(shown[i], shownKey) == WeightOf(named[i], key) + gaps[i] {
      assert db.bins[i] in db.bins;
      BinAt(db, db.bins[i], assignment, name);
    }
    SumsDifferAt(shown, shownKey, named, key, gaps);
    ShowingFlat(db, BinDetail(db));
    FlatAt(named, key);
    FlatAt(shown, shownKey);
  }

  /** For one waste type by name, the two forms show the same weight exactly when the
      sanitary waste of that name equals the bin weight of unnamed types with that id. */
  lemma BulkMirrorsTypeExactly(db: Db, assignment: Id, name: string)
    requires Consistent(db)
    ensures WeightOf(Flat(NamedBins(db)) + Flat(NamedHouseholds(db)), FullKey(Key(assignment, ""), name))
        == WeightOf(ShownAll(db, Flat(BinDetail(db))) + ShownAll(db, Flat(HouseholdDetail(db))), FullKey(KeyOf(db, assignment), name))
      <==> Sum(SanitariesAs(db, assignment, name)) == Sum(UnnamedAs(db, assignment, name))
  {
    HouseholdsDifferAt(db, assignment, name);
    BinsDifferAt(db, assignment, name);
    WeightOfBoth(Flat(NamedBins(db)), Flat(NamedHouseholds(db)), FullKey(Key(assignment, ""), name));
    WeightOfBoth(ShownAll(db, Flat(BinDetail(db))), ShownAll(db, Flat(HouseholdDetail(db))), FullKey(KeyOf(db, assignment), name));
  }

  /** One kilogram of sanitary waste: the form for one assignment shows it, the bulk form
      shows nothing and has no household detail either. */
  lemma BulkDropsSanitary() returns (db: Db)
    ensures Consistent(db) && HouseholdDetailKeys(db) == {}
    ensures WeightOf(Flat(NamedHouseholds(db)), FullKey(Key("TRIP-1", ""), "Sanitary Waste")) == 1.0
    ensures TotalOf(Flat(HouseholdDetail(db)), KeyOf(db, "TRIP-1")) == 0.0
  {
    var row := HouseholdRow("TRIP-1", 0.0, 0.0, 0.0, 1.0);
    db := Db([], [row], [], map[], map[], map[], [], map[], map[]);
    FlatAt(NamedHouseholds(db), FullKey(Key("TRIP-1", ""), "Sanitary Waste"));
    NamedHouseholdAt(row, "TRIP-1", "Sanitary Waste");
    assert NamedHouseholds(db) == [NamedHousehold(row)] && NamedHouseholds(db)[..0] == [];
    FlatTotal(HouseholdDetail(db), KeyOf(db, "TRIP-1"));
    HouseholdEntriesTotal(db, row, KeyOf(db, "TRIP-1"));
    assert HouseholdDetail(db) == [HouseholdEntries(db, row)] && HouseholdDetail(db)[..0] == [];
    MadeUpIdsDiffer(db);
  }

  lemma MadeUpIdsDiffer(db: Db)
    requires db.named == map[]
    ensures forall c, d :: HouseholdType(db, c) == HouseholdType(db, d) ==> c == d
  {
    forall c, d | HouseholdType(db, c) == HouseholdType(db, d) ensures c == d {
      assert HouseholdType(db, c)[10] == HouseholdType(db, d)[10];
    }
  }

  // ---------------------------------------------------------------- the loops

  /** The rows hold the sums of the entries, one row for each key that got weight. */
  ghost predicate Holds(rows: map<FullKey, real>, entries: seq<Entry>) {
    forall k :: (k in rows <==> Weighs(entries, k)) && (if k in rows then rows[k] else 0.0) == WeightOf(entries, k)
  }

  ghost predicate Weighs(entries: seq<Entry>, k: FullKey) {
    exists i :: 0 <= i < |entries| && entries[i].key == k && entries[i].weight != 0.0
  }

  lemma EntryAdded(entries: seq<Entry>, e: Entry, k: FullKey)
    ensures WeightOf(entries + [e], k) == WeightOf(entries, k) + if e.key == k then e.weight else 0.0
    ensures Weighs(entries + [e], k) <==> Weighs(entries, k) || (e.key == k && e.weight != 0.0)
  {
    var more := entries + [e];
    assert more[..|more| - 1] == entries;
    if Weighs(entries, k) {
      var i :| 0 <= i < |entries| && entries[i].key == k && entries[i].weight != 0.0;
      assert more[i] == entries[i];
    }
    assert more[|entries|] == e;
  }

  method Add(rows: map<FullKey, real>, e: Entry, ghost entries: seq<Entry>) returns (more: map<FullKey, real>)
    requires Holds(rows, entries)
    ensures Holds(more, entries + [e])
  {
    more := rows;
    if e.weight != 0.0 {
      if e.key in rows {
        more := rows[e.key := rows[e.key] + e.weight];
      } else {
        more := rows[e.key := e.weight];
      }
    }
    forall k ensures (k in more <==> Weighs(entries + [e], k)) && (if k in more then more[k] else 0.0) == WeightOf(entries + [e], k) {
      EntryAdded(entries, e, k);
    }
  }

  method AddEach(rows: map<FullKey, real>, some: seq<Entry>, ghost entries: seq<Entry>) returns (more: map<FullKey, real>)
    requires Holds(rows, entries)
    ensures Holds(more, entries + some)
  {
    more := rows;
    assert entries + some[..0] == entries;
    for i := 0 to |some|
      invariant Holds(more, entries + some[..i])
    {
      more := Add(more, some[i], entries + some[..i]);
      assert entries + some[..i] + [some[i]] == entries + some[..i + 1];
    }
    assert some[..|some|] == some;
  }

  /** The last type takes whatever is left of the total. */
  method AddConfiguredFallback(rows: map<FullKey, real>, key: Key, total: real, types: seq<Id>,
                               divide: Division, ghost entries: seq<Entry>)
    returns (more: map<FullKey, real>)
    requires Holds(rows, entries)
    ensures Holds(more, entries + Shares(key, total, types, divide))
  {
    more := rows;
    ghost var shares := Shares(key, total, types, divide);
    assert entries + [] == entries == entries + shares[..0];
    if total <= 0.0 || types == [] {
      return;
    }
    var remaining, even := total, divide(total, |types|);
    for i := 0 to |types|
      invariant remaining == if i < |types| then Rest(total, even, i) else 0.0
      invariant Holds(more, entries + shares[..i])
    {
      var share := if i == |types| - 1 then remaining else even;
      remaining := remaining - share;
      more := Add(more, Entry(FullKey(key, types[i]), share), entries + shares[..i]);
      assert entries + shares[..i] + [shares[i]] == entries + shares[..i + 1];
    }
    assert shares[..|shares|] == shares;
  }

  lemma FlatGrows(parts: seq<seq<Entry>>, i: nat)
    requires i < |parts|
    ensures Flat(parts[..i + 1]) == Flat(parts[..i]) + parts[i]
  {
    assert parts[..i + 1][..i] == parts[..i];
  }

  method AddBins(db: Db) returns (rows: map<FullKey, real>, keys: set<Key>)
    ensures Holds(rows, Flat(BinDetail(db))) && keys == BinDetailKeys(db)
  {
    rows, keys := map[], {};
    ghost var parts := BinDetail(db);
    for i := 0 to |db.bins|
      invariant Holds(rows, Flat(parts[..i]))
      invariant keys == set row | row in db.bins[..i] && row.weight != 0.0 :: KeyOf(db, row.assignment)
    {
      var row := db.bins[i];
      FlatGrows(parts, i);
      if row.weight != 0.0 {
        keys := keys + {KeyOf(db, row.assignment)};
      }
      rows := AddEach(rows, BinEntries(db, row), Flat(parts[..i]));
      assert db.bins[..i + 1] == db.bins[..i] + [row];
    }
    assert parts[..|parts|] == parts && db.bins[..|db.bins|] == db.bins;
  }

  method AddHouseholds(db: Db, rows: map<FullKey, real>, ghost entries: seq<Entry>)
    returns (more: map<FullKey, real>, keys: set<Key>)
    requires Holds(rows, entries)
    ensures Holds(more, entries + Flat(HouseholdDetail(db))) && keys == HouseholdDetailKeys(db)
  {
    more, keys := rows, {};
    ghost var parts := HouseholdDetail(db);
    assert entries + Flat(parts[..0]) == entries;
    for i := 0 to |db.households|
      invariant Holds(more, entries + Flat(parts[..i]))
      invariant keys == set row | row in db.households[..i] && HasHouseholdDetail(row) :: KeyOf(db, row.assignment)
    {
      var row := db.households[i];
      FlatGrows(parts, i);
      if HasHouseholdDetail(row) {
        keys := keys + {KeyOf(db, row.assignment)};
      }
      more := AddEach(more, HouseholdEntries(db, row), entries + Flat(parts[..i]));
      assert entries + Flat(parts[..i]) + parts[i] == entries + Flat(parts[..i + 1]);
      assert db.households[..i + 1] == db.households[..i] + [row];
    }
    assert parts[..|parts|] == parts && db.households[..|db.households|] == db.households;
  }

  lemma Regroup(first: seq<Entry>, second: seq<Entry>, third: seq<Entry>)
    ensures first + second + third == first + (second + third)
    ensures first + [] == first
  {
  }

  method AddBinLog(db: Db, log: LogRow, detailed: set<Key>, divide: Division, rows: map<FullKey, real>,
                   ghost entries: seq<Entry>)
    returns (more: map<FullKey, real>)
    requires Holds(rows, entries) && detailed == BinDetailKeys(db)
    ensures Holds(more, entries + BinFallback(db, log, divide))
  {
    var key := Key(log.assignment, log.extra);
    if key in detailed {
      Regroup(entries, [], []);
      more := rows;
    } else {
      more := AddConfiguredFallback(rows, key, log.binTotal, BinTypes(db, log.assignment), divide, entries);
    }
  }

  method AddHouseholdLog(db: Db, log: LogRow, detailed: set<Key>, divide: Division, rows: map<FullKey, real>,
                         ghost entries: seq<Entry>)
    returns (more: map<FullKey, real>)
    requires Holds(rows, entries) && detailed == HouseholdDetailKeys(db)
    ensures Holds(more, entries + HouseholdFallback(db, log, divide))
  {
    var key := Key(log.assignment, log.extra);
    if key in detailed {
      Regroup(entries, [], []);
      more := rows;
    } else {
      more := AddConfiguredFallback(rows, key, log.householdTotal, HouseholdTypes(db, log.assignment), divide, entries);
    }
  }

  method AddLog(db: Db, source: Source, log: LogRow, binKeys: set<Key>, householdKeys: set<Key>, divide: Division,
                rows: map<FullKey, real>, ghost entries: seq<Entry>)
    returns (more: map<FullKey, real>)
    requires Holds(rows, entries)
    requires source != Household ==> binKeys == BinDetailKeys(db)
    requires source != Bin ==> householdKeys == HouseholdDetailKeys(db)
    ensures Holds(more, entries + LogFallback(db, source, log, divide))
  {
    more := rows;
    ghost var b, h: seq<Entry> := [], [];
    Regroup(entries, [], []);
    if source != Household {
      more := AddBinLog(db, log, binKeys, divide, more, entries);
      b := BinFallback(db, log, divide);
    }
    Regroup(entries + b, [], []);
    if source != Bin {
      more := AddHouseholdLog(db, log, householdKeys, divide, more, entries + b);
      h := HouseholdFallback(db, log, divide);
    }
    Regroup(entries, b, h);
  }

  method AddLogs(db: Db, source: Source, binKeys: set<Key>, householdKeys: set<Key>, divide: Division,
                 rows: map<FullKey, real>, ghost entries: seq<Entry>)
    returns (more: map<FullKey, real>)
    requires Holds(rows, entries)
    requires source != Household ==> binKeys == BinDetailKeys(db)
    requires source != Bin ==> householdKeys == HouseholdDetailKeys(db)
    ensures Holds(more, entries + Flat(Fallback(db, source, divide)))
  {
    more := rows;
    ghost var parts := Fallback(db, source, divide);
    Regroup(entries, [], []);
    for i := 0 to |db.logs|
      invariant Holds(more, entries + Flat(parts[..i]))
    {
      FlatGrows(parts, i);
      more := AddLog(db, source, db.logs[i], binKeys, householdKeys, divide, more, entries + Flat(parts[..i]));
      Regroup(entries, Flat(parts[..i]), parts[i]);
    }
    assert parts[..|parts|] == parts;
  }

  /** The weight of each key of the report is the sum of what was recorded for it. */
  method BulkWasteTypeRows(db: Db, source: Source, divide: Division) returns (rows: map<FullKey, real>)
    ensures Holds(rows, Recorded(db, source, divide))
  {
    rows := map[];
    var binKeys, householdKeys: set<Key> := {}, {};
    ghost var b, h: seq<Entry> := [], [];
    if source != Household {
      rows, binKeys := AddBins(db);
      b := Flat(BinDetail(db));
    }
    Regroup(b, [], []);
    if source != Bin {
      rows, householdKeys := AddHouseholds(db, rows, b);
      h := Flat(HouseholdDetail(db));
    }
    rows := AddLogs(db, source, binKeys, householdKeys, divide, rows, b + h);
  }

  method BreakdownForAssignments(db: Db) returns (totals: map<FullKey, real>)
    ensures Holds(totals, Flat(NamedBins(db)) + Flat(NamedHouseholds(db)))
  {
    totals := map[];
    ghost var bins, households := NamedBins(db), NamedHouseholds(db);
    for i := 0 to |db.bins|
      invariant Holds(totals, Flat(bins[..i]))
    {
      FlatGrows(bins, i);
      totals := AddEach(totals, NamedBin(db, db.bins[i]), Flat(bins[..i]));
    }
    assert bins[..|bins|] == bins;
    ghost var entries := Flat(bins);
    assert entries + Flat(households[..0]) == entries;
    for i := 0 to |db.households|
      invariant Holds(totals, entries + Flat(households[..i]))
    {
      FlatGrows(households, i);
      totals := AddEach(totals, NamedHousehold(db.households[i]), entries + Flat(households[..i]));
      assert entries + Flat(households[..i]) + households[i] == entries + Flat(households[..i + 1]);
    }
    assert households[..|households|] == households;
  }
}
