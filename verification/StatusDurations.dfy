/** Time a complaint ticket spent in each status, in whole seconds per visit. Times are
    in microseconds. */
module StatusDurations {
  import opened Wrappers

  type Id = string

  const SECOND := 1_000_000

  /** A change of status; a history lists them in order of time. */
  datatype Change = Change(status: Id, at: int)

  /** Codes of the known statuses. */
  type Statuses = map<Id, string>

  const FINISHED: set<string> := {"RESOLVED", "CLOSED", "REJECTED", "CANCELLED"}

  datatype Total = Total(status: Id, code: Option<string>, seconds: nat, timesEntered: nat)

  function CodeOf(statuses: Statuses, status: Id): Option<string> {
    if status in statuses then Some(statuses[status]) else None
  }

  predicate Sorted(rows: seq<Change>) {
    forall i, j :: 0 <= i < j < |rows| ==> rows[i].at <= rows[j].at
  }

  /** Whole seconds from `start` to `end`, none when they are out of order. */
  function Seconds(start: int, end: int): nat {
    if end <= start then 0 else (end - start) / SECOND
  }

  /** The last status counts until now unless it ends the ticket. */
  predicate LastCounts(rows: seq<Change>, statuses: Statuses, deleted: bool) {
    && rows != [] && !deleted
    && var code := CodeOf(statuses, rows[|rows| - 1].status); code.None? || code.value !in FINISHED
  }

  function Counted(rows: seq<Change>, statuses: Statuses, deleted: bool): nat {
    if rows == [] || LastCounts(rows, statuses, deleted) then |rows| else |rows| - 1
  }

  function EndOf(rows: seq<Change>, now: int, i: nat): int {
    if i + 1 < |rows| then rows[i + 1].at else now
  }

  /** Seconds of the first `n` intervals spent in one status, and times it was entered. */
  function Spent(rows: seq<Change>, now: int, n: nat, status: Id): nat
    requires n <= |rows|
  {
    if n == 0 then 0
    else Spent(rows, now, n - 1, status) + if rows[n - 1].status == status then Seconds(rows[n - 1].at, EndOf(rows, now, n - 1)) else 0
  }

  function Entered(rows: seq<Change>, n: nat, status: Id): nat
    requires n <= |rows|
  {
    if n == 0 then 0 else Entered(rows, n - 1, status) + if rows[n - 1].status == status then 1 else 0
  }

  /** Seconds of the first `n` intervals in whatever status. */
  function Whole(rows: seq<Change>, now: int, n: nat): nat
    requires n <= |rows|
  {
    if n == 0 then 0 else Whole(rows, now, n - 1) + Seconds(rows[n - 1].at, EndOf(rows, now, n - 1))
  }

  /** The statuses of the first `n` changes, each where it first occurs. */
  function FirstEntries(rows: seq<Change>, n: nat): seq<Id>
    requires n <= |rows|
  {
    if n == 0 then []
    else
      var before := FirstEntries(rows, n - 1);
      if rows[n - 1].status in before then before else before + [rows[n - 1].status]
  }

  /** Index of the first change into a status, the length of the history if none. */
  function FirstAt(rows: seq<Change>, status: Id): nat {
    if rows == [] || rows[0].status == status then 0 else 1 + FirstAt(rows[1..], status)
  }

  lemma {:induction false} FirstAtIsFirst(rows: seq<Change>, status: Id)
    ensures FirstAt(rows, status) <= |rows|
    ensures FirstAt(rows, status) < |rows| ==> rows[FirstAt(rows, status)].status == status
    ensures forall k :: 0 <= k < FirstAt(rows, status) ==> rows[k].status != status
  {
    if rows != [] && rows[0].status != status {
      FirstAtIsFirst(rows[1..], status);
      assert forall k :: 1 <= k < |rows| ==> rows[k] == rows[1..][k - 1];
    }
  }

  /** Each status entered is listed once, and before those first entered later. */
  lemma {:induction false} ListedByFirstEntry(rows: seq<Change>, n: nat)
    requires n <= |rows|
    ensures var order := FirstEntries(rows, n);
      && (forall i, j :: 0 <= i < j < |order| ==> order[i] != order[j] && FirstAt(rows, order[i]) < FirstAt(rows, order[j]))
      && (forall i :: 0 <= i < |order| ==> FirstAt(rows, order[i]) < n)
      && (forall k :: 0 <= k < n ==> rows[k].status in order)
  {
    if n > 0 {
      ListedByFirstEntry(rows, n - 1);
      var before, status := FirstEntries(rows, n - 1), rows[n - 1].status;
      FirstAtIsFirst(rows, status);
      assert status !in before ==> FirstAt(rows, status) == n - 1;
    }
  }

  function SumSpent(rows: seq<Change>, now: int, n: nat, order: seq<Id>): nat
    requires n <= |rows|
  {
    if order == [] then 0 else SumSpent(rows, now, n, order[..|order| - 1]) + Spent(rows, now, n, order[|order| - 1])
  }

  function SumEntered(rows: seq<Change>, n: nat, order: seq<Id>): nat
    requires n <= |rows|
  {
    if order == [] then 0 else SumEntered(rows, n, order[..|order| - 1]) + Entered(rows, n, order[|order| - 1])
  }

  function TotalSeconds(totals: seq<Total>): nat {
    if totals == [] then 0 else TotalSeconds(totals[..|totals| - 1]) + totals[|totals| - 1].seconds
  }

  function TotalEntries(totals: seq<Total>): nat {
    if totals == [] then 0 else TotalEntries(totals[..|totals| - 1]) + totals[|totals| - 1].timesEntered
  }

  /** One more interval adds to the one status it was spent in. */
  lemma {:induction false} OneMoreInterval(rows: seq<Change>, now: int, n: nat, order: seq<Id>)
    requires 0 < n <= |rows|
    requires forall i, j :: 0 <= i < j < |order| ==> order[i] != order[j]
    ensures SumSpent(rows, now, n, order) == SumSpent(rows, now, n - 1, order)
      + if rows[n - 1].status in order then Seconds(rows[n - 1].at, EndOf(rows, now, n - 1)) else 0
    ensures SumEntered(rows, n, order) == SumEntered(rows, n - 1, order) + if rows[n - 1].status in order then 1 else 0
    decreases |order|
  {
    if order != [] {
      var last := |order| - 1;
      OneMoreInterval(rows, now, n, order[..last]);
      assert order == order[..last] + [order[last]];
      assert forall i :: 0 <= i < last ==> order[i] != order[last];
    }
  }

  /** One more visit adds its whole seconds, up to the next change or now, to the status
      entered, and to no other. */
  lemma VisitCounts(rows: seq<Change>, now: int, n: nat, status: Id)
    requires n < |rows|
    ensures var end := if n + 1 < |rows| then rows[n + 1].at else now;
      var stay := Spent(rows, now, n + 1, status) - Spent(rows, now, n, status);
      && (rows[n].status != status ==> stay == 0)
      && (rows[n].status == status && rows[n].at <= end ==> stay * 1_000_000 <= end - rows[n].at < (stay + 1) * 1_000_000)
      && (rows[n].status == status && rows[n].at > end ==> stay == 0)
      && Entered(rows, n + 1, status) - Entered(rows, n, status) == if rows[n].status == status then 1 else 0
  {
  }

  /** The visit that a report leaves out: the last one of a deleted ticket, or into a
      status that ends it. */
  lemma LeftOutExactly(rows: seq<Change>, statuses: Statuses, deleted: bool)
    requires rows != []
    ensures var last := rows[|rows| - 1].status;
      var ends := last in statuses && statuses[last] in {"RESOLVED", "CLOSED", "REJECTED", "CANCELLED"};
      Counted(rows, statuses, deleted) == if deleted || ends then |rows| - 1 else |rows|
  {
  }

  lemma {:induction false} NothingInUnentered(rows: seq<Change>, now: int, n: nat, status: Id)
    requires n <= |rows| && forall k :: 0 <= k < n ==> rows[k].status != status
    ensures Spent(rows, now, n, status) == 0 && Entered(rows, n, status) == 0
  {
    if n > 0 {
      NothingInUnentered(rows, now, n - 1, status);
    }
  }

  /** Listed over the statuses entered, the seconds and entries are those of all
      intervals. */
  lemma {:induction false} GroupingLosesNothing(rows: seq<Change>, now: int, n: nat, order: seq<Id>)
    requires n <= |rows|
    requires forall i, j :: 0 <= i < j < |order| ==> order[i] != order[j]
    requires forall k :: 0 <= k < n ==> rows[k].status in order
    ensures SumSpent(rows, now, n, order) == Whole(rows, now, n)
    ensures SumEntered(rows, n, order) == n
    decreases n
  {
    if n == 0 {
      NoIntervals(rows, now, order);
    } else {
      GroupingLosesNothing(rows, now, n - 1, order);
      OneMoreInterval(rows, now, n, order);
    }
  }

  lemma {:induction false} NoIntervals(rows: seq<Change>, now: int, order: seq<Id>)
    ensures SumSpent(rows, now, 0, order) == 0 && SumEntered(rows, 0, order) == 0
  {
    if order != [] {
      NoIntervals(rows, now, order[..|order| - 1]);
    }
  }

  /** The intervals follow on from each other, and each loses less than a second. */
  lemma {:induction false} Telescopes(rows: seq<Change>, now: int, n: nat)
    requires 0 < n <= |rows| && Sorted(rows) && rows[|rows| - 1].at <= now
    ensures var span := EndOf(rows, now, n - 1) - rows[0].at; span - n * SECOND < Whole(rows, now, n) * SECOND <= span
  {
    OneSecondLost(rows[n - 1].at, EndOf(rows, now, n - 1));
    if n > 1 {
      Telescopes(rows, now, n - 1);
    }
  }

  lemma OneSecondLost(start: int, end: int)
    requires start <= end
    ensures end - start - SECOND < Seconds(start, end) * SECOND <= end - start
  {
  }

  /** What a report over the first `n` intervals says. */
  ghost predicate Reports(rows: seq<Change>, statuses: Statuses, now: int, n: nat, report: seq<Total>)
    requires n <= |rows|
  {
    && StatusesOf(report) == FirstEntries(rows, n)
    && forall i :: 0 <= i < |report| ==> report[i] == TotalFor(rows, statuses, now, n, report[i].status)
  }

  function TotalFor(rows: seq<Change>, statuses: Statuses, now: int, n: nat, status: Id): Total
    requires n <= |rows|
  {
    Total(status, CodeOf(statuses, status), Spent(rows, now, n, status), Entered(rows, n, status))
  }

  function StatusesOf(totals: seq<Total>): seq<Id> {
    seq(|totals|, i requires 0 <= i < |totals| => totals[i].status)
  }

  lemma {:induction false} TotalsAreSums(rows: seq<Change>, statuses: Statuses, now: int, n: nat, totals: seq<Total>)
    requires n <= |rows|
    requires forall i :: 0 <= i < |totals| ==> totals[i] == TotalFor(rows, statuses, now, n, totals[i].status)
    ensures TotalSeconds(totals) == SumSpent(rows, now, n, StatusesOf(totals))
    ensures TotalEntries(totals) == SumEntered(rows, n, StatusesOf(totals))
    decreases |totals|
  {
    if totals != [] {
      var last := |totals| - 1;
      TotalsAreSums(rows, statuses, now, n, totals[..last]);
      assert StatusesOf(totals)[..last] == StatusesOf(totals[..last]);
    }
  }

  /** The reported seconds add up to the span from the first change to the last counted
      end, less under a second for each counted interval, and every one is an entry. */
  lemma ReportedTimeTelescopes(rows: seq<Change>, statuses: Statuses, deleted: bool, now: int, report: seq<Total>)
    requires Sorted(rows) && (rows != [] ==> rows[|rows| - 1].at <= now)
    requires Reports(rows, statuses, now, Counted(rows, statuses, deleted), report)
    ensures var n := Counted(rows, statuses, deleted);
      && TotalEntries(report) == n
      && (n == 0 ==> report == [])
      && (n > 0 ==>
        var span := EndOf(rows, now, n - 1) - rows[0].at; span - n * SECOND < TotalSeconds(report) * SECOND <= span)
  {
    var n := Counted(rows, statuses, deleted);
    TotalsAreSums(rows, statuses, now, n, report);
    ListedByFirstEntry(rows, n);
    GroupingLosesNothing(rows, now, n, StatusesOf(report));
    assert n == 0 ==> |StatusesOf(report)| == 0;
    if n > 0 {
      Telescopes(rows, now, n);
    }
  }

  /** A row of the report carries the status's code, if it is known, and what was counted
      for it. */
  lemma ReportedRow(rows: seq<Change>, statuses: Statuses, now: int, n: nat, report: seq<Total>, i: nat)
    requires n <= |rows| && Reports(rows, statuses, now, n, report) && i < |report|
    ensures var row := report[i];
      && row.code == (if row.status in statuses then Some(statuses[row.status]) else None)
      && row.seconds == Spent(rows, now, n, row.status) && row.timesEntered == Entered(rows, n, row.status) > 0
  {
    assert StatusesOf(report)[i] == report[i].status;
    ListedAreEntered(rows, n, report[i].status);
  }

  lemma {:induction false} ListedAreEntered(rows: seq<Change>, n: nat, status: Id)
    requires n <= |rows| && status in FirstEntries(rows, n)
    ensures Entered(rows, n, status) > 0
  {
    if n > 0 && rows[n - 1].status != status {
      ListedAreEntered(rows, n - 1, status);
    }
  }

  /** After `n` intervals the totals and their order are those of a report. */
  ghost predicate Filled(rows: seq<Change>, statuses: Statuses, now: int, n: nat, totals: map<Id, Total>, order: seq<Id>)
    requires n <= |rows|
  {
    && order == FirstEntries(rows, n)
    && (forall s :: s in totals <==> s in order)
    && forall s :: s in totals ==> totals[s] == TotalFor(rows, statuses, now, n, s)
  }

  method AddVisit(rows: seq<Change>, statuses: Statuses, now: int, index: nat, totals: map<Id, Total>, order: seq<Id>)
    returns (newTotals: map<Id, Total>, newOrder: seq<Id>)
    requires index < |rows| && Filled(rows, statuses, now, index, totals, order)
    ensures Filled(rows, statuses, now, index + 1, newTotals, newOrder)
  {
    var row := rows[index];
    var end := if index + 1 < |rows| then rows[index + 1].at else now;
    newTotals, newOrder := totals, order;
    if row.status !in totals {
      ListedByFirstEntry(rows, index);
      NothingInUnentered(rows, now, index, row.status);
      newOrder := order + [row.status];
      newTotals := totals[row.status := Total(row.status, CodeOf(statuses, row.status), 0, 0)];
    }
    var total := newTotals[row.status];
    newTotals := newTotals[row.status :=
      total.(seconds := total.seconds + Seconds(row.at, end), timesEntered := total.timesEntered + 1)];
  }

  /** Totals by status and the order of first entry, filled in one pass; a last status
      that ends the ticket is passed over. */
  method ReportDurations(rows: seq<Change>, statuses: Statuses, deleted: bool, now: int) returns (report: seq<Total>)
    ensures Reports(rows, statuses, now, Counted(rows, statuses, deleted), report)
  {
    var totals: map<Id, Total> := map[];
    var order: seq<Id> := [];
    ghost var n := Counted(rows, statuses, deleted);
    for index := 0 to |rows|
      invariant Filled(rows, statuses, now, if index <= n then index else n, totals, order)
    {
      var code := CodeOf(statuses, rows[index].status);
      if index + 1 == |rows| && (deleted || (code.Some? && code.value in FINISHED)) {
        continue;
      }
      totals, order := AddVisit(rows, statuses, now, index, totals, order);
    }
    assert forall i :: 0 <= i < |order| ==> order[i] in totals;
    report := seq(|order|, i requires 0 <= i < |order| && order[i] in totals => totals[order[i]]);
    assert StatusesOf(report) == order;
  }
}
