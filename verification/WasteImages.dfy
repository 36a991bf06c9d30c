/** Capture photos of a household: the lookup for one customer and date, and the batched
    lookup that reads the table once for many. Times are in microseconds. */
module WasteImages {
  import opened Wrappers

  type Id = string

  const DAY := 86_400_000_000

  /** A row of the captures table; a missing image is "". */
  datatype Capture = Capture(customer: Id, at: Option<int>, image: string, deleted: bool, wasteType: Id, weight: int)

  datatype Image = Image(image: string, wasteType: Id, weight: int)

  /** A customer, possibly blank, and a collection date, possibly missing. */
  type Pair = (Id, Option<int>)

  predicate Visible(c: Capture) {
    !c.deleted && c.image != ""
  }

  function ImageOf(c: Capture): Image {
    Image(c.image, c.wasteType, c.weight)
  }

  /** One day either side of the collection date. */
  function WindowStart(day: int): int {
    day * DAY - DAY
  }

  function WindowEnd(day: int): int {
    day * DAY + DAY - 1 + DAY
  }

  predicate Within(c: Capture, date: Option<int>) {
    date.Some? ==> c.at.Some? && WindowStart(date.value) <= c.at.value <= WindowEnd(date.value)
  }

  predicate Matches(c: Capture, customer: Id, date: Option<int>) {
    Visible(c) && c.customer == customer && Within(c, date)
  }

  /** The images of the matching rows, in the order of the table. */
  function ImagesFor(table: seq<Capture>, customer: Id, date: Option<int>): seq<Image> {
    if table == [] then []
    else
      ImagesFor(table[..|table| - 1], customer, date)
      + if Matches(table[|table| - 1], customer, date) then [ImageOf(table[|table| - 1])] else []
  }

  lemma OneMoreRow(table: seq<Capture>, i: nat, customer: Id, date: Option<int>)
    requires i < |table|
    ensures ImagesFor(table[..i + 1], customer, date)
      == ImagesFor(table[..i], customer, date) + if Matches(table[i], customer, date) then [ImageOf(table[i])] else []
  {
    assert table[..i + 1][..i] == table[..i];
  }

  method CaptureImagesForCustomer(table: seq<Capture>, customer: Id, date: Option<int>) returns (images: seq<Image>)
    ensures images == ImagesFor(table, customer, date)
  {
    images := [];
    for i := 0 to |table|
      invariant images == ImagesFor(table[..i], customer, date)
    {
      OneMoreRow(table, i, customer, date);
      var c := table[i];
      if Visible(c) && c.customer == customer && (date.None? || Within(c, date)) {
        images := images + [ImageOf(c)];
      }
    }
    assert table[..|table|] == table;
  }

  // ------------------------------------------------------------------ batched

  /** The rows of one customer among those read, in order. */
  function RowsOf(rows: seq<Capture>, customer: Id): seq<Capture> {
    if rows == [] then []
    else RowsOf(rows[..|rows| - 1], customer) + if rows[|rows| - 1].customer == customer then [rows[|rows| - 1]] else []
  }

  /** What the one query reads: visible rows of the customers asked for, inside the
      overall window when there is one. */
  predicate Read(c: Capture, customers: set<Id>, overall: Option<(int, int)>) {
    && Visible(c) && c.customer in customers
    && (overall.Some? ==> c.at.Some? && overall.value.0 <= c.at.value <= overall.value.1)
  }

  function Rows(table: seq<Capture>, customers: set<Id>, overall: Option<(int, int)>): seq<Capture> {
    if table == [] then []
    else
      Rows(table[..|table| - 1], customers, overall)
      + if Read(table[|table| - 1], customers, overall) then [table[|table| - 1]] else []
  }

  lemma {:induction false} RowsOfBoth(first: seq<Capture>, second: seq<Capture>, customer: Id)
    ensures RowsOf(first + second, customer) == RowsOf(first, customer) + RowsOf(second, customer)
  {
    if second == [] {
      assert first + second == first;
    } else {
      assert (first + second)[..|first + second| - 1] == first + second[..|second| - 1];
      RowsOfBoth(first, second[..|second| - 1], customer);
    }
  }

  lemma {:induction false} ImagesForBoth(first: seq<Capture>, second: seq<Capture>, customer: Id, date: Option<int>)
    ensures ImagesFor(first + second, customer, date) == ImagesFor(first, customer, date) + ImagesFor(second, customer, date)
  {
    if second == [] {
      assert first + second == first;
    } else {
      assert (first + second)[..|first + second| - 1] == first + second[..|second| - 1];
      ImagesForBoth(first, second[..|second| - 1], customer, date);
    }
  }

  /** The overall window covers the window of a date asked for. */
  predicate CoversDate(overall: Option<(int, int)>, date: Option<int>) {
    overall.Some? ==> date.Some? && overall.value.0 <= WindowStart(date.value) && WindowEnd(date.value) <= overall.value.1
  }

  /** Neither narrowing the read nor splitting it by customer loses or reorders an image. */
  lemma {:induction false} SplittingKeepsImages(table: seq<Capture>, customers: set<Id>,
                                                overall: Option<(int, int)>, customer: Id, date: Option<int>)
    requires customer in customers && CoversDate(overall, date)
    ensures ImagesFor(RowsOf(Rows(table, customers, overall), customer), customer, date) == ImagesFor(table, customer, date)
  {
    if table != [] {
      var n := |table| - 1;
      SplittingKeepsImages(table[..n], customers, overall, customer, date);
      var before, c := Rows(table[..n], customers, overall), table[n];
      var more := if Read(c, customers, overall) then [c] else [];
      RowsOfBoth(before, more, customer);
      ImagesForBoth(RowsOf(before, customer), RowsOf(more, customer), customer, date);
      LastRow(c, customers, overall, customer, date);
    }
  }

  lemma LastRow(c: Capture, customers: set<Id>, overall: Option<(int, int)>, customer: Id, date: Option<int>)
    requires customer in customers && CoversDate(overall, date)
    ensures var more := if Read(c, customers, overall) then [c] else [];
      ImagesFor(RowsOf(more, customer), customer, date) == if Matches(c, customer, date) then [ImageOf(c)] else []
  {
    OneRow(c, customer, date);
    if Matches(c, customer, date) {
      assert Read(c, customers, overall);
    }
  }

  lemma OneRow(c: Capture, customer: Id, date: Option<int>)
    ensures RowsOf([c], customer) == if c.customer == customer then [c] else []
    ensures ImagesFor([c], customer, date) == if Matches(c, customer, date) then [ImageOf(c)] else []
  {
    assert [c][..0] == [];
  }

  /** What the lookup shows of one row: its image, type and weight, when the row is live,
      has an image, is the customer's, and was taken from the start of the day before the
      collection date to the end of the day after. */
  lemma ShownExactly(c: Capture, customer: Id, date: Option<int>)
    ensures var inWindow := date.None?
        || (c.at.Some? && (date.value - 1) * 86_400_000_000 <= c.at.value < (date.value + 2) * 86_400_000_000);
      ImagesFor([c], customer, date) ==
        if !c.deleted && c.image != "" && c.customer == customer && inWindow then [Image(c.image, c.wasteType, c.weight)] else []
  {
    OneRow(c, customer, date);
  }

  ghost predicate Grouped(byCustomer: map<Id, seq<Capture>>, rows: seq<Capture>) {
    forall c :: (if c in byCustomer then byCustomer[c] else []) == RowsOf(rows, c)
  }

  /** `setdefault(customer, []).append(row)`. */
  function AddRow(byCustomer: map<Id, seq<Capture>>, row: Capture): map<Id, seq<Capture>> {
    byCustomer[row.customer := (if row.customer in byCustomer then byCustomer[row.customer] else []) + [row]]
  }

  lemma AddRowKeepsGrouped(byCustomer: map<Id, seq<Capture>>, rows: seq<Capture>, row: Capture)
    requires Grouped(byCustomer, rows)
    ensures Grouped(AddRow(byCustomer, row), rows + [row])
  {
    forall c ensures RowsOf(rows + [row], c) == RowsOf(rows, c) + if row.customer == c then [row] else [] {
      assert (rows + [row])[..|rows|] == rows;
    }
  }

  /** The overall window of dates that are all given. */
  method OverallWindow(pairs: set<Pair>) returns (overall: Option<(int, int)>)
    requires pairs != {}
    ensures forall p :: p in pairs ==> CoversDate(overall, p.1)
    ensures overall.Some? <==> forall p :: p in pairs ==> p.1.Some?
  {
    var todo := pairs;
    var low, high, started := 0, 0, false;
    while todo != {}
      invariant todo <= pairs && (started <==> todo != pairs)
      invariant forall p :: p in pairs - todo ==> p.1.Some? && low <= WindowStart(p.1.value) && WindowEnd(p.1.value) <= high
      decreases todo
    {
      var p :| p in todo;
      if p.1.None? {
        return None;
      }
      todo := todo - {p};
      var start, end := WindowStart(p.1.value), WindowEnd(p.1.value);
      low := if started && low <= start then low else start;
      high := if started && high >= end then high else end;
      started := true;
    }
    return Some((low, high));
  }

  lemma OneMoreRead(table: seq<Capture>, i: nat, customers: set<Id>, overall: Option<(int, int)>)
    requires i < |table|
    ensures Rows(table[..i + 1], customers, overall)
      == if Read(table[i], customers, overall) then Rows(table[..i], customers, overall) + [table[i]] else Rows(table[..i], customers, overall)
  {
    assert table[..i + 1][..i] == table[..i];
  }

  method ReadRows(table: seq<Capture>, customers: set<Id>, overall: Option<(int, int)>)
    returns (byCustomer: map<Id, seq<Capture>>)
    ensures Grouped(byCustomer, Rows(table, customers, overall))
  {
    byCustomer := map[];
    ghost var rows: seq<Capture> := [];
    for i := 0 to |table|
      invariant rows == Rows(table[..i], customers, overall) && Grouped(byCustomer, rows)
    {
      OneMoreRead(table, i, customers, overall);
      if Read(table[i], customers, overall) {
        AddRowKeepsGrouped(byCustomer, rows, table[i]);
        byCustomer, rows := AddRow(byCustomer, table[i]), rows + [table[i]];
      }
    }
    assert table[..|table|] == table;
  }

  lemma {:induction false} RowsAreVisible(table: seq<Capture>, customers: set<Id>, overall: Option<(int, int)>,
                                          customer: Id)
    ensures forall i :: 0 <= i < |RowsOf(Rows(table, customers, overall), customer)| ==>
      var c := RowsOf(Rows(table, customers, overall), customer)[i]; Visible(c) && c.customer == customer
  {
    if table != [] {
      var n := |table| - 1;
      RowsAreVisible(table[..n], customers, overall, customer);
      var more := if Read(table[n], customers, overall) then [table[n]] else [];
      RowsOfBoth(Rows(table[..n], customers, overall), more, customer);
      assert [table[n]][..0] == [];
    }
  }

  method PickImages(rows: seq<Capture>, customer: Id, date: Option<int>) returns (images: seq<Image>)
    requires forall i :: 0 <= i < |rows| ==> Visible(rows[i]) && rows[i].customer == customer
    ensures images == ImagesFor(rows, customer, date)
  {
    images := [];
    for i := 0 to |rows|
      invariant images == ImagesFor(rows[..i], customer, date)
    {
      OneMoreRow(rows, i, customer, date);
      if date.Some? && !Within(rows[i], date) {
        continue;
      }
      images := images + [ImageOf(rows[i])];
    }
    assert rows[..|rows|] == rows;
  }

  /** Every pair with a customer is answered exactly as the lookup for one would. */
  method CaptureImagesForCustomers(table: seq<Capture>, asked: set<Pair>) returns (result: map<Pair, seq<Image>>)
    ensures forall p :: p in result <==> p in asked && p.0 != ""
    ensures forall p :: p in result ==> result[p] == ImagesFor(table, p.0, p.1)
  {
    var pairs := set p | p in asked && p.0 != "";
    result := map[];
    if pairs == {} {
      assert forall p :: p in asked && p.0 != "" ==> p in pairs;
      return;
    }
    var customers := set p | p in pairs :: p.0;
    var overall := OverallWindow(pairs);
    var byCustomer := ReadRows(table, customers, overall);
    var todo := pairs;
    while todo != {}
      invariant todo <= pairs
      invariant forall p :: p in result <==> p in pairs - todo
      invariant forall p :: p in result ==> result[p] == ImagesFor(table, p.0, p.1)
      decreases todo
    {
      var p :| p in todo;
      todo := todo - {p};
      RowsAreVisible(table, customers, overall, p.0);
      SplittingKeepsImages(table, customers, overall, p.0, p.1);
      var images := PickImages(if p.0 in byCustomer then byCustomer[p.0] else [], p.0, p.1);
      result := result[p := images];
    }
  }
}
