/** Scope completion, resolution of a role's head in an area, and the cycle
    check that guards every save of a staff-hierarchy row. */
module StaffHierarchy {
  import opened Wrappers

  /** The scope columns, broadest first. */
  datatype Field =
    | Country | State | District | AreaType
    | Corporation | Municipality | TownPanchayat | PanchayatUnion | Panchayat

  type Id = string
  type Role = string
  type Geo = map<Field, Id>

  /** A hierarchy row: staff of `role` report to `reportsTo` inside the scope
      columns; a blank column holds "". */
  datatype Row = Row(role: Role, reportsTo: Option<Role>, columns: Geo, level: nat, escalates: bool) {
    function Scope(): Geo {
      NonBlank(columns)
    }
  }

  /** Location masters: the parent columns that each (level, id) record carries. */
  type Masters = map<(Field, Id), Geo>

  const SCOPE_FIELDS: seq<Field> :=
    [Country, State, District, AreaType, Corporation, Municipality, TownPanchayat, PanchayatUnion, Panchayat]

  function Depth(f: Field): nat {
    match f
    case Country => 1
    case State => 2
    case District => 3
    case AreaType => 4
    case _ => 5
  }

  function ParentFields(f: Field): seq<Field> {
    match f
    case Country => []
    case State => [Country]
    case District => [Country, State]
    case AreaType => [State, District]
    case _ => [State, District, AreaType]
  }

  function NonBlank(geo: Geo): Geo {
    map f | f in geo && geo[f] != "" :: geo[f]
  }

  /** A blank column sets no level. */
  lemma BlankSetsNothing(row: Row, f: Field, v: Id)
    requires f !in row.columns
    ensures row.(columns := row.columns[f := v]).Scope() == if v == "" then row.Scope() else row.Scope()[f := v]
  {
  }

  // ---------------------------------------------------------------- covers

  predicate Covers(scope: Geo, geo: Geo) {
    forall f :: f in scope ==> f in geo && geo[f] == scope[f]
  }

  /** Depth of the deepest column a scope sets, 0 for the unscoped default. */
  function Specificity(scope: Geo): (s: nat)
    ensures forall f :: f in scope ==> Depth(f) <= s
    ensures if scope == map[] then s == 0 else exists f :: f in scope && Depth(f) == s
  {
    if exists f :: f in scope && Depth(f) == 5 then 5
    else if AreaType in scope then 4
    else if District in scope then 3
    else if State in scope then 2
    else if Country in scope then 1
    else
      assert forall f :: f in scope ==> Depth(f) == 5 || f == AreaType || f == District || f == State || f == Country;
      0
  }

  predicate Outranks(a: Geo, b: Geo) {
    Specificity(a) > Specificity(b) || (Specificity(a) == Specificity(b) && |a| > |b|)
  }

  // ------------------------------------------------------------ completion

  function FillParents(record: Geo, geo: Geo, parents: seq<Field>): Geo {
    if parents == [] then geo
    else
      var before := FillParents(record, geo, parents[..|parents| - 1]);
      var parent := parents[|parents| - 1];
      if parent in record && record[parent] != "" && parent !in before
      then before[parent := record[parent]]
      else before
  }

  function FillField(m: Masters, geo: Geo, f: Field): Geo {
    if f in geo && (f, geo[f]) in m then FillParents(m[(f, geo[f])], geo, ParentFields(f)) else geo
  }

  /** The geo after the parents of `SCOPE_FIELDS[k..]` were filled in, narrowest first. */
  function FillDown(m: Masters, geo: Geo, k: nat): Geo
    requires k <= |SCOPE_FIELDS|
    decreases |SCOPE_FIELDS| - k
  {
    if k == |SCOPE_FIELDS| then NonBlank(geo)
    else FillField(m, FillDown(m, geo, k + 1), SCOPE_FIELDS[k])
  }

  function Complete(m: Masters, geo: Geo): Geo {
    FillDown(m, geo, 0)
  }

  method CompleteGeo(m: Masters, geo: Geo) returns (r: Geo)
    ensures r == Complete(m, geo)
  {
    r := NonBlank(geo);
    var k := |SCOPE_FIELDS|;
    while k > 0
      invariant 0 <= k <= |SCOPE_FIELDS|
      invariant r == FillDown(m, geo, k)
    {
      k := k - 1;
      var f := SCOPE_FIELDS[k];
      if f in r && (f, r[f]) in m {
        var record, parents := m[(f, r[f])], ParentFields(f);
        ghost var before := r;
        for i := 0 to |parents|
          invariant r == FillParents(record, before, parents[..i])
        {
          assert parents[..i + 1][..i] == parents[..i];
          if parents[i] in record && record[parents[i]] != "" && parents[i] !in r {
            r := r[parents[i] := record[parents[i]]];
          }
        }
        assert parents[..|parents|] == parents;
      }
    }
  }

  predicate SingleLocalBody(geo: Geo) {
    forall f, g :: f in geo && g in geo && Depth(f) == 5 && Depth(g) == 5 ==> f == g
  }

  /** Every level that is set has all its parent levels set as well. */
  predicate Closed(geo: Geo) {
    forall f, p :: f in geo && p in ParentFields(f) ==> p in geo
  }

  predicate WellFormed(geo: Geo) {
    Closed(geo) && SingleLocalBody(geo)
  }

  /** Every master record names all of its parents, and those exist. */
  predicate Intact(m: Masters) {
    forall k, p :: k in m && p in ParentFields(k.0) ==>
      p in m[k] && m[k][p] != "" && (ParentFields(p) != [] ==> (p, m[k][p]) in m)
  }

  predicate Resolvable(m: Masters, geo: Geo) {
    forall f :: f in geo && ParentFields(f) != [] ==> (f, geo[f]) in m
  }

  lemma FillParentsAdds(record: Geo, geo: Geo, parents: seq<Field>)
    ensures var r := FillParents(record, geo, parents);
      && (forall f :: f in geo ==> f in r && r[f] == geo[f])
      && (forall f :: f in r && f !in geo ==> f in parents && f in record && record[f] != "" && r[f] == record[f])
      && (forall f :: f in parents && f in record && record[f] != "" ==> f in r)
  {
    if parents != [] {
      FillParentsAdds(record, geo, parents[..|parents| - 1]);
      assert parents == parents[..|parents| - 1] + [parents[|parents| - 1]];
    }
  }

  /** The master record of `id` at level `f` names `v` as its parent at level `p`. */
  predicate Names(m: Masters, f: Field, id: Id, p: Field, v: Id) {
    p in ParentFields(f) && (f, id) in m && p in m[(f, id)] && m[(f, id)][p] == v && v != ""
  }

  lemma FilledIsNamed(m: Masters, geo: Geo, f: Field, g: Field)
    requires g in FillField(m, geo, f)
    ensures var v := FillField(m, geo, f)[g]; if g in geo then v == geo[g] else f in geo && Names(m, f, geo[f], g, v)
  {
    if f in geo && (f, geo[f]) in m {
      FillParentsAdds(m[(f, geo[f])], geo, ParentFields(f));
    }
  }

  lemma NamedParent(m: Masters, f: Field, id: Id, p: Field, v: Id)
    requires Names(m, f, id, p, v)
    ensures Depth(p) < Depth(f) && v != ""
    ensures Intact(m) && ParentFields(p) != [] ==> (p, v) in m
  {
    assert p in ParentFields((f, id).0);
  }

  lemma FillFieldGrows(m: Masters, geo: Geo, f: Field)
    ensures Covers(geo, FillField(m, geo, f))
    ensures forall p, v :: f in geo && Names(m, f, geo[f], p, v) ==> p in FillField(m, geo, f)
  {
    if f in geo && (f, geo[f]) in m {
      FillParentsAdds(m[(f, geo[f])], geo, ParentFields(f));
    }
  }

  lemma FillFieldCloses(m: Masters, geo: Geo, f: Field)
    requires Intact(m) && Resolvable(m, geo) && SingleLocalBody(geo) && NonBlank(geo) == geo
    ensures var r := FillField(m, geo, f);
      && Resolvable(m, r) && SingleLocalBody(r) && NonBlank(r) == r && Covers(geo, r)
      && (f in r ==> forall p :: p in ParentFields(f) ==> p in r)
      && (forall g :: g in r && g !in geo ==> Depth(g) < Depth(f))
  {
    var r := FillField(m, geo, f);
    FillFieldGrows(m, geo, f);
    forall g | g in r
      ensures g !in geo ==> Depth(g) < Depth(f)
      ensures r[g] != "" && (ParentFields(g) != [] ==> (g, r[g]) in m)
    {
      FilledIsNamed(m, geo, f, g);
      if g !in geo {
        NamedParent(m, f, geo[f], g, r[g]);
      } else {
        assert g in NonBlank(geo);
      }
    }
    if f in geo && ParentFields(f) != [] {
      AllNamed(m, f, geo[f]);
    }
  }

  lemma AllNamed(m: Masters, f: Field, id: Id)
    requires Intact(m) && (f, id) in m
    ensures forall p :: p in ParentFields(f) ==> Names(m, f, id, p, m[(f, id)][p])
  {
    assert forall p :: p in ParentFields(f) ==> p in ParentFields((f, id).0);
  }

  lemma FieldsDeepen(i: nat, j: nat)
    requires i <= j < |SCOPE_FIELDS|
    ensures Depth(SCOPE_FIELDS[i]) <= Depth(SCOPE_FIELDS[j])
  {
  }

  /** The fields from index `k` on that are set have their parents set. */
  predicate ParentsFrom(geo: Geo, k: nat) {
    forall i, p :: k <= i < |SCOPE_FIELDS| && SCOPE_FIELDS[i] in geo && p in ParentFields(SCOPE_FIELDS[i]) ==> p in geo
  }

  /** Geo values the completion may start a field from. */
  predicate Ready(m: Masters, geo: Geo) {
    Resolvable(m, geo) && SingleLocalBody(geo) && NonBlank(geo) == geo
  }

  lemma FillFieldKeepsParents(m: Masters, geo: Geo, k: nat)
    requires k < |SCOPE_FIELDS| && Intact(m) && Ready(m, geo) && ParentsFrom(geo, k + 1)
    ensures ParentsFrom(FillField(m, geo, SCOPE_FIELDS[k]), k)
  {
    var f := SCOPE_FIELDS[k];
    FillFieldCloses(m, geo, f);
    var r := FillField(m, geo, f);
    forall i, p | k <= i < |SCOPE_FIELDS| && SCOPE_FIELDS[i] in r && p in ParentFields(SCOPE_FIELDS[i]) ensures p in r {
      FieldsDeepen(k, i);
    }
  }

  /** Where the completion of `start` stands after the fields from `k` on. */
  ghost predicate Filled(m: Masters, start: Geo, geo: Geo, k: nat) {
    Ready(m, geo) && Covers(start, geo) && ParentsFrom(geo, k)
  }

  lemma FillFieldStep(m: Masters, start: Geo, geo: Geo, k: nat)
    requires k < |SCOPE_FIELDS| && Intact(m) && Filled(m, start, geo, k + 1)
    ensures Filled(m, start, FillField(m, geo, SCOPE_FIELDS[k]), k)
  {
    FillFieldCloses(m, geo, SCOPE_FIELDS[k]);
    FillFieldKeepsParents(m, geo, k);
  }

  lemma {:induction false} FillDownCloses(m: Masters, geo: Geo, k: nat)
    requires k <= |SCOPE_FIELDS| && Intact(m) && Filled(m, NonBlank(geo), NonBlank(geo), |SCOPE_FIELDS|)
    ensures Filled(m, NonBlank(geo), FillDown(m, geo, k), k)
    decreases |SCOPE_FIELDS| - k
  {
    if k < |SCOPE_FIELDS| {
      FillDownCloses(m, geo, k + 1);
      FillFieldStep(m, NonBlank(geo), FillDown(m, geo, k + 1), k);
    }
  }

  /** A saved scope (at most one local body, ids that exist) completes to an
      area with every ancestor set, and keeps what it was given. */
  lemma CompletionIsWellFormed(m: Masters, geo: Geo)
    requires Intact(m) && Resolvable(m, NonBlank(geo)) && SingleLocalBody(NonBlank(geo))
    ensures WellFormed(Complete(m, geo)) && Covers(NonBlank(geo), Complete(m, geo))
  {
    assert NonBlank(NonBlank(geo)) == NonBlank(geo);
    FillDownCloses(m, geo, 0);
    var r := Complete(m, geo);
    forall f, p | f in r && p in ParentFields(f) ensures p in r {
      EveryFieldListed(f);
    }
  }

  /** Wherever a level is set, its parents are set as its master record names them. */
  ghost predicate OnTree(m: Masters, geo: Geo) {
    forall f, p, v :: f in geo && Names(m, f, geo[f], p, v) ==> p in geo && geo[p] == v
  }

  lemma FillFieldStaysOnPath(m: Masters, geo: Geo, f: Field, path: Geo)
    requires OnTree(m, path) && Covers(geo, path)
    ensures Covers(FillField(m, geo, f), path)
  {
    var r := FillField(m, geo, f);
    forall g | g in r ensures g in path && path[g] == r[g] {
      FilledIsNamed(m, geo, f, g);
    }
  }

  lemma {:induction false} FillDownStaysOnPath(m: Masters, geo: Geo, k: nat, path: Geo)
    requires k <= |SCOPE_FIELDS| && OnTree(m, path) && Covers(NonBlank(geo), path)
    ensures Covers(FillDown(m, geo, k), path)
    decreases |SCOPE_FIELDS| - k
  {
    if k < |SCOPE_FIELDS| {
      FillDownStaysOnPath(m, geo, k + 1, path);
      FillFieldStaysOnPath(m, FillDown(m, geo, k + 1), SCOPE_FIELDS[k], path);
    }
  }

  /** Completion writes no value of its own: on whatever path of the masters the given
      levels lie, the completed ones lie too. */
  lemma CompletionStaysOnPath(m: Masters, geo: Geo, path: Geo)
    requires OnTree(m, path) && Covers(NonBlank(geo), path)
    ensures Covers(Complete(m, geo), path)
  {
    FillDownStaysOnPath(m, geo, 0, path);
  }

  /** Every parent level is set, and is the one that the record of `f` names. */
  ghost predicate ParentsNamed(m: Masters, geo: Geo, f: Field) {
    forall p :: f in geo && p in ParentFields(f) ==> p in geo && Names(m, f, geo[f], p, geo[p])
  }

  lemma OnPathOnTree(m: Masters, geo: Geo, path: Geo)
    requires OnTree(m, path) && Covers(geo, path) && Closed(geo)
    ensures OnTree(m, geo)
  {
    forall f, p, v | f in geo && Names(m, f, geo[f], p, v) ensures p in geo && geo[p] == v {
      assert Names(m, f, path[f], p, v);
    }
  }

  lemma IntactNames(m: Masters, geo: Geo, f: Field)
    requires Intact(m) && Resolvable(m, geo) && OnTree(m, geo)
    ensures ParentsNamed(m, geo, f)
  {
    if f in geo {
      forall p | p in ParentFields(f) ensures p in geo && Names(m, f, geo[f], p, geo[p]) {
        assert p in ParentFields((f, geo[f]).0);
        assert Names(m, f, geo[f], p, m[(f, geo[f])][p]);
      }
    }
  }

  lemma CompletionResolves(m: Masters, geo: Geo)
    requires Intact(m) && Resolvable(m, NonBlank(geo)) && SingleLocalBody(NonBlank(geo))
    ensures Resolvable(m, Complete(m, geo))
  {
    assert NonBlank(NonBlank(geo)) == NonBlank(geo);
    FillDownCloses(m, geo, 0);
  }

  /** The levels of a completed scope are those that the master record of every set level
      below names exactly when the levels given lie on one path of the masters. */
  lemma CompletionIsTrueExactly(m: Masters, geo: Geo)
    requires Intact(m) && Resolvable(m, NonBlank(geo)) && SingleLocalBody(NonBlank(geo))
    ensures (forall f :: ParentsNamed(m, Complete(m, geo), f)) <==> exists path :: OnTree(m, path) && Covers(NonBlank(geo), path)
  {
    CompletionIsWellFormed(m, geo);
    CompletionResolves(m, geo);
    var r := Complete(m, geo);
    if path :| OnTree(m, path) && Covers(NonBlank(geo), path) {
      CompletionStaysOnPath(m, geo, path);
      OnPathOnTree(m, r, path);
      forall f ensures ParentsNamed(m, r, f) {
        IntactNames(m, r, f);
      }
    }
    if forall f :: ParentsNamed(m, r, f) {
      forall f, p, v | f in r && Names(m, f, r[f], p, v) ensures p in r && r[p] == v {
        assert ParentsNamed(m, r, f);
      }
      assert OnTree(m, r);
    }
  }

  lemma EveryFieldListed(f: Field)
    ensures exists i :: 0 <= i < |SCOPE_FIELDS| && SCOPE_FIELDS[i] == f
  {
    var i := match f
      case Country => 0
      case State => 1
      case District => 2
      case AreaType => 3
      case Corporation => 4
      case Municipality => 5
      case TownPanchayat => 6
      case PanchayatUnion => 7
      case Panchayat => 8;
    assert SCOPE_FIELDS[i] == f;
  }

  lemma ClosedDownward(geo: Geo, f: Field, p: Field)
    requires Closed(geo) && f in geo && Depth(p) < Depth(f)
    ensures p in geo
  {
    assert Depth(f) > 2 ==> State in ParentFields(f);
    assert Depth(f) > 3 ==> District in ParentFields(f);
    assert Depth(f) > 4 ==> AreaType in ParentFields(f);
    assert Country in ParentFields(State);
  }

  /** Scopes that cover one well-formed area form a chain. */
  lemma ScopesNest(s: Geo, t: Geo, area: Geo)
    requires Closed(s) && Closed(t) && WellFormed(area)
    requires Covers(s, area) && Covers(t, area)
    ensures Covers(s, t) || Covers(t, s)
  {
    if !Covers(s, t) {
      var f :| f in s && f !in t;
      forall g | g in t ensures g in s {
        if Depth(g) > Depth(f) {
          ClosedDownward(t, g, f);
        } else if Depth(g) < Depth(f) {
          ClosedDownward(s, f, g);
        }
      }
    }
  }

  // ------------------------------------------------------------ resolution

  function Better(best: Option<Row>, row: Row, role: Role, geo: Geo): Option<Row> {
    if row.role != role || !Covers(row.Scope(), geo) then best
    else if best.None? || Outranks(row.Scope(), best.value.Scope()) then Some(row)
    else best
  }

  /** The row that decides `role`'s head in area `geo`. */
  function Resolve(rows: seq<Row>, role: Role, geo: Geo): Option<Row> {
    if rows == [] then None
    else Better(Resolve(rows[..|rows| - 1], role, geo), rows[|rows| - 1], role, geo)
  }

  method ResolveEntry(rows: seq<Row>, role: Role, geo: Geo) returns (best: Option<Row>)
    ensures best == Resolve(rows, role, geo)
  {
    best := None;
    for i := 0 to |rows|
      invariant best == Resolve(rows[..i], role, geo)
    {
      var row := rows[i];
      assert rows[..i + 1][..i] == rows[..i];
      if row.role == role && Covers(row.Scope(), geo) {
        if best.None? || Outranks(row.Scope(), best.value.Scope()) {
          best := Some(row);
        }
      }
    }
    assert rows[..|rows|] == rows;
  }

  predicate Candidate(row: Row, role: Role, geo: Geo) {
    row.role == role && Covers(row.Scope(), geo)
  }

  /** The decider is a covering row of the role that no covering row outranks;
      there is none only when no row of the role covers the area. */
  lemma {:induction false} ResolveIsDeepest(rows: seq<Row>, role: Role, geo: Geo)
    ensures var r := Resolve(rows, role, geo);
      && (r.Some? ==> r.value in rows && Candidate(r.value, role, geo))
      && (forall row :: row in rows && Candidate(row, role, geo) ==>
            r.Some? && !Outranks(row.Scope(), r.value.Scope()))
  {
    if rows != [] {
      var prefix, last := rows[..|rows| - 1], rows[|rows| - 1];
      ResolveIsDeepest(prefix, role, geo);
      assert rows == prefix + [last];
    }
  }

  /** Among completed scopes the decider is the narrowest: it lies inside the scope of
      every other row of the role that covers the area. */
  lemma ResolveIsNarrowest(rows: seq<Row>, role: Role, area: Geo, row: Row)
    requires WellFormed(area) && forall r :: r in rows ==> Closed(r.Scope())
    requires row in rows && row.role == role && Covers(row.Scope(), area)
    ensures Resolve(rows, role, area).Some? && Covers(row.Scope(), Resolve(rows, role, area).value.Scope())
  {
    ResolveIsDeepest(rows, role, area);
    var best := Resolve(rows, role, area).value.Scope();
    ScopesNest(row.Scope(), best, area);
    if Covers(best, row.Scope()) && row.Scope() != best {
      InsideOutranks(row.Scope(), best);
    }
  }

  lemma InsideOutranks(inner: Geo, outer: Geo)
    requires Covers(outer, inner) && inner != outer
    ensures Outranks(inner, outer)
  {
    if inner.Keys <= outer.Keys {
      NoMoreKeys(inner, outer);
    } else {
      FewerKeys(outer.Keys, inner.Keys);
    }
  }

  lemma NoMoreKeys(inner: Geo, outer: Geo)
    requires Covers(outer, inner) && inner.Keys <= outer.Keys
    ensures inner == outer
  {
  }

  lemma FewerKeys(some: set<Field>, all: set<Field>)
    requires some <= all && !(all <= some)
    ensures |some| < |all|
  {
    assert all == some + (all - some);
    assert all - some != {};
  }

  /** Of rows with one scope, the one listed first decides. */
  lemma {:induction false} ResolveTakesFirst(rows: seq<Row>, role: Role, area: Geo) returns (i: nat)
    requires Resolve(rows, role, area).Some?
    ensures i < |rows| && rows[i] == Resolve(rows, role, area).value
    ensures forall j :: 0 <= j < i && Candidate(rows[j], role, area) ==> rows[j].Scope() != rows[i].Scope()
  {
    var n := |rows| - 1;
    if Resolve(rows[..n], role, area) == Resolve(rows, role, area) {
      i := ResolveTakesFirst(rows[..n], role, area);
    } else {
      i := n;
      ResolveIsDeepest(rows[..n], role, area);
      forall j | 0 <= j < n && Candidate(rows[j], role, area) ensures rows[j].Scope() != rows[n].Scope() {
        assert rows[..n][j] in rows[..n];
      }
    }
  }

  lemma {:induction false} ResolveSameCandidates(rows: seq<Row>, role: Role, a: Geo, b: Geo)
    requires forall row :: row in rows ==> (Covers(row.Scope(), a) <==> Covers(row.Scope(), b))
    ensures Resolve(rows, role, a) == Resolve(rows, role, b)
  {
    if rows != [] {
      assert rows[|rows| - 1] in rows;
      ResolveSameCandidates(rows[..|rows| - 1], role, a, b);
    }
  }

  lemma {:induction false} ResolveIgnoresNonCandidates(rows: seq<Row>, tail: seq<Row>, role: Role, geo: Geo)
    requires forall row :: row in tail ==> !Candidate(row, role, geo)
    ensures Resolve(rows + tail, role, geo) == Resolve(rows, role, geo)
  {
    if tail == [] {
      assert rows + tail == rows;
    } else {
      var n := |tail| - 1;
      assert tail[n] in tail;
      assert (rows + tail)[..|rows + tail| - 1] == rows + tail[..n];
      ResolveIgnoresNonCandidates(rows, tail[..n], role, geo);
    }
  }

  // --------------------------------------------------------- reporting chain

  function Head(rows: seq<Row>, area: Geo, role: Role): Option<Role> {
    var entry := Resolve(rows, role, area);
    if entry.Some? then entry.value.reportsTo else None
  }

  /** Whoever is `n` steps above `role` in the area, if the chain is that long. */
  function Climb(rows: seq<Row>, area: Geo, role: Role, n: nat): Option<Role> {
    if n == 0 then Some(role)
    else
      var below := Climb(rows, area, role, n - 1);
      if below.None? then None else Head(rows, area, below.value)
  }

  ghost predicate OnCycle(rows: seq<Row>, area: Geo, role: Role) {
    exists n :: n > 0 && Climb(rows, area, role, n) == Some(role)
  }

  ghost predicate HasCycle(rows: seq<Row>, area: Geo) {
    exists role :: OnCycle(rows, area, role)
  }

  ghost predicate ReachesCycle(rows: seq<Row>, area: Geo, role: Role) {
    exists i :: i >= 0 && Climb(rows, area, role, i).Some? && OnCycle(rows, area, Climb(rows, area, role, i).value)
  }

  lemma {:induction false} ClimbAdds(rows: seq<Row>, area: Geo, role: Role, i: nat, j: nat)
    ensures Climb(rows, area, role, i + j) ==
      (var mid := Climb(rows, area, role, i); if mid.None? then None else Climb(rows, area, mid.value, j))
    decreases j
  {
    if j > 0 {
      ClimbAdds(rows, area, role, i, j - 1);
      assert i + j - 1 == i + (j - 1);
    }
  }

  /** A role on a cycle can be climbed from without end. */
  lemma {:induction false} CycleNeverEnds(rows: seq<Row>, area: Geo, role: Role, k: nat)
    requires OnCycle(rows, area, role)
    ensures Climb(rows, area, role, k).Some?
    decreases k
  {
    var n :| n > 0 && Climb(rows, area, role, n) == Some(role);
    if k >= n {
      CycleNeverEnds(rows, area, role, k - n);
      ClimbAdds(rows, area, role, n, k - n);
    } else {
      ClimbAdds(rows, area, role, k, n - k);
    }
  }

  lemma {:induction false} EndedClimbReachesNoCycle(rows: seq<Row>, area: Geo, role: Role, k: nat)
    requires Climb(rows, area, role, k).None?
    ensures !ReachesCycle(rows, area, role)
  {
    if ReachesCycle(rows, area, role) {
      var i :| i >= 0 && Climb(rows, area, role, i).Some? && OnCycle(rows, area, Climb(rows, area, role, i).value);
      CycleNeverEnds(rows, area, Climb(rows, area, role, i).value, k);
      ClimbAdds(rows, area, role, i, k);
      ClimbAdds(rows, area, role, k, i);
    }
  }

  lemma RepeatReachesCycle(rows: seq<Row>, area: Geo, role: Role, i: nat, j: nat)
    requires i < j && Climb(rows, area, role, i).Some? && Climb(rows, area, role, i) == Climb(rows, area, role, j)
    ensures ReachesCycle(rows, area, role)
  {
    ClimbAdds(rows, area, role, i, j - i);
    assert i + (j - i) == j;
    assert OnCycle(rows, area, Climb(rows, area, role, i).value);
  }

  // -------------------------------------------------------------- the check

  function ScopesCoveredBy(rows: seq<Row>, scope: Geo): seq<Geo> {
    if rows == [] then []
    else
      var before := ScopesCoveredBy(rows[..|rows| - 1], scope);
      var last := rows[|rows| - 1].Scope();
      if Covers(scope, last) then before + [last] else before
  }

  lemma ScopesCoveredByMembers(rows: seq<Row>, scope: Geo, area: Geo)
    ensures area in ScopesCoveredBy(rows, scope) <==>
      exists row :: row in rows && row.Scope() == area && Covers(scope, area)
  {
    if rows != [] {
      var prefix, last := rows[..|rows| - 1], rows[|rows| - 1];
      ScopesCoveredByMembers(prefix, scope, area);
      assert rows == prefix + [last];
    }
  }

  /** The areas looked at: the scope itself and every row scope inside it. */
  function CheckedAreas(rows: seq<Row>, scope: Geo): seq<Geo> {
    [scope] + ScopesCoveredBy(rows, scope)
  }

  ghost predicate CycleFrom(rows: seq<Row>, scope: Geo, role: Role) {
    exists area :: area in CheckedAreas(rows, scope) && ReachesCycle(rows, area, role)
  }

  ghost predicate FindsCycle(rows: seq<Row>, pending: Row) {
    CycleFrom(rows, pending.Scope(), pending.role)
  }

  function Heads(rows: seq<Row>): set<Role> {
    set row | row in rows && row.reportsTo.Some? :: row.reportsTo.value
  }

  /** One run of the `while current` loop: does the walk up from `start` revisit a role? */
  method WalkRevisits(rows: seq<Row>, area: Geo, start: Role) returns (cyclic: bool)
    ensures cyclic <==> ReachesCycle(rows, area, start)
  {
    var seen: set<Role> := {};
    var current := Some(start);
    ghost var trail: seq<Role> := [];
    ghost var all := {start} + Heads(rows);
    while current.Some?
      invariant current == Climb(rows, area, start, |trail|)
      invariant current.Some? ==> current.value in all
      invariant forall i :: 0 <= i < |trail| ==> Climb(rows, area, start, i) == Some(trail[i])
      invariant seen <= all && forall r :: r in seen <==> r in trail
      decreases all - seen
    {
      if current.value in seen {
        ghost var i :| 0 <= i < |trail| && trail[i] == current.value;
        RepeatReachesCycle(rows, area, start, i, |trail|);
        return true;
      }
      seen := seen + {current.value};
      trail := trail + [current.value];
      var entry := ResolveEntry(rows, current.value, area);
      ResolveIsDeepest(rows, current.value, area);
      current := if entry.Some? then entry.value.reportsTo else None;
    }
    EndedClimbReachesNoCycle(rows, area, start, |trail|);
    return false;
  }

  method FindCycle(rows: seq<Row>, pending: Row) returns (found: bool)
    ensures found <==> FindsCycle(rows, pending)
  {
    var areas := CheckedAreas(rows, pending.Scope());
    for i := 0 to |areas|
      invariant forall k :: 0 <= k < i ==> !ReachesCycle(rows, areas[k], pending.role)
    {
      var cyclic := WalkRevisits(rows, areas[i], pending.role);
      if cyclic {
        return true;
      }
    }
    return false;
  }

  // ------------------------------------------- from the checked areas to all

  predicate NestedIn(scopes: set<Geo>, area: Geo) {
    forall s, t :: s in scopes && t in scopes && Covers(s, area) && Covers(t, area) ==> Covers(s, t) || Covers(t, s)
  }

  function Scopes(rows: seq<Row>): set<Geo> {
    set row | row in rows :: row.Scope()
  }

  /** Among nested scopes that cover an area one is deepest: every other covers it. */
  lemma {:induction false} DeepestScope(scopes: set<Geo>, area: Geo) returns (deepest: Geo)
    requires NestedIn(scopes, area) && exists s :: s in scopes && Covers(s, area)
    ensures deepest in scopes && Covers(deepest, area)
    ensures forall s :: s in scopes && Covers(s, area) ==> Covers(s, deepest)
    decreases scopes
  {
    var s :| s in scopes && Covers(s, area);
    var rest := scopes - {s};
    if exists t :: t in rest && Covers(t, area) {
      var t := DeepestScope(rest, area);
      deepest := if Covers(s, t) then t else s;
    } else {
      deepest := s;
    }
  }

  lemma {:induction false} ClimbSame(rows: seq<Row>, a: Geo, b: Geo, role: Role, n: nat)
    requires forall r :: Head(rows, a, r) == Head(rows, b, r)
    ensures Climb(rows, a, role, n) == Climb(rows, b, role, n)
  {
    if n > 0 {
      ClimbSame(rows, a, b, role, n - 1);
    }
  }

  /** Resolution in an area equals resolution at the deepest covering scope. */
  lemma SameChainAtDeepest(rows: seq<Row>, area: Geo, deepest: Geo)
    requires Covers(deepest, area)
    requires forall s :: s in Scopes(rows) && Covers(s, area) ==> Covers(s, deepest)
    ensures forall role :: Resolve(rows, role, area) == Resolve(rows, role, deepest)
  {
    forall role ensures Resolve(rows, role, area) == Resolve(rows, role, deepest) {
      forall row | row in rows ensures Covers(row.Scope(), area) <==> Covers(row.Scope(), deepest) {
        assert row.Scope() in Scopes(rows);
      }
      ResolveSameCandidates(rows, role, area, deepest);
    }
  }

  /** A cycle above `role`, in any area inside `scope`, is seen by the check. */
  lemma CaughtByCheck(rows: seq<Row>, scope: Geo, role: Role, area: Geo)
    requires Covers(scope, area) && NestedIn(Scopes(rows) + {scope}, area)
    requires OnCycle(rows, area, role)
    ensures CycleFrom(rows, scope, role)
  {
    var deepest := DeepestScope(Scopes(rows) + {scope}, area);
    SameChainAtDeepest(rows, area, deepest);
    var n :| n > 0 && Climb(rows, area, role, n) == Some(role);
    ClimbSame(rows, area, deepest, role, n);
    assert OnCycle(rows, deepest, role);
    assert Climb(rows, deepest, role, 0) == Some(role);
    assert ReachesCycle(rows, deepest, role);
    ScopesCoveredByMembers(rows, scope, deepest);
  }

  /** A family of areas: well formed, and holding the scope of every row. */
  ghost predicate Family(areas: iset<Geo>, rows: seq<Row>) {
    && (forall a :: a in areas ==> WellFormed(a))
    && (forall row :: row in rows ==> row.Scope() in areas)
  }

  ghost predicate Acyclic(areas: iset<Geo>, rows: seq<Row>) {
    forall a :: a in areas ==> !HasCycle(rows, a)
  }

  lemma FamilyNests(areas: iset<Geo>, rows: seq<Row>, scope: Geo, area: Geo)
    requires Family(areas, rows) && scope in areas && area in areas
    ensures NestedIn(Scopes(rows) + {scope}, area)
  {
    var scopes := Scopes(rows) + {scope};
    forall s, t | s in scopes && t in scopes && Covers(s, area) && Covers(t, area)
      ensures Covers(s, t) || Covers(t, s)
    {
      ScopesNest(s, t, area);
    }
  }

  lemma CheckOnlyFindsCycles(areas: iset<Geo>, rows: seq<Row>, scope: Geo, role: Role)
    requires Family(areas, rows) && scope in areas && CycleFrom(rows, scope, role)
    ensures !Acyclic(areas, rows)
  {
    var area :| area in CheckedAreas(rows, scope) && ReachesCycle(rows, area, role);
    ScopesCoveredByMembers(rows, scope, area);
    assert area in areas;
  }

  predicate SameHeadAt(before: seq<Row>, after: seq<Row>, area: Geo, role: Option<Role>) {
    role.Some? && Head(before, area, role.value) == Head(after, area, role.value)
  }

  lemma {:induction false} ClimbUnchanged(before: seq<Row>, after: seq<Row>, area: Geo, role: Role, n: nat)
    requires forall i :: 0 <= i < n ==> SameHeadAt(before, after, area, Climb(after, area, role, i))
    ensures Climb(before, area, role, n) == Climb(after, area, role, n)
  {
    if n > 0 {
      ClimbUnchanged(before, after, area, role, n - 1);
    }
  }

  lemma {:induction false} CycleTurns(rows: seq<Row>, area: Geo, role: Role, i: nat, n: nat)
    requires i <= n && n > 0 && Climb(rows, area, role, n) == Some(role)
    ensures Climb(rows, area, role, i).Some? && OnCycle(rows, area, Climb(rows, area, role, i).value)
  {
    ClimbAdds(rows, area, role, i, n - i);
    assert i + (n - i) == n;
    var mid := Climb(rows, area, role, i);
    assert mid.Some?;
    ClimbAdds(rows, area, mid.value, n - i, i);
    assert Climb(rows, area, mid.value, n) == mid by { assert n - i + i == n; }
  }

  /** A cycle that appears with a change of rows runs through the role of an
      added or removed row, inside that row's scope. */
  lemma NewCycleIsCaught(areas: iset<Geo>, others: seq<Row>, removed: seq<Row>, added: seq<Row>, area: Geo)
    requires Family(areas, others + removed) && Family(areas, added) && area in areas
    requires !HasCycle(others + removed, area) && HasCycle(others + added, area)
    ensures exists o :: o in added + removed && CycleFrom(others + added, o.Scope(), o.role)
  {
    var after, before := others + added, others + removed;
    var role :| OnCycle(after, area, role);
    var n :| n > 0 && Climb(after, area, role, n) == Some(role);
    if i, o :| 0 <= i < n && o in added + removed && Climb(after, area, role, i) == Some(o.role) && Covers(o.Scope(), area) {
      CycleTurns(after, area, role, i, n);
      assert o in added || o in before;
      FamilyNests(areas, after, o.Scope(), area);
      CaughtByCheck(after, o.Scope(), o.role, area);
    } else {
      forall i | 0 <= i < n ensures SameHeadAt(before, after, area, Climb(after, area, role, i)) {
        CycleTurns(after, area, role, i, n);
        var r := Climb(after, area, role, i).value;
        assert forall o :: o in added + removed ==> !Candidate(o, r, area);
        ResolveIgnoresNonCandidates(others, added, r, area);
        ResolveIgnoresNonCandidates(others, removed, r, area);
      }
      ClimbUnchanged(before, after, area, role, n);
      assert OnCycle(before, area, role);
    }
  }

  /** Main result. When an acyclic hierarchy loses the rows `removed` and gains
      the rows `added`, it stays acyclic in every area exactly when the check
      passes from each added row and from where each removed row was. */
  lemma ChangeKeepsAcyclicExactly(areas: iset<Geo>, others: seq<Row>, removed: seq<Row>, added: seq<Row>)
    requires Family(areas, others + removed) && Family(areas, added)
    requires Acyclic(areas, others + removed)
    ensures Acyclic(areas, others + added) <==>
      forall o :: o in added + removed ==> !CycleFrom(others + added, o.Scope(), o.role)
  {
    var after := others + added;
    assert Family(areas, after);
    forall o | o in added + removed && CycleFrom(after, o.Scope(), o.role) ensures !Acyclic(areas, after) {
      assert o in added || o in others + removed;
      CheckOnlyFindsCycles(areas, after, o.Scope(), o.role);
    }
    if !Acyclic(areas, after) {
      var area :| area in areas && HasCycle(after, area);
      NewCycleIsCaught(areas, others, removed, added, area);
    }
  }

  /** An insert, as the serializer guards it (the check runs only when the row
      reports to someone), is accepted exactly when it keeps every area acyclic. */
  lemma InsertGuardIsExact(areas: iset<Geo>, others: seq<Row>, pending: Row)
    requires Family(areas, others) && pending.Scope() in areas && Acyclic(areas, others)
    ensures Acyclic(areas, others + [pending]) <==>
      !(pending.reportsTo.Some? && FindsCycle(others + [pending], pending))
  {
    assert others + [] == others && [pending] + [] == [pending];
    ChangeKeepsAcyclicExactly(areas, others, [], [pending]);
    if pending.reportsTo.None? {
      forall area | area in areas ensures !HasCycle(others + [pending], area) {
        TopRowClosesNoCycle(others, pending, area);
      }
    }
  }

  /** Two inserts that are both checked before either is saved: with the first check
      passed, both rows together keep every area acyclic exactly when the second check
      would have passed had it read the first row. */
  lemma OverlappingInsertsExactly(areas: iset<Geo>, others: seq<Row>, first: Row, second: Row)
    requires Family(areas, others) && Acyclic(areas, others) && first.Scope() in areas && second.Scope() in areas
    requires !(first.reportsTo.Some? && FindsCycle(others + [first], first))
    ensures Acyclic(areas, others + [first] + [second]) <==>
      !(second.reportsTo.Some? && FindsCycle(others + [first] + [second], second))
  {
    InsertGuardIsExact(areas, others, first);
    InsertGuardIsExact(areas, others + [first], second);
  }

  lemma TopRowIsNoHead(others: seq<Row>, pending: Row, area: Geo, role: Role)
    requires pending.reportsTo.None? && Head(others + [pending], area, role).Some?
    ensures Head(others, area, role) == Head(others + [pending], area, role)
  {
    assert (others + [pending])[..|others + [pending]| - 1] == others;
  }

  /** Rows whose heads are among those of acyclic rows are acyclic too. */
  lemma FewerHeadsCloseNoCycle(before: seq<Row>, after: seq<Row>, area: Geo)
    requires forall role :: Head(after, area, role).Some? ==> Head(before, area, role) == Head(after, area, role)
    requires !HasCycle(before, area)
    ensures !HasCycle(after, area)
  {
    if role :| OnCycle(after, area, role) {
      var n :| n > 0 && Climb(after, area, role, n) == Some(role);
      forall i | 0 <= i < n ensures SameHeadAt(before, after, area, Climb(after, area, role, i)) {
        CycleTurns(after, area, role, i, n);
        CycleTurns(after, area, role, i + 1, n);
        assert Head(after, area, Climb(after, area, role, i).value) == Climb(after, area, role, i + 1);
      }
      ClimbUnchanged(before, after, area, role, n);
      assert OnCycle(before, area, role);
    }
  }

  lemma TopRowClosesNoCycle(others: seq<Row>, pending: Row, area: Geo)
    requires pending.reportsTo.None? && !HasCycle(others, area)
    ensures !HasCycle(others + [pending], area)
  {
    forall role | Head(others + [pending], area, role).Some?
      ensures Head(others, area, role) == Head(others + [pending], area, role)
    {
      TopRowIsNoHead(others, pending, area, role);
    }
    FewerHeadsCloseNoCycle(others, others + [pending], area);
  }

  /** Nor does taking away the head of a row that keeps its role and scope. */
  lemma TopEditClosesNoCycle(others: seq<Row>, edited: Row, pending: Row, area: Geo)
    requires pending.role == edited.role && pending.Scope() == edited.Scope() && pending.reportsTo.None?
    requires !HasCycle(others + [edited], area)
    ensures !HasCycle(others + [pending], area)
  {
    var before, after := others + [edited], others + [pending];
    assert before[..|before| - 1] == others && after[..|after| - 1] == others;
    FewerHeadsCloseNoCycle(before, after, area);
  }

  /** An edit that keeps role and scope, guarded like an insert, is accepted exactly
      when it keeps every area acyclic. */
  lemma EditInPlaceIsExact(areas: iset<Geo>, others: seq<Row>, edited: Row, pending: Row)
    requires Family(areas, others + [edited]) && Acyclic(areas, others + [edited])
    requires pending.role == edited.role && pending.Scope() == edited.Scope()
    ensures Acyclic(areas, others + [pending]) <==>
      !(pending.reportsTo.Some? && FindsCycle(others + [pending], pending))
  {
    if pending.reportsTo.None? {
      forall area | area in areas ensures !HasCycle(others + [pending], area) {
        TopEditClosesNoCycle(others, edited, pending, area);
      }
    } else {
      assert edited in others + [edited];
      ChangeKeepsAcyclicExactly(areas, others, [edited], [pending]);
      assert pending in [pending] + [edited];
      assert forall o :: o in [pending] + [edited] ==> o == pending || o == edited;
    }
  }

  /** The check on saving reads inactive rows as well, escalation the active ones only:
      with no cycle over all rows there is none over the active rows exactly when the
      check would pass from every inactive row's place. */
  lemma ActiveRowsAcyclicExactly(areas: iset<Geo>, active: seq<Row>, inactive: seq<Row>)
    requires Family(areas, active + inactive) && Acyclic(areas, active + inactive)
    ensures Acyclic(areas, active) <==> forall o :: o in inactive ==> !CycleFrom(active, o.Scope(), o.role)
  {
    assert active + [] == active && [] + inactive == inactive;
    ChangeKeepsAcyclicExactly(areas, active, inactive, []);
  }

  /** The areas that saving can store: completions of scopes whose ids exist
      and that name at most one local body. */
  ghost predicate Saveable(m: Masters, geo: Geo) {
    Resolvable(m, NonBlank(geo)) && SingleLocalBody(NonBlank(geo))
  }

  ghost function SavedAreas(m: Masters): iset<Geo> {
    iset geo | Saveable(m, geo) :: Complete(m, geo)
  }

  /** With parented masters and completed scopes, the insert guard decides
      acyclicity in every area that saving can store. */
  lemma SavedHierarchyStaysAcyclic(m: Masters, others: seq<Row>, pending: Row)
    requires Intact(m)
    requires forall row :: row in others + [pending] ==> row.Scope() in SavedAreas(m)
    requires Acyclic(SavedAreas(m), others)
    ensures Acyclic(SavedAreas(m), others + [pending]) <==>
      !(pending.reportsTo.Some? && FindsCycle(others + [pending], pending))
  {
    forall a | a in SavedAreas(m) ensures WellFormed(a) {
      var geo :| Saveable(m, geo) && a == Complete(m, geo);
      CompletionIsWellFormed(m, geo);
    }
    assert forall row :: row in others ==> row in others + [pending];
    assert pending in others + [pending];
    InsertGuardIsExact(SavedAreas(m), others, pending);
  }

  // -------------------------------------------------- where the check falls short

  const IN_COUNTRY: Geo := map[Country := "IN"]
  const IN_TN: Geo := map[Country := "IN", State := "TN"]
  const IN_KL: Geo := map[Country := "IN", State := "KL"]

  lemma ResolveAppend(rows: seq<Row>, last: Row, role: Role, geo: Geo)
    ensures Resolve(rows + [last], role, geo) == Better(Resolve(rows, role, geo), last, role, geo)
  {
    assert (rows + [last])[..|rows|] == rows;
  }

  lemma ResolveTwo(first: Row, second: Row, geo: Geo)
    ensures forall role :: Resolve([first, second], role, geo) == Better(Better(None, first, role, geo), second, role, geo)
  {
    forall role ensures Resolve([first, second], role, geo) == Better(Better(None, first, role, geo), second, role, geo) {
      assert [] + [first] == [first] && [first] + [second] == [first, second];
      ResolveAppend([], first, role, geo);
      ResolveAppend([first], second, role, geo);
    }
  }

  lemma ClimbEndsIn(rows: seq<Row>, area: Geo, role: Role, head: Role)
    requires Head(rows, area, role) == Some(head) && Head(rows, area, head) == None
    ensures !ReachesCycle(rows, area, role)
  {
    assert Climb(rows, area, role, 1) == Some(head);
    assert Climb(rows, area, role, 2) == None;
    EndedClimbReachesNoCycle(rows, area, role, 2);
  }

  lemma MutualHeadsCycle(rows: seq<Row>, area: Geo, a: Role, b: Role)
    requires Head(rows, area, a) == Some(b) && Head(rows, area, b) == Some(a)
    ensures HasCycle(rows, area)
  {
    assert Climb(rows, area, a, 1) == Some(b);
    assert Climb(rows, area, a, 2) == Some(a);
    assert OnCycle(rows, area, a);
  }

  lemma ShortChainsDoNotCycle(rows: seq<Row>, area: Geo)
    requires forall r :: Climb(rows, area, r, 3).None?
    ensures !HasCycle(rows, area)
  {
    forall r: Role ensures !OnCycle(rows, area, r) {
      EndedClimbReachesNoCycle(rows, area, r, 3);
      assert Climb(rows, area, r, 0) == Some(r);
    }
  }

  const A_TO_B := Row("a", Some("b"), IN_COUNTRY, 1, true)
  const B_TO_A := Row("b", Some("a"), IN_TN, 2, true)
  const A_TO_C := Row("a", Some("c"), IN_TN, 1, true)

  lemma ConstantScopes()
    ensures NonBlank(IN_COUNTRY) == IN_COUNTRY && NonBlank(IN_TN) == IN_TN && NonBlank(IN_KL) == IN_KL
    ensures Specificity(IN_COUNTRY) == 1 && Specificity(IN_TN) == 2 && Specificity(IN_KL) == 2
    ensures !Covers(IN_TN, IN_KL) && !Covers(IN_KL, IN_TN) && Covers(IN_COUNTRY, IN_TN) && Covers(IN_COUNTRY, IN_KL)
    ensures !Covers(IN_KL, IN_COUNTRY) && !Covers(TN_ONLY, ERODE_ONLY) && !Covers(ERODE_ONLY, TN_ONLY)
    ensures Covers(TN_ONLY, ERODE) && Covers(ERODE_ONLY, ERODE)
  {
    assert State in IN_TN && State in IN_KL && State in TN_ONLY && District in ERODE_ONLY;
  }

  lemma MovedHead(third: Row, area: Geo, role: Role)
    requires third.role == "a" && third.reportsTo == Some("c") && third.columns in {IN_TN, IN_KL}
    ensures Head([A_TO_B, B_TO_A] + [third], area, role) ==
      if role == "a" then
        (if Covers(third.columns, area) then Some("c") else if Covers(IN_COUNTRY, area) then Some("b") else None)
      else if role == "b" && Covers(IN_TN, area) then Some("a") else None
  {
    ConstantScopes();
    ResolveTwo(A_TO_B, B_TO_A, area);
    ResolveAppend([A_TO_B, B_TO_A], third, role, area);
  }

  lemma AcyclicBeforeMove(area: Geo)
    ensures !HasCycle([A_TO_B, B_TO_A] + [A_TO_C], area)
  {
    var rows := [A_TO_B, B_TO_A] + [A_TO_C];
    forall r ensures Climb(rows, area, r, 3).None? {
      MovedHead(A_TO_C, area, r);
      MovedHead(A_TO_C, area, "a");
      MovedHead(A_TO_C, area, "b");
      MovedHead(A_TO_C, area, "c");
      assert Climb(rows, area, r, 1) == Head(rows, area, r);
      assert Climb(rows, area, r, 2).None? || Climb(rows, area, r, 2) == Some("c");
    }
    ShortChainsDoNotCycle(rows, area);
  }

  ghost function ThreeAreas(): iset<Geo> {
    iset{IN_COUNTRY, IN_TN, IN_KL}
  }

  lemma ThreeAreasWellFormed(area: Geo)
    requires area in ThreeAreas()
    ensures WellFormed(area)
  {
  }

  lemma FamilyOfThree(rows: seq<Row>)
    requires forall row :: row in rows ==> row.columns in {IN_COUNTRY, IN_TN, IN_KL}
    ensures Family(ThreeAreas(), rows)
  {
    ConstantScopes();
    forall area | area in ThreeAreas() ensures WellFormed(area) {
      ThreeAreasWellFormed(area);
    }
  }

  /** The rows before a change: no cycle in any of the three areas. */
  lemma AcyclicEverywhereBefore()
    ensures Acyclic(ThreeAreas(), [A_TO_B, B_TO_A] + [A_TO_C])
  {
    forall area | area in ThreeAreas() ensures !HasCycle([A_TO_B, B_TO_A] + [A_TO_C], area) {
      AcyclicBeforeMove(area);
    }
  }

  /** Moving a row to another area can expose a cycle in the area it left: the
      check passes from the row's new place, where nothing is wrong. */
  lemma MoveCanExposeCycle() returns (areas: iset<Geo>, others: seq<Row>, moved: Row, pending: Row)
    ensures Family(areas, others + [moved]) && Family(areas, [pending]) && Acyclic(areas, others + [moved])
    ensures pending.role == moved.role && pending.reportsTo.Some?
    ensures !FindsCycle(others + [pending], pending) && !Acyclic(areas, others + [pending])
  {
    areas := ThreeAreas();
    others, moved, pending := [A_TO_B, B_TO_A], A_TO_C, A_TO_C.(columns := IN_KL);
    FamilyOfThree(others + [moved]);
    FamilyOfThree([pending]);
    AcyclicEverywhereBefore();
    PassesFromNewPlace(pending);
    CycleInOldPlace(pending);
    assert IN_TN in areas;
  }

  /** Deactivating a row can expose a cycle too. */
  lemma DeactivationCanExposeCycle() returns (areas: iset<Geo>, active: seq<Row>, inactive: Row)
    ensures Family(areas, active + [inactive]) && Acyclic(areas, active + [inactive])
    ensures !Acyclic(areas, active)
  {
    areas := ThreeAreas();
    active, inactive := [A_TO_B, B_TO_A], A_TO_C;
    FamilyOfThree(active + [inactive]);
    AcyclicEverywhereBefore();
    CycleWithoutThird();
    assert IN_TN in areas;
  }

  lemma CycleWithoutThird()
    ensures HasCycle([A_TO_B, B_TO_A], IN_TN)
  {
    ConstantScopes();
    ResolveTwo(A_TO_B, B_TO_A, IN_TN);
    MutualHeadsCycle([A_TO_B, B_TO_A], IN_TN, "a", "b");
  }

  lemma PassesFromNewPlace(pending: Row)
    requires pending == A_TO_C.(columns := IN_KL)
    ensures !FindsCycle([A_TO_B, B_TO_A] + [pending], pending)
  {
    var after := [A_TO_B, B_TO_A] + [pending];
    ConstantScopes();
    MovedHead(pending, IN_KL, "a");
    MovedHead(pending, IN_KL, "c");
    ClimbEndsIn(after, IN_KL, "a", "c");
    forall area | area in CheckedAreas(after, IN_KL) ensures area == IN_KL {
      ScopesCoveredByMembers(after, IN_KL, area);
    }
  }

  lemma CycleInOldPlace(pending: Row)
    requires pending == A_TO_C.(columns := IN_KL)
    ensures HasCycle([A_TO_B, B_TO_A] + [pending], IN_TN)
  {
    ConstantScopes();
    MovedHead(pending, IN_TN, "a");
    MovedHead(pending, IN_TN, "b");
    MutualHeadsCycle([A_TO_B, B_TO_A] + [pending], IN_TN, "a", "b");
  }

  const A_BELOW_B := Row("a", Some("b"), IN_TN, 1, true)
  const B_BELOW_A := Row("b", Some("a"), IN_TN, 2, true)

  lemma LoneRowAcyclic(row: Row, area: Geo)
    requires row.reportsTo != Some(row.role)
    ensures !HasCycle([row], area)
  {
    var rows := [row];
    assert [] + [row] == rows;
    forall r ensures Climb(rows, area, r, 3).None? {
      ResolveAppend([], row, r, area);
      if row.reportsTo.Some? {
        ResolveAppend([], row, row.reportsTo.value, area);
      }
      assert Climb(rows, area, r, 1) == Head(rows, area, r);
      assert Climb(rows, area, r, 2).None?;
    }
    ShortChainsDoNotCycle(rows, area);
  }

  lemma LoneRowPasses(areas: iset<Geo>, row: Row)
    requires row.reportsTo != Some(row.role) && row.Scope() in areas && Family(areas, [row])
    ensures !FindsCycle([row], row)
  {
    forall area | area in areas ensures !HasCycle([row], area) {
      LoneRowAcyclic(row, area);
    }
    if FindsCycle([row], row) {
      CheckOnlyFindsCycles(areas, [row], row.Scope(), row.role);
    }
  }

  lemma BothRowsCycle()
    ensures HasCycle([A_BELOW_B, B_BELOW_A], IN_TN)
  {
    ConstantScopes();
    ResolveTwo(A_BELOW_B, B_BELOW_A, IN_TN);
    MutualHeadsCycle([A_BELOW_B, B_BELOW_A], IN_TN, "a", "b");
  }

  /** Neither insert sees the other's row: each check passes, and together the rows close
      a cycle. */
  lemma OverlappingInsertsCloseCycle() returns (areas: iset<Geo>, first: Row, second: Row)
    ensures Family(areas, [first, second])
    ensures !FindsCycle([first], first) && !FindsCycle([second], second) && !Acyclic(areas, [first, second])
  {
    areas, first, second := ThreeAreas(), A_BELOW_B, B_BELOW_A;
    FamilyOfThree([first]);
    FamilyOfThree([second]);
    FamilyOfThree([first, second]);
    LoneRowPasses(areas, first);
    LoneRowPasses(areas, second);
    BothRowsCycle();
    assert IN_TN in areas;
  }

  const TN_ONLY: Geo := map[State := "TN"]
  const ERODE_ONLY: Geo := map[District := "ERD"]
  const ERODE: Geo := map[Country := "IN", State := "TN", District := "ERD"]
  const BARE_A := Row("a", Some("b"), TN_ONLY, 1, true)
  const BARE_B := Row("b", Some("a"), ERODE_ONLY, 2, true)

  lemma BareHead(area: Geo, role: Role)
    ensures BARE_A.Scope() == TN_ONLY && BARE_B.Scope() == ERODE_ONLY
    ensures Head([BARE_A], area, role) == if role == "a" && Covers(TN_ONLY, area) then Some("b") else None
    ensures Head([BARE_A, BARE_B], area, role) ==
      if role == "a" && Covers(TN_ONLY, area) then Some("b")
      else if role == "b" && Covers(ERODE_ONLY, area) then Some("a") else None
  {
    assert [] + [BARE_A] == [BARE_A];
    ResolveAppend([], BARE_A, role, area);
    ResolveTwo(BARE_A, BARE_B, area);
  }

  lemma BareRowAcyclic(area: Geo)
    ensures !HasCycle([BARE_A], area)
  {
    forall r ensures Climb([BARE_A], area, r, 3).None? {
      BareHead(area, r);
      BareHead(area, "b");
      assert Climb([BARE_A], area, r, 1) == Head([BARE_A], area, r);
      assert Climb([BARE_A], area, r, 2).None?;
    }
    ShortChainsDoNotCycle([BARE_A], area);
  }

  /** Without completion the check can miss a cycle: here a district scope does
      not name its state, so the state row is not seen from the district. */
  lemma BareScopeHidesCycle() returns (areas: iset<Geo>, others: seq<Row>, pending: Row, area: Geo)
    ensures Acyclic(areas, others) && area in areas && WellFormed(area)
    ensures forall row :: row in others + [pending] ==> Covers(row.Scope(), area) && row.Scope() in areas
    ensures !FindsCycle(others + [pending], pending) && HasCycle(others + [pending], area)
  {
    areas, area := iset{TN_ONLY, ERODE_ONLY, ERODE}, ERODE;
    others, pending := [BARE_A], BARE_B;
    var after := others + [pending];
    assert after == [BARE_A, BARE_B];
    ConstantScopes();
    forall g | g in areas ensures !HasCycle(others, g) {
      BareRowAcyclic(g);
    }
    BareHead(ERODE_ONLY, "a");
    BareHead(ERODE_ONLY, "b");
    ClimbEndsIn(after, ERODE_ONLY, "b", "a");
    forall g | g in CheckedAreas(after, ERODE_ONLY) ensures g == ERODE_ONLY {
      ScopesCoveredByMembers(after, ERODE_ONLY, g);
    }
    BareHead(area, "a");
    BareHead(area, "b");
    MutualHeadsCycle(after, area, "a", "b");
  }
}
