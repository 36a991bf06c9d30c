/** Which escalation levels exist in an area and who holds them. */
module EscalationLevels {
  import opened Wrappers
  import opened StaffHierarchy

  /** A staff record; blank geo columns hold "" and staff carry no country. */
  datatype Staff = Staff(id: nat, role: Role, columns: Geo, active: bool, login: bool) {
    function Scope(): Geo {
      NonBlank(columns) - {Country}
    }
  }

  // ------------------------------------------------------------- role levels

  function Roles(rows: seq<Row>): set<Role> {
    set row | row in rows :: row.role
  }

  function EntryLevels(rows: seq<Row>, geo: Geo): map<Role, nat> {
    map role | role in Roles(rows) && Resolve(rows, role, geo).Some? :: Resolve(rows, role, geo).value.level
  }

  function Entries(rows: seq<Row>, geo: Geo): set<Row> {
    set role | role in Roles(rows) && Resolve(rows, role, geo).Some? :: Resolve(rows, role, geo).value
  }

  function Elements(rows: seq<Row>): set<Row> {
    set row | row in rows
  }

  /** Levels of the entries that report to `head`. */
  function LevelsUnder(entries: set<Row>, head: Role): set<nat> {
    set e | e in entries && e.reportsTo == Some(head) :: e.level
  }

  /** Heads that have no deciding row of their own in the area. */
  function Tops(entries: set<Row>, levels: map<Role, nat>): set<Role> {
    set e | e in entries && e.reportsTo.Some? && e.reportsTo.value !in levels :: e.reportsTo.value
  }

  ghost function MaxOf(s: set<nat>): (m: nat)
    requires s != {}
    ensures m in s && forall x :: x in s ==> x <= m
  {
    var x :| x in s;
    if s == {x} then x
    else
      assert s == {x} + (s - {x});
      var m := MaxOf(s - {x});
      if m > x then m else x
  }

  ghost function TopLevels(entries: set<Row>, levels: map<Role, nat>): map<Role, nat> {
    map head | head in Tops(entries, levels) ::
      assert exists e :: e in entries && e.reportsTo == Some(head);
      assert LevelsUnder(entries, head) != {} by {
        var e :| e in entries && e.reportsTo == Some(head);
        assert e.level in LevelsUnder(entries, head);
      }
      MaxOf(LevelsUnder(entries, head)) + 1
  }

  /** The level of every role taking part in the area: its own deciding row's
      (when that row escalates, or when asked for all), and for a head without
      a row one above the highest level that reports to it. */
  ghost function RoleLevels(rows: seq<Row>, geo: Geo, escalationOnly: bool): map<Role, nat> {
    TakingPart(rows, geo, escalationOnly) + TopLevels(Entries(rows, geo), EntryLevels(rows, geo))
  }

  /** The row that decides the head of its role in the area. */
  predicate Decides(rows: seq<Row>, geo: Geo, e: Row) {
    Resolve(rows, e.role, geo) == Some(e)
  }

  ghost predicate HasDecider(rows: seq<Row>, geo: Geo, role: Role) {
    exists e :: Decides(rows, geo, e) && e.role == role
  }

  lemma DecidersAreEntries(rows: seq<Row>, geo: Geo)
    ensures forall e :: e in Entries(rows, geo) <==> Decides(rows, geo, e)
    ensures forall role :: HasDecider(rows, geo, role) <==> role in EntryLevels(rows, geo)
  {
    EntriesDecide(rows, geo);
    forall e | Decides(rows, geo, e) ensures e in Entries(rows, geo) && e.role in EntryLevels(rows, geo) {
      ResolveIsDeepest(rows, e.role, geo);
      assert e.role in Roles(rows);
    }
    forall role | role in EntryLevels(rows, geo) ensures HasDecider(rows, geo, role) {
      assert Decides(rows, geo, Resolve(rows, role, geo).value);
    }
  }

  /** A role with a deciding row has that row's level, unless escalation is off there and
      only escalating roles are asked for. */
  lemma OwnRowLevel(rows: seq<Row>, geo: Geo, escalationOnly: bool, e: Row)
    requires Decides(rows, geo, e)
    ensures e.role in RoleLevels(rows, geo, escalationOnly) <==> !escalationOnly || e.escalates
    ensures e.role in RoleLevels(rows, geo, escalationOnly) ==> RoleLevels(rows, geo, escalationOnly)[e.role] == e.level
  {
    DecidersAreEntries(rows, geo);
    assert HasDecider(rows, geo, e.role);
  }

  /** A role without one takes part exactly when some deciding row reports to it, and then
      stands one above the highest of those, silent or not. */
  lemma HeadLevel(rows: seq<Row>, geo: Geo, escalationOnly: bool, role: Role)
    requires !HasDecider(rows, geo, role)
    ensures role in RoleLevels(rows, geo, escalationOnly) <==> exists e :: Decides(rows, geo, e) && e.reportsTo == Some(role)
    ensures role in RoleLevels(rows, geo, escalationOnly) ==>
      var level := RoleLevels(rows, geo, escalationOnly)[role];
      && (forall e :: Decides(rows, geo, e) && e.reportsTo == Some(role) ==> e.level < level)
      && (exists e :: Decides(rows, geo, e) && e.reportsTo == Some(role) && e.level + 1 == level)
  {
    DecidersAreEntries(rows, geo);
    var entries := Entries(rows, geo);
    assert forall e :: e in entries && e.reportsTo == Some(role) ==> e.level in LevelsUnder(entries, role);
  }

  function TakingPart(rows: seq<Row>, geo: Geo, escalationOnly: bool): map<Role, nat> {
    var levels := EntryLevels(rows, geo);
    map role | role in levels && (escalationOnly ==> Resolve(rows, role, geo).value.escalates) :: levels[role]
  }

  method ComputeRoleLevels(rows: seq<Row>, geo: Geo, escalationOnly: bool) returns (levels: map<Role, nat>)
    ensures levels == RoleLevels(rows, geo, escalationOnly)
  {
    var entries: seq<Row>;
    levels, entries := ResolveAll(rows, geo);
    var heads := CollectHeads(entries, levels);
    if escalationOnly {
      levels := DropSilent(rows, geo, entries, levels);
    }
    assert levels == TakingPart(rows, geo, escalationOnly);
    levels := levels + heads;
  }

  method ResolveAll(rows: seq<Row>, geo: Geo) returns (levels: map<Role, nat>, entries: seq<Row>)
    ensures levels == EntryLevels(rows, geo)
    ensures Elements(entries) == Entries(rows, geo)
  {
    levels, entries := map[], [];
    var todo := Roles(rows);
    while todo != {}
      invariant todo <= Roles(rows)
      invariant levels == map role | role in EntryLevels(rows, geo) && role !in todo :: EntryLevels(rows, geo)[role]
      invariant forall e :: e in entries ==> e in Entries(rows, geo)
      invariant forall role :: role in Roles(rows) && role !in todo && Resolve(rows, role, geo).Some? ==>
        Resolve(rows, role, geo).value in entries
      decreases todo
    {
      var role :| role in todo;
      todo := todo - {role};
      var entry := ResolveEntry(rows, role, geo);
      if entry.Some? {
        levels := levels[role := entry.value.level];
        entries := entries + [entry.value];
      }
    }
  }

  method DropSilent(rows: seq<Row>, geo: Geo, entries: seq<Row>, all: map<Role, nat>) returns (levels: map<Role, nat>)
    requires all == EntryLevels(rows, geo) && Elements(entries) == Entries(rows, geo)
    ensures levels == TakingPart(rows, geo, true)
  {
    levels := all;
    EntriesDecide(rows, geo);
    for i := 0 to |entries|
      invariant forall role :: role in levels ==> role in all && levels[role] == all[role]
      invariant forall role :: role in all && role !in levels ==> !Resolve(rows, role, geo).value.escalates
      invariant forall k :: 0 <= k < i && !entries[k].escalates ==> entries[k].role !in levels
    {
      assert entries[i] in Elements(entries);
      if !entries[i].escalates {
        levels := levels - {entries[i].role};
      }
    }
    forall role | role in levels ensures Resolve(rows, role, geo).value.escalates {
      assert Resolve(rows, role, geo).value in Elements(entries);
    }
  }

  lemma EntriesDecide(rows: seq<Row>, geo: Geo)
    ensures forall e :: e in Entries(rows, geo) ==> Resolve(rows, e.role, geo) == Some(e)
    ensures forall role :: Resolve(rows, role, geo).Some? ==> Resolve(rows, role, geo).value.role == role
  {
    forall role ensures Resolve(rows, role, geo).Some? ==> Resolve(rows, role, geo).value.role == role {
      ResolveIsDeepest(rows, role, geo);
    }
  }

  /** The heads found so far: one above the highest level seen under each. */
  ghost predicate HeadsOver(heads: map<Role, nat>, entries: set<Row>, levels: map<Role, nat>) {
    && heads.Keys == Tops(entries, levels)
    && (forall h :: h in heads ==> heads[h] > 0 && (heads[h] - 1) as nat in LevelsUnder(entries, h))
    && (forall h, l :: h in heads && l in LevelsUnder(entries, h) ==> l + 1 <= heads[h])
  }

  lemma HeadsOverAreTopLevels(heads: map<Role, nat>, entries: set<Row>, levels: map<Role, nat>)
    requires HeadsOver(heads, entries, levels)
    ensures heads == TopLevels(entries, levels)
  {
  }

  function WithEntry(heads: map<Role, nat>, levels: map<Role, nat>, e: Row): map<Role, nat> {
    if e.reportsTo.None? || e.reportsTo.value in levels then heads
    else
      var head := e.reportsTo.value;
      heads[head := Higher(if head in heads then heads[head] else 0, e.level + 1)]
  }

  lemma LevelsUnderGrow(entries: set<Row>, e: Row, head: Role)
    ensures LevelsUnder(entries + {e}, head) ==
      if e.reportsTo == Some(head) then LevelsUnder(entries, head) + {e.level} else LevelsUnder(entries, head)
  {
  }

  lemma TopsGrow(entries: set<Row>, levels: map<Role, nat>, e: Row)
    ensures Tops(entries + {e}, levels) ==
      if e.reportsTo.None? || e.reportsTo.value in levels then Tops(entries, levels)
      else Tops(entries, levels) + {e.reportsTo.value}
  {
  }

  lemma HeadGrows(heads: map<Role, nat>, entries: set<Row>, levels: map<Role, nat>, e: Row, h: Role)
    requires HeadsOver(heads, entries, levels) && h in WithEntry(heads, levels, e)
    ensures var level := WithEntry(heads, levels, e)[h];
      && level > 0 && (level - 1) as nat in LevelsUnder(entries + {e}, h)
      && forall l :: l in LevelsUnder(entries + {e}, h) ==> l + 1 <= level
  {
    LevelsUnderGrow(entries, e, h);
    if h !in heads {
      assert h !in Tops(entries, levels);
      assert LevelsUnder(entries, h) == {};
    }
  }

  lemma HeadsOverGrows(heads: map<Role, nat>, entries: set<Row>, levels: map<Role, nat>, e: Row)
    requires HeadsOver(heads, entries, levels)
    ensures HeadsOver(WithEntry(heads, levels, e), entries + {e}, levels)
  {
    var grown := WithEntry(heads, levels, e);
    TopsGrow(entries, levels, e);
    forall h | h in grown
      ensures grown[h] > 0 && (grown[h] - 1) as nat in LevelsUnder(entries + {e}, h)
      ensures forall l :: l in LevelsUnder(entries + {e}, h) ==> l + 1 <= grown[h]
    {
      HeadGrows(heads, entries, levels, e, h);
    }
  }

  function Higher(a: nat, b: nat): nat {
    if a > b then a else b
  }

  lemma ElementsGrow(entries: seq<Row>, i: nat)
    requires i < |entries|
    ensures Elements(entries[..i + 1]) == Elements(entries[..i]) + {entries[i]}
  {
  }

  method CollectHeads(entries: seq<Row>, levels: map<Role, nat>) returns (heads: map<Role, nat>)
    ensures heads == TopLevels(Elements(entries), levels)
  {
    heads := map[];
    for i := 0 to |entries|
      invariant HeadsOver(heads, Elements(entries[..i]), levels)
    {
      var entry := entries[i];
      ghost var before := heads;
      if entry.reportsTo.Some? && entry.reportsTo.value !in levels {
        var head := entry.reportsTo.value;
        heads := heads[head := Higher(if head in heads then heads[head] else 0, entry.level + 1)];
      }
      assert heads == WithEntry(before, levels, entry);
      HeadsOverGrows(before, Elements(entries[..i]), levels, entry);
      ElementsGrow(entries, i);
    }
    assert entries[..|entries|] == entries;
    HeadsOverAreTopLevels(heads, Elements(entries), levels);
  }

  // ------------------------------------------------------------------ staff

  function IsLocal(f: Field): bool {
    Depth(f) == 5
  }

  /** Broad columns must all match; of several local bodies any one will do. */
  predicate StaffCovers(staff: Staff, geo: Geo) {
    var scope := staff.Scope();
    && (forall f :: f in scope && !IsLocal(f) ==> f in geo && geo[f] == scope[f])
    && ((exists f :: f in scope && IsLocal(f)) ==>
          exists f :: f in scope && IsLocal(f) && f in geo && geo[f] == scope[f])
  }

  predicate Handles(staff: Staff, level: nat, geo: Geo, levels: map<Role, nat>) {
    staff.active && staff.role in levels && levels[staff.role] == level && StaffCovers(staff, geo)
  }

  /** Sort order of candidates: narrowest scope, then login, then staff id. */
  predicate Preferred(a: Staff, b: Staff) {
    var da, db := Specificity(a.Scope()), Specificity(b.Scope());
    da > db || (da == db && ((a.login && !b.login) || (a.login == b.login && a.id <= b.id)))
  }

  /** The first candidate for the level in sort order. */
  function StaffForLevel(staff: seq<Staff>, level: nat, geo: Geo, levels: map<Role, nat>): Option<Staff> {
    if staff == [] then None
    else
      var rest := StaffForLevel(staff[1..], level, geo, levels);
      if !Handles(staff[0], level, geo, levels) then rest
      else if rest.Some? && !Preferred(staff[0], rest.value) then rest
      else Some(staff[0])
  }

  lemma StaffForLevelIsPreferred(staff: seq<Staff>, level: nat, geo: Geo, levels: map<Role, nat>)
    ensures var r := StaffForLevel(staff, level, geo, levels);
      && (r.Some? ==> r.value in staff && Handles(r.value, level, geo, levels))
      && (forall s :: s in staff && Handles(s, level, geo, levels) ==> r.Some? && Preferred(r.value, s))
  {
  }

  /** The holder is an active member of a role at the level, with nobody before it: none
      with a deeper scope column, of those none with a login where it has none, of those
      none with a lower id. */
  lemma HolderComesFirst(staff: seq<Staff>, level: nat, geo: Geo, levels: map<Role, nat>, s: Staff)
    requires s in staff && s.active && s.role in levels && levels[s.role] == level && StaffCovers(s, geo)
    ensures var r := StaffForLevel(staff, level, geo, levels);
      && r.Some? && r.value in staff && r.value.active && r.value.role in levels && levels[r.value.role] == level
      && StaffCovers(r.value, geo)
      && Specificity(s.Scope()) <= Specificity(r.value.Scope())
      && (Specificity(s.Scope()) == Specificity(r.value.Scope()) ==> r.value.login || !s.login)
      && (Specificity(s.Scope()) == Specificity(r.value.Scope()) && s.login == r.value.login ==> r.value.id <= s.id)
  {
    StaffForLevelIsPreferred(staff, level, geo, levels);
    assert Handles(s, level, geo, levels);
  }

  /** A scope with one of its local bodies kept and the others dropped. */
  function KeepBody(scope: Geo, body: Field): Geo {
    map f | f in scope && (f == body || Depth(f) < 5) :: scope[f]
  }

  /** A member with at most one local body covers what a row with that scope covers; one
      with several covers what any of them would alone. */
  lemma CoversByOneBody(s: Staff, geo: Geo)
    ensures SingleLocalBody(s.Scope()) ==> (StaffCovers(s, geo) <==> Covers(s.Scope(), geo))
    ensures !SingleLocalBody(s.Scope()) ==>
      (StaffCovers(s, geo) <==> exists b :: b in s.Scope() && Depth(b) == 5 && Covers(KeepBody(s.Scope(), b), geo))
  {
    var scope := s.Scope();
    forall b | b in scope && Depth(b) == 5
      ensures Covers(KeepBody(scope, b), geo) <==>
        (forall f :: f in scope && Depth(f) < 5 ==> f in geo && geo[f] == scope[f]) && b in geo && geo[b] == scope[b]
    {
      assert forall f :: f in KeepBody(scope, b) <==> f in scope && (f == b || Depth(f) < 5);
    }
    assert forall f :: IsLocal(f) <==> !(Depth(f) < 5);
  }

  /** What the database says for one ticket's area when it is looked at. */
  datatype Setup = Setup(rows: seq<Row>, staff: seq<Staff>, geo: Geo)

  ghost function Levels(setup: Setup): map<Role, nat> {
    RoleLevels(setup.rows, setup.geo, true)
  }

  ghost predicate Staffed(setup: Setup, level: nat) {
    StaffForLevel(setup.staff, level, setup.geo, Levels(setup)).Some?
  }

  /** The first staffed level above `above`, with its holder. */
  ghost predicate IsNextLevel(setup: Setup, above: nat, next: Option<(nat, Staff)>) {
    if next.Some? then
      && next.value.0 in Levels(setup).Values && next.value.0 > above
      && StaffForLevel(setup.staff, next.value.0, setup.geo, Levels(setup)) == Some(next.value.1)
      && forall l :: l in Levels(setup).Values && above < l < next.value.0 ==> !Staffed(setup, l)
    else
      forall l :: l in Levels(setup).Values && l > above ==> !Staffed(setup, l)
  }

  ghost function StaffedAbove(setup: Setup, above: nat): set<nat> {
    set l | l in Levels(setup).Values && l > above && Staffed(setup, l)
  }

  ghost function NextLevel(setup: Setup, above: nat): Option<(nat, Staff)> {
    var open := StaffedAbove(setup, above);
    if open == {} then None
    else
      var low := MinOf(open);
      Some((low, StaffForLevel(setup.staff, low, setup.geo, Levels(setup)).value))
  }

  lemma NextLevelIsFirst(setup: Setup, above: nat)
    ensures IsNextLevel(setup, above, NextLevel(setup, above))
  {
    var open := StaffedAbove(setup, above);
    assert forall l :: l in Levels(setup).Values && l > above && Staffed(setup, l) ==> l in open;
  }

  ghost function MinOf(s: set<nat>): (m: nat)
    requires s != {}
    ensures m in s && forall x :: x in s ==> m <= x
  {
    var x :| x in s;
    if s == {x} then x
    else
      assert s == {x} + (s - {x});
      var m := MinOf(s - {x});
      if m < x then m else x
  }

  lemma NextLevelUnique(setup: Setup, above: nat, next: Option<(nat, Staff)>)
    requires IsNextLevel(setup, above, next)
    ensures next == NextLevel(setup, above)
  {
    NextLevelIsFirst(setup, above);
    var other := NextLevel(setup, above);
    if next.Some? && other.Some? {
      assert Staffed(setup, next.value.0) && Staffed(setup, other.value.0);
    }
  }

  method SmallestOf(s: set<nat>) returns (m: nat)
    requires s != {}
    ensures m in s && forall x :: x in s ==> m <= x
  {
    m :| m in s;
    var rest := s - {m};
    while rest != {}
      invariant rest <= s && m in s && forall x :: x in s && x !in rest ==> m <= x
      decreases rest
    {
      var x :| x in rest;
      rest := rest - {x};
      if x < m {
        m := x;
      }
    }
  }

  /** `next` is the lowest of the levels above `above` that some staff member handles. */
  ghost predicate FirstHandled(staff: seq<Staff>, geo: Geo, levels: map<Role, nat>, above: nat,
                               next: Option<(nat, Staff)>) {
    if next.Some? then
      && next.value.0 in levels.Values && next.value.0 > above
      && StaffForLevel(staff, next.value.0, geo, levels) == Some(next.value.1)
      && forall l :: l in levels.Values && above < l < next.value.0 ==> StaffForLevel(staff, l, geo, levels).None?
    else
      forall l :: l in levels.Values && l > above ==> StaffForLevel(staff, l, geo, levels).None?
  }

  method FirstHandledLevel(staff: seq<Staff>, geo: Geo, levels: map<Role, nat>, above: nat)
    returns (next: Option<(nat, Staff)>)
    ensures FirstHandled(staff, geo, levels, above, next)
  {
    var left := levels.Values;
    while left != {}
      invariant left <= levels.Values
      invariant forall l :: l in levels.Values && l !in left && l > above ==> StaffForLevel(staff, l, geo, levels).None?
      invariant forall l, k :: l in levels.Values && l !in left && k in left ==> l < k
      decreases left
    {
      var level := SmallestOf(left);
      left := left - {level};
      if level > above {
        var holder := StaffForLevel(staff, level, geo, levels);
        if holder.Some? {
          return Some((level, holder.value));
        }
      }
    }
    return None;
  }

  method NextLevelStaff(setup: Setup, above: nat) returns (next: Option<(nat, Staff)>)
    ensures next == NextLevel(setup, above)
  {
    var levels := ComputeRoleLevels(setup.rows, setup.geo, true);
    next := FirstHandledLevel(setup.staff, setup.geo, levels, above);
    NextLevelUnique(setup, above, next);
  }

  /** The level of a staff member's own role, whether or not escalation is on for it. */
  ghost function OwnLevel(setup: Setup, id: nat): Option<nat> {
    var levels, member := RoleLevels(setup.rows, setup.geo, false), MemberOf(setup.staff, id);
    if member.Some? && member.value.role in levels then Some(levels[member.value.role]) else None
  }

  function MemberOf(staff: seq<Staff>, id: nat): Option<Staff> {
    if staff == [] then None else if staff[0].id == id then Some(staff[0]) else MemberOf(staff[1..], id)
  }

  lemma {:induction false} MemberById(staff: seq<Staff>, s: Staff)
    requires s in staff && forall t :: t in staff && t.id == s.id ==> t == s
    ensures MemberOf(staff, s.id) == Some(s)
  {
    if staff[0].id != s.id {
      assert s in staff[1..];
      MemberById(staff[1..], s);
    } else {
      assert staff[0] in staff;
    }
  }

  /** A member's own level is that of the row deciding for their role, escalation off or
      on; a ticket climbs to that role only with escalation on. */
  lemma SilentRolePlacesOnly(setup: Setup, e: Row, s: Staff)
    requires Decides(setup.rows, setup.geo, e) && s in setup.staff && s.role == e.role
    requires forall t :: t in setup.staff && t.id == s.id ==> t == s
    ensures OwnLevel(setup, s.id) == Some(e.level)
    ensures e.role in Levels(setup) <==> e.escalates
  {
    MemberById(setup.staff, s);
    OwnRowLevel(setup.rows, setup.geo, false, e);
    OwnRowLevel(setup.rows, setup.geo, true, e);
  }

  method OwnLevelOf(setup: Setup, id: nat) returns (level: Option<nat>)
    ensures level == OwnLevel(setup, id)
  {
    var levels := ComputeRoleLevels(setup.rows, setup.geo, false);
    var member := MemberOf(setup.staff, id);
    level := if member.Some? && member.value.role in levels then Some(levels[member.value.role]) else None;
  }
}
