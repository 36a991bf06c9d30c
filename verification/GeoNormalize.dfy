/** Flat geography of a record: the submitted levels over the stored ones are brought
    in line with the narrowest level selected, or refused. Blank ids are "". */
module GeoNormalize {
  import opened Wrappers

  type Id = string

  datatype Level =
    | State | District | AreaType
    | Corporation | Municipality | TownPanchayat | PanchayatUnion | Panchayat
  {
    predicate IsBody() {
      !State? && !District? && !AreaType?
    }
  }

  const BODIES: seq<Level> := [Corporation, Municipality, TownPanchayat, PanchayatUnion, Panchayat]

  /** The ids above a row, as far as its kind has them. */
  datatype Place = Place(state: Id, district: Id, area: Id)

  function Above(place: Place, parent: Level): Id {
    match parent
    case State => place.state
    case District => place.district
    case AreaType => place.area
    case _ => ""
  }

  /** Master rows by id, each with the ids of its parents. */
  datatype Masters = Masters(states: set<Id>, districts: map<Id, Id>, areas: map<Id, Place>, bodies: map<(Level, Id), Place>)

  type Record = map<Level, Id>

  datatype Problem = ManyBodies | Mismatch(level: Level) | NoGeography

  function At(record: Record, level: Level): Id {
    if level in record then record[level] else ""
  }

  /** What was submitted, or else what is stored. */
  function Value(attrs: Record, stored: Record, level: Level): Id {
    if level in attrs then attrs[level] else At(stored, level)
  }

  predicate Exists(m: Masters, level: Level, id: Id) {
    match level
    case State => id in m.states
    case District => id in m.districts
    case AreaType => id in m.areas
    case _ => (level, id) in m.bodies
  }

  function Found(m: Masters, level: Level, id: Id): Id {
    if Exists(m, level, id) then id else ""
  }

  /** Every row's parents exist and agree with each other; no row has a blank id. */
  ghost predicate Tree(m: Masters) {
    && "" !in m.states && "" !in m.districts && "" !in m.areas
    && (forall b :: b in m.bodies ==> b.1 != "")
    && (forall d :: d in m.districts ==> m.districts[d] in m.states)
    && (forall a :: a in m.areas ==> DistrictOk(m, m.areas[a]))
    && (forall b :: b in m.bodies ==>
          && DistrictOk(m, m.bodies[b])
          && m.bodies[b].area in m.areas
          && m.areas[m.bodies[b].area].district == m.bodies[b].district)
  }

  predicate DistrictOk(m: Masters, place: Place) {
    place.district in m.districts && m.districts[place.district] == place.state
  }

  /** Every selected id names a row. */
  ghost predicate Resolvable(m: Masters, attrs: Record, stored: Record) {
    forall l :: Value(attrs, stored, l) == "" || Exists(m, l, Value(attrs, stored, l))
  }

  ghost predicate Sound(m: Masters, attrs: Record, stored: Record) {
    Tree(m) && Resolvable(m, attrs, stored)
  }

  // ------------------------------------------------------ what should come out

  predicate Selected(attrs: Record, stored: Record, level: Level) {
    Value(attrs, stored, level) != ""
  }

  ghost predicate ManySelected(attrs: Record, stored: Record) {
    exists a: Level, b: Level :: a != b && a.IsBody() && b.IsBody() && Selected(attrs, stored, a) && Selected(attrs, stored, b)
  }

  /** A row that pins the levels above it. */
  datatype Anchor = Anchor(place: Place, covers: set<Level>, fills: bool)

  function BodyAnchor(place: Place): Anchor {
    Anchor(place, {State, District, AreaType}, false)
  }

  predicate Rooted(m: Masters, place: Place) {
    Exists(m, State, place.state) && Exists(m, District, place.district) && Exists(m, AreaType, place.area)
  }

  function AreaAnchor(place: Place): Anchor {
    Anchor(place, {State, District}, true)
  }

  function DistrictAnchor(state: Id): Anchor {
    Anchor(Place(state, "", ""), {State}, true)
  }

  /** The local body selected, the first when there are several. */
  function FirstBody(attrs: Record, stored: Record): Option<Level> {
    if Selected(attrs, stored, Corporation) then Some(Corporation)
    else if Selected(attrs, stored, Municipality) then Some(Municipality)
    else if Selected(attrs, stored, TownPanchayat) then Some(TownPanchayat)
    else if Selected(attrs, stored, PanchayatUnion) then Some(PanchayatUnion)
    else if Selected(attrs, stored, Panchayat) then Some(Panchayat)
    else None
  }

  /** An area type, or else a district, only fills in levels that were not submitted. */
  function ParentAnchor(m: Masters, attrs: Record, stored: Record): Anchor {
    var area, district := Value(attrs, stored, AreaType), Value(attrs, stored, District);
    if area in m.areas then AreaAnchor(m.areas[area])
    else if district in m.districts then DistrictAnchor(m.districts[district])
    else Anchor(Place("", "", ""), {}, true)
  }

  /** The narrowest selected level: a local body dictates all three levels above it. */
  function AnchorOf(m: Masters, attrs: Record, stored: Record): Anchor {
    var body := FirstBody(attrs, stored);
    if body.Some? && (body.value, Value(attrs, stored, body.value)) in m.bodies
    then BodyAnchor(m.bodies[(body.value, Value(attrs, stored, body.value))])
    else ParentAnchor(m, attrs, stored)
  }

  predicate Contradicts(attrs: Record, anchor: Anchor, level: Level) {
    level in anchor.covers && At(attrs, level) != "" && At(attrs, level) != Above(anchor.place, level)
  }

  ghost predicate SameBodies(attrs: Record, before: Record) {
    forall l: Level :: l.IsBody() ==> (l in attrs <==> l in before) && At(attrs, l) == At(before, l)
  }

  ghost predicate ClashesWith(attrs: Record, anchor: Anchor) {
    exists l :: Contradicts(attrs, anchor, l)
  }

  /** The level an error names is one that was submitted and is wrong. */
  predicate Blames(problem: Problem, attrs: Record, anchor: Anchor) {
    problem.Mismatch? && Contradicts(attrs, anchor, problem.level)
  }

  /** The submitted levels with those of the anchor written in. */
  function Pinned(attrs: Record, anchor: Anchor): Record {
    attrs + map l | l in anchor.covers && (anchor.fills ==> l !in attrs) :: Above(anchor.place, l)
  }

  const LEVELS: seq<Level> :=
    [State, District, AreaType, Corporation, Municipality, TownPanchayat, PanchayatUnion, Panchayat]

  lemma EveryLevel(level: Level)
    ensures exists i :: 0 <= i < |LEVELS| && LEVELS[i] == level
  {
    var i := match level
      case State => 0
      case District => 1
      case AreaType => 2
      case Corporation => 3
      case Municipality => 4
      case TownPanchayat => 5
      case PanchayatUnion => 6
      case Panchayat => 7;
    assert LEVELS[i] == level;
  }

  ghost predicate HasGeography(attrs: Record, stored: Record) {
    exists l :: Selected(attrs, stored, l)
  }


  /** Two local bodies, a submitted level that is not above the narrowest one, or no
      level at all where one is required. */
  ghost predicate Refused(m: Masters, attrs: Record, stored: Record, requireGeo: bool) {
    ManySelected(attrs, stored) || ClashesWith(attrs, AnchorOf(m, attrs, stored)) || (requireGeo && !HasGeography(attrs, stored))
  }

  function Normalized(m: Masters, attrs: Record, stored: Record): Record {
    Pinned(attrs, AnchorOf(m, attrs, stored))
  }

  lemma PinnedBody(attrs: Record, place: Place)
    ensures Pinned(attrs, BodyAnchor(place)) == attrs[State := place.state][District := place.district][AreaType := place.area]
    ensures ClashesWith(attrs, BodyAnchor(place)) <==>
      || (At(attrs, State) != "" && At(attrs, State) != place.state)
      || (At(attrs, District) != "" && At(attrs, District) != place.district)
      || (At(attrs, AreaType) != "" && At(attrs, AreaType) != place.area)
  {
    var anchor := BodyAnchor(place);
    assert Contradicts(attrs, anchor, State) <==> At(attrs, State) != "" && At(attrs, State) != place.state;
    assert Contradicts(attrs, anchor, District) <==> At(attrs, District) != "" && At(attrs, District) != place.district;
    assert Contradicts(attrs, anchor, AreaType) <==> At(attrs, AreaType) != "" && At(attrs, AreaType) != place.area;
    assert forall l: Level :: l in anchor.covers <==> l == State || l == District || l == AreaType;
  }

  lemma PinnedArea(attrs: Record, place: Place)
    ensures Pinned(attrs, AreaAnchor(place)) == map[State := place.state, District := place.district] + attrs
    ensures ClashesWith(attrs, AreaAnchor(place)) <==>
      || (At(attrs, State) != "" && At(attrs, State) != place.state)
      || (At(attrs, District) != "" && At(attrs, District) != place.district)
  {
    var anchor := AreaAnchor(place);
    assert Contradicts(attrs, anchor, State) <==> At(attrs, State) != "" && At(attrs, State) != place.state;
    assert Contradicts(attrs, anchor, District) <==> At(attrs, District) != "" && At(attrs, District) != place.district;
    assert forall l: Level :: l in anchor.covers <==> l == State || l == District;
  }

  lemma PinnedDistrict(attrs: Record, state: Id)
    ensures Pinned(attrs, DistrictAnchor(state)) == map[State := state] + attrs
    ensures ClashesWith(attrs, DistrictAnchor(state)) <==> At(attrs, State) != "" && At(attrs, State) != state
  {
    var anchor := DistrictAnchor(state);
    assert Contradicts(attrs, anchor, State) <==> At(attrs, State) != "" && At(attrs, State) != state;
    assert forall l: Level :: l in anchor.covers <==> l == State;
  }

  /** With a local body selected, state, district and area type are written in as its row
      has them, and refused when another was submitted. */
  lemma BodyDecides(m: Masters, attrs: Record, stored: Record, body: Level)
    requires Sound(m, attrs, stored) && !ManySelected(attrs, stored)
    requires body.IsBody() && (if body in attrs then attrs[body] else At(stored, body)) != ""
    ensures var id := if body in attrs then attrs[body] else At(stored, body);
      (body, id) in m.bodies
    ensures var place := m.bodies[(body, if body in attrs then attrs[body] else At(stored, body))];
      && Normalized(m, attrs, stored) == attrs[State := place.state][District := place.district][AreaType := place.area]
      && (ClashesWith(attrs, AnchorOf(m, attrs, stored)) <==>
            || (At(attrs, State) != "" && At(attrs, State) != place.state)
            || (At(attrs, District) != "" && At(attrs, District) != place.district)
            || (At(attrs, AreaType) != "" && At(attrs, AreaType) != place.area))
  {
    assert Exists(m, body, Value(attrs, stored, body));
    forall l: Level ensures l == body <==> l.IsBody() && Selected(attrs, stored, l) {
      assert Selected(attrs, stored, body);
    }
    OneBody(attrs, stored, body);
    PinnedBody(attrs, m.bodies[(body, Value(attrs, stored, body))]);
  }

  /** Without one, an area type, or else a district, fills in the levels above it that
      were not submitted, and refuses those that were when its row has others. */
  lemma ParentDecides(m: Masters, attrs: Record, stored: Record)
    requires Sound(m, attrs, stored) && forall b: Level :: b.IsBody() ==> Value(attrs, stored, b) == ""
    ensures var area := if AreaType in attrs then attrs[AreaType] else At(stored, AreaType);
      var district := if District in attrs then attrs[District] else At(stored, District);
      var clash := ClashesWith(attrs, AnchorOf(m, attrs, stored)); var out := Normalized(m, attrs, stored);
      if area != "" then
        && area in m.areas && out == map[State := m.areas[area].state, District := m.areas[area].district] + attrs
        && (clash <==>
              || (At(attrs, State) != "" && At(attrs, State) != m.areas[area].state)
              || (At(attrs, District) != "" && At(attrs, District) != m.areas[area].district))
      else if district != "" then
        && district in m.districts && out == map[State := m.districts[district]] + attrs
        && (clash <==> At(attrs, State) != "" && At(attrs, State) != m.districts[district])
      else !clash && out == attrs
  {
    var area, district := Value(attrs, stored, AreaType), Value(attrs, stored, District);
    assert area == "" || Exists(m, AreaType, area);
    assert district == "" || Exists(m, District, district);
    forall b: Level | b.IsBody() ensures !Selected(attrs, stored, b) {
    }
    NoBody(attrs, stored);
    if area != "" {
      PinnedArea(attrs, m.areas[area]);
    } else if district != "" {
      PinnedDistrict(attrs, m.districts[district]);
    } else {
      assert Pinned(attrs, ParentAnchor(m, attrs, stored)) == attrs;
    }
  }

  lemma OneBody(attrs: Record, stored: Record, body: Level)
    requires forall l: Level :: l == body <==> l.IsBody() && Selected(attrs, stored, l)
    ensures FirstBody(attrs, stored) == Some(body)
    ensures !ManySelected(attrs, stored)
  {
    assert Selected(attrs, stored, body) && body.IsBody();
    assert forall l: Level :: l.IsBody() && l != body ==> !Selected(attrs, stored, l);
  }

  /** Once a local body has pinned the levels above it, the area type among them has
      nothing left to refuse or to fill in. */
  lemma BodyThenParents(m: Masters, attrs: Record, stored: Record, place: Place)
    requires Tree(m) && DistrictOk(m, place) && place.area in m.areas && m.areas[place.area].district == place.district
    ensures var pinned := Pinned(attrs, BodyAnchor(place)); var anchor := ParentAnchor(m, pinned, stored);
      !ClashesWith(pinned, anchor) && Pinned(pinned, anchor) == pinned
  {
    var pinned := Pinned(attrs, BodyAnchor(place));
    var anchor := ParentAnchor(m, pinned, stored);
    assert pinned[AreaType] == place.area && pinned[District] == place.district && pinned[State] == place.state;
    assert anchor == AreaAnchor(m.areas[place.area]);
  }

  lemma PinnedKeepsGeography(m: Masters, attrs: Record, stored: Record, anchor: Anchor)
    requires anchor.covers <= {State, District, AreaType}
    requires forall l :: l in anchor.covers ==> Above(anchor.place, l) != ""
    requires anchor.covers == {} || HasGeography(attrs, stored)
    ensures HasGeography(Pinned(attrs, anchor), stored) <==> HasGeography(attrs, stored)
  {
    if HasGeography(attrs, stored) {
      var l :| Selected(attrs, stored, l);
      assert Selected(Pinned(attrs, anchor), stored, l);
    } else {
      assert Pinned(attrs, anchor) == attrs;
    }
  }

  class GeoForm {
    var attrs: Record
    const stored: Record

    constructor (attrs: Record, stored: Record)
      ensures this.attrs == attrs && this.stored == stored
    {
      this.attrs, this.stored := attrs, stored;
    }

    method SelectedBodies() returns (selected: seq<Level>)
      ensures forall l :: l in selected <==> l.IsBody() && Selected(attrs, stored, l)
      ensures forall i, j :: 0 <= i < j < |selected| ==> selected[i] != selected[j]
    {
      selected := [];
      for i := 0 to |BODIES|
        invariant forall l :: l in selected <==> l in BODIES[..i] && Selected(attrs, stored, l)
        invariant forall j, k :: 0 <= j < k < |selected| ==> selected[j] != selected[k]
      {
        assert BODIES[i] !in BODIES[..i];
        if Value(attrs, stored, BODIES[i]) != "" {
          selected := selected + [BODIES[i]];
        }
      }
      assert forall l: Level :: l in BODIES <==> l.IsBody();
    }

    /** A level above the selected local body, when its row exists, is written in, unless
        another was submitted. */
    method PinParent(m: Masters, parent: Level, id: Id) returns (error: Option<Problem>)
      requires !parent.IsBody()
      modifies this`attrs
      ensures error.Some? <==> Exists(m, parent, id) && old(At(attrs, parent)) != "" && old(At(attrs, parent)) != id
      ensures error.Some? ==> error == Some(Mismatch(parent))
      ensures attrs == if error.None? && Exists(m, parent, id) then old(attrs)[parent := id] else old(attrs)
    {
      if !Exists(m, parent, id) {
        return None;
      }
      if parent in attrs && attrs[parent] != "" && attrs[parent] != id {
        return Some(Mismatch(parent));
      }
      attrs := attrs[parent := id];
      return None;
    }

    method PinUpper(m: Masters, place: Place) returns (error: Option<Problem>)
      modifies this`attrs
      ensures SameBodies(attrs, old(attrs)) && At(attrs, AreaType) == old(At(attrs, AreaType))
      ensures error.Some? ==> error.value in {Mismatch(State), Mismatch(District)}
      ensures error.Some? ==> Contradicts(old(attrs), BodyAnchor(place), error.value.level)
      ensures error.None? && Rooted(m, place) ==> attrs == old(attrs)[State := place.state][District := place.district]
      ensures error.None? && Rooted(m, place) ==>
        !Contradicts(old(attrs), BodyAnchor(place), State) && !Contradicts(old(attrs), BodyAnchor(place), District)
    {
      error := PinParent(m, State, place.state);
      if error.None? {
        error := PinParent(m, District, place.district);
      }
    }

    method PinToBody(m: Masters, place: Place) returns (error: Option<Problem>)
      modifies this`attrs
      ensures SameBodies(attrs, old(attrs))
      ensures error.Some? ==> Blames(error.value, old(attrs), BodyAnchor(place))
      ensures Rooted(m, place) ==> (error.Some? <==> ClashesWith(old(attrs), BodyAnchor(place)))
      ensures Rooted(m, place) && error.None? ==> attrs == Pinned(old(attrs), BodyAnchor(place))
    {
      PinnedBody(attrs, place);
      error := PinUpper(m, place);
      if error.None? {
        error := PinParent(m, AreaType, place.area);
      }
    }

    /** The area type refuses a submitted level that is not above it and fills in those
        not submitted. */
    method AlignArea(m: Masters, place: Place) returns (error: Option<Problem>)
      requires Value(attrs, stored, AreaType) in m.areas && place == m.areas[Value(attrs, stored, AreaType)]
      modifies this`attrs
      ensures SameBodies(attrs, old(attrs)) && (error.Some? ==> error.value.Mismatch?)
      ensures Sound(m, old(attrs), stored) && error.Some? ==> Blames(error.value, old(attrs), AreaAnchor(place))
      ensures Sound(m, old(attrs), stored) ==>
        (error.Some? <==> ClashesWith(old(attrs), AreaAnchor(place)))
      ensures Sound(m, old(attrs), stored) && error.None? ==> attrs == Pinned(old(attrs), AreaAnchor(place))
    {
      var district, state := Value(attrs, stored, District), Value(attrs, stored, State);
      ghost var sound := Sound(m, attrs, stored);
      if District in attrs && district in m.districts && district != place.district {
        assert sound ==> Contradicts(attrs, AreaAnchor(place), District);
        return Some(Mismatch(District));
      }
      if State in attrs && state in m.states && state != place.state {
        assert sound ==> Contradicts(attrs, AreaAnchor(place), State);
        return Some(Mismatch(State));
      }
      assert sound ==> !Contradicts(attrs, AreaAnchor(place), District) && !Contradicts(attrs, AreaAnchor(place), State);
      FillIn(District, Found(m, District, place.district));
      FillIn(State, Found(m, State, place.state));
      return None;
    }

    method AlignDistrict(m: Masters, above: Id) returns (error: Option<Problem>)
      requires Value(attrs, stored, District) in m.districts && above == m.districts[Value(attrs, stored, District)]
      modifies this`attrs
      ensures SameBodies(attrs, old(attrs)) && (error.Some? ==> error.value.Mismatch?)
      ensures Sound(m, old(attrs), stored) && error.Some? ==> Blames(error.value, old(attrs), DistrictAnchor(above))
      ensures Sound(m, old(attrs), stored) ==>
        (error.Some? <==> ClashesWith(old(attrs), DistrictAnchor(above)))
      ensures Sound(m, old(attrs), stored) && error.None? ==> attrs == Pinned(old(attrs), DistrictAnchor(above))
    {
      var state := Value(attrs, stored, State);
      ghost var sound := Sound(m, attrs, stored);
      if State in attrs && state in m.states && state != above {
        assert sound ==> Contradicts(attrs, DistrictAnchor(above), State);
        return Some(Mismatch(State));
      }
      assert sound ==> !Contradicts(attrs, DistrictAnchor(above), State);
      FillIn(State, Found(m, State, above));
      return None;
    }

    method AlignParents(m: Masters) returns (error: Option<Problem>)
      modifies this`attrs
      ensures SameBodies(attrs, old(attrs)) && (error.Some? ==> error.value.Mismatch?)
      ensures Sound(m, old(attrs), stored) && error.Some? ==> Blames(error.value, old(attrs), ParentAnchor(m, old(attrs), stored))
      ensures Sound(m, old(attrs), stored) ==>
        (error.Some? <==> ClashesWith(old(attrs), ParentAnchor(m, old(attrs), stored)))
      ensures Sound(m, old(attrs), stored) && error.None? ==>
        attrs == Pinned(old(attrs), ParentAnchor(m, old(attrs), stored))
    {
      var area, district := Value(attrs, stored, AreaType), Value(attrs, stored, District);
      if area in m.areas {
        error := AlignArea(m, m.areas[area]);
      } else if district in m.districts {
        error := AlignDistrict(m, m.districts[district]);
      } else {
        error := None;
        assert Pinned(attrs, ParentAnchor(m, attrs, stored)) == attrs;
      }
    }

    method FillIn(level: Level, id: Id)
      modifies this`attrs
      ensures attrs == if level in old(attrs) then old(attrs) else old(attrs)[level := id]
    {
      if level !in attrs {
        attrs := attrs[level := id];
      }
    }

    method HasAny() returns (any: bool)
      ensures any <==> HasGeography(attrs, stored)
    {
      for i := 0 to |LEVELS|
        invariant forall j :: 0 <= j < i ==> !Selected(attrs, stored, LEVELS[j])
      {
        if Value(attrs, stored, LEVELS[i]) != "" {
          assert Selected(attrs, stored, LEVELS[i]);
          return true;
        }
      }
      forall l ensures !Selected(attrs, stored, l) {
        EveryLevel(l);
      }
      return false;
    }

    /** First the one local body selected, if it names a row, then the parents. */
    method Align(m: Masters, selected: seq<Level>) returns (error: Option<Problem>)
      requires |selected| <= 1
      requires forall l: Level :: l in selected <==> l.IsBody() && Selected(attrs, stored, l)
      modifies this`attrs
      ensures SameBodies(attrs, old(attrs)) && (error.Some? ==> error.value.Mismatch?)
      ensures Sound(m, old(attrs), stored) && error.Some? ==> Blames(error.value, old(attrs), AnchorOf(m, old(attrs), stored))
      ensures Sound(m, old(attrs), stored) ==>
        (error.Some? <==> ClashesWith(old(attrs), AnchorOf(m, old(attrs), stored)))
      ensures Sound(m, old(attrs), stored) && error.None? ==> attrs == Normalized(m, old(attrs), stored)
    {
      if |selected| == 1 {
        var body := selected[0];
        OneBody(attrs, stored, body);
        if (body, Value(attrs, stored, body)) in m.bodies {
          error := AlignToBody(m, m.bodies[(body, Value(attrs, stored, body))]);
          return;
        }
      } else {
        NoBody(attrs, stored);
      }
      assert AnchorOf(m, attrs, stored) == ParentAnchor(m, attrs, stored);
      error := AlignParents(m);
    }

    method AlignToBody(m: Masters, place: Place) returns (error: Option<Problem>)
      requires place in m.bodies.Values
      modifies this`attrs
      ensures SameBodies(attrs, old(attrs)) && (error.Some? ==> error.value.Mismatch?)
      ensures Sound(m, old(attrs), stored) && error.Some? ==> Blames(error.value, old(attrs), BodyAnchor(place))
      ensures Sound(m, old(attrs), stored) ==> (error.Some? <==> ClashesWith(old(attrs), BodyAnchor(place)))
      ensures Sound(m, old(attrs), stored) && error.None? ==> attrs == Pinned(old(attrs), BodyAnchor(place))
    {
      ghost var was := attrs;
      error := PinToBody(m, place);
      if error.None? {
        error := AlignPinned(m, was, place);
      }
    }

    method AlignPinned(m: Masters, ghost was: Record, place: Place) returns (error: Option<Problem>)
      modifies this`attrs
      ensures SameBodies(attrs, old(attrs)) && (error.Some? ==> error.value.Mismatch?)
      ensures Sound(m, was, stored) && place in m.bodies.Values && old(attrs) == Pinned(was, BodyAnchor(place)) ==>
        error.None? && attrs == old(attrs)
    {
      ghost var sound :=
        Sound(m, was, stored) && place in m.bodies.Values && attrs == Pinned(was, BodyAnchor(place));
      if sound {
        PinnedResolves(m, was, stored, BodyAnchor(place));
        BodyThenParents(m, was, stored, place);
      }
      error := AlignParents(m);
    }

    /** With masters that form a tree and ids that name rows, the form is refused exactly
        when it should be, and otherwise is the submitted one with the narrowest level's
        parents written in. Whatever the masters, an accepted form has one local body. */
    method Normalize(m: Masters, requireGeo: bool) returns (error: Option<Problem>)
      modifies this`attrs
      ensures error.None? ==> !ManySelected(attrs, stored)
      ensures Sound(m, old(attrs), stored) ==> (error.Some? <==> Refused(m, old(attrs), stored, requireGeo))
      ensures error == Some(ManyBodies) <==> ManySelected(old(attrs), stored)
      ensures Sound(m, old(attrs), stored) && error.Some? && error.value.Mismatch? ==>
        Blames(error.value, old(attrs), AnchorOf(m, old(attrs), stored))
      ensures Sound(m, old(attrs), stored) && error.None? ==> attrs == Normalized(m, old(attrs), stored)
    {
      ghost var was := attrs;
      var selected := SelectedBodies();
      if |selected| > 1 {
        assert ManySelected(attrs, stored) by {
          assert selected[0] in selected && selected[1] in selected && selected[0] != selected[1];
        }
        return Some(ManyBodies);
      }
      AtMostOne(attrs, stored, selected);
      error := Align(m, selected);
      SameBodiesSameCount(attrs, was, stored);
      if error.Some? {
        return;
      }
      var any := HasAny();
      if Sound(m, was, stored) {
        NormalizedKeepsGeography(m, was, stored);
      }
      if requireGeo && !any {
        return Some(NoGeography);
      }
      return None;
    }
  }

  lemma NoBody(attrs: Record, stored: Record)
    requires forall l: Level :: l.IsBody() ==> !Selected(attrs, stored, l)
    ensures FirstBody(attrs, stored).None?
  {
  }

  lemma AtMostOne(attrs: Record, stored: Record, selected: seq<Level>)
    requires |selected| <= 1
    requires forall l: Level :: l in selected <==> l.IsBody() && Selected(attrs, stored, l)
    ensures !ManySelected(attrs, stored)
  {
    assert forall l :: l in selected ==> l == selected[0];
  }

  lemma SameBodiesSameCount(attrs: Record, before: Record, stored: Record)
    requires SameBodies(attrs, before)
    ensures ManySelected(attrs, stored) <==> ManySelected(before, stored)
  {
    forall l: Level | l.IsBody() ensures Selected(attrs, stored, l) <==> Selected(before, stored, l) {
      assert At(attrs, l) == At(before, l);
    }
  }

  lemma AnchorIsRooted(m: Masters, attrs: Record, stored: Record)
    requires Sound(m, attrs, stored)
    ensures var anchor := AnchorOf(m, attrs, stored);
      && anchor.covers <= {State, District, AreaType}
      && (forall l :: l in anchor.covers ==> Exists(m, l, Above(anchor.place, l)) && Above(anchor.place, l) != "")
      && (anchor.covers == {} || HasGeography(attrs, stored))
  {
    var body := FirstBody(attrs, stored);
    if body.Some? {
      assert Selected(attrs, stored, body.value);
    } else if Value(attrs, stored, AreaType) in m.areas {
      assert Selected(attrs, stored, AreaType);
    } else if Value(attrs, stored, District) in m.districts {
      assert Selected(attrs, stored, District);
    }
  }

  lemma NormalizedKeepsGeography(m: Masters, attrs: Record, stored: Record)
    requires Sound(m, attrs, stored)
    ensures HasGeography(Normalized(m, attrs, stored), stored) <==> HasGeography(attrs, stored)
  {
    AnchorIsRooted(m, attrs, stored);
    PinnedKeepsGeography(m, attrs, stored, AnchorOf(m, attrs, stored));
  }

  /** The levels of an accepted record: all those of its local body, or blank or true. */
  ghost predicate TrueAbove(m: Masters, attrs: Record, stored: Record) {
    var area, district, state := Value(attrs, stored, AreaType), Value(attrs, stored, District), Value(attrs, stored, State);
    && (forall b: Level :: b.IsBody() && Selected(attrs, stored, b) ==>
      (b, Value(attrs, stored, b)) in m.bodies && m.bodies[(b, Value(attrs, stored, b))] == Place(state, district, area))
    && (area != "" ==> area in m.areas && district in {"", m.areas[area].district} && state in {"", m.areas[area].state})
    && (district != "" ==> district in m.districts && state in {"", m.districts[district]})
  }

  /** What pinning does to each level. */
  lemma PinnedValue(attrs: Record, stored: Record, anchor: Anchor, l: Level)
    ensures var out := Pinned(attrs, anchor);
      && (l !in anchor.covers ==> Value(out, stored, l) == Value(attrs, stored, l) && (l in out <==> l in attrs))
      && (l in anchor.covers ==> l in out)
      && (l in anchor.covers && !ClashesWith(attrs, anchor) ==> out[l] == Above(anchor.place, l) || (anchor.fills && out[l] == ""))
  {
    assert !ClashesWith(attrs, anchor) ==> !Contradicts(attrs, anchor, l);
  }

  lemma PinnedResolves(m: Masters, attrs: Record, stored: Record, anchor: Anchor)
    requires Resolvable(m, attrs, stored)
    requires forall l :: l in anchor.covers ==> Exists(m, l, Above(anchor.place, l))
    ensures Resolvable(m, Pinned(attrs, anchor), stored)
  {
    forall l ensures var v := Value(Pinned(attrs, anchor), stored, l); v == "" || Exists(m, l, v) {
      PinnedValue(attrs, stored, anchor, l);
    }
  }

  lemma PinnedTwice(attrs: Record, anchor: Anchor)
    requires !ClashesWith(attrs, anchor)
    ensures var out := Pinned(attrs, anchor); !ClashesWith(out, anchor) && Pinned(out, anchor) == out
  {
    var out := Pinned(attrs, anchor);
    forall l ensures !Contradicts(out, anchor, l) {
      PinnedValue(attrs, map[], anchor, l);
    }
    forall l | l in anchor.covers && (anchor.fills ==> l !in out) ensures l in out && out[l] == Above(anchor.place, l) {
      PinnedValue(attrs, map[], anchor, l);
    }
  }

  /** The three ways a record is anchored leave the levels above it true. */
  lemma TrueUnderBody(m: Masters, attrs: Record, stored: Record, body: Level)
    requires Tree(m) && !ManySelected(attrs, stored)
    requires body.IsBody() && Selected(attrs, stored, body) && (body, Value(attrs, stored, body)) in m.bodies
    ensures TrueAbove(m, Pinned(attrs, BodyAnchor(m.bodies[(body, Value(attrs, stored, body))])), stored)
  {
    var place := m.bodies[(body, Value(attrs, stored, body))];
    var out := Pinned(attrs, BodyAnchor(place));
    assert out[State] == place.state && out[District] == place.district && out[AreaType] == place.area;
    forall b: Level | b.IsBody() && Selected(out, stored, b) ensures b == body && Value(out, stored, b) == Value(attrs, stored, b) {
      assert Selected(attrs, stored, b);
    }
  }

  lemma TrueUnderParent(m: Masters, attrs: Record, stored: Record)
    requires Sound(m, attrs, stored) && !ClashesWith(attrs, ParentAnchor(m, attrs, stored))
    requires forall b: Level :: b.IsBody() ==> !Selected(attrs, stored, b)
    ensures TrueAbove(m, Pinned(attrs, ParentAnchor(m, attrs, stored)), stored)
  {
    var anchor := ParentAnchor(m, attrs, stored);
    var out := Pinned(attrs, anchor);
    forall l ensures l !in anchor.covers ==> Value(out, stored, l) == Value(attrs, stored, l) {
      PinnedValue(attrs, stored, anchor, l);
    }
    PinnedValue(attrs, stored, anchor, State);
    PinnedValue(attrs, stored, anchor, District);
    assert Value(attrs, stored, AreaType) == "" || Exists(m, AreaType, Value(attrs, stored, AreaType));
    assert Value(attrs, stored, District) == "" || Exists(m, District, Value(attrs, stored, District));
    assert forall b: Level :: b.IsBody() ==> !Selected(out, stored, b);
  }

  lemma NoFirstBody(attrs: Record, stored: Record, b: Level)
    requires FirstBody(attrs, stored).None? && b.IsBody()
    ensures !Selected(attrs, stored, b)
  {
  }

  lemma FirstBodyNames(m: Masters, attrs: Record, stored: Record)
    requires Resolvable(m, attrs, stored) && FirstBody(attrs, stored).Some?
    ensures var b := FirstBody(attrs, stored).value;
      b.IsBody() && Selected(attrs, stored, b) && (b, Value(attrs, stored, b)) in m.bodies
  {
    var b := FirstBody(attrs, stored).value;
    assert Exists(m, b, Value(attrs, stored, b));
  }

  /** An accepted record lies on one path of the tree, as far as it is filled in. */
  lemma AcceptedIsTrue(m: Masters, attrs: Record, stored: Record, requireGeo: bool)
    requires Sound(m, attrs, stored) && !Refused(m, attrs, stored, requireGeo)
    ensures TrueAbove(m, Normalized(m, attrs, stored), stored)
  {
    if FirstBody(attrs, stored).Some? {
      FirstBodyNames(m, attrs, stored);
      TrueUnderBody(m, attrs, stored, FirstBody(attrs, stored).value);
    } else {
      forall b: Level | b.IsBody() ensures !Selected(attrs, stored, b) {
        NoFirstBody(attrs, stored, b);
      }
      TrueUnderParent(m, attrs, stored);
    }
  }

  lemma BodiesStay(m: Masters, attrs: Record, stored: Record, anchor: Anchor, l: Level)
    requires anchor.covers <= {State, District, AreaType} && l.IsBody()
    ensures Value(Pinned(attrs, anchor), stored, l) == Value(attrs, stored, l)
    ensures At(Pinned(attrs, anchor), l) == At(attrs, l) && (l in Pinned(attrs, anchor) <==> l in attrs)
  {
  }

  lemma FirstBodyStays(attrs: Record, out: Record, stored: Record)
    requires forall l: Level :: l.IsBody() ==> Value(out, stored, l) == Value(attrs, stored, l)
    ensures FirstBody(out, stored) == FirstBody(attrs, stored)
  {
  }

  lemma ParentAnchorStays(m: Masters, attrs: Record, stored: Record)
    requires Sound(m, attrs, stored)
    ensures var anchor := ParentAnchor(m, attrs, stored); ParentAnchor(m, Pinned(attrs, anchor), stored) == anchor
  {
    var anchor := ParentAnchor(m, attrs, stored);
    PinnedValue(attrs, stored, anchor, AreaType);
    if Value(attrs, stored, AreaType) !in m.areas {
      PinnedValue(attrs, stored, anchor, District);
    }
  }

  /** Pinning does not change what a record is anchored to. */
  lemma AnchorStays(m: Masters, attrs: Record, stored: Record)
    requires Sound(m, attrs, stored)
    ensures AnchorOf(m, Normalized(m, attrs, stored), stored) == AnchorOf(m, attrs, stored)
    ensures SameBodies(Normalized(m, attrs, stored), attrs)
  {
    AnchorIsRooted(m, attrs, stored);
    var out, anchor := Normalized(m, attrs, stored), AnchorOf(m, attrs, stored);
    forall l: Level | l.IsBody()
      ensures Value(out, stored, l) == Value(attrs, stored, l) && At(out, l) == At(attrs, l) && (l in out <==> l in attrs)
    {
      BodiesStay(m, attrs, stored, anchor, l);
    }
    FirstBodyStays(attrs, out, stored);
    if FirstBody(attrs, stored).Some? {
      FirstBodyNames(m, attrs, stored);
    } else {
      ParentAnchorStays(m, attrs, stored);
    }
  }

  /** Normalizing an accepted record again succeeds and changes nothing. */
  lemma NormalizingAgainChangesNothing(m: Masters, attrs: Record, stored: Record, requireGeo: bool)
    requires Sound(m, attrs, stored) && !Refused(m, attrs, stored, requireGeo)
    ensures var out := Normalized(m, attrs, stored);
      Resolvable(m, out, stored) && !Refused(m, out, stored, requireGeo) && Normalized(m, out, stored) == out
  {
    AnchorIsRooted(m, attrs, stored);
    PinnedResolves(m, attrs, stored, AnchorOf(m, attrs, stored));
    NormalizedKeepsGeography(m, attrs, stored);
    AnchorStays(m, attrs, stored);
    SameBodiesSameCount(Normalized(m, attrs, stored), attrs, stored);
    PinnedTwice(attrs, AnchorOf(m, attrs, stored));
  }
}
