/** Cascade soft delete: the rows a delete sweeps up, what is stamped on them,
    and the cache scopes that are invalidated for it. */
module CascadeDelete {
  import opened Wrappers
  import opened GraphWalk

  type Model = string

  datatype RowId = RowId(model: Model, pk: string)

  datatype Record = Record(deleted: bool, active: bool, deletedAt: Option<int>, updatedAt: Option<int>,
                           deletedBy: Option<string>, updatedBy: Option<string>, reason: Option<string>)

  /** Which optional columns a model's table has. */
  datatype Columns = Columns(deletedAt: bool, updatedAt: bool, deletedBy: bool, updatedBy: bool, reason: bool)

  /** Declarations on the model classes. `childModel` is what the class level can
      resolve: real reverse relations and registered string references. */
  datatype Schema = Schema(cascade: map<Model, seq<string>>, childModel: map<(Model, string), Model>,
                           scopes: map<Model, set<string>>, columns: map<Model, Columns>)

  /** The rows behind each row's relation, where the relation resolves. */
  type Related = map<(RowId, string), seq<RowId>>

  function CascadeOf(schema: Schema, model: Model): seq<string> {
    if model in schema.cascade then schema.cascade[model] else []
  }

  function ColumnsOf(schema: Schema, model: Model): Columns {
    if model in schema.columns then schema.columns[model] else Columns(false, false, false, false, false)
  }

  // ---------------------------------------------------------------- row graph

  function Behind(related: Related, id: RowId, rel: string): seq<RowId> {
    if (id, rel) in related then related[(id, rel)] else []
  }

  function Children(related: Related, id: RowId, rels: seq<string>): seq<RowId> {
    if rels == [] then [] else Children(related, id, rels[..|rels| - 1]) + Behind(related, id, rels[|rels| - 1])
  }

  lemma ChildComesFromRelation(related: Related, id: RowId, rels: seq<string>, child: RowId)
    ensures child in Children(related, id, rels) <==> exists rel :: rel in rels && child in Behind(related, id, rel)
  {
    if rels != [] {
      var prefix, last := rels[..|rels| - 1], rels[|rels| - 1];
      ChildComesFromRelation(related, id, prefix, child);
      assert rels == prefix + [last];
    }
  }

  function RowGraph(schema: Schema, related: Related, rows: set<RowId>): Graph<RowId> {
    map id | id in rows :: Children(related, id, CascadeOf(schema, id.model))
  }

  /** One step of the walk: from a row to one behind a relation its model declares. */
  lemma RowStepExactly(schema: Schema, related: Related, rows: set<RowId>, id: RowId, child: RowId)
    ensures IsStep(RowGraph(schema, related, rows), id, child) <==>
      && id in rows && id.model in schema.cascade
      && exists rel :: rel in schema.cascade[id.model] && (id, rel) in related && child in related[(id, rel)]
  {
    ChildComesFromRelation(related, id, CascadeOf(schema, id.model), child);
    if rel :| rel in CascadeOf(schema, id.model) && child in Behind(related, id, rel) {
      assert (id, rel) in related;
    }
    if id in rows && id.model in schema.cascade {
      forall rel | rel in schema.cascade[id.model] && (id, rel) in related && child in related[(id, rel)]
        ensures child in Behind(related, id, rel)
      {
      }
    }
  }

  predicate Integral(related: Related, rows: set<RowId>) {
    forall key, child :: key in related && child in related[key] ==> child in rows
  }

  lemma RowGraphIsFinite(schema: Schema, related: Related, rows: set<RowId>)
    requires Integral(related, rows)
    ensures Finite(RowGraph(schema, related, rows))
  {
    forall id, child | id in rows && child in Children(related, id, CascadeOf(schema, id.model)) ensures child in rows {
      ChildComesFromRelation(related, id, CascadeOf(schema, id.model), child);
    }
  }

  // ----------------------------------------------------------------- stamping

  const REASON_LIMIT: nat := 500

  function Truncate(text: string): string {
    if |text| <= REASON_LIMIT then text else text[..REASON_LIMIT]
  }

  function Tag(root: RowId): string {
    " (cascaded from " + root.model + " " + root.pk + ")"
  }

  function CascadedReason(reason: string, root: RowId): string {
    Truncate(reason + Tag(root))
  }

  /** One delete: who, when and why, for the root and for the rows below it; an
      empty reason counts as none. */
  datatype Delete = Delete(root: RowId, now: int, updatedBy: Option<string>, deletedBy: Option<string>,
                           reason: string, tagged: string)

  /** The delete a call asks for: the reason is cut to its column, and whoever
      updated the rows deleted them unless someone else is named. */
  function DeleteOf(root: RowId, now: int, updatedBy: Option<string>, deletedBy: Option<string>,
                    rawReason: string): Delete {
    var reason := Truncate(rawReason);
    Delete(root, now, updatedBy, if deletedBy.None? then updatedBy else deletedBy, reason, CascadedReason(reason, root))
  }

  function Stamped(r: Record, cols: Columns, d: Delete): Record {
    r.(deleted := true, active := false,
       deletedAt := if cols.deletedAt then Some(d.now) else r.deletedAt,
       updatedAt := if cols.updatedAt then Some(d.now) else r.updatedAt,
       updatedBy := if cols.updatedBy && d.updatedBy.Some? then d.updatedBy else r.updatedBy,
       deletedBy := if cols.deletedBy && d.deletedBy.Some? then d.deletedBy else r.deletedBy)
  }

  function WithReason(r: Record, cols: Columns, d: Delete, text: string): Record {
    if d.reason != "" && cols.reason then r.(reason := Some(text)) else r
  }

  /** What the delete makes of one row that the walk visited. */
  function Swept(r: Record, id: RowId, cols: Columns, d: Delete): Record {
    if id == d.root then WithReason(if r.deleted then r else Stamped(r, cols, d), cols, d, d.reason)
    else if r.deleted then r
    else WithReason(Stamped(r, cols, d), cols, d, d.tagged)
  }

  /** The first 500 characters. */
  function Cut(text: string): string {
    if |text| > 500 then text[..500] else text
  }

  /** The reason a row ends with: `text`, cut, where the column exists and a reason was
      given; what it was before otherwise. */
  predicate ReasonIs(before: Record, after: Record, cols: Columns, given: bool, text: string) {
    after.reason == if given && cols.reason then Some(Cut(text)) else before.reason
  }

  /** A row the delete found live: deleted and inactive, with the time, the updater and
      the named deleter, or else the updater, in the columns that exist. */
  predicate DeletedNow(before: Record, after: Record, cols: Columns, now: int, updatedBy: Option<string>, deletedBy: Option<string>) {
    && after.deleted && !after.active
    && after.deletedAt == (if cols.deletedAt then Some(now) else before.deletedAt)
    && after.updatedAt == (if cols.updatedAt then Some(now) else before.updatedAt)
    && after.updatedBy == (if cols.updatedBy && updatedBy.Some? then updatedBy else before.updatedBy)
    && after.deletedBy ==
         (if cols.deletedBy && deletedBy.Some? then deletedBy
          else if cols.deletedBy && updatedBy.Some? then updatedBy
          else before.deletedBy)
  }

  /** What a delete makes of a reachable row: the root gets the reason, and a live row
      below it that reason and a note naming the root. */
  predicate CascadedRow(before: Record, after: Record, id: RowId, cols: Columns, root: RowId, now: int,
                        updatedBy: Option<string>, deletedBy: Option<string>, reason: string) {
    && (!before.deleted ==> DeletedNow(before, after, cols, now, updatedBy, deletedBy))
    && (before.deleted ==> after.(reason := before.reason) == before)
    && (id == root ==> ReasonIs(before, after, cols, reason != "", reason))
    && (id != root && before.deleted ==> after.reason == before.reason)
    && (id != root && !before.deleted ==>
          ReasonIs(before, after, cols, reason != "", Cut(reason) + " (cascaded from " + root.model + " " + root.pk + ")"))
  }

  lemma TagNamesRoot(text: string, root: RowId)
    ensures text + Tag(root) == text + " (cascaded from " + root.model + " " + root.pk + ")"
  {
  }

  lemma SweptIsCascaded(r: Record, id: RowId, cols: Columns, root: RowId, now: int, updatedBy: Option<string>,
                        deletedBy: Option<string>, rawReason: string)
    ensures var d := DeleteOf(root, now, updatedBy, deletedBy, rawReason);
      CascadedRow(r, Swept(r, id, cols, d), id, cols, root, now, updatedBy, deletedBy, rawReason)
  {
    TagNamesRoot(Cut(rawReason), root);
    assert Truncate(rawReason) == Cut(rawReason);
  }

  class Database {
    const schema: Schema
    const related: Related
    var rows: map<RowId, Record>

    ghost predicate Valid()
      reads this
    {
      Integral(related, rows.Keys)
    }

    ghost function Graph(): Graph<RowId>
      reads this
    {
      RowGraph(schema, related, rows.Keys)
    }

    /** Every row reachable from the root is swept once, whatever the shape of
        the row graph; every other row is left exactly as it was. */
    method CascadeSoftDelete(root: RowId, now: int, updatedBy: Option<string>, deletedBy: Option<string>,
                             rawReason: string)
      requires Valid() && root in rows
      modifies this`rows
      ensures Valid() && rows.Keys == old(rows).Keys && Graph() == old(Graph())
      ensures var d := DeleteOf(root, now, updatedBy, deletedBy, rawReason);
        forall id :: id in rows ==>
          rows[id] == if Reaches(old(Graph()), root, id) then Swept(old(rows)[id], id, ColumnsOf(schema, id.model), d) else old(rows)[id]
      ensures forall id :: id in rows && Reaches(old(Graph()), root, id) ==>
        CascadedRow(old(rows)[id], rows[id], id, ColumnsOf(schema, id.model), root, now, updatedBy, deletedBy, rawReason)
      ensures forall id :: id in rows && !Reaches(old(Graph()), root, id) ==> rows[id] == old(rows)[id]
    {
      RowGraphIsFinite(schema, related, rows.Keys);
      var visited, order := WalkFrom(RowGraph(schema, related, rows.Keys), root);
      ReachesSelf(RowGraph(schema, related, rows.Keys), root);
      SweepVisited(visited, DeleteOf(root, now, updatedBy, deletedBy, rawReason));
      forall id | id in rows && id in visited
        ensures CascadedRow(old(rows)[id], rows[id], id, ColumnsOf(schema, id.model), root, now, updatedBy, deletedBy, rawReason)
      {
        SweptIsCascaded(old(rows)[id], id, ColumnsOf(schema, id.model), root, now, updatedBy, deletedBy, rawReason);
      }
    }

    method SweepVisited(visited: set<RowId>, d: Delete)
      requires visited <= rows.Keys && d.root in visited
      modifies this`rows
      ensures rows.Keys == old(rows).Keys
      ensures forall id :: id in rows ==>
        rows[id] == if id in visited then Swept(old(rows)[id], id, ColumnsOf(schema, id.model), d) else old(rows)[id]
    {
      var todo := set id | id in visited :: id.model;
      ghost var before := rows;
      while todo != {}
        invariant rows.Keys == before.Keys
        invariant forall id :: id in rows ==>
          rows[id] == if id in visited && id.model !in todo then BulkUpdated(before[id], id, d) else before[id]
        decreases todo
      {
        var model :| model in todo;
        todo := todo - {model};
        BulkUpdate(model, visited, d);
      }
      assert forall id :: id in rows ==> rows[id] == if id in visited then BulkUpdated(before[id], id, d) else before[id];
      if d.reason != "" && ColumnsOf(schema, d.root.model).reason {
        rows := rows[d.root := rows[d.root].(reason := Some(d.reason))];
      }
    }

    /** One bulk update per model: only rows still live change; all but the root
        get the tagged reason. */
    method BulkUpdate(model: Model, visited: set<RowId>, d: Delete)
      requires visited <= rows.Keys
      modifies this`rows
      ensures rows.Keys == old(rows).Keys
      ensures forall id :: id in rows ==>
        rows[id] == if id in visited && id.model == model then BulkUpdated(old(rows)[id], id, d) else old(rows)[id]
    {
      if d.reason != "" && ColumnsOf(schema, model).reason {
        TagDescendants(model, visited, d);
      }
      StampLive(model, visited, d);
    }

    method TagDescendants(model: Model, visited: set<RowId>, d: Delete)
      modifies this`rows
      ensures rows.Keys == old(rows).Keys
      ensures forall id :: id in rows ==>
        rows[id] ==
          if id in visited && id.model == model && id != d.root && !old(rows)[id].deleted
          then Stamped(old(rows)[id], ColumnsOf(schema, model), d).(reason := Some(d.tagged)) else old(rows)[id]
    {
      var cols := ColumnsOf(schema, model);
      rows := map id | id in rows ::
        if id in visited && id.model == model && id != d.root && !rows[id].deleted
        then Stamped(rows[id], cols, d).(reason := Some(d.tagged)) else rows[id];
    }

    method StampLive(model: Model, visited: set<RowId>, d: Delete)
      modifies this`rows
      ensures rows.Keys == old(rows).Keys
      ensures forall id :: id in rows ==>
        rows[id] ==
          if id in visited && id.model == model && !old(rows)[id].deleted
          then Stamped(old(rows)[id], ColumnsOf(schema, model), d) else old(rows)[id]
    {
      var cols := ColumnsOf(schema, model);
      rows := map id | id in rows ::
        if id in visited && id.model == model && !rows[id].deleted then Stamped(rows[id], cols, d) else rows[id];
    }

    function BulkUpdated(r: Record, id: RowId, d: Delete): Record {
      var cols := ColumnsOf(schema, id.model);
      if r.deleted then r
      else if id == d.root then Stamped(r, cols, d)
      else WithReason(Stamped(r, cols, d), cols, d, d.tagged)
    }
  }

  /** After a sweep the row is deleted, and a second delete anywhere leaves it
      alone, except that deleting a row again replaces its own reason. */
  lemma SweptOnceForAll(r: Record, id: RowId, cols: Columns, d: Delete, again: Delete)
    ensures var once := Swept(r, id, cols, d);
      && once.deleted
      && Swept(once, id, cols, again) ==
           if id == again.root && again.reason != "" && cols.reason then once.(reason := Some(again.reason)) else once
  {
  }

  /** A cascaded row's reason names its parent in full exactly when the tag still
      fits; when the reason alone fills the column the tag is lost altogether. */
  lemma TagSurvivesExactly(reason: string, root: RowId)
    requires |reason| <= REASON_LIMIT
    ensures CascadedReason(reason, root) == reason + Tag(root) <==> |reason| + |Tag(root)| <= REASON_LIMIT
    ensures CascadedReason(reason, root) == reason <==> |reason| == REASON_LIMIT
  {
    var text := reason + Tag(root);
    assert text[..|reason|] == reason;
    assert |Tag(root)| > 0;
  }

  // ------------------------------------------------------------- cache scopes

  function ChildModels(schema: Schema, model: Model, rels: seq<string>): seq<Model> {
    if rels == [] then []
    else
      var before := ChildModels(schema, model, rels[..|rels| - 1]);
      var key := (model, rels[|rels| - 1]);
      if key in schema.childModel then before + [schema.childModel[key]] else before
  }

  lemma ChildModelIsListed(schema: Schema, model: Model, rels: seq<string>, rel: string)
    requires rel in rels && (model, rel) in schema.childModel
    ensures schema.childModel[(model, rel)] in ChildModels(schema, model, rels)
  {
    var prefix, last := rels[..|rels| - 1], rels[|rels| - 1];
    assert rels == prefix + [last];
    if rel in prefix {
      ChildModelIsListed(schema, model, prefix, rel);
    }
  }

  lemma ChildModelsAreKnown(schema: Schema, model: Model, rels: seq<string>, child: Model)
    requires child in ChildModels(schema, model, rels)
    ensures child in schema.childModel.Values
  {
    if rels != [] {
      var prefix, key := rels[..|rels| - 1], (model, rels[|rels| - 1]);
      if child in ChildModels(schema, model, prefix) {
        ChildModelsAreKnown(schema, model, prefix, child);
      }
    }
  }

  function ModelGraph(schema: Schema, root: Model): Graph<Model> {
    map model | model in schema.childModel.Values + {root} :: ChildModels(schema, model, CascadeOf(schema, model))
  }

  /** One step of the model walk: to the model that a declared relation resolves to. */
  lemma ModelStepExactly(schema: Schema, root: Model, model: Model, child: Model)
    ensures IsStep(ModelGraph(schema, root), model, child) <==>
      && (model == root || model in schema.childModel.Values) && model in schema.cascade
      && exists rel :: rel in schema.cascade[model] && (model, rel) in schema.childModel && schema.childModel[(model, rel)] == child
  {
    var rels := CascadeOf(schema, model);
    if child in ChildModels(schema, model, rels) {
      var rel := ListedChildHasRelation(schema, model, rels, child);
      assert (model, rel) in schema.childModel;
    }
    if rel :| rel in rels && (model, rel) in schema.childModel && schema.childModel[(model, rel)] == child {
      ChildModelIsListed(schema, model, rels, rel);
    }
  }

  function ScopesOf(schema: Schema, model: Model): set<string> {
    if model in schema.scopes then schema.scopes[model] else {}
  }

  method CollectCascadeCacheScopes(schema: Schema, root: Model) returns (scopes: set<string>)
    ensures forall s :: s in scopes <==> Collected(schema, root, s)
  {
    var graph := ModelGraph(schema, root);
    forall model, child | model in graph && child in graph[model] ensures child in graph {
      ChildModelsAreKnown(schema, model, CascadeOf(schema, model), child);
    }
    var seen, order := WalkFrom(graph, root);
    scopes := {};
    for i := 0 to |order|
      invariant forall s :: s in scopes <==> exists k :: 0 <= k < i && s in ScopesOf(schema, order[k])
    {
      scopes := scopes + ScopesOf(schema, order[i]);
    }
    forall s | exists model :: Reaches(graph, root, model) && s in ScopesOf(schema, model) ensures s in scopes {
      var model :| Reaches(graph, root, model) && s in ScopesOf(schema, model);
      assert model in order;
    }
  }

  /** Where the class level resolves a relation, its rows are of that model. */
  predicate Agrees(schema: Schema, related: Related) {
    forall key, child :: key in related && (key.0.model, key.1) in schema.childModel && child in related[key] ==>
      child.model == schema.childModel[(key.0.model, key.1)]
  }

  /** The part of the relations that the class level can resolve too. */
  function Resolvable(schema: Schema, related: Related): Related {
    map key | key in related && (key.0.model, key.1) in schema.childModel :: related[key]
  }

  /** Every related row is behind a relation known to `childModel`, and of its model. */
  predicate Fits(childModel: map<(Model, string), Model>, related: Related) {
    forall key, child :: key in related && child in related[key] ==>
      (key.0.model, key.1) in childModel && child.model == childModel[(key.0.model, key.1)]
  }

  /** The model walk over-approximates the row walk: a row reached through
      relations the class level resolves is of a model the model walk reaches. */
  lemma {:induction false} RowPathHasModelPath(schema: Schema, related: Related, rows: set<RowId>, path: seq<RowId>, root: Model,
                                               from: RowId, to: RowId)
    requires Fits(schema.childModel, related) && from.model in ModelGraph(schema, root)
    requires IsPath(RowGraph(schema, related, rows), path, from, to)
    ensures Reaches(ModelGraph(schema, root), from.model, to.model)
    decreases path
  {
    var graph, models := RowGraph(schema, related, rows), ModelGraph(schema, root);
    if |path| == 1 {
      ReachesSelf(models, from.model);
    } else {
      var next, rels := path[1], CascadeOf(schema, from.model);
      assert path[0] in graph && path[1] in graph[path[0]];
      ChildComesFromRelation(related, from, rels, next);
      var rel :| rel in rels && next in Behind(related, from, rel);
      ChildModelIsListed(schema, from.model, rels, rel);
      assert IsPath(graph, path[1..], next, to);
      RowPathHasModelPath(schema, related, rows, path[1..], root, next, to);
      ReachesThrough(models, from.model, next.model, to.model);
    }
  }

  /** The scope is among those collected for the model. */
  ghost predicate Collected(schema: Schema, root: Model, s: string) {
    exists model :: Reaches(ModelGraph(schema, root), root, model) && s in ScopesOf(schema, model)
  }

  lemma ScopesCoverSweptRows(schema: Schema, related: Related, rows: set<RowId>, root: RowId, id: RowId, s: string)
    requires Agrees(schema, related) && s in ScopesOf(schema, id.model)
    requires Reaches(RowGraph(schema, Resolvable(schema, related), rows), root, id)
    ensures Collected(schema, root.model, s)
  {
    var path :| IsPath(RowGraph(schema, Resolvable(schema, related), rows), path, root, id);
    RowPathHasModelPath(schema, Resolvable(schema, related), rows, path, root.model, root, id);
  }

  // ------------------------------------------ exactly when the scopes suffice

  /** The relations rows really have: those the class level resolves, and more that
      only the rows know, such as property accessors. */
  predicate Extends(schema: Schema, actual: map<(Model, string), Model>) {
    forall key :: key in schema.childModel ==> key in actual && actual[key] == schema.childModel[key]
  }

  /** In this table a cascade from the root sweeps a row with this scope. */
  ghost predicate Sweeps(schema: Schema, actual: map<(Model, string), Model>, related: Related, rows: set<RowId>,
                         root: RowId, id: RowId, s: string) {
    && Fits(actual, related) && Integral(related, rows) && root in rows
    && Reaches(RowGraph(schema, related, rows), root, id) && s in ScopesOf(schema, id.model)
  }

  /** Whatever the rows, the collected scopes hold every scope of a swept row. */
  ghost predicate CoversEveryTable(schema: Schema, actual: map<(Model, string), Model>, root: Model) {
    forall related, rows, from: RowId, id, s :: from.model == root && Sweeps(schema, actual, related, rows, from, id, s) ==>
      Collected(schema, root, s)
  }

  function OneRow(model: Model): RowId {
    RowId(model, "1")
  }

  /** A table with one row of every model, related as the models are. */
  function OneOfEach(actual: map<(Model, string), Model>): Related {
    map key | key in (set a | a in actual :: (OneRow(a.0), a.1)) :: [OneRow(actual[(key.0.model, key.1)])]
  }

  function OneRows(actual: map<(Model, string), Model>, root: Model): set<RowId> {
    set model | model in actual.Values + {root} :: OneRow(model)
  }

  lemma OneOfEachFits(actual: map<(Model, string), Model>, root: Model)
    ensures Fits(actual, OneOfEach(actual)) && Integral(OneOfEach(actual), OneRows(actual, root))
  {
  }

  lemma ListedChildHasRelation(schema: Schema, model: Model, rels: seq<string>, child: Model) returns (rel: string)
    requires child in ChildModels(schema, model, rels)
    ensures rel in rels && (model, rel) in schema.childModel && schema.childModel[(model, rel)] == child
  {
    var prefix, last := rels[..|rels| - 1], rels[|rels| - 1];
    assert rels == prefix + [last];
    if child in ChildModels(schema, model, prefix) {
      rel := ListedChildHasRelation(schema, model, prefix, child);
    } else {
      rel := last;
    }
  }

  ghost function OneRowGraph(schema: Schema, root: Model): Graph<RowId> {
    RowGraph(schema, OneOfEach(schema.childModel), OneRows(schema.childModel, root))
  }

  /** A step between models is a step between their single rows. */
  lemma ModelStepHasRowStep(schema: Schema, root: Model, model: Model, child: Model)
    requires model in ModelGraph(schema, root) && child in ModelGraph(schema, root)[model]
    ensures OneRow(model) in OneRowGraph(schema, root) && OneRow(child) in OneRowGraph(schema, root)[OneRow(model)]
  {
    var actual, rels := schema.childModel, CascadeOf(schema, model);
    var rel := ListedChildHasRelation(schema, model, rels, child);
    assert (OneRow(model), rel) in OneOfEach(actual);
    assert OneRow(child) in Behind(OneOfEach(actual), OneRow(model), rel);
    ChildComesFromRelation(OneOfEach(actual), OneRow(model), rels, OneRow(child));
  }

  lemma ModelReachHasRowReach(schema: Schema, root: Model, to: Model)
    requires Reaches(ModelGraph(schema, root), root, to)
    ensures Reaches(OneRowGraph(schema, root), OneRow(root), OneRow(to))
  {
    var models := ModelGraph(schema, root);
    forall model, child | IsStep(models, model, child)
      ensures IsStep(OneRowGraph(schema, root), OneRow(model), OneRow(child))
    {
      ModelStepHasRowStep(schema, root, model, child);
    }
    ReachesLifts(models, OneRowGraph(schema, root), (m: Model) => OneRow(m), root, to);
  }

  /** The collected scopes suffice for every table exactly when each scope of a model
      reachable through the relations rows have is declared by a model reachable through
      those the class level resolves. */
  lemma CoversEveryTableExactly(schema: Schema, actual: map<(Model, string), Model>, root: Model)
    requires Extends(schema, actual)
    ensures CoversEveryTable(schema, actual, root) <==>
      forall s :: Collected(schema.(childModel := actual), root, s) ==> Collected(schema, root, s)
  {
    var full := schema.(childModel := actual);
    forall related, rows, from: RowId, id, s | from.model == root && Sweeps(schema, actual, related, rows, from, id, s)
      ensures Collected(full, root, s)
    {
      SweptScopeIsReachable(schema, actual, related, rows, from, id, s);
    }
    forall s | Collected(full, root, s)
      ensures exists related, rows, id :: Sweeps(schema, actual, related, rows, OneRow(root), id, s)
    {
      ReachableScopeIsSwept(schema, actual, root, s);
    }
    if CoversEveryTable(schema, actual, root) {
      forall s | Collected(full, root, s) ensures Collected(schema, root, s) {
        var related, rows, id :| Sweeps(schema, actual, related, rows, OneRow(root), id, s);
      }
    }
  }

  lemma SameRowGraph(schema: Schema, actual: map<(Model, string), Model>, related: Related, rows: set<RowId>)
    ensures RowGraph(schema.(childModel := actual), related, rows) == RowGraph(schema, related, rows)
  {
    assert forall model :: CascadeOf(schema.(childModel := actual), model) == CascadeOf(schema, model);
  }

  lemma SweptScopeIsReachable(schema: Schema, actual: map<(Model, string), Model>, related: Related, rows: set<RowId>,
                              root: RowId, id: RowId, s: string)
    requires Sweeps(schema, actual, related, rows, root, id, s)
    ensures Collected(schema.(childModel := actual), root.model, s)
  {
    SameRowGraph(schema, actual, related, rows);
    var path :| IsPath(RowGraph(schema, related, rows), path, root, id);
    RowPathHasModelPath(schema.(childModel := actual), related, rows, path, root.model, root, id);
  }

  lemma ReachableScopeIsSwept(schema: Schema, actual: map<(Model, string), Model>, root: Model, s: string)
    requires Collected(schema.(childModel := actual), root, s)
    ensures exists related, rows, id :: Sweeps(schema, actual, related, rows, OneRow(root), id, s)
  {
    var full := schema.(childModel := actual);
    var model :| Reaches(ModelGraph(full, root), root, model) && s in ScopesOf(full, model);
    ModelReachHasRowReach(full, root, model);
    OneOfEachFits(actual, root);
    SameRowGraph(schema, actual, OneOfEach(actual), OneRows(actual, root));
    assert Sweeps(schema, actual, OneOfEach(actual), OneRows(actual, root), OneRow(root), OneRow(model), s);
  }

  /** A relation that exists only as a property on the rows is swept by the delete
      but unknown to the class level: its model's scope can be missed. */
  lemma PropertyRelationMissesScope()
    returns (schema: Schema, related: Related, rows: set<RowId>, root: RowId, child: RowId)
    ensures Agrees(schema, related) && Integral(related, rows) && root in rows
    ensures Reaches(RowGraph(schema, related, rows), root, child) && "wards" in ScopesOf(schema, child.model)
    ensures forall model :: Reaches(ModelGraph(schema, root.model), root.model, model) ==> "wards" !in ScopesOf(schema, model)
  {
    root, child := RowId("State", "S-1"), RowId("Ward", "W-1");
    rows := {root, child};
    schema := Schema(map["State" := ["wards"]], map[], map["Ward" := {"wards"}], map[]);
    related := map[(root, "wards") := [child]];
    var graph, models := RowGraph(schema, related, rows), ModelGraph(schema, root.model);
    assert "wards" in CascadeOf(schema, root.model) && child in Behind(related, root, "wards");
    ChildComesFromRelation(related, root, CascadeOf(schema, root.model), child);
    ReachesSelf(graph, child);
    ReachesThrough(graph, root, child, child);
    forall model | Reaches(models, root.model, model) ensures model == root.model {
      var path :| IsPath(models, path, root.model, model);
      if child :| child in models[root.model] {
        ChildModelsAreKnown(schema, root.model, CascadeOf(schema, root.model), child);
        assert false;
      }
      ClosedHoldsReachable(models, {root.model}, path, root.model, model);
    }
  }
}
