/** Permission snapshots: a tree of modules, screens and grants built from grant
    keys, the keys read back from it, and the audit rows written by comparing. */
module PermissionSnapshot {
  import opened Wrappers

  type Id = string

  datatype Key =
    | App(id: Id)
    | Widget(id: Id)
    | Module(main: Option<Id>)
    | Screen(screen: Id)
    | Action(screen: Id, action: Id)
    | Column(screen: Id, column: Id, state: string)
  {
    predicate OnScreen() {
      Screen? || Action? || Column?
    }
  }

  datatype Node = Node(actions: set<Id>, columns: set<(Id, string)>)

  type Tree = map<Option<Id>, map<Id, Node>>

  datatype Snapshot = Snapshot(apps: set<Id>, modules: Tree, widgets: set<Id>)

  /** Screen master: the main screen of each known screen. */
  type Catalog = map<Id, Id>

  function MainOf(catalog: Catalog, screen: Id): Option<Id> {
    if screen in catalog then Some(catalog[screen]) else None
  }

  // -------------------------------------------------------- keys of a snapshot

  predicate ScreenHasKey(screen: Id, node: Node, key: Key) {
    match key
    case Screen(s) => s == screen && node == Node({}, {})
    case Action(s, a) => s == screen && a in node.actions
    case Column(s, c, st) => s == screen && (c, st) in node.columns
    case _ => false
  }

  /** A key of one module's part of the tree. */
  predicate ModuleHasKey(main: Option<Id>, screens: map<Id, Node>, key: Key) {
    if key.Module? then key.main == main && screens == map[]
    else key.OnScreen() && key.screen in screens && ScreenHasKey(key.screen, screens[key.screen], key)
  }

  ghost predicate TreeHasKey(tree: Tree, key: Key) {
    exists m :: m in tree && ModuleHasKey(m, tree[m], key)
  }

  ghost predicate HasKey(snapshot: Snapshot, key: Key) {
    match key
    case App(id) => id in snapshot.apps
    case Widget(id) => id in snapshot.widgets
    case _ => TreeHasKey(snapshot.modules, key)
  }

  method ScreenKeys(screen: Id, node: Node) returns (keys: set<Key>)
    ensures forall k :: k in keys <==> ScreenHasKey(screen, node, k)
  {
    keys := (set a | a in node.actions :: Action(screen, a)) + (set c | c in node.columns :: Column(screen, c.0, c.1));
    if node.actions == {} && node.columns == {} {
      keys := keys + {Screen(screen)};
    }
  }

  method ModuleKeys(main: Option<Id>, screens: map<Id, Node>) returns (keys: set<Key>)
    ensures forall k :: k in keys <==> ModuleHasKey(main, screens, k)
  {
    keys := {};
    if screens == map[] {
      return {Module(main)};
    }
    var todo := screens.Keys;
    while todo != {}
      invariant todo <= screens.Keys
      invariant forall k :: k in keys <==> k.OnScreen() && ModuleHasKey(main, screens, k) && k.screen !in todo
      decreases todo
    {
      var s :| s in todo;
      todo := todo - {s};
      var more := ScreenKeys(s, screens[s]);
      keys := keys + more;
    }
  }

  method SnapshotKeys(snapshot: Snapshot) returns (keys: set<Key>)
    ensures forall k :: k in keys <==> HasKey(snapshot, k)
  {
    var apps := set id | id in snapshot.apps :: App(id);
    var widgets := set id | id in snapshot.widgets :: Widget(id);
    var grants: set<Key> := {};
    var todo := snapshot.modules.Keys;
    while todo != {}
      invariant todo <= snapshot.modules.Keys
      invariant forall k :: k in grants <==>
        exists m :: m in snapshot.modules && m !in todo && ModuleHasKey(m, snapshot.modules[m], k)
      decreases todo
    {
      var m :| m in todo;
      todo := todo - {m};
      var more := ModuleKeys(m, snapshot.modules[m]);
      grants := grants + more;
    }
    keys := apps + widgets + grants;
  }

  // ------------------------------------------------------ snapshot from keys

  ghost predicate UsesScreen(keys: set<Key>, screen: Id) {
    exists k :: k in keys && k.OnScreen() && k.screen == screen
  }

  ghost predicate UsesModule(catalog: Catalog, keys: set<Key>, main: Option<Id>) {
    exists k :: k in keys && k.OnScreen() && MainOf(catalog, k.screen) == main
  }

  ghost predicate Describes(keys: set<Key>, screen: Id, node: Node) {
    && (forall a :: a in node.actions <==> Action(screen, a) in keys)
    && (forall c, st :: (c, st) in node.columns <==> Column(screen, c, st) in keys)
  }

  ghost predicate Under(catalog: Catalog, keys: set<Key>, main: Option<Id>, screens: map<Id, Node>) {
    && (forall s :: s in screens <==> MainOf(catalog, s) == main && UsesScreen(keys, s))
    && (forall s :: s in screens ==> Describes(keys, s, screens[s]))
  }

  /** The tree has the modules, screens and grants the keys name, and no others. */
  ghost predicate Built(catalog: Catalog, keys: set<Key>, tree: Tree) {
    && (forall m :: m in tree <==> Module(m) in keys || UsesModule(catalog, keys, m))
    && (forall m :: m in tree ==> Under(catalog, keys, m, tree[m]))
  }

  ghost predicate Represents(catalog: Catalog, keys: set<Key>, snapshot: Snapshot) {
    && (forall id :: id in snapshot.apps <==> id != "" && App(id) in keys)
    && (forall id :: id in snapshot.widgets <==> Widget(id) in keys)
    && Built(catalog, keys, snapshot.modules)
  }

  /** One grant joins the entry of its screen. */
  function Grow(node: Node, key: Key): Node {
    match key
    case Action(_, a) => node.(actions := node.actions + {a})
    case Column(_, c, st) => node.(columns := node.columns + {(c, st)})
    case _ => node
  }

  function GrowScreens(screens: map<Id, Node>, key: Key): map<Id, Node>
    requires key.OnScreen()
  {
    screens[key.screen := Grow(if key.screen in screens then screens[key.screen] else Node({}, {}), key)]
  }

  /** The entry of a module and of a screen is created the first time it is needed. */
  function AddGrant(catalog: Catalog, tree: Tree, key: Key): Tree {
    if key.OnScreen() then
      var m := MainOf(catalog, key.screen);
      tree[m := GrowScreens(if m in tree then tree[m] else map[], key)]
    else if key.Module? && key.main !in tree then tree[key.main := map[]]
    else tree
  }

  lemma UsesScreenGrows(keys: set<Key>, key: Key, s: Id)
    ensures UsesScreen(keys + {key}, s) <==> UsesScreen(keys, s) || (key.OnScreen() && key.screen == s)
  {
    if UsesScreen(keys, s) {
      var k :| k in keys && k.OnScreen() && k.screen == s;
      assert k in keys + {key};
    }
    if key.OnScreen() && key.screen == s {
      assert key in keys + {key};
    }
  }

  lemma UsesModuleGrows(catalog: Catalog, keys: set<Key>, key: Key, m: Option<Id>)
    ensures UsesModule(catalog, keys + {key}, m) <==>
      UsesModule(catalog, keys, m) || (key.OnScreen() && MainOf(catalog, key.screen) == m)
  {
    if UsesModule(catalog, keys, m) {
      var k :| k in keys && k.OnScreen() && MainOf(catalog, k.screen) == m;
      assert k in keys + {key};
    }
    if key.OnScreen() && MainOf(catalog, key.screen) == m {
      assert key in keys + {key};
    }
  }

  lemma GrowScreensKeepsUnder(catalog: Catalog, keys: set<Key>, key: Key, screens: map<Id, Node>)
    requires key.OnScreen() && Under(catalog, keys, MainOf(catalog, key.screen), screens)
    ensures Under(catalog, keys + {key}, MainOf(catalog, key.screen), GrowScreens(screens, key))
  {
    var main, grown := MainOf(catalog, key.screen), GrowScreens(screens, key);
    forall s ensures s in grown <==> MainOf(catalog, s) == main && UsesScreen(keys + {key}, s) {
      UsesScreenGrows(keys, key, s);
    }
    forall s | s in grown ensures Describes(keys + {key}, s, grown[s]) {
      if s == key.screen && s !in screens {
        assert !UsesScreen(keys, s);
        assert Describes(keys, s, Node({}, {}));
      } else {
        assert Describes(keys, s, screens[s]);
      }
    }
  }

  lemma OthersKeepUnder(catalog: Catalog, keys: set<Key>, key: Key, main: Option<Id>, screens: map<Id, Node>)
    requires Under(catalog, keys, main, screens)
    requires key.OnScreen() ==> MainOf(catalog, key.screen) != main
    ensures Under(catalog, keys + {key}, main, screens)
  {
    forall s ensures s in screens <==> MainOf(catalog, s) == main && UsesScreen(keys + {key}, s) {
      UsesScreenGrows(keys, key, s);
    }
  }

  lemma UnusedModuleIsEmpty(catalog: Catalog, keys: set<Key>, main: Option<Id>)
    requires !UsesModule(catalog, keys, main)
    ensures Under(catalog, keys, main, map[])
  {
    forall s | UsesScreen(keys, s) ensures MainOf(catalog, s) != main {
      var k :| k in keys && k.OnScreen() && k.screen == s;
    }
  }

  lemma AddGrantKeepsBuilt(catalog: Catalog, keys: set<Key>, tree: Tree, key: Key)
    requires Built(catalog, keys, tree)
    ensures Built(catalog, keys + {key}, AddGrant(catalog, tree, key))
  {
    var all, grown := keys + {key}, AddGrant(catalog, tree, key);
    forall m ensures m in grown <==> Module(m) in all || UsesModule(catalog, all, m) {
      UsesModuleGrows(catalog, keys, key, m);
    }
    forall m | m in grown ensures Under(catalog, all, m, grown[m]) {
      if m !in tree {
        UnusedModuleIsEmpty(catalog, keys, m);
      }
      var screens := if m in tree then tree[m] else map[];
      if key.OnScreen() && MainOf(catalog, key.screen) == m {
        GrowScreensKeepsUnder(catalog, keys, key, screens);
      } else {
        OthersKeepUnder(catalog, keys, key, m, screens);
      }
    }
  }

  method AddAll(catalog: Catalog, tree: Tree, group: set<Key>, ghost keys: set<Key>) returns (grown: Tree)
    requires Built(catalog, keys, tree)
    ensures Built(catalog, keys + group, grown)
  {
    grown := tree;
    var todo := group;
    ghost var done := keys;
    while todo != {}
      invariant todo <= group && done == keys + (group - todo)
      invariant Built(catalog, done, grown)
      decreases todo
    {
      var key :| key in todo;
      AddGrantKeepsBuilt(catalog, done, grown, key);
      grown := AddGrant(catalog, grown, key);
      todo := todo - {key};
      done := done + {key};
    }
    assert done == keys + group;
  }

  /** Whole modules first, then whole screens, then actions, then columns. */
  method SnapshotFromKeys(catalog: Catalog, keys: set<Key>) returns (snapshot: Snapshot)
    ensures Represents(catalog, keys, snapshot)
  {
    var modules := set k | k in keys && k.Module?;
    var screens := set k | k in keys && k.Screen?;
    var actions := set k | k in keys && k.Action?;
    var columns := set k | k in keys && k.Column?;
    var tree := AddAll(catalog, map[], modules, {});
    tree := AddAll(catalog, tree, screens, {} + modules);
    tree := AddAll(catalog, tree, actions, {} + modules + screens);
    tree := AddAll(catalog, tree, columns, {} + modules + screens + actions);
    var apps := set k | k in keys && k.App? && k.id != "" :: k.id;
    var widgets := set k | k in keys && k.Widget? :: k.id;
    snapshot := Snapshot(apps, tree, widgets);
    BuiltIgnoresOthers(catalog, {} + modules + screens + actions + columns, keys, tree);
  }

  lemma BuiltIgnoresOthers(catalog: Catalog, some: set<Key>, keys: set<Key>, tree: Tree)
    requires Built(catalog, some, tree)
    requires forall k :: k in some <==> k in keys && !k.App? && !k.Widget?
    ensures Built(catalog, keys, tree)
  {
    forall m ensures UsesModule(catalog, some, m) <==> UsesModule(catalog, keys, m) {
    }
    forall m | m in tree ensures Under(catalog, keys, m, tree[m]) {
      forall s ensures UsesScreen(some, s) <==> UsesScreen(keys, s) {
      }
      forall s | s in tree[m] ensures Describes(keys, s, tree[m][s]) {
        assert Describes(some, s, tree[m][s]);
      }
    }
  }

  /** Where a screen's grants are filed: under the main screen the catalog gives it, or
      under none when the catalog does not know the screen; with the actions and columns
      granted there, and nowhere else. */
  lemma FiledUnderMainScreen(catalog: Catalog, keys: set<Key>, snapshot: Snapshot, key: Key)
    requires Represents(catalog, keys, snapshot) && key in keys && key.OnScreen()
    ensures var main := if key.screen in catalog then Some(catalog[key.screen]) else None;
      && main in snapshot.modules && key.screen in snapshot.modules[main]
      && (forall a :: a in snapshot.modules[main][key.screen].actions <==> Action(key.screen, a) in keys)
      && (forall c, st :: (c, st) in snapshot.modules[main][key.screen].columns <==> Column(key.screen, c, st) in keys)
      && (forall m :: m in snapshot.modules && key.screen in snapshot.modules[m] ==> m == main)
  {
    var main := if key.screen in catalog then Some(catalog[key.screen]) else None;
    assert UsesModule(catalog, keys, main) && UsesScreen(keys, key.screen);
    assert Under(catalog, keys, main, snapshot.modules[main]);
    forall m | m in snapshot.modules && key.screen in snapshot.modules[m] ensures m == main {
      assert Under(catalog, keys, m, snapshot.modules[m]);
    }
  }

  // ---------------------------------------------------------------- round trip

  ghost predicate HasDetail(keys: set<Key>, screen: Id) {
    exists k :: k in keys && (k.Action? || k.Column?) && k.screen == screen
  }

  /** A grant the tree does not record on its own: a whole screen beside one of its
      actions or columns, a whole module beside one of its screens, a blank app. */
  ghost predicate Dominated(catalog: Catalog, keys: set<Key>, key: Key) {
    match key
    case App(id) => id == ""
    case Screen(s) => HasDetail(keys, s)
    case Module(m) => UsesModule(catalog, keys, m)
    case _ => false
  }

  ghost function Reduced(catalog: Catalog, keys: set<Key>): set<Key> {
    set k | k in keys && !Dominated(catalog, keys, k)
  }

  lemma EmptyNodeHasNoDetail(keys: set<Key>, screen: Id, node: Node)
    requires Describes(keys, screen, node)
    ensures node == Node({}, {}) <==> !HasDetail(keys, screen)
  {
    if node != Node({}, {}) {
      if node.actions != {} {
        var a :| a in node.actions;
        assert Action(screen, a) in keys;
      } else {
        var c :| c in node.columns;
        assert Column(screen, c.0, c.1) in keys;
      }
    }
  }

  lemma ScreenKeyRoundTrip(catalog: Catalog, keys: set<Key>, tree: Tree, key: Key)
    requires Built(catalog, keys, tree) && key.OnScreen()
    ensures TreeHasKey(tree, key) <==> key in keys && !Dominated(catalog, keys, key)
  {
    var s, main := key.screen, MainOf(catalog, key.screen);
    if UsesScreen(keys, s) {
      assert UsesModule(catalog, keys, main);
      assert main in tree && Under(catalog, keys, main, tree[main]);
      EmptyNodeHasNoDetail(keys, s, tree[main][s]);
      assert ModuleHasKey(main, tree[main], key) <==> key in keys && !Dominated(catalog, keys, key);
    }
    if TreeHasKey(tree, key) {
      var m :| m in tree && ModuleHasKey(m, tree[m], key);
      assert Under(catalog, keys, m, tree[m]);
    }
  }

  lemma ModuleKeyRoundTrip(catalog: Catalog, keys: set<Key>, tree: Tree, main: Option<Id>)
    requires Built(catalog, keys, tree)
    ensures TreeHasKey(tree, Module(main)) <==> Module(main) in keys && !UsesModule(catalog, keys, main)
  {
    if UsesModule(catalog, keys, main) {
      var k :| k in keys && k.OnScreen() && MainOf(catalog, k.screen) == main;
      assert UsesScreen(keys, k.screen);
      assert Under(catalog, keys, main, tree[main]);
      assert k.screen in tree[main];
    } else if main in tree {
      assert Under(catalog, keys, main, tree[main]);
      forall s | UsesScreen(keys, s) ensures s !in tree[main] {
        var k :| k in keys && k.OnScreen() && k.screen == s;
      }
      assert tree[main] == map[];
      assert ModuleHasKey(main, tree[main], Module(main));
    }
  }

  /** Reading back the keys of a built snapshot gives the grants that are not dominated. */
  lemma RoundTrip(catalog: Catalog, keys: set<Key>, snapshot: Snapshot, key: Key)
    requires Represents(catalog, keys, snapshot)
    ensures HasKey(snapshot, key) <==> key in Reduced(catalog, keys)
  {
    if key.OnScreen() {
      ScreenKeyRoundTrip(catalog, keys, snapshot.modules, key);
    } else if key.Module? {
      ModuleKeyRoundTrip(catalog, keys, snapshot.modules, key.main);
    }
  }

  lemma ReducedUsesTheSame(catalog: Catalog, keys: set<Key>, s: Id)
    ensures UsesScreen(Reduced(catalog, keys), s) <==> UsesScreen(keys, s)
  {
    if HasDetail(keys, s) {
      var k :| k in keys && (k.Action? || k.Column?) && k.screen == s;
      assert k in Reduced(catalog, keys);
    } else if UsesScreen(keys, s) {
      var k :| k in keys && k.OnScreen() && k.screen == s;
      assert k in Reduced(catalog, keys);
    }
  }

  lemma ReducedUsesTheSameModules(catalog: Catalog, keys: set<Key>, m: Option<Id>)
    ensures UsesModule(catalog, Reduced(catalog, keys), m) <==> UsesModule(catalog, keys, m)
  {
    if UsesModule(catalog, keys, m) {
      var k :| k in keys && k.OnScreen() && MainOf(catalog, k.screen) == m;
      ReducedUsesTheSame(catalog, keys, k.screen);
      assert UsesScreen(keys, k.screen);
      var r :| r in Reduced(catalog, keys) && r.OnScreen() && r.screen == k.screen;
    }
  }

  /** The other direction: rebuilding from the keys read back gives the same snapshot,
      and reading those back changes nothing more. */
  lemma RebuildingIsTheSame(catalog: Catalog, keys: set<Key>, first: Snapshot, again: Snapshot)
    requires Represents(catalog, keys, first) && Represents(catalog, Reduced(catalog, keys), again)
    ensures first == again
  {
    var r := Reduced(catalog, keys);
    assert first.apps == again.apps && first.widgets == again.widgets;
    forall m ensures m in first.modules <==> m in again.modules {
      ReducedUsesTheSameModules(catalog, keys, m);
    }
    forall m | m in first.modules ensures first.modules[m] == again.modules[m] {
      assert Under(catalog, keys, m, first.modules[m]) && Under(catalog, r, m, again.modules[m]);
      forall s ensures s in first.modules[m] <==> s in again.modules[m] {
        ReducedUsesTheSame(catalog, keys, s);
      }
      forall s | s in first.modules[m] ensures first.modules[m][s] == again.modules[m][s] {
        SameDescription(catalog, keys, s, first.modules[m][s], again.modules[m][s]);
      }
    }
  }

  lemma SameDescription(catalog: Catalog, keys: set<Key>, s: Id, first: Node, again: Node)
    requires Describes(keys, s, first) && Describes(Reduced(catalog, keys), s, again)
    ensures first == again
  {
    assert first.actions == again.actions;
    forall c | true ensures c in first.columns <==> c in again.columns {
      assert (c.0, c.1) == c;
    }
    assert first.columns == again.columns;
  }

  /** The round trip is the identity on exactly the key sets with no dominated key. */
  lemma RoundTripIsIdentityExactly(catalog: Catalog, keys: set<Key>, snapshot: Snapshot)
    requires Represents(catalog, keys, snapshot)
    ensures (forall k :: HasKey(snapshot, k) <==> k in keys) <==> forall k :: k in keys ==> !Dominated(catalog, keys, k)
  {
    forall k ensures HasKey(snapshot, k) <==> k in Reduced(catalog, keys) {
      RoundTrip(catalog, keys, snapshot, k);
    }
  }

  // ------------------------------------------------------------ changed modules

  ghost predicate SameKeys(before: Snapshot, after: Snapshot) {
    forall k :: HasKey(before, k) <==> HasKey(after, k)
  }

  /** Some key of this module's entry is in one snapshot and not in the other. */
  ghost predicate Touched(before: Snapshot, after: Snapshot, side: Snapshot, main: Option<Id>) {
    && main in side.modules
    && exists k :: ModuleHasKey(main, side.modules[main], k) && HasKey(before, k) != HasKey(after, k)
  }

  /** Main screens whose grants differ, those of the new snapshot first, each once. */
  method ChangedModuleIds(before: Snapshot, after: Snapshot) returns (ids: seq<Option<Id>>)
    ensures forall i, j :: 0 <= i < j < |ids| ==> ids[i] != ids[j]
    ensures forall m :: m in ids <==> Touched(before, after, after, m) || Touched(before, after, before, m)
  {
    var older := SnapshotKeys(before);
    var newer := SnapshotKeys(after);
    var changed := (older - newer) + (newer - older);
    ids := AddTouched([], before, after, after, changed);
    ids := AddTouched(ids, before, after, before, changed);
  }

  method AddTouched(ids: seq<Option<Id>>, ghost before: Snapshot, ghost after: Snapshot, side: Snapshot,
                    changed: set<Key>)
    returns (more: seq<Option<Id>>)
    requires forall i, j :: 0 <= i < j < |ids| ==> ids[i] != ids[j]
    requires forall k :: k in changed <==> HasKey(before, k) != HasKey(after, k)
    ensures forall i, j :: 0 <= i < j < |more| ==> more[i] != more[j]
    ensures forall m :: m in more <==> m in ids || Touched(before, after, side, m)
  {
    more := ids;
    var todo := side.modules.Keys;
    while todo != {}
      invariant todo <= side.modules.Keys
      invariant forall i, j :: 0 <= i < j < |more| ==> more[i] != more[j]
      invariant forall m :: m in more <==> m in ids || (m !in todo && Touched(before, after, side, m))
      decreases todo
    {
      var m :| m in todo;
      todo := todo - {m};
      if m !in more {
        var keys := ModuleKeys(m, side.modules[m]);
        var common := keys * changed;
        if common != {} {
          assert Touched(before, after, side, m) by {
            var k :| k in common;
          }
          more := more + [m];
        } else {
          assert !Touched(before, after, side, m) by {
            assert forall k :: k in keys && k in changed ==> k in common;
          }
        }
      }
    }
  }

  function ModuleOf(catalog: Catalog, key: Key): Option<Id>
    requires key.OnScreen() || key.Module?
  {
    if key.Module? then key.main else MainOf(catalog, key.screen)
  }

  lemma KeysLieInTheirModule(catalog: Catalog, keys: set<Key>, tree: Tree, key: Key)
    requires Built(catalog, keys, tree) && (key.OnScreen() || key.Module?)
    ensures var m := ModuleOf(catalog, key); TreeHasKey(tree, key) <==> m in tree && ModuleHasKey(m, tree[m], key)
    ensures forall m :: m in tree && ModuleHasKey(m, tree[m], key) ==> m == ModuleOf(catalog, key)
  {
    forall m | m in tree && ModuleHasKey(m, tree[m], key) ensures m == ModuleOf(catalog, key) {
      assert Under(catalog, keys, m, tree[m]);
    }
  }

  lemma EntryHasKey(screen: Id, node: Node) returns (key: Key)
    ensures key.OnScreen() && key.screen == screen && ScreenHasKey(screen, node, key)
  {
    if node == Node({}, {}) {
      key := Screen(screen);
    } else if node.actions != {} {
      var a :| a in node.actions;
      key := Action(screen, a);
    } else {
      var c :| c in node.columns;
      key := Column(screen, c.0, c.1);
    }
  }

  lemma ModuleHasSomeKey(main: Option<Id>, screens: map<Id, Node>) returns (key: Key)
    ensures ModuleHasKey(main, screens, key)
  {
    if screens == map[] {
      key := Module(main);
    } else {
      var s :| s in screens;
      key := EntryHasKey(s, screens[s]);
    }
  }

  lemma ModuleKeysTellModulesApart(main: Option<Id>, first: map<Id, Node>, second: map<Id, Node>)
    requires forall k :: ModuleHasKey(main, first, k) <==> ModuleHasKey(main, second, k)
    ensures first == second
  {
    assert ModuleHasKey(main, first, Module(main)) <==> ModuleHasKey(main, second, Module(main));
    forall s ensures s in first <==> s in second {
      if s in first {
        var k := EntryHasKey(s, first[s]);
        assert ModuleHasKey(main, second, k);
      }
      if s in second {
        var k := EntryHasKey(s, second[s]);
        assert ModuleHasKey(main, first, k);
      }
    }
    forall s | s in first ensures first[s] == second[s] {
      NodeKeysTellNodesApart(main, first, second, s);
    }
  }

  lemma NodeKeysTellNodesApart(main: Option<Id>, first: map<Id, Node>, second: map<Id, Node>, s: Id)
    requires forall k :: ModuleHasKey(main, first, k) <==> ModuleHasKey(main, second, k)
    requires s in first && s in second
    ensures first[s] == second[s]
  {
    forall a ensures a in first[s].actions <==> a in second[s].actions {
      assert ModuleHasKey(main, first, Action(s, a)) <==> ModuleHasKey(main, second, Action(s, a));
    }
    forall c: (Id, string) ensures c in first[s].columns <==> c in second[s].columns {
      var k := Column(s, c.0, c.1);
      assert (c.0, c.1) == c && (ModuleHasKey(main, first, k) <==> ModuleHasKey(main, second, k));
    }
    assert first[s].actions == second[s].actions && first[s].columns == second[s].columns;
  }

  ghost predicate ModuleDiffers(before: Snapshot, after: Snapshot, main: Option<Id>) {
    || ((main in before.modules) != (main in after.modules))
    || (main in before.modules && before.modules[main] != after.modules[main])
  }

  /** A main screen is reported exactly when its part of the tree differs. */
  lemma ChangedModulesExactly(catalog: Catalog, older: set<Key>, before: Snapshot, newer: set<Key>,
                              after: Snapshot, m: Option<Id>)
    requires Represents(catalog, older, before) && Represents(catalog, newer, after)
    ensures Touched(before, after, after, m) || Touched(before, after, before, m) <==> ModuleDiffers(before, after, m)
  {
    forall k: Key | k.OnScreen() || k.Module?
      ensures HasKey(before, k) <==> (var x := ModuleOf(catalog, k); x in before.modules && ModuleHasKey(x, before.modules[x], k))
      ensures HasKey(after, k) <==> (var x := ModuleOf(catalog, k); x in after.modules && ModuleHasKey(x, after.modules[x], k))
      ensures m in before.modules && ModuleHasKey(m, before.modules[m], k) ==> m == ModuleOf(catalog, k)
      ensures m in after.modules && ModuleHasKey(m, after.modules[m], k) ==> m == ModuleOf(catalog, k)
    {
      KeysLieInTheirModule(catalog, older, before.modules, k);
      KeysLieInTheirModule(catalog, newer, after.modules, k);
    }
    if ModuleDiffers(before, after, m) {
      if m !in after.modules {
        var k := ModuleHasSomeKey(m, before.modules[m]);
        assert HasKey(before, k) != HasKey(after, k);
      } else if m !in before.modules {
        var k := ModuleHasSomeKey(m, after.modules[m]);
        assert HasKey(before, k) != HasKey(after, k);
      } else if forall k :: ModuleHasKey(m, before.modules[m], k) <==> ModuleHasKey(m, after.modules[m], k) {
        ModuleKeysTellModulesApart(m, before.modules[m], after.modules[m]);
      } else {
        var k :| ModuleHasKey(m, before.modules[m], k) != ModuleHasKey(m, after.modules[m], k);
        assert HasKey(before, k) != HasKey(after, k);
      }
    }
  }

  // -------------------------------------------------------------- audit rows

  type Owner = string

  datatype AuditAction = Created | Updated | Deleted

  datatype AuditRow = AuditRow(owner: Owner, before: Snapshot, after: Snapshot, mainScreen: Option<Id>,
                               isActive: bool, isDeleted: bool, previousIsActive: bool, action: AuditAction)

  type State = map<Owner, set<Key>>

  function GrantsOf(state: State, owner: Owner): set<Key> {
    if owner in state then state[owner] else {}
  }

  method WriteAccessAudit(owner: Owner, before: Snapshot, after: Snapshot, action: AuditAction)
    returns (row: Option<AuditRow>)
    ensures row.None? <==> SameKeys(before, after) && action != Deleted
    ensures row.Some? ==> row.value.owner == owner && row.value.before == before && row.value.after == after
    ensures row.Some? ==> (row.value.isActive <==> exists k :: HasKey(after, k))
    ensures row.Some? ==> (row.value.previousIsActive <==> exists k :: HasKey(before, k))
    ensures row.Some? ==> row.value.action == action && (row.value.isDeleted <==> action == Deleted)
    ensures row.Some? ==> forall id :: row.value.mainScreen == Some(id) <==>
      forall m :: Touched(before, after, after, m) || Touched(before, after, before, m) <==> m == Some(id)
  {
    var older := SnapshotKeys(before);
    var newer := SnapshotKeys(after);
    if older == newer && action != Deleted {
      return None;
    }
    var modules := ChangedModuleIds(before, after);
    var only := if |modules| == 1 then modules[0] else None;
    forall id ensures only == Some(id) <==> forall m :: m in modules <==> m == Some(id) {
      OnlyOne(modules, id);
    }
    assert !SameKeys(before, after) || action == Deleted by {
      if older != newer {
        var k :| (k in older) != (k in newer);
        assert HasKey(before, k) != HasKey(after, k);
      }
    }
    assert newer == {} || exists k :: k in newer;
    assert older == {} || exists k :: k in older;
    row := Some(AuditRow(owner, before, after, only, newer != {}, action == Deleted, older != {}, action));
  }

  lemma OnlyOne(ids: seq<Option<Id>>, id: Id)
    requires forall i, j :: 0 <= i < j < |ids| ==> ids[i] != ids[j]
    ensures |ids| == 1 && ids[0] == Some(id) <==> forall m :: m in ids <==> m == Some(id)
  {
    if |ids| > 1 {
      var other := if ids[0] == Some(id) then ids[1] else ids[0];
      assert other in ids && other != Some(id);
    } else if |ids| == 1 {
      assert ids[0] in ids;
    } else {
      assert Some(id) !in ids;
    }
  }

  /** The grants differ once dominated keys are set aside, or nothing is left. */
  ghost predicate Logged(catalog: Catalog, older: set<Key>, newer: set<Key>) {
    older != newer && (newer == {} || Reduced(catalog, older) != Reduced(catalog, newer))
  }

  ghost predicate RowOf(catalog: Catalog, older: set<Key>, newer: set<Key>, row: AuditRow) {
    && Represents(catalog, older, row.before) && Represents(catalog, newer, row.after)
    && row.action == (if older == {} then Created else if newer == {} then Deleted else Updated)
    && (row.isDeleted <==> newer == {})
    && (row.isActive <==> Reduced(catalog, newer) != {})
    && (row.previousIsActive <==> Reduced(catalog, older) != {})
    && forall id :: row.mainScreen == Some(id) <==> forall m :: ModuleDiffers(row.before, row.after, m) <==> m == Some(id)
  }

  ghost predicate AuditsOf(catalog: Catalog, before: State, after: State, rows: seq<AuditRow>) {
    && (forall i, j :: 0 <= i < j < |rows| ==> rows[i].owner != rows[j].owner)
    && (forall i :: 0 <= i < |rows| ==> RowOf(catalog, GrantsOf(before, rows[i].owner), GrantsOf(after, rows[i].owner), rows[i]))
  }

  ghost predicate HasRow(rows: seq<AuditRow>, owner: Owner) {
    exists i :: 0 <= i < |rows| && rows[i].owner == owner
  }

  method OwnerAudit(catalog: Catalog, owner: Owner, older: set<Key>, newer: set<Key>) returns (row: Option<AuditRow>)
    requires older != newer
    ensures row.Some? <==> Logged(catalog, older, newer)
    ensures row.Some? ==> row.value.owner == owner && RowOf(catalog, older, newer, row.value)
  {
    var before := SnapshotFromKeys(catalog, older);
    var after := SnapshotFromKeys(catalog, newer);
    var action := if older == {} then Created else if newer == {} then Deleted else Updated;
    row := WriteAccessAudit(owner, before, after, action);
    KeysAreReduced(catalog, older, before);
    KeysAreReduced(catalog, newer, after);
    SameKeysExactly(catalog, older, before, newer, after);
    forall m ensures Touched(before, after, after, m) || Touched(before, after, before, m) <==> ModuleDiffers(before, after, m) {
      ChangedModulesExactly(catalog, older, before, newer, after, m);
    }
  }

  lemma KeysAreReduced(catalog: Catalog, keys: set<Key>, snapshot: Snapshot)
    requires Represents(catalog, keys, snapshot)
    ensures Reduced(catalog, keys) != {} <==> exists k :: HasKey(snapshot, k)
  {
    forall k ensures HasKey(snapshot, k) <==> k in Reduced(catalog, keys) {
      RoundTrip(catalog, keys, snapshot, k);
    }
    assert Reduced(catalog, keys) == {} || exists k :: k in Reduced(catalog, keys);
  }

  lemma SameKeysExactly(catalog: Catalog, older: set<Key>, before: Snapshot, newer: set<Key>, after: Snapshot)
    requires Represents(catalog, older, before) && Represents(catalog, newer, after)
    ensures SameKeys(before, after) <==> Reduced(catalog, older) == Reduced(catalog, newer)
  {
    forall k ensures HasKey(before, k) <==> k in Reduced(catalog, older) {
      RoundTrip(catalog, older, before, k);
    }
    forall k ensures HasKey(after, k) <==> k in Reduced(catalog, newer) {
      RoundTrip(catalog, newer, after, k);
    }
  }

  /** One row for each owner whose recorded grants changed, and none for any other. */
  method WritePermissionAudits(catalog: Catalog, before: State, after: State) returns (rows: seq<AuditRow>)
    ensures AuditsOf(catalog, before, after, rows)
    ensures forall o :: HasRow(rows, o) <==> Logged(catalog, GrantsOf(before, o), GrantsOf(after, o))
  {
    rows := [];
    var owners := before.Keys + after.Keys;
    var todo := owners;
    while todo != {}
      invariant todo <= owners
      invariant AuditsOf(catalog, before, after, rows)
      invariant forall o :: HasRow(rows, o) <==>
        o in owners - todo && Logged(catalog, GrantsOf(before, o), GrantsOf(after, o))
      decreases todo
    {
      var owner :| owner in todo;
      todo := todo - {owner};
      var older, newer := GrantsOf(before, owner), GrantsOf(after, owner);
      if older != newer {
        var row := OwnerAudit(catalog, owner, older, newer);
        if row.Some? {
          RowAdded(catalog, before, after, rows, row.value);
          rows := rows + [row.value];
        }
      }
    }
  }

  lemma RowAdded(catalog: Catalog, before: State, after: State, rows: seq<AuditRow>, row: AuditRow)
    requires AuditsOf(catalog, before, after, rows) && !HasRow(rows, row.owner)
    requires RowOf(catalog, GrantsOf(before, row.owner), GrantsOf(after, row.owner), row)
    ensures AuditsOf(catalog, before, after, rows + [row])
    ensures forall o :: HasRow(rows + [row], o) <==> HasRow(rows, o) || o == row.owner
  {
    var more := rows + [row];
    forall o ensures HasRow(more, o) <==> HasRow(rows, o) || o == row.owner {
      if HasRow(rows, o) {
        var i :| 0 <= i < |rows| && rows[i].owner == o;
        assert more[i].owner == o;
      }
      if o == row.owner {
        assert more[|rows|].owner == o;
      }
    }
    forall i, j | 0 <= i < j < |more| ensures more[i].owner != more[j].owner {
      assert j == |rows| ==> HasRow(rows, more[i].owner);
    }
  }

  /** What an owner may do after the save can be read from the rows: the new snapshot
      of the owner's row, or the old grants when there is no row. */
  lemma AuditTrailIsComplete(catalog: Catalog, before: State, after: State, rows: seq<AuditRow>, owner: Owner)
    requires AuditsOf(catalog, before, after, rows)
    requires HasRow(rows, owner) <==> Logged(catalog, GrantsOf(before, owner), GrantsOf(after, owner))
    ensures !HasRow(rows, owner) ==> Reduced(catalog, GrantsOf(before, owner)) == Reduced(catalog, GrantsOf(after, owner))
    ensures forall i, k :: 0 <= i < |rows| && rows[i].owner == owner ==>
      (HasKey(rows[i].after, k) <==> k in Reduced(catalog, GrantsOf(after, owner)))
  {
    forall i, k | 0 <= i < |rows| && rows[i].owner == owner
      ensures HasKey(rows[i].after, k) <==> k in Reduced(catalog, GrantsOf(after, owner))
    {
      RoundTrip(catalog, GrantsOf(after, owner), rows[i].after, k);
    }
  }

  lemma DominationCarriesOver(catalog: Catalog, some: set<Key>, others: set<Key>, key: Key)
    requires forall k :: k in some && k !in others ==> Dominated(catalog, some, k)
    requires Dominated(catalog, some, key)
    ensures Dominated(catalog, others, key)
  {
    match key
    case Screen(s) =>
      var k :| k in some && (k.Action? || k.Column?) && k.screen == s;
      assert k in others;
    case Module(m) =>
      ReducedUsesTheSameModules(catalog, some, m);
      var k :| k in Reduced(catalog, some) && k.OnScreen() && MainOf(catalog, k.screen) == m;
      assert k in others;
    case _ =>
  }

  /** Every key gained or lost was dominated where it stood. */
  ghost predicate OnlyDominatedMoved(catalog: Catalog, older: set<Key>, newer: set<Key>) {
    && (forall k :: k in older && k !in newer ==> Dominated(catalog, older, k))
    && (forall k :: k in newer && k !in older ==> Dominated(catalog, newer, k))
  }

  lemma OnlyDominatedMovedKeepsReduced(catalog: Catalog, older: set<Key>, newer: set<Key>)
    requires OnlyDominatedMoved(catalog, older, newer)
    ensures Reduced(catalog, older) == Reduced(catalog, newer)
  {
    forall k ensures Dominated(catalog, older, k) <==> Dominated(catalog, newer, k) {
      if Dominated(catalog, older, k) {
        DominationCarriesOver(catalog, older, newer, k);
      }
      if Dominated(catalog, newer, k) {
        DominationCarriesOver(catalog, newer, older, k);
      }
    }
  }

  /** A changed owner goes unlogged exactly when something is left and only dominated
      keys came or went. */
  lemma UnloggedExactly(catalog: Catalog, older: set<Key>, newer: set<Key>)
    requires older != newer
    ensures !Logged(catalog, older, newer) <==> newer != {} && OnlyDominatedMoved(catalog, older, newer)
  {
    if OnlyDominatedMoved(catalog, older, newer) {
      OnlyDominatedMovedKeepsReduced(catalog, older, newer);
    } else {
      var k :| (k in older && k !in newer && !Dominated(catalog, older, k))
        || (k in newer && k !in older && !Dominated(catalog, newer, k));
      assert (k in Reduced(catalog, older)) != (k in Reduced(catalog, newer));
    }
  }

  /** Over states with no dominated key, a row is due exactly when the grants changed. */
  lemma NormalStatesAreLogged(catalog: Catalog, older: set<Key>, newer: set<Key>)
    requires forall k :: k in older ==> !Dominated(catalog, older, k)
    requires forall k :: k in newer ==> !Dominated(catalog, newer, k)
    ensures Logged(catalog, older, newer) <==> older != newer
  {
    assert Reduced(catalog, older) == older && Reduced(catalog, newer) == newer;
  }

  /** Not so in general: a whole-screen grant beside one of its actions goes unlogged. */
  lemma AuditMissesWholeScreenGrant(catalog: Catalog) returns (older: set<Key>, newer: set<Key>)
    ensures older != newer && newer != {} && !Logged(catalog, older, newer)
  {
    var action, screen := Action("US-1", "ACT-1"), Screen("US-1");
    older, newer := {action}, {action, screen};
    assert action in newer && Dominated(catalog, newer, screen);
    assert Reduced(catalog, older) == {action};
    assert Reduced(catalog, newer) == {action};
    assert screen in newer && screen !in older;
  }
}
