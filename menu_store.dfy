/**
 * The shared UI store: which dropdown menus are open, the current theme and
 * the action-to-shortcut display table, plus the document-root style
 * variables that switching the theme writes.
 */
module MenuStore {

  datatype Theme = Light | Dark

  function Opposite(theme: Theme): (r: Theme)
    ensures r != theme
  {
    if theme == Dark then Light else Dark
  }

  /** A menu id reads as open only when it is present and mapped to true; absent reads as closed. */
  predicate IsOpen(openMenus: map<string, bool>, id: string): (open: bool)
    ensures id !in openMenus ==> !open
    ensures id in openMenus ==> (open <==> openMenus[id])
  {
    id in openMenus && openMenus[id]
  }

  /** The exclusivity invariant: no two distinct ids read as open. */
  ghost predicate AtMostOneOpen(openMenus: map<string, bool>) {
    forall a, b :: IsOpen(openMenus, a) && IsOpen(openMenus, b) ==> a == b
  }

  /** `openMenu(id)`: the spread update `{...openMenus, [id]: true}`. */
  function Opened(openMenus: map<string, bool>, id: string): (r: map<string, bool>)
    ensures IsOpen(r, id)
    ensures r.Keys == openMenus.Keys + {id}
    ensures forall k :: k in openMenus && k != id ==> r[k] == openMenus[k]
  {
    openMenus[id := true]
  }

  /** `closeMenu(id)`: stores `false` under `id` rather than removing the key. */
  function Closed(openMenus: map<string, bool>, id: string): (r: map<string, bool>)
    ensures id in r && !IsOpen(r, id)
    ensures r.Keys == openMenus.Keys + {id}
    ensures forall k :: k in openMenus && k != id ==> r[k] == openMenus[k]
  {
    openMenus[id := false]
  }

  /** `toggleMenu(id)`: reads the current state (absent as false) and stores its negation. */
  function Toggled(openMenus: map<string, bool>, id: string): (r: map<string, bool>)
    ensures id in r && (IsOpen(r, id) <==> !IsOpen(openMenus, id))
    ensures r.Keys == openMenus.Keys + {id}
    ensures forall k :: k in openMenus && k != id ==> r[k] == openMenus[k]
  {
    var current := IsOpen(openMenus, id);
    openMenus[id := !current]
  }

  /** Toggling twice restores the open/closed reading of `id` and leaves every other entry alone. */
  lemma ToggleTwice(openMenus: map<string, bool>, id: string)
    ensures var r := Toggled(Toggled(openMenus, id), id);
      && (IsOpen(r, id) <==> IsOpen(openMenus, id))
      && r == openMenus[id := IsOpen(openMenus, id)]
  {
  }

  /** Closing every menu leaves an empty map, so no id reads as open. */
  lemma NothingOpenWhenEmpty(id: string)
    ensures !IsOpen(map[], id) && AtMostOneOpen(map[])
  {
  }

  /** The shortcut texts the store starts with. */
  const DefaultShortcuts: map<string, string> := map[
    "newProject" := "Ctrl+N",
    "openProject" := "Ctrl+O",
    "saveProject" := "Ctrl+S",
    "undo" := "Ctrl+Z",
    "redo" := "Ctrl+Y",
    "cut" := "Ctrl+X",
    "copy" := "Ctrl+C",
    "paste" := "Ctrl+V"
  ]

  lemma DefaultShortcutsCount()
    ensures |DefaultShortcuts| == 8
    ensures DefaultShortcuts["saveProject"] == "Ctrl+S" && DefaultShortcuts["paste"] == "Ctrl+V"
  {
  }

  /** The eleven style variables both themes write, in the order they are written. */
  const ThemeVarNames: seq<string> := [
    "--menu-background", "--menu-text", "--menu-border", "--menu-hover",
    "--dropdown-background", "--dropdown-border", "--dropdown-hover", "--dropdown-text",
    "--background-color", "--text-color", "--secondary-text-color"
  ]

  function ThemeValues(theme: Theme): (values: seq<string>)
    ensures |values| == |ThemeVarNames|
  {
    match theme
    case Light => [
      "#ffffff", "#333333", "#e0e0e0", "#f5f5f5",
      "#ffffff", "#e0e0e0", "#f5f5f5", "#333333",
      "#fafafa", "#333333", "#666666"]
    case Dark => [
      "#2d3748", "#e2e8f0", "#4a5568", "#4a5568",
      "#2d3748", "#4a5568", "#4a5568", "#e2e8f0",
      "#1a202c", "#e2e8f0", "#a0aec0"]
  }

  /** The `setProperty` calls one branch of `setTheme` makes, as (name, value) pairs in order. */
  function ThemeTable(theme: Theme): (table: seq<(string, string)>)
    ensures |table| == 11
    ensures forall i :: 0 <= i < |table| ==> table[i].0 == ThemeVarNames[i]
  {
    seq(|ThemeVarNames|, i requires 0 <= i < |ThemeVarNames| => (ThemeVarNames[i], ThemeValues(theme)[i]))
  }

  /** The names a sequence of writes touches. */
  function Names(writes: seq<(string, string)>): set<string> {
    set i | 0 <= i < |writes| :: writes[i].0
  }

  lemma NamesOfPrefix(writes: seq<(string, string)>)
    requires writes != []
    ensures Names(writes) == Names(writes[..|writes| - 1]) + {writes[|writes| - 1].0}
  {
    var init := writes[..|writes| - 1];
    forall k | k in Names(writes) ensures k in Names(init) + {writes[|writes| - 1].0} {
      var i :| 0 <= i < |writes| && writes[i].0 == k;
      if i < |writes| - 1 {
        assert init[i] == writes[i];
      }
    }
    forall k | k in Names(init) ensures k in Names(writes) {
      var i :| 0 <= i < |init| && init[i].0 == k;
      assert writes[i] == init[i];
    }
  }

  /** The value the last write to `name` stores. */
  function LastWrite(writes: seq<(string, string)>, name: string): (v: string)
    requires name in Names(writes)
    ensures exists i ::
      && 0 <= i < |writes| && writes[i] == (name, v)
      && (forall j :: i < j < |writes| ==> writes[j].0 != name)
    decreases |writes|
  {
    var last := writes[|writes| - 1];
    if last.0 == name then last.1
    else
      NamesOfPrefix(writes);
      var v := LastWrite(writes[..|writes| - 1], name);
      assert forall i :: 0 <= i < |writes| - 1 ==> writes[..|writes| - 1][i] == writes[i];
      v
  }

  /** The variables after writing `writes` one after another into `vars`: the last write to a name wins. */
  function Applied(vars: map<string, string>, writes: seq<(string, string)>): (r: map<string, string>)
    ensures r.Keys == vars.Keys + Names(writes)
    ensures forall k :: k in vars && k !in Names(writes) ==> r[k] == vars[k]
    ensures forall k :: k in Names(writes) ==> r[k] == LastWrite(writes, k)
    decreases |writes|
  {
    if writes == [] then vars
    else
      NamesOfPrefix(writes);
      var last := writes[|writes| - 1];
      Applied(vars, writes[..|writes| - 1])[last.0 := last.1]
  }

  /** Writing `later` after `earlier` over the same names gives the same variables as writing `later` alone. */
  lemma LaterWritesWin(vars: map<string, string>, earlier: seq<(string, string)>, later: seq<(string, string)>)
    requires Names(earlier) == Names(later)
    ensures Applied(Applied(vars, earlier), later) == Applied(vars, later)
  {
    var a, b := Applied(Applied(vars, earlier), later), Applied(vars, later);
    assert a.Keys == b.Keys;
    forall k | k in a ensures a[k] == b[k] {
      if k !in Names(later) {
        assert k !in Names(earlier);
      }
    }
  }

  /** Both branches of `setTheme` write the same eleven names. */
  lemma ThemesWriteSameNames(first: Theme, second: Theme)
    ensures Names(ThemeTable(first)) == Names(ThemeTable(second))
  {
    var t1, t2 := ThemeTable(first), ThemeTable(second);
    forall k | k in Names(t1) ensures k in Names(t2) {
      var i :| 0 <= i < |t1| && t1[i].0 == k;
      assert t2[i].0 == k;
    }
    forall k | k in Names(t2) ensures k in Names(t1) {
      var i :| 0 <= i < |t2| && t2[i].0 == k;
      assert t1[i].0 == k;
    }
  }

  /**
   * The variables only depend on the last theme applied: light then dark
   * gives exactly the dark values.
   */
  lemma LastThemeWins(vars: map<string, string>, first: Theme, second: Theme)
    ensures Applied(Applied(vars, ThemeTable(first)), ThemeTable(second)) == Applied(vars, ThemeTable(second))
  {
    ThemesWriteSameNames(first, second);
    LaterWritesWin(vars, ThemeTable(first), ThemeTable(second));
  }

  /** No variable name is written twice by one theme. */
  lemma ThemeVarNamesDistinct(a: nat, b: nat)
    requires a < b < |ThemeVarNames|
    ensures ThemeVarNames[a] != ThemeVarNames[b]
  {
  }

  /** After `setTheme(theme)` the i-th variable holds exactly the theme's i-th value. */
  lemma ThemeValuesApplied(vars: map<string, string>, theme: Theme, i: nat)
    requires i < |ThemeVarNames|
    ensures Applied(vars, ThemeTable(theme))[ThemeVarNames[i]] == ThemeValues(theme)[i]
  {
    var table := ThemeTable(theme);
    assert table[i] == (ThemeVarNames[i], ThemeValues(theme)[i]);
    assert ThemeVarNames[i] in Names(table);
    var w := LastWrite(table, ThemeVarNames[i]);
    var k :| 0 <= k < |table| && table[k] == (ThemeVarNames[i], w) &&
      forall j :: k < j < |table| ==> table[j].0 != ThemeVarNames[i];
    if k > i {
      ThemeVarNamesDistinct(i, k);
    }
  }

  /** The document root's style scope, the one place theme variables are applied. */
  class RootStyle {
    var vars: map<string, string>

    constructor (initial: map<string, string>)
      ensures vars == initial
    {
      vars := initial;
    }
  }

  class Store {
    var openMenus: map<string, bool>
    var theme: Theme
    var shortcuts: map<string, string>

    /** The initial state: nothing open, the dark theme and the eight default shortcuts. */
    constructor ()
      ensures openMenus == map[] && theme == Dark && shortcuts == DefaultShortcuts
    {
      openMenus := map[];
      theme := Dark;
      shortcuts := DefaultShortcuts;
    }

    method OpenMenu(id: string)
      modifies this
      ensures openMenus == Opened(old(openMenus), id)
      ensures theme == old(theme) && shortcuts == old(shortcuts)
    {
      openMenus := openMenus[id := true];
    }

    method CloseMenu(id: string)
      modifies this
      ensures openMenus == Closed(old(openMenus), id)
      ensures theme == old(theme) && shortcuts == old(shortcuts)
    {
      openMenus := openMenus[id := false];
    }

    method CloseAllMenus()
      modifies this
      ensures openMenus == map[]
      ensures forall id :: !IsOpen(openMenus, id)
      ensures theme == old(theme) && shortcuts == old(shortcuts)
    {
      openMenus := map[];
    }

    method ToggleMenu(id: string)
      modifies this
      ensures openMenus == Toggled(old(openMenus), id)
      ensures theme == old(theme) && shortcuts == old(shortcuts)
    {
      var current := IsOpen(openMenus, id);
      openMenus := openMenus[id := !current];
    }

    /** Stores the theme, then writes the theme's eleven style variables into `root` one by one. */
    method SetTheme(theme: Theme, root: RootStyle)
      modifies this, root
      ensures this.theme == theme
      ensures openMenus == old(openMenus) && shortcuts == old(shortcuts)
      ensures root.vars == Applied(old(root.vars), ThemeTable(theme))
    {
      this.theme := theme;
      var table := ThemeTable(theme);
      var i := 0;
      while i < |table|
        invariant 0 <= i <= |table|
        invariant root.vars == Applied(old(root.vars), table[..i])
        invariant this.theme == theme
        invariant openMenus == old(openMenus) && shortcuts == old(shortcuts)
      {
        assert table[..i + 1][..i] == table[..i];
        root.vars := root.vars[table[i].0 := table[i].1];
        i := i + 1;
      }
      assert table[..i] == table;
    }

    method SetShortcut(action: string, shortcut: string)
      modifies this
      ensures shortcuts == old(shortcuts)[action := shortcut]
      ensures openMenus == old(openMenus) && theme == old(theme)
    {
      shortcuts := shortcuts[action := shortcut];
    }
  }
}
