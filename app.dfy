/**
 * The application shell: the global keyboard shortcuts, the right-click
 * handler that fills the context menu, the context menu's dismissal and
 * selection as they reach the shell, and the theme switch.
 */
module App {
  import opened Options
  import opened Ascii
  import opened MenuStore
  import opened ContextMenu

  /** Alt + letter: the menu id to focus. */
  const AltMenus: map<string, string> := map[
    "f" := "file", "e" := "edit", "v" := "view", "p" := "project", "t" := "tools", "h" := "help"
  ]

  /** Ctrl + letter: the action to run, named by the text it logs. */
  const CtrlActions: map<string, string> := map[
    "n" := "New Project", "o" := "Open Project", "s" := "Save Project", "z" := "Undo",
    "y" := "Redo", "x" := "Cut", "c" := "Copy", "v" := "Paste"
  ]

  /** `table[key.toLowerCase()]`, with a missing entry as `None`. */
  function Lookup(table: map<string, string>, key: string): (r: Option<string>)
    ensures r.Some? <==> LowerAll(key) in table
    ensures r.Some? ==> r.value == table[LowerAll(key)]
  {
    var k := LowerAll(key);
    if k in table then Some(table[k]) else None
  }

  /** The lookup ignores case: a key and its lower-cased form find the same entry. */
  lemma LookupIgnoresCase(table: map<string, string>, key: string)
    ensures Lookup(table, key) == Lookup(table, LowerAll(key))
  {
    LowerAllIdempotent(key);
  }

  /** Both tables hold one-letter keys only, so only one-character keys can hit. */
  lemma OnlySingleLettersHit(key: string)
    ensures Lookup(AltMenus, key).Some? ==> |key| == 1
    ensures Lookup(CtrlActions, key).Some? ==> |key| == 1
  {
    assert forall t :: t in AltMenus ==> |t| == 1;
    assert forall t :: t in CtrlActions ==> |t| == 1;
  }

  lemma AltTable()
    ensures Lookup(AltMenus, "F") == Lookup(AltMenus, "f") == Some("file")
    ensures Lookup(AltMenus, "P") == Some("project") && Lookup(AltMenus, "H") == Some("help")
    ensures Lookup(AltMenus, "x") == None
  {
    assert LowerAll("F") == "f" by { assert LowerAll("F") == [ToLower('F')] + LowerAll([]); }
    assert LowerAll("P") == "p" by { assert LowerAll("P") == [ToLower('P')] + LowerAll([]); }
    assert LowerAll("H") == "h" by { assert LowerAll("H") == [ToLower('H')] + LowerAll([]); }
  }

  /** What one keydown asks for: a menu to focus, an action to run, and whether the default is suppressed. */
  datatype KeyOutcome = KeyOutcome(focus: Option<string>, action: Option<string>, preventDefault: bool)

  /** The global keydown handler: the Alt and the Ctrl table are consulted independently. */
  function Dispatch(key: string, altKey: bool, ctrlKey: bool): (o: KeyOutcome)
    ensures o.preventDefault <==> (altKey && LowerAll(key) in AltMenus) || (ctrlKey && LowerAll(key) in CtrlActions)
    ensures o.focus.Some? ==> altKey && o.focus.value in AltMenus.Values
    ensures o.action.Some? ==> ctrlKey && o.action.value in CtrlActions.Values
    ensures altKey ==> o.focus == Lookup(AltMenus, key)
    ensures ctrlKey ==> o.action == Lookup(CtrlActions, key)
  {
    var focus := if altKey then Lookup(AltMenus, key) else None;
    var action := if ctrlKey then Lookup(CtrlActions, key) else None;
    KeyOutcome(focus, action, focus.Some? || action.Some?)
  }

  /** Holding the other modifier as well changes neither branch. */
  lemma BranchesIndependent(key: string)
    ensures Dispatch(key, true, true).focus == Dispatch(key, true, false).focus
    ensures Dispatch(key, true, true).action == Dispatch(key, false, true).action
  {
  }

  /** Alt+Ctrl+V both targets the View menu and runs Paste. */
  lemma AltCtrlV()
    ensures Dispatch("V", true, true) == KeyOutcome(Some("view"), Some("Paste"), true)
  {
    assert LowerAll("V") == "v" by { assert LowerAll("V") == [ToLower('V')] + LowerAll([]); }
  }

  /** The entries the right-click handler builds. */
  function ContextItems(): (items: seq<Entry>)
    ensures |items| == 7
  {
    [ Action("Cut", "Context Cut", Some("Ctrl+X"), false),
      Action("Copy", "Context Copy", Some("Ctrl+C"), false),
      Action("Paste", "Context Paste", Some("Ctrl+V"), false),
      Separator,
      Action("Select All", "Select All", Some("Ctrl+A"), false),
      Separator,
      Action("Properties", "Properties", None, false) ]
  }

  /** Cut, Copy, Paste, separator, Select All, separator, Properties; every item is enabled. */
  lemma ContextItemsLayout()
    ensures var items := ContextItems();
      && items[3].Separator? && items[5].Separator?
      && items[0].text == "Cut" && items[1].text == "Copy" && items[2].text == "Paste"
      && items[4].text == "Select All" && items[6].text == "Properties"
      && forall i :: 0 <= i < |items| && i != 3 && i != 5 ==> Actionable(items[i])
  {
  }

  datatype ContextMenuState = ContextMenuState(visible: bool, x: int, y: int, items: seq<Entry>)

  /** `closeContextMenu`: hide, keeping the position and the entries. */
  function Hidden(menu: ContextMenuState): (r: ContextMenuState)
    ensures !r.visible && r.x == menu.x && r.y == menu.y && r.items == menu.items
  {
    menu.(visible := false)
  }

  class Shell {
    const store: Store
    const root: RootStyle
    var contextMenu: ContextMenuState
    /** The menu whose `data-menu-id` element an Alt shortcut last called `.focus()` on. */
    var focused: Option<string>
    /** What the placeholder actions have logged, oldest first. */
    var log: seq<string>

    constructor (store: Store, root: RootStyle)
      ensures this.store == store && this.root == root
      ensures contextMenu == ContextMenuState(false, 0, 0, []) && focused == None && log == []
    {
      this.store := store;
      this.root := root;
      contextMenu := ContextMenuState(false, 0, 0, []);
      focused := None;
      log := [];
    }

    /** On mount the current theme's variables are applied again. */
    method Mount()
      modifies store, root
      ensures store.theme == old(store.theme)
      ensures store.openMenus == old(store.openMenus) && store.shortcuts == old(store.shortcuts)
      ensures root.vars == Applied(old(root.vars), ThemeTable(store.theme))
    {
      store.SetTheme(store.theme, root);
    }

    /** The global keydown listener; `mounted` is the set of menu ids present in the document. */
    method KeyDown(key: string, altKey: bool, ctrlKey: bool, mounted: set<string>) returns (preventDefault: bool)
      modifies this
      ensures var o := Dispatch(key, altKey, ctrlKey);
        && preventDefault == o.preventDefault
        && focused == (if o.focus.Some? && o.focus.value in mounted then o.focus else old(focused))
        && log == old(log) + (if o.action.Some? then [o.action.value] else [])
      ensures contextMenu == old(contextMenu)
    {
      var o := Dispatch(key, altKey, ctrlKey);
      preventDefault := o.preventDefault;
      if o.focus.Some? && o.focus.value in mounted {
        focused := o.focus;
      }
      if o.action.Some? {
        log := log + [o.action.value];
      }
    }

    /** The right-click listener: suppress the native menu and show ours where the mouse is. */
    method OpenContextMenu(clientX: int, clientY: int) returns (preventDefault: bool)
      modifies this
      ensures preventDefault
      ensures contextMenu == ContextMenuState(true, clientX, clientY, ContextItems())
      ensures log == old(log) && focused == old(focused)
    {
      preventDefault := true;
      contextMenu := ContextMenuState(true, clientX, clientY, ContextItems());
    }

    method CloseContextMenu()
      modifies this
      ensures contextMenu == Hidden(old(contextMenu))
      ensures log == old(log) && focused == old(focused)
    {
      contextMenu := contextMenu.(visible := false);
    }

    /** A click on the row of entry `i`: an actionable entry logs its action once, then the menu closes. */
    method ClickContextItem(i: nat)
      requires contextMenu.visible && i < |contextMenu.items|
      modifies this
      ensures var s := Select(old(contextMenu.items[i]));
        && log == old(log) + (if s.fired.Some? then [s.fired.value] else [])
        && contextMenu == (if s.closes then Hidden(old(contextMenu)) else old(contextMenu))
      ensures focused == old(focused)
    {
      var s := Select(contextMenu.items[i]);
      if s.fired.Some? {
        log := log + [s.fired.value];
      }
      if s.closes {
        CloseContextMenu();
      }
    }

    /** The context menu's keydown listener, registered only while it is visible. */
    method ContextKeyDown(key: string)
      modifies this
      ensures contextMenu == (if old(contextMenu.visible) && key == "Escape" then Hidden(old(contextMenu)) else old(contextMenu))
      ensures log == old(log) && focused == old(focused)
    {
      if contextMenu.visible && key == "Escape" {
        CloseContextMenu();
      }
    }

    /** The context menu's mousedown listener, registered only while it is visible. */
    method ContextMouseDown(insidePanel: bool)
      modifies this
      ensures contextMenu == (if old(contextMenu.visible) && !insidePanel then Hidden(old(contextMenu)) else old(contextMenu))
      ensures log == old(log) && focused == old(focused)
    {
      if contextMenu.visible && !insidePanel {
        CloseContextMenu();
      }
    }

    /** The theme button: dark becomes light and light becomes dark. */
    method ToggleTheme()
      modifies store, root
      ensures store.theme == Opposite(old(store.theme))
      ensures store.openMenus == old(store.openMenus) && store.shortcuts == old(store.shortcuts)
      ensures root.vars == Applied(old(root.vars), ThemeTable(store.theme))
    {
      store.SetTheme(Opposite(store.theme), root);
    }
  }
}
