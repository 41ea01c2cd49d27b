# Menu shell of RPG Toolkit 5, modelled in Dafny

RPG Toolkit 5's user interface is a shell around placeholder actions. It has a
menu bar of dropdown menus, a right-click context menu, a light/dark theme and
global keyboard shortcuts. This project models the logic behind these pieces:

- **`MenuStore`** (`menu_store.dfy`): the shared store, modelled as the class
  `Store`. Its fields are `openMenus: map<string, bool>`, `theme` and
  `shortcuts: map<string, string>`, and its methods reassign them. An id
  that is absent from `openMenus` reads as closed (`IsOpen`, which models
  `openMenus[menuId] || false` at `src/components/MenuItem.tsx:29`).
  `closeMenu` stores `false` and does not remove the key. `setTheme` writes
  eleven style variables one after another. Its target is the class
  `RootStyle`, which stands for the document root's style scope.
- **`MenuItem`** (`menu_item.dfy`): one menu-bar item. This covers the id
  derived from the label, the click, key and outside-press transitions, the
  effect that closes the other menus, and what the item shows. The handlers
  are methods that act on a `Store`. Each is specified by a pure transition
  on the map.
- **`ContextMenu`** (`context_menu.dfy`): the context menu's entries and
  rows, what selecting an entry does, the reposition against the viewport
  (the class `Panel` holds the `left`/`top` style the effect rewrites), and
  the effect that closes every dropdown when the menu appears.
- **`App`** (`app.dfy`): the Alt and Ctrl key tables and the keydown
  dispatch, the seven context-menu entries, and the class `Shell`. `Shell`
  holds the shell's context-menu state, the log of placeholder actions and
  the menu an Alt shortcut last called `.focus()` on. The context menu's
  `onClose` is the shell's `closeContextMenu`, so the context menu's
  dismissal and selection handlers are `Shell` methods.
- `Ascii` (`ascii.dfy`) and `Options` (`option.dfy`) are helpers.
  `Ascii` holds the ASCII parts of `toLowerCase` and of `\s`. `Options`
  holds `Option`, which stands for an `undefined` prop.

Events are modelled as method calls with abstract inputs. These inputs are
"the press was inside the item or panel", the panel's bounding box and the
viewport size, and the set of menu ids present in the document.

## Model

| member | source | states |
|---|---|---|
| `MenuStore.Store.constructor` | src/stores/menuStore.ts:23-35 | The store starts with nothing open, the dark theme and the eight default shortcuts |
| `MenuStore.DefaultShortcutsCount` | src/stores/menuStore.ts:26-35 | The default shortcut table has exactly eight entries, for example saveProject shows Ctrl+S |
| `MenuStore.IsOpen` | src/components/MenuItem.tsx:29 | An absent id reads as closed; a present id reads as its stored flag |
| `MenuStore.Opened` | src/stores/menuStore.ts:38-45 | After openMenu, `id` reads as open, `id` is added to the keys and every other entry keeps its value |
| `MenuStore.Store.OpenMenu` | src/stores/menuStore.ts:38-45 | The new `openMenus` is `Opened` of the old one; theme and shortcuts are unchanged |
| `MenuStore.Closed` | src/stores/menuStore.ts:47-54 | After closeMenu, `id` is present and reads as closed, and every other entry keeps its value |
| `MenuStore.Store.CloseMenu` | src/stores/menuStore.ts:47-54 | The new `openMenus` is `Closed` of the old one; theme and shortcuts are unchanged |
| `MenuStore.Store.CloseAllMenus` | src/stores/menuStore.ts:56-58 | `openMenus` becomes empty, so no id reads as open; theme and shortcuts are unchanged |
| `MenuStore.NothingOpenWhenEmpty` | src/stores/menuStore.ts:56-58 | In the empty map no id is open, so the exclusivity invariant holds |
| `MenuStore.Toggled` | src/stores/menuStore.ts:60-68 | toggleMenu makes `id` present and flips how it reads, with absent read as closed; other entries are kept |
| `MenuStore.Store.ToggleMenu` | src/stores/menuStore.ts:60-68 | The new `openMenus` is `Toggled` of the old one; theme and shortcuts are unchanged |
| `MenuStore.ToggleTwice` | src/stores/menuStore.ts:60-68 | Toggling twice restores how `id` reads, and only `id`'s entry can differ from the start |
| `MenuStore.ThemeValues` | src/stores/menuStore.ts:76-99 | Each theme supplies one value for each of the eleven variable names |
| `MenuStore.ThemeTable` | src/stores/menuStore.ts:76-99 | Each theme's writes are eleven (name, value) pairs, and the i-th name is the same for both themes |
| `MenuStore.ThemesWriteSameNames` | src/stores/menuStore.ts:76-99 | The light and dark branches write the same set of names |
| `MenuStore.Applied` | src/stores/menuStore.ts:77-99 | Sequential setProperty writes add the written names, leave other variables alone, and the last write to each name wins |
| `MenuStore.LastWrite` | src/stores/menuStore.ts:77-99 | The winning value for a name is the one its last write stored: no later write names it |
| `MenuStore.ThemeValuesApplied` | src/stores/menuStore.ts:76-99 | After a theme's writes, each of the eleven variables holds exactly that theme's value for it |
| `MenuStore.LaterWritesWin` | src/stores/menuStore.ts:71-101 | Writing the same names twice leaves exactly what the second set of writes gives on its own |
| `MenuStore.LastThemeWins` | src/stores/menuStore.ts:71-101 | Applying any theme and then another gives exactly the variables of the second (light then dark gives the dark values) |
| `MenuStore.Store.SetTheme` | src/stores/menuStore.ts:71-101 | The theme is stored and the root variables become the old ones with the theme's eleven writes applied in order; open menus and shortcuts are unchanged |
| `MenuStore.Store.SetShortcut` | src/stores/menuStore.ts:104-111 | `shortcuts[action]` becomes the text and every other shortcut is unchanged; open menus and theme are unchanged |
| `Ascii.ToLower` | src/components/MenuItem.tsx:18 | Lower-casing leaves no upper-case letter, keeps every other character, and moves `A`..`Z` to `a`..`z` |
| `Ascii.LowerAll` | src/components/MenuItem.tsx:18 | `toLowerCase` keeps the length, lower-cases each character in place and leaves no upper-case letter |
| `Ascii.LowerAllIdempotent` | src/components/App.tsx:62 | Lower-casing twice is lower-casing once |
| `MenuItem.DropLeadingWhitespace` | src/components/MenuItem.tsx:18 | Drops exactly the leading whitespace run: the result is a suffix that does not start with whitespace |
| `MenuItem.Slug` | src/components/MenuItem.tsx:18 | The derived id has no whitespace and no upper-case letter and is no longer than the label; with no whitespace in the label it is the lower-cased label |
| `MenuItem.SlugOfWord` | src/components/MenuItem.tsx:18 | A label that starts with a word without whitespace gives the lower-cased word followed by the id of what comes after it |
| `MenuItem.SlugOfRun` | src/components/MenuItem.tsx:18 | A label that starts with a whitespace run, followed by text that starts with a non-space, gives one `-` followed by the id of that text |
| `MenuItem.SlugCollapsesRun` | src/components/MenuItem.tsx:18 | A word, then a whitespace run of any length, then text starting with a non-space gives the lower-cased word, one `-`, and the id of the rest; applied once per run it covers every run in a label |
| `MenuItem.SlugIdempotent` | src/components/MenuItem.tsx:18 | Deriving an id from a derived id changes nothing |
| `MenuItem.MenuIdOf` | src/components/MenuItem.tsx:18 | An explicit `menuId` overrides the derivation; without one the id is `Slug(label)`, which has no whitespace and no upper-case letter |
| `MenuItem.AfterClick` | src/components/MenuItem.tsx:55-63 | A disabled click changes nothing; an enabled one makes `id` present and flips how it reads; other entries never change |
| `MenuItem.ClickIsToggle` | src/components/MenuItem.tsx:55-63 | An enabled click is exactly the store's toggleMenu |
| `MenuItem.HandleClick` | src/components/MenuItem.tsx:55-63 | Calling closeMenu or openMenu on the store leaves `openMenus` equal to `AfterClick` of the old map |
| `MenuItem.AfterKey` | src/components/MenuItem.tsx:65-72 | Enter or Space prevent the default and act exactly as a click; Escape closes `id` even when disabled; any other key changes nothing |
| `MenuItem.HandleKeyDown` | src/components/MenuItem.tsx:65-72 | The store's new map and the preventDefault flag are those of `AfterKey` |
| `MenuItem.AfterMouseDown` | src/components/MenuItem.tsx:32-36 | A press inside changes nothing; a press outside makes `id` present and closed; other entries never change |
| `MenuItem.HandleMouseDown` | src/components/MenuItem.tsx:32-36 | The store's new map is that of `AfterMouseDown` |
| `MenuItem.ClosedOthers` | src/components/MenuItem.tsx:44-53 | Keeps the keys and this item's value, and every other key ends false |
| `MenuItem.ClosedOthersLeavesOnlyThis` | src/components/MenuItem.tsx:44-53 | When this item is open, afterwards exactly this id reads as open |
| `MenuItem.CloseOthers` | src/components/MenuItem.tsx:44-53 | The loop over the keys, which calls closeMenu on each other true key, leaves `ClosedOthers` of the map it started from; it does nothing when the item is closed |
| `MenuItem.Step` | src/components/MenuItem.tsx:44-72 | One click, key or outside press followed by the item's close-others effect preserves "at most one menu open" |
| `MenuItem.Run` | src/components/MenuItem.tsx:44-72 | Any sequence of such steps preserves "at most one menu open" |
| `MenuItem.ExclusiveFromStart` | src/components/MenuItem.tsx:44-72 | From the store's empty initial map, any sequence of item interactions leaves at most one menu open |
| `MenuItem.DisplayedShortcut` | src/components/MenuItem.tsx:75-89 | A non-empty explicit shortcut is shown; otherwise `shortcuts[id]` is shown when present and non-empty; otherwise nothing is shown; an empty text is never shown |
| `MenuItem.View` | src/components/MenuItem.tsx:77-96 | A disabled item has tab index -1, so it is not in the tab order, and an enabled one has tab index 0; `aria-expanded` is exactly whether the id reads as open; the dropdown shows exactly when there are children and the id is open |
| `ContextMenu.RenderEntry` | src/components/ContextMenu.tsx:88-106 | A separator becomes a divider and an item becomes a row with its label and disabled flag; its shortcut is shown exactly when it is present and non-empty |
| `ContextMenu.Rows` | src/components/ContextMenu.tsx:70-106 | A hidden menu renders no rows; a visible one renders exactly one row per entry, in order |
| `ContextMenu.SeparatorsAreDividers` | src/components/ContextMenu.tsx:89-91 | A row is a divider exactly when its entry is a separator, so separators are never actionable rows |
| `ContextMenu.Select` | src/components/ContextMenu.tsx:74-79 | An enabled item fires its own action once and closes; a disabled item or separator fires nothing and does not close |
| `ContextMenu.AdjustedPosition` | src/components/ContextMenu.tsx:59-61 | The panel only moves left or up, only on overflow, and on overflow by exactly its width or height |
| `ContextMenu.AdjustedFitsRightAndBottom` | src/components/ContextMenu.tsx:56-68 | A panel laid out at a point inside the viewport ends with its right and bottom edges inside it; with no overflow it stays at exactly (x, y) |
| `ContextMenu.LeftEdgeCanLeaveViewport` | src/components/ContextMenu.tsx:59-61 | An example: a panel wider than x that overflows on the right ends with a negative left edge |
| `ContextMenu.Panel.constructor` | src/components/ContextMenu.tsx:85 | The panel is first placed with its left edge at x and its top edge at y |
| `ContextMenu.Panel.AdjustPosition` | src/components/ContextMenu.tsx:56-68 | The effect runs only while visible, rewrites left/top only when the adjusted position differs from (x, y), and then writes the adjusted position |
| `ContextMenu.OnVisibilityChange` | src/components/ContextMenu.tsx:44-48 | Becoming visible empties `openMenus`; theme and shortcuts are unchanged |
| `App.Lookup` | src/components/App.tsx:38-39 | A table lookup of the lower-cased key hits exactly when that key is in the table, and then returns the entry stored under that key |
| `App.LookupIgnoresCase` | src/components/App.tsx:62 | A key and its lower-cased form find the same entry |
| `App.OnlySingleLettersHit` | src/components/App.tsx:28-67 | Only one-character keys can hit the Alt or the Ctrl table |
| `App.AltTable` | src/components/App.tsx:29-36 | Alt+F and Alt+f both target file, P targets project, H targets help, and x targets nothing |
| `App.Dispatch` | src/components/App.tsx:26-68 | The default is prevented exactly when the key is in the table of a held modifier; a `.focus()` target only comes from Alt and actions only from Ctrl |
| `App.BranchesIndependent` | src/components/App.tsx:28-67 | Holding the other modifier changes neither the Alt result nor the Ctrl result |
| `App.AltCtrlV` | src/components/App.tsx:28-67 | Alt+Ctrl+V both targets view and runs Paste, and prevents the default |
| `App.Shell.constructor` | src/components/App.tsx:9-19 | The shell starts with the context menu hidden at (0, 0) with no entries, no `.focus()` target recorded and an empty log |
| `App.Shell.KeyDown` | src/components/App.tsx:26-68 | `.focus()` is called only on a targeted menu present in the document, and `focused` records that menu; a Ctrl action is logged once; the context menu is unchanged |
| `App.ContextItems` | src/components/App.tsx:74-82 | The right-click list has seven entries |
| `App.ContextItemsLayout` | src/components/App.tsx:74-82 | The entries are Cut, Copy, Paste, separator, Select All, separator, Properties, and every item is enabled |
| `App.Shell.OpenContextMenu` | src/components/App.tsx:71-90 | Right-click prevents the native menu and makes the context menu visible at (clientX, clientY) with those seven entries |
| `App.Hidden` | src/components/App.tsx:101-103 | Closing hides the menu and keeps x, y and the entries |
| `App.Shell.CloseContextMenu` | src/components/App.tsx:101-103 | The context menu state becomes `Hidden` of the old one; the log is unchanged |
| `App.Shell.ClickContextItem` | src/components/ContextMenu.tsx:74-79 | An actionable entry appends its action to the log once and then hides the menu; any other entry changes nothing |
| `App.Shell.ContextKeyDown` | src/components/ContextMenu.tsx:38-42 | While visible, Escape hides the menu and runs no action |
| `App.Shell.ContextMouseDown` | src/components/ContextMenu.tsx:32-36 | While visible, a press outside the panel hides the menu |
| `App.Shell.Mount` | src/components/App.tsx:21-23 | On mount the current theme's variables are written again and the theme is unchanged |
| `MenuStore.Opposite` | src/components/App.tsx:113 | The switch target is always the other theme |
| `App.Shell.ToggleTheme` | src/components/App.tsx:113 | The theme button turns dark into light and light into dark and applies that theme's variables |

## Left out

- React rendering, markup, CSS class names, `role` and the `aria`
  attributes other than `aria-expanded` are left out. Only the rules that
  decide what renders are kept (`Rows`, `View`); `aria-expanded` is kept as
  `ItemView.expanded`.
- Listener registration and removal and effect dependency arrays are left
  out. Each handler is a method that runs when its event arrives, and the
  visibility guard stands in for "registered only while visible".
- The interleaving of effects across items is not modelled. After each
  store change every mounted item re-renders, and every item that reads as
  open runs its own close-others effect. The model runs the effect of the
  one item that handled the event (`Step`). `CloseOthers` also iterates a
  set, where the source iterates `Object.keys` in insertion order. The
  result does not depend on the order.
- `MenuItem.Step` does not capture what the fan-out does when a second
  menu opens. Take `file` open and press Enter on the Edit label. Both
  items' effects then run on the same map `{file: true, edit: true}`.
  File's effect closes `edit`, and Edit's effect closes `file`. So the
  source, read as written, ends with both menus closed, while `Step` ends
  with only `edit` open. This was not executed.
- `ContextMenu.OnVisibilityChange` models one run of the show effect. That
  effect also depends on `onClose`, which `App` creates anew on every
  render (`src/components/App.tsx:101-103`). `App` re-renders on every
  store change, and `closeAllMenus` always stores a fresh `{}`. So while
  the menu is visible, the source plausibly loops: render, effect,
  `closeAllMenus`, render. This was not executed.
- DOM queries, `contains` hit-testing, `getBoundingClientRect` and
  `.focus()` are not modelled directly. They become inputs: whether the
  press was inside, the `Rect`, the viewport size, and the set of mounted
  menu ids. `Shell.focused` records the menu whose element `.focus()` was
  called on. It does not say that the browser moved focus there.
- The element tagged `data-menu-id` is the item's container `div`
  (`src/components/MenuItem.tsx:78`). That `div` has no `tabIndex`; the
  `tabIndex` is on the inner label (`src/components/MenuItem.tsx:83`). So,
  read as written, the Alt shortcuts call `.focus()` on an element that
  cannot take focus, and focus does not move. This was read from the source
  and not executed.
- `Rect`, the viewport size and the click point are `int`. The browser's
  `getBoundingClientRect`, `clientX` and `clientY` values can be
  fractional, and those fractions are not modelled.
- The `console.log` placeholder actions are recorded as their logged text,
  appended to `Shell.log`.
- zustand's `create`, subscriptions and the re-render fan-out are not
  modelled. The store is a plain object that is updated synchronously.
- `Ascii.ToLower`, `Ascii.IsWhitespace`: only ASCII is covered. Full-Unicode
  `toLowerCase` and `\s` are not modelled.
- `ContextMenu.Entry` is a sum type. A source entry that has both
  `separator: true` and a label is modelled as `Separator`. Such an entry is
  rendered as a divider and is never clickable, in the model and in the source.
- A JavaScript object lookup also finds inherited properties such as
  `constructor` and `__proto__`. `App.Lookup` does not model this, because
  keyboard key names never lower-case to such names.
- `MenuStore.IsOpen`, `MenuStore.Toggled` and `MenuItem.DisplayedShortcut`
  do not model inherited properties either. `openMenus` and `shortcuts`
  are plain object literals, so in the source a menu whose id is
  `constructor` would read as open. It would also render an empty shortcut
  element, because React does not render the inherited function `Object`.
  The model treats every id that was never stored as absent.
- `ContextMenu.AdjustedFitsRightAndBottom` bounds only the right and bottom
  edges. The source does not keep the left or top edge inside the viewport
  (`LeftEdgeCanLeaveViewport`).
- `src/components/MenuBar.tsx` is not part of this model: it is static
  layout. `src/main.tsx` is not part of this model either: it only mounts
  the app.
