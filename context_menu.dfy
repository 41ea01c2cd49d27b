/**
 * The right-click context menu: its entries, what it renders, what selecting
 * an entry does, the one-shot repositioning against the viewport, and the
 * effect that closes every dropdown when it appears.
 */
module ContextMenu {
  import opened Options
  import opened MenuStore

  /** An entry is a divider or an item; `action` names the callback the item runs. */
  datatype Entry =
    | Separator
    | Action(text: string, action: string, shortcut: Option<string>, disabled: bool)

  /** Only enabled items react to a click; separators and disabled items do not. */
  predicate Actionable(e: Entry) {
    e.Action? && !e.disabled
  }

  // ----- Rendering -----

  datatype Row =
    | Divider
    | ItemRow(text: string, shortcut: Option<string>, disabled: bool)

  function RenderEntry(e: Entry): (row: Row)
    ensures row.Divider? <==> e.Separator?
    ensures e.Action? ==> row.text == e.text && row.disabled == e.disabled
    ensures row.ItemRow? && row.shortcut.Some? ==> row.shortcut.value != []
    ensures e.Action? && e.shortcut.Some? && e.shortcut.value != [] ==> row.shortcut == e.shortcut
    ensures e.Action? ==> (row.shortcut.Some? <==> e.shortcut.Some? && e.shortcut.value != [])
  {
    match e
    case Separator => Divider
    case Action(text, _, shortcut, disabled) =>
      ItemRow(text, if shortcut.Some? && shortcut.value != [] then shortcut else None, disabled)
  }

  /** The rows on screen: none at all while hidden, one per entry while visible. */
  function Rows(visible: bool, items: seq<Entry>): (rows: seq<Row>)
    ensures !visible ==> rows == []
    ensures visible ==> |rows| == |items|
    ensures visible ==> forall i :: 0 <= i < |items| ==> rows[i] == RenderEntry(items[i])
    decreases |items|
  {
    if !visible || items == [] then [] else [RenderEntry(items[0])] + Rows(visible, items[1..])
  }

  /** Separators only ever become dividers, never rows that can be clicked. */
  lemma SeparatorsAreDividers(items: seq<Entry>, i: nat)
    requires i < |items|
    ensures Rows(true, items)[i].Divider? <==> items[i].Separator?
  {
  }

  // ----- Selecting an entry -----

  datatype Selection = Selection(fired: Option<string>, closes: bool)

  /** `handleItemClick`: an actionable entry runs its action once and then closes the menu. */
  function Select(e: Entry): (s: Selection)
    ensures s.closes <==> s.fired.Some?
    ensures s.fired.Some? <==> Actionable(e)
    ensures Actionable(e) ==> s.fired == Some(e.action)
  {
    if e.Action? && !e.disabled then Selection(Some(e.action), true) else Selection(None, false)
  }

  // ----- Position -----

  /** The panel's bounding box as laid out: its right and bottom edges and its size. */
  datatype Rect = Rect(right: int, bottom: int, width: nat, height: nat)

  /** Moves the panel left by its width when it overflows on the right, and up by its height at the bottom. */
  function AdjustedPosition(x: int, y: int, rect: Rect, viewportWidth: int, viewportHeight: int): (p: (int, int))
    ensures p.0 <= x && p.1 <= y
    ensures p.0 < x ==> rect.right > viewportWidth
    ensures p.1 < y ==> rect.bottom > viewportHeight
    ensures rect.right > viewportWidth ==> p.0 == x - rect.width
    ensures rect.bottom > viewportHeight ==> p.1 == y - rect.height
  {
    var adjustedX := if rect.right > viewportWidth then x - rect.width else x;
    var adjustedY := if rect.bottom > viewportHeight then y - rect.height else y;
    (adjustedX, adjustedY)
  }

  /**
   * A panel laid out at a point inside the viewport ends with its right and
   * bottom edges inside it; one that fitted stays exactly where it was asked to be.
   */
  lemma AdjustedFitsRightAndBottom(x: int, y: int, rect: Rect, viewportWidth: int, viewportHeight: int)
    requires rect.right == x + rect.width && rect.bottom == y + rect.height
    requires x <= viewportWidth && y <= viewportHeight
    ensures var p := AdjustedPosition(x, y, rect, viewportWidth, viewportHeight);
      && p.0 + rect.width <= viewportWidth
      && p.1 + rect.height <= viewportHeight
      && (rect.right <= viewportWidth && rect.bottom <= viewportHeight ==> p == (x, y))
  {
  }

  /** The left edge is not protected: a panel wider than `x` that overflows ends left of the viewport. */
  lemma LeftEdgeCanLeaveViewport()
    ensures AdjustedPosition(50, 10, Rect(250, 110, 200, 100), 100, 1080).0 < 0
  {
  }

  /** The rendered panel; the position effect writes its `left`/`top` style in place. */
  class Panel {
    var left: int
    var top: int

    /** Rendering places the panel at the requested point. */
    constructor (x: int, y: int)
      ensures left == x && top == y
    {
      left, top := x, y;
    }

    /** The position effect: runs only while visible, and writes only when the position changes. */
    method AdjustPosition(visible: bool, x: int, y: int, rect: Rect, viewportWidth: int, viewportHeight: int)
      returns (rewritten: bool)
      modifies this
      ensures rewritten <==> visible && AdjustedPosition(x, y, rect, viewportWidth, viewportHeight) != (x, y)
      ensures rewritten ==> (left, top) == AdjustedPosition(x, y, rect, viewportWidth, viewportHeight)
      ensures !rewritten ==> left == old(left) && top == old(top)
    {
      rewritten := false;
      if visible {
        var (adjustedX, adjustedY) := AdjustedPosition(x, y, rect, viewportWidth, viewportHeight);
        if adjustedX != x || adjustedY != y {
          left := adjustedX;
          top := adjustedY;
          rewritten := true;
        }
      }
    }
  }

  // ----- Becoming visible -----

  /** The show effect: a visible context menu closes every dropdown. */
  method OnVisibilityChange(visible: bool, store: Store)
    modifies store
    ensures visible ==> store.openMenus == map[] && forall id :: !IsOpen(store.openMenus, id)
    ensures !visible ==> store.openMenus == old(store.openMenus)
    ensures store.theme == old(store.theme) && store.shortcuts == old(store.shortcuts)
  {
    if visible {
      store.CloseAllMenus();
    }
  }
}
