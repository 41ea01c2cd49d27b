/**
 * One top-level menu item: its id, how clicks, keys and outside presses change
 * the shared open-menu map, the effect that closes the other menus once this
 * one is open, and what the item shows.
 */
module MenuItem {
  import opened Options
  import opened Ascii
  import opened MenuStore

  // ----- Menu id -----

  /** Drops the whitespace at the front of `s`. */
  function DropLeadingWhitespace(s: string): (r: string)
    ensures |r| <= |s| && r == s[|s| - |r|..]
    ensures r == [] || !IsWhitespace(r[0])
    ensures forall i :: 0 <= i < |s| - |r| ==> IsWhitespace(s[i])
  {
    if s != [] && IsWhitespace(s[0]) then DropLeadingWhitespace(s[1..]) else s
  }

  /** `label.toLowerCase().replace(/\s+/g, '-')`: lower-cased, every run of whitespace becomes one `-`. */
  function Slug(text: string): (id: string)
    ensures NoWhitespace(id) && NoUpper(id)
    ensures |id| <= |text|
    ensures NoWhitespace(text) ==> id == LowerAll(text)
    decreases |text|
  {
    if text == [] then []
    else if IsWhitespace(text[0]) then
      var tail := Slug(DropLeadingWhitespace(text[1..]));
      PrependClean('-', tail);
      "-" + tail
    else
      var tail := Slug(text[1..]);
      PrependClean(ToLower(text[0]), tail);
      assert NoWhitespace(text) ==> NoWhitespace(text[1..]) by {
        if NoWhitespace(text) {
          forall i | 0 <= i < |text[1..]| ensures !IsWhitespace(text[1..][i]) {
            assert text[1..][i] == text[i + 1];
          }
        }
      }
      [ToLower(text[0])] + tail
  }

  /** A clean character in front of a clean id keeps it clean. */
  lemma PrependClean(c: char, s: string)
    requires !IsWhitespace(c) && !IsUpper(c) && NoWhitespace(s) && NoUpper(s)
    ensures NoWhitespace([c] + s) && NoUpper([c] + s)
  {
    forall i | 1 <= i < |[c] + s| ensures ([c] + s)[i] == s[i - 1] {
    }
  }

  /** The explicit `menuId` prop wins; without it the id is derived from the label text. */
  function MenuIdOf(text: string, menuId: Option<string>): (id: string)
    ensures menuId.Some? ==> id == menuId.value
    ensures menuId.None? ==> id == Slug(text)
    ensures menuId.None? ==> NoWhitespace(id) && NoUpper(id) && |id| <= |text|
  {
    if menuId.Some? then menuId.value else Slug(text)
  }

  /** A derived id is already in normal form: deriving again changes nothing. */
  lemma SlugIdempotent(text: string)
    ensures Slug(Slug(text)) == Slug(text)
  {
    LowerAllFixesLower(Slug(text));
  }

  /** Dropping the leading whitespace of a whitespace run followed by a word leaves the word. */
  lemma {:induction false} DropRun(run: string, rest: string)
    requires forall i :: 0 <= i < |run| ==> IsWhitespace(run[i])
    requires rest == [] || !IsWhitespace(rest[0])
    ensures DropLeadingWhitespace(run + rest) == rest
  {
    if run != [] {
      assert (run + rest)[1..] == run[1..] + rest;
      DropRun(run[1..], rest);
    }
  }

  /** Unfolds `Slug` once at a leading whitespace character. */
  lemma SlugAtWhitespace(s: string)
    requires s != [] && IsWhitespace(s[0])
    ensures Slug(s) == "-" + Slug(DropLeadingWhitespace(s[1..]))
  {
  }

  /** Unfolds `Slug` once at a leading word character. */
  lemma SlugOfCons(c: char, tail: string)
    requires !IsWhitespace(c)
    ensures Slug([c] + tail) == [ToLower(c)] + Slug(tail)
  {
    var s := [c] + tail;
    assert s[0] == c && s[1..] == tail;
  }

  /** A leading whitespace run becomes a single `-`. */
  lemma SlugOfRun(run: string, rest: string)
    requires run != [] && forall i :: 0 <= i < |run| ==> IsWhitespace(run[i])
    requires rest == [] || !IsWhitespace(rest[0])
    ensures Slug(run + rest) == "-" + Slug(rest)
  {
    var s := run + rest;
    assert s[0] == run[0];
    assert s[1..] == run[1..] + rest;
    DropRun(run[1..], rest);
    SlugAtWhitespace(s);
  }

  /** Concatenation is associative; kept apart so the proofs below need only congruence. */
  lemma ConcatAssoc(a: string, b: string, c: string)
    ensures a + (b + c) == a + b + c
  {
  }

  /** Unfolds `LowerAll` once. */
  lemma LowerAllCons(c: char, word: string)
    ensures LowerAll([c] + word) == [ToLower(c)] + LowerAll(word)
  {
    var w := [c] + word;
    assert w[0] == c && w[1..] == word;
  }

  /** One more word character in front keeps the word-then-rest shape. */
  lemma SlugOfWordStep(c: char, word: string, after: string)
    requires !IsWhitespace(c)
    requires Slug(word + after) == LowerAll(word) + Slug(after)
    ensures Slug([c] + word + after) == LowerAll([c] + word) + Slug(after)
  {
    calc {
      Slug([c] + word + after);
    == { ConcatAssoc([c], word, after); }
      Slug([c] + (word + after));
    == { SlugOfCons(c, word + after); }
      [ToLower(c)] + Slug(word + after);
      [ToLower(c)] + (LowerAll(word) + Slug(after));
    == { ConcatAssoc([ToLower(c)], LowerAll(word), Slug(after)); }
      [ToLower(c)] + LowerAll(word) + Slug(after);
    == { LowerAllCons(c, word); }
      LowerAll([c] + word) + Slug(after);
    }
  }

  /** A word without whitespace is lower-cased and the text after it is derived on its own. */
  lemma {:induction false} SlugOfWord(word: string, after: string)
    requires NoWhitespace(word)
    ensures Slug(word + after) == LowerAll(word) + Slug(after)
  {
    if word == [] {
      assert word + after == after;
    } else {
      NoWhitespaceTail(word);
      SlugOfWord(word[1..], after);
      SlugOfWordStep(word[0], word[1..], after);
      assert [word[0]] + word[1..] == word;
    }
  }

  /**
   * A whitespace run after a word becomes exactly one `-`, and the rest is
   * derived on its own; applied run after run, every run in a label collapses.
   */
  lemma SlugCollapsesRun(word: string, run: string, rest: string)
    requires NoWhitespace(word)
    requires run != [] && forall i :: 0 <= i < |run| ==> IsWhitespace(run[i])
    requires rest == [] || !IsWhitespace(rest[0])
    ensures Slug(word + run + rest) == LowerAll(word) + "-" + Slug(rest)
  {
    calc {
      Slug(word + run + rest);
    == { ConcatAssoc(word, run, rest); }
      Slug(word + (run + rest));
    == { SlugOfWord(word, run + rest); }
      LowerAll(word) + Slug(run + rest);
    == { SlugOfRun(run, rest); }
      LowerAll(word) + ("-" + Slug(rest));
    == { ConcatAssoc(LowerAll(word), "-", Slug(rest)); }
      LowerAll(word) + "-" + Slug(rest);
    }
  }

  // ----- Transitions of the open-menu map -----

  /** `handleClick`: nothing when disabled; otherwise close if open, open if closed. */
  function AfterClick(openMenus: map<string, bool>, id: string, disabled: bool): (r: map<string, bool>)
    ensures disabled ==> r == openMenus
    ensures !disabled ==> id in r && (IsOpen(r, id) <==> !IsOpen(openMenus, id))
    ensures forall k :: k != id ==> (k in r <==> k in openMenus) && (k in r ==> r[k] == openMenus[k])
  {
    if disabled then openMenus
    else if IsOpen(openMenus, id) then Closed(openMenus, id)
    else Opened(openMenus, id)
  }

  /** An enabled click does exactly what the store's `toggleMenu` does. */
  lemma ClickIsToggle(openMenus: map<string, bool>, id: string)
    ensures AfterClick(openMenus, id, false) == Toggled(openMenus, id)
  {
  }

  datatype KeyResult = KeyResult(openMenus: map<string, bool>, preventDefault: bool)

  /** `handleKeyDown`: Enter or Space act as a click, Escape closes this menu even when disabled. */
  function AfterKey(openMenus: map<string, bool>, id: string, disabled: bool, key: string): (r: KeyResult)
    ensures r.preventDefault <==> key == "Enter" || key == " "
    ensures r.preventDefault ==> r.openMenus == AfterClick(openMenus, id, disabled)
    ensures key == "Escape" ==> r.openMenus == Closed(openMenus, id) && id in r.openMenus && !IsOpen(r.openMenus, id)
    ensures key != "Enter" && key != " " && key != "Escape" ==> r.openMenus == openMenus
  {
    if key == "Enter" || key == " " then KeyResult(AfterClick(openMenus, id, disabled), true)
    else if key == "Escape" then KeyResult(Closed(openMenus, id), false)
    else KeyResult(openMenus, false)
  }

  /** The document mousedown listener: a press outside the item closes its menu. */
  function AfterMouseDown(openMenus: map<string, bool>, id: string, inside: bool): (r: map<string, bool>)
    ensures inside ==> r == openMenus
    ensures !inside ==> id in r && !IsOpen(r, id)
    ensures forall k :: k != id ==> (k in r <==> k in openMenus) && (k in r ==> r[k] == openMenus[k])
  {
    if inside then openMenus else Closed(openMenus, id)
  }

  /** The close-others effect: every other key that was true becomes false. */
  function ClosedOthers(openMenus: map<string, bool>, id: string): (r: map<string, bool>)
    ensures r.Keys == openMenus.Keys
    ensures id in openMenus ==> r[id] == openMenus[id]
    ensures forall k :: k in r && k != id ==> !r[k]
    ensures forall k :: k in r && !openMenus[k] ==> !r[k]
  {
    map k | k in openMenus :: if k != id && openMenus[k] then false else openMenus[k]
  }

  /** After the effect of an open item, that item is the one and only open id. */
  lemma ClosedOthersLeavesOnlyThis(openMenus: map<string, bool>, id: string)
    requires IsOpen(openMenus, id)
    ensures forall k :: IsOpen(ClosedOthers(openMenus, id), k) <==> k == id
  {
  }

  // ----- Sequences of interactions -----

  datatype ItemEvent = Click | Key(key: string) | MouseDown(inside: bool)

  /** One interaction with the item `id`, as its handlers receive it. */
  datatype ItemStep = ItemStep(id: string, disabled: bool, event: ItemEvent)

  function Handle(openMenus: map<string, bool>, s: ItemStep): map<string, bool> {
    match s.event
    case Click => AfterClick(openMenus, s.id, s.disabled)
    case Key(key) => AfterKey(openMenus, s.id, s.disabled, key).openMenus
    case MouseDown(inside) => AfterMouseDown(openMenus, s.id, inside)
  }

  /** A handler, then the item's close-others effect when the item is now open. */
  function Step(openMenus: map<string, bool>, s: ItemStep): (r: map<string, bool>)
    ensures AtMostOneOpen(openMenus) ==> AtMostOneOpen(r)
  {
    var handled := Handle(openMenus, s);
    assert forall k :: k != s.id ==> (IsOpen(handled, k) <==> IsOpen(openMenus, k));
    if IsOpen(handled, s.id) then
      ClosedOthersLeavesOnlyThis(handled, s.id);
      ClosedOthers(handled, s.id)
    else
      handled
  }

  function Run(openMenus: map<string, bool>, steps: seq<ItemStep>): (r: map<string, bool>)
    ensures AtMostOneOpen(openMenus) ==> AtMostOneOpen(r)
    decreases |steps|
  {
    if steps == [] then openMenus else Run(Step(openMenus, steps[0]), steps[1..])
  }

  /** From the store's initial empty map, any run of item interactions keeps at most one menu open. */
  lemma ExclusiveFromStart(steps: seq<ItemStep>)
    ensures AtMostOneOpen(Run(map[], steps))
  {
  }

  // ----- What the item shows -----

  /** `shortcut || shortcuts[menuId]`, shown only when the result is a non-empty string. */
  function DisplayedShortcut(shortcut: Option<string>, shortcuts: map<string, string>, id: string): (r: Option<string>)
    ensures r.Some? ==> r.value != []
    ensures shortcut.Some? && shortcut.value != [] ==> r == shortcut
    ensures (shortcut.None? || shortcut.value == []) ==>
      (r.Some? <==> id in shortcuts && shortcuts[id] != []) && (r.Some? ==> r.value == shortcuts[id])
  {
    if shortcut.Some? && shortcut.value != [] then shortcut
    else if id in shortcuts && shortcuts[id] != [] then Some(shortcuts[id])
    else None
  }

  datatype ItemView = ItemView(text: string, shortcut: Option<string>, tabIndex: int, expanded: bool, showsDropdown: bool)

  function View(text: string, id: string, disabled: bool, hasChildren: bool, shortcut: Option<string>,
                openMenus: map<string, bool>, shortcuts: map<string, string>): (v: ItemView)
    ensures v.text == text
    ensures disabled ==> v.tabIndex == -1
    ensures !disabled ==> v.tabIndex == 0
    ensures v.expanded == IsOpen(openMenus, id)
    ensures v.showsDropdown <==> hasChildren && IsOpen(openMenus, id)
    ensures v.shortcut == DisplayedShortcut(shortcut, shortcuts, id)
  {
    var isOpen := IsOpen(openMenus, id);
    ItemView(text, DisplayedShortcut(shortcut, shortcuts, id), if disabled then -1 else 0, isOpen, hasChildren && isOpen)
  }

  // ----- The handlers, acting on the store -----

  method HandleClick(store: Store, id: string, disabled: bool)
    modifies store
    ensures store.openMenus == AfterClick(old(store.openMenus), id, disabled)
    ensures store.theme == old(store.theme) && store.shortcuts == old(store.shortcuts)
  {
    if !disabled {
      if IsOpen(store.openMenus, id) {
        store.CloseMenu(id);
      } else {
        store.OpenMenu(id);
      }
    }
  }

  method HandleKeyDown(store: Store, id: string, disabled: bool, key: string) returns (preventDefault: bool)
    modifies store
    ensures KeyResult(store.openMenus, preventDefault) == AfterKey(old(store.openMenus), id, disabled, key)
    ensures store.theme == old(store.theme) && store.shortcuts == old(store.shortcuts)
  {
    preventDefault := false;
    if key == "Enter" || key == " " {
      preventDefault := true;
      HandleClick(store, id, disabled);
    } else if key == "Escape" {
      store.CloseMenu(id);
    }
  }

  method HandleMouseDown(store: Store, id: string, inside: bool)
    modifies store
    ensures store.openMenus == AfterMouseDown(old(store.openMenus), id, inside)
    ensures store.theme == old(store.theme) && store.shortcuts == old(store.shortcuts)
  {
    if !inside {
      store.CloseMenu(id);
    }
  }

  /** The effect: when this item is open, walk the keys and close every other one that is true. */
  method CloseOthers(store: Store, id: string)
    modifies store
    ensures IsOpen(old(store.openMenus), id) ==> store.openMenus == ClosedOthers(old(store.openMenus), id)
    ensures !IsOpen(old(store.openMenus), id) ==> store.openMenus == old(store.openMenus)
    ensures store.theme == old(store.theme) && store.shortcuts == old(store.shortcuts)
  {
    if IsOpen(store.openMenus, id) {
      var snapshot := store.openMenus;
      var keys := snapshot.Keys;
      while keys != {}
        invariant keys <= snapshot.Keys
        invariant store.openMenus ==
          map k | k in snapshot :: if k !in keys && k != id && snapshot[k] then false else snapshot[k]
        invariant store.theme == old(store.theme) && store.shortcuts == old(store.shortcuts)
        decreases keys
      {
        var key :| key in keys;
        if key != id && snapshot[key] {
          store.CloseMenu(key);
        }
        keys := keys - {key};
      }
    }
  }
}
