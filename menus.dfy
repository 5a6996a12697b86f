/** The menu shared by the application menu's title entry and the tray icon. */
module Menus {
  import opened Values

  /** The actions a menu entry can trigger. */
  datatype Action = Home | Corporate | LastPage | Restart | ToggleVisible | Download | Quit

  datatype MenuItem = MenuItem(text: string, tooltip: Option<string>, click: Action)

  /** Position of the Show/Hide entry. */
  const ToggleIndex: nat := 4

  /** The six entries whose label does not depend on the window, in menu order. */
  const FixedEntries: seq<MenuItem> := [
    MenuItem("Personal login", None, Home),
    MenuItem("Corporate login", None, Corporate),
    MenuItem("Your last page", None, LastPage),
    MenuItem("Clear session and logout", Some("You logout and can login again"), Restart),
    MenuItem("Download", None, Download),
    MenuItem("Quit", None, Quit)
  ]

  /** Every menu the presenter builds has this shape: the fixed entries around one toggle entry. */
  predicate MenuShape(m: seq<MenuItem>) {
    |m| == 7 &&
    m[..ToggleIndex] + m[ToggleIndex + 1..] == FixedEntries &&
    m[ToggleIndex].click == ToggleVisible &&
    (m[ToggleIndex].text == "Hide" || m[ToggleIndex].text == "Show")
  }

  /** The toggle entry: it offers to hide the window or to show it. */
  function ToggleEntry(offersHide: bool): MenuItem {
    MenuItem(if offersHide then "Hide" else "Show", None, ToggleVisible)
  }

  /**
   * A menu built from a template menus.default returned. Those templates differ
   * only in the toggle entry, so a built menu is known by whether that entry
   * offers to hide the window.
   */
  datatype Menu = Menu(offersHide: bool)

  /** The entries of a built menu, in order. */
  function Entries(m: Menu): (r: seq<MenuItem>)
    ensures MenuShape(r)
    ensures r[ToggleIndex] == ToggleEntry(m.offersHide)
  {
    var r := FixedEntries[..ToggleIndex] + [ToggleEntry(m.offersHide)] + FixedEntries[ToggleIndex..];
    assert r[..ToggleIndex] == FixedEntries[..ToggleIndex];
    assert r[ToggleIndex + 1..] == FixedEntries[ToggleIndex..];
    r
  }

  /** Menu.buildFromTemplate applied to menus.default, for a window that exists or not and is visible or not. */
  function Build(windowExists: bool, windowVisible: bool): (r: Menu)
    ensures ToggleEntry(r.offersHide).text == "Hide" <==> windowExists && windowVisible
  {
    Menu(windowExists && windowVisible)
  }

  /**
   * menus.default: the toggle entry offers to hide a window that exists and is
   * visible, and to show it otherwise; the rest of the menu never changes.
   */
  function DefaultMenu(windowExists: bool, windowVisible: bool): (r: seq<MenuItem>)
    ensures MenuShape(r)
    ensures r[ToggleIndex].text == "Hide" <==> windowExists && windowVisible
    ensures r[ToggleIndex].text == "Show" <==> !(windowExists && windowVisible)
  {
    Entries(Build(windowExists, windowVisible))
  }

  /** Rebuilding the menu depends only on the toggle entry's label: every other entry is identical. */
  lemma {:induction false} MenusDifferOnlyInToggle(e1: bool, v1: bool, e2: bool, v2: bool, i: nat)
    requires i < 7 && i != ToggleIndex
    ensures DefaultMenu(e1, v1)[i] == DefaultMenu(e2, v2)[i]
  {
    var m1, m2 := DefaultMenu(e1, v1), DefaultMenu(e2, v2);
    var j := if i < ToggleIndex then i else i - 1;
    assert m1[i] == (m1[..ToggleIndex] + m1[ToggleIndex + 1..])[j];
    assert m2[i] == (m2[..ToggleIndex] + m2[ToggleIndex + 1..])[j];
  }
}
