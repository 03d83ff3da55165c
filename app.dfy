/**
 * The top-level container (src/App.tsx): an open/closed flag for the week-1
 * section and a nullable selection of one of its five submenus, with the
 * guards that decide which headers are highlighted and which panel shows.
 */
module App {
  import opened Wrappers

  /** The submenu keys, in the order the headers are rendered; the only values passed to `switchSubMenu`. */
  const MenuKeys: seq<string> := ["jsx", "props", "state", "events", "rendering"]

  /** The selection is null or one of the five submenu keys. */
  ghost predicate InDomain(active: Option<string>) {
    active.None? || active.value in MenuKeys
  }

  /** No key appears twice in `keys`. */
  ghost predicate DistinctKeys(keys: seq<string>) {
    forall i, j :: 0 <= i < j < |keys| ==> keys[i] != keys[j]
  }

  /**
   * `switchSubMenu(menu)`: the new selection is `menu` exactly when `menu`
   * was not already selected, and null otherwise.
   */
  function SwitchedSubMenu(active: Option<string>, menu: string): (r: Option<string>)
    ensures r == Some(menu) <==> active != Some(menu)
    ensures r == None <==> active == Some(menu)
  {
    if active == Some(menu) then None else Some(menu)
  }

  /** Switching to one of the five keys keeps the selection in its domain. */
  lemma SwitchKeepsDomain(active: Option<string>, menu: string)
    requires InDomain(active)
    requires menu in MenuKeys
    ensures InDomain(SwitchedSubMenu(active, menu))
  {
  }

  /** Clicking the same header twice ends with `menu` selected if it was selected before, and nothing selected otherwise. */
  lemma SwitchTwice(active: Option<string>, menu: string)
    ensures SwitchedSubMenu(SwitchedSubMenu(active, menu), menu) ==
            if active == Some(menu) then Some(menu) else None
  {
  }

  /** The keys of `keys` equal to the selection, in order. */
  function Selected(keys: seq<string>, active: Option<string>): (r: seq<string>)
    ensures forall k :: k in r <==> k in keys && active == Some(k)
  {
    if keys == [] then []
    else
      assert keys == [keys[0]] + keys[1..];
      (if active == Some(keys[0]) then [keys[0]] else []) + Selected(keys[1..], active)
  }

  /** Among distinct keys, at most one is selected: the selection itself, if it is one of them. */
  lemma {:induction false} SelectedAtMostOne(keys: seq<string>, active: Option<string>)
    requires DistinctKeys(keys)
    ensures Selected(keys, active) ==
            if active.Some? && active.value in keys then [active.value] else []
  {
    if keys != [] {
      var tail := keys[1..];
      assert DistinctKeys(tail) by {
        forall i, j | 0 <= i < j < |tail| ensures tail[i] != tail[j] {
          assert tail[i] == keys[i + 1] && tail[j] == keys[j + 1];
        }
      }
      SelectedAtMostOne(tail, active);
      assert keys == [keys[0]] + tail;
      if active == Some(keys[0]) {
        assert keys[0] !in tail by {
          forall i | 0 <= i < |tail| ensures tail[i] != keys[0] {
            assert keys[0] != keys[i + 1];
          }
        }
      }
    }
  }

  lemma MenuKeysDistinct()
    ensures DistinctKeys(MenuKeys)
  {
  }

  /** What the menu renders: the submenu headers (key and whether marked active) and the content panels. */
  datatype MenuView = MenuView(headers: seq<(string, bool)>, panels: seq<string>)

  /**
   * The render of the section. While it is open, the five headers show in
   * order and a header is marked active exactly when its key is the
   * selection; at most one panel shows, the selected one. While it is closed,
   * no header and no panel shows.
   */
  function RenderMenu(isOpen: bool, active: Option<string>): (v: MenuView)
    ensures |v.panels| <= 1
    ensures forall k :: k in v.panels <==> isOpen && k in MenuKeys && active == Some(k)
    ensures InDomain(active) ==>
              v.panels == if isOpen && active.Some? then [active.value] else []
    ensures !isOpen ==> v.headers == []
    ensures isOpen ==> |v.headers| == |MenuKeys| &&
                       forall i :: 0 <= i < |MenuKeys| ==>
                         v.headers[i].0 == MenuKeys[i] && (v.headers[i].1 <==> active == Some(MenuKeys[i]))
  {
    MenuKeysDistinct();
    SelectedAtMostOne(MenuKeys, active);
    if isOpen then
      MenuView(seq(|MenuKeys|, i requires 0 <= i < |MenuKeys| => (MenuKeys[i], active == Some(MenuKeys[i]))),
               Selected(MenuKeys, active))
    else
      MenuView([], [])
  }

  /** The container's two state cells. */
  class AppComponent {
    var isWeek1Open: bool
    var activeSubMenu: Option<string>

    /** The selection stays null or one of the five keys. */
    ghost predicate Valid()
      reads this
    {
      InDomain(activeSubMenu)
    }

    /** The current render of the menu. */
    function CurrentView(): MenuView
      reads this
    {
      RenderMenu(isWeek1Open, activeSubMenu)
    }

    /** Mount: the section is open and 'jsx' is selected. */
    constructor ()
      ensures Valid()
      ensures isWeek1Open && activeSubMenu == Some("jsx")
    {
      isWeek1Open := true;
      activeSubMenu := Some("jsx");
    }

    /** `toggleWeek1`: flips the open flag and keeps the selection, so reopening shows the same panel. */
    method ToggleWeek1()
      modifies this
      ensures isWeek1Open == !old(isWeek1Open)
      ensures activeSubMenu == old(activeSubMenu)
    {
      isWeek1Open := !isWeek1Open;
    }

    /** `switchSubMenu(menu)`: re-selecting clears, selecting another key replaces. */
    method SwitchSubMenu(menu: string)
      modifies this
      ensures activeSubMenu == SwitchedSubMenu(old(activeSubMenu), menu)
      ensures isWeek1Open == old(isWeek1Open)
    {
      activeSubMenu := SwitchedSubMenu(activeSubMenu, menu);
    }

    /**
     * A click on the `k`-th submenu header, which exists only while the
     * section is open and passes that header's key to `switchSubMenu`.
     */
    method ClickSubMenuHeader(k: int)
      requires Valid()
      requires isWeek1Open
      requires 0 <= k < |MenuKeys|
      modifies this
      ensures Valid()
      ensures activeSubMenu == SwitchedSubMenu(old(activeSubMenu), MenuKeys[k])
      ensures isWeek1Open
    {
      SwitchKeepsDomain(activeSubMenu, MenuKeys[k]);
      SwitchSubMenu(MenuKeys[k]);
    }
  }
}
