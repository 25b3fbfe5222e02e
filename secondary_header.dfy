/**
 * The secondary header's panel state: the category list it fetched, and two
 * flags for the search bar and the user menu, of which the toggles keep at
 * most one raised.
 */
module SecondaryHeader {
  class HeaderPanels {
    var categories: seq<string>
    var showSearchBar: bool
    var showUserMenu: bool

    /** At most one panel is open. */
    predicate OnePanelAtMost()
      reads this
    {
      !(showSearchBar && showUserMenu)
    }

    constructor ()
      ensures categories == [] && !showSearchBar && !showUserMenu && OnePanelAtMost()
    {
      categories, showSearchBar, showUserMenu := [], false, false;
    }

    /** Flips the search bar and closes the user menu. */
    method ToggleSearchBar()
      modifies this
      ensures showSearchBar == !old(showSearchBar) && !showUserMenu
      ensures categories == old(categories)
      ensures OnePanelAtMost()
    {
      showSearchBar := !showSearchBar;
      showUserMenu := false;
    }

    /** Flips the user menu and closes the search bar. */
    method ToggleUserMenu()
      modifies this
      ensures showUserMenu == !old(showUserMenu) && !showSearchBar
      ensures categories == old(categories)
      ensures OnePanelAtMost()
    {
      showUserMenu := !showUserMenu;
      showSearchBar := false;
    }
  }
}
