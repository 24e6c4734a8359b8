/** The example cells that host a menu: on reuse they close the menu tagged
    -1 in them if it is open. The tag lookup and the type test are modelled
    as an optional reference to the menu. */
module HostCells {
  import opened MenuTypes
  import opened MenuViewModel
  import opened OldMenuViewModel

  /** The app's `MenuTableViewCell`, hosting a `MenuView`. */
  class MenuTableViewCell {
    /** The subview tagged -1, when it is a `MenuView`. */
    var taggedMenu: Option<MenuView>

    constructor (menu: Option<MenuView>)
      ensures taggedMenu == menu
    {
      taggedMenu := menu;
    }

    /** `prepareForReuse`: an open menu is closed; a closed one, or no menu,
        is left as it is. It never opens a menu. */
    method PrepareForReuse()
      requires taggedMenu.Some? ==> taggedMenu.value.Valid()
      modifies if taggedMenu.Some? then {taggedMenu.value} else {}
      ensures taggedMenu == old(taggedMenu)
      ensures taggedMenu.Some? ==> taggedMenu.value.Valid() && !taggedMenu.value.menuOpen
      ensures taggedMenu.Some? && old(taggedMenu.value.menuOpen) ==> taggedMenu.value.offset == 0.0
      ensures taggedMenu.Some? && !old(taggedMenu.value.menuOpen) ==> unchanged(taggedMenu.value)
    {
      if taggedMenu.Some? {
        var menu := taggedMenu.value;
        if menu.menuOpen {
          menu.Close();
        }
      }
    }
  }

  /** The app's `CustomTableViewCell`, hosting the older `WBMenuView`. */
  class CustomTableViewCell {
    var taggedMenu: Option<OldMenuView>

    constructor (menu: Option<OldMenuView>)
      ensures taggedMenu == menu
    {
      taggedMenu := menu;
    }

    method PrepareForReuse()
      requires taggedMenu.Some? ==> taggedMenu.value.Valid()
      modifies if taggedMenu.Some? then {taggedMenu.value} else {}
      ensures taggedMenu == old(taggedMenu)
      ensures taggedMenu.Some? ==> taggedMenu.value.Valid() && !taggedMenu.value.menuOpen
      ensures taggedMenu.Some? && old(taggedMenu.value.menuOpen) ==> taggedMenu.value.offset == 0.0
      ensures taggedMenu.Some? && !old(taggedMenu.value.menuOpen) ==> unchanged(taggedMenu.value)
    {
      if taggedMenu.Some? {
        var menu := taggedMenu.value;
        if menu.menuOpen {
          menu.Close();
        }
      }
    }
  }
}
