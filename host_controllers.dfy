/** The example view controllers that host menus: the table and collection
    controllers of the library's example app (on `MenuView`) and the app's
    own `ViewController` (on the older menu's interface). Each answers the
    delegate questions from its fields and, on a cell's "more" button, closes
    every open menu among the visible cells and then toggles the tapped one. */
module HostControllers {
  import opened MenuTypes
  import opened MenuRules
  import opened MenuItems
  import opened MenuViewModel
  import opened OldMenuViewModel
  import opened MenuDelegates

  /** Which of the two example controllers. */
  datatype HostKind = TableHost | CollectionHost

  /** The menus tagged in the visible cells. */
  function MenusOf<T>(visible: seq<Option<T>>): set<T> {
    set o | o in visible && o.Some? :: o.value
  }

  /** The delegate answers of an example controller: the stored edge or
      the right one, the stored layout or the controller's own fallback
      (one row for the table, two for the collection), and the icon always
      shown at the left. */
  function HostAnswers(host: HostKind, direction: Option<Direction>, layout: Option<MenuLayout>): (r: DelegateAnswers)
    ensures direction.Some? ==> r.direction == direction.value
    ensures direction.None? ==> r.direction == Right
    ensures layout.Some? ==> r.layout == layout.value
    ensures layout.None? ==> r.layout == (if host == TableHost then Horizontal else Square)
    ensures r.showIcon && r.iconPosition == Left
  {
    DelegateAnswers(
      if direction.Some? then direction.value else Right,
      if layout.Some? then layout.value else (if host == TableHost then Horizontal else Square),
      true,
      Left)
  }

  /** The collection's item size: the full width for a one-row layout, half
      of it otherwise (an unset layout included), always 280 high. */
  function CollectionItemSize(layout: Option<MenuLayout>, width: real): (r: Size)
    ensures r.height == 280.0
    ensures r.width == width <==> layout == Some(Horizontal) || width == 0.0
    ensures layout != Some(Horizontal) ==> r.width + r.width == width
  {
    if layout == Some(Horizontal) then Size(width, 280.0) else Size(width / 2.0, 280.0)
  }

  /** An unset layout is sized like the square layout the collection falls
      back to. */
  lemma CollectionSizeFollowsFallback(width: real)
    ensures CollectionItemSize(None, width) == CollectionItemSize(Some(HostAnswers(CollectionHost, None, None).layout), width)
  {
  }

  /** The state a visible menu is left in by the closing loop: closed, at
      offset zero if it was open, untouched otherwise. */
  ghost predicate ClosedByLoop(m: MenuView, wasOpen: bool, oldOffset: real)
    reads m
  {
    !m.menuOpen && m.offset == (if wasOpen then 0.0 else oldOffset)
  }

  ghost predicate OldClosedByLoop(m: OldMenuView, wasOpen: bool, oldOffset: real)
    reads m
  {
    !m.menuOpen && m.offset == (if wasOpen then 0.0 else oldOffset)
  }

  /** `TableViewController` and `CollectionViewController` of the example
      app. */
  class ExampleController {
    const host: HostKind
    var menuLayout: Option<MenuLayout>
    var menuDirection: Option<Direction>

    constructor (host: HostKind)
      ensures this.host == host && menuLayout.None? && menuDirection.None?
    {
      this.host := host;
      menuLayout, menuDirection := None, None;
    }

    /** The controller as a menu delegate, with its fields as they are now. */
    function Policy(): IndexPath -> DelegateAnswers
      reads this
    {
      var answers := HostAnswers(host, menuDirection, menuLayout);
      (p: IndexPath) => answers
    }

    /** The number of rows (table) or items (collection). */
    function ItemCount(): (n: nat)
      ensures n == 6
    {
      6
    }

    /** `setMenuLayout`: the delegate answers this layout from now on. */
    method SetMenuLayout(layout: MenuLayout)
      modifies this`menuLayout
      ensures menuLayout == Some(layout)
      ensures forall p :: Policy()(p).layout == layout
      ensures forall p :: Policy()(p).direction == old(Policy()(p)).direction
    {
      menuLayout := Some(layout);
    }

    /** `setMenuDirection`: the delegate answers this edge from now on. */
    method SetMenuDirection(direction: Direction)
      modifies this`menuDirection
      ensures menuDirection == Some(direction)
      ensures forall p :: Policy()(p).direction == direction
      ensures forall p :: Policy()(p).layout == old(Policy()(p)).layout
    {
      menuDirection := Some(direction);
    }

    /** `moreBtnPressed(sender:)`: `visible` holds the menu tagged in each
        visible cell, `sender` the one in the tapped button's cell. Every
        other visible menu ends closed; the tapped menu, closed by the loop
        when visible, is then opened from its own edge. */
    method MoreBtnPressed(visible: seq<Option<MenuView>>, sender: Option<MenuView>)
      requires forall m :: m in MenusOf(visible) ==> m.Valid()
      requires sender.Some? ==> sender.value.Valid()
      modifies MenusOf(visible)`menuOpen, MenusOf(visible)`offset
      modifies if sender.Some? then {sender.value} else {}
      ensures forall m :: m in MenusOf(visible) ==> m.Valid()
      ensures forall m :: m in MenusOf(visible) && sender != Some(m)
                ==> ClosedByLoop(m, old(m.menuOpen), old(m.offset))
      ensures sender.Some? ==> sender.value.Valid()
      ensures sender.Some? && sender.value in MenusOf(visible) && sender.value.placement.Some? ==>
        var s := sender.value;
        s.menuOpen && s.offset == OpenOffset(s.direction, s.frame.width, s.frame.height)
      ensures sender.Some? && sender.value !in MenusOf(visible) && sender.value.placement.Some? ==>
        var s := sender.value;
        s.menuOpen == !old(s.menuOpen)
        && s.offset == (if s.menuOpen then OpenOffset(s.direction, s.frame.width, s.frame.height) else 0.0)
      ensures sender.Some? && sender.value.placement.None? ==> unchanged(sender.value)
    {
      CloseAll(visible);
      if sender.Some? {
        var s := sender.value;
        if s.menuOpen {
          s.Close();
        } else {
          s.Open(s.direction);
        }
      }
    }
  }

  /** The closing loop of `moreBtnPressed`. */
  method CloseAll(visible: seq<Option<MenuView>>)
    requires forall m :: m in MenusOf(visible) ==> m.Valid()
    modifies MenusOf(visible)`menuOpen, MenusOf(visible)`offset
    ensures forall m :: m in MenusOf(visible) ==> m.Valid() && ClosedByLoop(m, old(m.menuOpen), old(m.offset))
  {
    var i := 0;
    while i < |visible|
      invariant 0 <= i <= |visible|
      invariant forall m :: m in MenusOf(visible) ==> m.Valid()
      invariant forall m :: m in MenusOf(visible[..i]) ==> ClosedByLoop(m, old(m.menuOpen), old(m.offset))
      invariant forall m :: m in MenusOf(visible) && m !in MenusOf(visible[..i])
                  ==> m.menuOpen == old(m.menuOpen) && m.offset == old(m.offset)
    {
      assert visible[..i + 1] == visible[..i] + [visible[i]];
      if visible[i].Some? {
        var m := visible[i].value;
        if m.menuOpen {
          m.Close();
        }
      }
      i := i + 1;
    }
    assert visible[..i] == visible;
  }

  /** The app's `ViewController`, on the older menu: one row, a menu of three
      items, and a delegate conformance that answers nothing itself. */
  class ViewController {
    constructor ()
    {
    }

    function RowCount(): (n: nat)
      ensures n == 1
    {
      1
    }

    /** `moreBtnPressed(sender:)` on the older menu's interface. */
    method MoreBtnPressed(visible: seq<Option<OldMenuView>>, sender: Option<OldMenuView>)
      requires forall m :: m in MenusOf(visible) ==> m.Valid()
      requires sender.Some? ==> sender.value.Valid()
      modifies MenusOf(visible)`menuOpen, MenusOf(visible)`offset
      modifies if sender.Some? then {sender.value} else {}
      ensures forall m :: m in MenusOf(visible) ==> m.Valid()
      ensures forall m :: m in MenusOf(visible) && sender != Some(m)
                ==> OldClosedByLoop(m, old(m.menuOpen), old(m.offset))
      ensures sender.Some? ==> sender.value.Valid()
      ensures sender.Some? && sender.value in MenusOf(visible) && sender.value.placement.Some? ==>
        var s := sender.value;
        s.menuOpen && s.offset == OpenOffset(s.direction, s.frame.width, s.frame.height)
      ensures sender.Some? && sender.value !in MenusOf(visible) && sender.value.placement.Some? ==>
        var s := sender.value;
        s.menuOpen == !old(s.menuOpen)
        && s.offset == (if s.menuOpen then OpenOffset(s.direction, s.frame.width, s.frame.height) else 0.0)
      ensures sender.Some? && sender.value.placement.None? ==> unchanged(sender.value)
    {
      CloseAllOld(visible);
      if sender.Some? {
        var s := sender.value;
        if s.menuOpen {
          s.Close();
        } else {
          s.Open();
        }
      }
    }

    /** `tableView(_:cellForRowAt:)`: the menu of the three items, set up
        under the default answers and then restyled. Setup overrides the
        first item's grey title with black and sizes its icon from the 70 by
        70 set before it. */
    method CellForRowAt(path: IndexPath) returns (menu: OldMenuView)
      ensures |menu.Items()| == 3
      ensures menu.Items()[0].labelText == Some("Delete")
      ensures menu.Items()[1].labelText == Some("Submit")
      ensures menu.Items()[2].labelText == Some("Save")
      ensures menu.direction == Bottom && menu.menuLayout == Horizontal && menu.placement == Some(Bottom)
      ensures menu.stacks == Arrangement(AsEntries(menu.Items()), [], [])
      ensures menu.Items()[0].titleColor == Some(Black) && menu.Items()[0].LaidOut()
      ensures menu.Items()[0].itemIconSize == Size(70.0, 70.0) && menu.Items()[0].buttonBorderWidth == 2.0
      ensures menu.look.background == Some(Blue) && menu.look.alignment == StackLeading
      ensures menu.spacings == Spacings(10.0, 10.0, 10.0, 10.0, 15.0, 10.0)
      ensures menu.button.anchors == [OldIconAnchorFor(Top)]
    {
      var items := MakeItems();
      menu := SetUpOldMenu(items, path);
      menu.SetMenuContentAlignment(OldLeft);
      menu.SetBackgroundColor(Blue);
      menu.SetMenuItemSpacingVertical(10.0);
      menu.SetMenuItemSpacingHorizontal(15.0);
      menu.SetMenuContentInset(10.0, 10.0, 10.0, 10.0);
    }
  }

  /** The items of `ViewController`'s menu, Delete, Submit and Save, styled
      before any layout: the first with a white border, a 70 by 70 icon, a
      grey title and an 11-point font, the other two with a black border. */
  method MakeItems() returns (items: seq<MenuItem>)
    ensures |items| == 3 && fresh(items[0]) && fresh(items[1]) && fresh(items[2]) && Distinct(items)
    ensures items[0].labelText == Some("Delete") && items[1].labelText == Some("Submit") && items[2].labelText == Some("Save")
    ensures items[0].titleColor == Some(Gray) && items[0].labelTextColor == Some(Gray)
    ensures items[0].itemIconSize == Size(70.0, 70.0) && items[0].buttonBorderWidth == 2.0
    ensures items[1].buttonBorderColor == Some(Black) && items[2].buttonBorderColor == Some(Black)
  {
    var first := MakeDeleteItem();
    var second := MakeBlackBorderedItem("Submit", "save", Handler(1));
    var third := MakeBlackBorderedItem("Save", "submit", Handler(2));
    items := [first, second, third];
  }

  /** The Delete item with its own style. */
  method MakeDeleteItem() returns (item: MenuItem)
    ensures fresh(item) && item.labelText == Some("Delete")
    ensures item.titleColor == Some(Gray) && item.labelTextColor == Some(Gray)
    ensures item.itemIconSize == Size(70.0, 70.0) && item.buttonBorderWidth == 2.0
  {
    item := new MenuItem(AppItem, "Delete", "delete", Handler(0));
    item.SetItemBorderColor(Some(White));
    item.SetItemBorderWidth(Some(2.0));
    item.SetItemIconSize(Size(70.0, 70.0));
    item.SetTitleColor(Some(Gray));
    item.SetTitleFont(Some(SystemFont(11.0)));
  }

  /** An item with a black border 2 points wide. */
  method MakeBlackBorderedItem(title: string, icon: string, handler: Handler) returns (item: MenuItem)
    ensures fresh(item) && item.labelText == Some(title) && item.buttonBorderColor == Some(Black)
  {
    item := new MenuItem(AppItem, title, icon, handler);
    item.SetItemBorderColor(Some(Black));
    item.SetItemBorderWidth(Some(2.0));
  }

  /** The older menu on these items with the swipe gesture, set up under the
      default answers: one row below the cell, the dots at the top, and every
      item laid out. */
  method SetUpOldMenu(items: seq<MenuItem>, path: IndexPath) returns (menu: OldMenuView)
    modifies set i | i in items
    ensures fresh(menu) && menu.Valid() && menu.Items() == items
    ensures menu.direction == Bottom && menu.menuLayout == Horizontal && menu.placement == Some(Bottom)
    ensures menu.stacks == SetUpStacks(Arrangement([], [], []), Horizontal, items)
    ensures Distinct(items) ==> menu.stacks == Arrangement(AsEntries(items), [], [])
    ensures forall i :: 0 <= i < |items| ==> items[i].LaidOut()
    ensures menu.spacings == DefaultSpacings
    ensures menu.button.anchors == [OldIconAnchorFor(Top)]
    ensures forall i :: 0 <= i < |items| ==>
      && items[i].itemIconSize == old(items[i].itemIconSize)
      && items[i].buttonBorderWidth == old(items[i].buttonBorderWidth)
      && items[i].labelText == old(items[i].labelText)
  {
    menu := new OldMenuView(items, Swipe, path);
    var outcome := menu.SetupUI(Some(DefaultDelegate));
    if Distinct(items) {
      assert SetUpStacks(Arrangement([], [], []), Horizontal, items) == Arrangement(AsEntries(items), [], []) by {
        FirstSetUpAppends(Arrangement([], [], []), Horizontal, items);
      }
    }
  }

  /** The closing loop on the older menu. */
  method CloseAllOld(visible: seq<Option<OldMenuView>>)
    requires forall m :: m in MenusOf(visible) ==> m.Valid()
    modifies MenusOf(visible)`menuOpen, MenusOf(visible)`offset
    ensures forall m :: m in MenusOf(visible) ==> m.Valid() && OldClosedByLoop(m, old(m.menuOpen), old(m.offset))
  {
    var i := 0;
    while i < |visible|
      invariant 0 <= i <= |visible|
      invariant forall m :: m in MenusOf(visible) ==> m.Valid()
      invariant forall m :: m in MenusOf(visible[..i]) ==> OldClosedByLoop(m, old(m.menuOpen), old(m.offset))
      invariant forall m :: m in MenusOf(visible) && m !in MenusOf(visible[..i])
                  ==> m.menuOpen == old(m.menuOpen) && m.offset == old(m.offset)
    {
      assert visible[..i + 1] == visible[..i] + [visible[i]];
      if visible[i].Some? {
        var m := visible[i].value;
        if m.menuOpen {
          m.Close();
        }
      }
      i := i + 1;
    }
    assert visible[..i] == visible;
  }
}
