/** The delegate protocols' default answers (`MenuViewDelegate` in the
    library and the app, `WBMenuViewDelegate` for the older menu), and what a
    menu looks like when those defaults, or no delegate at all, decide its
    setup. */
module MenuDelegates {
  import opened MenuTypes
  import opened MenuRules
  import opened MenuItems
  import opened MenuViewModel
  import opened OldMenuViewModel

  /** The protocol extensions' answers, the same for the three protocols:
      the bottom edge, one horizontal row, and the icon shown at the top. */
  function DefaultAnswers(path: IndexPath): DelegateAnswers {
    DelegateAnswers(Bottom, Horizontal, true, Top)
  }

  /** A delegate that answers nothing itself. */
  const DefaultDelegate: IndexPath -> DelegateAnswers := DefaultAnswers

  /** The defaults depend on neither the row nor the menu asking. */
  lemma DefaultsIgnoreRow(p: IndexPath, q: IndexPath)
    ensures DefaultDelegate(p) == DefaultDelegate(q)
    ensures AnswersFor(Some(DefaultDelegate), Some(p)) == Some(DelegateAnswers(Bottom, Horizontal, true, Top))
  {
  }

  /** Under the defaults a menu sits below its cell with every item in its
      one row in order, opens by its full height, shows the horizontal dots
      pinned 10 points below its top edge, and no swipe ever reaches it: its
      edge is neither side. */
  lemma DefaultsPlaceMenuBelowCell<T>(p: IndexPath, items: seq<T>, s: SwipeDirection, size: Size, b: MenuButton)
    ensures var a := DefaultDelegate(p);
      && Arrange(a.layout, items) == Arrangement(AsEntries(items), [], [])
      && EntryItems(Arrange(a.layout, items).main) == items
      && OpenOffset(a.direction, size.width, size.height) == -size.height
      && ButtonWithIcon(b, Some(a)).anchors == b.anchors + [IconAnchor(TopEdge, 10.0, 30.0, 20.0, HorizontalDotsImage)]
      && OldButtonWithIcon(b, Some(a)).anchors == ButtonWithIcon(b, Some(a)).anchors
      && SwipeAction(a.direction, s) == NoResponse
  {
    EntryItemsOfEntries(items);
  }

  /** Without a delegate, setup keeps the view's initial square layout and
      right edge. */
  method SetUpWithoutDelegate(items: seq<MenuItem>, path: IndexPath, dims: Dimension) returns (m: MenuView)
    modifies set i | i in items
    ensures m.menuLayout == Square && m.direction == Right && m.placement == Some(Right) && m.offset == 0.0
    ensures m.stacks == SetUpStacks(Arrangement([], [], []), Square, items)
    ensures Distinct(items) ==> m.stacks == Arrange(Square, items)
    ensures m.button.anchors == []
  {
    m := new MenuView(items, None, path, dims);
    var outcome := m.SetupMenuLayout(None);
    if Distinct(items) {
      FirstSetUpAppends(Arrangement([], [], []), Square, items);
    }
  }

  /** The same for the older menu. */
  method SetUpOldWithoutDelegate(items: seq<MenuItem>, path: IndexPath) returns (m: OldMenuView)
    modifies set i | i in items
    ensures m.menuLayout == Square && m.direction == Right && m.placement == Some(Right) && m.offset == 0.0
    ensures m.stacks == SetUpStacks(Arrangement([], [], []), Square, items)
    ensures Distinct(items) ==> m.stacks == Arrange(Square, items)
    ensures m.button.anchors == []
  {
    m := new OldMenuView(items, Pan, path);
    var outcome := m.SetupUI(None);
    if Distinct(items) {
      FirstSetUpAppends(Arrangement([], [], []), Square, items);
    }
  }

  /** A menu created with the default swipe gesture and set up under the
      default answers: the swipe recognizers were attached while its edge was
      still the right one, so creating it did not stop the program, but once
      it moves to the bottom edge none of their swipes opens or closes it. */
  method DefaultSwipeMenu(items: seq<MenuItem>, path: IndexPath, dims: Dimension) returns (m: MenuView)
    modifies set i | i in items
    ensures m.recognizers == {SwipeLeftRecognizer, SwipeRightRecognizer}
    ensures m.direction == Bottom && m.menuLayout == Horizontal && m.placement == Some(Bottom)
    ensures forall s :: SwipeAction(m.direction, s) == NoResponse
  {
    m := new MenuView(items, Some(Swipe), path, dims);
    var outcome := m.SetupMenuLayout(Some(DefaultDelegate));
  }
}
