# WBSwipeableCell menu model

WBSwipeableCell adds a slide-out menu to table and collection cells. The
menu is a view as large as its cell. A single placement constraint ties it
to one edge of the cell. With constant 0 the menu sits just outside that
edge. With minus the menu's width (left or right edge) or minus its height
(top or bottom edge) it lies exactly over the cell. The menu is opened and
closed in several ways:

- a toggle button in the cell;
- swipe gestures, on side edges only;
- a pan gesture that moves the constant freely within `[-width, 0]`.

A delegate decides four things for each row: the edge, the layout
(horizontal, vertical or a two-row square grid), whether to show the toggle
icon, and where to put it.

This project models two menu classes and everything around them:

- the library's `MenuView`;
- the app's older `WBMenuView`;
- their menu items, whose style observers copy values to the item's
  subviews;
- the delegate protocols' default answers;
- the cells that close their menu on reuse;
- the example controllers that close every other menu before toggling the
  tapped one;
- the demo's menu-picker screen.

Modules:

- `MenuTypes` (`menu_types.dfy`): the shared enumerations and value types.
- `MenuRules` (`menu_rules.dfy`): the pure rules both menus follow. These
  cover edge geometry, the swipe table, pan steps, the even/odd row split
  of the square layout, the six alignment flags, where spacing goes, icon
  anchors and the gesture-delegate answers.
- `MenuItems` (`menu_item.dfy`): the `MenuItem` class. One class covers the
  library item, the app item and the older `WBMenuItem`. The only
  differences are the default icon size and the title font size.
- `MenuViewModel` (`menu_view.dfy`): the `MenuView` class and the
  program-wide `Dimension` spacings.
- `OldMenuViewModel` (`old_menu_view.dfy`): the older `WBMenuView`. It keeps
  spacings per menu, has its own gesture, icon and setup rules, and is
  compared with `MenuView`.
- `MenuDelegates` (`delegates.dfy`): the default answers and what they do to
  a menu.
- `HostCells` (`host_cells.dfy`): the reuse hooks of the two cells.
- `HostControllers` (`host_controllers.dfy`): the example table and
  collection controllers and the app's `ViewController`.
- `DemoMenu` (`demo_menu.dfy`): the demo's `MenuViewController`.
- `MenuSessions` (`menu_sessions.dfy`): short call sequences on one menu.

### How the source is represented

- `CGFloat` is `real`.
- Colours and fonts are small datatypes.
- A closure is a `Handler` identity. A tap returns the calls it makes.
- A delegate is a function from index path to its four answers, and
  `None` stands for no delegate.
- The tagged subview lookup (`viewWithTag(-1) as? MenuView`) is an optional
  reference held by the cell.
- Auto Layout constraints become plain values:
  - the placement constraint is an edge plus its constant;
  - the item group's six constraints are active flags plus edge constants;
  - the toggle icon's constraints are `IconAnchor` values;
  - each stack's contents are a sequence.
- Adding a constraint appends to the sequence that models it.
- `addArrangedSubview` moves a view. The view leaves every stack of the
  menu where it was arranged, its own stack included, and becomes the last
  view of the target stack (`AddArranged`, `AddItem`).
- A Swift trap (a force-unwrapped nil, a `fatalError`) is an `Outcome` of
  `Fatal(message)`.
- `Dimension` is a `static` enum in the source. Here it is a `Dimension`
  object that each `MenuView` is given when it is created. The source has
  one set of values for the whole program. To match that, callers pass the
  same object to every menu, and then an inset set on one menu is what the
  next menu's setup uses. The model does not enforce this sharing.

## Model

| member | source | states |
|---|---|---|
| MenuRules.CoveredLengthIsMinusOffset | WBSwipeToOptionCell/WBSwipeToOptionCell/WBMenuView.swift:420-447 | Between closed and open, the menu covers exactly minus the constant of the cell, on each of the four edges. |
| MenuRules.ClosedMenuTouchesEdgeFromOutside | WBSwipeToOptionCell/WBSwipeToOptionCell/WBMenuView.swift:420-447 | Constant 0 places the menu just outside its edge, touching the cell and covering none of it. |
| MenuRules.OpenMenuCoversCell | WBSwipeToOptionCell/WBSwipeToOptionCell/WBMenuView.swift:184-204 | The offset `open` sets (minus the width for a side edge, minus the height otherwise) puts the menu's frame exactly on the cell. |
| MenuRules.OpeningMovesAlongEntrySwipe | WBSwipeToOptionCell/WBSwipeToOptionCell/WBMenuView.swift:466-487 | Lowering the constant moves the menu in the direction of the swipe that opens it (left for a right menu, and so on). |
| MenuRules.SwipeAction | WBSwipeToOptionCell/WBSwipeToOptionCell/WBMenuView.swift:466-487 | A swipe opens the menu iff the edge is a side and the swipe points into the cell. It closes the menu iff the edge is a side and the swipe points out. A top or bottom menu never responds. |
| MenuRules.PanEventStaysInRange | WBSwipeToOptionCell/WBSwipeToOptionCell/WBMenuView.swift:493-503 | One pan callback keeps a constant that is in `[-width, 0]` inside that range. |
| MenuRules.PanRunStaysInRange | WBSwipeToOptionCell/WBSwipeToOptionCell/WBMenuView.swift:493-503 | Any sequence of pan callbacks keeps the constant in `[-width, 0]`. |
| MenuRules.PanRunConservesMovement | WBSwipeToOptionCell/WBSwipeToOptionCell/WBMenuView.swift:493-503 | No finger movement is lost. The constant plus the translation still pending equals the start plus every move, because a rejected step leaves the translation to accumulate. |
| MenuRules.ParityRowsAppend | WBSwipeToOptionCell/WBSwipeToOptionCell/WBMenuView.swift:395-405 | Appending item number n extends the top row when n is even and the bottom row when n is odd, and leaves the other row alone. |
| MenuRules.ParityRowsPartition | WBSwipeToOptionCell/WBSwipeToOptionCell/WBMenuView.swift:395-405 | The two rows together hold every item exactly once, with ceil(n/2) items on top and floor(n/2) below. |
| MenuRules.ParityRowsAt | WBSwipeToOptionCell/WBSwipeToOptionCell/WBMenuView.swift:395-405 | Position i of the top row holds item 2i, and position i of the bottom row holds item 2i+1. |
| MenuRules.InterleaveParityRows | WBSwipeToOptionCell/WBSwipeToOptionCell/WBMenuView.swift:395-405 | Reading the grid column by column gives back the input order. |
| MenuRules.EntryItemsOfEntries | WBSwipeToOptionCell/WBSwipeToOptionCell/WBMenuView.swift:389-393 | Items appended straight to the main stack are read back in order. |
| MenuRules.AsEntriesAppend | WBSwipeToOptionCell/WBSwipeToOptionCell/WBMenuView.swift:389-393 | Appending one more item to the main stack appends one entry. |
| MenuRules.WithoutKeepsOthers | WBSwipeToOptionCell/WBSwipeToOptionCell/WBMenuView.swift:390-392 | Taking a view out of a stack's list removes every copy of it and keeps every other view. |
| MenuRules.WithoutAppend | WBSwipeToOptionCell/WBSwipeToOptionCell/WBMenuView.swift:390-392 | Taking a view out of a joined list takes it out of each part. |
| MenuRules.WithoutAbsent | WBSwipeToOptionCell/WBSwipeToOptionCell/WBMenuView.swift:390-392 | Taking out a view the list does not hold changes nothing. |
| MenuRules.AddItemPlaces | WBSwipeToOptionCell/WBSwipeToOptionCell/WBMenuView.swift:395-405 | After `addArrangedSubview(x)` on one of the three stacks, x is the last view of that stack and is in neither of the other two. |
| MenuRules.AddAllToMainMoves | WBSwipeToOptionCell/WBSwipeToOptionCell/WBMenuView.swift:389-392 | With distinct items, the single-stack loop takes each item out of wherever it was arranged and leaves them all at the end of the main stack, in input order. Every other view keeps its stack and order. |
| MenuRules.AddAllToRowsMoves | WBSwipeToOptionCell/WBSwipeToOptionCell/WBMenuView.swift:395-405 | With distinct items, the square loop takes each item out of wherever it was arranged. The top row then ends with the even-indexed items and the bottom row with the odd-indexed ones, each in input order. |
| MenuRules.AddRowsMoves | WBSwipeToOptionCell/WBSwipeToOptionCell/WBMenuView.swift:240-242 | Adding the two rows to the main stack first takes them out of it, and leaves them last, top then bottom. |
| MenuRules.SetUpStacksMovesViews | WBSwipeToOptionCell/WBSwipeToOptionCell/WBMenuView.swift:240-246 | With distinct items, one setup run gives each stack its old views minus the run's own, followed by exactly what `Arrange` gives for the layout. |
| MenuRules.FirstSetUpAppends | WBSwipeToOptionCell/WBSwipeToOptionCell/WBMenuView.swift:240-246 | When none of the run's views is arranged yet, setup just appends `Arrange`. From empty stacks the result is `Arrange` itself. |
| MenuRules.SetUpStacksIdempotent | WBSwipeToOptionCell/WBSwipeToOptionCell/WBMenuView.swift:300-321 | With distinct items, a second setup run with the same layout leaves the stacks exactly as the first run left them. |
| MenuRules.ArrangeKeepsItemsInOrder | WBSwipeToOptionCell/WBSwipeToOptionCell/WBMenuView.swift:384-411 | For every layout and item count, the arrangement holds each item exactly once (as a multiset) and in input order. |
| MenuRules.ApplyAlignment | WBSwipeToOptionCell/WBSwipeToOptionCell/WBMenuView.swift:526-546 | An alignment on one axis leaves the other axis's three flags alone. Pinning to an edge always releases that axis's centring. |
| MenuRules.AlignmentIdempotent | WBSwipeToOptionCell/WBSwipeToOptionCell/WBMenuView.swift:526-546 | Setting the same alignment twice has the effect of setting it once. |
| MenuRules.AlignmentFromSetup | WBSwipeToOptionCell/WBSwipeToOptionCell/WBMenuView.swift:254-259 | Starting from the six flags setup leaves active, gives the exact flags for each alignment. Left drops centerX. Right drops centerX and leading. Bottom drops centerY. Top drops centerY and bottom. Centre changes nothing. |
| MenuRules.SpacingFollowsStackAxes | WBSwipeToOptionCell/WBSwipeToOptionCell/WBMenuView.swift:569-590 | Horizontal spacing reaches the main stack iff that stack is horizontal, and reaches the rows iff the layout is square. Vertical spacing reaches the main stack iff it is vertical. The two never target the same stack. |
| MenuRules.ShouldRecognizeSimultaneously | WBSwipeToOptionCell/WBSwipeToOptionCell/WBMenuView.swift:629-634 | The menu's own pan and swipe recognizers run alongside the others, and nothing else does. |
| MenuRules.ShouldBegin | WBSwipeToOptionCell/WBSwipeToOptionCell/WBMenuView.swift:635-649 | Nothing begins without a cell. A swipe always begins with a cell. A pan begins iff there is a cell and the pan is not too steep. |
| MenuItems.AddIconThenTitle | WBSwipeableCell/WBMenuItem.swift:133-134 | Arranging the icon and then the title leaves exactly `[icon, title]`, whatever was arranged before. |
| MenuItems.NothingElseArranged | WBSwipeToOptionCell/WBSwipeToOptionCell/WBMenuItem.swift:88-89 | An item's own stack holds nothing but the icon and the title. |
| MenuItems.MenuItem.Plain | WBSwipeableCell/WBMenuItem.swift:82-84 | A plain item has no title, icon or handler, and has the variant's default icon size (50×60 in the library, 50×70 in the app). |
| MenuItems.MenuItem.constructor | WBSwipeableCell/WBMenuItem.swift:92-99 | The item stores the title, icon and handler and registers the tap target. Nothing is arranged yet. |
| MenuItems.MenuItem.SetTitleColor | WBSwipeableCell/WBMenuItem.swift:54-58 | The colour is copied to the title label. |
| MenuItems.MenuItem.SetItemBorderColor | WBSwipeableCell/WBMenuItem.swift:59-63 | The colour is copied to the button's border. |
| MenuItems.MenuItem.SetItemBorderWidth | WBSwipeableCell/WBMenuItem.swift:64-68 | A nil width gives the button border width 0. Any other width is used as given. |
| MenuItems.MenuItem.SetTitleFont | WBSwipeableCell/WBMenuItem.swift:69-73 | The font is copied to the title label. |
| MenuItems.MenuItem.SetActionBtnIcon | WBSwipeToOptionCell/WBSwipeToOptionCell/WBSwipeToOptionCell.swift:502-506 | A name becomes the button's image. A nil name is force-unwrapped and stops the program. |
| MenuItems.MenuItem.SetItemIconSize | WBSwipeableCell/WBMenuItem.swift:52 | The icon size is stored. It has no observer, so only the next layout uses it. |
| MenuItems.MenuItem.SetupLayout | WBSwipeableCell/WBMenuItem.swift:110-134 | Layout sets the system font and a black title, overriding any earlier title colour. It adds icon-size constraints from the current `itemIconSize` and leaves exactly the icon above the title. |
| MenuItems.MenuItem.ActionBtnPressed | WBSwipeableCell/WBMenuItem.swift:151-156 | A tap calls the stored handler exactly once, with the item itself. Without a handler it calls nothing. |
| MenuViewModel.Dimension.constructor | WBSwipeToOptionCell/WBSwipeToOptionCell/WBMenuView.swift:87-94 | The shared spacings start at top 5, bottom 5, left 0, right 0, horizontal 5 and vertical 5. |
| MenuViewModel.SpacingSettersFollowAxes | WBSwipeToOptionCell/WBSwipeToOptionCell/WBMenuView.swift:569-590 | Each spacing setter changes spacings only. The horizontal setter reaches exactly the left-to-right stacks and the vertical setter exactly a top-to-bottom main stack. |
| MenuViewModel.SetUpLookIdempotent | WBSwipeToOptionCell/WBSwipeToOptionCell/WBMenuView.swift:300-321 | Setting a menu up again with the same layout and spacings leaves the look unchanged. |
| MenuViewModel.SetUpLookSpacing | WBSwipeToOptionCell/WBSwipeToOptionCell/WBMenuView.swift:313-314 | Setup puts the shared horizontal spacing on every horizontal stack. It never applies the shared vertical spacing, so a vertical main stack keeps its old spacing. |
| MenuViewModel.Attachment | WBSwipeToOptionCell/WBSwipeToOptionCell/WBMenuView.swift:108-131 | A gesture on a side edge attaches the two swipe recognizers or the one pan recognizer. A top or bottom edge stops the program. |
| MenuViewModel.AttachedSwipesAreAnswered | WBSwipeToOptionCell/WBSwipeToOptionCell/WBMenuView.swift:466-487 | Every swipe recognizer a side menu attaches is one its handler answers: one opens and the other closes. |
| MenuViewModel.IconAnchorFor | WBSwipeToOptionCell/WBSwipeToOptionCell/WBMenuView.swift:326-377 | The icon is pinned to the named edge, 10 points inside it. A side icon shows the vertical dots in a 20×30 box. A top or bottom icon shows the horizontal dots in a 30×20 box. |
| MenuViewModel.MenuView.Plain | WBSwipeToOptionCell/WBSwipeToOptionCell/WBMenuView.swift:151-153 | A frame-only menu has no cell, items or row. It starts closed and unplaced, with the square layout and the right edge. |
| MenuViewModel.MenuView.constructor | WBSwipeToOptionCell/WBSwipeToOptionCell/WBMenuView.swift:162-171 | The convenience init stores the cell's items and row and registers the toggle. The gesture observer runs while the edge is still right, so a gesture attaches its side recognizers and never stops the program here. |
| MenuViewModel.MenuView.SetSwipeGesture | WBSwipeToOptionCell/WBSwipeToOptionCell/WBMenuView.swift:108-131 | With a cell and a gesture, the recognizers for the current edge are added, and a top or bottom edge stops the program with its message. Without a cell or a gesture, nothing is attached. |
| MenuViewModel.MenuView.Open | WBSwipeToOptionCell/WBSwipeToOptionCell/WBMenuView.swift:184-204 | Opening from edge d sets the flag and the constant to minus the width (side) or minus the height. Without a placement constraint nothing changes. |
| MenuViewModel.MenuView.Close | WBSwipeToOptionCell/WBSwipeToOptionCell/WBMenuView.swift:208-221 | Closing clears the flag and sets the constant to 0. Without a placement constraint nothing changes. |
| MenuViewModel.MenuView.MenuBtnPressed | WBSwipeToOptionCell/WBSwipeToOptionCell/WBMenuView.swift:451-457 | The toggle flips the flag and sets the matching constant, opening from the menu's own edge. |
| MenuViewModel.MenuView.HandleSwipe | WBSwipeToOptionCell/WBSwipeToOptionCell/WBMenuView.swift:466-487 | A swipe opens, closes or leaves the menu exactly as `SwipeAction` says. |
| MenuViewModel.MenuView.HandlePan | WBSwipeToOptionCell/WBSwipeToOptionCell/WBMenuView.swift:493-503 | A pan is one `PanEvent`. The move is committed and the translation reset only when it stays in `[-width, 0]`. The open flag is never touched, and an in-range constant stays in range. |
| MenuViewModel.MenuView.LayoutPass | WBSwipeToOptionCell/WBSwipeToOptionCell/WBMenuView.swift:420-447 | A placed menu gets the frame its edge constraint and constant give it. |
| MenuViewModel.MenuView.SetMenuItemsHorizontalSpacing | WBSwipeToOptionCell/WBSwipeToOptionCell/WBMenuView.swift:569-578 | The spacing goes to the main stack for a horizontal layout, to both rows for a square one, and nowhere for a vertical one. |
| MenuViewModel.MenuView.SetMenuItemsVerticalSpacing | WBSwipeToOptionCell/WBSwipeToOptionCell/WBMenuView.swift:584-590 | The spacing goes to the main stack unless the layout is horizontal. |
| MenuViewModel.MenuView.SetMenuContentSpacing | WBSwipeToOptionCell/WBSwipeToOptionCell/WBMenuView.swift:513-519 | The item group's four edge constants become the given insets. |
| MenuViewModel.MenuView.SetupContentMenuLayout | WBSwipeToOptionCell/WBSwipeToOptionCell/WBMenuView.swift:227-260 | It sets the axis and distribution for the layout. A square with more than one item also moves the two rows to the end of the main stack (`SetUpRows`), with the shared horizontal spacing. Then all six item-group constraints become active with constant 0. A square menu without items returns before creating them. |
| MenuViewModel.MenuView.SetupMenuItems | WBSwipeToOptionCell/WBSwipeToOptionCell/WBMenuView.swift:384-413 | Every item is laid out and moved where `SetUpItems` says: to the row its index parity picks for a square with more than one item, otherwise to the end of the main stack, in order. The menu joins its cell. |
| MenuViewModel.MenuView.AppendToStack | WBSwipeToOptionCell/WBSwipeToOptionCell/WBMenuView.swift:388-410 | The loop lays out each item and moves it to the end of the main stack, in order: the stacks become `AddAllToMain` of the items. |
| MenuViewModel.MenuView.AppendToRows | WBSwipeToOptionCell/WBSwipeToOptionCell/WBMenuView.swift:395-405 | The loop lays out each item and moves even-indexed items to the top row and odd-indexed items to the bottom row: the stacks become `AddAllToRows` of the items. |
| MenuViewModel.MenuView.LayOutItem | WBSwipeToOptionCell/WBSwipeToOptionCell/WBMenuView.swift:391 | Item k is laid out, and the items before it stay laid out. |
| MenuViewModel.MenuView.ArrangeItem | WBSwipeToOptionCell/WBSwipeToOptionCell/WBMenuView.swift:392 | `addArrangedSubview` on the target stack is one `AddItem` step, and one more step of the fold the loop computes. |
| MenuViewModel.MenuView.ShowMenuIn | WBSwipeToOptionCell/WBSwipeToOptionCell/WBMenuView.swift:420-447 | A placement constraint on the given edge is created with constant 0. |
| MenuViewModel.MenuView.SetupLayoutDirection | WBSwipeToOptionCell/WBSwipeToOptionCell/WBMenuView.swift:267-273 | With a cell, the items are placed and then the menu is placed on its edge at constant 0. Without a cell nothing changes. |
| MenuViewModel.MenuView.SetupMenuIconPosition | WBSwipeToOptionCell/WBSwipeToOptionCell/WBMenuView.swift:278-295 | Nothing happens unless the delegate asks for the icon. Otherwise the icon is pinned as `IconAnchorFor` says, and a top or bottom icon gets a 5-point image inset. |
| MenuViewModel.MenuView.SetupMenuLayout | WBSwipeToOptionCell/WBSwipeToOptionCell/WBMenuView.swift:300-321 | A delegate on a menu without a row stops the program. Otherwise the menu takes the delegate's layout and edge (or keeps square and right), gets `SetUpLook` from the shared spacings, and its stacks become `SetUpStacks` of the old ones: the rows, then the items, each moved to the end of its stack. Every item is laid out, the menu is placed on its edge at 0, and the icon follows the delegate. |
| MenuViewModel.MenuView.SetupContent | WBSwipeToOptionCell/WBSwipeToOptionCell/WBMenuView.swift:300-314 | The first half of setup: the delegate's layout, the look and the rows. |
| MenuViewModel.MenuView.SetupPlacement | WBSwipeToOptionCell/WBSwipeToOptionCell/WBMenuView.swift:316-320 | The second half of setup: the delegate's edge, the items, the placement and the icon. |
| MenuViewModel.MenuView.SetMenuContentAlignment | WBSwipeToOptionCell/WBSwipeToOptionCell/WBMenuView.swift:526-546 | The flags change as `ApplyAlignment` says. Centre also recentres the stack. |
| MenuViewModel.MenuView.SetMenuIcon | WBSwipeToOptionCell/WBSwipeToOptionCell/WBMenuView.swift:553-555 | The toggle shows the named image. |
| MenuViewModel.MenuView.SetBackgroundColor | WBSwipeToOptionCell/WBSwipeToOptionCell/WBMenuView.swift:561-563 | The menu's background colour is set. |
| MenuViewModel.MenuView.SetMenuContentInset | WBSwipeToOptionCell/WBSwipeToOptionCell/WBMenuView.swift:599-605 | The insets are stored program-wide, with the two spacings untouched, and applied to this menu's item group. |
| MenuViewModel.MenuView.SetMenuItemSpacingVertical | WBSwipeToOptionCell/WBSwipeToOptionCell/WBMenuView.swift:611-614 | The vertical spacing is stored program-wide and applied where this menu stacks items top to bottom. |
| MenuViewModel.MenuView.SetMenuItemSpacingHorizontal | WBSwipeToOptionCell/WBSwipeToOptionCell/WBMenuView.swift:620-623 | The horizontal spacing is stored program-wide and applied where this menu lays items out left to right. |
| OldMenuViewModel.StackAlignmentFor | WBSwipeToOptionCell/WBSwipeToOptionCell/WBSwipeToOptionCell.swift:410-419 | Left aligns the stack to its leading edge, centre centres it, and right goes to the trailing edge. It never fills. |
| OldMenuViewModel.OldAttachment | WBSwipeToOptionCell/WBSwipeToOptionCell/WBSwipeToOptionCell.swift:77-99 | A missing gesture stops the program, and so do swipes on a top or bottom edge. A pan is attached on every edge. |
| OldMenuViewModel.AttachmentsCompared | WBSwipeToOptionCell/WBSwipeToOptionCell/WBSwipeToOptionCell.swift:77-99 | On side edges the two observers agree. On a top or bottom edge the older one attaches a pan where the newer one stops the program. |
| OldMenuViewModel.OldIconAnchorFor | WBSwipeToOptionCell/WBSwipeToOptionCell/WBSwipeToOptionCell.swift:299-338 | Top and bottom icons are placed as in `MenuView`. A left icon is placed where `MenuView` puts a right one, and the reverse. |
| OldMenuViewModel.OldSideIconsSwapped | WBSwipeToOptionCell/WBSwipeToOptionCell/WBSwipeToOptionCell.swift:299-318 | An icon lands on the side other than the one asked for iff it is a side icon. Its inset still points into the view. |
| OldMenuViewModel.OldSetUpLookSpacing | WBSwipeToOptionCell/WBSwipeToOptionCell/WBSwipeToOptionCell.swift:277-298 | The older setup never spaces the main stack (the newer one does for a one-row menu). It adds one more constraint group of the menu's own insets on every run. |
| OldMenuViewModel.PanCannotOpenTallMenu | WBSwipeToOptionCell/WBSwipeToOptionCell/WBSwipeToOptionCell.swift:117-127 | On a top or bottom menu taller than it is wide, no run of pans covers the cell, because pans are bounded by the width. `open()` does cover it. |
| OldMenuViewModel.OldMenuView.Plain | WBSwipeToOptionCell/WBSwipeToOptionCell/WBSwipeToOptionCell.swift:130-132 | A frame-only menu has no cell. It starts closed and unplaced, with Square, Right and the default spacings. |
| OldMenuViewModel.OldMenuView.constructor | WBSwipeToOptionCell/WBSwipeToOptionCell/WBSwipeToOptionCell.swift:133-142 | The gesture observer runs while the edge is still right, so the gesture's recognizers are attached. |
| OldMenuViewModel.OldMenuView.SetSwipeGesture | WBSwipeToOptionCell/WBSwipeToOptionCell/WBSwipeToOptionCell.swift:77-99 | With a cell, the program stops exactly when `OldAttachment` refuses, with the missing-gesture or the sideways message. Otherwise the recognizers are added. |
| OldMenuViewModel.OldMenuView.Open | WBSwipeToOptionCell/WBSwipeToOptionCell/WBSwipeToOptionCell.swift:178-194 | Opening from the stored edge sets the flag and minus the width or height. Without a placement nothing changes. |
| OldMenuViewModel.OldMenuView.Close | WBSwipeToOptionCell/WBSwipeToOptionCell/WBSwipeToOptionCell.swift:195-205 | Closing clears the flag and sets the constant to 0. Without a placement nothing changes. |
| OldMenuViewModel.OldMenuView.MenuBtnPressed | WBSwipeToOptionCell/WBSwipeToOptionCell/WBSwipeToOptionCell.swift:398-404 | The toggle flips the flag and sets the matching constant. |
| OldMenuViewModel.OldMenuView.HandleGesture | WBSwipeToOptionCell/WBSwipeToOptionCell/WBSwipeToOptionCell.swift:148-173 | Swipes follow the same table as `MenuView`. |
| OldMenuViewModel.OldMenuView.HandlePan | WBSwipeToOptionCell/WBSwipeToOptionCell/WBSwipeToOptionCell.swift:117-127 | A pan is one `PanEvent` bounded by the width on every edge. The flag is never touched. |
| OldMenuViewModel.OldMenuView.LayoutPass | WBSwipeToOptionCell/WBSwipeToOptionCell/WBSwipeToOptionCell.swift:369-396 | A placed menu gets the frame its edge constraint gives it. |
| OldMenuViewModel.OldMenuView.SetupContentMenuLayout | WBSwipeToOptionCell/WBSwipeToOptionCell/WBSwipeToOptionCell.swift:215-234 | It sets the axis and distribution. A square with more than one item also moves the two rows to the end of the main stack, spaced by the menu's horizontal spacing. |
| OldMenuViewModel.OldMenuView.SetupContentSpacing | WBSwipeToOptionCell/WBSwipeToOptionCell/WBSwipeToOptionCell.swift:207-214 | One more group of six active constraints is added, with the menu's insets. |
| OldMenuViewModel.OldMenuView.SetupContentHorizontalSpacing | WBSwipeToOptionCell/WBSwipeToOptionCell/WBSwipeToOptionCell.swift:235-238 | The horizontal spacing goes to the two rows only. |
| OldMenuViewModel.OldMenuView.SetupContentVerticalSpacing | WBSwipeToOptionCell/WBSwipeToOptionCell/WBSwipeToOptionCell.swift:239-241 | The vertical spacing goes to the main stack, whatever the layout. |
| OldMenuViewModel.OldMenuView.SetupMenuItems | WBSwipeToOptionCell/WBSwipeToOptionCell/WBSwipeToOptionCell.swift:339-368 | The same moves as `MenuView` (`SetUpItems`): rows by parity for a square with more than one item, else the end of the main stack in order, with every item laid out. |
| OldMenuViewModel.OldMenuView.AppendToStack | WBSwipeToOptionCell/WBSwipeToOptionCell/WBSwipeToOptionCell.swift:343-365 | The loop lays out each item and moves it to the end of the main stack in order (`AddAllToMain`). |
| OldMenuViewModel.OldMenuView.AppendToRows | WBSwipeToOptionCell/WBSwipeToOptionCell/WBSwipeToOptionCell.swift:350-359 | The loop lays out each item and moves it to the top row at an even index and the bottom row at an odd one (`AddAllToRows`). |
| OldMenuViewModel.OldMenuView.LayOutItem | WBSwipeToOptionCell/WBSwipeToOptionCell/WBSwipeToOptionCell.swift:346 | Item k is laid out, and the items before it stay laid out. |
| OldMenuViewModel.OldMenuView.ArrangeItem | WBSwipeToOptionCell/WBSwipeToOptionCell/WBSwipeToOptionCell.swift:347 | `addArrangedSubview` on the target stack is one `AddItem` step, and one more step of the fold the loop computes. |
| OldMenuViewModel.OldMenuView.SetupLayoutDirection | WBSwipeToOptionCell/WBSwipeToOptionCell/WBSwipeToOptionCell.swift:242-258 | With a cell, the items are placed and then the placement constraint on the stored edge is created at 0. |
| OldMenuViewModel.OldMenuView.SetupMenuIconPosition | WBSwipeToOptionCell/WBSwipeToOptionCell/WBSwipeToOptionCell.swift:259-276 | Nothing happens unless the delegate asks for the icon. Otherwise the icon is pinned as `OldIconAnchorFor` says, with a 5-point image inset. |
| OldMenuViewModel.OldMenuView.SetupUI | WBSwipeToOptionCell/WBSwipeToOptionCell/WBSwipeToOptionCell.swift:277-298 | A delegate without a row stops the program. Otherwise the menu takes the delegate's layout and edge (or keeps Square and Right), gets `OldSetUpLook` from its own spacings, and its stacks become `SetUpStacks` of the old ones. Every item is laid out, the menu is placed at 0, and the icon follows the delegate. |
| OldMenuViewModel.OldMenuView.SetupContent | WBSwipeToOptionCell/WBSwipeToOptionCell/WBSwipeToOptionCell.swift:277-291 | The first half of `setupUI`: the layout, the look and the rows. |
| OldMenuViewModel.OldMenuView.SetupPlacement | WBSwipeToOptionCell/WBSwipeToOptionCell/WBSwipeToOptionCell.swift:293-297 | The second half of `setupUI`: the edge, the items, the placement and the icon. |
| OldMenuViewModel.OldMenuView.SetMenuContentAlignment | WBSwipeToOptionCell/WBSwipeToOptionCell/WBSwipeToOptionCell.swift:410-419 | The stack alignment becomes `StackAlignmentFor` of the choice. |
| OldMenuViewModel.OldMenuView.SetMenuIcon | WBSwipeToOptionCell/WBSwipeToOptionCell/WBSwipeToOptionCell.swift:420-422 | The toggle shows the named image. |
| OldMenuViewModel.OldMenuView.SetBackgroundColor | WBSwipeToOptionCell/WBSwipeToOptionCell/WBSwipeToOptionCell.swift:423-425 | The background colour is set. |
| OldMenuViewModel.OldMenuView.SetMenuContentInset | WBSwipeToOptionCell/WBSwipeToOptionCell/WBSwipeToOptionCell.swift:426-432 | This menu's insets change, and one more constraint group carries them. |
| OldMenuViewModel.OldMenuView.SetMenuItemSpacingVertical | WBSwipeToOptionCell/WBSwipeToOptionCell/WBSwipeToOptionCell.swift:433-436 | This menu's vertical spacing is stored and given to its main stack. |
| OldMenuViewModel.OldMenuView.SetMenuItemSpacingHorizontal | WBSwipeToOptionCell/WBSwipeToOptionCell/WBSwipeToOptionCell.swift:437-440 | This menu's horizontal spacing is stored and given to its two rows. |
| MenuDelegates.DefaultsIgnoreRow | WBSwipeableCell/WBMenuViewDelegate.swift:24-37 | The default answers (bottom, horizontal, icon shown, icon at the top) are the same for every row. |
| MenuDelegates.DefaultsPlaceMenuBelowCell | WBSwipeToOptionCell/WBSwipeToOptionCell/WBMenuViewDelegate.swift:24-37 | Under the defaults the menu is one row of all items in order and opens by its full height. Its dots are pinned 10 points below its top, identically in both menus, and no swipe affects it. |
| MenuDelegates.SetUpWithoutDelegate | WBSwipeToOptionCell/WBSwipeToOptionCell/WBMenuView.swift:67-68 | Without a delegate, setup keeps the square layout and the right edge, gives the stacks `SetUpStacks` for a square (exactly `Arrange` for distinct items), and adds no icon. |
| MenuDelegates.SetUpOldWithoutDelegate | WBSwipeToOptionCell/WBSwipeToOptionCell/WBSwipeToOptionCell.swift:60-61 | The same for the older menu: Square and Right. |
| MenuDelegates.DefaultSwipeMenu | WBSwipeToOptionCell/WBSwipeToOptionCell/WBMenuView.swift:316-317 | A menu made with the default swipe gesture and set up under the defaults keeps both swipe recognizers. It ends on the bottom edge, where no swipe does anything. |
| HostCells.MenuTableViewCell.constructor | WBSwipeToOptionCell/WBSwipeToOptionCell/MenuTableViewCell.swift:17-25 | The cell holds the optional tagged menu. |
| HostCells.MenuTableViewCell.PrepareForReuse | WBSwipeToOptionCell/WBSwipeToOptionCell/MenuTableViewCell.swift:17-25 | An open tagged menu is closed at offset 0. A closed one is left untouched. With no menu nothing happens. No menu is ever opened. |
| HostCells.CustomTableViewCell.constructor | WBSwipeToOptionCell/WBSwipeToOptionCell/CustomTableViewCell.swift:17-25 | The cell holds the optional tagged older menu. |
| HostCells.CustomTableViewCell.PrepareForReuse | WBSwipeToOptionCell/WBSwipeToOptionCell/CustomTableViewCell.swift:17-25 | The same for the older menu. |
| HostControllers.HostAnswers | Example/WBSwipeableCell/TableViewController.swift:126-137 | The example delegates answer the stored edge or right, and the stored layout or the controller's fallback (horizontal for the table, square for the collection). The icon is always shown, at the left. |
| HostControllers.CollectionItemSize | Example/WBSwipeableCell/CollectionViewController.swift:67-72 | An item is always 280 high. It is the full width iff the layout is horizontal, and half the width otherwise. |
| HostControllers.CollectionSizeFollowsFallback | Example/WBSwipeableCell/CollectionViewController.swift:140-151 | An unset layout is sized like the square layout the delegate falls back to. |
| HostControllers.ExampleController.constructor | Example/WBSwipeableCell/TableViewController.swift:56-61 | No layout and no edge are stored at first. |
| HostControllers.ExampleController.ItemCount | Example/WBSwipeableCell/TableViewController.swift:69-71 | The table and the collection each show 6 rows. |
| HostControllers.ExampleController.SetMenuLayout | Example/WBSwipeableCell/TableViewController.swift:56-58 | The delegate answers exactly this layout for every row from now on, and its edge answer is unchanged. |
| HostControllers.ExampleController.SetMenuDirection | Example/WBSwipeableCell/TableViewController.swift:59-61 | The delegate answers exactly this edge for every row from now on, and its layout answer is unchanged. |
| HostControllers.ExampleController.MoreBtnPressed | Example/WBSwipeableCell/TableViewController.swift:29-45 | Every visible menu other than the tapped one ends closed: at 0 if it was open, untouched otherwise. A placed tapped menu in view ends open on its edge, so the close branch cannot run. A tapped menu out of view is toggled. |
| HostControllers.CloseAll | Example/WBSwipeableCell/CollectionViewController.swift:31-37 | The loop closes every open visible menu at offset 0 and leaves closed ones untouched. |
| HostControllers.ViewController.RowCount | WBSwipeToOptionCell/WBSwipeToOptionCell/ViewController.swift:50-52 | The app's table has exactly one row. |
| HostControllers.ViewController.MoreBtnPressed | WBSwipeToOptionCell/WBSwipeToOptionCell/ViewController.swift:26-43 | The same close-then-toggle result on the older menu. |
| HostControllers.ViewController.CellForRowAt | WBSwipeToOptionCell/WBSwipeToOptionCell/ViewController.swift:54-95 | The row's menu holds Delete, Submit and Save in that order, in one row below the cell, with the dots at the top because the empty conformance leaves every default in force. Setup turns the first item's grey title black and sizes its icon from the 70×70 set before. Then the app restyles the menu: blue background, left aligned, spacings 10 and 15, insets 10. |
| HostControllers.MakeItems | WBSwipeToOptionCell/WBSwipeToOptionCell/ViewController.swift:59-78 | The three items are fresh and titled in order. Only the first is restyled (white border 2, icon 70×70, grey 11-point title); the other two get black borders. |
| HostControllers.SetUpOldMenu | WBSwipeToOptionCell/WBSwipeToOptionCell/ViewController.swift:81-83 | An older menu with the swipe gesture, set up under the defaults: one row below the cell holding the distinct items in order, with the dots at the top and every item laid out. The items' icon sizes, border widths and titles are kept. |
| HostControllers.CloseAllOld | WBSwipeToOptionCell/WBSwipeToOptionCell/ViewController.swift:28-34 | The closing loop on the older menus. |
| DemoMenu.MenuViewController.constructor | Demo/WBSwipeToOptionCell/MenuViewController.swift:20 | The first row of the first section is selected at start. |
| DemoMenu.MenuViewController.NumberOfSections | Demo/WBSwipeToOptionCell/MenuViewController.swift:59-61 | There are two sections, one per segue identifier, header, row table, layout table and edge table. |
| DemoMenu.MenuViewController.NumberOfRows | Demo/WBSwipeToOptionCell/MenuViewController.swift:62-64 | A section shows 3 rows, then 4. Each row has a layout and an edge, so every lookup in `prepare` is in bounds. |
| DemoMenu.MenuViewController.TitleForHeader | Demo/WBSwipeToOptionCell/MenuViewController.swift:72-74 | A section's header names the kind of controller its segue leads to. |
| DemoMenu.MenuViewController.DidSelectRowAt | Demo/WBSwipeToOptionCell/MenuViewController.swift:52-55 | The row is stored as the selection, and the section's segue (collection, then table) is followed. |
| DemoMenu.MenuViewController.Prepare | Demo/WBSwipeToOptionCell/MenuViewController.swift:38-46 | The destination then answers the selected row's layout and edge for every row. |
| DemoMenu.MenuViewController.RowsSelectMenus | Demo/WBSwipeToOptionCell/MenuViewController.swift:16-17 | The collection rows are vertical, square and horizontal, all on the right. The table rows are horizontal on the left, right, top and bottom. |
| MenuSessions.OpenThenClose | WBSwipeToOptionCell/WBSwipeToOptionCell/WBMenuView.swift:184-221 | Opening from any edge and then closing leaves the menu closed at offset 0. |
| MenuSessions.ToggleTwice | WBSwipeToOptionCell/WBSwipeToOptionCell/WBMenuView.swift:451-457 | Two toggles from closed end closed at offset 0, even after a pan. |
| MenuSessions.OldOpenThenClose | WBSwipeToOptionCell/WBSwipeToOptionCell/WBSwipeToOptionCell.swift:178-205 | The same for the older menu. |
| MenuSessions.OldToggleTwice | WBSwipeToOptionCell/WBSwipeToOptionCell/WBSwipeToOptionCell.swift:398-404 | The same for the older menu. |
| MenuSessions.PanLeavesMenuAjar | WBSwipeToOptionCell/WBSwipeToOptionCell/WBMenuView.swift:493-503 | A half-width pan leaves a side menu half over its cell while its open flag stays false, so the next toggle opens it fully. |

## Behaviour worth knowing

- A pan moves the constant without touching the open flag (`HandlePan`,
  `PanLeavesMenuAjar`). So a closed menu can sit partly over its cell, and
  its toggle then opens it fully.
- The older `WBMenuView` attaches a pan recognizer on every edge, but its
  pan handler bounds the constant by the menu's width. A top or bottom
  menu taller than it is wide cannot be fully opened by panning
  (`PanCannotOpenTallMenu`).
- The older menu pins a left icon to its trailing edge and a right icon to
  its leading edge (`OldSideIconsSwapped`). `MenuView` pins each icon to
  the edge it names.
- The older setup gives the horizontal spacing to the two rows only.
  `MenuView` also gives it to a one-row main stack (`OldSetUpLookSpacing`).
- Under the delegate defaults the menu sits below its cell. The default
  swipe gesture attached at creation then does nothing
  (`DefaultSwipeMenu`).
- The square layout splits into rows only with more than one item. With
  one item a square menu puts it in the vertical main stack.
- Setting a menu up again moves its own views back to the end of their
  stacks, so the stacks do not grow (`SetUpStacksIdempotent`). Every run
  still adds its constraints once more.

## Left out

- The Auto Layout solver, `UIStackView` distribution, images, fonts and
  colours as rendered. Constraints and stacks are values; `LayoutPass`
  stands for the solver's placement of the menu.
- `UIView.animate`. The flag and the constant change before the animation
  block, so open and close are instantaneous here.
- The angle test of `gestureRecognizerShouldBegin` (`atan`, degrees,
  `fabs` on floating point). It is the boolean `tooSteep`, and its
  zero-velocity behaviour is not captured.
- Alerts, segues, storyboard outlets and cell dequeueing. `DidSelectRowAt`
  returns the segue identifier instead of performing it.
- The `viewWithTag(-1)` search. Each cell holds an optional reference to
  its menu, and the controllers receive the visible cells' menus as a
  sequence.
- `init?(coder:)`, which only stops the program.
- The example controllers call `MenuView` members that are not part of
  this model (`MenuView(mCell:…)`, `setBgColor`, a public `direction`).
  Their menus are modelled against `MenuView`'s `menuOpen`, `open`,
  `close` and `direction`.
- The demo's `prepare` casts its destination to a `ViewController` with
  `setMenuLayout`. That controller is not part of this model. Both
  destinations are modelled as `ExampleController`.
- Layout conflicts between constraint groups that repeated setup runs add.
  The model records every group, but it does not solve them.
- Views shared between menus. `addArrangedSubview` takes a view out of any
  stack, even one in another menu. The model takes it out of the stacks of
  the menu being set up only, so an item given to two menus is not moved
  out of the first.
- `OldMenuViewModel.OldMenuView.SetMenuContentInset`: called before
  `setupUI`, the older menu's `setupContentSpacing`
  (WBSwipeToOptionCell/WBSwipeToOptionCell/WBSwipeToOptionCell.swift:207-214)
  activates constraints between its stack and itself while the stack is
  not yet its subview. UIKit then raises an exception and the program
  stops. The model stores the insets and the constraint group, and does
  not model that stop.
- `OldMenuViewModel.OldMenuView.constructor`: takes a non-nil gesture. The
  nil gesture that stops the program is modelled by
  `SetSwipeGesture(None)`.
- `HostControllers.ViewController.CellForRowAt`: states the first item's
  styling and the menu's final look. It does not state the full constraint
  history of the other two items, and it leaves out the first item's blue
  background, a colour only.
- `DemoMenu.MenuViewController.DidSelectRowAt`: requires a row the table
  shows, as UIKit passes only those. An out-of-range section would trap in
  the source.
