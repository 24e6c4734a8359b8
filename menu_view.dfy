/** The library's `MenuView`: a view as large as its host cell, placed just
    outside one edge of the cell by a single constraint whose constant slides
    it in and out. It owns a main stack (and two row stacks for the square
    layout) holding the items, a toggle button, and the gesture recognizers it
    attaches to the cell. */
module MenuViewModel {
  import opened MenuTypes
  import opened MenuRules
  import opened MenuItems

  /** The type-level spacings every `MenuView` of the program shares: setting
      an inset or a spacing on one menu changes what the next menu set up
      uses. */
  class Dimension {
    var topSpacing: real
    var bottomSpacing: real
    var leftSpacing: real
    var rightSpacing: real
    var horizontalSpacing: real
    var verticalSpacing: real

    constructor ()
      ensures Values() == DefaultSpacings
    {
      topSpacing, bottomSpacing := 5.0, 5.0;
      leftSpacing, rightSpacing := 0.0, 0.0;
      horizontalSpacing, verticalSpacing := 5.0, 5.0;
    }

    function Values(): Spacings
      reads this
    {
      Spacings(topSpacing, bottomSpacing, leftSpacing, rightSpacing, horizontalSpacing, verticalSpacing)
    }
  }

  /** The menu view's and its stacks' properties apart from their contents:
      background, stack alignment, axis and distribution, whether the stack
      is in the view, the item group's six constraints (active flags and
      edge constants), and the spacings of the main stack and the two rows. */
  datatype Look = Look(
    background: Option<Color>,
    alignment: StackAlignment,
    axis: Axis,
    distribution: Distribution,
    stackInView: bool,
    pins: Pins,
    constants: Insets,
    spacing: real,
    topRowSpacing: real,
    bottomRowSpacing: real)

  const InitialLook := Look(None, StackFill, AxisHorizontal, Fill, false,
                            Pins(false, false, false, false, false, false),
                            Insets(0.0, 0.0, 0.0, 0.0), 0.0, 0.0, 0.0)

  /** `setMenuItemsHorizontalSpacing` on a look: the gap goes to whichever
      stacks the layout lays out left to right. */
  function WithHorizontalSpacing(l: Look, layout: MenuLayout, s: real): Look {
    match HorizontalSpacingTarget(layout)
    case Some(MainStack) => l.(spacing := s)
    case Some(RowStacks) => l.(topRowSpacing := s, bottomRowSpacing := s)
    case None => l
  }

  /** `setMenuItemsVerticalSpacing` on a look: the gap goes to the main stack
      when the layout stacks it top to bottom. */
  function WithVerticalSpacing(l: Look, layout: MenuLayout, s: real): Look {
    if VerticalSpacingTarget(layout).Some? then l.(spacing := s) else l
  }

  /** The spacing setters touch nothing but spacings, and each lands exactly
      on the stacks laid out along its own axis. */
  lemma SpacingSettersFollowAxes(l: Look, layout: MenuLayout, s: real)
    ensures var h := WithHorizontalSpacing(l, layout, s);
      && h.(spacing := l.spacing, topRowSpacing := l.topRowSpacing, bottomRowSpacing := l.bottomRowSpacing) == l
      && (MainAxis(layout) == AxisHorizontal ==> h.spacing == s)
      && (MainAxis(layout) == AxisVertical ==> h.spacing == l.spacing)
      && (layout == Square ==> h.topRowSpacing == s && h.bottomRowSpacing == s)
      && (layout != Square ==> h.topRowSpacing == l.topRowSpacing && h.bottomRowSpacing == l.bottomRowSpacing)
    ensures var v := WithVerticalSpacing(l, layout, s);
      && v.(spacing := l.spacing) == l
      && (MainAxis(layout) == AxisVertical ==> v.spacing == s)
      && (MainAxis(layout) == AxisHorizontal ==> v == l)
  {
    SpacingFollowsStackAxes(layout);
  }

  /** The look `setupMenuLayout` leaves for a layout: brown background,
      centred stack, the layout's axis and distribution, the item group's six
      constraints recreated active (except for a square menu without items,
      which returns before creating them) with the shared insets, and the
      shared horizontal spacing. */
  function SetUpLook(before: Look, layout: MenuLayout, hasItems: bool, sp: Spacings): Look {
    var structured := before.(
      background := Some(Brown),
      alignment := StackCenter,
      axis := MainAxis(layout),
      distribution := if layout == Square then FillEqually else Fill,
      stackInView := true,
      pins := if layout == Square && !hasItems then before.pins else AllPinsActive,
      constants := Insets(sp.top, sp.left, sp.bottom, sp.right));
    WithHorizontalSpacing(structured, layout, sp.horizontal)
  }

  /** Setting a menu up again with the same layout and spacings leaves its
      look as the first setup left it. */
  lemma SetUpLookIdempotent(before: Look, layout: MenuLayout, hasItems: bool, sp: Spacings)
    ensures var once := SetUpLook(before, layout, hasItems, sp);
      SetUpLook(once, layout, hasItems, sp) == once
  {
  }

  /** Setup gives every stack laid out left to right the shared horizontal
      spacing but never applies the shared vertical spacing: a vertically
      laid-out main stack keeps the spacing it had. */
  lemma SetUpLookSpacing(before: Look, layout: MenuLayout, hasItems: bool, sp: Spacings)
    ensures var r := SetUpLook(before, layout, hasItems, sp);
      && (r.axis == AxisHorizontal ==> r.spacing == sp.horizontal)
      && (r.axis == AxisVertical ==> r.spacing == before.spacing)
      && (layout == Square ==> r.topRowSpacing == sp.horizontal && r.bottomRowSpacing == sp.horizontal)
  {
    SpacingFollowsStackAxes(layout);
  }

  /** The toggle button: whether its tap target is registered, its image, the
      image inset, and the constraints pinning it, one entry per placement. */
  datatype MenuButton = MenuButton(target: bool, image: Option<string>, imageInset: real, anchors: seq<IconAnchor>)

  /** The recognizers the `swipeGesture` observer attaches for a gesture kind
      and the menu's current edge; None where it stops the program because a
      vertical gesture would fight the table's scrolling. */
  function Attachment(g: Gesture, edge: Direction): (r: Option<set<Recognizer>>)
    ensures r.None? <==> !IsHorizontalEdge(edge)
    ensures r.Some? ==> r.value != {}
    ensures r.Some? ==> forall x :: x in r.value ==> (KindOf(x) == PanKind <==> g == Pan)
  {
    if !IsHorizontalEdge(edge) then None
    else match g
      case Swipe => Some({SwipeLeftRecognizer, SwipeRightRecognizer})
      case Pan => Some({PanRecognizer})
  }

  function SwipeOf(r: Recognizer): SwipeDirection
    requires r != PanRecognizer
  {
    if r == SwipeLeftRecognizer then SwipeLeft else SwipeRight
  }

  /** Every swipe recognizer a side menu attaches is one its handler answers:
      one of the two opens the menu and the other closes it. */
  lemma AttachedSwipesAreAnswered(edge: Direction)
    requires IsHorizontalEdge(edge)
    ensures var r := Attachment(Swipe, edge).value;
      forall x :: x in r ==> SwipeAction(edge, SwipeOf(x)) != NoResponse
    ensures exists x :: x in Attachment(Swipe, edge).value && SwipeAction(edge, SwipeOf(x)) == OpenMenu
    ensures exists x :: x in Attachment(Swipe, edge).value && SwipeAction(edge, SwipeOf(x)) == CloseMenu
  {
    var r := Attachment(Swipe, edge).value;
    if edge == Right {
      assert SwipeLeftRecognizer in r && SwipeAction(edge, SwipeOf(SwipeLeftRecognizer)) == OpenMenu;
      assert SwipeRightRecognizer in r && SwipeAction(edge, SwipeOf(SwipeRightRecognizer)) == CloseMenu;
    } else {
      assert SwipeRightRecognizer in r && SwipeAction(edge, SwipeOf(SwipeRightRecognizer)) == OpenMenu;
      assert SwipeLeftRecognizer in r && SwipeAction(edge, SwipeOf(SwipeLeftRecognizer)) == CloseMenu;
    }
  }

  /** Where the toggle icon goes for a delegate's icon position: on the named
      edge, 10 points inside it, with the vertical dots and a 20 by 30 box on
      the sides and the horizontal dots in the turned box at top and bottom. */
  function IconAnchorFor(position: Direction): (r: IconAnchor)
    ensures AnchorSide(r.pinnedTo) == position
    ensures InsetPointsInward(r) && (r.inset == 10.0 || r.inset == -10.0)
    ensures IsHorizontalEdge(position) <==> r.image == VerticalDotsImage
    ensures IsHorizontalEdge(position) ==> r.width == 20.0 && r.height == 30.0
    ensures !IsHorizontalEdge(position) ==> r.image == HorizontalDotsImage && r.width == 30.0 && r.height == 20.0
  {
    match position
    case Right => IconAnchor(TrailingEdge, -10.0, 20.0, 30.0, VerticalDotsImage)
    case Left => IconAnchor(LeadingEdge, 10.0, 20.0, 30.0, VerticalDotsImage)
    case Top => IconAnchor(TopEdge, 10.0, 30.0, 20.0, HorizontalDotsImage)
    case Bottom => IconAnchor(BottomEdge, -10.0, 30.0, 20.0, HorizontalDotsImage)
  }

  /** The button after `setupMenuIconPosition` with the delegate's answers:
      unchanged unless the delegate asks for the icon; then pinned where
      `IconAnchorFor` says, showing that anchor's image, with a 5-point image
      inset at top and bottom. */
  function ButtonWithIcon(b: MenuButton, answers: Option<DelegateAnswers>): MenuButton {
    if answers.None? || !answers.value.showIcon then b
    else
      var position := answers.value.iconPosition;
      var anchor := IconAnchorFor(position);
      b.(image := Some(anchor.image),
         imageInset := if IsHorizontalEdge(position) then b.imageInset else 5.0,
         anchors := b.anchors + [anchor])
  }

  /** The answers of an optional delegate for an optional row. */
  function AnswersFor(delegate: Option<IndexPath -> DelegateAnswers>, path: Option<IndexPath>): Option<DelegateAnswers> {
    if delegate.Some? && path.Some? then Some(delegate.value(path.value)) else None
  }

  class MenuView {
    /** Whether the menu was given a host cell (`tableViewCell`). */
    const hasCell: bool
    const items: Option<seq<MenuItem>>
    const indexPath: Option<IndexPath>
    /** The program's one `Dimension`. */
    const dims: Dimension

    var swipeGesture: Option<Gesture>
    /** The recognizers this menu has attached to its cell. */
    var recognizers: set<Recognizer>
    var direction: Direction
    var menuLayout: MenuLayout
    var contentAlignment: ContentAlignment
    var menuOpen: bool

    /** The edge of the placement constraint (`changableConstraint`), once
        created, and its constant. */
    var placement: Option<Direction>
    var offset: real
    /** The frame the last layout pass gave the menu. */
    var frame: Rect
    /** Whether the menu has been added to its cell. */
    var inCell: bool

    var look: Look
    /** Contents of the main stack and of the two rows. */
    var stacks: Arrangement<MenuItem>
    var button: MenuButton

    ghost function ItemObjects(): set<MenuItem> {
      if items.Some? then set i | i in items.value else {}
    }

    function Items(): seq<MenuItem> {
      if items.Some? then items.value else []
    }

    ghost predicate Valid()
      reads this
    {
      && (hasCell <==> items.Some?)
      && (hasCell <==> indexPath.Some?)
      && (recognizers != {} ==> hasCell)
      && (placement.Some? ==> hasCell)
      && (menuOpen ==> placement.Some?)
      && (placement.None? ==> offset == 0.0)
      && frame.width >= 0.0 && frame.height >= 0.0
    }

    /** `init(frame:)` with a zero frame: no cell, no items, no row. */
    constructor Plain(dims: Dimension)
      ensures Valid()
      ensures !hasCell && items.None? && indexPath.None? && this.dims == dims
      ensures swipeGesture.None? && recognizers == {}
      ensures direction == Right && menuLayout == Square && contentAlignment == AlignCenter
      ensures !menuOpen && placement.None? && offset == 0.0 && frame == Rect(0.0, 0.0, 0.0, 0.0) && !inCell
      ensures look == InitialLook && stacks == Arrangement([], [], []) && button == MenuButton(false, None, 0.0, [])
    {
      hasCell, items, indexPath, this.dims := false, None, None, dims;
      swipeGesture, recognizers := None, {};
      direction, menuLayout, contentAlignment, menuOpen := Right, Square, AlignCenter, false;
      placement, offset, frame, inCell := None, 0.0, Rect(0.0, 0.0, 0.0, 0.0), false;
      look, stacks, button := InitialLook, Arrangement([], [], []), MenuButton(false, None, 0.0, []);
    }

    /** `init(tableViewCell:items:gesture:indexPath:)`: registers the toggle
        button's target; the gesture observer runs while the edge is still the
        default right one, so it never stops the program here. */
    constructor (items: seq<MenuItem>, gesture: Option<Gesture>, indexPath: IndexPath, dims: Dimension)
      ensures Valid()
      ensures hasCell && this.items == Some(items) && this.indexPath == Some(indexPath) && this.dims == dims
      ensures swipeGesture == gesture
      ensures recognizers == (if gesture.Some? then Attachment(gesture.value, Right).value else {})
      ensures direction == Right && menuLayout == Square && contentAlignment == AlignCenter
      ensures !menuOpen && placement.None? && offset == 0.0 && frame == Rect(0.0, 0.0, 0.0, 0.0) && !inCell
      ensures look == InitialLook && stacks == Arrangement([], [], []) && button == MenuButton(true, None, 0.0, [])
    {
      hasCell, this.items, this.indexPath, this.dims := true, Some(items), Some(indexPath), dims;
      swipeGesture, recognizers := None, {};
      direction, menuLayout, contentAlignment, menuOpen := Right, Square, AlignCenter, false;
      placement, offset, frame, inCell := None, 0.0, Rect(0.0, 0.0, 0.0, 0.0), false;
      look, stacks, button := InitialLook, Arrangement([], [], []), MenuButton(true, None, 0.0, []);
      new;
      var _ := SetSwipeGesture(gesture);
    }

    /** The `swipeGesture` observer: without a cell or a gesture it does
        nothing; otherwise it attaches the gesture's recognizers for a side
        edge and stops the program for a top or bottom edge. */
    method SetSwipeGesture(g: Option<Gesture>) returns (outcome: Outcome)
      requires Valid()
      modifies this`swipeGesture, this`recognizers
      ensures Valid()
      ensures swipeGesture == g
      ensures outcome.Fatal? <==> hasCell && g.Some? && !IsHorizontalEdge(direction)
      ensures outcome.Fatal? ==> outcome.message == SidewaysGestureMessage
      ensures outcome.Done? && hasCell && g.Some?
              ==> recognizers == old(recognizers) + Attachment(g.value, direction).value
      ensures !hasCell || g.None? ==> recognizers == old(recognizers)
    {
      swipeGesture := g;
      if !hasCell || swipeGesture.None? {
        return Done;
      }
      var attached := Attachment(swipeGesture.value, direction);
      if attached.None? {
        return Fatal(SidewaysGestureMessage);
      }
      recognizers := recognizers + attached.value;
      outcome := Done;
    }

    /** `open(from:withAnimation:)`: without a placement constraint nothing
        happens; otherwise the menu is marked open and the constant becomes
        minus the frame's extent along the given edge's axis. */
    method Open(from: Direction)
      requires Valid()
      modifies this`menuOpen, this`offset
      ensures Valid()
      ensures placement.None? ==> menuOpen == old(menuOpen) && offset == old(offset)
      ensures placement.Some? ==> menuOpen && offset == OpenOffset(from, frame.width, frame.height)
      ensures placement.Some? ==> -Extent(from, Size(frame.width, frame.height)) == offset <= 0.0
    {
      if placement.None? {
        return;
      }
      menuOpen := true;
      if IsHorizontalEdge(from) {
        offset := -frame.width;
      } else {
        offset := -frame.height;
      }
    }

    /** `close(withAnimation:)`: the constant returns to zero. */
    method Close()
      requires Valid()
      modifies this`menuOpen, this`offset
      ensures Valid()
      ensures placement.None? ==> menuOpen == old(menuOpen) && offset == old(offset)
      ensures placement.Some? ==> !menuOpen && offset == 0.0
    {
      if placement.None? {
        return;
      }
      menuOpen := false;
      offset := 0.0;
    }

    /** The toggle button: closes an open menu, opens a closed one from the
        menu's own edge. */
    method MenuBtnPressed()
      requires Valid()
      modifies this`menuOpen, this`offset
      ensures Valid()
      ensures placement.None? ==> menuOpen == old(menuOpen) && offset == old(offset)
      ensures placement.Some? ==> menuOpen == !old(menuOpen)
      ensures placement.Some? ==> offset == (if menuOpen then OpenOffset(direction, frame.width, frame.height) else 0.0)
    {
      if menuOpen {
        Close();
      } else {
        Open(direction);
      }
    }

    /** `handleSwipe(gesture:)`: on a side edge the swipe towards the cell's
        centre opens and the opposite one closes; on a top or bottom edge
        swipes are ignored. */
    method HandleSwipe(s: SwipeDirection)
      requires Valid()
      modifies this`menuOpen, this`offset
      ensures Valid()
      ensures SwipeAction(direction, s) == NoResponse || placement.None?
              ==> menuOpen == old(menuOpen) && offset == old(offset)
      ensures SwipeAction(direction, s) == OpenMenu && placement.Some?
              ==> menuOpen && offset == OpenOffset(direction, frame.width, frame.height)
      ensures SwipeAction(direction, s) == CloseMenu && placement.Some? ==> !menuOpen && offset == 0.0
    {
      match SwipeAction(direction, s)
      case OpenMenu => Open(direction);
      case CloseMenu => Close();
      case NoResponse =>
    }

    /** `handlePan(gesture:)`: `translation` is the recognizer's horizontal
        translation; the result is the translation it reports afterwards. A
        move that keeps the constant within [-width, 0] is committed and the
        translation reset to zero; any other move is dropped and keeps
        accumulating. The open flag is not touched. */
    method HandlePan(translation: real) returns (remaining: real)
      requires Valid()
      modifies this`offset
      ensures Valid()
      ensures hasCell && placement.Some?
              ==> PanState(offset, remaining) == PanEvent(PanState(old(offset), 0.0), translation, frame.width)
      ensures !(hasCell && placement.Some?) ==> offset == old(offset) && remaining == translation
      ensures -frame.width <= old(offset) <= 0.0 ==> -frame.width <= offset <= 0.0
    {
      if !hasCell || placement.None? {
        return translation;
      }
      var newX := offset + translation;
      if newX >= -frame.width && newX <= 0.0 {
        offset := newX;
        remaining := 0.0;
      } else {
        remaining := translation;
      }
    }

    /** The layout engine's pass over the cell: the menu gets the cell's size
        and the position its placement constraint gives it. */
    method LayoutPass(cell: Size)
      requires Valid()
      requires cell.width >= 0.0 && cell.height >= 0.0
      modifies this`frame
      ensures Valid()
      ensures placement.Some? ==> frame == MenuFrame(placement.value, cell, offset)
      ensures placement.None? ==> frame == old(frame)
    {
      if placement.Some? {
        frame := MenuFrame(placement.value, cell, offset);
      }
    }

    /** `setMenuItemsHorizontalSpacing`. */
    method SetMenuItemsHorizontalSpacing(spacing: real)
      modifies this`look
      ensures look == WithHorizontalSpacing(old(look), menuLayout, spacing)
    {
      match menuLayout
      case Horizontal => look := look.(spacing := spacing);
      case Square => look := look.(topRowSpacing := spacing, bottomRowSpacing := spacing);
      case Vertical =>
    }

    /** `setMenuItemsVerticalSpacing`. */
    method SetMenuItemsVerticalSpacing(spacing: real)
      modifies this`look
      ensures look == WithVerticalSpacing(old(look), menuLayout, spacing)
    {
      if menuLayout != Horizontal {
        look := look.(spacing := spacing);
      }
    }

    /** `setMenuContentSpacing`: the constants of the four edge constraints of
        the item group. */
    method SetMenuContentSpacing(top: real, left: real, bottom: real, right: real)
      modifies this`look
      ensures look == old(look).(constants := Insets(top, left, bottom, right))
    {
      look := look.(constants := Insets(top, left, bottom, right));
    }

    /** `setupContentMenuLayout`: stack axis and distribution for the layout,
        the two rows (with the shared horizontal spacing) for a square with
        more than one item, and the six constraints of the item group, all
        active with constant zero. A square menu without items returns before
        creating them. */
    method SetupContentMenuLayout()
      modifies this`look, this`stacks
      ensures stacks == SetUpRows(old(stacks), menuLayout, |Items()|)
      ensures var structured := old(look).(
          axis := MainAxis(menuLayout),
          distribution := if menuLayout == Square then FillEqually else Fill,
          stackInView := true);
        var rowsSpaced := if SplitsIntoRows(menuLayout, |Items()|)
          then WithHorizontalSpacing(structured, menuLayout, dims.horizontalSpacing) else structured;
        look == if menuLayout == Square && items.None? then structured
                else rowsSpaced.(pins := AllPinsActive, constants := Insets(0.0, 0.0, 0.0, 0.0))
    {
      if menuLayout != Square {
        look := look.(distribution := Fill,
                      axis := if menuLayout == Horizontal then AxisHorizontal else AxisVertical,
                      stackInView := true);
      } else {
        look := look.(distribution := FillEqually, axis := AxisVertical, stackInView := true);
        if items.None? {
          return;
        }
        if |items.value| > 1 {
          stacks := stacks.(main := AddArranged(stacks.main, RowEntry(TopRow)));
          stacks := stacks.(main := AddArranged(stacks.main, RowEntry(BottomRow)));
          SetMenuItemsHorizontalSpacing(dims.horizontalSpacing);
        }
      }
      look := look.(pins := AllPinsActive, constants := Insets(0.0, 0.0, 0.0, 0.0));
    }

    /** `setupMenuItems`: each item is laid out and appended to the stack its
        layout gives it, and the menu is added to the cell. Without items it
        does nothing. */
    method SetupMenuItems()
      modifies this`stacks, this`inCell, ItemObjects()`labelFont, ItemObjects()`titleColor,
        ItemObjects()`labelTextColor, ItemObjects()`iconSizeConstraints, ItemObjects()`arranged
      ensures stacks == SetUpItems(old(stacks), menuLayout, Items())
      ensures inCell == (old(inCell) || items.Some?)
      ensures forall i :: 0 <= i < |Items()| ==> Items()[i].LaidOut()
    {
      if items.None? {
        return;
      }
      if SplitsIntoRows(menuLayout, |items.value|) {
        AppendToRows(items.value);
      } else {
        AppendToStack(items.value);
      }
      inCell := true;
    }

    /** `setupMenuItemLayout` on `its[k]`, the items before it staying laid out. */
    method LayOutItem(its: seq<MenuItem>, k: nat)
      requires k < |its| && its[k] in ItemObjects()
      requires forall j :: 0 <= j < k ==> its[j].LaidOut()
      modifies {its[k]}`labelFont, {its[k]}`titleColor, {its[k]}`labelTextColor, {its[k]}`iconSizeConstraints, {its[k]}`arranged
      ensures forall j :: 0 <= j <= k ==> its[j].LaidOut()
    {
      its[k].SetupLayout();
    }

    /** `addArrangedSubview(its[k])` on the target stack, as step k of a
        setup loop that started from the stacks `a`. */
    method ArrangeItem(target: Target, its: seq<MenuItem>, k: nat, ghost a: Arrangement<MenuItem>)
      requires k < |its|
      modifies this`stacks
      ensures stacks == AddItem(old(stacks), target, its[k])
      ensures old(stacks) == AddAllToMain(a, its[..k]) && target == IntoMain ==>
        stacks == AddAllToMain(a, its[..k + 1])
      ensures old(stacks) == AddAllToRows(a, its[..k]) && target == IntoRow(RowFor(k)) ==>
        stacks == AddAllToRows(a, its[..k + 1])
    {
      AddAllAppend(a, its[..k], its[k]);
      assert its[..k + 1] == its[..k] + [its[k]];
      stacks := AddItem(stacks, target, its[k]);
    }

    /** The single-stack loops: lay out each item and append it to the main
        stack. */
    method AppendToStack(its: seq<MenuItem>)
      requires forall it :: it in its ==> it in ItemObjects()
      modifies this`stacks, ItemObjects()`labelFont, ItemObjects()`titleColor,
        ItemObjects()`labelTextColor, ItemObjects()`iconSizeConstraints, ItemObjects()`arranged
      ensures stacks == AddAllToMain(old(stacks), its)
      ensures forall i :: 0 <= i < |its| ==> its[i].LaidOut()
    {
      var k := 0;
      ghost var a := stacks;
      while k < |its|
        invariant 0 <= k <= |its|
        invariant stacks == AddAllToMain(a, its[..k])
        invariant forall j :: 0 <= j < k ==> its[j].LaidOut()
      {
        LayOutItem(its, k);
        ArrangeItem(IntoMain, its, k, a);
        k := k + 1;
      }
      assert its[..|its|] == its;
    }

    /** The square loop: lay out each item and append it to the top row at an
        even index, to the bottom row at an odd one. */
    method AppendToRows(its: seq<MenuItem>)
      requires forall it :: it in its ==> it in ItemObjects()
      modifies this`stacks, ItemObjects()`labelFont, ItemObjects()`titleColor,
        ItemObjects()`labelTextColor, ItemObjects()`iconSizeConstraints, ItemObjects()`arranged
      ensures stacks == AddAllToRows(old(stacks), its)
      ensures forall i :: 0 <= i < |its| ==> its[i].LaidOut()
    {
      var k := 0;
      ghost var a := stacks;
      while k < |its|
        invariant 0 <= k <= |its|
        invariant stacks == AddAllToRows(a, its[..k])
        invariant forall j :: 0 <= j < k ==> its[j].LaidOut()
      {
        LayOutItem(its, k);
        ArrangeItem(IntoRow(RowFor(k)), its, k, a);
        k := k + 1;
      }
      assert its[..|its|] == its;
    }

    /** `showMenuIn(_:from:)`: a new placement constraint for the edge, with
        constant zero, so the menu sits just outside the cell. */
    method ShowMenuIn(edge: Direction)
      modifies this`placement, this`offset
      ensures placement == Some(edge) && offset == 0.0
    {
      placement := Some(edge);
      offset := 0.0;
    }

    /** `setupLayoutDirection`: with a cell, the items and then the placement. */
    method SetupLayoutDirection()
      requires Valid()
      modifies this`stacks, this`inCell, this`placement, this`offset, ItemObjects()`labelFont, ItemObjects()`titleColor,
        ItemObjects()`labelTextColor, ItemObjects()`iconSizeConstraints, ItemObjects()`arranged
      ensures Valid()
      ensures stacks == SetUpItems(old(stacks), menuLayout, Items())
      ensures inCell == (old(inCell) || hasCell)
      ensures forall i :: 0 <= i < |Items()| ==> Items()[i].LaidOut()
      ensures hasCell ==> placement == Some(direction) && offset == 0.0
      ensures !hasCell ==> placement == old(placement) && offset == old(offset)
    {
      if !hasCell {
        return;
      }
      SetupMenuItems();
      ShowMenuIn(direction);
    }

    /** `setupMenuIconPosition`, with the delegate's answers. */
    method SetupMenuIconPosition(answers: Option<DelegateAnswers>)
      modifies this`button
      ensures button == ButtonWithIcon(old(button), answers)
    {
      if answers.None? || !answers.value.showIcon {
        return;
      }
      var position := answers.value.iconPosition;
      var anchor := IconAnchorFor(position);
      SetMenuIcon(anchor.image);
      if !IsHorizontalEdge(position) {
        button := button.(imageInset := 5.0);
      }
      button := button.(anchors := button.anchors + [anchor]);
    }

    /** `setupMenuLayout`: the look for the delegate's layout (or the current
        one), the rows and the items arranged as `Arrange` says, every item
        laid out, the menu in its cell just outside the delegate's edge, and
        the icon where the delegate puts it. A delegate on a menu without a
        row stops the program, as the row is force-unwrapped for the first
        question. */
    method SetupMenuLayout(delegate: Option<IndexPath -> DelegateAnswers>) returns (outcome: Outcome)
      requires Valid()
      modifies this`look, this`stacks, this`menuLayout, this`direction
      modifies this`inCell, this`placement, this`offset, this`button, ItemObjects()`labelFont, ItemObjects()`titleColor,
        ItemObjects()`labelTextColor, ItemObjects()`iconSizeConstraints, ItemObjects()`arranged
      ensures Valid()
      ensures outcome.Fatal? <==> delegate.Some? && indexPath.None?
      ensures outcome.Fatal? ==> outcome.message == NilUnwrapMessage
      ensures outcome.Done? ==>
        var answers := AnswersFor(delegate, indexPath);
        && menuLayout == (if answers.Some? then answers.value.layout else old(menuLayout))
        && direction == (if answers.Some? then answers.value.direction else old(direction))
        && look == SetUpLook(old(look), menuLayout, items.Some?, dims.Values())
        && stacks == SetUpStacks(old(stacks), menuLayout, Items())
        && (forall i :: 0 <= i < |Items()| ==> Items()[i].LaidOut())
        && inCell == (old(inCell) || hasCell)
        && (hasCell ==> placement == Some(direction) && offset == 0.0)
        && (!hasCell ==> placement == old(placement) && offset == old(offset))
        && button == ButtonWithIcon(old(button), answers)
    {
      if delegate.Some? && indexPath.None? {
        return Fatal(NilUnwrapMessage);
      }
      var answers := AnswersFor(delegate, indexPath);
      SetupContent(answers);
      SetupPlacement(answers);
      outcome := Done;
    }

    /** The first half of `setupMenuLayout`: the look and the rows. */
    method SetupContent(answers: Option<DelegateAnswers>)
      modifies this`look, this`stacks, this`menuLayout
      ensures menuLayout == (if answers.Some? then answers.value.layout else old(menuLayout))
      ensures look == SetUpLook(old(look), menuLayout, items.Some?, dims.Values())
      ensures stacks == SetUpRows(old(stacks), menuLayout, |Items()|)
    {
      look := look.(background := Some(Brown), alignment := StackCenter);
      if answers.Some? {
        menuLayout := answers.value.layout;
      }
      SetupContentMenuLayout();
      SetMenuContentSpacing(dims.topSpacing, dims.leftSpacing, dims.bottomSpacing, dims.rightSpacing);
      SetMenuItemsHorizontalSpacing(dims.horizontalSpacing);
    }

    /** The second half of `setupMenuLayout`: the edge, the items, the
        placement and the icon. */
    method SetupPlacement(answers: Option<DelegateAnswers>)
      requires Valid()
      modifies this`direction, this`stacks, this`inCell, this`placement, this`offset, this`button, ItemObjects()`labelFont, ItemObjects()`titleColor,
        ItemObjects()`labelTextColor, ItemObjects()`iconSizeConstraints, ItemObjects()`arranged
      ensures Valid()
      ensures direction == (if answers.Some? then answers.value.direction else old(direction))
      ensures stacks == SetUpItems(old(stacks), menuLayout, Items())
      ensures forall i :: 0 <= i < |Items()| ==> Items()[i].LaidOut()
      ensures inCell == (old(inCell) || hasCell)
      ensures hasCell ==> placement == Some(direction) && offset == 0.0
      ensures !hasCell ==> placement == old(placement) && offset == old(offset)
      ensures button == ButtonWithIcon(old(button), answers)
    {
      if answers.Some? {
        direction := answers.value.direction;
      }
      SetupLayoutDirection();
      SetupMenuIconPosition(answers);
    }

    /** `setMenuContentAlignment`: pins the item group as `ApplyAlignment`
        says; centre re-centres the stack's own alignment instead. */
    method SetMenuContentAlignment(a: ContentAlignment)
      modifies this`contentAlignment, this`look
      ensures contentAlignment == a
      ensures look == old(look).(
        pins := ApplyAlignment(old(look).pins, a),
        alignment := if a == AlignCenter then StackCenter else old(look).alignment)
    {
      contentAlignment := a;
      look := look.(pins := ApplyAlignment(look.pins, a));
      if a == AlignCenter {
        look := look.(alignment := StackCenter);
      }
    }

    method SetMenuIcon(name: string)
      modifies this`button
      ensures button == old(button).(image := Some(name))
    {
      button := button.(image := Some(name));
    }

    method SetBackgroundColor(c: Color)
      modifies this`look
      ensures look == old(look).(background := Some(c))
    {
      look := look.(background := Some(c));
    }

    /** `setMenuContentInset`: records the insets program-wide and applies
        them to this menu's item group. */
    method SetMenuContentInset(top: real, left: real, bottom: real, right: real)
      modifies dims, this`look
      ensures dims.Values() == old(dims.Values()).(top := top, left := left, bottom := bottom, right := right)
      ensures look == old(look).(constants := Insets(top, left, bottom, right))
    {
      dims.topSpacing := top;
      dims.bottomSpacing := bottom;
      dims.leftSpacing := left;
      dims.rightSpacing := right;
      SetMenuContentSpacing(top, left, bottom, right);
    }

    /** `setMenuItemSpacingVertical`: records the spacing program-wide and
        applies it where this menu stacks items top to bottom. */
    method SetMenuItemSpacingVertical(vertical: real)
      modifies dims`verticalSpacing, this`look
      ensures dims.Values() == old(dims.Values()).(vertical := vertical)
      ensures look == WithVerticalSpacing(old(look), menuLayout, vertical)
    {
      dims.verticalSpacing := vertical;
      SetMenuItemsVerticalSpacing(dims.verticalSpacing);
    }

    /** `setMenuItemSpacingHorizontal`: records the spacing program-wide and
        applies it where this menu lays items out left to right. */
    method SetMenuItemSpacingHorizontal(horizontal: real)
      modifies dims`horizontalSpacing, this`look
      ensures dims.Values() == old(dims.Values()).(horizontal := horizontal)
      ensures look == WithHorizontalSpacing(old(look), menuLayout, horizontal)
    {
      dims.horizontalSpacing := horizontal;
      SetMenuItemsHorizontalSpacing(dims.horizontalSpacing);
    }
  }
}
