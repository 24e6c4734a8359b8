/** The app's older `WBMenuView`: the same slide-out menu as `MenuView`, with
    spacings kept per menu rather than program-wide, a stack alignment instead
    of switchable pins, a pan gesture accepted on every edge, and the toggle
    icon's side anchors the other way round. */
module OldMenuViewModel {
  import opened MenuTypes
  import opened MenuRules
  import opened MenuItems
  import opened MenuViewModel

  /** The older content alignment (`ConentAlignment`). */
  datatype OldContentAlignment = OldLeft | OldRight | OldCenter

  const MissingGestureMessage := "You need to provide Gesture"

  /** The stack alignment `setMenuContentAlignment` chooses. */
  function StackAlignmentFor(a: OldContentAlignment): (r: StackAlignment)
    ensures r != StackFill
    ensures r == StackCenter <==> a == OldCenter
    ensures r == StackLeading <==> a == OldLeft
  {
    match a
    case OldLeft => StackLeading
    case OldCenter => StackCenter
    case OldRight => StackTrailing
  }

  /** What the older `swipeGesture` observer attaches; None where it stops
      the program: a missing gesture, or swipes on a top or bottom menu. A
      pan is attached whatever the edge. */
  function OldAttachment(g: Option<Gesture>, edge: Direction): (r: Option<set<Recognizer>>)
    ensures r.None? <==> g.None? || (g == Some(Swipe) && !IsHorizontalEdge(edge))
    ensures r.Some? ==> r.value != {} && forall x :: x in r.value ==> (KindOf(x) == PanKind <==> g == Some(Pan))
  {
    match g
    case None => None
    case Some(Pan) => Some({PanRecognizer})
    case Some(Swipe) => Attachment(Swipe, edge)
  }

  /** The two observers agree on side menus; on a top or bottom menu the
      older one attaches a pan where the newer one stops the program. */
  lemma AttachmentsCompared(g: Gesture, edge: Direction)
    ensures IsHorizontalEdge(edge) ==> OldAttachment(Some(g), edge) == Attachment(g, edge)
    ensures !IsHorizontalEdge(edge) ==> (OldAttachment(Some(g), edge).Some? <==> g == Pan)
    ensures Attachment(g, edge).Some? ==> OldAttachment(Some(g), edge).Some?
  {
  }

  /** The older icon placement: top and bottom as in `IconAnchorFor`, but a
      left icon is pinned 10 points inside the trailing edge and a right one
      10 points inside the leading edge. */
  function OldIconAnchorFor(position: Direction): (r: IconAnchor)
    ensures !IsHorizontalEdge(position) ==> r == IconAnchorFor(position)
    ensures position == Left ==> r == IconAnchorFor(Right)
    ensures position == Right ==> r == IconAnchorFor(Left)
  {
    match position
    case Left => IconAnchor(TrailingEdge, -10.0, 20.0, 30.0, VerticalDotsImage)
    case Right => IconAnchor(LeadingEdge, 10.0, 20.0, 30.0, VerticalDotsImage)
    case Top => IconAnchor(TopEdge, 10.0, 30.0, 20.0, HorizontalDotsImage)
    case Bottom => IconAnchor(BottomEdge, -10.0, 30.0, 20.0, HorizontalDotsImage)
  }

  /** A side icon of the older menu sits on the edge opposite the one asked
      for, while a top or bottom icon sits where it was asked. */
  lemma OldSideIconsSwapped(position: Direction)
    ensures IsHorizontalEdge(position) <==> AnchorSide(OldIconAnchorFor(position).pinnedTo) != position
    ensures InsetPointsInward(OldIconAnchorFor(position))
  {
    match position
    case Left => assert AnchorSide(IconAnchorFor(Right).pinnedTo) == Right;
    case Right => assert AnchorSide(IconAnchorFor(Left).pinnedTo) == Left;
    case Top =>
    case Bottom =>
  }

  /** The older button after its icon step: the anchor and image of
      `OldIconAnchorFor`, and a 5-point image inset at every position. */
  function OldButtonWithIcon(b: MenuButton, answers: Option<DelegateAnswers>): MenuButton {
    if answers.None? || !answers.value.showIcon then b
    else
      var anchor := OldIconAnchorFor(answers.value.iconPosition);
      b.(image := Some(anchor.image), imageInset := 5.0, anchors := b.anchors + [anchor])
  }

  /** The older menu's view and stack properties apart from their contents;
      each entry of `contentGroups` is one group of six edge and centre
      constraints, all active, with the given edge constants. */
  datatype OldLook = OldLook(
    background: Option<Color>,
    alignment: StackAlignment,
    axis: Axis,
    distribution: Distribution,
    stackInView: bool,
    spacing: real,
    topRowSpacing: real,
    bottomRowSpacing: real,
    contentGroups: seq<Insets>)

  const InitialOldLook := OldLook(None, StackFill, AxisHorizontal, Fill, false, 0.0, 0.0, 0.0, [])

  function InsetsOf(sp: Spacings): Insets {
    Insets(sp.top, sp.left, sp.bottom, sp.right)
  }

  /** The look `setupUI` leaves: brown, centred, the layout's axis and
      distribution, one more constraint group with the menu's own insets, and
      the horizontal spacing on the two rows whatever the layout. */
  function OldSetUpLook(before: OldLook, layout: MenuLayout, sp: Spacings): OldLook {
    before.(
      background := Some(Brown),
      alignment := StackCenter,
      axis := MainAxis(layout),
      distribution := if layout == Square then FillEqually else Fill,
      stackInView := true,
      topRowSpacing := sp.horizontal,
      bottomRowSpacing := sp.horizontal,
      contentGroups := before.contentGroups + [InsetsOf(sp)])
  }

  /** Unlike the newer menu, the older setup never spaces the main stack: a
      one-row menu keeps the main stack's spacing it had, and every setup
      adds a constraint group rather than replacing the last one. */
  lemma OldSetUpLookSpacing(before: OldLook, layout: MenuLayout, sp: Spacings)
    ensures var r := OldSetUpLook(before, layout, sp);
      && r.spacing == before.spacing
      && r.topRowSpacing == sp.horizontal && r.bottomRowSpacing == sp.horizontal
      && |r.contentGroups| == |before.contentGroups| + 1
      && r.contentGroups[|before.contentGroups|] == InsetsOf(sp)
    ensures var n := SetUpLook(InitialLook, Horizontal, true, sp);
      n.spacing == sp.horizontal && n.axis == AxisHorizontal
  {
  }

  /** The older menu takes pans on a top or bottom edge too, but its pan
      handler still bounds the constant by the menu's width: a menu taller
      than it is wide, starting anywhere in that range, is never pulled fully
      over its cell by pans alone, whereas `open()` covers it. */
  lemma {:induction false} PanCannotOpenTallMenu(edge: Direction, cell: Size, s: PanState, ds: seq<real>)
    requires !IsHorizontalEdge(edge)
    requires 0.0 <= cell.width < cell.height
    requires -cell.width <= s.offset <= 0.0
    ensures PanRun(s, ds, cell.width).offset != OpenOffset(edge, cell.width, cell.height)
    ensures CoveredLength(edge, cell, PanRun(s, ds, cell.width).offset) < cell.height
    ensures CoveredLength(edge, cell, OpenOffset(edge, cell.width, cell.height)) == cell.height
  {
    var final := PanRun(s, ds, cell.width).offset;
    PanRunStaysInRange(s, ds, cell.width);
    CoveredLengthIsMinusOffset(edge, cell, final);
    CoveredLengthIsMinusOffset(edge, cell, OpenOffset(edge, cell.width, cell.height));
  }

  class OldMenuView {
    const hasCell: bool
    const items: Option<seq<MenuItem>>
    const indexPath: Option<IndexPath>

    var swipeGesture: Option<Gesture>
    var recognizers: set<Recognizer>
    var direction: Direction
    var menuLayout: MenuLayout
    var menuOpen: bool
    var placement: Option<Direction>
    var offset: real
    var frame: Rect
    var inCell: bool
    /** The menu's own insets and spacings. */
    var spacings: Spacings
    var look: OldLook
    var stacks: Arrangement<MenuItem>
    var button: MenuButton

    ghost function ItemObjects(): set<MenuItem> {
      if items.Some? then set i | i in items.value else {}
    }

    function Items(): seq<MenuItem> {
      if items.Some? then items.value else []
    }

    ghost predicate Valid()
      reads this
    {
      && (hasCell <==> items.Some?)
      && (hasCell <==> indexPath.Some?)
      && (recognizers != {} ==> hasCell)
      && (placement.Some? ==> hasCell)
      && (menuOpen ==> placement.Some?)
      && (placement.None? ==> offset == 0.0)
      && frame.width >= 0.0 && frame.height >= 0.0
    }

    /** `init(frame:)` with a zero frame. */
    constructor Plain()
      ensures Valid()
      ensures !hasCell && items.None? && indexPath.None?
      ensures swipeGesture.None? && recognizers == {}
      ensures direction == Right && menuLayout == Square && !menuOpen
      ensures placement.None? && offset == 0.0 && !inCell && spacings == DefaultSpacings
      ensures look == InitialOldLook && stacks == Arrangement([], [], []) && button == MenuButton(false, None, 0.0, [])
    {
      hasCell, items, indexPath := false, None, None;
      swipeGesture, recognizers := None, {};
      direction, menuLayout, menuOpen := Right, Square, false;
      placement, offset, frame, inCell := None, 0.0, Rect(0.0, 0.0, 0.0, 0.0), false;
      spacings, look, stacks, button := DefaultSpacings, InitialOldLook, Arrangement([], [], []), MenuButton(false, None, 0.0, []);
    }

    /** `init(tableViewCell:items:gesture:indexPath:)` with a gesture: its
        observer runs while the edge is still right, so a swipe attaches both
        swipe recognizers and a pan the pan recognizer. */
    constructor (items: seq<MenuItem>, gesture: Gesture, indexPath: IndexPath)
      ensures Valid()
      ensures hasCell && this.items == Some(items) && this.indexPath == Some(indexPath)
      ensures swipeGesture == Some(gesture) && recognizers == OldAttachment(Some(gesture), Right).value
      ensures direction == Right && menuLayout == Square && !menuOpen
      ensures placement.None? && offset == 0.0 && !inCell && spacings == DefaultSpacings
      ensures look == InitialOldLook && stacks == Arrangement([], [], []) && button == MenuButton(true, None, 0.0, [])
    {
      hasCell, this.items, this.indexPath := true, Some(items), Some(indexPath);
      swipeGesture, recognizers := None, {};
      direction, menuLayout, menuOpen := Right, Square, false;
      placement, offset, frame, inCell := None, 0.0, Rect(0.0, 0.0, 0.0, 0.0), false;
      spacings, look, stacks, button := DefaultSpacings, InitialOldLook, Arrangement([], [], []), MenuButton(true, None, 0.0, []);
      new;
      var _ := SetSwipeGesture(Some(gesture));
    }

    /** The `swipeGesture` observer. */
    method SetSwipeGesture(g: Option<Gesture>) returns (outcome: Outcome)
      requires Valid()
      modifies this`swipeGesture, this`recognizers
      ensures Valid()
      ensures swipeGesture == g
      ensures outcome.Fatal? <==> hasCell && OldAttachment(g, direction).None?
      ensures outcome.Fatal? ==> outcome.message == (if g.None? then MissingGestureMessage else SidewaysGestureMessage)
      ensures outcome.Done? && hasCell ==> recognizers == old(recognizers) + OldAttachment(g, direction).value
      ensures !hasCell ==> recognizers == old(recognizers)
    {
      swipeGesture := g;
      if !hasCell {
        return Done;
      }
      var attached := OldAttachment(swipeGesture, direction);
      if attached.None? {
        if swipeGesture.None? {
          return Fatal(MissingGestureMessage);
        }
        return Fatal(SidewaysGestureMessage);
      }
      recognizers := recognizers + attached.value;
      outcome := Done;
    }

    /** `open()`: from the menu's own edge. */
    method Open()
      requires Valid()
      modifies this`menuOpen, this`offset
      ensures Valid()
      ensures placement.None? ==> menuOpen == old(menuOpen) && offset == old(offset)
      ensures placement.Some? ==> menuOpen && offset == OpenOffset(direction, frame.width, frame.height)
      ensures placement.Some? ==> -Extent(direction, Size(frame.width, frame.height)) == offset <= 0.0
    {
      if placement.None? {
        return;
      }
      menuOpen := true;
      if IsHorizontalEdge(direction) {
        offset := -frame.width;
      } else {
        offset := -frame.height;
      }
    }

    method Close()
      requires Valid()
      modifies this`menuOpen, this`offset
      ensures Valid()
      ensures placement.None? ==> menuOpen == old(menuOpen) && offset == old(offset)
      ensures placement.Some? ==> !menuOpen && offset == 0.0
    {
      if placement.None? {
        return;
      }
      menuOpen := false;
      offset := 0.0;
    }

    method MenuBtnPressed()
      requires Valid()
      modifies this`menuOpen, this`offset
      ensures Valid()
      ensures placement.None? ==> menuOpen == old(menuOpen) && offset == old(offset)
      ensures placement.Some? ==> menuOpen == !old(menuOpen)
      ensures placement.Some? ==> offset == (if menuOpen then OpenOffset(direction, frame.width, frame.height) else 0.0)
    {
      if menuOpen {
        Close();
      } else {
        Open();
      }
    }

    /** `handleGesture(gesture:)`: the same answers as the newer menu. */
    method HandleGesture(s: SwipeDirection)
      requires Valid()
      modifies this`menuOpen, this`offset
      ensures Valid()
      ensures SwipeAction(direction, s) == NoResponse || placement.None?
              ==> menuOpen == old(menuOpen) && offset == old(offset)
      ensures SwipeAction(direction, s) == OpenMenu && placement.Some?
              ==> menuOpen && offset == OpenOffset(direction, frame.width, frame.height)
      ensures SwipeAction(direction, s) == CloseMenu && placement.Some? ==> !menuOpen && offset == 0.0
    {
      match SwipeAction(direction, s)
      case OpenMenu => Open();
      case CloseMenu => Close();
      case NoResponse =>
    }

    /** `handlePan(gesture:)`: bounded by the width whatever the edge. */
    method HandlePan(translation: real) returns (remaining: real)
      requires Valid()
      modifies this`offset
      ensures Valid()
      ensures hasCell && placement.Some?
              ==> PanState(offset, remaining) == PanEvent(PanState(old(offset), 0.0), translation, frame.width)
      ensures !(hasCell && placement.Some?) ==> offset == old(offset) && remaining == translation
      ensures -frame.width <= old(offset) <= 0.0 ==> -frame.width <= offset <= 0.0
    {
      if !hasCell || placement.None? {
        return translation;
      }
      var newX := offset + translation;
      if newX >= -frame.width && newX <= 0.0 {
        offset := newX;
        remaining := 0.0;
      } else {
        remaining := translation;
      }
    }

    method LayoutPass(cell: Size)
      requires Valid()
      requires cell.width >= 0.0 && cell.height >= 0.0
      modifies this`frame
      ensures Valid()
      ensures placement.Some? ==> frame == MenuFrame(placement.value, cell, offset)
      ensures placement.None? ==> frame == old(frame)
    {
      if placement.Some? {
        frame := MenuFrame(placement.value, cell, offset);
      }
    }

    /** `setupContentMenuLayout`: axis, distribution and, for a square with
        more than one item, the two rows spaced by the menu's horizontal
        spacing. */
    method SetupContentMenuLayout()
      modifies this`look, this`stacks
      ensures stacks == SetUpRows(old(stacks), menuLayout, |Items()|)
      ensures var structured := old(look).(
          axis := MainAxis(menuLayout),
          distribution := if menuLayout == Square then FillEqually else Fill,
          stackInView := true);
        look == if SplitsIntoRows(menuLayout, |Items()|)
                then structured.(topRowSpacing := spacings.horizontal, bottomRowSpacing := spacings.horizontal)
                else structured
    {
      if menuLayout != Square {
        look := look.(distribution := Fill,
                      axis := if menuLayout == Horizontal then AxisHorizontal else AxisVertical,
                      stackInView := true);
      } else {
        look := look.(distribution := FillEqually, axis := AxisVertical, stackInView := true);
        if items.None? {
          return;
        }
        if |items.value| > 1 {
          stacks := stacks.(main := AddArranged(stacks.main, RowEntry(TopRow)));
          stacks := stacks.(main := AddArranged(stacks.main, RowEntry(BottomRow)));
          SetupContentHorizontalSpacing();
        }
      }
    }

    /** `setupContentSpacing`: one more group of six active constraints with
        the menu's own insets. */
    method SetupContentSpacing()
      modifies this`look
      ensures look == old(look).(contentGroups := old(look).contentGroups + [InsetsOf(spacings)])
    {
      look := look.(contentGroups := look.contentGroups + [InsetsOf(spacings)]);
    }

    /** `setupContentHorizontalSpacing`: the two rows only. */
    method SetupContentHorizontalSpacing()
      modifies this`look
      ensures look == old(look).(topRowSpacing := spacings.horizontal, bottomRowSpacing := spacings.horizontal)
    {
      look := look.(topRowSpacing := spacings.horizontal, bottomRowSpacing := spacings.horizontal);
    }

    /** `setupContentVerticalSpacing`: the main stack, whatever the layout. */
    method SetupContentVerticalSpacing()
      modifies this`look
      ensures look == old(look).(spacing := spacings.vertical)
    {
      look := look.(spacing := spacings.vertical);
    }

    /** `setupMenuItems`. */
    method SetupMenuItems()
      modifies this`stacks, this`inCell, ItemObjects()`labelFont, ItemObjects()`titleColor,
        ItemObjects()`labelTextColor, ItemObjects()`iconSizeConstraints, ItemObjects()`arranged
      ensures stacks == SetUpItems(old(stacks), menuLayout, Items())
      ensures inCell == (old(inCell) || items.Some?)
      ensures forall i :: 0 <= i < |Items()| ==> Items()[i].LaidOut()
    {
      if items.None? {
        return;
      }
      if SplitsIntoRows(menuLayout, |items.value|) {
        AppendToRows(items.value);
      } else {
        AppendToStack(items.value);
      }
      inCell := true;
    }

    /** `setupMenuItemLayout` on `its[k]`, the items before it staying laid out. */
    method LayOutItem(its: seq<MenuItem>, k: nat)
      requires k < |its| && its[k] in ItemObjects()
      requires forall j :: 0 <= j < k ==> its[j].LaidOut()
      modifies {its[k]}`labelFont, {its[k]}`titleColor, {its[k]}`labelTextColor, {its[k]}`iconSizeConstraints, {its[k]}`arranged
      ensures forall j :: 0 <= j <= k ==> its[j].LaidOut()
    {
      its[k].SetupLayout();
    }

    /** `addArrangedSubview(its[k])` on the target stack, as step k of a
        setup loop that started from the stacks `a`. */
    method ArrangeItem(target: Target, its: seq<MenuItem>, k: nat, ghost a: Arrangement<MenuItem>)
      requires k < |its|
      modifies this`stacks
      ensures stacks == AddItem(old(stacks), target, its[k])
      ensures old(stacks) == AddAllToMain(a, its[..k]) && target == IntoMain ==>
        stacks == AddAllToMain(a, its[..k + 1])
      ensures old(stacks) == AddAllToRows(a, its[..k]) && target == IntoRow(RowFor(k)) ==>
        stacks == AddAllToRows(a, its[..k + 1])
    {
      AddAllAppend(a, its[..k], its[k]);
      assert its[..k + 1] == its[..k] + [its[k]];
      stacks := AddItem(stacks, target, its[k]);
    }

    method AppendToStack(its: seq<MenuItem>)
      requires forall it :: it in its ==> it in ItemObjects()
      modifies this`stacks, ItemObjects()`labelFont, ItemObjects()`titleColor,
        ItemObjects()`labelTextColor, ItemObjects()`iconSizeConstraints, ItemObjects()`arranged
      ensures stacks == AddAllToMain(old(stacks), its)
      ensures forall i :: 0 <= i < |its| ==> its[i].LaidOut()
    {
      var k := 0;
      ghost var a := stacks;
      while k < |its|
        invariant 0 <= k <= |its|
        invariant stacks == AddAllToMain(a, its[..k])
        invariant forall j :: 0 <= j < k ==> its[j].LaidOut()
      {
        LayOutItem(its, k);
        ArrangeItem(IntoMain, its, k, a);
        k := k + 1;
      }
      assert its[..|its|] == its;
    }

    method AppendToRows(its: seq<MenuItem>)
      requires forall it :: it in its ==> it in ItemObjects()
      modifies this`stacks, ItemObjects()`labelFont, ItemObjects()`titleColor,
        ItemObjects()`labelTextColor, ItemObjects()`iconSizeConstraints, ItemObjects()`arranged
      ensures stacks == AddAllToRows(old(stacks), its)
      ensures forall i :: 0 <= i < |its| ==> its[i].LaidOut()
    {
      var k := 0;
      ghost var a := stacks;
      while k < |its|
        invariant 0 <= k <= |its|
        invariant stacks == AddAllToRows(a, its[..k])
        invariant forall j :: 0 <= j < k ==> its[j].LaidOut()
      {
        LayOutItem(its, k);
        ArrangeItem(IntoRow(RowFor(k)), its, k, a);
        k := k + 1;
      }
      assert its[..|its|] == its;
    }

    /** `setupLayoutDirection` with `showLeftMenu` and its siblings: with a
        cell, the items and then a placement constraint on the menu's edge. */
    method SetupLayoutDirection()
      requires Valid()
      modifies this`stacks, this`inCell, this`placement, this`offset, ItemObjects()`labelFont, ItemObjects()`titleColor,
        ItemObjects()`labelTextColor, ItemObjects()`iconSizeConstraints, ItemObjects()`arranged
      ensures Valid()
      ensures stacks == SetUpItems(old(stacks), menuLayout, Items())
      ensures inCell == (old(inCell) || hasCell)
      ensures forall i :: 0 <= i < |Items()| ==> Items()[i].LaidOut()
      ensures hasCell ==> placement == Some(direction) && offset == 0.0
      ensures !hasCell ==> placement == old(placement) && offset == old(offset)
    {
      if !hasCell {
        return;
      }
      SetupMenuItems();
      placement := Some(direction);
      offset := 0.0;
    }

    /** `setupMenuIconPosition`. */
    method SetupMenuIconPosition(answers: Option<DelegateAnswers>)
      modifies this`button
      ensures button == OldButtonWithIcon(old(button), answers)
    {
      if answers.None? || !answers.value.showIcon {
        return;
      }
      var anchor := OldIconAnchorFor(answers.value.iconPosition);
      SetMenuIcon(anchor.image);
      button := button.(imageInset := 5.0, anchors := button.anchors + [anchor]);
    }

    /** `setupUI`: the older counterpart of `setupMenuLayout`. */
    method SetupUI(delegate: Option<IndexPath -> DelegateAnswers>) returns (outcome: Outcome)
      requires Valid()
      modifies this`look, this`stacks, this`menuLayout, this`direction
      modifies this`inCell, this`placement, this`offset, this`button, ItemObjects()`labelFont, ItemObjects()`titleColor,
        ItemObjects()`labelTextColor, ItemObjects()`iconSizeConstraints, ItemObjects()`arranged
      ensures Valid()
      ensures outcome.Fatal? <==> delegate.Some? && indexPath.None?
      ensures outcome.Fatal? ==> outcome.message == NilUnwrapMessage
      ensures outcome.Done? ==>
        var answers := AnswersFor(delegate, indexPath);
        && menuLayout == (if answers.Some? then answers.value.layout else old(menuLayout))
        && direction == (if answers.Some? then answers.value.direction else old(direction))
        && look == OldSetUpLook(old(look), menuLayout, spacings)
        && stacks == SetUpStacks(old(stacks), menuLayout, Items())
        && (forall i :: 0 <= i < |Items()| ==> Items()[i].LaidOut())
        && inCell == (old(inCell) || hasCell)
        && (hasCell ==> placement == Some(direction) && offset == 0.0)
        && (!hasCell ==> placement == old(placement) && offset == old(offset))
        && button == OldButtonWithIcon(old(button), answers)
    {
      if delegate.Some? && indexPath.None? {
        return Fatal(NilUnwrapMessage);
      }
      var answers := AnswersFor(delegate, indexPath);
      SetupContent(answers);
      SetupPlacement(answers);
      outcome := Done;
    }

    /** The first half of `setupUI`: the look and the rows. */
    method SetupContent(answers: Option<DelegateAnswers>)
      modifies this`look, this`stacks, this`menuLayout
      ensures menuLayout == (if answers.Some? then answers.value.layout else old(menuLayout))
      ensures look == OldSetUpLook(old(look), menuLayout, spacings)
      ensures stacks == SetUpRows(old(stacks), menuLayout, |Items()|)
    {
      look := look.(background := Some(Brown), alignment := StackCenter);
      if answers.Some? {
        menuLayout := answers.value.layout;
      }
      SetupContentMenuLayout();
      SetupContentSpacing();
      SetupContentHorizontalSpacing();
    }

    /** The second half of `setupUI`: the edge, the items, the placement and
        the icon. */
    method SetupPlacement(answers: Option<DelegateAnswers>)
      requires Valid()
      modifies this`direction, this`stacks, this`inCell, this`placement, this`offset, this`button, ItemObjects()`labelFont, ItemObjects()`titleColor,
        ItemObjects()`labelTextColor, ItemObjects()`iconSizeConstraints, ItemObjects()`arranged
      ensures Valid()
      ensures direction == (if answers.Some? then answers.value.direction else old(direction))
      ensures stacks == SetUpItems(old(stacks), menuLayout, Items())
      ensures forall i :: 0 <= i < |Items()| ==> Items()[i].LaidOut()
      ensures inCell == (old(inCell) || hasCell)
      ensures hasCell ==> placement == Some(direction) && offset == 0.0
      ensures !hasCell ==> placement == old(placement) && offset == old(offset)
      ensures button == OldButtonWithIcon(old(button), answers)
    {
      if answers.Some? {
        direction := answers.value.direction;
      }
      SetupLayoutDirection();
      SetupMenuIconPosition(answers);
    }

    method SetMenuContentAlignment(a: OldContentAlignment)
      modifies this`look
      ensures look == old(look).(alignment := StackAlignmentFor(a))
    {
      look := look.(alignment := StackAlignmentFor(a));
    }

    method SetMenuIcon(name: string)
      modifies this`button
      ensures button == old(button).(image := Some(name))
    {
      button := button.(image := Some(name));
    }

    method SetBackgroundColor(c: Color)
      modifies this`look
      ensures look == old(look).(background := Some(c))
    {
      look := look.(background := Some(c));
    }

    /** `setMenuContentInset`: this menu's insets, and one more constraint
        group carrying them. */
    method SetMenuContentInset(top: real, left: real, bottom: real, right: real)
      modifies this`spacings, this`look
      ensures spacings == old(spacings).(top := top, left := left, bottom := bottom, right := right)
      ensures look == old(look).(contentGroups := old(look).contentGroups + [Insets(top, left, bottom, right)])
    {
      spacings := spacings.(top := top, bottom := bottom, left := left, right := right);
      SetupContentSpacing();
    }

    method SetMenuItemSpacingVertical(vertical: real)
      modifies this`spacings, this`look
      ensures spacings == old(spacings).(vertical := vertical)
      ensures look == old(look).(spacing := vertical)
    {
      spacings := spacings.(vertical := vertical);
      SetupContentVerticalSpacing();
    }

    method SetMenuItemSpacingHorizontal(horizontal: real)
      modifies this`spacings, this`look
      ensures spacings == old(spacings).(horizontal := horizontal)
      ensures look == old(look).(topRowSpacing := horizontal, bottomRowSpacing := horizontal)
    {
      spacings := spacings.(horizontal := horizontal);
      SetupContentHorizontalSpacing();
    }
  }
}
