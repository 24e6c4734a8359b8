/** The pure rules both menu classes follow: where the menu sits for a given
    constraint constant, how far open is "open", how swipes and pans move it,
    how items are split into rows, which alignment constraints are active,
    where spacing goes and where the toggle icon is pinned. */
module MenuRules {
  import opened MenuTypes

  predicate IsHorizontalEdge(d: Direction) {
    d == Left || d == Right
  }

  /** The menu's extent along the axis it slides on. */
  function Extent(edge: Direction, size: Size): real {
    if IsHorizontalEdge(edge) then size.width else size.height
  }

  /** The constant `open` gives the placement constraint: minus the menu's
      width for a side edge, minus its height for a top or bottom edge. */
  function OpenOffset(edge: Direction, width: real, height: real): real {
    if IsHorizontalEdge(edge) then -width else -height
  }

  // ---------------------------------------------------------------------------
  // Edge geometry

  /** The menu's frame in the cell's coordinates when its placement constraint
      has constant `offset`. The menu always has the cell's size: a side menu
      is as wide as the cell and pinned to its top and bottom, a top or bottom
      menu is as high as the cell and pinned to its leading and trailing edges.
      The four cases are the four constraints the menu creates for its edge. */
  function MenuFrame(edge: Direction, cell: Size, offset: real): Rect {
    match edge
    // menu.leading == cell.trailing + offset
    case Right => Rect(cell.width + offset, 0.0, cell.width, cell.height)
    // cell.leading == menu.trailing + offset
    case Left => Rect(-offset - cell.width, 0.0, cell.width, cell.height)
    // menu.top == cell.bottom + offset
    case Bottom => Rect(0.0, cell.height + offset, cell.width, cell.height)
    // cell.top == menu.bottom + offset
    case Top => Rect(0.0, -offset - cell.height, cell.width, cell.height)
  }

  function Max(a: real, b: real): real { if a < b then b else a }
  function Min(a: real, b: real): real { if a < b then a else b }

  /** Length of the intersection of [a, a + la] and [b, b + lb]. */
  function OverlapLength(a: real, la: real, b: real, lb: real): real {
    var lo := Max(a, b);
    var hi := Min(a + la, b + lb);
    if lo < hi then hi - lo else 0.0
  }

  /** How much of the cell the menu covers along its sliding axis. */
  function CoveredLength(edge: Direction, cell: Size, offset: real): real {
    var f := MenuFrame(edge, cell, offset);
    if IsHorizontalEdge(edge) then OverlapLength(f.x, f.width, 0.0, cell.width)
    else OverlapLength(f.y, f.height, 0.0, cell.height)
  }

  /** Between closed and open the menu covers exactly `-offset` of the cell. */
  lemma CoveredLengthIsMinusOffset(edge: Direction, cell: Size, offset: real)
    requires cell.width >= 0.0 && cell.height >= 0.0
    requires -Extent(edge, cell) <= offset <= 0.0
    ensures CoveredLength(edge, cell, offset) == -offset
  {
  }

  /** Offset 0 puts the menu just outside the cell, touching the cell's edge. */
  lemma ClosedMenuTouchesEdgeFromOutside(edge: Direction, cell: Size)
    requires cell.width >= 0.0 && cell.height >= 0.0
    ensures CoveredLength(edge, cell, 0.0) == 0.0
    ensures var f := MenuFrame(edge, cell, 0.0);
      match edge
      case Right => f.x == cell.width
      case Left => f.x + f.width == 0.0
      case Bottom => f.y == cell.height
      case Top => f.y + f.height == 0.0
  {
    CoveredLengthIsMinusOffset(edge, cell, 0.0);
  }

  /** The open offset puts the menu exactly over the cell. */
  lemma OpenMenuCoversCell(edge: Direction, cell: Size)
    ensures MenuFrame(edge, cell, OpenOffset(edge, cell.width, cell.height))
         == Rect(0.0, 0.0, cell.width, cell.height)
  {
  }

  // ---------------------------------------------------------------------------
  // Swipes

  /** The swipe that follows the menu as it opens: a menu entering from the
      right moves leftwards, and so on. */
  function EntrySwipe(edge: Direction): SwipeDirection {
    match edge
    case Right => SwipeLeft
    case Left => SwipeRight
    case Bottom => SwipeUp
    case Top => SwipeDown
  }

  function OppositeSwipe(s: SwipeDirection): SwipeDirection {
    match s
    case SwipeLeft => SwipeRight
    case SwipeRight => SwipeLeft
    case SwipeUp => SwipeDown
    case SwipeDown => SwipeUp
  }

  /** `Moves(s, a, b)`: going from frame `a` to frame `b` is a motion in
      direction `s`. */
  predicate Moves(s: SwipeDirection, a: Rect, b: Rect) {
    match s
    case SwipeLeft => b.x < a.x && b.y == a.y
    case SwipeRight => b.x > a.x && b.y == a.y
    case SwipeUp => b.y < a.y && b.x == a.x
    case SwipeDown => b.y > a.y && b.x == a.x
  }

  /** Opening (lowering the offset) moves the menu in its entry direction. */
  lemma OpeningMovesAlongEntrySwipe(edge: Direction, cell: Size, more: real, less: real)
    requires more < less
    ensures Moves(EntrySwipe(edge), MenuFrame(edge, cell, less), MenuFrame(edge, cell, more))
  {
  }

  datatype SwipeResponse = OpenMenu | CloseMenu | NoResponse

  /** What a swipe does to a menu on `edge` (both menu classes). */
  function SwipeAction(edge: Direction, s: SwipeDirection): (r: SwipeResponse)
    ensures r == OpenMenu <==> IsHorizontalEdge(edge) && s == EntrySwipe(edge)
    ensures r == CloseMenu <==> IsHorizontalEdge(edge) && s == OppositeSwipe(EntrySwipe(edge))
  {
    match edge
    case Left =>
      (match s
       case SwipeRight => OpenMenu
       case SwipeLeft => CloseMenu
       case _ => NoResponse)
    case Right =>
      (match s
       case SwipeLeft => OpenMenu
       case SwipeRight => CloseMenu
       case _ => NoResponse)
    case _ => NoResponse
  }

  // ---------------------------------------------------------------------------
  // Pans

  /** One pan callback: the offset it commits, or None when `offset + tx`
      leaves [-width, 0]. */
  function PanStep(offset: real, tx: real, width: real): Option<real> {
    var newX := offset + tx;
    if -width <= newX && newX <= 0.0 then Some(newX) else None
  }

  /** The placement constant and the horizontal translation the recognizer
      still reports. */
  datatype PanState = PanState(offset: real, pending: real)

  /** One callback after the finger moved `d` further: the recognizer's
      translation grows by `d`; a committed step resets it to zero, a rejected
      one leaves it to accumulate. */
  function PanEvent(s: PanState, d: real, width: real): PanState {
    var t := s.pending + d;
    match PanStep(s.offset, t, width)
    case Some(x) => PanState(x, 0.0)
    case None => PanState(s.offset, t)
  }

  function PanRun(s: PanState, ds: seq<real>, width: real): PanState
    decreases |ds|
  {
    if ds == [] then s else PanRun(PanEvent(s, ds[0], width), ds[1..], width)
  }

  function Sum(ds: seq<real>): real
    decreases |ds|
  {
    if ds == [] then 0.0 else ds[0] + Sum(ds[1..])
  }

  /** A single callback keeps the offset in [-width, 0] once it is there. */
  lemma PanEventStaysInRange(s: PanState, d: real, width: real)
    requires -width <= s.offset <= 0.0
    ensures -width <= PanEvent(s, d, width).offset <= 0.0
  {
  }

  /** However many callbacks arrive, the offset never leaves [-width, 0]. */
  lemma {:induction false} PanRunStaysInRange(s: PanState, ds: seq<real>, width: real)
    requires -width <= s.offset <= 0.0
    ensures -width <= PanRun(s, ds, width).offset <= 0.0
    decreases |ds|
  {
    if ds != [] {
      PanEventStaysInRange(s, ds[0], width);
      PanRunStaysInRange(PanEvent(s, ds[0], width), ds[1..], width);
    }
  }

  /** No finger movement is lost: what was not committed to the offset is
      still pending in the recognizer's translation. */
  lemma {:induction false} PanRunConservesMovement(s: PanState, ds: seq<real>, width: real)
    ensures PanRun(s, ds, width).offset + PanRun(s, ds, width).pending
         == s.offset + s.pending + Sum(ds)
    decreases |ds|
  {
    if ds != [] {
      PanRunConservesMovement(PanEvent(s, ds[0], width), ds[1..], width);
    }
  }

  // ---------------------------------------------------------------------------
  // Square layout: splitting items into two rows by index parity

  /** The items at even indices, in order. */
  function EvenIndexed<T>(s: seq<T>): seq<T>
    decreases |s|
  {
    if s == [] then [] else [s[0]] + OddIndexed(s[1..])
  }

  /** The items at odd indices, in order. */
  function OddIndexed<T>(s: seq<T>): seq<T>
    decreases |s|
  {
    if s == [] then [] else EvenIndexed(s[1..])
  }

  /** Adding one item at index |s| extends the row its parity selects. */
  lemma {:induction false} ParityRowsAppend<T>(s: seq<T>, x: T)
    ensures EvenIndexed(s + [x]) == EvenIndexed(s) + (if |s| % 2 == 0 then [x] else [])
    ensures OddIndexed(s + [x]) == OddIndexed(s) + (if |s| % 2 == 1 then [x] else [])
    decreases |s|
  {
    if s == [] {
      assert s + [x] == [x];
      assert [x][1..] == [];
    } else {
      assert (s + [x])[1..] == s[1..] + [x];
      ParityRowsAppend(s[1..], x);
    }
  }

  /** The two rows hold every item exactly once. */
  lemma {:induction false} ParityRowsPartition<T>(s: seq<T>)
    ensures multiset(EvenIndexed(s)) + multiset(OddIndexed(s)) == multiset(s)
    ensures |EvenIndexed(s)| == (|s| + 1) / 2 && |OddIndexed(s)| == |s| / 2
    decreases |s|
  {
    if s != [] {
      ParityRowsPartition(s[1..]);
      assert s == [s[0]] + s[1..];
    }
  }

  /** The item at position i of a row is the one at index 2i or 2i + 1. */
  lemma {:induction false} ParityRowsAt<T>(s: seq<T>, i: nat)
    ensures i < |EvenIndexed(s)| ==> 2 * i < |s| && EvenIndexed(s)[i] == s[2 * i]
    ensures i < |OddIndexed(s)| ==> 2 * i + 1 < |s| && OddIndexed(s)[i] == s[2 * i + 1]
    decreases |s|
  {
    if s != [] {
      ParityRowsPartition(s);
      ParityRowsPartition(s[1..]);
      if i > 0 {
        ParityRowsAt(s[1..], i - 1);
      }
      ParityRowsAt(s[1..], i);
    }
  }

  /** Reading two rows column by column: a[0], b[0], a[1], b[1], ... */
  function Interleave<T>(a: seq<T>, b: seq<T>): seq<T>
    decreases |a| + |b|
  {
    if a == [] then b else [a[0]] + Interleave(b, a[1..])
  }

  /** Reading the square grid column by column gives back the input order. */
  lemma {:induction false} InterleaveParityRows<T>(s: seq<T>)
    ensures Interleave(EvenIndexed(s), OddIndexed(s)) == s
    decreases |s|
  {
    if s != [] {
      InterleaveParityRows(s[1..]);
      assert EvenIndexed(s)[1..] == OddIndexed(s[1..]);
    }
  }

  // ---------------------------------------------------------------------------
  // Stack views: `addArrangedSubview` puts a view last in the stack, taking it
  // out of wherever it was arranged before (its own stack included)

  /** `s` without any occurrence of `v`. */
  function Without<T(==)>(s: seq<T>, v: T): seq<T>
    decreases |s|
  {
    if s == [] then [] else (if s[0] == v then [] else [s[0]]) + Without(s[1..], v)
  }

  /** Removal takes out every occurrence of `v` and keeps exactly the other views. */
  lemma {:induction false} WithoutKeepsOthers<T>(s: seq<T>, v: T)
    ensures v !in Without(s, v)
    ensures forall i :: 0 <= i < |Without(s, v)| ==> Without(s, v)[i] in s && Without(s, v)[i] != v
    ensures forall i :: 0 <= i < |s| && s[i] != v ==> s[i] in Without(s, v)
    decreases |s|
  {
    if s != [] {
      WithoutKeepsOthers(s[1..], v);
      var head := if s[0] == v then [] else [s[0]];
      assert Without(s, v) == head + Without(s[1..], v);
      forall i | 0 <= i < |s| && s[i] != v ensures s[i] in Without(s, v) {
        if i > 0 {
          assert s[i] == s[1..][i - 1];
        }
      }
    }
  }

  /** `addArrangedSubview` on one stack: a view already arranged moves to the end. */
  function AddArranged<T(==)>(s: seq<T>, v: T): seq<T> {
    Without(s, v) + [v]
  }

  lemma {:induction false} WithoutAppend<T>(a: seq<T>, b: seq<T>, v: T)
    ensures Without(a + b, v) == Without(a, v) + Without(b, v)
    decreases |a|
  {
    if a == [] {
      assert a + b == b;
    } else {
      assert (a + b)[1..] == a[1..] + b;
      WithoutAppend(a[1..], b, v);
    }
  }

  lemma {:induction false} WithoutAbsent<T>(s: seq<T>, v: T)
    requires v !in s
    ensures Without(s, v) == s
    decreases |s|
  {
    if s != [] {
      WithoutAbsent(s[1..], v);
    }
  }

  /** The entries of `s` that are not in `p`, in order. */
  function Drop<T(==)>(s: seq<T>, p: seq<T>): seq<T>
    decreases |s|
  {
    if s == [] then [] else (if s[0] in p then [] else [s[0]]) + Drop(s[1..], p)
  }

  lemma {:induction false} DropAppend<T>(a: seq<T>, b: seq<T>, p: seq<T>)
    ensures Drop(a + b, p) == Drop(a, p) + Drop(b, p)
    decreases |a|
  {
    if a == [] {
      assert a + b == b;
    } else {
      assert (a + b)[1..] == a[1..] + b;
      DropAppend(a[1..], b, p);
    }
  }

  /** Taking out the views of `p` and then those of `q` takes out those of `p + q`. */
  lemma {:induction false} DropDrop<T>(s: seq<T>, p: seq<T>, q: seq<T>)
    ensures Drop(Drop(s, p), q) == Drop(s, p + q)
    decreases |s|
  {
    if s != [] {
      DropDrop(s[1..], p, q);
      var head := if s[0] in p then [] else [s[0]];
      DropAppend(head, Drop(s[1..], p), q);
      assert head != [] ==> head[1..] == [];
    }
  }

  lemma {:induction false} DropTwice<T>(s: seq<T>, p: seq<T>)
    ensures Drop(Drop(s, p), p) == Drop(s, p)
    decreases |s|
  {
    if s != [] {
      DropTwice(s[1..], p);
      var head := if s[0] in p then [] else [s[0]];
      DropAppend(head, Drop(s[1..], p), p);
      assert head != [] ==> head[1..] == [];
    }
  }

  lemma {:induction false} DropNone<T>(s: seq<T>, p: seq<T>)
    requires forall i :: 0 <= i < |s| ==> s[i] !in p
    ensures Drop(s, p) == s
    decreases |s|
  {
    if s != [] {
      DropNone(s[1..], p);
    }
  }

  lemma {:induction false} DropAll<T>(s: seq<T>, p: seq<T>)
    requires forall i :: 0 <= i < |s| ==> s[i] in p
    ensures Drop(s, p) == []
    decreases |s|
  {
    if s != [] {
      DropAll(s[1..], p);
    }
  }

  /** Taking out `x` after the views of `p` takes out the views of `p + [x]`. */
  lemma {:induction false} WithoutAfterDrop<T>(s: seq<T>, p: seq<T>, x: T)
    ensures Without(Drop(s, p), x) == Drop(s, p + [x])
    decreases |s|
  {
    if s != [] {
      WithoutAfterDrop(s[1..], p, x);
      var head := if s[0] in p then [] else [s[0]];
      WithoutAppend(head, Drop(s[1..], p), x);
      assert head != [] ==> head[1..] == [];
    }
  }

  /** No view occurs twice in `s`. */
  predicate Distinct<T(==)>(s: seq<T>) {
    forall i, j :: 0 <= i < j < |s| ==> s[i] != s[j]
  }

  datatype Row = TopRow | BottomRow

  /** An arranged subview of the main stack: an item or one of the two rows. */
  datatype StackEntry<T> = ItemEntry(item: T) | RowEntry(row: Row)

  /** Main stack and the two rows after the items have been placed. */
  datatype Arrangement<T> = Arrangement(main: seq<StackEntry<T>>, top: seq<T>, bottom: seq<T>)

  /** The square layout splits into rows only with more than one item. */
  predicate SplitsIntoRows(layout: MenuLayout, count: nat) {
    layout == Square && count > 1
  }

  function AsEntries<T>(items: seq<T>): seq<StackEntry<T>>
    decreases |items|
  {
    if items == [] then [] else [ItemEntry(items[0])] + AsEntries(items[1..])
  }

  /** The items among the entries, in order. */
  function EntryItems<T>(entries: seq<StackEntry<T>>): seq<T>
    decreases |entries|
  {
    if entries == [] then []
    else (if entries[0].ItemEntry? then [entries[0].item] else []) + EntryItems(entries[1..])
  }

  lemma {:induction false} EntryItemsOfEntries<T>(items: seq<T>)
    ensures EntryItems(AsEntries(items)) == items
    decreases |items|
  {
    if items != [] {
      EntryItemsOfEntries(items[1..]);
    }
  }

  lemma {:induction false} AsEntriesAppend<T>(items: seq<T>, x: T)
    ensures AsEntries(items + [x]) == AsEntries(items) + [ItemEntry(x)]
    decreases |items|
  {
    if items == [] {
      assert items + [x] == [x];
    } else {
      assert (items + [x])[1..] == items[1..] + [x];
      AsEntriesAppend(items[1..], x);
    }
  }

  /** Where the main stack and the rows put the items for a layout (what the
      two setup steps together append). */
  function Arrange<T>(layout: MenuLayout, items: seq<T>): Arrangement<T> {
    if SplitsIntoRows(layout, |items|) then
      Arrangement([RowEntry(TopRow), RowEntry(BottomRow)], EvenIndexed(items), OddIndexed(items))
    else
      Arrangement(AsEntries(items), [], [])
  }

  /** Each stack of `a` followed by what `b` appends to it. */
  function Extend<T>(a: Arrangement<T>, b: Arrangement<T>): Arrangement<T> {
    Arrangement(a.main + b.main, a.top + b.top, a.bottom + b.bottom)
  }

  /** The stack an item is added to. */
  datatype Target = IntoMain | IntoRow(row: Row)

  /** `a` with item `x` taken out of every stack. */
  function Unarrange<T(==)>(a: Arrangement<T>, x: T): Arrangement<T> {
    Arrangement(Without(a.main, ItemEntry(x)), Without(a.top, x), Without(a.bottom, x))
  }

  /** `addArrangedSubview(x)` on one of the menu's stacks. */
  function AddItem<T(==)>(a: Arrangement<T>, target: Target, x: T): Arrangement<T> {
    var b := Unarrange(a, x);
    match target
    case IntoMain => b.(main := b.main + [ItemEntry(x)])
    case IntoRow(TopRow) => b.(top := b.top + [x])
    case IntoRow(BottomRow) => b.(bottom := b.bottom + [x])
  }

  /** After `addArrangedSubview(x)`, `x` is last in the target stack and in
      no other stack. */
  lemma {:induction false} AddItemPlaces<T>(a: Arrangement<T>, target: Target, x: T)
    ensures ItemEntry(x) in AddItem(a, target, x).main <==> target == IntoMain
    ensures x in AddItem(a, target, x).top <==> target == IntoRow(TopRow)
    ensures x in AddItem(a, target, x).bottom <==> target == IntoRow(BottomRow)
    ensures target == IntoMain ==> Last(AddItem(a, target, x).main) == ItemEntry(x)
    ensures target == IntoRow(TopRow) ==> Last(AddItem(a, target, x).top) == x
    ensures target == IntoRow(BottomRow) ==> Last(AddItem(a, target, x).bottom) == x
  {
    WithoutKeepsOthers(a.main, ItemEntry(x));
    WithoutKeepsOthers(a.top, x);
    WithoutKeepsOthers(a.bottom, x);
  }

  function Last<T>(s: seq<T>): T
    requires s != []
  {
    s[|s| - 1]
  }

  /** The row a square item joins: the top one at an even index. */
  function RowFor(index: nat): Row {
    if index % 2 == 0 then TopRow else BottomRow
  }

  /** The single-stack loop of `setupMenuItems`: each item in turn is added
      to the main stack. */
  function AddAllToMain<T(==)>(a: Arrangement<T>, items: seq<T>): Arrangement<T>
    decreases |items|
  {
    if items == [] then a
    else AddItem(AddAllToMain(a, items[..|items| - 1]), IntoMain, items[|items| - 1])
  }

  /** The square loop of `setupMenuItems`: each item in turn is added to the
      row its index selects. */
  function AddAllToRows<T(==)>(a: Arrangement<T>, items: seq<T>): Arrangement<T>
    decreases |items|
  {
    if items == [] then a
    else AddItem(AddAllToRows(a, items[..|items| - 1]), IntoRow(RowFor(|items| - 1)), items[|items| - 1])
  }

  /** The loops' step: one more item is one more `addArrangedSubview`. */
  lemma {:induction false} AddAllAppend<T>(a: Arrangement<T>, items: seq<T>, x: T)
    ensures AddAllToMain(a, items + [x]) == AddItem(AddAllToMain(a, items), IntoMain, x)
    ensures AddAllToRows(a, items + [x]) == AddItem(AddAllToRows(a, items), IntoRow(RowFor(|items|)), x)
  {
    assert (items + [x])[..|items|] == items;
  }

  /** The first setup step: the two rows go into the main stack, for a square
      layout with more than one item. */
  function SetUpRows<T(==)>(a: Arrangement<T>, layout: MenuLayout, count: nat): Arrangement<T> {
    if SplitsIntoRows(layout, count) then
      a.(main := AddArranged(AddArranged(a.main, RowEntry(TopRow)), RowEntry(BottomRow)))
    else a
  }

  /** The second setup step: the items, into the rows when the layout
      splits, else into the main stack. */
  function SetUpItems<T(==)>(a: Arrangement<T>, layout: MenuLayout, items: seq<T>): Arrangement<T> {
    if SplitsIntoRows(layout, |items|) then AddAllToRows(a, items) else AddAllToMain(a, items)
  }

  /** Both steps, as one setup run performs them. */
  function SetUpStacks<T(==)>(a: Arrangement<T>, layout: MenuLayout, items: seq<T>): Arrangement<T> {
    SetUpItems(SetUpRows(a, layout, |items|), layout, items)
  }

  /** The views a setup run arranges in the main stack. */
  function SetUpViews<T>(layout: MenuLayout, items: seq<T>): seq<StackEntry<T>> {
    (if SplitsIntoRows(layout, |items|) then [RowEntry(TopRow), RowEntry(BottomRow)] else []) + AsEntries(items)
  }

  /** What is left of `a` once a setup run has taken its own views out. */
  function Cleared<T(==)>(a: Arrangement<T>, layout: MenuLayout, items: seq<T>): Arrangement<T> {
    Arrangement(Drop(a.main, SetUpViews(layout, items)), Drop(a.top, items), Drop(a.bottom, items))
  }

  /** `a` without the items of `p` anywhere. */
  function Strip<T(==)>(a: Arrangement<T>, p: seq<T>): Arrangement<T> {
    Arrangement(Drop(a.main, AsEntries(p)), Drop(a.top, p), Drop(a.bottom, p))
  }

  /** Entry i of `AsEntries(items)` is item i. */
  lemma {:induction false} AsEntriesAt<T>(items: seq<T>)
    ensures |AsEntries(items)| == |items|
    ensures forall i :: 0 <= i < |items| ==> AsEntries(items)[i] == ItemEntry(items[i])
    decreases |items|
  {
    if items != [] {
      AsEntriesAt(items[1..]);
    }
  }

  lemma {:induction false} UnarrangeExtend<T>(a: Arrangement<T>, b: Arrangement<T>, x: T)
    ensures Unarrange(Extend(a, b), x) == Extend(Unarrange(a, x), Unarrange(b, x))
  {
    WithoutAppend(a.main, b.main, ItemEntry(x));
    WithoutAppend(a.top, b.top, x);
    WithoutAppend(a.bottom, b.bottom, x);
  }

  lemma {:induction false} StripExtend<T>(a: Arrangement<T>, b: Arrangement<T>, p: seq<T>)
    ensures Strip(Extend(a, b), p) == Extend(Strip(a, p), Strip(b, p))
  {
    DropAppend(a.main, b.main, AsEntries(p));
    DropAppend(a.top, b.top, p);
    DropAppend(a.bottom, b.bottom, p);
  }

  /** Taking item `x` out after those of `p` takes out those of `p + [x]`. */
  lemma {:induction false} UnarrangeStrip<T>(a: Arrangement<T>, p: seq<T>, x: T)
    ensures Unarrange(Strip(a, p), x) == Strip(a, p + [x])
  {
    WithoutAfterDrop(a.main, AsEntries(p), ItemEntry(x));
    WithoutAfterDrop(a.top, p, x);
    WithoutAfterDrop(a.bottom, p, x);
    AsEntriesAppend(p, x);
  }

  lemma {:induction false} StripNothing<T>(a: Arrangement<T>)
    ensures Strip(a, []) == a
  {
    DropNone(a.main, AsEntries([]));
    DropNone(a.top, []);
    DropNone(a.bottom, []);
  }

  /** The last item of `p` is not among the others. */
  lemma {:induction false} DistinctLast<T>(p: seq<T>)
    requires Distinct(p) && p != []
    ensures Distinct(p[..|p| - 1]) && p[|p| - 1] !in p[..|p| - 1]
    ensures p == p[..|p| - 1] + [p[|p| - 1]]
  {
  }

  /** One step of the single-stack loop, for an item not yet placed. */
  lemma {:induction false} MainStep<T>(a: Arrangement<T>, q: seq<T>, x: T)
    requires x !in q
    ensures AddItem(Extend(Strip(a, q), Arrangement(AsEntries(q), [], [])), IntoMain, x)
         == Extend(Strip(a, q + [x]), Arrangement(AsEntries(q + [x]), [], []))
  {
    var done := Arrangement(AsEntries(q), [], []);
    UnarrangeExtend(Strip(a, q), done, x);
    AsEntriesAt(q);
    WithoutAbsent(AsEntries(q), ItemEntry(x));
    UnarrangeStrip(a, q, x);
    AsEntriesAppend(q, x);
    var s := Strip(a, q + [x]);
    assert (s.main + AsEntries(q)) + [ItemEntry(x)] == s.main + AsEntries(q + [x]);
  }

  /** Taking out an item that is not yet in the rows leaves the rows alone. */
  lemma {:induction false} UnarrangeUnplaced<T>(a: Arrangement<T>, q: seq<T>, x: T)
    requires x !in q
    ensures Unarrange(Extend(Strip(a, q), Arrangement([], EvenIndexed(q), OddIndexed(q))), x)
         == Extend(Strip(a, q + [x]), Arrangement([], EvenIndexed(q), OddIndexed(q)))
  {
    var e, o := EvenIndexed(q), OddIndexed(q);
    UnarrangeExtend(Strip(a, q), Arrangement([], e, o), x);
    assert x !in e by {
      forall i | 0 <= i < |e| ensures e[i] != x {
        ParityRowsAt(q, i);
      }
    }
    assert x !in o by {
      forall i | 0 <= i < |o| ensures o[i] != x {
        ParityRowsAt(q, i);
      }
    }
    WithoutAbsent(e, x);
    WithoutAbsent(o, x);
    UnarrangeStrip(a, q, x);
  }

  /** Adding an item not yet placed to the top row. */
  lemma {:induction false} TopRowStep<T>(a: Arrangement<T>, q: seq<T>, x: T)
    requires x !in q
    ensures AddItem(Extend(Strip(a, q), Arrangement([], EvenIndexed(q), OddIndexed(q))), IntoRow(TopRow), x)
         == Extend(Strip(a, q + [x]), Arrangement([], EvenIndexed(q) + [x], OddIndexed(q)))
  {
    var s := Strip(a, q + [x]);
    UnarrangeUnplaced(a, q, x);
    assert (s.top + EvenIndexed(q)) + [x] == s.top + (EvenIndexed(q) + [x]);
  }

  /** Adding an item not yet placed to the bottom row. */
  lemma {:induction false} BottomRowStep<T>(a: Arrangement<T>, q: seq<T>, x: T)
    requires x !in q
    ensures AddItem(Extend(Strip(a, q), Arrangement([], EvenIndexed(q), OddIndexed(q))), IntoRow(BottomRow), x)
         == Extend(Strip(a, q + [x]), Arrangement([], EvenIndexed(q), OddIndexed(q) + [x]))
  {
    var s := Strip(a, q + [x]);
    UnarrangeUnplaced(a, q, x);
    assert (s.bottom + OddIndexed(q)) + [x] == s.bottom + (OddIndexed(q) + [x]);
  }

  /** One step of the square loop, for an item not yet placed. */
  lemma {:induction false} RowStep<T>(a: Arrangement<T>, q: seq<T>, x: T)
    requires x !in q
    ensures AddItem(Extend(Strip(a, q), Arrangement([], EvenIndexed(q), OddIndexed(q))), IntoRow(RowFor(|q|)), x)
         == Extend(Strip(a, q + [x]), Arrangement([], EvenIndexed(q + [x]), OddIndexed(q + [x])))
  {
    ParityRowsAppend(q, x);
    if |q| % 2 == 0 {
      TopRowStep(a, q, x);
      assert OddIndexed(q) + [] == OddIndexed(q);
    } else {
      BottomRowStep(a, q, x);
      assert EvenIndexed(q) + [] == EvenIndexed(q);
    }
  }

  lemma {:induction false} StripNothingExtend<T>(a: Arrangement<T>)
    ensures Extend(Strip(a, []), Arrangement([], [], [])) == a
  {
    StripNothing(a);
    assert a.main + [] == a.main && a.top + [] == a.top && a.bottom + [] == a.bottom;
  }

  /** The single-stack loop moves distinct items out of wherever they were
      and appends them to the main stack in order. */
  lemma {:induction false} AddAllToMainMoves<T>(a: Arrangement<T>, p: seq<T>)
    requires Distinct(p)
    ensures AddAllToMain(a, p) == Extend(Strip(a, p), Arrangement(AsEntries(p), [], []))
    decreases |p|
  {
    if p == [] {
      StripNothingExtend(a);
    } else {
      DistinctLast(p);
      AddAllToMainMoves(a, p[..|p| - 1]);
      MainStep(a, p[..|p| - 1], p[|p| - 1]);
    }
  }

  /** The square loop moves distinct items out of wherever they were and
      splits them over the rows by index parity. */
  lemma {:induction false} AddAllToRowsMoves<T>(a: Arrangement<T>, p: seq<T>)
    requires Distinct(p)
    ensures AddAllToRows(a, p) == Extend(Strip(a, p), Arrangement([], EvenIndexed(p), OddIndexed(p)))
    decreases |p|
  {
    if p == [] {
      StripNothingExtend(a);
    } else {
      DistinctLast(p);
      AddAllToRowsMoves(a, p[..|p| - 1]);
      RowStep(a, p[..|p| - 1], p[|p| - 1]);
    }
  }

  /** Adding the two rows to the main stack takes them out of it first. */
  lemma {:induction false} AddRowsMoves<T>(m: seq<StackEntry<T>>)
    ensures AddArranged(AddArranged(m, RowEntry(TopRow)), RowEntry(BottomRow))
         == Drop(m, [RowEntry(TopRow), RowEntry(BottomRow)]) + [RowEntry(TopRow), RowEntry(BottomRow)]
  {
    var top, bottom := RowEntry(TopRow), RowEntry(BottomRow);
    assert Without(m, top) == Drop(m, [top]) by {
      DropNone(m, []);
      WithoutAfterDrop(m, [], top);
      assert [] + [top] == [top];
    }
    assert Without(Drop(m, [top]), bottom) == Drop(m, [top, bottom]) by {
      WithoutAfterDrop(m, [top], bottom);
      assert [top] + [bottom] == [top, bottom];
    }
    assert Without(Without(m, top) + [top], bottom) == Without(Without(m, top), bottom) + [top] by {
      WithoutAppend(Without(m, top), [top], bottom);
      WithoutAbsent([top], bottom);
    }
    var d := Drop(m, [top, bottom]);
    assert (d + [top]) + [bottom] == d + [top, bottom];
  }

  /** A setup run takes its own views out of the stacks, wherever an earlier
      run left them, and then arranges them as `Arrange` says; every other
      view keeps its place. */
  lemma {:induction false} SetUpStacksMovesViews<T>(a: Arrangement<T>, layout: MenuLayout, items: seq<T>)
    requires Distinct(items)
    ensures SetUpStacks(a, layout, items) == Extend(Cleared(a, layout, items), Arrange(layout, items))
  {
    if SplitsIntoRows(layout, |items|) {
      SplitSetUp(a, items);
    } else {
      AddAllToMainMoves(a, items);
      assert SetUpViews(layout, items) == AsEntries(items);
    }
  }

  lemma {:induction false} SplitSetUp<T>(a: Arrangement<T>, items: seq<T>)
    requires Distinct(items) && |items| > 1
    ensures SetUpStacks(a, Square, items) == Extend(Cleared(a, Square, items), Arrange(Square, items))
  {
    var rows: seq<StackEntry<T>> := [RowEntry(TopRow), RowEntry(BottomRow)];
    var x := a.(main := Drop(a.main, rows));
    var r := Arrangement(rows, [], []);
    AddRowsMoves(a.main);
    assert x.top + [] == x.top && x.bottom + [] == x.bottom;
    assert SetUpRows(a, Square, |items|) == Extend(x, r);
    AddAllToRowsMoves(Extend(x, r), items);
    StripExtend(x, r, items);
    AsEntriesAt(items);
    DropNone(rows, AsEntries(items));
    DropNone([], items);
    assert Strip(r, items) == r;
    DropDrop(a.main, rows, AsEntries(items));
    var c := Cleared(a, Square, items);
    assert (c.main + rows) + [] == c.main + rows;
    assert (c.top + []) + EvenIndexed(items) == c.top + EvenIndexed(items);
    assert (c.bottom + []) + OddIndexed(items) == c.bottom + OddIndexed(items);
  }

  /** A first setup run, on stacks that hold none of its views, appends
      exactly `Arrange` to them. */
  lemma {:induction false} FirstSetUpAppends<T>(a: Arrangement<T>, layout: MenuLayout, items: seq<T>)
    requires Distinct(items)
    requires forall i :: 0 <= i < |a.main| ==> a.main[i] !in SetUpViews(layout, items)
    requires forall i :: 0 <= i < |a.top| ==> a.top[i] !in items
    requires forall i :: 0 <= i < |a.bottom| ==> a.bottom[i] !in items
    ensures SetUpStacks(a, layout, items) == Extend(a, Arrange(layout, items))
    ensures SetUpStacks(Arrangement([], [], []), layout, items) == Arrange(layout, items)
  {
    SetUpStacksMovesViews(a, layout, items);
    DropNone(a.main, SetUpViews(layout, items));
    DropNone(a.top, items);
    DropNone(a.bottom, items);
    var e: Arrangement<T> := Arrangement([], [], []);
    SetUpStacksMovesViews(e, layout, items);
    var arr := Arrange(layout, items);
    assert [] + arr.main == arr.main && [] + arr.top == arr.top && [] + arr.bottom == arr.bottom;
  }

  /** Setting up a second time with the same layout and items leaves the
      stacks as the first run left them. */
  lemma {:induction false} SetUpStacksIdempotent<T>(a: Arrangement<T>, layout: MenuLayout, items: seq<T>)
    requires Distinct(items)
    ensures SetUpStacks(SetUpStacks(a, layout, items), layout, items) == SetUpStacks(a, layout, items)
  {
    var c, arr := Cleared(a, layout, items), Arrange(layout, items);
    var views := SetUpViews(layout, items);
    SetUpStacksMovesViews(a, layout, items);
    SetUpStacksMovesViews(Extend(c, arr), layout, items);
    AsEntriesAt(items);
    DropAppend(c.main, arr.main, views);
    DropAppend(c.top, arr.top, items);
    DropAppend(c.bottom, arr.bottom, items);
    DropTwice(a.main, views);
    DropTwice(a.top, items);
    DropTwice(a.bottom, items);
    forall i | 0 <= i < |arr.main| ensures arr.main[i] in views {
      if SplitsIntoRows(layout, |items|) {
        assert views[i] == arr.main[i];
      } else {
        assert views[i] == arr.main[i];
      }
    }
    forall i | 0 <= i < |arr.top| ensures arr.top[i] in items {
      ParityRowsAt(items, i);
    }
    forall i | 0 <= i < |arr.bottom| ensures arr.bottom[i] in items {
      ParityRowsAt(items, i);
    }
    DropAll(arr.main, views);
    DropAll(arr.top, items);
    DropAll(arr.bottom, items);
    assert c.main + [] == c.main && c.top + [] == c.top && c.bottom + [] == c.bottom;
  }

  /** The items of an arrangement as a reader sees them: those directly in the
      main stack, then the grid read column by column. */
  function ItemsOf<T>(a: Arrangement<T>): seq<T> {
    EntryItems(a.main) + Interleave(a.top, a.bottom)
  }

  /** For every layout and every number of items, the arrangement holds each
      item exactly once and in input order. */
  lemma ArrangeKeepsItemsInOrder<T>(layout: MenuLayout, items: seq<T>)
    ensures ItemsOf(Arrange(layout, items)) == items
    ensures multiset(EntryItems(Arrange(layout, items).main))
          + multiset(Arrange(layout, items).top)
          + multiset(Arrange(layout, items).bottom) == multiset(items)
  {
    var a := Arrange(layout, items);
    if SplitsIntoRows(layout, |items|) {
      assert EntryItems(a.main) == [] by {
        assert a.main[1..][1..] == [];
      }
      InterleaveParityRows(items);
      ParityRowsPartition(items);
    } else {
      EntryItemsOfEntries(items);
      assert Interleave(a.top, a.bottom) == [];
      assert items + [] == items;
    }
  }

  // ---------------------------------------------------------------------------
  // Content alignment of the newer menu: six constraint flags

  /** Active flags of the six constraints pinning the item group. */
  datatype Pins = Pins(centerX: bool, centerY: bool, leading: bool, trailing: bool, top: bool, bottom: bool)

  const AllPinsActive := Pins(true, true, true, true, true, true)

  predicate IsHorizontalAlignment(a: ContentAlignment) {
    a == AlignLeft || a == AlignRight
  }

  predicate IsVerticalAlignment(a: ContentAlignment) {
    a == AlignTop || a == AlignBottom
  }

  function ApplyAlignment(p: Pins, a: ContentAlignment): (r: Pins)
    // an alignment on one axis never touches the other axis's constraints
    ensures !IsVerticalAlignment(a) ==> r.centerY == p.centerY && r.top == p.top && r.bottom == p.bottom
    ensures !IsHorizontalAlignment(a) ==> r.centerX == p.centerX && r.leading == p.leading && r.trailing == p.trailing
    // pinning to an edge always releases that axis's centring
    ensures IsHorizontalAlignment(a) ==> !r.centerX
    ensures IsVerticalAlignment(a) ==> !r.centerY
  {
    match a
    case AlignLeft => p.(centerX := false, leading := true)
    case AlignRight => p.(centerX := false, leading := false, trailing := true)
    case AlignCenter => p
    case AlignBottom => p.(centerY := false, bottom := true)
    case AlignTop => p.(centerY := false, bottom := false, top := true)
  }

  /** Setting the same alignment twice is the same as setting it once. */
  lemma AlignmentIdempotent(p: Pins, a: ContentAlignment)
    ensures ApplyAlignment(ApplyAlignment(p, a), a) == ApplyAlignment(p, a)
  {
  }

  /** From the all-active state that setup leaves, each alignment's result. */
  lemma AlignmentFromSetup(a: ContentAlignment)
    ensures var r := ApplyAlignment(AllPinsActive, a);
      match a
      case AlignLeft => r == Pins(false, true, true, true, true, true)
      case AlignRight => r == Pins(false, true, false, true, true, true)
      case AlignCenter => r == AllPinsActive
      case AlignBottom => r == Pins(true, false, true, true, true, true)
      case AlignTop => r == Pins(true, false, true, true, true, false)
  {
  }

  // ---------------------------------------------------------------------------
  // Spacing dispatch of the newer menu

  datatype SpacedStack = MainStack | RowStacks

  /** The main stack's axis for a layout (the square's main stack holds the
      two rows one above the other). */
  function MainAxis(layout: MenuLayout): Axis {
    if layout == Horizontal then AxisHorizontal else AxisVertical
  }

  function HorizontalSpacingTarget(layout: MenuLayout): Option<SpacedStack> {
    match layout
    case Horizontal => Some(MainStack)
    case Square => Some(RowStacks)
    case Vertical => None
  }

  function VerticalSpacingTarget(layout: MenuLayout): Option<SpacedStack> {
    match layout
    case Vertical => Some(MainStack)
    case Square => Some(MainStack)
    case Horizontal => None
  }

  /** Horizontal spacing reaches exactly the stacks laid out left to right
      (the rows are horizontal stacks), vertical spacing exactly the main
      stack when it is laid out top to bottom; the two never meet. */
  lemma SpacingFollowsStackAxes(layout: MenuLayout)
    ensures HorizontalSpacingTarget(layout) == Some(MainStack) <==> MainAxis(layout) == AxisHorizontal
    ensures HorizontalSpacingTarget(layout) == Some(RowStacks) <==> layout == Square
    ensures VerticalSpacingTarget(layout) == Some(MainStack) <==> MainAxis(layout) == AxisVertical
    ensures HorizontalSpacingTarget(layout).Some? && VerticalSpacingTarget(layout).Some?
            ==> HorizontalSpacingTarget(layout) != VerticalSpacingTarget(layout)
  {
  }

  // ---------------------------------------------------------------------------
  // Toggle icon placement

  /** The edge of the menu view the icon button is pinned to. */
  datatype Anchor = LeadingEdge | TrailingEdge | TopEdge | BottomEdge

  /** Pinned edge, constant of that constraint, button box and image. The
      cross axis is always centred. */
  datatype IconAnchor = IconAnchor(pinnedTo: Anchor, inset: real, width: real, height: real, image: string)

  const VerticalDotsImage := "more"
  const HorizontalDotsImage := "more_H"

  function AnchorSide(a: Anchor): Direction {
    match a
    case LeadingEdge => Left
    case TrailingEdge => Right
    case TopEdge => Top
    case BottomEdge => Bottom
  }

  /** The icon lies inside the view: a positive constant from the leading or
      top edge, a negative one from the trailing or bottom edge. */
  predicate InsetPointsInward(i: IconAnchor) {
    match i.pinnedTo
    case LeadingEdge => i.inset > 0.0
    case TopEdge => i.inset > 0.0
    case TrailingEdge => i.inset < 0.0
    case BottomEdge => i.inset < 0.0
  }

  /** Gesture delegate: the menu's own pan and swipe recognizers run together
      with the other recognizers of the cell and table. */
  function ShouldRecognizeSimultaneously(kind: RecognizerKind): (r: bool)
    ensures r <==> kind != OtherKind
  {
    match kind
    case PanKind => true
    case SwipeKind => true
    case OtherKind => false
  }

  /** Gesture delegate: nothing starts without a cell; a pan starts only if
      its velocity is within 20 degrees of horizontal (`tooSteep` stands for
      that floating-point angle test). */
  function ShouldBegin(hasCell: bool, kind: RecognizerKind, tooSteep: bool): (r: bool)
    ensures r ==> hasCell
    ensures hasCell && kind != PanKind ==> r
    ensures kind == PanKind ==> (r <==> hasCell && !tooSteep)
  {
    if !hasCell then false
    else if kind == PanKind && tooSteep then false
    else true
  }

  function KindOf(r: Recognizer): RecognizerKind {
    match r
    case PanRecognizer => PanKind
    case _ => SwipeKind
  }
}
