/** Value types shared by every part of the swipeable menu model: the enums of
    the Swift sources, the geometric values that CGFloat structs carry, and the
    answers a menu delegate gives for one row. */
module MenuTypes {

  datatype Option<+T> = None | Some(value: T)

  /** The edge of the host cell the menu slides in from. */
  datatype Direction = Left | Right | Top | Bottom

  /** How the items are arranged: one row, one column, or two rows. */
  datatype MenuLayout = Horizontal | Vertical | Square

  /** Where the newer menu pins its item group (`ContentAlignment`). */
  datatype ContentAlignment = AlignLeft | AlignRight | AlignCenter | AlignTop | AlignBottom

  /** The gesture kind a host asks the menu to attach to its cell. */
  datatype Gesture = Swipe | Pan

  /** The direction a swipe recognizer reports. */
  datatype SwipeDirection = SwipeLeft | SwipeRight | SwipeUp | SwipeDown

  /** The concrete recognizers a menu may attach to its cell. */
  datatype Recognizer = SwipeLeftRecognizer | SwipeRightRecognizer | PanRecognizer

  /** The class of a gesture recognizer, as the gesture delegate sees it. */
  datatype RecognizerKind = PanKind | SwipeKind | OtherKind

  datatype Color = Black | Gray | White | Blue | Brown | Rgb(red: real, green: real, blue: real, alpha: real)

  datatype Font = SystemFont(size: real)

  datatype Size = Size(width: real, height: real)

  datatype Point = Point(x: real, y: real)

  datatype Rect = Rect(x: real, y: real, width: real, height: real)

  datatype IndexPath = IndexPath(section: int, row: int)

  /** Whether an operation finished or stopped the program with `fatalError`. */
  datatype Outcome = Done | Fatal(message: string)

  /** What a menu delegate answers for one row. */
  datatype DelegateAnswers = DelegateAnswers(
    direction: Direction,
    layout: MenuLayout,
    showIcon: bool,
    iconPosition: Direction)

  /** Constants of the four constraints that inset the item group from the
      menu's edges. */
  datatype Insets = Insets(top: real, left: real, bottom: real, right: real)

  /** The edge insets of the item group and the gaps between items. */
  datatype Spacings = Spacings(top: real, bottom: real, left: real, right: real, horizontal: real, vertical: real)

  /** Both menu classes start from 5 at top and bottom, 0 at the sides, and
      5 between items. */
  const DefaultSpacings := Spacings(5.0, 5.0, 0.0, 0.0, 5.0, 5.0)

  /** UIStackView properties the menu sets. */
  datatype Axis = AxisHorizontal | AxisVertical
  datatype Distribution = Fill | FillEqually
  datatype StackAlignment = StackFill | StackCenter | StackLeading | StackTrailing

  /** What the Swift runtime stops with when a nil optional is force-unwrapped. */
  const NilUnwrapMessage := "Unexpectedly found nil while unwrapping an Optional value"

  const SidewaysGestureMessage := "You can not add in case of Top and Bottom as It will conflict with TableView Scrolling"
}
