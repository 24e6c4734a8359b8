/** One tappable action of a menu: an icon above a title, a transparent button
    over both, and the handler the button calls. The library class `MenuItem`,
    the app's `MenuItem` and the older `WBMenuItem` are the same class except
    for two constants, so one class with a variant models all three. */
module MenuItems {
  import opened MenuTypes
  import opened MenuRules

  /** LibraryItem: the library's `MenuItem`; AppItem: the app's `MenuItem`
      and the older `WBMenuItem`. */
  datatype ItemVariant = LibraryItem | AppItem

  function DefaultIconSize(v: ItemVariant): Size {
    match v
    case LibraryItem => Size(50.0, 60.0)
    case AppItem => Size(50.0, 70.0)
  }

  function TitleFontSize(v: ItemVariant): real {
    match v
    case LibraryItem => 11.0
    case AppItem => 12.0
  }

  /** The identity of a host-supplied closure. */
  datatype Handler = Handler(id: nat)

  /** The arranged subviews of the item's own stack. */
  datatype ItemSubview = IconImage | TitleLabel

  /** Adding the icon and then the title leaves exactly those two, in that
      order, whatever was arranged before. */
  lemma AddIconThenTitle(s: seq<ItemSubview>)
    ensures AddArranged(AddArranged(s, IconImage), TitleLabel) == [IconImage, TitleLabel]
  {
    var u := Without(s, IconImage);
    NothingElseArranged(s);
    WithoutAppend(u, [IconImage], TitleLabel);
    assert Without([IconImage], TitleLabel) == [IconImage];
    assert AddArranged(s, IconImage) == u + [IconImage];
  }

  /** Every arranged subview is the icon or the title. */
  lemma {:induction false} NothingElseArranged(s: seq<ItemSubview>)
    ensures Without(Without(s, IconImage), TitleLabel) == []
    decreases |s|
  {
    if s != [] {
      var head := if s[0] == IconImage then [] else [s[0]];
      assert Without(s, IconImage) == head + Without(s[1..], IconImage);
      WithoutAppend(head, Without(s[1..], IconImage), TitleLabel);
      NothingElseArranged(s[1..]);
    }
  }

  class MenuItem {
    const variant: ItemVariant

    var labelText: Option<string>
    var iconName: Option<string>
    var action: Option<Handler>
    var tapTargetRegistered: bool

    // public style properties
    var itemIconSize: Size
    var titleColor: Option<Color>
    var itemBorderColor: Option<Color>
    var itemBorderWidth: Option<real>
    var titleFont: Option<Font>
    var actionBtnIcon: Option<string>

    // what the property observers and the layout step write to the subviews
    var labelTextColor: Option<Color>
    var labelFont: Option<Font>
    var buttonBorderColor: Option<Color>
    var buttonBorderWidth: real
    var buttonImage: Option<string>
    var arranged: seq<ItemSubview>
    /** One entry per layout pass: the icon size its constraints fix. */
    var iconSizeConstraints: seq<Size>

    /** `init(frame:)`: no title, no icon, no handler. */
    constructor Plain(variant: ItemVariant)
      ensures this.variant == variant
      ensures labelText == None && iconName == None && action == None && !tapTargetRegistered
      ensures itemIconSize == DefaultIconSize(variant)
      ensures arranged == [] && iconSizeConstraints == []
    {
      this.variant := variant;
      labelText, iconName, action, tapTargetRegistered := None, None, None, false;
      itemIconSize := DefaultIconSize(variant);
      titleColor, itemBorderColor, itemBorderWidth, titleFont, actionBtnIcon := None, None, None, None, None;
      labelTextColor, labelFont, buttonBorderColor, buttonBorderWidth, buttonImage := None, None, None, 0.0, None;
      arranged, iconSizeConstraints := [], [];
    }

    /** `init(title:icon:actionHandler:)`: stores the title, the icon and the
        handler and registers the button's tap target. */
    constructor (variant: ItemVariant, title: string, icon: string, handler: Handler)
      ensures this.variant == variant
      ensures labelText == Some(title) && iconName == Some(icon)
      ensures action == Some(handler) && tapTargetRegistered
      ensures itemIconSize == DefaultIconSize(variant)
      ensures titleColor == None && itemBorderWidth == None && buttonBorderWidth == 0.0
      ensures arranged == [] && iconSizeConstraints == []
    {
      this.variant := variant;
      labelText, iconName, action, tapTargetRegistered := Some(title), Some(icon), Some(handler), true;
      itemIconSize := DefaultIconSize(variant);
      titleColor, itemBorderColor, itemBorderWidth, titleFont, actionBtnIcon := None, None, None, None, None;
      labelTextColor, labelFont, buttonBorderColor, buttonBorderWidth, buttonImage := None, None, None, 0.0, None;
      arranged, iconSizeConstraints := [], [];
    }

    method SetTitleColor(c: Option<Color>)
      modifies this`titleColor, this`labelTextColor
      ensures titleColor == c && labelTextColor == c
    {
      titleColor := c;
      labelTextColor := titleColor;
    }

    method SetItemBorderColor(c: Option<Color>)
      modifies this`itemBorderColor, this`buttonBorderColor
      ensures itemBorderColor == c && buttonBorderColor == c
    {
      itemBorderColor := c;
      buttonBorderColor := itemBorderColor;
    }

    /** A nil width gives the button a border of width 0. */
    method SetItemBorderWidth(w: Option<real>)
      modifies this`itemBorderWidth, this`buttonBorderWidth
      ensures itemBorderWidth == w
      ensures buttonBorderWidth == (if w.Some? then w.value else 0.0)
    {
      itemBorderWidth := w;
      buttonBorderWidth := if itemBorderWidth.Some? then itemBorderWidth.value else 0.0;
    }

    method SetTitleFont(f: Option<Font>)
      modifies this`titleFont, this`labelFont
      ensures titleFont == f && labelFont == f
    {
      titleFont := f;
      labelFont := titleFont;
    }

    /** The observer force-unwraps the name: setting nil stops the program. */
    method SetActionBtnIcon(name: Option<string>) returns (outcome: Outcome)
      modifies this`actionBtnIcon, this`buttonImage
      ensures actionBtnIcon == name
      ensures outcome.Fatal? <==> name.None?
      ensures buttonImage == (if name.Some? then name else old(buttonImage))
    {
      actionBtnIcon := name;
      if actionBtnIcon.None? {
        outcome := Fatal(NilUnwrapMessage);
      } else {
        buttonImage := actionBtnIcon;
        outcome := Done;
      }
    }

    /** `itemIconSize` has no observer: only the next layout pass uses it. */
    method SetItemIconSize(s: Size)
      modifies this`itemIconSize
      ensures itemIconSize == s
    {
      itemIconSize := s;
    }

    /** The state a layout pass leaves: the variant's font, a black title,
        the icon above the title, and icon constraints from the current
        `itemIconSize`. */
    ghost predicate LaidOut()
      reads this
    {
      && arranged == [IconImage, TitleLabel]
      && labelFont == Some(SystemFont(TitleFontSize(variant)))
      && titleColor == Some(Black) && labelTextColor == Some(Black)
      && |iconSizeConstraints| > 0 && iconSizeConstraints[|iconSizeConstraints| - 1] == itemIconSize
    }

    /** `setupMenuItemLayout` (library) / `setupUI` (app, older class): system
        font, black title overriding any earlier `titleColor`, icon
        constraints from the current `itemIconSize`, and the icon above the
        title in the item's stack. */
    method SetupLayout()
      modifies this`labelFont, this`titleColor, this`labelTextColor, this`iconSizeConstraints, this`arranged
      ensures labelFont == Some(SystemFont(TitleFontSize(variant)))
      ensures titleColor == Some(Black) && labelTextColor == Some(Black)
      ensures iconSizeConstraints == old(iconSizeConstraints) + [itemIconSize]
      ensures arranged == [IconImage, TitleLabel]
      ensures LaidOut()
    {
      labelFont := Some(SystemFont(TitleFontSize(variant)));
      SetTitleColor(Some(Black));
      labelTextColor := Some(Black);
      iconSizeConstraints := iconSizeConstraints + [itemIconSize];
      AddIconThenTitle(arranged);
      arranged := AddArranged(AddArranged(arranged, IconImage), TitleLabel);
    }

    /** The button's tap: the stored handler is called once, with this item. */
    method ActionBtnPressed() returns (calls: seq<Call>)
      ensures action.None? ==> calls == []
      ensures action.Some? ==> calls == [Call(action.value, this)]
    {
      if action.None? {
        return [];
      }
      calls := [Call(action.value, this)];
    }
  }

  /** A call of a handler, with the item passed to it. */
  datatype Call = Call(handler: Handler, argument: MenuItem)
}
