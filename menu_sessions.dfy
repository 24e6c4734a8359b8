/** Short sequences of calls on one menu: opening then closing, toggling
    twice, and a pan that moves a closed menu without opening it. */
module MenuSessions {
  import opened MenuTypes
  import opened MenuRules
  import opened MenuViewModel
  import opened OldMenuViewModel

  /** `open(from:)` then `close`, from any edge: the menu ends closed at
      offset zero, placed or not. */
  method OpenThenClose(m: MenuView, from: Direction)
    requires m.Valid()
    modifies m`menuOpen, m`offset
    ensures m.Valid() && !m.menuOpen && m.offset == 0.0
  {
    m.Open(from);
    m.Close();
  }

  /** Two taps on the toggle of a closed menu: it opens, then closes again
      at offset zero, even if a pan had moved it before. */
  method ToggleTwice(m: MenuView)
    requires m.Valid() && !m.menuOpen
    modifies m`menuOpen, m`offset
    ensures m.Valid() && !m.menuOpen && m.offset == 0.0
  {
    m.MenuBtnPressed();
    m.MenuBtnPressed();
  }

  /** The same two sequences on the older menu. */
  method OldOpenThenClose(m: OldMenuView)
    requires m.Valid()
    modifies m`menuOpen, m`offset
    ensures m.Valid() && !m.menuOpen && m.offset == 0.0
  {
    m.Open();
    m.Close();
  }

  method OldToggleTwice(m: OldMenuView)
    requires m.Valid() && !m.menuOpen
    modifies m`menuOpen, m`offset
    ensures m.Valid() && !m.menuOpen && m.offset == 0.0
  {
    m.MenuBtnPressed();
    m.MenuBtnPressed();
  }

  /** A pan halfway across a closed, placed side menu slides it half over
      the cell while its open flag stays false; the toggle then opens it
      fully rather than closing it. */
  method PanLeavesMenuAjar(m: MenuView)
    requires m.Valid() && m.placement.Some? && IsHorizontalEdge(m.direction)
    requires !m.menuOpen && m.offset == 0.0 && m.frame.width > 0.0
    modifies m`menuOpen, m`offset
    ensures m.Valid()
    ensures m.menuOpen && m.offset == -m.frame.width
  {
    var remaining := m.HandlePan(-m.frame.width / 2.0);
    assert !m.menuOpen && m.offset == -m.frame.width / 2.0 && remaining == 0.0;
    m.MenuBtnPressed();
  }
}
