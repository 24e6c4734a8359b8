/** The demo app's first screen, `MenuViewController`: a table of menu
    variants in two sections (collection view, table view). Selecting a row
    records it and follows the section's segue; preparing the segue hands the
    row's layout and edge to the destination controller. */
module DemoMenu {
  import opened MenuTypes
  import opened HostControllers

  /** `path` names an entry of the two-level table `t`. */
  predicate InTable<T>(t: seq<seq<T>>, path: IndexPath) {
    0 <= path.section < |t| && 0 <= path.row < |t[path.section]|
  }

  class MenuViewController {
    /** The row titles, one list per section. */
    const sections: seq<seq<string>> :=
      [["Vertical Menu", "Square Menu", "Horizontal Menu"],
       ["Horizontal Menu - Left", "Horizontal Menu - Right", "Horizontal Menu - Top", "Horizontal Menu - Bottom"]]
    const layouts: seq<seq<MenuLayout>> :=
      [[Vertical, Square, Horizontal], [Horizontal, Horizontal, Horizontal, Horizontal]]
    const directions: seq<seq<Direction>> :=
      [[Right, Right, Right], [Left, Right, Top, Bottom]]
    const segueIdentifiers: seq<string> := ["goToCollectionVC", "goToTableVC"]
    const headerTitles: seq<string> := ["Collection View", "Table View"]
    var selectedIndex: IndexPath

    /** The selection always names a row that is shown. */
    ghost predicate Valid()
      reads this
    {
      InTable(sections, selectedIndex)
    }

    constructor ()
      ensures selectedIndex == IndexPath(0, 0) && Valid()
    {
      selectedIndex := IndexPath(0, 0);
    }

    /** `numberOfSections(in:)`: one section per segue and per header. */
    function NumberOfSections(): (n: nat)
      ensures n == |sections| == |layouts| == |directions|
      ensures n == |segueIdentifiers| == |headerTitles|
    {
      2
    }

    /** `tableView(_:numberOfRowsInSection:)`: every shown row has a layout
        and an edge, so the lookups of `prepare` stay in bounds. */
    function NumberOfRows(section: int): (n: nat)
      requires 0 <= section < NumberOfSections()
      ensures n == |layouts[section]| == |directions[section]|
      ensures n == (if section == 0 then 3 else 4)
    {
      |sections[section]|
    }

    /** `tableView(_:titleForHeaderInSection:)`: the header names the kind of
        controller the section's segue leads to. */
    function TitleForHeader(section: int): (title: string)
      requires 0 <= section < NumberOfSections()
      ensures title == "Collection View" <==> segueIdentifiers[section] == "goToCollectionVC"
      ensures title == "Table View" <==> segueIdentifiers[section] == "goToTableVC"
    {
      headerTitles[section]
    }

    /** `tableView(_:didSelectRowAt:)`: the row is recorded and the
        section's segue is followed. */
    method DidSelectRowAt(path: IndexPath) returns (segue: string)
      requires InTable(sections, path)
      modifies this`selectedIndex
      ensures selectedIndex == path && Valid()
      ensures segue == (if path.section == 0 then "goToCollectionVC" else "goToTableVC")
    {
      selectedIndex := path;
      segue := segueIdentifiers[selectedIndex.section];
    }

    /** `prepare(for:sender:)`: the destination answers the selected row's
        layout and edge from then on. */
    method Prepare(dest: ExampleController)
      requires Valid()
      modifies dest`menuLayout, dest`menuDirection
      ensures dest.menuLayout == Some(layouts[selectedIndex.section][selectedIndex.row])
      ensures dest.menuDirection == Some(directions[selectedIndex.section][selectedIndex.row])
      ensures forall p :: dest.Policy()(p) == DelegateAnswers(
        directions[selectedIndex.section][selectedIndex.row],
        layouts[selectedIndex.section][selectedIndex.row], true, Left)
    {
      dest.SetMenuLayout(layouts[selectedIndex.section][selectedIndex.row]);
      dest.SetMenuDirection(directions[selectedIndex.section][selectedIndex.row]);
    }

    /** What each row selects: the collection rows vary the layout on the
        right edge; the table rows are one horizontal row on each edge in
        turn. The first row is selected at start, so an unselected `prepare`
        hands over a vertical menu on the right. */
    lemma RowsSelectMenus(path: IndexPath)
      requires InTable(sections, path)
      ensures path.section == 0 ==>
        directions[0][path.row] == Right && layouts[0][path.row] == [Vertical, Square, Horizontal][path.row]
      ensures path.section == 1 ==>
        layouts[1][path.row] == Horizontal && directions[1][path.row] == [Left, Right, Top, Bottom][path.row]
      ensures layouts[0][0] == Vertical && directions[0][0] == Right
    {
    }
  }
}
