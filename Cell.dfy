/**
 * A cell of the linked card.  The cell is a value stored in the card's cell map;
 * its covering groups are the numbers of the line groups that contain it (see
 * Grid.CoveringGroups).  `Set`, which must reach the card's groups and flags,
 * is the linked card's SetCell method.
 */
module Cells {

  datatype Cell = Cell(value: int, selected: bool, coveringGroups: seq<nat>) {

    /** Cell.Reset: clears the selection; the value and covering groups stay, and no group count is touched. */
    function Reset(): (c: Cell)
      ensures !c.selected && c.value == value && c.coveringGroups == coveringGroups
    {
      this.(selected := false)
    }
  }

  /** A new cell: value 0 (the default integer), unselected, covered by no group yet. */
  function NewCell(): (c: Cell)
    ensures c.value == 0 && !c.selected && c.coveringGroups == []
  {
    Cell(0, false, [])
  }
}
