/**
 * A line group of the linked card: a row, a column or a diagonal, tagged with its
 * kind, counting the selections it has been told about.  The kind-specific `Set`
 * that also raises the owning card's flag is the linked card's SetGroup method.
 */
module CellGroups {
  import opened Grid

  datatype Group = Group(kind: LineKind, count: int) {

    /** A group is complete when its count is exactly five. */
    predicate IsWinner() {
      count == 5
    }

    /** The base Set: one more selected member. */
    function Set(): (g: Group)
      ensures g.kind == kind && g.count == count + 1
    {
      this.(count := count + 1)
    }

    /** CellGroup.Reset: back to no selected member (no caller in the card ever uses it). */
    function Reset(): (g: Group)
      ensures g.kind == kind && g.count == 0 && !g.IsWinner()
    {
      this.(count := 0)
    }
  }

  /** A freshly created group of the given kind. */
  function NewGroup(kind: LineKind): (g: Group)
    ensures g.kind == kind && g.count == 0
  {
    Group(kind, 0)
  }
}
