/**
 * The linked card: 25 cells, each listing the line groups that contain it, and
 * 12 line groups that count their selected members.  Selecting a value finds its
 * cell through a value-to-position lookup, marks it once, and tells each covering
 * group, which raises the card's flag for its kind when its count reaches five.
 *
 * The card owns everything: the cells are values in a map keyed by position
 * (the grid-to-cell dictionary), the lookup maps a value to a position (the
 * value-to-cell dictionary), and the groups are a sequence numbered as in
 * Grid (rows 0..4, columns 5..9, diagonals 10 and 11).
 *
 * Group counts are never cleared: Reset unmarks the cells and marks the centre
 * again, which adds one to each of the centre's four groups every time.  The
 * counts therefore match the selections only from construction up to the next
 * Reset (Consistent, SecondResetBreaksCounts).
 */
module LinkedCard {
  import opened Draw
  import opened Grid
  import opened Cells
  import opened CellGroups

  /** Card2.IsValid: a ball number, or the free value. */
  predicate IsValid(number: int) {
    (1 <= number <= 75) || number == Free
  }

  /** The valid numbers are the 75 balls a round draws from, and the free value. */
  lemma ValidIffBallOrFree(number: int)
    ensures IsValid(number) <==> number in Range(1, 75) || number == Free
  {
    RangeMembers(1, 75);
  }

  /** Everything a linked card holds. */
  datatype CardState = CardState(
    cells: seq<seq<Cell>>,
    lookup: map<int, Pos>,
    groups: seq<Group>,
    horizontal: bool,
    vertical: bool,
    diagonal: bool)

  /** The flag the card keeps for a kind of win. */
  function Flag(s: CardState, kind: LineKind): bool {
    match kind
    case Horizontal => s.horizontal
    case Vertical => s.vertical
    case Diagonal => s.diagonal
  }

  /** The card with the flag for one kind replaced. */
  function WithFlag(s: CardState, kind: LineKind, b: bool): (t: CardState)
    ensures t.cells == s.cells && t.lookup == s.lookup && t.groups == s.groups
    ensures forall k :: Flag(t, k) == if k == kind then b else Flag(s, k)
  {
    match kind
    case Horizontal => s.(horizontal := b)
    case Vertical => s.(vertical := b)
    case Diagonal => s.(diagonal := b)
  }

  /** A cell at each of the 25 positions, covered by the groups that contain it. */
  ghost predicate CellsWired(cells: seq<seq<Cell>>) {
    && IsGrid(cells)
    && (forall r, c :: 0 <= r < 5 && 0 <= c < 5 ==> cells[r][c].coveringGroups == CoveringGroups((r, c)))
  }

  /** Twelve groups, each of the kind its number says. */
  ghost predicate GroupsWired(groups: seq<Group>) {
    |groups| == GroupCount && forall g :: 0 <= g < GroupCount ==> groups[g].kind == KindOf(g)
  }

  /** Every lookup entry is a valid value that leads to the cell holding it. */
  ghost predicate LookupSound(cells: seq<seq<Cell>>, lookup: map<int, Pos>)
    requires IsGrid(cells)
  {
    forall v :: v in lookup ==> IsValid(v) && OnGrid(lookup[v]) && At(cells, lookup[v]).value == v
  }

  /** The wiring every card has. */
  ghost predicate WellFormed(s: CardState) {
    CellsWired(s.cells) && GroupsWired(s.groups) && LookupSound(s.cells, s.lookup)
  }

  /** Which cells are selected. */
  function MarksOf(cells: seq<seq<Cell>>): (m: Marks)
    requires IsGrid(cells)
    ensures IsGrid(m)
    ensures forall r, c :: 0 <= r < 5 && 0 <= c < 5 ==> m[r][c] == cells[r][c].selected
  {
    seq(5, r requires 0 <= r < 5 => seq(5, c requires 0 <= c < 5 => cells[r][c].selected))
  }

  /** The cells' values. */
  function ValuesOf(cells: seq<seq<Cell>>): (vals: seq<seq<int>>)
    requires IsGrid(cells)
    ensures IsGrid(vals)
    ensures forall r, c :: 0 <= r < 5 && 0 <= c < 5 ==> vals[r][c] == cells[r][c].value
  {
    seq(5, r requires 0 <= r < 5 => seq(5, c requires 0 <= c < 5 => cells[r][c].value))
  }

  /** Card2.IsWinner: any of the three flags. */
  predicate Winner(s: CardState) {
    s.horizontal || s.vertical || s.diagonal
  }

  // ---------------------------------------------------------------------------
  // The operations, as functions of the card's state

  /** The overriding Set of group g: the base Set, then the flag of the group's kind ORed with IsWinner. */
  function AfterSetGroup(s: CardState, g: nat): (t: CardState)
    requires g < |s.groups|
    ensures t.cells == s.cells && t.lookup == s.lookup
  {
    var group := s.groups[g].Set();
    WithFlag(s.(groups := s.groups[g := group]), group.kind, Flag(s, group.kind) || group.IsWinner())
  }

  /** Set on each of the groups gs, in order. */
  function AfterSetGroups(s: CardState, gs: seq<nat>): (t: CardState)
    requires forall i :: 0 <= i < |gs| ==> gs[i] < |s.groups|
    ensures t.cells == s.cells && t.lookup == s.lookup && |t.groups| == |s.groups|
    ensures forall h :: 0 <= h < |s.groups| ==> t.groups[h].kind == s.groups[h].kind
    decreases |gs|
  {
    if gs == [] then s
    else AfterSetGroup(AfterSetGroups(s, gs[..|gs| - 1]), gs[|gs| - 1])
  }

  /** Cell.Set on the cell at p: nothing if it is selected, else select it and Set its covering groups. */
  function AfterSetCell(s: CardState, p: Pos): (t: CardState)
    requires WellFormed(s) && OnGrid(p)
    ensures WellFormed(t)
  {
    var cell := At(s.cells, p);
    if cell.selected then s
    else
      var s' := s.(cells := Put(s.cells, p, cell.(selected := true)));
      AfterSetGroups(s', cell.coveringGroups)
  }

  /** Every cell reset; nothing else changes. */
  function ClearCells(s: CardState): (t: CardState)
    requires WellFormed(s)
    ensures WellFormed(t)
    ensures forall r, c :: 0 <= r < 5 && 0 <= c < 5 ==> t.cells[r][c] == s.cells[r][c].Reset()
  {
    s.(cells := seq(5, r requires 0 <= r < 5 => seq(5, c requires 0 <= c < 5 => s.cells[r][c].Reset())))
  }

  /** Card2.Reset: every cell reset, the centre cell Set, the three flags cleared. */
  function AfterReset(s: CardState): (t: CardState)
    requires WellFormed(s)
    ensures WellFormed(t)
  {
    AfterSetCell(ClearCells(s), Centre).(horizontal := false, vertical := false, diagonal := false)
  }

  /** Card2.SelectNumber: Set the cell the lookup gives for the number, if any; no range check. */
  function AfterSelect(s: CardState, number: int): (res: (CardState, bool))
    requires WellFormed(s)
    ensures WellFormed(res.0)
  {
    if number in s.lookup then (AfterSetCell(s, s.lookup[number]), true) else (s, false)
  }

  /** Card2.SetCellValue: for a valid value and a position on the card, move the cell's lookup entry to the new value. */
  function AfterSetCellValue(s: CardState, row: int, col: int, value: int): (t: CardState)
    requires WellFormed(s)
    ensures WellFormed(t)
  {
    if !IsValid(value) || !OnGrid((row, col)) then s
    else
      var cell := s.cells[row][col];
      s.(lookup := (s.lookup - {cell.value})[value := (row, col)],
         cells := Put(s.cells, (row, col), cell.(value := value)))
  }

  /** The card as the constructor's loops leave it, before its closing Reset. */
  function Wired(): (s: CardState)
    ensures WellFormed(s)
  {
    CardState(
      seq(5, r requires 0 <= r < 5 => seq(5, c requires 0 <= c < 5 => NewCell().(coveringGroups := CoveringGroups((r, c))))),
      map[],
      seq(GroupCount, g => NewGroup(KindOf(g))),
      false, false, false)
  }

  // ---------------------------------------------------------------------------
  // Counts that match the selections

  /** Every group's count is the number of its selected cells. */
  ghost predicate CountsConsistent(s: CardState)
    requires WellFormed(s)
  {
    forall g :: 0 <= g < GroupCount ==> s.groups[g].count == MarkedCount(MarksOf(s.cells), g, 5)
  }

  /** Some group of the kind has reached five. */
  ghost predicate GroupWon(groups: seq<Group>, kind: LineKind)
    requires |groups| == GroupCount
  {
    exists g :: 0 <= g < GroupCount && KindOf(g) == kind && groups[g].IsWinner()
  }

  /** The card's invariant from construction until the next Reset. */
  ghost predicate Consistent(s: CardState) {
    && WellFormed(s)
    && CountsConsistent(s)
    && forall kind :: Flag(s, kind) == GroupWon(s.groups, kind)
  }

  // ---------------------------------------------------------------------------
  // Properties of the operations

  /**
   * Group Set adds exactly one to that group's count, sets the flag of the group's
   * kind to its old value OR (count == 5), and leaves the other groups and flags alone.
   */
  lemma SetGroupEffect(s: CardState, g: nat)
    requires g < |s.groups|
    ensures var t := AfterSetGroup(s, g);
      && t.groups == s.groups[g := s.groups[g].(count := s.groups[g].count + 1)]
      && forall kind :: Flag(t, kind) == (Flag(s, kind) || (s.groups[g].kind == kind && t.groups[g].count == 5))
  {
  }

  /** Some group among gs, of the given kind, is complete. */
  ghost predicate ReachedAmong(groups: seq<Group>, gs: seq<nat>, kind: LineKind) {
    exists h :: h in gs && 0 <= h < |groups| && groups[h].kind == kind && groups[h].IsWinner()
  }

  /**
   * Setting a list of distinct groups adds one to each of them and raises a flag
   * exactly when one of them of that kind ends complete; no flag is ever cleared.
   */
  lemma {:induction false} SetGroupsEffect(s: CardState, gs: seq<nat>)
    requires forall i :: 0 <= i < |gs| ==> gs[i] < |s.groups|
    requires Distinct(gs)
    ensures var t := AfterSetGroups(s, gs);
      && (forall h :: 0 <= h < |s.groups| ==>
            t.groups[h] == s.groups[h].(count := s.groups[h].count + if h in gs then 1 else 0))
      && forall kind :: Flag(t, kind) == (Flag(s, kind) || ReachedAmong(t.groups, gs, kind))
    decreases |gs|
  {
    if gs != [] {
      var n := |gs| - 1;
      var front, x := gs[..n], gs[n];
      assert gs == front + [x];
      SetGroupsEffect(s, front);
      var u := AfterSetGroups(s, front);
      var t := AfterSetGroups(s, gs);
      SetGroupEffect(u, x);
      assert x !in front;
      forall h | 0 <= h < |s.groups|
        ensures t.groups[h] == s.groups[h].(count := s.groups[h].count + if h in gs then 1 else 0)
      {
        assert h in gs <==> h in front || h == x;
      }
      forall kind
        ensures ReachedAmong(t.groups, gs, kind)
            <==> ReachedAmong(u.groups, front, kind) || (u.groups[x].kind == kind && t.groups[x].IsWinner())
      {
        if h :| h in front && 0 <= h < |u.groups| && u.groups[h].kind == kind && u.groups[h].IsWinner() {
          assert h in gs && t.groups[h] == u.groups[h];
        }
        if h :| h in gs && 0 <= h < |t.groups| && t.groups[h].kind == kind && t.groups[h].IsWinner() {
          if h != x {
            assert h in front && t.groups[h] == u.groups[h];
          }
        }
      }
    }
  }

  /** Flags never go from true to false while groups are Set. */
  lemma {:induction false} SetGroupsNeverClears(s: CardState, gs: seq<nat>)
    requires forall i :: 0 <= i < |gs| ==> gs[i] < |s.groups|
    ensures forall kind :: Flag(s, kind) ==> Flag(AfterSetGroups(s, gs), kind)
    decreases |gs|
  {
    if gs != [] {
      SetGroupsNeverClears(s, gs[..|gs| - 1]);
      SetGroupEffect(AfterSetGroups(s, gs[..|gs| - 1]), gs[|gs| - 1]);
    }
  }

  /** SelectNumber never clears a flag. */
  lemma SelectNeverClearsFlags(s: CardState, number: int)
    requires WellFormed(s)
    ensures forall kind :: Flag(s, kind) ==> Flag(AfterSelect(s, number).0, kind)
  {
    if number in s.lookup && !At(s.cells, s.lookup[number]).selected {
      var p := s.lookup[number];
      SetGroupsNeverClears(s.(cells := Put(s.cells, p, At(s.cells, p).(selected := true))), At(s.cells, p).coveringGroups);
    }
  }

  /** Some group of the kind that contains p is complete. */
  ghost predicate CoverWon(groups: seq<Group>, p: Pos, kind: LineKind)
    requires |groups| == GroupCount
  {
    exists g :: 0 <= g < GroupCount && Covers(g, p) && KindOf(g) == kind && groups[g].IsWinner()
  }

  /**
   * Cell Set on an unselected cell selects it, adds one to the count of each group
   * covering it and to no other, and raises a flag iff a covering group of that
   * kind is now complete; values, lookup and covering groups do not change.
   * On a selected cell it changes nothing.
   */
  lemma SetCellEffect(s: CardState, p: Pos)
    requires WellFormed(s) && OnGrid(p)
    ensures var t := AfterSetCell(s, p);
      && (At(s.cells, p).selected ==> t == s)
      && (!At(s.cells, p).selected ==>
            && t.cells == Put(s.cells, p, At(s.cells, p).(selected := true))
            && t.lookup == s.lookup
            && (forall g :: 0 <= g < GroupCount ==>
                  t.groups[g] == s.groups[g].(count := s.groups[g].count + if Covers(g, p) then 1 else 0))
            && forall kind :: Flag(t, kind) == (Flag(s, kind) || CoverWon(t.groups, p, kind)))
  {
    if !At(s.cells, p).selected {
      var cg := CoveringGroups(p);
      CoveringGroupsExact(p);
      var s' := s.(cells := Put(s.cells, p, At(s.cells, p).(selected := true)));
      SetGroupsEffect(s', cg);
      var t := AfterSetCell(s, p);
      forall kind ensures ReachedAmong(t.groups, cg, kind) == CoverWon(t.groups, p, kind) {
        if g :| 0 <= g < GroupCount && Covers(g, p) && KindOf(g) == kind && t.groups[g].IsWinner() {
          assert g in cg;
        }
      }
    }
  }

  /** With counts that match the selections, a kind's group is complete exactly when a line of that kind is full. */
  lemma GroupWonIsWin(s: CardState, kind: LineKind)
    requires WellFormed(s) && CountsConsistent(s)
    ensures GroupWon(s.groups, kind) == Wins(MarksOf(s.cells), kind)
  {
    var m := MarksOf(s.cells);
    WinIsFullGroup(m, kind);
    forall g | 0 <= g < GroupCount ensures s.groups[g].IsWinner() == LineFull(m, g) {
      CountFiveIffLineFull(m, g);
    }
  }

  /** The flags of a consistent card are exactly the wins on its selections. */
  lemma ConsistentFlagsAreWins(s: CardState)
    requires Consistent(s)
    ensures forall kind :: Flag(s, kind) == Wins(MarksOf(s.cells), kind)
  {
    forall kind ensures Flag(s, kind) == Wins(MarksOf(s.cells), kind) {
      GroupWonIsWin(s, kind);
    }
  }

  /** A consistent card is a winner exactly when some line of its selections is full. */
  lemma ConsistentWinnerIffLine(s: CardState)
    requires Consistent(s)
    ensures Winner(s) <==> exists g :: 0 <= g < GroupCount && LineFull(MarksOf(s.cells), g)
  {
    var m := MarksOf(s.cells);
    ConsistentFlagsAreWins(s);
    assert Flag(s, Horizontal) == Wins(m, Horizontal);
    assert Flag(s, Vertical) == Wins(m, Vertical);
    assert Flag(s, Diagonal) == Wins(m, Diagonal);
    WinIsFullGroup(m, Horizontal);
    WinIsFullGroup(m, Vertical);
    WinIsFullGroup(m, Diagonal);
  }

  /** Cell Set selects exactly the cell at p and changes no value. */
  lemma SetCellMarks(s: CardState, p: Pos)
    requires WellFormed(s) && OnGrid(p)
    ensures MarksOf(AfterSetCell(s, p).cells) == Mark(MarksOf(s.cells), p)
    ensures ValuesOf(AfterSetCell(s, p).cells) == ValuesOf(s.cells)
    ensures AfterSetCell(s, p).lookup == s.lookup
  {
    var t := AfterSetCell(s, p);
    SetCellEffect(s, p);
    GridEq(MarksOf(t.cells), Mark(MarksOf(s.cells), p));
    GridEq(ValuesOf(t.cells), ValuesOf(s.cells));
  }

  /** Selecting a cell keeps the counts and the flags matching the selections. */
  lemma SetCellKeepsConsistent(s: CardState, p: Pos)
    requires Consistent(s) && OnGrid(p)
    ensures Consistent(AfterSetCell(s, p))
    ensures MarksOf(AfterSetCell(s, p).cells) == Mark(MarksOf(s.cells), p)
  {
    var m := MarksOf(s.cells);
    var t := AfterSetCell(s, p);
    SetCellEffect(s, p);
    SetCellMarks(s, p);
    if !At(s.cells, p).selected {
      var m' := Mark(m, p);
      forall g | 0 <= g < GroupCount ensures t.groups[g].count == MarkedCount(m', g, 5) {
        CountAfterMark(m, p, g, 5);
      }
      forall kind ensures GroupWon(t.groups, kind) == (GroupWon(s.groups, kind) || CoverWon(t.groups, p, kind)) {
        MarkWon(s.groups, t.groups, m, p, kind);
      }
    }
  }

  /**
   * When the counts follow the selections before and after an unselected cell at p
   * is selected, a group of a kind is complete afterwards exactly when one was
   * before or one covering p is now.
   */
  lemma MarkWon(before: seq<Group>, after: seq<Group>, m: Marks, p: Pos, kind: LineKind)
    requires |before| == GroupCount && |after| == GroupCount && IsGrid(m) && OnGrid(p) && !At(m, p)
    requires forall g :: 0 <= g < GroupCount ==> before[g].count == MarkedCount(m, g, 5)
    requires forall g :: 0 <= g < GroupCount ==> after[g].count == MarkedCount(Mark(m, p), g, 5)
    requires forall g :: 0 <= g < GroupCount ==> after[g].count == before[g].count + if Covers(g, p) then 1 else 0
    ensures GroupWon(after, kind) == (GroupWon(before, kind) || CoverWon(after, p, kind))
  {
    if g :| 0 <= g < GroupCount && KindOf(g) == kind && before[g].IsWinner() {
      assert after[g].count <= 5;
      assert !Covers(g, p);
    }
    if g :| 0 <= g < GroupCount && KindOf(g) == kind && after[g].IsWinner() {
      if !Covers(g, p) {
        assert before[g].IsWinner();
      }
    }
  }

  /** SelectNumber finds a cell exactly when the lookup holds the number, and keeps a consistent card consistent. */
  lemma SelectKeepsConsistent(s: CardState, number: int)
    requires Consistent(s)
    ensures AfterSelect(s, number).1 <==> number in s.lookup
    ensures Consistent(AfterSelect(s, number).0)
  {
    if number in s.lookup {
      SetCellKeepsConsistent(s, s.lookup[number]);
    }
  }

  /** Selecting a value whose cell is already selected returns true and changes nothing. */
  lemma ReselectChangesNothing(s: CardState, number: int)
    requires WellFormed(s) && number in s.lookup && At(s.cells, s.lookup[number]).selected
    ensures AfterSelect(s, number) == (s, true)
  {
  }

  /**
   * Reset leaves only the centre selected, keeps every value, covering list and
   * lookup entry, clears the three flags, and does not zero any group count: the
   * centre's four groups each gain one and the others keep theirs.
   */
  lemma ResetEffect(s: CardState)
    requires WellFormed(s)
    ensures var t := AfterReset(s);
      && MarksOf(t.cells) == CentreOnly()
      && ValuesOf(t.cells) == ValuesOf(s.cells)
      && t.lookup == s.lookup
      && (forall g :: 0 <= g < GroupCount ==>
            t.groups[g].count == s.groups[g].count + if Covers(g, Centre) then 1 else 0)
      && !Winner(t)
  {
    var cleared := ClearCells(s);
    SetCellEffect(cleared, Centre);
    var t := AfterReset(s);
    GridEq(MarksOf(t.cells), CentreOnly());
    GridEq(ValuesOf(t.cells), ValuesOf(s.cells));
  }

  /** Reset is idempotent on the selections and flags, but each Reset adds to the centre's groups again. */
  lemma ResetTwice(s: CardState)
    requires WellFormed(s)
    ensures MarksOf(AfterReset(AfterReset(s)).cells) == MarksOf(AfterReset(s).cells)
    ensures AfterReset(AfterReset(s)).groups[2].count == AfterReset(s).groups[2].count + 1
  {
    ResetEffect(s);
    ResetEffect(AfterReset(s));
  }

  /** The constructor's groups all start at zero, and its lookup is empty. */
  lemma WiredEmpty()
    ensures forall g :: 0 <= g < GroupCount ==> Wired().groups[g].count == 0
    ensures forall r, c :: 0 <= r < 5 && 0 <= c < 5 ==> Wired().cells[r][c].value == 0
    ensures Wired().lookup == map[]
  {
  }

  /** Reset on a card whose counts are all zero leaves a consistent card with only the centre selected. */
  lemma ResetFromZeroConsistent(w: CardState)
    requires WellFormed(w) && forall g :: 0 <= g < GroupCount ==> w.groups[g].count == 0
    ensures var s := AfterReset(w);
      Consistent(s) && MarksOf(s.cells) == CentreOnly() && !Winner(s) && s.lookup == w.lookup
  {
    var s := AfterReset(w);
    ResetEffect(w);
    forall g | 0 <= g < GroupCount
      ensures s.groups[g].count == MarkedCount(MarksOf(s.cells), g, 5) && !s.groups[g].IsWinner()
    {
      CentreOnlyCounts(g);
    }
  }

  /** Right after construction only the centre is selected, no flag is set, no value is known, and every count matches its selections. */
  lemma ConstructedConsistent()
    ensures var s := AfterReset(Wired());
      Consistent(s) && MarksOf(s.cells) == CentreOnly() && !Winner(s) && s.lookup == map[]
  {
    WiredEmpty();
    ResetFromZeroConsistent(Wired());
  }

  /**
   * On a consistent card whose centre is selected (as after construction), a
   * further Reset leaves the counts out of step with the selections: row 2 counts
   * at least two while only its centre is selected.
   */
  lemma SecondResetBreaksCounts(s: CardState)
    requires Consistent(s) && At(s.cells, Centre).selected
    ensures !CountsConsistent(AfterReset(s))
    ensures AfterReset(s).groups[2].count >= 2 && MarkedCount(MarksOf(AfterReset(s).cells), 2, 5) == 1
  {
    var m := MarksOf(s.cells);
    ResetEffect(s);
    CentreOnlyCounts(2);
    assert At(m, Member(2, 2));
    assert MarkedCount(m, 2, 3) >= 1;
    assert MarkedCount(m, 2, 5) >= MarkedCount(m, 2, 3);
  }

  /**
   * The stale counts make a false win: after a further Reset of a consistent card
   * with only its centre selected (as CreateRandom leaves it, before the Reset a
   * round starts with), selecting the cells (2, 0), (2, 1) and (2, 3) raises the
   * horizontal flag although no row is full, (2, 4) being unselected.
   */
  lemma FalseHorizontalAfterReset(s: CardState)
    requires Consistent(s) && MarksOf(s.cells) == CentreOnly()
    ensures var t := AfterSetCell(AfterSetCell(AfterSetCell(AfterReset(s), (2, 0)), (2, 1)), (2, 3));
      && MarksOf(t.cells) == Mark(Mark(Mark(CentreOnly(), (2, 0)), (2, 1)), (2, 3))
      && t.horizontal && !HorizontalWin(MarksOf(t.cells))
  {
    var t0 := AfterReset(s);
    var t1 := AfterSetCell(t0, (2, 0));
    var t2 := AfterSetCell(t1, (2, 1));
    var t3 := AfterSetCell(t2, (2, 3));
    CentreOnlyCounts(2);
    assert s.groups[2].count == 1;
    ResetEffect(s);
    assert t0.groups[2].count == 2;
    SetCellEffect(t0, (2, 0));
    SetCellMarks(t0, (2, 0));
    assert t1.groups[2].count == 3;
    SetCellEffect(t1, (2, 1));
    SetCellMarks(t1, (2, 1));
    assert t2.groups[2].count == 4;
    SetCellEffect(t2, (2, 3));
    SetCellMarks(t2, (2, 3));
    assert t3.groups[2].IsWinner() && KindOf(2) == Horizontal;
    assert CoverWon(t3.groups, (2, 3), Horizontal);
    assert Flag(t3, Horizontal);
    RowTwoGapWinsNothing(Horizontal);
  }

  /**
   * SetCellValue with an invalid value or a position off the card changes nothing;
   * otherwise the cell takes the value, the entry for its old value is dropped and
   * the new value maps to the cell; selections, groups and flags are untouched.
   */
  lemma SetCellValueEffect(s: CardState, row: int, col: int, value: int)
    requires WellFormed(s)
    ensures var t := AfterSetCellValue(s, row, col, value);
      && (!IsValid(value) || !OnGrid((row, col)) ==> t == s)
      && (IsValid(value) && OnGrid((row, col)) ==>
            && t.cells == Put(s.cells, (row, col), s.cells[row][col].(value := value))
            && t.lookup[value] == (row, col)
            && (s.cells[row][col].value != value ==> s.cells[row][col].value !in t.lookup)
            && (forall v :: v != value && v != s.cells[row][col].value ==>
                  (v in t.lookup <==> v in s.lookup) && (v in s.lookup ==> t.lookup[v] == s.lookup[v]))
            && MarksOf(t.cells) == MarksOf(s.cells))
      && t.groups == s.groups && forall kind :: Flag(t, kind) == Flag(s, kind)
  {
    var t := AfterSetCellValue(s, row, col, value);
    GridEq(MarksOf(t.cells), MarksOf(s.cells));
  }

  /** Giving cells values does not disturb the counts or the flags. */
  lemma SetCellValueKeepsConsistent(s: CardState, row: int, col: int, value: int)
    requires Consistent(s)
    ensures Consistent(AfterSetCellValue(s, row, col, value))
  {
    SetCellValueEffect(s, row, col, value);
  }

  // ---------------------------------------------------------------------------
  // Random cards

  /** Every cell's value leads back to that cell through the lookup. */
  ghost predicate LookupExact(s: CardState)
    requires WellFormed(s)
  {
    forall r, c :: 0 <= r < 5 && 0 <= c < 5 ==> s.cells[r][c].value in s.lookup && s.lookup[s.cells[r][c].value] == (r, c)
  }

  /** Some cell holds v. */
  ghost predicate OnCard(vals: seq<seq<int>>, v: int)
    requires IsGrid(vals)
  {
    exists r, c :: 0 <= r < 5 && 0 <= c < 5 && vals[r][c] == v
  }

  /**
   * With an exact lookup, SelectNumber finds a number exactly when some cell holds
   * it, and then selects that cell and no other.
   */
  lemma SelectFindsCardValues(s: CardState, number: int)
    requires WellFormed(s) && LookupExact(s)
    ensures AfterSelect(s, number).1 <==> OnCard(ValuesOf(s.cells), number)
    ensures forall r, c :: 0 <= r < 5 && 0 <= c < 5 && s.cells[r][c].value == number ==>
              MarksOf(AfterSelect(s, number).0.cells) == Mark(MarksOf(s.cells), (r, c))
    ensures ValuesOf(AfterSelect(s, number).0.cells) == ValuesOf(s.cells)
    ensures LookupExact(AfterSelect(s, number).0)
  {
    var vals := ValuesOf(s.cells);
    if number in s.lookup {
      var p := s.lookup[number];
      assert vals[p.0][p.1] == number;
      SetCellMarks(s, p);
      var t := AfterSelect(s, number).0;
      forall r, c | 0 <= r < 5 && 0 <= c < 5 ensures t.cells[r][c].value == s.cells[r][c].value {
        assert ValuesOf(t.cells)[r][c] == vals[r][c];
      }
    }
    if r, c :| 0 <= r < 5 && 0 <= c < 5 && vals[r][c] == number {
      assert s.cells[r][c].value == number;
    }
  }

  /** The first k SetCellValue calls of CreateRandom's inner loop for column col, rows 0 .. k - 1. */
  function FillRows(s: CardState, values: seq<int>, col: int, k: nat): (t: CardState)
    requires WellFormed(s) && |values| == 5 && k <= 5
    ensures WellFormed(t)
  {
    if k == 0 then s else AfterSetCellValue(FillRows(s, values, col, k - 1), k - 1, col, values[k - 1])
  }

  /** The SetCellValue calls of CreateRandom's nested loops for columns 0 .. k - 1. */
  function FillColumns(s: CardState, draws: seq<seq<int>>, k: nat): (t: CardState)
    requires WellFormed(s) && IsGrid(draws) && k <= 5
    ensures WellFormed(t)
  {
    if k == 0 then s else FillRows(FillColumns(s, draws, k - 1), draws[k - 1], k - 1, 5)
  }

  /** The SetCellValue calls of CreateRandom: the column draws cell by cell, then the free value at the centre. */
  function RandomValues(s: CardState, picks: seq<nat>): (t: CardState)
    requires WellFormed(s) && CardPicks(picks)
    ensures WellFormed(t)
  {
    AfterSetCellValue(FillColumns(s, Draws(picks), 5), 2, 2, Free)
  }

  /** Card2.CreateRandom: a new card given its random values. */
  function CreatedRandom(picks: seq<nat>): (s: CardState)
    requires CardPicks(picks)
    ensures WellFormed(s)
  {
    RandomValues(AfterReset(Wired()), picks)
  }

  /** Column-major numbering of the cells is one to one. */
  lemma ColumnMajor(r: int, c: int, r0: int, c0: int)
    requires 0 <= r < 5 && 0 <= c < 5 && 0 <= r0 < 5 && 0 <= c0 < 5
    ensures 5 * c + r == 5 * c0 + r0 <==> r == r0 && c == c0
  {
  }

  /** What no SetCellValue call changes: selections, counts and flags. */
  ghost predicate SameMarks(t: CardState, s: CardState)
    requires WellFormed(t) && WellFormed(s)
  {
    && MarksOf(t.cells) == MarksOf(s.cells)
    && t.groups == s.groups
    && (forall kind :: Flag(t, kind) == Flag(s, kind))
  }

  /** The inner loop of CreateRandom changes no selection, count or flag. */
  lemma {:induction false} RowsKeepMarks(s: CardState, values: seq<int>, col: int, k: nat)
    requires WellFormed(s) && |values| == 5 && k <= 5
    ensures SameMarks(FillRows(s, values, col, k), s)
  {
    if k > 0 {
      RowsKeepMarks(s, values, col, k - 1);
      SetCellValueEffect(FillRows(s, values, col, k - 1), k - 1, col, values[k - 1]);
    }
  }

  /** The nested loops of CreateRandom change no selection, count or flag. */
  lemma {:induction false} ColumnsKeepMarks(s: CardState, draws: seq<seq<int>>, k: nat)
    requires WellFormed(s) && IsGrid(draws) && k <= 5
    ensures SameMarks(FillColumns(s, draws, k), s)
  {
    if k > 0 {
      ColumnsKeepMarks(s, draws, k - 1);
      RowsKeepMarks(FillColumns(s, draws, k - 1), draws[k - 1], k - 1, 5);
    }
  }

  /**
   * The first n cells in column order hold their draws, each found again through
   * the lookup, and the other cells still hold no value (0).
   */
  ghost predicate FilledUpTo(t: CardState, picks: seq<nat>, n: int)
    requires WellFormed(t) && CardPicks(picks)
  {
    && (forall r, c :: 0 <= r < 5 && 0 <= c < 5 ==>
          t.cells[r][c].value == if 5 * c + r < n then ColumnDraw(picks, c)[r] else 0)
    && (forall r, c :: 0 <= r < 5 && 0 <= c < 5 && 5 * c + r < n ==>
          t.cells[r][c].value in t.lookup && t.lookup[t.cells[r][c].value] == (r, c))
  }

  /** One SetCellValue call of CreateRandom fills the next cell. */
  lemma FillStep(u: CardState, picks: seq<nat>, r0: int, c0: int, n: int)
    requires WellFormed(u) && CardPicks(picks) && 0 <= r0 < 5 && 0 <= c0 < 5 && n == 5 * c0 + r0 + 1
    requires FilledUpTo(u, picks, n - 1)
    ensures FilledUpTo(AfterSetCellValue(u, r0, c0, ColumnDraw(picks, c0)[r0]), picks, n)
  {
    var v := ColumnDraw(picks, c0)[r0];
    var t := AfterSetCellValue(u, r0, c0, v);
    DrawsUnique(picks, r0, c0, r0, c0);
    assert u.cells[r0][c0].value == 0;
    assert t.cells == Put(u.cells, (r0, c0), u.cells[r0][c0].(value := v));
    assert t.lookup == (u.lookup - {0})[v := (r0, c0)];
    forall r, c | 0 <= r < 5 && 0 <= c < 5
      ensures t.cells[r][c].value == if 5 * c + r < 5 * c0 + r0 + 1 then ColumnDraw(picks, c)[r] else 0
      ensures 5 * c + r < 5 * c0 + r0 + 1 ==> t.cells[r][c].value in t.lookup && t.lookup[t.cells[r][c].value] == (r, c)
    {
      ColumnMajor(r, c, r0, c0);
      if r != r0 || c != c0 {
        DrawsUnique(picks, r, c, r0, c0);
        assert t.cells[r][c] == u.cells[r][c];
      }
    }
  }

  /** The first k calls of the inner loop for column col fill rows 0 .. k - 1 of it. */
  lemma {:induction false} RowsValues(s: CardState, picks: seq<nat>, col: int, k: nat, n: int)
    requires WellFormed(s) && CardPicks(picks) && 0 <= col < 5 && k <= 5 && n == 5 * col + k
    requires FilledUpTo(s, picks, 5 * col)
    ensures FilledUpTo(FillRows(s, Draws(picks)[col], col, k), picks, n)
  {
    if k > 0 {
      RowsValues(s, picks, col, k - 1, n - 1);
      var u := FillRows(s, Draws(picks)[col], col, k - 1);
      FillStep(u, picks, k - 1, col, n);
      assert FillRows(s, Draws(picks)[col], col, k) == AfterSetCellValue(u, k - 1, col, ColumnDraw(picks, col)[k - 1]);
    }
  }

  /** On a card with no values yet, the nested loops for columns 0 .. k - 1 fill those columns. */
  lemma {:induction false} ColumnsValues(s: CardState, picks: seq<nat>, k: nat)
    requires WellFormed(s) && CardPicks(picks) && k <= 5 && FilledUpTo(s, picks, 0)
    ensures FilledUpTo(FillColumns(s, Draws(picks), k), picks, 5 * k)
  {
    if k > 0 {
      ColumnsValues(s, picks, k - 1);
      RowsValues(FillColumns(s, Draws(picks), k - 1), picks, k - 1, 5, 5 * k);
    }
  }

  /** The closing SetCellValue(2, 2, -1) of CreateRandom puts the free value at the centre, and the lookup follows. */
  lemma FreeCentreStep(u: CardState, picks: seq<nat>)
    requires WellFormed(u) && CardPicks(picks) && FilledUpTo(u, picks, 25)
    ensures var s := AfterSetCellValue(u, 2, 2, Free);
      ValuesOf(s.cells) == DealtValues(picks) && LookupExact(s)
  {
    var s := AfterSetCellValue(u, 2, 2, Free);
    var d := ColumnDraw(picks, 2)[2];
    assert u.cells[2][2].value == d;
    assert s.cells == Put(u.cells, Centre, u.cells[2][2].(value := Free));
    forall r, c | 0 <= r < 5 && 0 <= c < 5 ensures s.cells[r][c].value == DealtValues(picks)[r][c] {
    }
    GridEq(ValuesOf(s.cells), DealtValues(picks));
    assert s.lookup == (u.lookup - {d})[Free := Centre];
    forall r, c | 0 <= r < 5 && 0 <= c < 5
      ensures s.cells[r][c].value in s.lookup && s.lookup[s.cells[r][c].value] == (r, c)
    {
      if (r, c) != Centre {
        DrawsUnique(picks, r, c, 2, 2);
        assert s.cells[r][c] == u.cells[r][c];
      }
    }
  }

  /** CreateRandom's value calls, from any card: no selection, count or flag changes. */
  lemma RandomValuesKeepMarks(w: CardState, picks: seq<nat>)
    requires WellFormed(w) && CardPicks(picks)
    ensures var s := RandomValues(w, picks);
      && MarksOf(s.cells) == MarksOf(w.cells)
      && s.groups == w.groups
      && (forall kind :: Flag(s, kind) == Flag(w, kind))
      && Winner(s) == Winner(w)
  {
    ColumnsKeepMarks(w, Draws(picks), 5);
    SetCellValueEffect(FillColumns(w, Draws(picks), 5), 2, 2, Free);
    var s := RandomValues(w, picks);
    assert Flag(s, Horizontal) == Flag(w, Horizontal);
    assert Flag(s, Vertical) == Flag(w, Vertical);
    assert Flag(s, Diagonal) == Flag(w, Diagonal);
  }

  /** CreateRandom's value calls keep a consistent card consistent. */
  lemma RandomValuesKeepConsistent(w: CardState, picks: seq<nat>)
    requires Consistent(w) && CardPicks(picks)
    ensures Consistent(RandomValues(w, picks))
  {
    RandomValuesKeepMarks(w, picks);
    var s := RandomValues(w, picks);
    assert forall g :: 0 <= g < GroupCount ==> s.groups[g].count == MarkedCount(MarksOf(s.cells), g, 5);
  }

  /** CreateRandom's value calls, on a card with no values yet, lay out the dealt values with an exact lookup. */
  lemma RandomValuesLayout(w: CardState, picks: seq<nat>)
    requires WellFormed(w) && CardPicks(picks)
    requires forall r, c :: 0 <= r < 5 && 0 <= c < 5 ==> w.cells[r][c].value == 0
    ensures ValuesOf(RandomValues(w, picks).cells) == DealtValues(picks) && LookupExact(RandomValues(w, picks))
  {
    assert FilledUpTo(w, picks, 0);
    ColumnsValues(w, picks, 5);
    FreeCentreStep(FillColumns(w, Draws(picks), 5), picks);
  }

  /** The constructed card holds no values yet. */
  lemma ConstructedBlank()
    ensures forall r, c :: 0 <= r < 5 && 0 <= c < 5 ==> AfterReset(Wired()).cells[r][c].value == 0
  {
    var w := AfterReset(Wired());
    WiredEmpty();
    ResetEffect(Wired());
    forall r, c | 0 <= r < 5 && 0 <= c < 5 ensures w.cells[r][c].value == 0 {
      assert ValuesOf(w.cells)[r][c] == ValuesOf(Wired().cells)[r][c];
    }
  }

  /** A random card is consistent, has only its centre selected and has no flag set. */
  lemma CreatedRandomConsistent(picks: seq<nat>)
    requires CardPicks(picks)
    ensures var s := CreatedRandom(picks);
      Consistent(s) && MarksOf(s.cells) == CentreOnly() && !Winner(s)
  {
    ConstructedConsistent();
    RandomValuesKeepMarks(AfterReset(Wired()), picks);
    RandomValuesKeepConsistent(AfterReset(Wired()), picks);
  }

  /**
   * A random card holds the dealt values (the free value at the centre), and its
   * lookup leads from each of its 25 values to the cell holding it.
   */
  lemma CreatedRandomLayout(picks: seq<nat>)
    requires CardPicks(picks)
    ensures var s := CreatedRandom(picks);
      ValuesOf(s.cells) == DealtValues(picks) && LookupExact(s)
  {
    ConstructedBlank();
    RandomValuesLayout(AfterReset(Wired()), picks);
  }

  // ---------------------------------------------------------------------------
  // The card object

  class Card2 {
    /** The position-to-cell dictionary; its keys are exactly the 25 positions. */
    var cells: seq<seq<Cell>>
    /** The value-to-cell dictionary, as the position of the cell. */
    var lookup: map<int, Pos>
    /** The 12 line groups, numbered as in Grid. */
    var groups: seq<Group>
    var horizontal: bool
    var vertical: bool
    var diagonal: bool

    ghost function State(): CardState
      reads this
    {
      CardState(cells, lookup, groups, horizontal, vertical, diagonal)
    }

    ghost predicate Valid()
      reads this
    {
      WellFormed(State())
    }

    /** Any of the three flags. */
    function IsWinner(): bool
      reads this
    {
      horizontal || vertical || diagonal
    }

    /**
     * Creates the 25 cells, wires each into its row group, its column group and the
     * diagonal groups that contain it (rows first, then columns, then diagonals),
     * and resets the card.
     */
    constructor()
      ensures Valid() && State() == AfterReset(Wired())
    {
      var grid: seq<seq<Cell>> := seq(5, r => seq(5, c => NewCell()));
      var gs: seq<Group> := [];
      // Row groups 0..4.
      for row := 0 to 5
        invariant IsGrid(grid) && |gs| == row
        invariant forall g :: 0 <= g < row ==> gs[g] == NewGroup(KindOf(g))
        invariant forall r, c :: 0 <= r < 5 && 0 <= c < 5 ==>
          grid[r][c] == NewCell().(coveringGroups := if r < row then [r] else [])
      {
        gs := gs + [NewGroup(Horizontal)];
        for col := 0 to 5
          invariant IsGrid(grid)
          invariant forall r, c :: 0 <= r < 5 && 0 <= c < 5 ==>
            grid[r][c] == NewCell().(coveringGroups := if r < row || (r == row && c < col) then [r] else [])
        {
          var cell := grid[row][col];
          grid := Put(grid, (row, col), cell.(coveringGroups := cell.coveringGroups + [row]));
        }
      }
      // Column groups 5..9.
      for col := 0 to 5
        invariant IsGrid(grid) && |gs| == 5 + col
        invariant forall g :: 0 <= g < 5 + col ==> gs[g] == NewGroup(KindOf(g))
        invariant forall r, c :: 0 <= r < 5 && 0 <= c < 5 ==>
          grid[r][c] == NewCell().(coveringGroups := [r] + if c < col then [5 + c] else [])
      {
        gs := gs + [NewGroup(Vertical)];
        for row := 0 to 5
          invariant IsGrid(grid)
          invariant forall r, c :: 0 <= r < 5 && 0 <= c < 5 ==>
            grid[r][c] == NewCell().(coveringGroups := [r] + if c < col || (c == col && r < row) then [5 + c] else [])
        {
          var cell := grid[row][col];
          grid := Put(grid, (row, col), cell.(coveringGroups := cell.coveringGroups + [5 + col]));
        }
      }
      // Diagonal groups 10 and 11; the centre is added to both, 10 first.
      gs := gs + [NewGroup(Diagonal), NewGroup(Diagonal)];
      for i := 0 to 5
        invariant IsGrid(grid)
        invariant forall r, c :: 0 <= r < 5 && 0 <= c < 5 ==>
          grid[r][c] == NewCell().(coveringGroups := [r, 5 + c]
            + (if r == c && r < i then [10] else []) + (if r + c == 4 && r < i then [11] else []))
      {
        var cell1 := grid[i][i];
        grid := Put(grid, (i, i), cell1.(coveringGroups := cell1.coveringGroups + [10]));
        var cell2 := grid[i][4 - i];
        grid := Put(grid, (i, 4 - i), cell2.(coveringGroups := cell2.coveringGroups + [11]));
      }
      cells := grid;
      lookup := map[];
      groups := gs;
      horizontal, vertical, diagonal := false, false, false;
      new;
      WiredIs(State());
      Reset();
    }

    /** Card2.Reset: every cell reset, the centre cell Set, the three flags cleared. */
    method Reset()
      requires Valid()
      modifies this
      ensures Valid() && State() == AfterReset(old(State()))
    {
      ghost var s0 := State();
      for r := 0 to 5
        invariant IsGrid(cells) && lookup == s0.lookup && groups == s0.groups
        invariant horizontal == s0.horizontal && vertical == s0.vertical && diagonal == s0.diagonal
        invariant forall r', c :: 0 <= r' < 5 && 0 <= c < 5 ==>
          cells[r'][c] == if r' < r then s0.cells[r'][c].Reset() else s0.cells[r'][c]
      {
        for c := 0 to 5
          invariant IsGrid(cells) && lookup == s0.lookup && groups == s0.groups
          invariant horizontal == s0.horizontal && vertical == s0.vertical && diagonal == s0.diagonal
          invariant forall r', c' :: 0 <= r' < 5 && 0 <= c' < 5 ==>
            cells[r'][c'] == if r' < r || (r' == r && c' < c) then s0.cells[r'][c'].Reset() else s0.cells[r'][c']
        {
          cells := Put(cells, (r, c), cells[r][c].Reset());
        }
      }
      GridEq(cells, ClearCells(s0).cells);
      SetCell(Centre);
      horizontal, vertical, diagonal := false, false, false;
    }

    /** Cell.Set on the cell at p: nothing if it is selected, else select it and Set each covering group in turn. */
    method SetCell(p: Pos)
      requires Valid() && OnGrid(p)
      modifies this
      ensures Valid() && State() == AfterSetCell(old(State()), p)
    {
      var cell := cells[p.0][p.1];
      if cell.selected {
        return;
      }
      cells := Put(cells, p, cell.(selected := true));
      ghost var s1 := State();
      CoveringGroupsExact(p);
      for i := 0 to |cell.coveringGroups|
        invariant State() == AfterSetGroups(s1, cell.coveringGroups[..i])
      {
        assert cell.coveringGroups[..i + 1] == cell.coveringGroups[..i] + [cell.coveringGroups[i]];
        SetGroup(cell.coveringGroups[i]);
      }
      assert cell.coveringGroups[..|cell.coveringGroups|] == cell.coveringGroups;
    }

    /** The Set override of group g: the base Set, then the flag of the group's kind ORed with IsWinner. */
    method SetGroup(g: nat)
      requires g < |groups|
      modifies this
      ensures State() == AfterSetGroup(old(State()), g)
    {
      var group := groups[g].Set();
      groups := groups[g := group];
      match group.kind
      case Horizontal => horizontal := horizontal || group.IsWinner();
      case Vertical => vertical := vertical || group.IsWinner();
      case Diagonal => diagonal := diagonal || group.IsWinner();
    }

    /** Card2.SetCellValue; the dictionary's TryGetValue on (row, col) succeeds exactly for a position on the card. */
    method SetCellValue(row: int, col: int, value: int)
      requires Valid()
      modifies this
      ensures Valid() && State() == AfterSetCellValue(old(State()), row, col, value)
    {
      if !IsValid(value) {
        return;
      }
      if OnGrid((row, col)) {
        var cell := cells[row][col];
        lookup := lookup - {cell.value};
        cell := cell.(value := value);
        cells := Put(cells, (row, col), cell);
        lookup := lookup[value := (row, col)];
      }
    }

    /** Card2.SelectNumber: Set the cell the lookup gives, if any. */
    method SelectNumber(number: int) returns (found: bool)
      requires Valid()
      modifies this
      ensures Valid() && (State(), found) == AfterSelect(old(State()), number)
    {
      if number in lookup {
        SetCell(lookup[number]);
        return true;
      }
      return false;
    }

    /**
     * Card2.CreateRandom: each column's five values drawn from its 15 candidates,
     * the oracle giving the index of each draw, then the free value at the centre.
     */
    static method CreateRandom(picks: seq<nat>) returns (card: Card2)
      requires CardPicks(picks)
      ensures fresh(card) && card.Valid() && card.State() == CreatedRandom(picks)
    {
      card := new Card2();
      card.SetRandomValues(picks);
    }

    /** The SetCellValue calls of CreateRandom on a card: the column draws in column-major order, then the free centre. */
    method SetRandomValues(picks: seq<nat>)
      requires Valid() && CardPicks(picks)
      modifies this
      ensures Valid() && State() == RandomValues(old(State()), picks)
    {
      ghost var start := State();
      for col := 0 to 5
        invariant Valid() && State() == FillColumns(start, Draws(picks), col)
      {
        SetColumnValues(picks, col);
      }
      SetCellValue(2, 2, Free);
    }

    /** One pass of CreateRandom's outer loop: column col's five draws from its 15 candidates, row by row. */
    method SetColumnValues(picks: seq<nat>, col: int)
      requires Valid() && CardPicks(picks) && 0 <= col < 5
      modifies this
      ensures Valid() && State() == FillRows(old(State()), Draws(picks)[col], col, 5)
    {
      ghost var start := State();
      ghost var draws := Draws(picks);
      ghost var colPicks := picks[5 * col..5 * col + 5];
      var numsInCol := ColumnPool(col);
      ColumnStart(picks, col);
      for row := 0 to 5
        invariant Valid() && State() == FillRows(start, draws[col], col, row)
        invariant |numsInCol| == 15 - row && ValidPicks(|numsInCol|, colPicks[row..])
        invariant Deal(numsInCol, colPicks[row..]) == draws[col][row..]
      {
        DropStep(colPicks, row);
        DealNext(numsInCol, colPicks[row..], draws[col], row);
        var index := picks[5 * col + row];
        assert index == colPicks[row];
        var value := numsInCol[index];
        numsInCol := RemoveAt(numsInCol, index);
        SetCellValue(row, col, value);
      }
    }
  }

  /** Before CreateRandom's first draw in column c, the pool is that column's candidates. */
  lemma ColumnStart(picks: seq<nat>, c: int)
    requires CardPicks(picks) && 0 <= c < 5
    ensures ValidPicks(15, picks[5 * c..5 * c + 5])
    ensures Deal(ColumnPool(c), picks[5 * c..5 * c + 5]) == Draws(picks)[c][0..]
  {
  }

  /** The state the constructor's wiring loops produce is Wired(). */
  lemma WiredIs(s: CardState)
    requires IsGrid(s.cells) && |s.groups| == GroupCount && s.lookup == map[]
    requires forall r, c :: 0 <= r < 5 && 0 <= c < 5 ==>
      s.cells[r][c] == NewCell().(coveringGroups := [r, 5 + c]
        + (if r == c && r < 5 then [10] else []) + (if r + c == 4 && r < 5 then [11] else []))
    requires forall g :: 0 <= g < GroupCount ==> s.groups[g] == NewGroup(KindOf(g))
    requires !s.horizontal && !s.vertical && !s.diagonal
    ensures s == Wired()
  {
    var w := Wired();
    GridEq(s.cells, w.cells);
    assert s.groups == w.groups;
  }
}
