/**
 * The geometry both card variants share: a 5x5 board whose centre (2, 2) is the
 * free cell, the win predicates on a board of selection flags, the twelve lines
 * (5 rows, 5 columns, 2 diagonals) as numbered line groups, and the values the
 * random card constructors place in the five 15-number column ranges.
 */
module Grid {
  import opened Draw

  /** A (row, column) position. */
  type Pos = (int, int)

  predicate OnGrid(p: Pos) {
    0 <= p.0 < 5 && 0 <= p.1 < 5
  }

  const Centre: Pos := (2, 2)

  /** The value both variants store in the free centre cell. */
  const Free: int := -1

  predicate IsGrid<T>(g: seq<seq<T>>) {
    |g| == 5 && forall r :: 0 <= r < 5 ==> |g[r]| == 5
  }

  function At<T>(g: seq<seq<T>>, p: Pos): T
    requires IsGrid(g) && OnGrid(p)
  {
    g[p.0][p.1]
  }

  /** The grid with the entry at p replaced by v. */
  function Put<T>(g: seq<seq<T>>, p: Pos, v: T): (g': seq<seq<T>>)
    requires IsGrid(g) && OnGrid(p)
    ensures IsGrid(g')
    ensures forall r, c :: 0 <= r < 5 && 0 <= c < 5 ==> g'[r][c] == if (r, c) == p then v else g[r][c]
  {
    g[p.0 := g[p.0][p.1 := v]]
  }

  /** Two 5x5 grids with the same entries are equal. */
  lemma GridEq<T>(a: seq<seq<T>>, b: seq<seq<T>>)
    requires IsGrid(a) && IsGrid(b)
    requires forall r, c :: 0 <= r < 5 && 0 <= c < 5 ==> a[r][c] == b[r][c]
    ensures a == b
  {
    forall r | 0 <= r < 5 ensures a[r] == b[r] {
      assert forall c :: 0 <= c < 5 ==> a[r][c] == b[r][c];
    }
  }

  // ---------------------------------------------------------------------------
  // Selection flags and the three ways to win

  type Marks = seq<seq<bool>>

  /** The flags with the cell at p selected. */
  function Mark(m: Marks, p: Pos): (m': Marks)
    requires IsGrid(m) && OnGrid(p)
    ensures IsGrid(m')
    ensures forall r, c :: 0 <= r < 5 && 0 <= c < 5 ==> m'[r][c] == (m[r][c] || (r, c) == p)
  {
    m[p.0 := m[p.0][p.1 := true]]
  }

  predicate RowFull(m: Marks, r: int)
    requires IsGrid(m) && 0 <= r < 5
  {
    forall c :: 0 <= c < 5 ==> m[r][c]
  }

  predicate ColumnFull(m: Marks, c: int)
    requires IsGrid(m) && 0 <= c < 5
  {
    forall r :: 0 <= r < 5 ==> m[r][c]
  }

  /** The (i, i) diagonal. */
  predicate MainDiagonalFull(m: Marks)
    requires IsGrid(m)
  {
    forall i :: 0 <= i < 5 ==> m[i][i]
  }

  /** The (i, 4 - i) diagonal. */
  predicate AntiDiagonalFull(m: Marks)
    requires IsGrid(m)
  {
    forall i :: 0 <= i < 5 ==> m[i][4 - i]
  }

  predicate HorizontalWin(m: Marks)
    requires IsGrid(m)
  {
    exists r :: 0 <= r < 5 && RowFull(m, r)
  }

  predicate VerticalWin(m: Marks)
    requires IsGrid(m)
  {
    exists c :: 0 <= c < 5 && ColumnFull(m, c)
  }

  predicate DiagonalWin(m: Marks)
    requires IsGrid(m)
  {
    MainDiagonalFull(m) || AntiDiagonalFull(m)
  }

  datatype LineKind = Horizontal | Vertical | Diagonal

  predicate Wins(m: Marks, kind: LineKind)
    requires IsGrid(m)
  {
    match kind
    case Horizontal => HorizontalWin(m)
    case Vertical => VerticalWin(m)
    case Diagonal => DiagonalWin(m)
  }

  /** Only the centre is selected: the flags right after a reset. */
  function CentreOnly(): (m: Marks)
    ensures IsGrid(m)
  {
    seq(5, r => seq(5, c => (r, c) == Centre))
  }

  /** Row 2 selected but for (2, 4), and nothing else: still no line is complete. */
  lemma RowTwoGapWinsNothing(kind: LineKind)
    ensures !Wins(Mark(Mark(Mark(CentreOnly(), (2, 0)), (2, 1)), (2, 3)), kind)
  {
    var m := Mark(Mark(Mark(CentreOnly(), (2, 0)), (2, 1)), (2, 3));
    assert !m[0][0] && !m[0][4] && !m[2][4];
    forall r | 0 <= r < 5 ensures !RowFull(m, r) {
      assert !m[r][if r == 2 then 4 else 0];
    }
    forall c | 0 <= c < 5 ensures !ColumnFull(m, c) {
      assert !m[0][c];
    }
  }

  /** With only the free centre selected no line is complete. */
  lemma CentreOnlyWinsNothing(kind: LineKind)
    ensures !Wins(CentreOnly(), kind)
  {
    var m := CentreOnly();
    assert !m[0][0] && !m[1][1] && !m[0][4];
    forall r | 0 <= r < 5 ensures !RowFull(m, r) {
      assert !m[r][if r == 2 then 0 else 2];
    }
    forall c | 0 <= c < 5 ensures !ColumnFull(m, c) {
      assert !m[if c == 2 then 0 else 2][c];
    }
  }

  /** Selecting more cells never takes a win away. */
  lemma WinsMonotone(m: Marks, m': Marks, kind: LineKind)
    requires IsGrid(m) && IsGrid(m')
    requires forall r, c :: 0 <= r < 5 && 0 <= c < 5 && m[r][c] ==> m'[r][c]
    ensures Wins(m, kind) ==> Wins(m', kind)
  {
    if kind == Horizontal && HorizontalWin(m) {
      var r :| 0 <= r < 5 && RowFull(m, r);
      assert RowFull(m', r);
    } else if kind == Vertical && VerticalWin(m) {
      var c :| 0 <= c < 5 && ColumnFull(m, c);
      assert ColumnFull(m', c);
    }
  }

  // ---------------------------------------------------------------------------
  // Line groups: 0..4 the rows, 5..9 the columns, 10 the (i, i) diagonal and
  // 11 the (i, 4 - i) diagonal, in the order the linked card creates them.

  const GroupCount: nat := 12

  function KindOf(g: int): LineKind {
    if g < 5 then Horizontal else if g < 10 then Vertical else Diagonal
  }

  /** Whether line group g contains the cell at p. */
  predicate Covers(g: int, p: Pos) {
    if g < 5 then p.0 == g
    else if g < 10 then p.1 == g - 5
    else if g == 10 then p.0 == p.1
    else p.0 + p.1 == 4
  }

  /** The i-th cell of group g, for i in 0..4. */
  function Member(g: int, i: int): (p: Pos)
    requires 0 <= g < GroupCount && 0 <= i < 5
    ensures OnGrid(p) && Covers(g, p)
  {
    if g < 5 then (g, i) else if g < 10 then (i, g - 5) else if g == 10 then (i, i) else (i, 4 - i)
  }

  /** Where a covered cell stands in its group's list of members. */
  function IndexIn(g: int, p: Pos): int {
    if g < 5 then p.1 else p.0
  }

  /** Each covered cell occurs in its group exactly once, at IndexIn. */
  lemma MemberAt(g: int, i: int, p: Pos)
    requires 0 <= g < GroupCount && 0 <= i < 5 && OnGrid(p)
    ensures Member(g, i) == p <==> Covers(g, p) && i == IndexIn(g, p)
  {
  }

  /** Every cell of line g is selected. */
  predicate LineFull(m: Marks, g: int)
    requires IsGrid(m) && 0 <= g < GroupCount
  {
    forall i :: 0 <= i < 5 ==> At(m, Member(g, i))
  }

  /** A win of a kind is a full line group of that kind. */
  lemma WinIsFullGroup(m: Marks, kind: LineKind)
    requires IsGrid(m)
    ensures Wins(m, kind) <==> exists g :: 0 <= g < GroupCount && KindOf(g) == kind && LineFull(m, g)
  {
    if Wins(m, kind) {
      match kind
      case Horizontal =>
        var r :| 0 <= r < 5 && RowFull(m, r);
        assert LineFull(m, r);
      case Vertical =>
        var c :| 0 <= c < 5 && ColumnFull(m, c);
        assert LineFull(m, c + 5);
      case Diagonal =>
        if MainDiagonalFull(m) { assert LineFull(m, 10); } else { assert LineFull(m, 11); }
    }
    if g :| 0 <= g < GroupCount && KindOf(g) == kind && LineFull(m, g) {
      if g < 5 {
        assert forall c :: 0 <= c < 5 ==> At(m, Member(g, c)) == m[g][c];
        assert RowFull(m, g);
      } else if g < 10 {
        assert forall r :: 0 <= r < 5 ==> At(m, Member(g, r)) == m[r][g - 5];
        assert ColumnFull(m, g - 5);
      } else if g == 10 {
        assert forall i :: 0 <= i < 5 ==> At(m, Member(g, i)) == m[i][i];
      } else {
        assert forall i :: 0 <= i < 5 ==> At(m, Member(g, i)) == m[i][4 - i];
      }
    }
  }

  /** How many of the first k cells of group g are selected. */
  function MarkedCount(m: Marks, g: int, k: int): (n: nat)
    requires IsGrid(m) && 0 <= g < GroupCount && 0 <= k <= 5
    ensures n <= k
  {
    if k == 0 then 0
    else MarkedCount(m, g, k - 1) + (if At(m, Member(g, k - 1)) then 1 else 0)
  }

  /** The count of group g reaches its size exactly when the group's cells are all selected. */
  lemma {:induction false} CountFullIffSelected(m: Marks, g: int, k: int)
    requires IsGrid(m) && 0 <= g < GroupCount && 0 <= k <= 5
    ensures MarkedCount(m, g, k) == k <==> forall i :: 0 <= i < k ==> At(m, Member(g, i))
  {
    if k > 0 {
      CountFullIffSelected(m, g, k - 1);
    }
  }

  lemma CountFiveIffLineFull(m: Marks, g: int)
    requires IsGrid(m) && 0 <= g < GroupCount
    ensures MarkedCount(m, g, 5) == 5 <==> LineFull(m, g)
  {
    CountFullIffSelected(m, g, 5);
  }

  /** Selecting an unselected cell adds one to the count of each group covering it, and nothing to the others. */
  lemma {:induction false} CountAfterMark(m: Marks, p: Pos, g: int, k: int)
    requires IsGrid(m) && OnGrid(p) && !At(m, p) && 0 <= g < GroupCount && 0 <= k <= 5
    ensures MarkedCount(Mark(m, p), g, k)
         == MarkedCount(m, g, k) + (if Covers(g, p) && IndexIn(g, p) < k then 1 else 0)
  {
    if k > 0 {
      CountAfterMark(m, p, g, k - 1);
      MemberAt(g, k - 1, p);
    }
  }

  /** Counting over flags where only the centre is selected. */
  lemma {:induction false} CountCentreOnly(m: Marks, g: int, k: int)
    requires IsGrid(m) && 0 <= g < GroupCount && 0 <= k <= 5
    requires forall r, c :: 0 <= r < 5 && 0 <= c < 5 ==> m[r][c] == ((r, c) == Centre)
    ensures MarkedCount(m, g, k) == if Covers(g, Centre) && IndexIn(g, Centre) < k then 1 else 0
  {
    if k > 0 {
      CountCentreOnly(m, g, k - 1);
      MemberAt(g, k - 1, Centre);
    }
  }

  /** Only the centre selected: each of the centre's four groups counts one, the others none. */
  lemma CentreOnlyCounts(g: int)
    requires 0 <= g < GroupCount
    ensures MarkedCount(CentreOnly(), g, 5) == if Covers(g, Centre) then 1 else 0
  {
    CountCentreOnly(CentreOnly(), g, 5);
  }

  /** The groups a cell is added to by the linked card's constructor, in the order it adds them. */
  function CoveringGroups(p: Pos): seq<nat>
    requires OnGrid(p)
  {
    [p.0, 5 + p.1] + (if p.0 == p.1 then [10] else []) + (if p.0 + p.1 == 4 then [11] else [])
  }

  /**
   * A cell's covering groups are exactly the groups that contain it, each once:
   * four for the centre, three for the other diagonal cells, two for every other cell.
   */
  lemma CoveringGroupsExact(p: Pos)
    requires OnGrid(p)
    ensures forall g :: g in CoveringGroups(p) <==> 0 <= g < GroupCount && Covers(g, p)
    ensures Distinct(CoveringGroups(p))
    ensures |CoveringGroups(p)| == if p == Centre then 4 else if p.0 == p.1 || p.0 + p.1 == 4 then 3 else 2
  {
    var cg := CoveringGroups(p);
    forall g | 0 <= g < GroupCount && Covers(g, p) ensures g in cg {
      if g < 5 { assert cg[0] == g; }
      else if g < 10 { assert cg[1] == g; }
      else if g == 10 { assert cg[2] == g; }
      else { assert cg[|cg| - 1] == g; }
    }
  }

  // ---------------------------------------------------------------------------
  // Card values

  /**
   * Oracle indices for building one card: column c's five draws, row 0 first,
   * are picks[5c..5c+5], taken from that column's 15 candidates.
   */
  predicate CardPicks(picks: seq<nat>) {
    |picks| == 25 && forall c :: 0 <= c < 5 ==> ValidPicks(15, picks[5 * c..5 * c + 5])
  }

  /** Column c's candidates, 15c+1 .. 15c+15. */
  function ColumnPool(c: int): (pool: seq<int>)
    ensures |pool| == 15
  {
    Range(15 * c + 1, 15)
  }

  /** Column c's values, row 0 first. */
  function ColumnDraw(picks: seq<nat>, c: int): (col: seq<int>)
    requires CardPicks(picks) && 0 <= c < 5
    ensures |col| == 5
  {
    Deal(ColumnPool(c), picks[5 * c..5 * c + 5])
  }

  /** The five column draws, column first. */
  function Draws(picks: seq<nat>): (d: seq<seq<int>>)
    requires CardPicks(picks)
    ensures IsGrid(d) && forall c :: 0 <= c < 5 ==> d[c] == ColumnDraw(picks, c)
  {
    seq(5, c requires 0 <= c < 5 => ColumnDraw(picks, c))
  }

  /** The values a random card is given: the column draws, with the free value at the centre. */
  function DealtValues(picks: seq<nat>): (vals: seq<seq<int>>)
    requires CardPicks(picks)
    ensures IsGrid(vals)
  {
    seq(5, r requires 0 <= r < 5 => seq(5, c requires 0 <= c < 5 => if (r, c) == Centre then Free else ColumnDraw(picks, c)[r]))
  }

  /**
   * The standard card layout: the free value at the centre, every other value of
   * column c in 15c+1 .. 15c+15, and no value twice within a column.
   */
  predicate ValuesWellFormed(vals: seq<seq<int>>)
    requires IsGrid(vals)
  {
    && vals[2][2] == Free
    && (forall r, c :: 0 <= r < 5 && 0 <= c < 5 && (r, c) != Centre ==> 15 * c + 1 <= vals[r][c] <= 15 * c + 15)
    && (forall r1, r2, c :: 0 <= r1 < r2 < 5 && 0 <= c < 5 && (r1, c) != Centre && (r2, c) != Centre
          ==> vals[r1][c] != vals[r2][c])
  }

  /** Column c's draws are five different values of 15c+1 .. 15c+15. */
  lemma ColumnDrawFacts(picks: seq<nat>, c: int)
    requires CardPicks(picks) && 0 <= c < 5
    ensures forall r :: 0 <= r < 5 ==> 15 * c + 1 <= ColumnDraw(picks, c)[r] <= 15 * c + 15
    ensures Distinct(ColumnDraw(picks, c))
  {
    RangeMembers(15 * c + 1, 15);
    DealDistinct(ColumnPool(c), picks[5 * c..5 * c + 5]);
    forall r | 0 <= r < 5 ensures 15 * c + 1 <= ColumnDraw(picks, c)[r] <= 15 * c + 15 {
      assert ColumnDraw(picks, c)[r] in ColumnDraw(picks, c);
    }
  }

  /** Each draw of a card is a ball number, and two positions never draw the same one. */
  lemma DrawsUnique(picks: seq<nat>, r1: int, c1: int, r2: int, c2: int)
    requires CardPicks(picks) && 0 <= r1 < 5 && 0 <= c1 < 5 && 0 <= r2 < 5 && 0 <= c2 < 5
    ensures 1 <= ColumnDraw(picks, c1)[r1] <= 75
    ensures ColumnDraw(picks, c1)[r1] == ColumnDraw(picks, c2)[r2] ==> r1 == r2 && c1 == c2
  {
    ColumnDrawFacts(picks, c1);
    ColumnDrawFacts(picks, c2);
  }

  /** The random constructors lay out a standard card. */
  lemma DealtValuesWellFormed(picks: seq<nat>)
    requires CardPicks(picks)
    ensures ValuesWellFormed(DealtValues(picks))
  {
    forall c | 0 <= c < 5
      ensures forall r :: 0 <= r < 5 ==> 15 * c + 1 <= ColumnDraw(picks, c)[r] <= 15 * c + 15
      ensures Distinct(ColumnDraw(picks, c))
    {
      ColumnDrawFacts(picks, c);
    }
  }

  /** On a standard card the value in column c belongs to column (v - 1) / 15 = c. */
  lemma ColumnOfValue(vals: seq<seq<int>>, r: int, c: int)
    requires IsGrid(vals) && ValuesWellFormed(vals) && 0 <= r < 5 && 0 <= c < 5 && (r, c) != Centre
    ensures 1 <= vals[r][c] <= 75 && (vals[r][c] - 1) / 15 == c
  {
  }

  /** On a standard card no value occurs twice, and the free value only at the centre. */
  lemma ValuesUnique(vals: seq<seq<int>>, p: Pos, q: Pos)
    requires IsGrid(vals) && ValuesWellFormed(vals) && OnGrid(p) && OnGrid(q)
    ensures At(vals, p) == At(vals, q) ==> p == q
  {
    if p != Centre && q != Centre && p.1 == q.1 && p.0 != q.0 {
      if p.0 < q.0 {
        assert vals[p.0][p.1] != vals[q.0][p.1];
      } else {
        assert vals[q.0][p.1] != vals[p.0][p.1];
      }
    }
  }
}
