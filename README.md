# Bingo card simulation, modelled in Dafny

This project models the core of a bingo simulator. The simulator compares two
implementations of a 75-ball bingo card:

- The **dense card** (`Card`) keeps a 5×5 board of (value, selected) entries.
  Selecting a number searches only the column whose 15-number range holds it.
  Every hit rescans all rows, all columns and both diagonals to recompute the
  three winner flags (horizontal, vertical, diagonal).
- The **linked card** (`Card2`) keeps 25 cells and 12 line groups (5 rows, 5
  columns, 2 diagonals). A value-to-cell lookup finds a cell. Selecting a cell
  marks it once and tells each group that covers it. A group whose count reaches
  exactly five raises the card's flag for its kind.

A **round** (`SingleRound`) resets every card and draws the 75 balls in a random
order. It calls the balls one at a time on every card until, after some ball, at
least one card is a winner. It then counts how many of those winners won
horizontally, vertically and diagonally. **Several rounds** (`MultipleRounds`)
play rounds on the same cards and count in how many rounds each of the three
tallies was positive.

## Structure

- `Draw` (Draw.dfy): the pick-and-remove draw (`Enumerable.Range`, `Random.Next`, `RemoveAt`) used by every random construction.
- `Grid` (Grid.dfy): the 5×5 geometry, the win predicates, the 12 line groups and their counts, and the random column layout.
- `Cells` (Cell.dfy): `Cell` as a value: value, selection and covering groups.
- `CellGroups` (CellGroup.dfy): `CellGroup` as a tagged value: kind and count.
- `DenseCard` (Card.dfy): `Card`: a class over a `array2<Entry>` board, with the flags as fields.
- `LinkedCard` (Card2.dfy): `Card2`: a class whose fields are the cell map, the value lookup, the 12 groups and the flags.
- `Cards` (Cards.dfy): `ICard`: the two card classes behind one interface, and a card's state as a value.
- `Round` (SingleRound.dfy): `SingleRound`: `DoRound` and `GetRandomBalls`.
- `Rounds` (MultipleRounds.dfy): `MultipleRounds.DoRounds`.
- `CrossVariant` (CrossVariant.dfy): the two card kinds compared on the same draws.

Each class method is proved against a function of the old state: `AfterReset`,
`AfterSelect`, `SelectBoard`, `RoundResult`, `RoundsResult` and so on. The
properties are then proved as lemmas about those functions. `Random` is an
**oracle**, a sequence of the indices it returned, each below the pool size at
its draw (`Draw.ValidPicks`). The model says nothing about how random the indices are.

### The linked card's group counts

`Card2.Reset` (Card2.cs:68-74) resets every cell, sets the centre cell and clears
the flags. It never calls `CellGroup.Reset` (CellGroup.cs:33-36), which has no
caller, and `Cell.Reset` no longer resets the groups (Cell.cs:32).

- Every Reset therefore adds one to the count of each of the centre's four groups.
- The constructor already ends with a Reset (Card2.cs:65), so the counts match
  the selections only from construction up to the next Reset. Before that Reset
  the linked card behaves like the dense card on the ball numbers 1..75. The free
  value -1 is the exception: only the linked card finds it (`CrossVariant.FreeValueAnswers`).
- `DoRound` starts with a Reset (SingleRound.cs:23). In the first round the
  centre's four groups therefore start one count ahead, and a line through the
  centre wins one selection early.
- The counts are never cleared, so each round's selections stay in them for the
  next rounds, and a group is a winner only when its count is exactly 5
  (CellGroup.cs:15). In later rounds a group can therefore win after fewer
  selections than its line needs. Once its count has passed 5 it never wins
  again (`LinkedCard.SetGroupEffect`: the flag rises only when a Set brings the
  count to exactly 5).

The model keeps the code's behaviour and proves the consequences:

- `LinkedCard.ConstructedConsistent`: every count matches its selections after construction.
- `LinkedCard.SecondResetBreaksCounts`: a second Reset breaks this.
- `LinkedCard.FalseHorizontalAfterReset`: after that Reset, three selections in
  row 2 raise the horizontal flag although no row is full.
- `CrossVariant.RoundStartSplitsTwins`: a dense card and a linked card built from
  the same draws and called the same three balls at the start of a round
  disagree. The linked card wins and the dense card does not.

`CellGroup.Reset` (CellGroup.cs:33-36) has no caller, and its call in `Cell.Reset`
is commented out (Cell.cs:32). The model keeps this behaviour.

## Model

| member | source | states |
|---|---|---|
| Draw.RangeMembers | SingleRound.cs:76 | `Enumerable.Range(start, count)` holds each integer from start to start + count - 1 exactly once. |
| Draw.RemoveAt | SingleRound.cs:82 | `RemoveAt(i)` shortens the list by one. It removes exactly the i-th element (as a multiset) and keeps the other elements in order. |
| Draw.DealSplitsPool | SingleRound.cs:78-83 | After any number of draws, the drawn candidates plus the remaining pool are exactly the starting pool. |
| Draw.DealWholePool | SingleRound.cs:78-83 | Drawing until the pool is empty yields a permutation of the pool. |
| Draw.DealDistinct | Card.cs:190-195 | Draws from a pool without repeats are distinct members of that pool. |
| Grid.Mark | Card.cs:51 | Selecting the cell at p sets exactly that cell's flag and leaves every other flag as it was. |
| Grid.CentreOnlyWinsNothing | Card.cs:31-32 | With only the free centre selected, as after Reset, no row, column or diagonal is complete. |
| Grid.RowTwoGapWinsNothing | Card.cs:115-149 | With row 2 selected except (2, 4), and nothing else, no line of any kind is complete. |
| Grid.WinsMonotone | Card.cs:115-149 | Selecting more cells never takes a horizontal, vertical or diagonal win away. |
| Grid.WinIsFullGroup | Card2.cs:36-63 | A win of a kind (any full row; any full column; either full diagonal) is exactly a full line group of that kind among the 12. |
| Grid.CountFiveIffLineFull | CellGroup.cs:15 | A group's count of selected members is 5 exactly when all five of its cells are selected. |
| Grid.CountAfterMark | Cell.cs:25-26 | Selecting an unselected cell adds one to the count of each group that contains it and leaves the other groups alone. |
| Grid.CentreOnlyCounts | Card2.cs:72 | With only the centre selected, each of the centre's four groups counts one and every other group counts none. |
| Grid.CoveringGroupsExact | Card2.cs:36-63 | A cell's covering groups are exactly the groups containing it, each listed once: 4 for the centre, 3 for other diagonal cells, 2 for the rest. |
| Grid.ColumnDrawFacts | Card.cs:186-197 | Column c's five random values are distinct and lie in 15c+1 .. 15c+15. |
| Grid.DrawsUnique | Card.cs:186-197 | Every random value is a ball number 1..75, and no two positions receive the same value. |
| Grid.DealtValuesWellFormed | Card2.cs:146-162 | The random layout is standard: free value -1 at the centre, each column in its range, no repeats within a column. |
| Grid.ColumnOfValue | Card.cs:166-172 | On a standard card, every non-centre value in column c is a ball number, and `GetColumn` maps it to c. |
| Grid.ValuesUnique | Card.cs:186-200 | On a standard card no value occurs at two positions. |
| Cells.Cell.Reset | Cell.cs:29-33 | Reset clears the selection and keeps the value and the covering groups. No group is touched. |
| Cells.NewCell | Cell.cs:15-18 | A new cell has value 0, is unselected, and has an empty covering-group list. |
| CellGroups.Group.Set | CellGroup.cs:28-31 | The base Set adds exactly one to the count and keeps the kind. |
| CellGroups.Group.IsWinner | CellGroup.cs:15 | A group is complete only when its count is exactly 5. A count past 5 is not a win. |
| CellGroups.Group.Reset | CellGroup.cs:33-36 | Reset puts the count back to 0, so the group is not a winner. |
| CellGroups.NewGroup | CellGroup.cs:17-21 | A new group has the given kind and count 0. |
| DenseCard.GetColumn | Card.cs:166-172 | There is a column iff 1 <= n <= 75. The column is (n-1)/15, which lies in 0..4, and its range 15c+1..15c+15 holds n. |
| DenseCard.IsValid | Card.cs:151-154 | A number is valid iff it lies in 1..75. The free value -1 and 0 are not valid. |
| DenseCard.ValidIffBall | Card.cs:151-154 | The dense card's valid numbers are exactly the 75 balls `GetRandomBalls` draws from (`Enumerable.Range(1, 75)`). |
| DenseCard.FindRow | Card.cs:47-56 | The row loop stops at the first row of the column holding the number. None means no row holds it. |
| DenseCard.Locate | Card.cs:44-56 | A found position is in the number's own column and holds the number. Nothing is found for an invalid number or a column without it. |
| DenseCard.CellFor | Card.cs:64-81 | `GetCell` returns an entry exactly when `SelectNumber` would find the number. The entry is the board's own (value, selected) pair at the position `SelectNumber` would select, so it holds the number. |
| DenseCard.ResetBoardEffect | Card.cs:25-33 | Reset selects only the centre. It keeps every non-centre value, writes (-1, true) at the centre, and is idempotent. |
| DenseCard.SelectBoardEffect | Card.cs:41-62 | Found iff the number is valid and its column holds it. A miss changes nothing. A hit selects exactly one entry holding the number. No value changes. |
| DenseCard.SelectBoardMonotone | Card.cs:51 | Selecting never takes a win away from the board. |
| DenseCard.DealtBoardLayout | Card.cs:182-204 | `CreateRandom`'s board holds the dealt values in the standard layout, with only the centre selected. |
| DenseCard.ValueInItsColumn | Card.cs:156-172 | On a standard card a ball number can only be in column (n-1)/15. |
| DenseCard.SelectFindsCardValue | Card.cs:41-62 | On a standard card, `SelectNumber` finds n iff n is 1..75 and some entry holds it. |
| DenseCard.RowScan | Card.cs:118-125 | The row loop, stopping at the first full row, decides exactly "some row is full". |
| DenseCard.ColumnScan | Card.cs:128-135 | The column loop, stopping at the first full column, decides exactly "some column is full". |
| DenseCard.Card.constructor | Card.cs:19-23 | A new card is the Reset of an all-(0, false) board, with no flag set. |
| DenseCard.Card.Reset | Card.cs:25-33 | The board becomes `ResetBoard` of the old board, and the three flags are cleared. |
| DenseCard.Card.SelectNumber | Card.cs:41-62 | Board and result are `SelectBoard` of the old board. After a hit the flags agree with the board's lines. After a miss the flags are unchanged. |
| DenseCard.Card.GetCell | Card.cs:64-81 | The result is `CellFor` of the board, and nothing changes. |
| DenseCard.Card.IsWinner | Card.cs:14 | The card is a winner iff one of its three flags is set. |
| DenseCard.Card.CheckWinningCard | Card.cs:115-149 | Afterwards each flag is exactly the win of its kind on the current selections. |
| DenseCard.Card.ScanRows | Card.cs:118-125 | The result is "some row is fully selected". |
| DenseCard.Card.ScanColumns | Card.cs:128-135 | The result is "some column is fully selected". |
| DenseCard.Card.ScanDiagonals | Card.cs:138-144 | The result is "the (i, i) or the (i, 4-i) diagonal is fully selected". |
| DenseCard.Card.CreateRandom | Card.cs:182-204 | A fresh card whose board is the dealt board for the oracle's draws, with flags false and agreeing with the board. |
| DenseCard.Card.SetColumn | Card.cs:188-197 | One column pass writes that column's five draws, unselected, and leaves every other entry alone. |
| LinkedCard.SetGroupEffect | CellGroup.cs:50-81 | A group's Set adds one to its count. It sets the flag of its kind to old flag OR (count == 5). Other groups and flags are unchanged. |
| LinkedCard.IsValid | Card2.cs:137-140 | A number is valid iff it lies in 1..75 or is the free value -1. |
| LinkedCard.ValidIffBallOrFree | Card2.cs:137-140 | The linked card's valid numbers are the 75 balls `GetRandomBalls` draws from, plus the free value -1. |
| LinkedCard.SetGroupsEffect | Cell.cs:26 | Setting a list of distinct groups adds one to each of them. A flag rises exactly when a group of its kind in the list ends at 5. |
| LinkedCard.SetGroupsNeverClears | CellGroup.cs:50-81 | No sequence of group Sets clears a flag. |
| LinkedCard.SelectNeverClearsFlags | Card2.cs:89-97 | `SelectNumber` never clears a flag. |
| LinkedCard.SetCellEffect | Cell.cs:20-27 | On a selected cell, nothing changes. Otherwise the cell is selected and each covering group's count goes up by one. Each flag becomes old OR "a covering group of that kind is complete". |
| LinkedCard.GroupWonIsWin | CellGroup.cs:15 | When counts match selections, some group of a kind has count 5 iff a line of that kind is full. |
| LinkedCard.ConsistentFlagsAreWins | CellGroup.cs:50-81 | On a consistent card each flag is exactly the win of its kind on the selections. |
| LinkedCard.ConsistentWinnerIffLine | Card2.cs:12 | A consistent card is a winner iff one of its 12 lines is fully selected. |
| LinkedCard.SetCellMarks | Cell.cs:20-27 | Cell Set selects exactly the cell at p and changes no value and no lookup entry. |
| LinkedCard.SetCellKeepsConsistent | Cell.cs:20-27 | Cell Set keeps the counts and flags matching the selections. |
| LinkedCard.SelectKeepsConsistent | Card2.cs:89-97 | `SelectNumber` returns true iff the lookup holds the number, and keeps a consistent card consistent. |
| LinkedCard.ReselectChangesNothing | Card2.cs:89-97 | Selecting a value whose cell is already selected returns true and changes no count, flag or cell. |
| LinkedCard.ResetEffect | Card2.cs:68-74 | Reset leaves only the centre selected and keeps values and lookup. It clears the flags, and each of the centre's four groups gains one count without zeroing. |
| LinkedCard.ResetTwice | Card2.cs:68-74 | A second Reset leaves the same selections, but row 2's count grows by one more. |
| LinkedCard.WiredEmpty | Card2.cs:17-63 | Before its closing Reset, the new card has all counts 0, all values 0 and an empty lookup. |
| LinkedCard.ResetFromZeroConsistent | Card2.cs:65 | Reset of a card whose counts are all 0 gives a consistent card with only the centre selected and no flag. |
| LinkedCard.ConstructedConsistent | Card2.cs:17-66 | After construction, counts match selections, only the centre is selected, no flag is set and the lookup is empty. |
| LinkedCard.SecondResetBreaksCounts | Card2.cs:68-74 | A further Reset of a consistent card with its centre selected breaks the counts. Row 2 counts at least 2 with one cell selected. |
| LinkedCard.FalseHorizontalAfterReset | Card2.cs:68-74 | After that further Reset, selecting (2, 0), (2, 1) and (2, 3) raises the horizontal flag although no row is full. |
| LinkedCard.SetCellValueEffect | Card2.cs:76-87 | An invalid value or an off-card position changes nothing. Otherwise the cell takes the value, the old value's entry is dropped, and the new value maps to the cell. Other entries, selections, groups and flags are unchanged. |
| LinkedCard.SetCellValueKeepsConsistent | Card2.cs:76-87 | Giving a cell a value keeps a consistent card consistent. |
| LinkedCard.SelectFindsCardValues | Card2.cs:89-97 | With an exact lookup, `SelectNumber` finds n iff some cell holds n. It then selects exactly that cell, keeps the values and keeps the lookup exact. |
| LinkedCard.RowsKeepMarks | Card2.cs:150-158 | The inner value loop of `CreateRandom` changes no selection, count or flag. |
| LinkedCard.ColumnsKeepMarks | Card2.cs:146-159 | The nested value loops of `CreateRandom` change no selection, count or flag. |
| LinkedCard.ColumnsValues | Card2.cs:146-159 | The nested loops fill the cells column by column with their draws, each found again through the lookup. |
| LinkedCard.FreeCentreStep | Card2.cs:162 | The closing `SetCellValue(2, 2, -1)` puts the free value at the centre and leaves the lookup exact. |
| LinkedCard.RandomValuesKeepMarks | Card2.cs:146-162 | The value calls of `CreateRandom` keep selections, counts and flags. |
| LinkedCard.RandomValuesKeepConsistent | Card2.cs:146-162 | The value calls of `CreateRandom` keep a consistent card consistent. |
| LinkedCard.RandomValuesLayout | Card2.cs:146-162 | On a card without values, the value calls lay out the dealt values with an exact lookup. |
| LinkedCard.ConstructedBlank | Card2.cs:28 | The constructed card has value 0 in every cell. |
| LinkedCard.CreatedRandomConsistent | Card2.cs:142-165 | A random card is consistent, has only its centre selected and is no winner. |
| LinkedCard.CreatedRandomLayout | Card2.cs:142-165 | A random card holds the dealt values (-1 at the centre), and its lookup leads from each of its 25 values to that value's cell. |
| LinkedCard.Card2.constructor | Card2.cs:17-66 | The new card is the wired cells and groups, after Reset. |
| LinkedCard.Card2.Reset | Card2.cs:68-74 | The new state is `AfterReset` of the old one. |
| LinkedCard.Card2.SetCell | Cell.cs:20-27 | The new state is `AfterSetCell` of the old one. |
| LinkedCard.Card2.SetGroup | CellGroup.cs:50-81 | The new state is `AfterSetGroup` of the old one. |
| LinkedCard.Card2.SetCellValue | Card2.cs:76-87 | The new state is `AfterSetCellValue` of the old one. |
| LinkedCard.Card2.SelectNumber | Card2.cs:89-97 | The new state and the result are `AfterSelect` of the old state. |
| LinkedCard.Card2.IsWinner | Card2.cs:12 | The card is a winner iff one of its three flags is set. |
| LinkedCard.Card2.CreateRandom | Card2.cs:142-165 | A fresh card whose state is `CreatedRandom` of the oracle's draws. |
| LinkedCard.Card2.SetRandomValues | Card2.cs:146-162 | The loops' new state is `RandomValues` of the old one. |
| LinkedCard.Card2.SetColumnValues | Card2.cs:148-158 | One column pass is `FillRows` with that column's draws. |
| Cards.ResetView | ICard.cs:10 | After Reset, no card of either kind is a winner. |
| Cards.SelectView | ICard.cs:11 | `SelectNumber`'s effect on either kind of card. The dense card recomputes its three flags from the lines after a hit and changes nothing after a miss. The linked card takes `AfterSelect`. The card stays usable. |
| Cards.SelectFound | ICard.cs:11 | `SelectNumber`'s answer. A dense card answers true iff the number is valid and its column holds it (`Locate`). A linked card answers true iff its lookup holds the number. |
| Cards.ResetViewFaithful | Card.cs:25-33 | After Reset a card is no winner, and a dense card's flags agree with its board. |
| Cards.SelectViewMonotone | Card.cs:41-62 | On either kind of card, selecting never clears a flag and keeps a dense card's flags agreeing with its board. |
| Cards.IsWinnerHorizontally | ICard.cs:6 | Reads the horizontal flag of either kind of card. |
| Cards.IsWinnerVertically | ICard.cs:7 | Reads the vertical flag of either kind of card. |
| Cards.IsWinnerDiagonally | ICard.cs:8 | Reads the diagonal flag of either kind of card. |
| Cards.IsWinnerCard | ICard.cs:5 | A card is a winner iff one of its three flags is set (Card.cs:14, Card2.cs:12). |
| Cards.ResetCard | ICard.cs:10 | Reset through the interface gives `ResetView` of the card's old state. |
| Cards.SelectCard | ICard.cs:11 | `SelectNumber` through the interface gives `SelectView` of the card's old state and returns `SelectFound` of it. |
| Round.ResetViews | SingleRound.cs:23 | Every card is reset, and no card is lost or added. |
| Round.SelectViews | SingleRound.cs:35-37 | The ball is applied to every card. |
| Round.WinnerIndicesSound | SingleRound.cs:40-44 | The winners list holds only winning cards, each once, in card order. |
| Round.WinnerIndicesComplete | SingleRound.cs:40-44 | Every winning card is on the list, and the list is empty iff no card wins. |
| Round.TallyBounds | SingleRound.cs:49-61 | Each count is at most the number of winners, and their sum is at least the number of winners. |
| Round.PlayTally | SingleRound.cs:25-69 | From cards without a winner, the tally is (0, 0, 0) iff no card ends as a winner. Each count is at most the number of cards. |
| Round.RoundTally | SingleRound.cs:21-70 | A round's tally is (0, 0, 0) iff no card wins. Counts are bounded by the number of cards, and their sum is at least the number of winners. |
| Round.BallsArePermutation | SingleRound.cs:73-86 | The 75 balls contain each number 1..75 exactly once. |
| Round.SingleRound.constructor | SingleRound.cs:7-10 | The round keeps the given card list. It is ready to play when the cards are usable and share no object. |
| Round.SingleRound.DoRound | SingleRound.cs:21-70 | The cards' new states and the returned tally are `RoundResult` of the old states, with balls in `GetRandomBalls`' order. |
| Round.SingleRound.CallBalls | SingleRound.cs:33-67 | The ball loop's new states and tally are `Play` of the old states. |
| Round.SingleRound.TallyWinners | SingleRound.cs:49-61 | The three counts are how many winners have each flag set. |
| Round.SingleRound.ResetCards | SingleRound.cs:23 | Every card is reset. |
| Round.SingleRound.ResetOne | SingleRound.cs:23 | Card j is reset and every other card is unchanged. |
| Round.SingleRound.SelectBall | SingleRound.cs:35-45 | The ball is called on every card. The winners are the cards that are winners afterwards, in card order. |
| Round.SingleRound.SelectOne | SingleRound.cs:37-40 | The ball is called on card j only, and the result is card j's `IsWinner`. |
| Round.SingleRound.GetRandomBalls | SingleRound.cs:73-86 | The result is `BallOrder`: 1..75 dealt by the oracle. |
| Rounds.CountersCount | MultipleRounds.cs:18-37 | Each counter is the number of rounds with a positive component of its kind, and lies in 0..rounds. |
| Rounds.DoRoundsCounters | MultipleRounds.cs:18-37 | After numRounds rounds, each counter lies in 0..numRounds and counts the rounds with a positive tally of its kind. All are 0 when numRounds <= 0. |
| Rounds.MultipleRounds.constructor | MultipleRounds.cs:10-13 | The object keeps the given card list. It is ready to play when the cards are usable and share no object. |
| Rounds.MultipleRounds.DoRounds | MultipleRounds.cs:15-41 | The cards' new states and the returned counters are those of `RoundsResult`: max(numRounds, 0) rounds on the same cards, each with its own draw. |
| Rounds.MultipleRounds.PlayRounds | MultipleRounds.cs:22-38 | The loop plays the rounds in order on one `SingleRound`, and the counters are `Counters` of the tallies. |
| CrossVariant.CreatedTwins | Card2.cs:142-165 | Given the same draws, `Card.CreateRandom` and `Card2.CreateRandom` build cards with the same values and selections, and the linked card is consistent. |
| CrossVariant.TwinFlags | Card.cs:115-149 | On twins, the linked card's flags are the dense card's line checks. |
| CrossVariant.SelectTwins | Card2.cs:89-97 | The same number on twins leaves twins. Both report the same hit for every number except -1, which only the linked card finds. |
| CrossVariant.ViewTwinsAgree | ICard.cs:5-8 | Twin cards show the same three flags and the same `IsWinner`. |
| CrossVariant.SelectViewTwins | ICard.cs:11 | Calling a ball on twin cards through the interface leaves twins. |
| CrossVariant.CreatedViewTwins | Card2.cs:142-165 | Cards created from the same draws are twins through the interface. |
| CrossVariant.SelectAllTwins | SingleRound.cs:33-37 | Twins stay twins, with equal flags, whatever sequence of balls is called. |
| CrossVariant.SameDrawsSameWins | Card2.cs:142-165 | A dense and a linked card from the same draws, called the same balls with no Reset, win in the same directions. |
| CrossVariant.FreeValueAnswers | Card2.cs:137-140 | For -1, the dense card's `SelectNumber` returns false and the linked card's returns true. |
| CrossVariant.FreeValueAnswersViews | ICard.cs:11 | Through the interface, `SelectNumber` of -1 answers false on a dense card from `CreateRandom` and true on a linked card from the same draws. |
| CrossVariant.ResetSplitsTwins | Card2.cs:68-74 | After Reset, twins still have the same selections, but the linked card's counts no longer match them. |
| CrossVariant.DenseGap | Card.cs:41-62 | After Reset, the dense card called the values at (2, 0), (2, 1) and (2, 3) has those cells and the centre selected, and is no winner. |
| CrossVariant.LinkedGap | Card2.cs:89-97 | After Reset, the linked card called the same values has the same selections and its horizontal flag raised. |
| CrossVariant.ThreeBallsSplitTwins | SingleRound.cs:23 | Fresh twins, both reset as a round starts and called those three values, select the same cells. The linked card wins and the dense card does not. |
| CrossVariant.RoundStartSplitsTwins | SingleRound.cs:23 | The same split holds for the cards `CreateRandom` makes from the same draws. |

## Left out

- Program.cs, the benchmark project and `Card.GetRandomCards` are not modelled. They are entry points, timing and console output.
- All `ToString` methods, the error message in `Card.SelectNumber` (Card.cs:59) and the summary line of `DoRounds` (MultipleRounds.cs:40) are left out, since they only produce output. `DoRounds` returns its three counters instead of printing them.
- `Stopwatch` timing is left out.
- The card numbers (`_nextCardNum`, `CardNum`) and the group ids are left out. They only serve display.
- `Parallel.ForEach` and the `lock` in `DoRound` (SingleRound.cs:23, 35-45) are modelled as sequential loops. The cards share no state, so one card's call does not affect another (`ResetOne`, `SelectOne`). The order of the winners list is card order rather than completion order. The tally does not depend on it.
- `System.Random` is an oracle of returned indices, with no distributional claim. `DoRounds` takes one oracle sequence per round where the source shares one generator.
- `DoRound`'s `round` parameter and its `pass` counter are left out. They feed only commented-out output.
- `ICard` is a datatype of references to the two card classes. The interface dispatch becomes a `match`.
- `Card2`'s dictionaries are a map from value to position and the cells as a 5×5 grid of values. The cell and group objects are values owned by the card. The source's cells and groups are separate heap objects linked to each other and to the card. No other object shares them, so nothing observable depends on it.
- The source constructs groups through a `CellGroup.Type` enum and an abstract `CellGroup` (Card2.cs:38, 47, 54-55). Those do not match CellGroup.cs as written. A group is modelled as a record tagged with its kind, whose Set follows the three overrides in CellGroup.cs:50-81.
- Several loops are split into their own methods, each with a contract:
  - `CreateRandom` into `SetColumn`, `SetRandomValues` and `SetColumnValues`;
  - `CheckWinningCard` into the three scans;
  - `DoRound` into `ResetCards`, `CallBalls`, `SelectBall` and `TallyWinners`;
  - the loop of `DoRounds` into `PlayRounds`.
- 32-bit integer overflow is not modelled. The round tallies are bounded by the number of cards, and the counters by `numRounds`. The uncleared group counts grow with every round (by up to 5 per round: a group through the centre gains one from Reset and at most four selections, any other group at most five selections), so their overflow after very many rounds is not modelled.
