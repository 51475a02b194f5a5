/**
 * The month grid of the answer screen: `buildCalendar` lays the days of a
 * month into rows of seven cells, Sunday first, with blanks before the
 * first and after the last day.
 */
module CalendarGrid {
  import opened Options
  import opened CalendarDates

  type Cell = Option<int>

  /** How many rows `buildCalendar` makes: the first row always, then one per further week begun. */
  function Rows(firstDay: int, lastDate: int): (n: nat)
    ensures n >= 1
  {
    1 + Max(0, (lastDate + firstDay - 1) / 7)
  }

  /** The cell in row `r`, column `c`: the day numbered by its place after the blanks, if there is one. */
  function CellAt(firstDay: int, lastDate: int, r: int, c: int): Cell
  {
    var n := 7 * r + c - firstDay + 1;
    if r == 0 then (if c < firstDay then None else Some(n))
    else if n <= lastDate then Some(n) else None
  }

  /** The grid cell by cell. */
  function Grid(firstDay: int, lastDate: int): (g: seq<seq<Cell>>)
    ensures |g| == Rows(firstDay, lastDate)
    ensures forall r :: 0 <= r < |g| ==> |g[r]| == 7
    ensures forall r, c :: 0 <= r < |g| && 0 <= c < 7 ==> g[r][c] == CellAt(firstDay, lastDate, r, c)
  {
    RowsUpTo(firstDay, lastDate, Rows(firstDay, lastDate))
  }

  /** The first `k` rows of the grid. */
  function RowsUpTo(firstDay: int, lastDate: int, k: nat): seq<seq<Cell>>
  {
    seq(k, (r: int) => RowOf(firstDay, lastDate, r, 7))
  }

  /** The first `j` cells of row `r`. */
  function RowOf(firstDay: int, lastDate: int, r: int, j: nat): seq<Cell>
  {
    seq(j, (c: int) => CellAt(firstDay, lastDate, r, c))
  }

  /** The number row `k >= 1` starts with: the first row holds `7 - firstDay` days. */
  function Start(firstDay: int, k: nat): int
  {
    7 * k - firstDay + 1
  }

  /** `buildCalendar(year, month, day)` once `firstDay` and `lastDate` are known. */
  method BuildCalendar(firstDay: int, lastDate: int) returns (weeks: seq<seq<Cell>>)
    requires 0 <= firstDay <= 6
    ensures weeks == Grid(firstDay, lastDate)
  {
    var d := 1;
    var firstRow: seq<Cell> := [];
    var i := 0;
    while i < 7
      invariant 0 <= i <= 7
      invariant d == 1 + Max(0, i - firstDay)
      invariant firstRow == RowOf(firstDay, lastDate, 0, i)
    {
      if i < firstDay {
        firstRow := firstRow + [None];
      } else {
        firstRow := firstRow + [Some(d)];
        d := d + 1;
      }
      i := i + 1;
    }
    weeks := [firstRow];
    assert weeks == RowsUpTo(firstDay, lastDate, 1);
    while d <= lastDate
      invariant 1 <= |weeks| <= Rows(firstDay, lastDate)
      invariant |weeks| == 1 ==> d == Start(firstDay, 1)
      invariant |weeks| >= 2 ==> d == Min(Start(firstDay, |weeks|), lastDate + 1)
      invariant |weeks| >= 2 ==> Start(firstDay, |weeks| - 1) <= lastDate
      invariant weeks == RowsUpTo(firstDay, lastDate, |weeks|)
      decreases lastDate - d
    {
      var k := |weeks|;
      assert d == Start(firstDay, k);
      var row: seq<Cell> := [];
      var j := 0;
      while j < 7
        invariant 0 <= j <= 7
        invariant d == Min(Start(firstDay, k) + j, lastDate + 1)
        invariant row == RowOf(firstDay, lastDate, k, j)
      {
        if d <= lastDate {
          row := row + [Some(d)];
          d := d + 1;
        } else {
          row := row + [None];
        }
        j := j + 1;
      }
      weeks := weeks + [row];
      assert weeks == RowsUpTo(firstDay, lastDate, k + 1);
    }
    RowsExit(firstDay, lastDate, |weeks|, d);
  }

  /** When the filling loop stops, it has made every row. */
  lemma RowsExit(firstDay: int, lastDate: int, k: nat, d: int)
    requires 0 <= firstDay <= 6 && 1 <= k <= Rows(firstDay, lastDate) && d > lastDate
    requires k == 1 ==> d == Start(firstDay, 1)
    requires k >= 2 ==> d == Min(Start(firstDay, k), lastDate + 1)
    requires k >= 2 ==> Start(firstDay, k - 1) <= lastDate
    ensures k == Rows(firstDay, lastDate)
  {
  }

  /** `buildCalendar` for a date: the weekday of its first and the length of its month. */
  method CalendarFor(date: Date) returns (weeks: seq<seq<Cell>>)
    requires 1 <= date.month <= 12
    ensures weeks == Grid(FirstDay(date.year, date.month), LastDate(date.year, date.month))
  {
    weeks := BuildCalendar(FirstDay(date.year, date.month), LastDate(date.year, date.month));
  }

  /** Every row has seven cells, and the first row starts with exactly `firstDay` blanks. */
  lemma FirstRowBlanks(firstDay: int, lastDate: int)
    requires 0 <= firstDay <= 6
    ensures var g := Grid(firstDay, lastDate);
      && (forall r :: 0 <= r < |g| ==> |g[r]| == 7)
      && (forall c :: 0 <= c < 7 ==> (g[0][c] == None <==> c < firstDay))
      && g[0][firstDay] == Some(1)
  {
  }

  /** For a row count `ceil((firstDay + lastDate) / 7)`, as the layout promises. */
  lemma RowCount(firstDay: int, lastDate: int)
    requires 0 <= firstDay <= 6 && lastDate >= 1
    ensures Rows(firstDay, lastDate) == (firstDay + lastDate + 6) / 7
  {
  }

  /**
   * Once the first row reaches the last day (`firstDay + lastDate >= 7`,
   * true of every month), each non-blank cell holds a day of the month, the
   * one its place in reading order gives.
   */
  lemma CellsAreDays(firstDay: int, lastDate: int, r: nat, c: nat, n: int)
    requires 0 <= firstDay <= 6 && firstDay + lastDate >= 7
    requires r < Rows(firstDay, lastDate) && c < 7
    requires Grid(firstDay, lastDate)[r][c] == Some(n)
    ensures 1 <= n <= lastDate
    ensures 7 * r + c == firstDay + n - 1
  {
  }

  /** Each day of the month is in the grid, in the row and column its place gives. */
  lemma DaysAreCells(firstDay: int, lastDate: int, n: int)
    requires 0 <= firstDay <= 6 && 1 <= n <= lastDate
    ensures var p := firstDay + n - 1;
      && p / 7 < Rows(firstDay, lastDate)
      && Grid(firstDay, lastDate)[p / 7][p % 7] == Some(n)
  {
    var p := firstDay + n - 1;
    assert p == 7 * (p / 7) + p % 7;
  }

  /** So the day of the round is highlighted in exactly one cell. */
  lemma TargetCellUnique(firstDay: int, lastDate: int, n: int, r: nat, c: nat)
    requires 0 <= firstDay <= 6 && firstDay + lastDate >= 7 && 1 <= n <= lastDate
    requires r < Rows(firstDay, lastDate) && c < 7
    ensures Grid(firstDay, lastDate)[r][c] == Some(n) <==>
      (r == (firstDay + n - 1) / 7 && c == (firstDay + n - 1) % 7)
  {
    DaysAreCells(firstDay, lastDate, n);
    if Grid(firstDay, lastDate)[r][c] == Some(n) {
      CellsAreDays(firstDay, lastDate, r, c, n);
    }
  }

  /** Reading order is day order: a later non-blank cell holds a later day. */
  lemma ReadingOrder(firstDay: int, lastDate: int, r1: nat, c1: nat, n1: int, r2: nat, c2: nat, n2: int)
    requires 0 <= firstDay <= 6 && firstDay + lastDate >= 7
    requires r1 < Rows(firstDay, lastDate) && c1 < 7 && r2 < Rows(firstDay, lastDate) && c2 < 7
    requires Grid(firstDay, lastDate)[r1][c1] == Some(n1) && Grid(firstDay, lastDate)[r2][c2] == Some(n2)
    ensures 7 * r1 + c1 < 7 * r2 + c2 <==> n1 < n2
  {
    CellsAreDays(firstDay, lastDate, r1, c1, n1);
    CellsAreDays(firstDay, lastDate, r2, c2, n2);
  }

  /** Blanks after the days are only in the last row; earlier rows past the first are full. */
  lemma TrailingBlanksLastRow(firstDay: int, lastDate: int, r: nat, c: nat)
    requires 0 <= firstDay <= 6 && firstDay + lastDate >= 7
    requires 1 <= r < Rows(firstDay, lastDate) && c < 7
    requires Grid(firstDay, lastDate)[r][c] == None
    ensures r == Rows(firstDay, lastDate) - 1
    ensures forall c' :: c <= c' < 7 ==> Grid(firstDay, lastDate)[r][c'] == None
  {
  }

  /** The column of a day is its weekday: Sunday is column 0. */
  lemma ColumnIsWeekday(date: Date)
    requires 1 <= date.month <= 12 && date.day >= 1
    ensures (FirstDay(date.year, date.month) + date.day - 1) % 7 == Weekday(date)
  {
    WeekdayInMonth(date);
  }

  /** Every month's grid meets the condition of the lemmas above. */
  lemma MonthsFill(y: int, m: int)
    requires 1 <= m <= 12
    ensures FirstDay(y, m) + LastDate(y, m) >= 7
  {
  }
}
