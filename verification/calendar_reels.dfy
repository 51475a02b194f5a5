/**
 * The three reels of the slot machine: their item lists, the year shown
 * (Gregorian or Buddhist Era), and the row each reel stops on inside its
 * strip of 30 copies of the items.
 */
module CalendarReels {
  import opened Options

  datatype YearType = Normal | Thai

  /** Height of a reel row in pixels. */
  const ItemHeight: nat := 220

  /** How many copies of its items a reel strip holds. */
  const Copies: nat := 30

  function Digit(k: nat): (c: char)
    requires k < 10
    ensures '0' <= c <= '9'
  {
    (48 + k) as char
  }

  function DigitValue(c: char): int
  {
    c as int - 48
  }

  /** `n.toString()` for a whole number: decimal digits, no leading zero. */
  function Show(n: nat): (s: string)
    ensures 1 <= |s|
    ensures forall i :: 0 <= i < |s| ==> '0' <= s[i] <= '9'
    ensures n >= 10 ==> |s| >= 2 && s[0] != '0'
    ensures n < 10 ==> |s| == 1
    decreases n
  {
    if n < 10 then [Digit(n)] else Show(n / 10) + [Digit(n % 10)]
  }

  /** Reading decimal digits back as a number. */
  function Parse(s: string): int
  {
    if |s| == 0 then 0 else 10 * Parse(s[..|s| - 1]) + DigitValue(s[|s| - 1])
  }

  lemma {:induction false} ParseShow(n: nat)
    ensures Parse(Show(n)) == n
    decreases n
  {
    var s := Show(n);
    if n >= 10 {
      assert s[..|s| - 1] == Show(n / 10);
      ParseShow(n / 10);
    }
  }

  /** Different numbers are shown differently. */
  lemma ShowInjective(a: nat, b: nat)
    ensures Show(a) == Show(b) <==> a == b
  {
    ParseShow(a);
    ParseShow(b);
  }

  /** `pad2`: `n.toString().padStart(2, "0")`. */
  function Pad2(n: nat): (s: string)
    ensures n < 10 ==> s == ['0'] + Show(n)
    ensures n >= 10 ==> s == Show(n)
    ensures n < 100 ==> |s| == 2
  {
    var s := Show(n);
    if |s| < 2 then ['0'] + s else s
  }

  /** Padding is read back too, so `pad2` keeps numbers apart. */
  lemma ParsePad2(n: nat)
    ensures Parse(Pad2(n)) == n
  {
    ParseShow(n);
    if n < 10 {
      var s := Pad2(n);
      assert s[..|s| - 1] == ['0'];
      assert Parse(['0']) == 10 * Parse([]) + DigitValue('0');
    }
  }

  lemma Pad2Injective(a: nat, b: nat)
    ensures Pad2(a) == Pad2(b) <==> a == b
  {
    ParsePad2(a);
    ParsePad2(b);
  }

  /** The year on screen: the Buddhist Era year is 543 ahead. */
  function DisplayYear(year: int, yearType: YearType): int
  {
    if yearType == Thai then year + 543 else year
  }

  lemma DisplayYearThai(year: int, yearType: YearType)
    ensures DisplayYear(year, yearType) == year + 543 <==> yearType == Thai
    ensures DisplayYear(year, yearType) == year <==> yearType == Normal
  {
  }

  /** "01" .. "31". */
  function DayItems(): (items: seq<string>)
    ensures |items| == 31
    ensures forall i :: 0 <= i < 31 ==> items[i] == Pad2(i + 1)
  {
    seq(31, (i: int) requires 0 <= i => Pad2(i + 1))
  }

  /** "01" .. "12". */
  function MonthItems(): (items: seq<string>)
    ensures |items| == 12
    ensures forall i :: 0 <= i < 12 ==> items[i] == Pad2(i + 1)
  {
    seq(12, (i: int) requires 0 <= i => Pad2(i + 1))
  }

  function YearOffset(yearType: YearType): nat
  {
    if yearType == Thai then 543 else 0
  }

  /** The 25 years 2000 .. 2024 as shown in the chosen format. */
  function YearItems(yearType: YearType): (items: seq<string>)
    ensures |items| == 25
    ensures forall i :: 0 <= i < 25 ==> items[i] == Show(YearOffset(yearType) + 2000 + i)
  {
    seq(25, (i: int) requires 0 <= i => Show(YearOffset(yearType) + 2000 + i))
  }

  /** The year list and the year shown use the same offset. */
  lemma YearItemsShowYear(yearType: YearType, i: int)
    requires 0 <= i < 25
    ensures YearItems(yearType)[i] == Show(DisplayYear(2000 + i, yearType))
  {
  }

  /** `items.findIndex(v => v === value)`. */
  function FindIndex(items: seq<string>, value: string): (r: int)
    ensures r == -1 <==> value !in items
    ensures r != -1 ==> 0 <= r < |items| && items[r] == value
    ensures r != -1 ==> forall j :: 0 <= j < r ==> items[j] != value
  {
    if |items| == 0 then -1
    else if items[0] == value then 0
    else
      var k := FindIndex(items[1..], value);
      if k == -1 then -1 else k + 1
  }

  /** The strip a reel scrolls: its items 30 times over. */
  function Strip(items: seq<string>): seq<string>
  {
    Repeat(items, Copies)
  }

  function Repeat(items: seq<string>, k: nat): (s: seq<string>)
    ensures |s| == k * |items|
  {
    if k == 0 then [] else Repeat(items, k - 1) + items
  }

  lemma {:induction false} RepeatAt(items: seq<string>, k: nat, j: nat, i: nat)
    requires j < k && i < |items|
    ensures j * |items| + i < k * |items|
    ensures Repeat(items, k)[j * |items| + i] == items[i]
  {
    var n := |items|;
    assert j * n + i < j * n + n == (j + 1) * n <= k * n;
    if j < k - 1 {
      RepeatAt(items, k - 1, j, i);
    } else {
      assert j * n == (k - 1) * n;
    }
  }

  /**
   * The row a reel stops on: none when the value is empty or missing,
   * else its first place in the items after `loops` full turns.
   */
  function ReelTarget(items: seq<string>, value: string, loops: nat): (r: Option<nat>)
    ensures r.None? <==> value == "" || value !in items
    // the target is in copy number `loops` of the items, at the value's first place there
    ensures r.Some? ==> loops * |items| <= r.value < loops * |items| + |items|
    ensures r.Some? ==> r.value - loops * |items| == FindIndex(items, value)
  {
    if value == "" then None
    else
      var base := FindIndex(items, value);
      if base == -1 then None
      else
        Some(base + loops * |items|)
  }

  /** With fewer than 30 turns the target row is in the strip and shows the value. */
  lemma ReelLandsOnValue(items: seq<string>, value: string, loops: nat)
    requires loops < Copies
    requires ReelTarget(items, value, loops).Some?
    ensures var t := ReelTarget(items, value, loops).value;
      && t < |Strip(items)|
      && Strip(items)[t] == value
      && ScrollDistance(t) == t * ItemHeight
  {
    var b := FindIndex(items, value);
    RepeatAt(items, Copies, loops, b);
    assert loops * |items| + b == b + loops * |items|;
  }

  /** How far the strip scrolls to show row `t`. */
  function ScrollDistance(t: nat): nat
  {
    t * ItemHeight
  }

  /** A value whose first place in the items is `k` is found at `k`. */
  lemma FoundAt(items: seq<string>, value: string, k: int)
    requires 0 <= k < |items| && items[k] == value
    requires forall j :: 0 <= j < k ==> items[j] != value
    ensures FindIndex(items, value) == k
  {
  }

  /** The day reel (12 turns) stops on the day of the round. */
  lemma DayReel(day: int)
    requires 1 <= day <= 31
    ensures ReelTarget(DayItems(), Pad2(day), 12) == Some(day - 1 + 12 * 31)
  {
    var items := DayItems();
    forall j | 0 <= j < day - 1
      ensures items[j] != Pad2(day)
    {
      Pad2Injective(j + 1, day);
    }
    FoundAt(items, Pad2(day), day - 1);
  }

  /** The month reel (13 turns) stops on the month of the round. */
  lemma MonthReel(month: int)
    requires 1 <= month <= 12
    ensures ReelTarget(MonthItems(), Pad2(month), 13) == Some(month - 1 + 13 * 12)
  {
    var items := MonthItems();
    forall j | 0 <= j < month - 1
      ensures items[j] != Pad2(month)
    {
      Pad2Injective(j + 1, month);
    }
    FoundAt(items, Pad2(month), month - 1);
  }

  /** The year of the round first appears in the year list at its distance from 2000. */
  lemma YearFirstPlace(year: int, yearType: YearType)
    requires 2000 <= year <= 2024
    ensures FindIndex(YearItems(yearType), Show(DisplayYear(year, yearType))) == year - 2000
  {
    var items := YearItems(yearType);
    var shown := DisplayYear(year, yearType);
    assert shown == YearOffset(yearType) + 2000 + (year - 2000);
    forall j | 0 <= j < year - 2000
      ensures items[j] != Show(shown)
    {
      ShowInjective(YearOffset(yearType) + 2000 + j, shown);
    }
    FoundAt(items, Show(shown), year - 2000);
  }

  /** The year reel (14 turns) stops on the year of the round in either format. */
  lemma YearReel(year: int, yearType: YearType)
    requires 2000 <= year <= 2024
    ensures ReelTarget(YearItems(yearType), Show(DisplayYear(year, yearType)), 14) == Some(year - 2000 + 14 * 25)
  {
    YearFirstPlace(year, yearType);
  }
}
