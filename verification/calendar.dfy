// src/calendar.js: the month calendar in the clock's menu. Dates are whole
// days, numbered consecutively, with day 0 a Monday; the calendar facts the
// extension takes from GLib (year, day of year, month, week of year, the 1st
// of a month, adding months, the month's title) are functions supplied by an
// `Almanac`. The grid is 7 day columns by 6 week rows of consecutive days
// starting on a Monday.
module Calendar {
  import opened Common
  import opened Elements
  import Menu

  /** `get_day_of_week`: 1 for Monday up to 7 for Sunday. */
  function DayOfWeek(d: int): (r: int)
    ensures 1 <= r <= 7
  {
    d % 7 + 1
  }

  /** The calendar facts read from `GLib.DateTime`. */
  datatype Almanac = Almanac(
    year: int -> int,
    dayOfYear: int -> int,
    month: int -> int,
    dayOfMonth: int -> nat,
    weekOfYear: int -> nat,
    /** The day `new_local(year, month, 1, ...)` makes from a day's year and month. */
    firstOfMonth: int -> int,
    /** `add_months(n)` */
    addMonths: (int, int) -> int,
    /** `format('%B %Y')` */
    monthTitle: int -> string)

  /**
   * A calendar with the properties the grid relies on: a year and a day of
   * the year name one day, and a month's 1st lies within 31 days before
   * any day of that month.
   */
  ghost predicate Sound(al: Almanac)
  {
    && (forall a, b :: al.year(a) == al.year(b) && al.dayOfYear(a) == al.dayOfYear(b) ==> a == b)
    && (forall d :: al.firstOfMonth(d) <= d < al.firstOfMonth(d) + 31)
  }

  /**
   * `_equal_dates`: false when either date is missing; otherwise whether the
   * two fall in the same year on the same day of the year.
   */
  function EqualDates(lhs: Option<int>, rhs: Option<int>, al: Almanac): (r: bool)
    ensures lhs.None? || rhs.None? ==> !r
    ensures lhs.Some? && rhs.Some? && lhs.value == rhs.value ==> r
  {
    lhs.Some? && rhs.Some?
    && al.year(lhs.value) == al.year(rhs.value) && al.dayOfYear(lhs.value) == al.dayOfYear(rhs.value)
  }

  /** `_equal_dates` does not depend on the order of its arguments. */
  lemma EqualDatesSymmetric(lhs: Option<int>, rhs: Option<int>, al: Almanac)
    ensures EqualDates(lhs, rhs, al) == EqualDates(rhs, lhs, al)
  {
  }

  /** In a sound calendar, two present dates are equal exactly when they are the same day. */
  lemma EqualDatesSameDay(a: int, b: int, al: Almanac)
    requires Sound(al)
    ensures EqualDates(Some(a), Some(b), al) <==> a == b
  {
  }

  /**
   * The first day the grid shows: the Monday on or before the 1st of the
   * selected month, a week earlier when the 1st is itself that Monday.
   */
  function StartDate(selected: int, al: Almanac): int
  {
    var first := al.firstOfMonth(selected);
    var start := first + 1 - DayOfWeek(first);
    if EqualDates(Some(start), Some(first), al) then start - 7 else start
  }

  /**
   * The grid starts on a Monday; the 1st of the month sits 1 to 7 days after
   * the start, and the selected day somewhere in the 42 cells.
   */
  lemma StartDateFacts(selected: int, al: Almanac)
    requires Sound(al)
    ensures DayOfWeek(StartDate(selected, al)) == 1
    ensures 1 <= al.firstOfMonth(selected) - StartDate(selected, al) <= 7
    ensures 0 < selected - StartDate(selected, al) < 42
  {
    var first := al.firstOfMonth(selected);
    var start := first + 1 - DayOfWeek(first);
    assert start == first - first % 7;
    assert start % 7 == 0 by {
      assert start == (first / 7) * 7;
    }
    EqualDatesSameDay(start, first, al);
    if start == first {
      assert (start - 7) % 7 == 0 by {
        assert start - 7 == (first / 7 - 1) * 7;
      }
    }
  }

  /** The day cell (x, y) shows. */
  function CellDate(start: int, x: nat, y: nat): int
  {
    start + x + 7 * y
  }

  /**
   * The grid shows the 42 days from the start and no others, each in
   * exactly one cell.
   */
  lemma GridShowsEachDayOnce(start: int, d: int)
    ensures start <= d < start + 42 <==> exists x: nat, y: nat :: x < 7 && y < 6 && CellDate(start, x, y) == d
    ensures forall x1: nat, y1: nat, x2: nat, y2: nat ::
      x1 < 7 && y1 < 6 && x2 < 7 && y2 < 6 && CellDate(start, x1, y1) == d && CellDate(start, x2, y2) == d
      ==> x1 == x2 && y1 == y2
  {
    if start <= d < start + 42 {
      var x: nat, y: nat := (d - start) % 7, (d - start) / 7;
      assert CellDate(start, x, y) == d;
    }
  }

  /** Column x of a grid starting on a Monday holds weekday x + 1; Saturday and Sunday are the last two. */
  lemma ColumnWeekday(start: int, x: nat, y: nat)
    requires DayOfWeek(start) == 1 && x < 7
    ensures DayOfWeek(CellDate(start, x, y)) == x + 1
    ensures DayOfWeek(CellDate(start, x, y)) in {6, 7} <==> x >= 5
  {
    assert start % 7 == 0;
    assert CellDate(start, x, y) == (start / 7 + y) * 7 + x;
  }

  /** In a sound calendar, exactly one cell shows the selected day. */
  lemma SelectedShownOnce(selected: int, al: Almanac, x: nat, y: nat)
    requires Sound(al) && x < 7 && y < 6
    ensures EqualDates(Some(CellDate(StartDate(selected, al), x, y)), Some(selected), al)
      <==> 7 * y + x == selected - StartDate(selected, al)
  {
    EqualDatesSameDay(CellDate(StartDate(selected, al), x, y), selected, al);
  }

  // ---------------------------------------------------------------------
  // Decimal text

  function DigitChar(d: nat): (c: char)
    requires d < 10
    ensures '0' <= c <= '9' && c as int - '0' as int == d
  {
    ('0' as int + d) as char
  }

  /** `${n}`: n in decimal, without leading zeros. */
  function Decimal(n: nat): (r: string)
    ensures |r| >= 1 && forall i :: 0 <= i < |r| ==> '0' <= r[i] <= '9'
    ensures n < 10 ==> |r| == 1
    ensures n < 100 ==> |r| <= 2
  {
    if n < 10 then [DigitChar(n)] else Decimal(n / 10) + [DigitChar(n % 10)]
  }

  /** The number a string of decimal digits denotes. */
  function ValueOf(s: string): nat
    requires forall i :: 0 <= i < |s| ==> '0' <= s[i] <= '9'
  {
    if s == [] then 0 else 10 * ValueOf(s[..|s| - 1]) + (s[|s| - 1] as int - '0' as int)
  }

  /** Reading back a number's decimal text gives the number. */
  lemma {:induction false} DecimalRoundTrip(n: nat)
    ensures ValueOf(Decimal(n)) == n
  {
    if n >= 10 {
      DecimalRoundTrip(n / 10);
      var s := Decimal(n);
      assert s[..|s| - 1] == Decimal(n / 10);
    }
  }

  /** `padStart(2, '0')` */
  function PadStart2(s: string): (r: string)
    ensures |r| == if |s| >= 2 then |s| else 2
    ensures |s| >= 2 ==> r == s
    ensures |s| == 1 ==> r[1] == s[0]
    ensures forall i :: 0 <= i < |r| - |s| ==> r[i] == '0'
  {
    if |s| >= 2 then s else if |s| == 1 then ['0'] + s else "00"
  }

  /** A leading zero does not change the value of a digit string. */
  lemma {:induction false} LeadingZero(s: string)
    requires forall i :: 0 <= i < |s| ==> '0' <= s[i] <= '9'
    ensures ValueOf(['0'] + s) == ValueOf(s)
  {
    if s != [] {
      var t := ['0'] + s;
      assert t[..|t| - 1] == ['0'] + s[..|s| - 1];
      LeadingZero(s[..|s| - 1]);
    }
  }

  /** A week label: two digits for every week number below 100, which read back as the week number. */
  lemma WeekLabel(week: nat)
    requires week < 100
    ensures |PadStart2(Decimal(week))| == 2
    ensures forall i :: 0 <= i < 2 ==> '0' <= PadStart2(Decimal(week))[i] <= '9'
    ensures ValueOf(PadStart2(Decimal(week))) == week
  {
    DecimalRoundTrip(week);
    var s := Decimal(week);
    if |s| == 1 {
      assert PadStart2(s) == ['0'] + s;
      LeadingZero(s);
    }
  }

  // ---------------------------------------------------------------------
  // The grid

  /** A `Cell` or `HeaderCell`: its label's text, its own style classes and its label's. */
  datatype CellView = CellView(text: string, classes: set<string>, labelClasses: set<string>)

  /** `new Cell(text)`: a button whose label is "mono". */
  function NewCell(text: string): CellView
  {
    CellView(text, {"classic-button"}, {"classic-label", "mono"})
  }

  /** `new HeaderCell(text)`: a cell whose label is also "bg". */
  function NewHeaderCell(text: string): CellView
  {
    CellView(text, {"classic-button"}, {"classic-label", "mono", "bg"})
  }

  /** `style_class_name` of a cell: on the cell and on its label. */
  function Styled(c: CellView, active: bool, name: string): CellView
  {
    c.(classes := WithClass(c.classes, active, name), labelClasses := WithClass(c.labelClasses, active, name))
  }

  /** Week header `y` after `_update_for_date`. */
  function WeekCell(c: CellView, start: int, y: nat, currentWeek: nat, al: Almanac): CellView
  {
    var week := al.weekOfYear(start + 7 * y);
    Styled(c.(text := PadStart2(Decimal(week))), week == currentWeek, "selected")
  }

  /** Day-cell (x, y) after `_update_for_date`. */
  function DayCell(c: CellView, start: int, x: nat, y: nat, selected: int, al: Almanac): CellView
  {
    var date := CellDate(start, x, y);
    var c1 := Styled(c.(text := Decimal(al.dayOfMonth(date))), EqualDates(Some(date), Some(selected), al), "framed");
    var c2 := c1.(labelClasses := WithClass(c1.labelClasses, al.month(selected) != al.month(date), "bg"));
    Styled(c2, DayOfWeek(date) == 6 || DayOfWeek(date) == 7, "special")
  }

  /**
   * A day cell shows its day of the month; it is framed iff it shows the
   * selected date, its label is bg iff the cell is in another month, and it
   * is special iff it is a Saturday or Sunday; its other classes are kept.
   */
  lemma DayCellFacts(c: CellView, start: int, x: nat, y: nat, selected: int, al: Almanac)
    ensures var r := DayCell(c, start, x, y, selected, al);
      && r.text == Decimal(al.dayOfMonth(CellDate(start, x, y)))
      && ("framed" in r.classes <==> EqualDates(Some(CellDate(start, x, y)), Some(selected), al))
      && ("bg" in r.labelClasses <==> al.month(selected) != al.month(CellDate(start, x, y)))
      && ("special" in r.classes <==> DayOfWeek(CellDate(start, x, y)) in {6, 7})
      && (forall k :: k in c.classes && k !in {"framed", "special"} ==> k in r.classes)
  {
  }

  class Calendar {
    const al: Almanac
    /** The pager's middle button: the shown month's title. */
    var title: string
    /** `_days`: the weekday headers. */
    const days: array<CellView>
    /** `_weeks`: the week-number headers. */
    const weeks: array<CellView>
    /** `_cells[x][y]` */
    const cells: array2<CellView>
    var selectedDate: int
    var currentDate: int
    var visible: bool

    ghost predicate Valid()
      reads this
    {
      days.Length == 7 && weeks.Length == 6 && cells.Length0 == 7 && cells.Length1 == 6 && days != weeks
    }

    /** The grid as `_update_for_date(selected)` leaves it, from header cells `days0`, `weeks0` and day cells `cells0`. */
    ghost predicate ShowsMonth(selected: int, days0: seq<CellView>, weeks0: seq<CellView>, cells0: (int, int) -> CellView)
      requires Valid() && |days0| == 7 && |weeks0| == 6
      reads this, days, weeks, cells
    {
      var start := StartDate(selected, al);
      && title == al.monthTitle(selected)
      && (forall y :: 0 <= y < 6 ==> weeks[y] == WeekCell(weeks0[y], start, y, al.weekOfYear(selected), al))
      && (forall x :: 0 <= x < 7 ==> days[x] == Styled(days0[x], x + 1 == DayOfWeek(selected), "selected"))
      && (forall x, y :: 0 <= x < 7 && 0 <= y < 6 ==> cells[x, y] == DayCell(cells0(x, y), start, x, y, selected, al))
    }

    constructor (now: int, al: Almanac)
      ensures Valid() && fresh(days) && fresh(weeks) && fresh(cells)
      ensures this.al == al && selectedDate == now && currentDate == now && visible
      ensures ShowsMonth(now,
        seq(7, x requires 0 <= x < 7 => NewHeaderCell(["Mon", "Tue", "Wed", "Thu", "Fri", "Sat", "Sun"][x])),
        seq(6, _ => NewHeaderCell("00")),
        (_, _) => NewCell("..."))
    {
      this.al := al;
      var names := ["Mon", "Tue", "Wed", "Thu", "Fri", "Sat", "Sun"];
      days := new CellView[7](x requires 0 <= x < 7 => NewHeaderCell(names[x]));
      weeks := new CellView[6](_ => NewHeaderCell("00"));
      cells := new CellView[7, 6]((_, _) => NewCell("..."));
      title := "...";
      selectedDate, currentDate := now, now;
      visible := true;
      new;
      assert days[..] == seq(7, x requires 0 <= x < 7 => NewHeaderCell(["Mon", "Tue", "Wed", "Thu", "Fri", "Sat", "Sun"][x]));
      assert weeks[..] == seq(6, _ => NewHeaderCell("00"));
      UpdateForDate(now);
    }

    /** The week-header loop of `_update_for_date`. */
    method UpdateWeeks(start: int, currentWeek: nat)
      requires Valid()
      modifies weeks
      ensures forall y :: 0 <= y < 6 ==> weeks[y] == WeekCell(old(weeks[y]), start, y, currentWeek, al)
    {
      for y := 0 to 6
        invariant forall k :: 0 <= k < y ==> weeks[k] == WeekCell(old(weeks[k]), start, k, currentWeek, al)
        invariant forall k :: y <= k < 6 ==> weeks[k] == old(weeks[k])
      {
        weeks[y] := WeekCell(weeks[y], start, y, currentWeek, al);
      }
    }

    /** The inner loop of `_update_for_date`: every day cell of column `x` passes through `update`. */
    method UpdateColumn(x: nat, update: (nat, CellView) -> CellView)
      requires Valid() && x < 7
      modifies cells
      ensures forall j :: 0 <= j < 6 ==> cells[x, j] == update(j, old(cells[x, j]))
      ensures forall i, j :: 0 <= i < 7 && i != x && 0 <= j < 6 ==> cells[i, j] == old(cells[i, j])
    {
      for y := 0 to 6
        invariant forall j :: 0 <= j < y ==> cells[x, j] == update(j, old(cells[x, j]))
        invariant forall j :: y <= j < 6 ==> cells[x, j] == old(cells[x, j])
        invariant forall i, j :: 0 <= i < 7 && i != x && 0 <= j < 6 ==> cells[i, j] == old(cells[i, j])
      {
        cells[x, y] := update(y, cells[x, y]);
      }
    }

    /**
     * `_update_for_date(selected)`: the title, then each week header, then
     * each weekday header with its column of day cells.
     */
    method UpdateForDate(selected: int)
      requires Valid()
      modifies this, days, weeks, cells
      ensures Valid() && ShowsMonth(selected, old(days[..]), old(weeks[..]), (x, y) => old(if 0 <= x < 7 && 0 <= y < 6 then cells[x, y] else NewCell("")))
      ensures selectedDate == old(selectedDate) && currentDate == old(currentDate) && visible == old(visible)
    {
      title := al.monthTitle(selected);
      var start := StartDate(selected, al);
      var currentDay := DayOfWeek(selected);
      UpdateWeeks(start, al.weekOfYear(selected));
      for x := 0 to 7
        invariant title == al.monthTitle(selected)
        invariant selectedDate == old(selectedDate) && currentDate == old(currentDate) && visible == old(visible)
        invariant forall k :: 0 <= k < x ==> days[k] == Styled(old(days[k]), k + 1 == currentDay, "selected")
        invariant forall k :: x <= k < 7 ==> days[k] == old(days[k])
        invariant forall i, j :: 0 <= i < x && 0 <= j < 6 ==> cells[i, j] == DayCell(old(cells[i, j]), start, i, j, selected, al)
        invariant forall i, j :: x <= i < 7 && 0 <= j < 6 ==> cells[i, j] == old(cells[i, j])
        invariant forall k :: 0 <= k < 6 ==> weeks[k] == WeekCell(old(weeks[k]), start, k, al.weekOfYear(selected), al)
      {
        days[x] := Styled(days[x], x + 1 == currentDay, "selected");
        UpdateColumn(x, (j: nat, c: CellView) => DayCell(c, start, x, j, selected, al));
      }
    }

    /**
     * `_update`, run when the clock ticks over: nothing when today is still
     * the stored current date; otherwise both dates become today and the
     * grid shows today's month.
     */
    method Update(now: int)
      requires Valid()
      modifies this, days, weeks, cells
      ensures Valid() && visible == old(visible)
      ensures EqualDates(Some(now), Some(old(currentDate)), al) ==>
        selectedDate == old(selectedDate) && currentDate == old(currentDate) && title == old(title)
        && days[..] == old(days[..]) && weeks[..] == old(weeks[..]) && unchanged(cells)
      ensures !EqualDates(Some(now), Some(old(currentDate)), al) ==>
        selectedDate == now && currentDate == now
        && ShowsMonth(now, old(days[..]), old(weeks[..]), (x, y) => old(if 0 <= x < 7 && 0 <= y < 6 then cells[x, y] else NewCell("")))
    {
      if EqualDates(Some(now), Some(currentDate), al) {
        return;
      }
      currentDate := now;
      selectedDate := currentDate;
      UpdateForDate(selectedDate);
    }

    /** The pager's previous (-1) or next (+1) button: move the selection by months and redraw. */
    method Page(months: int)
      requires Valid()
      modifies this, days, weeks, cells
      ensures Valid() && selectedDate == al.addMonths(old(selectedDate), months)
      ensures currentDate == old(currentDate) && visible == old(visible)
      ensures ShowsMonth(selectedDate, old(days[..]), old(weeks[..]), (x, y) => old(if 0 <= x < 7 && 0 <= y < 6 then cells[x, y] else NewCell("")))
    {
      selectedDate := al.addMonths(selectedDate, months);
      UpdateForDate(selectedDate);
    }

    /** The pager's middle button: select today and redraw; the current date is left as it was. */
    method Today(now: int)
      requires Valid()
      modifies this, days, weeks, cells
      ensures Valid() && selectedDate == now
      ensures currentDate == old(currentDate) && visible == old(visible)
      ensures ShowsMonth(now, old(days[..]), old(weeks[..]), (x, y) => old(if 0 <= x < 7 && 0 <= y < 6 then cells[x, y] else NewCell("")))
    {
      selectedDate := now;
      UpdateForDate(selectedDate);
    }
  }

  /**
   * `CalendarMenu`: a popup that does not close on outside clicks, holding
   * one calendar, which redraws on every 'show' and closes when the
   * overview starts showing.
   */
  class CalendarMenu {
    const popup: Menu.PopupMenu
    const calendar: Calendar

    constructor (now: int, al: Almanac)
      ensures fresh(popup) && fresh(calendar) && popup.Valid() && calendar.Valid()
      ensures !popup.autoclose && !popup.visible && popup.entries == [Menu.Custom]
      ensures calendar.al == al && calendar.currentDate == now && calendar.visible
    {
      var p := new Menu.PopupMenu(Some(false));
      var c := new Calendar(now, al);
      p.AddCustomItem();
      popup := p;
      calendar := c;
    }

    /**
     * `_update`, on the clock's ticks: the calendar refreshes only while it
     * is visible, and then only when the day has changed.
     */
    method Refresh(now: int)
      requires calendar.Valid()
      modifies calendar, calendar.days, calendar.weeks, calendar.cells
      ensures calendar.Valid() && calendar.visible == old(calendar.visible)
      ensures !old(calendar.visible) || EqualDates(Some(now), Some(old(calendar.currentDate)), calendar.al) ==>
        && calendar.selectedDate == old(calendar.selectedDate) && calendar.currentDate == old(calendar.currentDate)
        && calendar.title == old(calendar.title)
        && calendar.days[..] == old(calendar.days[..]) && calendar.weeks[..] == old(calendar.weeks[..])
        && unchanged(calendar.cells)
      ensures old(calendar.visible) && !EqualDates(Some(now), Some(old(calendar.currentDate)), calendar.al) ==>
        && calendar.currentDate == now && calendar.selectedDate == now
        && calendar.ShowsMonth(now, old(calendar.days[..]), old(calendar.weeks[..]),
             (x, y) => old(if 0 <= x < 7 && 0 <= y < 6 then calendar.cells[x, y] else NewCell("")))
    {
      if calendar.visible {
        calendar.Update(now);
      }
    }

    /** The 'show' handler: the calendar's `_update`, whether or not the calendar is visible. */
    method Showing(now: int)
      requires calendar.Valid()
      modifies calendar, calendar.days, calendar.weeks, calendar.cells
      ensures calendar.Valid() && calendar.visible == old(calendar.visible)
      ensures EqualDates(Some(now), Some(old(calendar.currentDate)), calendar.al) ==>
        && calendar.selectedDate == old(calendar.selectedDate) && calendar.currentDate == old(calendar.currentDate)
        && calendar.title == old(calendar.title)
        && calendar.days[..] == old(calendar.days[..]) && calendar.weeks[..] == old(calendar.weeks[..])
        && unchanged(calendar.cells)
      ensures !EqualDates(Some(now), Some(old(calendar.currentDate)), calendar.al) ==>
        && calendar.currentDate == now && calendar.selectedDate == now
        && calendar.ShowsMonth(now, old(calendar.days[..]), old(calendar.weeks[..]),
             (x, y) => old(if 0 <= x < 7 && 0 <= y < 6 then calendar.cells[x, y] else NewCell("")))
    {
      calendar.Update(now);
    }

    /** `_overview_showing`: close the menu. */
    method OverviewShowing()
      requires popup.Valid()
      modifies popup
      ensures popup.Valid() && !popup.visible && !popup.grab
    {
      popup.CloseMenu();
    }
  }
}
