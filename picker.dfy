/** The date picker (components/WheelPicker.tsx): three selections
    (year, month, day), each shown by its own wheel over its candidate
    list, and the composed date label. A selection changes only through
    the `onSelect` of its own wheel; every such change re-renders the
    picker, which hands every wheel freshly built (equal) candidate lists
    and its selection, so every wheel's sync effect runs again. */
module Picker {
  import opened Wrappers
  import opened WheelIndex
  import opened WheelState
  import opened PickerRanges
  import opened PickerText

  class WheelPicker {
    /** `new Date().getFullYear()`, taken at mount. */
    const currentYear: int
    const yearWheel: Wheel
    const monthWheel: Wheel
    const dayWheel: Wheel
    /** The `years`, `months` and `days` lists. Every render builds them
        afresh with the same contents, so the model builds them once. */
    const years: seq<int>
    const months: seq<int>
    const days: seq<int>
    /** The `selectedYear`, `selectedMonth` and `selectedDay` states. */
    var selectedYear: int
    var selectedMonth: int
    var selectedDay: int

    function WheelOf(u: Unit): Wheel
    {
      match u
      case Year => yearWheel
      case Month => monthWheel
      case Day => dayWheel
    }

    function ItemsOf(u: Unit): seq<int>
    {
      match u
      case Year => years
      case Month => months
      case Day => days
    }

    function Selected(u: Unit): int
      reads this
    {
      match u
      case Year => selectedYear
      case Month => selectedMonth
      case Day => selectedDay
    }

    /** The three wheels are distinct, each is in a consistent state, and
        each shows its candidate list; every month candidate is a month
        number and every day candidate a day number. */
    ghost predicate WheelsValid()
      reads yearWheel, monthWheel, dayWheel
    {
      yearWheel != monthWheel && yearWheel != dayWheel && monthWheel != dayWheel &&
      yearWheel.Valid() && monthWheel.Valid() && dayWheel.Valid() &&
      yearWheel.items == years &&
      monthWheel.items == months &&
      dayWheel.items == days &&
      (forall i :: 0 <= i < |months| ==> 1 <= months[i] <= 12) &&
      (forall i :: 0 <= i < |days| ==> 1 <= days[i] <= 31)
    }

    /** Besides `WheelsValid`, each wheel shows its selection, and the month
        and day selections are always among their wheels' candidates. */
    ghost predicate Valid()
      reads this, yearWheel, monthWheel, dayWheel
    {
      WheelsValid() &&
      1 <= selectedMonth <= 12 && 1 <= selectedDay <= 31 &&
      yearWheel.selected == selectedYear &&
      monthWheel.selected == selectedMonth &&
      dayWheel.selected == selectedDay
    }

    /** The date label `formatDate()` shown above the wheels: the year's
        text and unit, then the month and the day as two digits each, each
        followed by its unit. */
    function Label(): (s: string)
      reads this
      requires 1 <= selectedMonth <= 12 && 1 <= selectedDay <= 31
      ensures s == DecimalText(selectedYear) + "年 " +
                   [DigitChar(selectedMonth / 10), DigitChar(selectedMonth % 10)] + "月 " +
                   [DigitChar(selectedDay / 10), DigitChar(selectedDay % 10)] + "日"
    {
      FormatDateDigits(selectedYear, selectedMonth, selectedDay);
      FormatDate(selectedYear, selectedMonth, selectedDay)
    }

    /** Mount with today's date (`nowYear`, `getMonth() + 1`, `getDate()`)
        and the year the candidate years are centred on: each wheel starts
        idle, with no timer, on today's row (the year wheel at the top when
        the year is outside its list), and the label shows today's date. */
    constructor (nowYear: int, nowMonth: int, nowDay: int, currentYear: int)
      requires 1 <= nowMonth <= 12 && 1 <= nowDay <= 31
      ensures Valid() && fresh(yearWheel) && fresh(monthWheel) && fresh(dayWheel)
      ensures this.currentYear == currentYear
      ensures years == Years(currentYear) && months == Months() && days == Days()
      ensures selectedYear == nowYear && selectedMonth == nowMonth && selectedDay == nowDay
      ensures Label() == FormatDate(nowYear, nowMonth, nowDay)
      ensures monthWheel.domScrollTop == ItemHeight * (nowMonth - 1)
      ensures dayWheel.domScrollTop == ItemHeight * (nowDay - 1)
      ensures currentYear - 50 <= nowYear < currentYear + 50 ==>
                yearWheel.domScrollTop == ItemHeight * (nowYear - currentYear + 50)
      ensures !(currentYear - 50 <= nowYear < currentYear + 50) ==> yearWheel.domScrollTop == 0
      ensures !yearWheel.isUserScrolling && yearWheel.pendingTimers == {} && yearWheel.scrollTimeout == None
      ensures !monthWheel.isUserScrolling && monthWheel.pendingTimers == {} && monthWheel.scrollTimeout == None
      ensures !dayWheel.isUserScrolling && dayWheel.pendingTimers == {} && dayWheel.scrollTimeout == None
    {
      this.currentYear := currentYear;
      var ys, ms, ds := Years(currentYear), Months(), Days();
      years, months, days := ys, ms, ds;
      selectedYear, selectedMonth, selectedDay := nowYear, nowMonth, nowDay;
      yearWheel := new Wheel(ys, nowYear);
      monthWheel := new Wheel(ms, nowMonth);
      dayWheel := new Wheel(ds, nowDay);
      InitialOffsets(nowYear, nowMonth, nowDay, currentYear);
    }

    /** A render of the picker: every wheel receives its candidate list
        and its selection, and runs its sync effect. */
    method Render()
      requires WheelsValid()
      requires 1 <= selectedMonth <= 12 && 1 <= selectedDay <= 31
      modifies yearWheel`items, yearWheel`selected, yearWheel`domScrollTop, yearWheel`scrollTop,
               monthWheel`items, monthWheel`selected, monthWheel`domScrollTop, monthWheel`scrollTop,
               dayWheel`items, dayWheel`selected, dayWheel`domScrollTop, dayWheel`scrollTop
      ensures Valid()
      ensures yearWheel.domScrollTop ==
                SyncedOffset(years, selectedYear, yearWheel.isUserScrolling, old(yearWheel.domScrollTop))
      ensures monthWheel.domScrollTop ==
                SyncedOffset(months, selectedMonth, monthWheel.isUserScrolling, old(monthWheel.domScrollTop))
      ensures dayWheel.domScrollTop ==
                SyncedOffset(days, selectedDay, dayWheel.isUserScrolling, old(dayWheel.domScrollTop))
    {
      yearWheel.SetProps(years, selectedYear);
      monthWheel.SetProps(months, selectedMonth);
      dayWheel.SetProps(days, selectedDay);
    }

    /** `onSelect(v)` of wheel `u`: the wheel's own setter
        (`setSelectedYear`, `setSelectedMonth` or `setSelectedDay`), then
        the re-render it causes, in which every wheel runs its sync effect.
        A wheel reports only values of its own list, so a month or a day
        `v` lies in its range. */
    method OnSelect(u: Unit, v: int)
      requires WheelsValid()
      requires 1 <= selectedMonth <= 12 && 1 <= selectedDay <= 31
      requires u == Month ==> 1 <= v <= 12
      requires u == Day ==> 1 <= v <= 31
      modifies this`selectedYear, this`selectedMonth, this`selectedDay,
               yearWheel`items, yearWheel`selected, yearWheel`domScrollTop, yearWheel`scrollTop,
               monthWheel`items, monthWheel`selected, monthWheel`domScrollTop, monthWheel`scrollTop,
               dayWheel`items, dayWheel`selected, dayWheel`domScrollTop, dayWheel`scrollTop
      ensures Valid()
      ensures Selected(u) == v
      ensures forall w :: w != u ==> Selected(w) == old(Selected(w))
      ensures forall w :: WheelOf(w).domScrollTop ==
                SyncedOffset(ItemsOf(w), Selected(w), WheelOf(w).isUserScrolling, old(WheelOf(w).domScrollTop))
    {
      match u {
        case Year =>
          selectedYear := v;
        case Month =>
          selectedMonth := v;
        case Day =>
          selectedDay := v;
      }
      Render();
    }

    /** A scroll event on wheel `u` with its container at `offset`. When
        the wheel calls `onSelect`, only the selection of `u` changes and
        the picker re-renders: the scrolled wheel is marked as scrolling,
        so its own sync effect leaves the offset where the user put it,
        while each other wheel moves to its sync result (a wheel left
        between rows snaps back to its row). The other wheels' flags and
        timers are untouched. */
    method ScrollWheel(u: Unit, offset: int) returns (chosen: Option<int>)
      requires Valid()
      modifies this`selectedYear, this`selectedMonth, this`selectedDay,
               yearWheel, monthWheel, dayWheel
      ensures Valid()
      ensures chosen == SelectionAt(ItemsOf(u), old(Selected(u)), offset)
      ensures Selected(u) == if chosen.Some? then chosen.value else old(Selected(u))
      ensures forall w :: w != u ==> Selected(w) == old(Selected(w))
      ensures WheelOf(u).domScrollTop == offset && WheelOf(u).isUserScrolling
      ensures WheelOf(u).scrollTimeout == Some(old(WheelOf(u).nextTimerId))
      ensures WheelOf(u).pendingTimers == {old(WheelOf(u).nextTimerId)}
      ensures WheelOf(u).nextTimerId == old(WheelOf(u).nextTimerId) + 1
      ensures forall w :: w != u ==>
                WheelOf(w).isUserScrolling == old(WheelOf(w).isUserScrolling) &&
                WheelOf(w).scrollTimeout == old(WheelOf(w).scrollTimeout) &&
                WheelOf(w).pendingTimers == old(WheelOf(w).pendingTimers) &&
                WheelOf(w).nextTimerId == old(WheelOf(w).nextTimerId)
      ensures forall w :: w != u ==>
                WheelOf(w).domScrollTop ==
                  if chosen.Some?
                  then SyncedOffset(ItemsOf(w), Selected(w), old(WheelOf(w).isUserScrolling), old(WheelOf(w).domScrollTop))
                  else old(WheelOf(w).domScrollTop)
    {
      var wheel := WheelOf(u);
      chosen := wheel.Scroll(offset);
      if chosen.Some? {
        OnSelect(u, chosen.value);
      }
    }

    /** The debounce timer `id` of wheel `u` comes due. Only that wheel's
        flag and pending timers can change: no selection changes, no offset
        moves and nothing re-renders. */
    method TimerFires(u: Unit, id: nat)
      requires Valid()
      modifies WheelOf(u)`isUserScrolling, WheelOf(u)`pendingTimers
      ensures Valid()
      ensures id in old(WheelOf(u).pendingTimers) ==>
                !WheelOf(u).isUserScrolling && WheelOf(u).pendingTimers == {}
      ensures id !in old(WheelOf(u).pendingTimers) ==>
                WheelOf(u).isUserScrolling == old(WheelOf(u).isUserScrolling) &&
                WheelOf(u).pendingTimers == old(WheelOf(u).pendingTimers)
    {
      WheelOf(u).TimerFires(id);
    }
  }
}
