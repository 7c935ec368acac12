/** The three candidate lists of the date picker
    (components/WheelPicker.tsx): `Array.from({ length: n }, (_, i) => start + i)`
    for 100 years around the current one, the months 1..12 and the days
    1..31 (the same 31 days for every month and year). */
module PickerRanges {
  import opened WheelIndex
  import opened Wrappers

  /** `length` consecutive integers from `start`, ascending. */
  function Range(start: int, length: nat): (r: seq<int>)
    ensures |r| == length
    ensures length > 0 ==> r[0] == start && r[length - 1] == start + length - 1
  {
    seq(length, i => start + i)
  }

  /** 100 consecutive years, from `currentYear - 50` to `currentYear + 49`. */
  function Years(currentYear: int): (r: seq<int>)
    ensures |r| == 100 && r[0] == currentYear - 50 && r[99] == currentYear + 49
  {
    Range(currentYear - 50, 100)
  }

  /** The months 1 to 12 in order. */
  function Months(): (r: seq<int>)
    ensures |r| == 12 && r[0] == 1 && r[11] == 12
  {
    Range(1, 12)
  }

  /** The days 1 to 31, whatever the month and year. */
  function Days(): (r: seq<int>)
    ensures |r| == 31 && r[0] == 1 && r[30] == 31
  {
    Range(1, 31)
  }

  /** A range is strictly ascending, so no value appears in it twice. */
  lemma RangeAscending(start: int, length: nat)
    ensures var r := Range(start, length);
            forall i, j :: 0 <= i < j < |r| ==> r[i] < r[j]
  {
  }

  /** A value belongs to a range exactly when it lies between its ends,
      and then its first (and only) position is its distance from the
      start. */
  lemma RangeIndexOf(start: int, length: nat, v: int)
    ensures v in Range(start, length) <==> start <= v < start + length
    ensures start <= v < start + length ==> IndexOf(Range(start, length), v) == v - start
  {
    var r := Range(start, length);
    if start <= v < start + length {
      assert r[v - start] == v;
    }
    if v in r {
      var i :| 0 <= i < |r| && r[i] == v;
    }
  }

  /** A wheel over a range only ever reports a value inside the range. */
  lemma SelectionInRange(start: int, length: nat, selected: int, offset: int)
    ensures var r := SelectionAt(Range(start, length), selected, offset);
            r.Some? ==> start <= r.value < start + length
  {
  }

  /** `currentYear` sits at index 50 of `years`. */
  lemma YearsShape(currentYear: int)
    ensures Years(currentYear)[50] == currentYear
    ensures IndexOf(Years(currentYear), currentYear) == 50
  {
    RangeIndexOf(currentYear - 50, 100, currentYear);
  }

  /** The initial selections are candidates of their wheels: any month
      number `getMonth() + 1` and day `getDate()`, and a year within 50
      years of `currentYear`; each sits at its distance from the first
      candidate, which is where the sync effect scrolls at mount. */
  lemma InitialSelectionsListed(year: int, month: int, day: int, currentYear: int)
    requires 1 <= month <= 12 && 1 <= day <= 31
    requires currentYear - 50 <= year < currentYear + 50
    ensures IndexOf(Years(currentYear), year) == year - currentYear + 50
    ensures IndexOf(Months(), month) == month - 1
    ensures IndexOf(Days(), day) == day - 1
  {
    RangeIndexOf(currentYear - 50, 100, year);
    RangeIndexOf(1, 12, month);
    RangeIndexOf(1, 31, day);
  }

  /** The offsets the mount-time sync effect leaves each wheel at: the
      month and day wheels scroll to today's row, and so does the year
      wheel when the year is within 50 years of `currentYear` (otherwise
      it stays at the top). */
  lemma InitialOffsets(year: int, month: int, day: int, currentYear: int)
    requires 1 <= month <= 12 && 1 <= day <= 31
    ensures SyncedOffset(Months(), month, false, 0) == ItemHeight * (month - 1)
    ensures SyncedOffset(Days(), day, false, 0) == ItemHeight * (day - 1)
    ensures currentYear - 50 <= year < currentYear + 50 ==>
              SyncedOffset(Years(currentYear), year, false, 0) == ItemHeight * (year - currentYear + 50)
    ensures !(currentYear - 50 <= year < currentYear + 50) ==>
              SyncedOffset(Years(currentYear), year, false, 0) == 0
  {
    RangeIndexOf(currentYear - 50, 100, year);
    RangeIndexOf(1, 12, month);
    RangeIndexOf(1, 31, day);
    if currentYear - 50 <= year < currentYear + 50 {
      MountOffset(Years(currentYear), year);
    }
    MountOffset(Months(), month);
    MountOffset(Days(), day);
  }
}
