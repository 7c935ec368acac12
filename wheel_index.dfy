/** Offset arithmetic of the scroll wheel (components/Wheel.tsx): how a
    scroll offset becomes a row, the value a scroll event reports to
    `onSelect`, the first-occurrence lookup and the correction made by the
    sync effect, and the offset a click on a row scrolls to.

    Offsets are CSS pixels, measured from the top of the scroll container;
    row `i` is centred in the highlight band at offset `i * ItemHeight`. */
module WheelIndex {
  import opened Wrappers

  /** `ITEM_HEIGHT`: the height of one row. */
  const ItemHeight: int := 50

  function Abs(x: int): nat
  {
    if x < 0 then -x else x
  }

  /** `Math.round(offset / ITEM_HEIGHT)`. JavaScript rounds halves upward,
      which for a positive divisor is floor((offset + H/2) / H). The result
      is the row whose centre lies within half a row of the offset, the
      lower edge included and the upper edge excluded. */
  function NearestIndex(offset: int): (r: int)
    ensures ItemHeight * r - ItemHeight / 2 <= offset < ItemHeight * r + ItemHeight / 2
  {
    (offset + ItemHeight / 2) / ItemHeight
  }

  /** `Math.max(0, Math.min(index, items.length - 1))`. For an empty list
      this is 0, which is not an index of it. */
  function ClampedIndex(offset: int, count: nat): (r: int)
    ensures count > 0 ==> 0 <= r < count
    ensures count == 0 ==> r == 0
    ensures 0 <= NearestIndex(offset) < count ==> r == NearestIndex(offset)
  {
    var index := NearestIndex(offset);
    var upper := if index < count - 1 then index else count - 1;
    if 0 < upper then upper else 0
  }

  /** The clamped row is a row nearest to the offset: no row of the list
      has its centre strictly closer. */
  lemma ClampedIndexIsNearestRow(offset: int, count: nat, j: int)
    requires 0 <= j < count
    ensures Abs(ItemHeight * ClampedIndex(offset, count) - offset) <= Abs(ItemHeight * j - offset)
  {
  }

  /** What `handleScroll` passes to `onSelect` for a scroll event at
      `offset`, or `None` when it does not call it: the item at the clamped
      row, provided there is one and it differs from `selected`. */
  function SelectionAt(items: seq<int>, selected: int, offset: int): (r: Option<int>)
    ensures r.Some? <==> |items| > 0 && items[ClampedIndex(offset, |items|)] != selected
    ensures r.Some? ==> r.value == items[ClampedIndex(offset, |items|)] && r.value != selected
  {
    var clampedIndex := ClampedIndex(offset, |items|);
    if clampedIndex < |items| && items[clampedIndex] != selected then Some(items[clampedIndex]) else None
  }

  /** When `selected` is not among `items`, every scroll event over a
      non-empty list reports the item under the offset to `onSelect`. */
  lemma AbsentSelectionIsReplaced(items: seq<int>, selected: int, offset: int)
    requires |items| > 0 && selected !in items
    ensures SelectionAt(items, selected, offset) == Some(items[ClampedIndex(offset, |items|)])
  {
  }

  /** `items.indexOf(x)`: the first position holding `x`, or -1. */
  function IndexOf(items: seq<int>, x: int): (r: int)
    ensures -1 <= r < |items|
    ensures r == -1 <==> x !in items
    ensures r >= 0 ==> items[r] == x && forall j :: 0 <= j < r ==> items[j] != x
  {
    if |items| == 0 then -1
    else if items[0] == x then 0
    else
      var k := IndexOf(items[1..], x);
      if k == -1 then -1 else k + 1
  }

  /** The offset a click on row `index` scrolls to (`index * ITEM_HEIGHT`);
      a scroll event there maps back to the same row. */
  function ClickTarget(index: int): (r: int)
    ensures NearestIndex(r) == index
  {
    index * ItemHeight
  }

  /** Any offset less than half a row away from row `k` of a list maps
      to row `k`. */
  lemma NearRowMapsToRow(offset: int, count: nat, k: int)
    requires 0 <= k < count
    requires 2 * Abs(offset - ItemHeight * k) < ItemHeight
    ensures ClampedIndex(offset, count) == k
  {
  }

  /** Clicking row `i` ends in a scroll event at row `i`, which reports
      `items[i]` unless that is already the selection. */
  lemma ClickSelectsRow(items: seq<int>, selected: int, i: int)
    requires 0 <= i < |items|
    ensures SelectionAt(items, selected, ClickTarget(i)) == if items[i] == selected then None else Some(items[i])
  {
  }

  /** The offset after the sync effect has run with the container at
      `current`: unchanged while the user is scrolling or when `selected`
      is not in `items`, otherwise the first row holding `selected`, moved
      to only if the container is more than one pixel away from it. */
  function SyncedOffset(items: seq<int>, selected: int, userScrolling: bool, current: int): (r: int)
    ensures userScrolling ==> r == current
    ensures selected !in items ==> r == current
    ensures r != current ==> r == ItemHeight * IndexOf(items, selected) && Abs(current - r) > 1
  {
    if userScrolling then current
    else
      var index := IndexOf(items, selected);
      if index == -1 then current
      else
        var targetScroll := index * ItemHeight;
        if Abs(current - targetScroll) > 1 then targetScroll else current
  }

  /** Once not scrolling and `selected` is in `items`, the sync effect
      leaves the container within one pixel of the first row holding
      `selected`, and that row is the one the offset maps to. */
  lemma SyncConverges(items: seq<int>, selected: int, current: int)
    requires selected in items
    ensures Abs(SyncedOffset(items, selected, false, current) - ItemHeight * IndexOf(items, selected)) <= 1
    ensures ClampedIndex(SyncedOffset(items, selected, false, current), |items|) == IndexOf(items, selected)
  {
  }

  /** Running the sync effect a second time changes nothing. */
  lemma SyncIdempotent(items: seq<int>, selected: int, userScrolling: bool, current: int)
    ensures var once := SyncedOffset(items, selected, userScrolling, current);
            SyncedOffset(items, selected, userScrolling, once) == once
  {
  }

  /** No feedback loop: the scroll event raised at the offset the sync
      effect leaves behind does not call `onSelect`. */
  lemma SyncNoFeedback(items: seq<int>, selected: int, current: int)
    requires selected in items
    ensures SelectionAt(items, selected, SyncedOffset(items, selected, false, current)) == None
  {
  }

  /** At mount the container is at offset 0, and the sync effect leaves
      it exactly at the first row holding `selected`. */
  lemma MountOffset(items: seq<int>, selected: int)
    requires selected in items
    ensures SyncedOffset(items, selected, false, 0) == ItemHeight * IndexOf(items, selected)
  {
  }
}
