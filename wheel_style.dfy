/** The per-row emphasis rule of the scroll wheel (`getItemStyle` in
    components/Wheel.tsx), reduced to its numeric fields. The source's
    floating-point test |index - scrollTop / 50| < 0.5 is stated exactly
    as 2 * |50 * index - scrollTop| < 50. */
module WheelStyle {
  import opened WheelIndex

  /** Scale, opacity, rotation about the horizontal axis (degrees) and
      font weight of one row. */
  datatype ItemStyle = ItemStyle(scale: real, opacity: real, rotateX: int, fontWeight: int)

  /** The style of the row under the highlight band. */
  const Focused := ItemStyle(1.0, 1.0, 0, 600)

  /** Row `index` is within half a row of the continuous centre
      `scrollTop / ITEM_HEIGHT`: exactly when it is the rounded row and
      the offset is not half-way between two rows. */
  predicate Centered(index: int, scrollTop: int)
    ensures Centered(index, scrollTop) <==>
            index == NearestIndex(scrollTop) && scrollTop % ItemHeight != ItemHeight / 2
  {
    2 * Abs(ItemHeight * index - scrollTop) < ItemHeight
  }

  /** `getItemStyle(index)` with the wheel's `scrollTop` state. A row that
      is not centred is dimmed and tilted away: rows at or below the
      rounded centre by +25 degrees, rows above it by -25 degrees. */
  function GetItemStyle(index: int, scrollTop: int): (s: ItemStyle)
    ensures Centered(index, scrollTop) ==> s == Focused
    ensures !Centered(index, scrollTop) ==>
              s.scale == 0.9 && s.opacity == 0.4 && s.fontWeight == 400 &&
              (s.rotateX == 25 <==> index >= NearestIndex(scrollTop)) &&
              (s.rotateX == -25 <==> index < NearestIndex(scrollTop))
  {
    var near := Centered(index, scrollTop);
    var scale := if near then 1.0 else 0.9;
    var opacity := if near then 1.0 else 0.4;
    var rotateX := if near then 0 else if ItemHeight * index > scrollTop then 25 else -25;
    ItemStyle(scale, opacity, rotateX, if near then 600 else 400)
  }

  /** At most one row is drawn emphasised at any offset. */
  lemma AtMostOneFocused(i: int, j: int, scrollTop: int)
    requires GetItemStyle(i, scrollTop).fontWeight == 600
    requires GetItemStyle(j, scrollTop).fontWeight == 600
    ensures i == j
  {
  }

  /** Half-way between two rows no row is emphasised. */
  lemma NoneFocusedHalfway(i: int, k: int)
    ensures !Centered(i, ItemHeight * k + ItemHeight / 2)
  {
  }

  /** With the wheel at rest on row `k` (after a sync or a click), row `k`
      is emphasised, the rows below it tilt by +25 degrees and the rows
      above it by -25 degrees. */
  lemma SettledStyles(k: int, i: int)
    ensures GetItemStyle(i, ClickTarget(k)) ==
              if i == k then Focused
              else ItemStyle(0.9, 0.4, if i > k then 25 else -25, 400)
  {
  }
}
