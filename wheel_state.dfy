/** The stateful part of the scroll wheel (components/Wheel.tsx): the
    container's DOM offset, the `scrollTop` React state, the
    `isUserScrolling` and `scrollTimeout` refs, and the browser's queue of
    scheduled timers, updated by the events the component reacts to: a
    scroll event, the debounce timer firing, and new props from the parent
    (which re-runs the sync effect). A call of `onSelect` is returned to
    the caller as an out-parameter. */
module WheelState {
  import opened Wrappers
  import opened WheelIndex

  class Wheel {
    /** The `items` and `selected` props. */
    var items: seq<int>
    var selected: int
    /** `wheelRef.current.scrollTop`, the offset of the scroll container. */
    var domScrollTop: int
    /** The `scrollTop` state that `getItemStyle` reads. */
    var scrollTop: int
    /** The `isUserScrolling` ref. */
    var isUserScrolling: bool
    /** The `scrollTimeout` ref: the handle of the last timer scheduled. */
    var scrollTimeout: Option<nat>
    /** The browser's timers: handles scheduled and neither fired nor
        cleared, and the handle the next `setTimeout` returns. */
    var pendingTimers: set<nat>
    var nextTimerId: nat

    /** The rendered offset tracks the container's; the flag is set
        exactly while a debounce timer is pending; only the timer the ref
        holds can be pending; and every handle handed out is below the
        next one. */
    ghost predicate Valid()
      reads this
    {
      scrollTop == domScrollTop &&
      (isUserScrolling <==> pendingTimers != {}) &&
      (forall t :: t in pendingTimers ==> scrollTimeout == Some(t)) &&
      (scrollTimeout.Some? ==> scrollTimeout.value < nextTimerId)
    }

    /** At most one debounce timer is ever outstanding. */
    lemma AtMostOneTimer()
      requires Valid()
      ensures |pendingTimers| <= 1
    {
      if pendingTimers != {} {
        var t :| t in pendingTimers;
        assert pendingTimers == {t} by {
          forall u | u in pendingTimers ensures u == t {
            assert scrollTimeout == Some(u) && scrollTimeout == Some(t);
          }
        }
      }
    }

    /** Mount: the initial state, followed by the first run of the sync
        effect. */
    constructor (items: seq<int>, selected: int)
      ensures Valid()
      ensures this.items == items && this.selected == selected
      ensures !isUserScrolling && scrollTimeout == None && pendingTimers == {}
      ensures domScrollTop == SyncedOffset(items, selected, false, 0)
    {
      this.items := items;
      this.selected := selected;
      domScrollTop, scrollTop := 0, 0;
      isUserScrolling := false;
      scrollTimeout := None;
      pendingTimers := {};
      nextTimerId := 0;
      new;
      Sync();
    }

    /** The sync effect: unless the user is scrolling, move the container
        to the first row holding `selected` when it is more than one pixel
        away from it, and set the `scrollTop` state to match. */
    method Sync()
      requires Valid()
      modifies this`domScrollTop, this`scrollTop
      ensures Valid()
      ensures domScrollTop == SyncedOffset(items, selected, isUserScrolling, old(domScrollTop))
    {
      if !isUserScrolling {
        var index := IndexOf(items, selected);
        if index != -1 {
          var targetScroll := index * ItemHeight;
          if Abs(domScrollTop - targetScroll) > 1 {
            domScrollTop := targetScroll;
            scrollTop := targetScroll;
          }
        }
      }
    }

    /** The parent renders the wheel with new props; the effect, whose
        dependencies are `selected` and `items`, runs again. */
    method SetProps(newItems: seq<int>, newSelected: int)
      requires Valid()
      modifies this`items, this`selected, this`domScrollTop, this`scrollTop
      ensures Valid()
      ensures items == newItems && selected == newSelected
      ensures domScrollTop == SyncedOffset(newItems, newSelected, isUserScrolling, old(domScrollTop))
    {
      items, selected := newItems, newSelected;
      Sync();
    }

    /** `handleScroll` for a scroll event with the container at `offset`:
        record the offset, mark the user as scrolling, replace any pending
        debounce timer by a new one, and report the item under the offset
        to `onSelect` when it differs from `selected`. */
    method Scroll(offset: int) returns (chosen: Option<int>)
      requires Valid()
      modifies this`domScrollTop, this`scrollTop, this`isUserScrolling,
               this`scrollTimeout, this`pendingTimers, this`nextTimerId
      ensures Valid()
      ensures chosen == SelectionAt(items, selected, offset)
      ensures domScrollTop == offset
      ensures isUserScrolling
      ensures scrollTimeout == Some(old(nextTimerId)) && pendingTimers == {old(nextTimerId)}
      ensures nextTimerId == old(nextTimerId) + 1
    {
      var currentScroll := offset;
      domScrollTop := currentScroll;
      scrollTop := currentScroll;

      isUserScrolling := true;
      if scrollTimeout.Some? {
        pendingTimers := pendingTimers - {scrollTimeout.value};
      }
      scrollTimeout := Some(nextTimerId);
      pendingTimers := pendingTimers + {nextTimerId};
      nextTimerId := nextTimerId + 1;

      var clampedIndex := ClampedIndex(currentScroll, |items|);
      if clampedIndex < |items| && items[clampedIndex] != selected {
        chosen := Some(items[clampedIndex]);
      } else {
        chosen := None;
      }
    }

    /** The browser runs the callback of timer `id`, if that timer is
        still pending: the user is no longer scrolling. A cleared timer
        never runs. */
    method TimerFires(id: nat)
      requires Valid()
      modifies this`isUserScrolling, this`pendingTimers
      ensures Valid()
      ensures id in old(pendingTimers) ==> !isUserScrolling && pendingTimers == {}
      ensures id !in old(pendingTimers) ==>
                isUserScrolling == old(isUserScrolling) && pendingTimers == old(pendingTimers)
    {
      if id in pendingTimers {
        AtMostOneTimer();
        pendingTimers := pendingTimers - {id};
        isUserScrolling := false;
      }
    }
  }
}
