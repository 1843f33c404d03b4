/**
 * The list with a cursor that the viewer uses three times: for all records, for
 * the visible (span-filtered) records and for the span names
 * (src/tui/stateful_list.rs). `next` and `prev` move the cursor circularly;
 * the cursor is not kept in range by every path, and the contracts below say
 * exactly when it is.
 */
module StatefulLists {
  import opened Wrappers

  /** `len.saturating_sub(1)`: the index of the last item, and 0 for an empty list. */
  function LastIndex(len: nat): (r: nat)
    ensures len > 0 ==> r + 1 == len
    ensures len == 0 ==> r == 0
  {
    if len == 0 then 0 else len - 1
  }

  /** The widget state of a list: the selected index, if any, and the index of
      the first row on screen. Rendering may move `offset`; no list operation
      depends on it, and a reload copies it across. */
  datatype ListState = ListState(selected: Option<nat>, offset: nat) {

    /** `ListState::select`: sets the selection; deselecting also scrolls back
        to the first row. */
    function Select(index: Option<nat>): (r: ListState)
      ensures r.selected == index
      ensures index.Some? ==> r.offset == offset
      ensures index.None? ==> r.offset == 0
    {
      ListState(index, if index.None? then 0 else offset)
    }
  }

  const DefaultState: ListState := ListState(None, 0)

  /** The value of a `StatefulList`: its items and its widget state. */
  datatype ListView<T> = ListView(items: seq<T>, state: ListState) {

    /** The cursor is on an item. */
    predicate InRange()
    {
      state.selected.Some? && state.selected.value < |items|
    }

    /** `StatefulList::next`: on an empty list nothing changes; otherwise the
        cursor lands on an item, one after the current one, circularly, and on
        the first item when there was no selection or it was out of range. */
    function Next(): (r: ListView<T>)
      ensures r.items == items && r.state.offset == state.offset
      ensures items == [] ==> r == this
      ensures items != [] ==> r.InRange()
      ensures InRange() ==> r.state.selected.value == (state.selected.value + 1) % |items|
      ensures items != [] && !InRange() ==> r.state.selected == Some(0)
    {
      if items == [] then this
      else
        var idx := match state.selected
          case None => 0
          case Some(i) => if i < |items| - 1 then i + 1 else 0;
        this.(state := state.Select(Some(idx)))
    }

    /** `StatefulList::prev`: on an empty list nothing changes; otherwise the
        cursor moves one item back, circularly, and goes to the first item when
        there was no selection. An index beyond the end is only decremented, so
        the cursor ends in range exactly when it was at most the length. */
    function Prev(): (r: ListView<T>)
      ensures r.items == items && r.state.offset == state.offset
      ensures items == [] ==> r == this
      ensures items != [] ==> r.state.selected.Some?
      ensures items != [] ==>
                (r.InRange() <==> state.selected.None? || state.selected.value <= |items|)
      ensures items != [] && state.selected.Some? && state.selected.value <= |items| ==>
                r.state.selected.value == (state.selected.value + |items| - 1) % |items|
      ensures items != [] && state.selected.Some? && state.selected.value > |items| ==>
                r.state.selected.value + 1 == state.selected.value
      ensures items != [] && state.selected.None? ==> r.state.selected == Some(0)
    {
      if items == [] then this
      else
        var idx := match state.selected
          case None => 0
          case Some(i) => if i > 0 then i - 1 else |items| - 1;
        this.(state := state.Select(Some(idx)))
    }

    /** `StatefulList::selected_item`: the item under the cursor, and nothing
        when the list is empty, nothing is selected or the cursor is out of range. */
    function SelectedItem(): (r: Option<T>)
      ensures r.Some? <==> InRange()
      ensures r.Some? ==> r.value == items[state.selected.value]
    {
      if items == [] then None
      else match state.selected
        case None => None
        case Some(i) => if i > |items| - 1 then None else Some(items[i])
    }

    /** `StatefulList::select_last`: the cursor goes to the last item. On an
        empty list it is set to 0 all the same, where no item is selected. */
    function SelectLast(): (r: ListView<T>)
      ensures r.items == items && r.state.offset == state.offset
      ensures r.state.selected == Some(LastIndex(|items|))
      ensures items != [] ==> r.SelectedItem() == Some(items[|items| - 1])
      ensures items == [] ==> r.state.selected == Some(0) && r.SelectedItem() == None
    {
      this.(state := state.Select(Some(LastIndex(|items|))))
    }

    /** The list after `k` calls of `next`. */
    function NextTimes(k: nat): ListView<T>
      decreases k
    {
      if k == 0 then this else Next().NextTimes(k - 1)
    }
  }

  /** `StatefulList::with_items`: the first item is selected, and nothing when
      there are no items. */
  function InitialView<T>(items: seq<T>): (r: ListView<T>)
    ensures r.items == items && r.state.offset == 0
    ensures r.state.selected.Some? <==> items != []
    ensures r.state.selected.Some? ==> r.state.selected.value == 0
    ensures r.SelectedItem() == if items == [] then None else Some(items[0])
  {
    ListView(items, if items == [] then DefaultState else DefaultState.Select(Some(0)))
  }

  /** `k` calls of `next` from an item, at most one round, move the cursor `k`
      items on, circularly. */
  lemma {:induction false} NextTimesAdvances<T>(l: ListView<T>, k: nat)
    requires l.InRange() && k <= |l.items|
    decreases k
    ensures l.NextTimes(k).items == l.items && l.NextTimes(k).state.offset == l.state.offset
    ensures l.NextTimes(k).state.selected == Some((l.state.selected.value + k) % |l.items|)
  {
    if k > 0 {
      var i, n := l.state.selected.value, |l.items|;
      var next := l.Next();
      NextTimesAdvances(next, k - 1);
      assert l.NextTimes(k) == next.NextTimes(k - 1);
      if i + 1 < n {
        assert next.state.selected == Some(i + 1);
        assert i + 1 + (k - 1) == i + k;
      } else {
        assert next.state.selected == Some(0);
        ModWrap(i + k, n);
        ModSmall(k - 1, n);
      }
    }
  }

  lemma ModSmall(y: int, n: int)
    requires 0 <= y < n
    ensures y % n == y
  {
  }

  lemma ModWrap(y: int, n: int)
    requires 0 < n <= y < 2 * n
    ensures y % n == y - n
  {
  }

  /** Calling `next` as many times as there are items returns the list to where
      it started. */
  lemma NextCycles<T>(l: ListView<T>)
    requires l.InRange()
    ensures l.NextTimes(|l.items|) == l
  {
    NextTimesAdvances(l, |l.items|);
    var i := l.state.selected.value;
    ModWrap(i + |l.items|, |l.items|);
  }

  /** From an item, `prev` undoes `next` and `next` undoes `prev`. */
  lemma PrevUndoesNext<T>(l: ListView<T>)
    requires l.InRange()
    ensures l.Next().Prev() == l
    ensures l.Prev().Next() == l
  {
  }

  /** The list with a cursor, updated in place by the viewer. */
  class StatefulList<T> {
    var state: ListState
    var items: seq<T>

    function Value(): ListView<T>
      reads this
    {
      ListView(items, state)
    }

    constructor WithItems(items: seq<T>)
      ensures Value() == InitialView(items)
    {
      this.items := items;
      this.state := DefaultState;
      new;
      if items != [] {
        state := state.Select(Some(0));
      }
    }

    /** A copy of the list, as `clone` makes one. */
    method Clone() returns (c: StatefulList<T>)
      ensures fresh(c) && c.Value() == Value()
    {
      c := new StatefulList.WithItems(items);
      c.state := state;
    }

    method Next()
      modifies this
      ensures Value() == old(Value()).Next()
    {
      if items == [] {
        return;
      }
      var idx := match state.selected
        case None => 0
        case Some(i) => if i < |items| - 1 then i + 1 else 0;
      state := state.Select(Some(idx));
    }

    method Prev()
      modifies this
      ensures Value() == old(Value()).Prev()
    {
      if items == [] {
        return;
      }
      var idx := match state.selected
        case None => 0
        case Some(i) => if i > 0 then i - 1 else |items| - 1;
      state := state.Select(Some(idx));
    }

    function SelectedItem(): Option<T>
      reads this
    {
      Value().SelectedItem()
    }

    method SelectLast()
      modifies this
      ensures Value() == old(Value()).SelectLast()
    {
      state := state.Select(Some(LastIndex(|items|)));
    }
  }
}
