/**
 * The application state of the viewer (src/tui/app.rs): all records, the
 * visible records (all of them, or those of one span), the span index, the
 * formatted detail of the selected record and the focused pane. Key presses
 * are routed by focus; a reload rebuilds everything from the file and carries
 * the user's place across.
 *
 * `AppView` is the value of the state; the pure functions on it carry the
 * contracts, and the classes `AppInner` and `App` update the state in place
 * as the source does, each method tied to one of those functions.
 */
module Tui {
  import opened Wrappers
  import opened LogMessages
  import opened StatefulLists
  import opened SelectedLogMessages
  import opened RecordStore

  /** The pane that receives Up and Down. */
  datatype AppArea = Spans | Messages | MessageDetail

  const DefaultArea: AppArea := Messages

  datatype AppView = AppView(
    allMessages: ListView<LogMessage>,
    messages: ListView<LogMessage>,
    spans: ListView<string>,
    formattedMessage: Option<Detail>,
    selectedArea: AppArea)

  // ---------------------------------------------------------------------------
  // Span filtering

  /** The records that carry a span of this name, in file order. */
  function FilterBySpan(all: seq<LogMessage>, name: string): (r: seq<LogMessage>)
    ensures |r| <= |all|
    ensures forall k :: 0 <= k < |r| ==> HasSpan(r[k], name)
  {
    if all == [] then []
    else
      var rest := FilterBySpan(all[1..], name);
      if HasSpan(all[0], name) then [all[0]] + rest else rest
  }

  /** The filter keeps exactly the records that carry the span. */
  lemma {:induction false} FilterKeepsTagged(all: seq<LogMessage>, name: string)
    ensures forall m :: m in FilterBySpan(all, name) <==> m in all && HasSpan(m, name)
  {
    if all != [] {
      FilterKeepsTagged(all[1..], name);
      assert forall m :: m in all <==> m == all[0] || m in all[1..] by {
        assert all == [all[0]] + all[1..];
      }
    }
  }

  /** The filter works record by record, keeping file order: filtering a run
      of records followed by another is filtering the first run followed by
      filtering the second. */
  lemma {:induction false} FilterDistributes(a: seq<LogMessage>, b: seq<LogMessage>, name: string)
    ensures FilterBySpan(a + b, name) == FilterBySpan(a, name) + FilterBySpan(b, name)
  {
    if a == [] {
      assert a + b == b;
    } else {
      var front: seq<LogMessage> := if HasSpan(a[0], name) then [a[0]] else [];
      FilterDistributes(a[1..], b, name);
      assert (a + b)[0] == a[0] && (a + b)[1..] == a[1..] + b;
      assert FilterBySpan(a + b, name) == front + FilterBySpan(a[1..] + b, name);
      assert FilterBySpan(a, name) == front + FilterBySpan(a[1..], name);
    }
  }

  /** A single record is kept exactly when it carries the span. */
  lemma FilterSingle(m: LogMessage, name: string)
    ensures FilterBySpan([m], name) == if HasSpan(m, name) then [m] else []
  {
    assert [m][1..] == [];
  }

  // ---------------------------------------------------------------------------
  // The transitions of the application state

  /** `AppInner::new` after a successful load: all records visible, nothing
      formatted yet, the label of the span index selected, the messages pane
      focused. */
  function Initial(loaded: seq<LogMessage>): (v: AppView)
    ensures v.allMessages == InitialView(loaded) && v.messages == v.allMessages
    ensures v.spans == InitialView(SpanIndex(loaded)) && v.spans.state.selected == Some(0)
    ensures v.formattedMessage.None? && v.selectedArea == Messages
  {
    var all := InitialView(loaded);
    AppView(all, all, InitialView(SpanIndex(loaded)), None, DefaultArea)
  }

  /** `AppInner::update_selected_span`: only the visible list changes. The label
      at index 0 restores the full list; a selection on no span name empties
      it; otherwise it holds the records of the selected span, cursor on the
      first. */
  function SpanSelected(v: AppView): (r: AppView)
    ensures r == v.(messages := r.messages)
    ensures v.spans.state.selected == Some(0) ==> r.messages == v.allMessages
    ensures v.spans.state.selected != Some(0) ==> r.messages == InitialView(r.messages.items)
    ensures v.spans.state.selected != Some(0) && !v.spans.InRange() ==> r.messages.items == []
    ensures v.spans.state.selected != Some(0) && v.spans.InRange() ==>
              r.messages.items == FilterBySpan(v.allMessages.items, v.spans.items[v.spans.state.selected.value])
  {
    if v.spans.state.selected == Some(0) then v.(messages := v.allMessages)
    else match v.spans.SelectedItem()
      case None => v.(messages := InitialView([]))
      case Some(name) => v.(messages := InitialView(FilterBySpan(v.allMessages.items, name)))
  }

  /** The detail of a record: its formatted lines, scrolled to the top, and
      nothing when no record is selected or formatting fails. */
  function FormattedDetail(item: Option<LogMessage>, fmt: Formatter): (d: Option<Detail>)
    ensures d.Some? <==> item.Some? && StanzaText(item.value, fmt).Ok?
    ensures d.Some? ==> d.value == FromLines(StanzaText(item.value, fmt).value)
  {
    match item
    case None => None
    case Some(m) =>
      match StanzaText(m, fmt)
      case Err(_) => None
      case Ok(lines) => Some(FromLines(lines))
  }

  /** `AppInner::update_selected_message`: only the detail changes; it is the
      formatted selected record, at scroll position 0. */
  function MessageSelected(v: AppView, fmt: Formatter): (r: AppView)
    ensures r == v.(formattedMessage := r.formattedMessage)
    ensures r.formattedMessage.Some? <==> v.messages.InRange() && StanzaText(v.messages.SelectedItem().value, fmt).Ok?
    ensures r.formattedMessage.Some? ==> r.formattedMessage.value.verticalPosition == 0
    ensures r.formattedMessage.Some? ==>
              r.formattedMessage.value.message == StanzaText(v.messages.SelectedItem().value, fmt).value
  {
    v.(formattedMessage := FormattedDetail(v.messages.SelectedItem(), fmt))
  }

  /** `AppInner::handle_key_up`, routed by the focused pane: in the spans pane
      the span cursor moves back and the visible list is rebuilt, the detail
      untouched; in the messages pane the record cursor moves back and the
      detail is recomputed; in the detail pane only the scroll moves. */
  function KeyUp(v: AppView, fmt: Formatter): (r: AppView)
    ensures r.allMessages == v.allMessages && r.selectedArea == v.selectedArea
    ensures v.selectedArea == Spans ==>
              r.spans == v.spans.Prev() && r.formattedMessage == v.formattedMessage
              && r == SpanSelected(r.(messages := v.messages))
    ensures v.selectedArea == Messages ==>
              r.spans == v.spans && r.messages == v.messages.Prev()
              && r.formattedMessage == FormattedDetail(r.messages.SelectedItem(), fmt)
    ensures v.selectedArea == MessageDetail ==>
              r == v.(formattedMessage := r.formattedMessage)
              && (v.formattedMessage.None? ==> r == v)
              && (v.formattedMessage.Some? ==> r.formattedMessage == Some(ScrolledUp(v.formattedMessage.value)))
  {
    match v.selectedArea
    case Spans => SpanSelected(v.(spans := v.spans.Prev()))
    case Messages => MessageSelected(v.(messages := v.messages.Prev()), fmt)
    case MessageDetail =>
      match v.formattedMessage
      case None => v
      case Some(d) => v.(formattedMessage := Some(ScrolledUp(d)))
  }

  /** `AppInner::handle_key_down`: as `KeyUp`, one step forward. */
  function KeyDown(v: AppView, fmt: Formatter): (r: AppView)
    ensures r.allMessages == v.allMessages && r.selectedArea == v.selectedArea
    ensures v.selectedArea == Spans ==>
              r.spans == v.spans.Next() && r.formattedMessage == v.formattedMessage
              && r == SpanSelected(r.(messages := v.messages))
    ensures v.selectedArea == Messages ==>
              r.spans == v.spans && r.messages == v.messages.Next()
              && r.formattedMessage == FormattedDetail(r.messages.SelectedItem(), fmt)
    ensures v.selectedArea == MessageDetail ==>
              r == v.(formattedMessage := r.formattedMessage)
              && (v.formattedMessage.None? ==> r == v)
              && (v.formattedMessage.Some? ==> r.formattedMessage == Some(ScrolledDown(v.formattedMessage.value)))
  {
    match v.selectedArea
    case Spans => SpanSelected(v.(spans := v.spans.Next()))
    case Messages => MessageSelected(v.(messages := v.messages.Next()), fmt)
    case MessageDetail =>
      match v.formattedMessage
      case None => v
      case Some(d) => v.(formattedMessage := Some(ScrolledDown(d)))
  }

  /** `App::jump_to_end`: the record cursor goes to the last visible record and
      the detail is recomputed; nothing else changes. */
  function JumpedToEnd(v: AppView, fmt: Formatter): (r: AppView)
    ensures r == v.(messages := r.messages, formattedMessage := r.formattedMessage)
    ensures r.messages == v.messages.SelectLast()
    ensures r.messages.state.selected == Some(LastIndex(|v.messages.items|))
    ensures r.formattedMessage == FormattedDetail(r.messages.SelectedItem(), fmt)
    ensures v.messages.items != [] ==> r.messages.SelectedItem() == Some(v.messages.items[|v.messages.items| - 1])
  {
    MessageSelected(v.(messages := v.messages.SelectLast()), fmt)
  }

  /** The cursor was on the last visible record (or at 0 on an empty list). */
  predicate AtBottom(l: ListView<LogMessage>)
  {
    l.state.selected == Some(LastIndex(|l.items|))
  }

  /** The old state `v`'s place copied into a freshly loaded state `base`:
      the span cursor, then the focus and both list offsets; the record cursor
      follows the tail or is copied as it was. */
  function PlaceCarried(base: AppView, v: AppView): AppView
  {
    var spansSelected := base.spans.(state := base.spans.state.Select(v.spans.state.selected));
    var messagesScrolled := base.messages.(state := base.messages.state.(offset := v.messages.state.offset));
    var spans := spansSelected.(state := spansSelected.state.(offset := v.spans.state.offset));
    var messages := if AtBottom(v.messages) then messagesScrolled.SelectLast()
                    else messagesScrolled.(state := messagesScrolled.state.Select(v.messages.state.selected));
    base.(spans := spans, selectedArea := v.selectedArea, messages := messages)
  }

  /** `App::reload_messages`: a fresh state is built from the reloaded records,
      and the old state's focus, span cursor and both list offsets are copied
      into it; the record cursor follows the tail when it was on the last
      record and is otherwise copied as it was, not clamped; the visible list
      is the unfiltered list of all records; the detail is recomputed. */
  function Reloaded(v: AppView, loaded: seq<LogMessage>, fmt: Formatter): (r: AppView)
    ensures r.allMessages == InitialView(loaded)
    ensures r.messages.items == loaded
    ensures r.spans.items == SpanIndex(loaded) && r.spans.state == v.spans.state
    ensures r.selectedArea == v.selectedArea
    ensures AtBottom(v.messages) ==> r.messages.state.selected == Some(LastIndex(|loaded|))
    ensures !AtBottom(v.messages) ==> r.messages.state.selected == v.messages.state.selected
    ensures r.messages.state.offset == if v.messages.state.selected.None? then 0 else v.messages.state.offset
    ensures r.formattedMessage == FormattedDetail(r.messages.SelectedItem(), fmt)
  {
    MessageSelected(PlaceCarried(Initial(loaded), v), fmt)
  }

  // ---------------------------------------------------------------------------
  // Properties of the transitions

  /** What every reachable state satisfies: the list of all records keeps the
      state it was built with, the span index is the one of all records, and
      some span entry is selected. */
  ghost predicate Coherent(v: AppView)
  {
    && v.allMessages == InitialView(v.allMessages.items)
    && v.spans.items == SpanIndex(v.allMessages.items)
    && v.spans.state.selected.Some?
  }

  lemma CoherenceIsPreserved(v: AppView, loaded: seq<LogMessage>, area: AppArea, fmt: Formatter)
    ensures Coherent(Initial(loaded))
    ensures Coherent(v) ==> Coherent(KeyUp(v, fmt)) && Coherent(KeyDown(v, fmt))
    ensures Coherent(v) ==> Coherent(JumpedToEnd(v, fmt)) && Coherent(v.(selectedArea := area))
    ensures Coherent(v) ==> Coherent(Reloaded(v, loaded, fmt))
  {
  }

  /** With the span cursor on a span name, the visible list rebuilt from it is
      non-empty, holds exactly the records tagged with that name and has its
      cursor on the first. */
  lemma SpanNameShowsTaggedRecords(w: AppView)
    requires w.spans.items == SpanIndex(w.allMessages.items)
    requires w.spans.InRange() && w.spans.state.selected != Some(0)
    ensures var r := SpanSelected(w);
      && r.messages.items != []
      && r.messages.SelectedItem() == Some(r.messages.items[0])
      && forall m :: m in r.messages.items <==>
           m in w.allMessages.items && HasSpan(m, w.spans.items[w.spans.state.selected.value])
  {
    var r := SpanSelected(w);
    var i := w.spans.state.selected.value;
    var name := w.spans.items[i];
    assert r.messages == InitialView(FilterBySpan(w.allMessages.items, name));
    var index := SpanIndex(w.allMessages.items);
    assert name == index[1..][i - 1];
    assert name in index[1..];
    var j :| 0 <= j < |w.allMessages.items| && HasSpan(w.allMessages.items[j], name);
    FilterKeepsTagged(w.allMessages.items, name);
    assert w.allMessages.items[j] in r.messages.items;
  }

  /** Stepping forward through the spans pane always lands on an entry: the
      label shows every record; a span name shows a non-empty list of exactly
      the records tagged with it, cursor on the first. */
  lemma SpanStepShowsTaggedRecords(v: AppView, fmt: Formatter)
    requires Coherent(v) && v.selectedArea == Spans
    ensures var r := KeyDown(v, fmt);
      r.spans.InRange()
      && (r.spans.state.selected == Some(0) ==> r.messages.items == v.allMessages.items)
      && (r.spans.state.selected != Some(0) ==>
            r.messages.items != []
            && r.messages.SelectedItem() == Some(r.messages.items[0])
            && forall m :: m in r.messages.items <==>
                 m in v.allMessages.items && HasSpan(m, r.spans.items[r.spans.state.selected.value]))
  {
    var w := v.(spans := v.spans.Next());
    assert KeyDown(v, fmt) == SpanSelected(w);
    if w.spans.state.selected != Some(0) {
      SpanNameShowsTaggedRecords(w);
    }
  }

  /** Stepping back through the spans pane lands on an entry exactly when the
      span cursor was at most one past the end; from further out it only
      moves one place and the visible list is empty. On an entry, the label
      shows every record and a span name a non-empty list of exactly the
      records tagged with it, cursor on the first. */
  lemma SpanStepBackShowsTaggedRecords(v: AppView, fmt: Formatter)
    requires Coherent(v) && v.selectedArea == Spans
    ensures var r := KeyUp(v, fmt);
      && (r.spans.InRange() <==> v.spans.state.selected.value <= |v.spans.items|)
      && (r.spans.state.selected == Some(0) ==> r.messages.items == v.allMessages.items)
      && (r.spans.state.selected != Some(0) && !r.spans.InRange() ==> r.messages.items == [])
      && (r.spans.state.selected != Some(0) && r.spans.InRange() ==>
            r.messages.items != []
            && r.messages.SelectedItem() == Some(r.messages.items[0])
            && forall m :: m in r.messages.items <==>
                 m in v.allMessages.items && HasSpan(m, r.spans.items[r.spans.state.selected.value]))
  {
    var w := v.(spans := v.spans.Prev());
    assert KeyUp(v, fmt) == SpanSelected(w);
    if w.spans.state.selected != Some(0) && w.spans.InRange() {
      SpanNameShowsTaggedRecords(w);
    }
  }

  /** A reload keeps the user's place: following the tail, the cursor is on
      the new last record; otherwise, when the reloaded list is at least as
      long, the cursor stays on the same position. */
  lemma ReloadKeepsPlace(v: AppView, loaded: seq<LogMessage>, fmt: Formatter)
    ensures var r := Reloaded(v, loaded, fmt);
      && (AtBottom(v.messages) && loaded != [] ==> r.messages.SelectedItem() == Some(loaded[|loaded| - 1]))
      && (!AtBottom(v.messages) && v.messages.InRange() && |loaded| >= |v.messages.items| ==>
            r.messages.SelectedItem() == Some(loaded[v.messages.state.selected.value]))
  {
  }

  /** Five visible records with the cursor on the last; two matching records
      are appended and the file reloaded: the cursor is on the seventh record
      and the list is scrolled as before. */
  lemma ReloadFollowsGrowingTail(v: AppView, loaded: seq<LogMessage>, fmt: Formatter)
    requires |v.messages.items| == 5 && v.messages.state.selected == Some(4)
    requires |loaded| == 7
    ensures Reloaded(v, loaded, fmt).messages.state == v.messages.state.(selected := Some(6))
  {
  }

  /** Three records, the second and third tagged "login": the "login" filter
      shows exactly those two, in order. */
  lemma LoginScenario(r1: LogMessage, r2: LogMessage, r3: LogMessage)
    requires r1.spans == None
    requires r2.spans == Some([Span("login")]) && r3.spans == Some([Span("session"), Span("login")])
    ensures FilterBySpan([r1, r2, r3], "login") == [r2, r3]
  {
    assert HasSpan(r2, "login") by { assert r2.spans.value[0].name == "login"; }
    assert HasSpan(r3, "login") by { assert r3.spans.value[1].name == "login"; }
    assert [r3][1..] == [];
    assert FilterBySpan([r3], "login") == [r3];
    assert [r2, r3][1..] == [r3];
    assert FilterBySpan([r2, r3], "login") == [r2, r3];
    assert [r1, r2, r3][1..] == [r2, r3];
  }

  // ---------------------------------------------------------------------------
  // The state, updated in place

  class AppInner {
    /** The syntax and theme sets, as the formatters use them. */
    const fmt: Formatter
    var allMessages: StatefulList<LogMessage>
    var messages: StatefulList<LogMessage>
    var spans: StatefulList<string>
    var formattedMessage: Option<SelectedLogMessage>
    var selectedArea: AppArea

    ghost function DetailFrame(): set<object>
      reads this
    {
      if formattedMessage.Some? then {formattedMessage.value} else {}
    }

    ghost function Repr(): set<object>
      reads this
    {
      {this, allMessages, messages, spans} + DetailFrame()
    }

    ghost function View(): AppView
      reads this, Repr()
    {
      AppView(allMessages.Value(), messages.Value(), spans.Value(),
              if formattedMessage.Some? then Some(formattedMessage.value.Value()) else None,
              selectedArea)
    }

    ghost predicate Valid()
      reads this, Repr()
    {
      allMessages != messages && Coherent(View())
    }

    /** The state built from loaded records. */
    constructor FromMessages(loaded: seq<LogMessage>, fmt: Formatter)
      ensures Valid() && View() == Initial(loaded) && this.fmt == fmt
      ensures fresh(Repr())
    {
      var all := new StatefulList.WithItems(loaded);
      var copy := all.Clone();
      var index := new StatefulList.WithItems(SpanIndex(loaded));
      this.fmt := fmt;
      allMessages := copy;
      messages := all;
      spans := index;
      formattedMessage := None;
      selectedArea := DefaultArea;
    }

    /** `AppInner::new`: fails exactly when the load fails, with its error. */
    static method New(source: Source, parse: Parser, fmt: Formatter) returns (r: Result<AppInner, LoadError>)
      ensures r.Ok? <==> Load(source, parse).Ok?
      ensures r.Err? ==> r.error == Load(source, parse).error
      ensures r.Ok? ==> r.value.Valid() && fresh(r.value.Repr()) && r.value.fmt == fmt
      ensures r.Ok? ==> r.value.View() == Initial(Load(source, parse).value)
    {
      var loaded := Load(source, parse);
      if loaded.Err? {
        return Err(loaded.error);
      }
      var inner := new AppInner.FromMessages(loaded.value, fmt);
      return Ok(inner);
    }

    method UpdateSelectedMessage()
      requires Valid()
      modifies this
      ensures Valid() && View() == MessageSelected(old(View()), fmt)
      ensures fresh(Repr() - old(Repr()))
    {
      var item := messages.SelectedItem();
      if item.None? {
        formattedMessage := None;
        return;
      }
      var text := HighlightedStanzaXmlText(item.value, fmt);
      if text.Err? {
        formattedMessage := None;
        return;
      }
      var detail := new SelectedLogMessage.From(text.value);
      formattedMessage := Some(detail);
    }

    /** The steps of `App::reload_messages` that copy the place of the
        previous state into this freshly loaded one. */
    method CarryOver(previous: AppInner)
      requires Valid() && previous.Valid() && previous.Repr() !! Repr()
      modifies this, spans, messages
      ensures Valid() && Repr() == old(Repr())
      ensures View() == PlaceCarried(old(View()), previous.View())
    {
      var selectedMessageIdx := previous.messages.state.selected;
      var isAtBottom := selectedMessageIdx == Some(LastIndex(|previous.messages.items|));
      spans.state := spans.state.Select(previous.spans.state.selected);
      selectedArea := previous.selectedArea;

      messages.state := messages.state.(offset := previous.messages.state.offset);
      spans.state := spans.state.(offset := previous.spans.state.offset);

      if isAtBottom {
        messages.SelectLast();
      } else {
        messages.state := messages.state.Select(selectedMessageIdx);
      }
    }

    /** The body of `App::reload_messages`: a state loaded afresh, with the
        place of `previous` carried over and the detail recomputed. */
    static method Reload(previous: AppInner, source: Source, parse: Parser) returns (updated: AppInner)
      requires previous.Valid() && Load(source, parse).Ok?
      ensures updated.Valid() && fresh(updated) && updated.fmt == previous.fmt
      ensures updated.View() == Reloaded(previous.View(), Load(source, parse).value, previous.fmt)
    {
      ghost var v := previous.View();
      var loaded := New(source, parse, previous.fmt);
      updated := loaded.value;
      assert updated.Repr() !! previous.Repr();
      updated.CarryOver(previous);
      ghost var carried := PlaceCarried(Initial(Load(source, parse).value), v);
      assert updated.View() == carried;
      updated.UpdateSelectedMessage();
      assert updated.View() == MessageSelected(carried, previous.fmt);
    }

    method UpdateSelectedSpan()
      requires Valid()
      modifies this
      ensures Valid() && View() == SpanSelected(old(View()))
      ensures fresh(Repr() - old(Repr()))
    {
      if spans.state.selected == Some(0) {
        messages := allMessages.Clone();
        return;
      }
      var name := spans.SelectedItem();
      if name.None? {
        messages := new StatefulList.WithItems([]);
        return;
      }
      messages := new StatefulList.WithItems(FilterBySpan(allMessages.items, name.value));
    }

    method HandleKeyUp()
      requires Valid()
      modifies Repr()
      ensures Valid() && View() == KeyUp(old(View()), fmt)
      ensures fresh(Repr() - old(Repr()))
    {
      match selectedArea
      case Spans =>
        spans.Prev();
        UpdateSelectedSpan();
      case Messages =>
        messages.Prev();
        UpdateSelectedMessage();
      case MessageDetail =>
        if formattedMessage.Some? {
          formattedMessage.value.Prev();
        }
    }

    method HandleKeyDown()
      requires Valid()
      modifies Repr()
      ensures Valid() && View() == KeyDown(old(View()), fmt)
      ensures fresh(Repr() - old(Repr()))
    {
      match selectedArea
      case Spans =>
        spans.Next();
        UpdateSelectedSpan();
      case Messages =>
        messages.Next();
        UpdateSelectedMessage();
      case MessageDetail =>
        if formattedMessage.Some? {
          formattedMessage.value.Next();
        }
    }
  }

  /** The keys the event loop reacts to. */
  datatype KeyCode = Char(c: char) | Up | Down | Esc | Other

  /** The application: its state, replaced whole on every reload. */
  class App {
    const fmt: Formatter
    var inner: AppInner

    ghost predicate Valid()
      reads this, inner, inner.Repr()
    {
      inner.fmt == fmt && inner.Valid()
    }

    /** `App::new`: fails exactly when the first load fails, with its error. */
    static method New(source: Source, parse: Parser, fmt: Formatter) returns (r: Result<App, LoadError>)
      ensures r.Ok? <==> Load(source, parse).Ok?
      ensures r.Err? ==> r.error == Load(source, parse).error
      ensures r.Ok? ==> fresh(r.value) && fresh(r.value.inner.Repr()) && r.value.Valid() && r.value.fmt == fmt
      ensures r.Ok? ==> r.value.inner.View() == Initial(Load(source, parse).value)
    {
      var inner := AppInner.New(source, parse, fmt);
      if inner.Err? {
        return Err(inner.error);
      }
      var app := new App.Create(inner.value, fmt);
      return Ok(app);
    }

    constructor Create(inner: AppInner, fmt: Formatter)
      ensures this.inner == inner && this.fmt == fmt
    {
      this.inner := inner;
      this.fmt := fmt;
    }

    /** `App::reload_messages`. The source unwraps the load, so a failing load
        is outside its contract. */
    method ReloadMessages(source: Source, parse: Parser)
      requires Valid()
      requires Load(source, parse).Ok?
      modifies this
      ensures Valid() && fresh(inner)
      ensures inner.View() == Reloaded(old(inner.View()), Load(source, parse).value, fmt)
    {
      inner := AppInner.Reload(inner, source, parse);
    }

    /** `App::select_area`: only the focus changes. */
    method SelectArea(area: AppArea)
      requires Valid()
      modifies inner
      ensures Valid() && inner == old(inner)
      ensures inner.View() == old(inner.View()).(selectedArea := area)
    {
      inner.selectedArea := area;
    }

    method HandleKeyUp()
      requires Valid()
      modifies inner.Repr()
      ensures Valid() && inner == old(inner) && fresh(inner.Repr() - old(inner.Repr()))
      ensures inner.View() == KeyUp(old(inner.View()), fmt)
    {
      inner.HandleKeyUp();
    }

    method HandleKeyDown()
      requires Valid()
      modifies inner.Repr()
      ensures Valid() && inner == old(inner) && fresh(inner.Repr() - old(inner.Repr()))
      ensures inner.View() == KeyDown(old(inner.View()), fmt)
    {
      inner.HandleKeyDown();
    }

    method JumpToEnd()
      requires Valid()
      modifies inner.Repr()
      ensures Valid() && inner == old(inner) && fresh(inner.Repr() - old(inner.Repr()))
      ensures inner.View() == JumpedToEnd(old(inner.View()), fmt)
    {
      inner.messages.SelectLast();
      inner.UpdateSelectedMessage();
    }

    /** One key press of the event loop: 's', 'a' and 'm' focus a pane, 'r'
        reloads the file, 'e' jumps to the last record, Up and Down are routed
        by focus, Esc ends the loop; every other key, and 'c' (the clipboard),
        leaves the state as it is. */
    method HandleKey(key: KeyCode, source: Source, parse: Parser) returns (quit: bool)
      requires Valid()
      requires key == Char('r') ==> Load(source, parse).Ok?
      modifies this, inner.Repr()
      ensures Valid()
      ensures quit <==> key == Esc
      ensures key == Char('s') ==> inner.View() == old(inner.View()).(selectedArea := Spans)
      ensures key == Char('a') ==> inner.View() == old(inner.View()).(selectedArea := Messages)
      ensures key == Char('m') ==> inner.View() == old(inner.View()).(selectedArea := MessageDetail)
      ensures key == Char('r') ==> inner.View() == Reloaded(old(inner.View()), Load(source, parse).value, fmt)
      ensures key == Char('e') ==> inner.View() == JumpedToEnd(old(inner.View()), fmt)
      ensures key == Up ==> inner.View() == KeyUp(old(inner.View()), fmt)
      ensures key == Down ==> inner.View() == KeyDown(old(inner.View()), fmt)
      ensures key !in {Char('s'), Char('a'), Char('m'), Char('r'), Char('e'), Up, Down} ==>
                inner == old(inner) && inner.View() == old(inner.View())
    {
      quit := false;
      match key
      case Char('s') => SelectArea(Spans);
      case Char('a') => SelectArea(Messages);
      case Char('m') => SelectArea(MessageDetail);
      case Char('r') => ReloadMessages(source, parse);
      case Char('e') => JumpToEnd();
      case Up => HandleKeyUp();
      case Down => HandleKeyDown();
      case Esc => quit := true;
      case _ =>
    }
  }
}
