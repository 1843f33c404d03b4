/**
 * The detail pane's content and vertical scroll cursor
 * (src/tui/selected_log_message.rs). The cursor is a 16-bit unsigned number
 * that saturates at both ends, and the scrollbar's position mirrors it.
 */
module SelectedLogMessages {
  import opened LogMessages

  newtype u16 = x: int | 0 <= x < 0x1_0000

  const U16_MAX: u16 := 0xFFFF

  /** `n as u16` on a `usize`: only the low 16 bits are kept. */
  function TruncateToU16(n: nat): (r: u16)
    ensures r as int == n % 0x1_0000
    ensures n <= U16_MAX as int ==> r as int == n
  {
    (n % 0x1_0000) as u16
  }

  /** `x.saturating_sub(1)`: one less, but never below 0. */
  function SaturatingDec(x: u16): (r: u16)
    ensures r as int == if x as int - 1 < 0 then 0 else x as int - 1
  {
    if x == 0 then 0 else x - 1
  }

  /** `x.saturating_add(1)`: one more, but never above 65535. */
  function SaturatingInc(x: u16): (r: u16)
    ensures r as int == if x as int + 1 > U16_MAX as int then U16_MAX as int else x as int + 1
  {
    if x == U16_MAX then U16_MAX else x + 1
  }

  /** The scrollbar widget's state. */
  datatype ScrollbarState = ScrollbarState(position: u16, contentLength: u16, viewportContentLength: u16)

  const DefaultScrollbar: ScrollbarState := ScrollbarState(0, 0, 0)

  /** The value of a `SelectedLogMessage`. */
  datatype Detail = Detail(message: seq<Line>, verticalPosition: u16, scrollState: ScrollbarState)

  /** The scrollbar shows where the text is scrolled to. */
  predicate Mirrored(d: Detail)
  {
    d.scrollState.position == d.verticalPosition
  }

  /** The conversion from formatted lines: scrolled to the top, with a
      scrollbar as long as the line count truncated to 16 bits. */
  function FromLines(lines: seq<Line>): (d: Detail)
    ensures d.message == lines && d.verticalPosition == 0 && Mirrored(d)
    ensures d.scrollState.contentLength as int == |lines| % 0x1_0000
    ensures d.scrollState.viewportContentLength == 0
  {
    Detail(lines, 0, DefaultScrollbar.(contentLength := TruncateToU16(|lines|)))
  }

  /** `SelectedLogMessage::prev`: one line up, staying at 0 at the top; the
      scrollbar follows, and the text is not touched. */
  function ScrolledUp(d: Detail): (r: Detail)
    ensures r.message == d.message && Mirrored(r)
    ensures r.verticalPosition as int == if d.verticalPosition == 0 then 0 else d.verticalPosition as int - 1
    ensures r.scrollState.contentLength == d.scrollState.contentLength
    ensures r.scrollState.viewportContentLength == d.scrollState.viewportContentLength
  {
    var position := SaturatingDec(d.verticalPosition);
    d.(verticalPosition := position, scrollState := d.scrollState.(position := position))
  }

  /** `SelectedLogMessage::next`: one line down, staying at 65535 at the
      bottom of the range; the scrollbar follows, and the text is not touched. */
  function ScrolledDown(d: Detail): (r: Detail)
    ensures r.message == d.message && Mirrored(r)
    ensures r.verticalPosition as int == if d.verticalPosition == U16_MAX then U16_MAX as int else d.verticalPosition as int + 1
    ensures r.scrollState.contentLength == d.scrollState.contentLength
    ensures r.scrollState.viewportContentLength == d.scrollState.viewportContentLength
  {
    var position := SaturatingInc(d.verticalPosition);
    d.(verticalPosition := position, scrollState := d.scrollState.(position := position))
  }

  /** Scrolling down and then up again returns to the same place unless the
      cursor was already at 65535. */
  lemma ScrollDownThenUp(d: Detail)
    requires d.verticalPosition < U16_MAX
    ensures ScrolledUp(ScrolledDown(d)).verticalPosition == d.verticalPosition
    ensures Mirrored(d) ==> ScrolledUp(ScrolledDown(d)) == d
  {
  }

  /** The formatted message shown in the detail pane, scrolled in place. */
  class SelectedLogMessage {
    var message: seq<Line>
    var verticalPosition: u16
    var scrollState: ScrollbarState

    function Value(): Detail
      reads this
    {
      Detail(message, verticalPosition, scrollState)
    }

    constructor From(value: seq<Line>)
      ensures Value() == FromLines(value)
    {
      message := value;
      verticalPosition := 0;
      scrollState := DefaultScrollbar.(contentLength := TruncateToU16(|value|));
    }

    method Prev()
      modifies this
      ensures Value() == ScrolledUp(old(Value()))
    {
      verticalPosition := SaturatingDec(verticalPosition);
      scrollState := scrollState.(position := verticalPosition);
    }

    method Next()
      modifies this
      ensures Value() == ScrolledDown(old(Value()))
    {
      verticalPosition := SaturatingInc(verticalPosition);
      scrollState := scrollState.(position := verticalPosition);
    }

    /** `SelectedLogMessage::scroll_position`: the vertical cursor, never a
        horizontal scroll; it agrees with the scrollbar whenever the two are
        mirrored. */
    function ScrollPosition(): (r: (u16, u16))
      reads this
      ensures r.0 == verticalPosition && r.1 == 0
      ensures Mirrored(Value()) ==> r.0 == scrollState.position
    {
      (verticalPosition, 0)
    }
  }
}
