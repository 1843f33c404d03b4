/**
 * One record of the structured log (src/log_message.rs) and the three ways the
 * detail pane formats it. A record whose `fields.direction` is absent is an
 * ordinary log line and is shown as it is; a record with a direction carries an
 * XML stanza, which is re-indented by an XML library and coloured by a syntax
 * highlighter. Those two libraries are not part of this model: they are the
 * function-valued fields of a `Formatter`.
 */
module LogMessages {
  import opened Wrappers

  /** A span object of a record. It has no field but its name, so two spans are
      equal exactly when their names are. */
  datatype Span = Span(name: string)

  datatype StanzaDirection = In | Out

  datatype Fields = Fields(message: string, direction: Option<StanzaDirection>)

  /** A parsed log line. The timestamp is left out: nothing in the browsing
      engine reads it. */
  datatype LogMessage = LogMessage(
    level: string,
    fields: Fields,
    target: string,
    span: Option<Span>,
    spans: Option<seq<Span>>)

  lemma SpanEqualityIsByName(a: Span, b: Span)
    ensures a == b <==> a.name == b.name
  {
  }

  // ---------------------------------------------------------------------------
  // Styled text, as the terminal widgets take it

  datatype Color = White | Rgb(red: bv8, green: bv8, blue: bv8)

  datatype Style = Style(fg: Option<Color>)

  datatype StyledSpan = StyledSpan(content: string, style: Style)

  datatype Line = Line(spans: seq<StyledSpan>)

  /** A line holding `text` in one white span. */
  function WhiteLine(text: string): Line
  {
    Line([StyledSpan(text, Style(Some(White)))])
  }

  /** The characters a styled line shows, span after span. */
  function LineText(line: Line): string
  {
    Concat(seq(|line.spans|, i requires 0 <= i < |line.spans| => line.spans[i].content))
  }

  function Concat(parts: seq<string>): string
  {
    if parts == [] then [] else parts[0] + Concat(parts[1..])
  }

  // ---------------------------------------------------------------------------
  // Splitting a text into lines that keep their line terminators

  /** The length of the first line of `s`, its '\n' included when it has one. */
  function LineEnd(s: string): (k: nat)
    requires s != []
    ensures 0 < k <= |s|
    ensures forall j :: 0 <= j < k - 1 ==> s[j] != '\n'
    ensures k < |s| ==> s[k - 1] == '\n'
    decreases |s|
  {
    if s[0] == '\n' || |s| == 1 then 1 else 1 + LineEnd(s[1..])
  }

  /** The pieces the highlighter's line iterator yields; together they spell
      `s` (their shape is `LinesWithEndingsShape`). */
  function LinesWithEndings(s: string): (lines: seq<string>)
    ensures Concat(lines) == s
    ensures lines == [] <==> s == []
    decreases |s|
  {
    if s == [] then []
    else
      var k := LineEnd(s);
      var rest := LinesWithEndings(s[k..]);
      assert ([s[..k]] + rest)[1..] == rest;
      assert s[..k] + s[k..] == s;
      [s[..k]] + rest
  }

  /** Every piece is non-empty, every piece but the last ends in '\n', and no
      piece holds a '\n' anywhere else. */
  predicate IsLineSplit(lines: seq<string>)
  {
    && (forall i :: 0 <= i < |lines| ==> lines[i] != [])
    && (forall i :: 0 <= i < |lines| - 1 ==> lines[i][|lines[i]| - 1] == '\n')
    && (forall i, j :: 0 <= i < |lines| && 0 <= j < |lines[i]| - 1 ==> lines[i][j] != '\n')
  }

  lemma {:induction false} LinesWithEndingsShape(s: string)
    ensures IsLineSplit(LinesWithEndings(s))
    decreases |s|
  {
    if s != [] {
      var k := LineEnd(s);
      var first := s[..k];
      var rest := LinesWithEndings(s[k..]);
      LinesWithEndingsShape(s[k..]);
      var lines := [first] + rest;
      assert LinesWithEndings(s) == lines;
      forall i | 0 <= i < |lines|
        ensures lines[i] != []
      {
        if i > 0 { assert lines[i] == rest[i - 1]; }
      }
      forall i | 0 <= i < |lines| - 1
        ensures lines[i][|lines[i]| - 1] == '\n'
      {
        if i > 0 {
          assert lines[i] == rest[i - 1];
        } else {
          assert k < |s|;
        }
      }
      forall i, j | 0 <= i < |lines| && 0 <= j < |lines[i]| - 1
        ensures lines[i][j] != '\n'
      {
        if i > 0 {
          assert lines[i] == rest[i - 1];
        } else {
          assert lines[0][j] == s[j];
        }
      }
    }
  }

  // ---------------------------------------------------------------------------
  // The formatters

  datatype FormatError = FormatError(reason: string)

  /** The external collaborators of the formatters:
      - `prettyXml`: re-indents an XML text and decodes the result as UTF-8; it
        fails on a text that is not well-formed XML;
      - `escapedHighlight`: looks up the XML syntax and colours a text with
        terminal escape sequences;
      - `highlightedLines`: looks up the XML syntax and colours a text as styled
        lines. */
  datatype Formatter = Formatter(
    prettyXml: string -> Result<string, FormatError>,
    escapedHighlight: string -> Result<string, FormatError>,
    highlightedLines: string -> Result<seq<Line>, FormatError>)

  /** `LogMessage::pretty_printed_xml`: a record without a direction is passed
      through unchanged; a stanza is re-indented, and a failure to do so is the
      result. */
  function PrettyPrintedXml(m: LogMessage, fmt: Formatter): (r: Result<string, FormatError>)
    ensures m.fields.direction.None? ==> r == Ok(m.fields.message)
    ensures m.fields.direction.Some? && fmt.prettyXml(m.fields.message).Err? ==> r.Err?
  {
    if m.fields.direction.None? then Ok(m.fields.message)
    else fmt.prettyXml(m.fields.message)
  }

  /** `LogMessage::highlighted_stanza_xml`: a record without a direction is
      passed through unchanged; for a stanza, a pretty-printing failure is
      propagated and the highlighter is never reached. */
  function HighlightedStanzaXml(m: LogMessage, fmt: Formatter): (r: Result<string, FormatError>)
    ensures m.fields.direction.None? ==> r == Ok(m.fields.message)
    ensures m.fields.direction.Some? && fmt.prettyXml(m.fields.message).Err? ==>
              r == Err(fmt.prettyXml(m.fields.message).error)
  {
    if m.fields.direction.None? then Ok(m.fields.message)
    else match PrettyPrintedXml(m, fmt)
      case Err(e) => Err(e)
      case Ok(xml) => fmt.escapedHighlight(xml)
  }

  /** One white line per piece of the text. */
  function PlainLines(pieces: seq<string>): seq<Line>
  {
    seq(|pieces|, i requires 0 <= i < |pieces| => WhiteLine(pieces[i]))
  }

  /** What `LogMessage::highlighted_stanza_xml_text` produces: a record without
      a direction cannot fail and gives one white line per line of its message,
      in order; for a stanza, a pretty-printing failure is propagated. */
  function StanzaText(m: LogMessage, fmt: Formatter): (r: Result<seq<Line>, FormatError>)
    ensures m.fields.direction.None? ==> r.Ok? && |r.value| == |LinesWithEndings(m.fields.message)|
    ensures m.fields.direction.None? ==>
              forall i :: 0 <= i < |r.value| ==> r.value[i] == WhiteLine(LinesWithEndings(m.fields.message)[i])
    ensures m.fields.direction.Some? && fmt.prettyXml(m.fields.message).Err? ==>
              r == Err(fmt.prettyXml(m.fields.message).error)
  {
    if m.fields.direction.None? then Ok(PlainLines(LinesWithEndings(m.fields.message)))
    else match PrettyPrintedXml(m, fmt)
      case Err(e) => Err(e)
      case Ok(xml) => fmt.highlightedLines(xml)
  }

  /** `LogMessage::highlighted_stanza_xml_text`. The plain branch pushes one
      white line per line of the message; the stanza branch hands the
      re-indented XML to the highlighter. */
  method HighlightedStanzaXmlText(m: LogMessage, fmt: Formatter) returns (r: Result<seq<Line>, FormatError>)
    ensures r == StanzaText(m, fmt)
  {
    if m.fields.direction.None? {
      var pieces := LinesWithEndings(m.fields.message);
      var lines: seq<Line> := [];
      for i := 0 to |pieces|
        invariant |lines| == i
        invariant forall j :: 0 <= j < i ==> lines[j] == WhiteLine(pieces[j])
      {
        lines := lines + [WhiteLine(pieces[i])];
      }
      assert lines == PlainLines(pieces);
      return Ok(lines);
    }
    var xml := PrettyPrintedXml(m, fmt);
    if xml.Err? {
      return Err(xml.error);
    }
    r := fmt.highlightedLines(xml.value);
  }

  /** The text of each line, in order. */
  function LineTexts(lines: seq<Line>): seq<string>
  {
    seq(|lines|, i requires 0 <= i < |lines| => LineText(lines[i]))
  }

  /** A record without a direction is shown verbatim, whatever its message: the
      detail lines are all white, and read one after another they spell the
      message exactly. */
  lemma PlainMessageShownVerbatim(m: LogMessage, fmt: Formatter)
    requires m.fields.direction.None?
    ensures StanzaText(m, fmt).Ok?
    ensures forall i :: 0 <= i < |StanzaText(m, fmt).value| ==>
              StanzaText(m, fmt).value[i].spans[0].style == Style(Some(White))
    ensures Concat(LineTexts(StanzaText(m, fmt).value)) == m.fields.message
  {
    var lines := StanzaText(m, fmt).value;
    var pieces := LinesWithEndings(m.fields.message);
    forall i | 0 <= i < |lines|
      ensures LineTexts(lines)[i] == pieces[i]
    {
      var parts := seq(|lines[i].spans|, k requires 0 <= k < |lines[i].spans| => lines[i].spans[k].content);
      assert parts == [pieces[i]];
      assert Concat(parts) == pieces[i] + Concat([]);
    }
    assert LineTexts(lines) == pieces;
  }
}
