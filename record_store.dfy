/**
 * Loading the log and building the span index (src/tui/app.rs, `AppInner::new`).
 * Reading the file and parsing a JSON line are outside the model: the file is a
 * `Source` given as input and the parser is a function parameter. The span index
 * is the label "[All Messages]" followed by the distinct names of the spans found
 * in the records' `spans` lists, in ascending order.
 */
module RecordStore {
  import opened Wrappers
  import opened LogMessages

  // ---------------------------------------------------------------------------
  // Loading

  /** A line of the file, as the line reader yields it. */
  datatype RawLine = ReadOk(text: string) | ReadFailed

  /** The file: it cannot be opened, or it holds these lines. */
  datatype Source = Unopenable | Opened(lines: seq<RawLine>)

  datatype LoadError = CannotOpen | CannotRead | CannotParse

  /** The JSON parser of one line: `None` when the line is not a record. */
  type Parser = string -> Option<LogMessage>

  predicate Parses(line: RawLine, parse: Parser)
  {
    line.ReadOk? && parse(line.text).Some?
  }

  /** The error a line that does not parse is reported with. */
  function LineError(line: RawLine): LoadError
  {
    if line.ReadFailed? then CannotRead else CannotParse
  }

  /** Reading and parsing every line, collected into one result: all records,
      in file order, when every line parses, and otherwise the error of the
      first line that does not. Nothing is returned from a partial read. */
  function CollectMessages(lines: seq<RawLine>, parse: Parser): (r: Result<seq<LogMessage>, LoadError>)
    ensures r.Ok? <==> forall i :: 0 <= i < |lines| ==> Parses(lines[i], parse)
    ensures r.Ok? ==> |r.value| == |lines|
    ensures r.Ok? ==> forall i :: 0 <= i < |lines| ==> Some(r.value[i]) == parse(lines[i].text)
    ensures r.Err? ==> exists i :: 0 <= i < |lines| && !Parses(lines[i], parse) && r.error == LineError(lines[i])
                                   && forall j :: 0 <= j < i ==> Parses(lines[j], parse)
  {
    if lines == [] then Ok([])
    else if !Parses(lines[0], parse) then
      Err(LineError(lines[0]))
    else
      var m := parse(lines[0].text).value;
      match CollectMessages(lines[1..], parse)
      case Err(e) =>
        ghost var i :| 0 <= i < |lines[1..]| && !Parses(lines[1..][i], parse) && e == LineError(lines[1..][i])
                       && forall j :: 0 <= j < i ==> Parses(lines[1..][j], parse);
        assert !Parses(lines[i + 1], parse) && forall j :: 0 <= j < i + 1 ==> Parses(lines[j], parse);
        Err(e)
      case Ok(rest) =>
        assert forall i :: 1 <= i < |lines| ==> lines[i] == lines[1..][i - 1];
        Ok([m] + rest)
  }

  /** `AppInner::new`, the loading part: a file that cannot be opened, a line
      that cannot be read and a line that is not a record all make the whole
      load fail. */
  function Load(source: Source, parse: Parser): (r: Result<seq<LogMessage>, LoadError>)
    ensures source.Unopenable? ==> r == Err(CannotOpen)
    ensures source.Opened? ==> r == CollectMessages(source.lines, parse)
  {
    match source
    case Unopenable => Err(CannotOpen)
    case Opened(lines) => CollectMessages(lines, parse)
  }

  // ---------------------------------------------------------------------------
  // Ordering of names: Rust's `Ord` on `String`, lexicographic by code point

  predicate Below(a: string, b: string)
    decreases |a|
  {
    if a == [] then b != []
    else if b == [] then false
    else if a[0] != b[0] then a[0] < b[0]
    else Below(a[1..], b[1..])
  }

  lemma {:induction false} BelowIrreflexive(a: string)
    ensures !Below(a, a)
    decreases |a|
  {
    if a != [] {
      BelowIrreflexive(a[1..]);
    }
  }

  lemma {:induction false} BelowTransitive(a: string, b: string, c: string)
    requires Below(a, b) && Below(b, c)
    ensures Below(a, c)
    decreases |a|
  {
    if a != [] && b != [] && c != [] && a[0] == b[0] == c[0] {
      BelowTransitive(a[1..], b[1..], c[1..]);
    }
  }

  lemma {:induction false} BelowTotal(a: string, b: string)
    ensures a == b || Below(a, b) || Below(b, a)
    decreases |a|
  {
    if a != [] && b != [] && a[0] == b[0] {
      BelowTotal(a[1..], b[1..]);
      if a[1..] == b[1..] {
        assert a == [a[0]] + a[1..] && b == [b[0]] + b[1..];
      }
    }
  }

  lemma {:induction false} BelowAsymmetric(a: string, b: string)
    requires Below(a, b)
    ensures !Below(b, a)
  {
    if Below(b, a) {
      BelowTransitive(a, b, a);
      BelowIrreflexive(a);
    }
  }

  /** Ascending without repetition. */
  ghost predicate StrictlySorted(s: seq<string>)
  {
    forall i, j :: 0 <= i < j < |s| ==> Below(s[i], s[j])
  }

  // ---------------------------------------------------------------------------
  // Sorting the distinct names

  /** `x` put in its place in a sorted list of distinct names, unless it is
      already there. */
  function InsertSorted(x: string, s: seq<string>): (r: seq<string>)
    requires StrictlySorted(s)
    ensures StrictlySorted(r)
    ensures forall y :: y in r <==> y == x || y in s
    decreases |s|
  {
    if s == [] then [x]
    else if x == s[0] then s
    else if Below(x, s[0]) then
      assert forall j :: 0 <= j < |s| ==> Below(x, s[j]) by {
        forall j | 0 <= j < |s| ensures Below(x, s[j]) {
          if j > 0 { BelowTransitive(x, s[0], s[j]); }
        }
      }
      [x] + s
    else
      var rest := InsertSorted(x, s[1..]);
      BelowTotal(x, s[0]);
      assert forall y :: y in rest ==> Below(s[0], y) by {
        forall y | y in rest ensures Below(s[0], y) {
          if y != x {
            var j :| 0 <= j < |s[1..]| && s[1..][j] == y;
            assert s[j + 1] == y;
          }
        }
      }
      [s[0]] + rest
  }

  /** The distinct names of `names`, in ascending order: what collecting into a
      hash set and sorting gives. */
  function SortedDistinct(names: seq<string>): (r: seq<string>)
    ensures StrictlySorted(r)
    ensures forall y :: y in r <==> y in names
  {
    if names == [] then []
    else
      var rest := SortedDistinct(names[1..]);
      assert forall y :: y in names <==> y == names[0] || y in names[1..] by {
        assert names == [names[0]] + names[1..];
      }
      InsertSorted(names[0], rest)
  }

  lemma FirstIsMember(s: seq<string>)
    ensures s != [] ==> s[0] in s
  {
  }

  /** A sorted list without repetition is determined by its elements, so the
      span index does not depend on the order in which the hash set yields the
      names. */
  lemma {:induction false} SortedIsUnique(a: seq<string>, b: seq<string>)
    requires StrictlySorted(a) && StrictlySorted(b)
    requires forall y :: y in a <==> y in b
    ensures a == b
    decreases |a|
  {
    if a == [] {
      if b != [] {
        FirstIsMember(b);
        assert false;
      }
    } else {
      assert a[0] in b;
      assert b != [];
      if a[0] != b[0] {
        var j :| 0 <= j < |b| && b[j] == a[0];
        assert b[0] in a;
        var k :| 0 <= k < |a| && a[k] == b[0];
        assert Below(b[0], a[0]);
        assert Below(a[0], b[0]);
        BelowAsymmetric(a[0], b[0]);
      }
      forall y ensures y in a[1..] <==> y in b[1..] {
        if y in a[1..] {
          var i :| 0 <= i < |a[1..]| && a[1..][i] == y;
          assert Below(a[0], a[i + 1]);
          if y == b[0] { BelowIrreflexive(y); }
          assert y in b;
        }
        if y in b[1..] {
          var i :| 0 <= i < |b[1..]| && b[1..][i] == y;
          assert Below(b[0], b[i + 1]);
          if y == a[0] { BelowIrreflexive(y); }
          assert y in a;
        }
      }
      SortedIsUnique(a[1..], b[1..]);
      assert a == [a[0]] + a[1..] && b == [b[0]] + b[1..];
    }
  }

  // ---------------------------------------------------------------------------
  // The span index

  const AllMessagesLabel: string := "[All Messages]"

  /** The record carries a span of this name in its `spans` list (the single
      `span` field plays no part). */
  predicate HasSpan(m: LogMessage, name: string)
  {
    m.spans.Some? && exists k :: 0 <= k < |m.spans.value| && m.spans.value[k].name == name
  }

  function Names(spans: seq<Span>): (r: seq<string>)
    ensures |r| == |spans| && forall k :: 0 <= k < |spans| ==> r[k] == spans[k].name
  {
    seq(|spans|, k requires 0 <= k < |spans| => spans[k].name)
  }

  /** The names of the spans of every record, flattened in record order. */
  function SpanNames(messages: seq<LogMessage>): (r: seq<string>)
    ensures forall name :: name in r <==> exists i :: 0 <= i < |messages| && HasSpan(messages[i], name)
  {
    if messages == [] then []
    else
      var here := if messages[0].spans.Some? then Names(messages[0].spans.value) else [];
      var rest := SpanNames(messages[1..]);
      assert forall i :: 1 <= i < |messages| ==> messages[i] == messages[1..][i - 1];
      assert forall name :: name in here <==> HasSpan(messages[0], name);
      here + rest
  }

  /** The list of the spans pane: the label first, then every span name found in
      a record, ascending, each once. */
  function SpanIndex(messages: seq<LogMessage>): (r: seq<string>)
    ensures |r| >= 1 && r[0] == AllMessagesLabel
    ensures StrictlySorted(r[1..])
    ensures forall name :: name in r[1..] <==> exists i :: 0 <= i < |messages| && HasSpan(messages[i], name)
  {
    var names := SortedDistinct(SpanNames(messages));
    assert ([AllMessagesLabel] + names)[1..] == names;
    [AllMessagesLabel] + names
  }

  /** Any ascending, repetition-free list of exactly the span names found in
      the records is what follows the label in the span index. */
  lemma SpanIndexIsCanonical(messages: seq<LogMessage>, names: seq<string>)
    requires StrictlySorted(names)
    requires forall name :: name in names <==> exists i :: 0 <= i < |messages| && HasSpan(messages[i], name)
    ensures SpanIndex(messages) == [AllMessagesLabel] + names
  {
    var index := SpanIndex(messages);
    SortedIsUnique(index[1..], names);
    assert index == [index[0]] + index[1..];
  }
}
