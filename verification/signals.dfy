/**
 * The `Signal` record (one measured latency) and the CSV text written for the
 * signals collected from one clip.
 *
 * `double.ToString()` depends on the culture and on floating-point printing;
 * it is the parameter `format` here, and the line/field structure is proved
 * for any `format` that writes neither a comma nor a newline.
 */
module Signals {
  import opened Text

  /** One latency interval: the onset time and the time the compare region changed. */
  datatype Signal = Signal(start: real, end: real)

  /** `Signal.ToCSVEntry`: `Start,End,End-Start`. */
  function ToCsvEntry(s: Signal, format: real -> string): string
  {
    format(s.start) + "," + format(s.end) + "," + format(s.end - s.start)
  }

  function Entries(signals: seq<Signal>, format: real -> string): (lines: seq<string>)
    ensures |lines| == |signals|
  {
    seq(|signals|, i requires 0 <= i < |signals| => ToCsvEntry(signals[i], format))
  }

  /** The file content: one entry per signal, in order, separated by "\n", no trailing newline. */
  function CsvDocument(signals: seq<Signal>, format: real -> string): string
  {
    Join(Entries(signals, format), '\n')
  }

  /** `format` never writes the given character. */
  ghost predicate Avoids(format: real -> string, c: char)
  {
    forall x :: c !in format(x)
  }

  /** The loop in `Conversor.Start` that builds the content: the first entry,
      then "\n" and the next entry for each further signal. */
  method BuildCsv(collected: seq<Signal>, format: real -> string) returns (content: string)
    requires |collected| > 0
    ensures content == CsvDocument(collected, format)
  {
    ghost var entries := Entries(collected, format);
    content := ToCsvEntry(collected[0], format);
    assert entries[..1] == [content];
    var i := 1;
    while i < |collected|
      invariant 1 <= i <= |collected|
      invariant content == Join(entries[..i], '\n')
    {
      JoinSnoc(entries[..i], entries[i], '\n');
      assert entries[..i] + [entries[i]] == entries[..i + 1];
      content := content + "\n" + ToCsvEntry(collected[i], format);
      i := i + 1;
    }
    assert entries[..i] == entries;
  }

  lemma EntryFreeOf(s: Signal, format: real -> string, c: char)
    requires Avoids(format, c) && c != ','
    ensures c !in ToCsvEntry(s, format)
  {
    assert c !in format(s.start) && c !in format(s.end) && c !in format(s.end - s.start);
  }

  /** Read back line by line, the document gives exactly one entry per collected
      signal, in collection order; it does not end with a newline. */
  lemma CsvLines(signals: seq<Signal>, format: real -> string)
    requires |signals| > 0
    requires Avoids(format, '\n')
    ensures Split(CsvDocument(signals, format), '\n') == Entries(signals, format)
    ensures var doc := CsvDocument(signals, format); |doc| > 0 && doc[|doc| - 1] != '\n'
  {
    var entries := Entries(signals, format);
    forall i | 0 <= i < |entries| ensures '\n' !in entries[i] {
      EntryFreeOf(signals[i], format, '\n');
    }
    SplitJoin(entries, '\n');
    LastLine(entries);
  }

  /** A join ends with its last part. */
  lemma {:induction false} LastLine(parts: seq<string>)
    requires |parts| > 0
    ensures var last := parts[|parts| - 1];
      |Join(parts, '\n')| >= |last| && Join(parts, '\n')[|Join(parts, '\n')| - |last|..] == last
    decreases |parts|
  {
    if |parts| > 1 {
      LastLine(parts[1..]);
    }
  }

  /** Each entry splits at its commas into the three formatted numbers. */
  lemma CsvFields(s: Signal, format: real -> string)
    requires Avoids(format, ',')
    ensures Split(ToCsvEntry(s, format), ',') == [format(s.start), format(s.end), format(s.end - s.start)]
  {
    var a, b, c := format(s.start), format(s.end), format(s.end - s.start);
    var parts := [a, b, c];
    assert FreeOf(parts, ',');
    assert parts[1..] == [b, c] && [b, c][1..] == [c];
    assert Join([b, c], ',') == b + [','] + c;
    assert Join(parts, ',') == a + [','] + (b + [','] + c);
    assert Join(parts, ',') == ToCsvEntry(s, format);
    SplitJoin(parts, ',');
  }
}
