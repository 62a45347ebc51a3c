/** The read loop both unbundlers run over their input, one line at a time: a
    failing read or a line that parses as "end of input" ends it, a line that does
    not parse is skipped, and the line counter advances for every line read. */
module NdjsonLines {
  import opened Json
  import opened InputStd
  import opened Seqs

  /** A line that parsed: its number (counting from 0, every line read counts) and its value. */
  datatype Row = Row(line: nat, value: Value)

  /** The rows the loop produces from the chunks `cs`, starting at line `i`. Past the
      last chunk the buffer stays empty, which parses as end of input. */
  function Rows(cs: seq<Chunk>, i: nat, serde: Serde): (rows: seq<Row>)
    requires i <= |cs|
    ensures forall k :: 0 <= k < |rows| ==> i <= rows[k].line < |cs|
    decreases |cs| - i
  {
    if i == |cs| || cs[i].Broken? then []
    else match serde.parse(cs[i].text)
      case Eof => []
      case Malformed => Rows(cs, i + 1, serde)
      case Parsed(v) => [Row(i, v)] + Rows(cs, i + 1, serde)
  }

  /** How many chunks the loop has consumed when it ends by itself. */
  function StopAt(cs: seq<Chunk>, i: nat, serde: Serde): (n: nat)
    requires i <= |cs|
    ensures i <= n <= |cs|
    decreases |cs| - i
  {
    if i == |cs| then |cs|
    else if cs[i].Broken? then i + 1
    else match serde.parse(cs[i].text)
      case Eof => i + 1
      case _ => StopAt(cs, i + 1, serde)
  }

  /** Every row is a line, before the loop stops, that parsed to the row's value; and the
      rows come in line order. */
  lemma {:induction false} RowsSound(cs: seq<Chunk>, i: nat, serde: Serde, k: nat)
    requires i <= |cs| && k < |Rows(cs, i, serde)|
    ensures var row := Rows(cs, i, serde)[k];
            i + k <= row.line < StopAt(cs, i, serde) && cs[row.line].Line? &&
            serde.parse(cs[row.line].text) == Parsed(row.value)
    ensures k + 1 < |Rows(cs, i, serde)| ==> Rows(cs, i, serde)[k].line < Rows(cs, i, serde)[k + 1].line
    decreases |cs| - i
  {
    var parsed := serde.parse(cs[i].text);
    if parsed.Malformed? {
      RowsSound(cs, i + 1, serde, k);
    } else if k > 0 {
      RowsSound(cs, i + 1, serde, k - 1);
    } else if k + 1 < |Rows(cs, i, serde)| {
      RowsSound(cs, i + 1, serde, 0);
    }
  }

  /** Every line before the loop stops that parses gives a row: no parsed line is lost. */
  lemma {:induction false} RowsComplete(cs: seq<Chunk>, i: nat, serde: Serde, k: nat, v: Value)
    requires i <= |cs| && i <= k < StopAt(cs, i, serde) && cs[k].Line? && serde.parse(cs[k].text) == Parsed(v)
    ensures Row(k, v) in Rows(cs, i, serde)
    decreases |cs| - i
  {
    if k > i {
      RowsComplete(cs, i + 1, serde, k, v);
    }
  }

  /** The loop stops at the end of input, at a failing read, or at a line that parses as
      end of input, and at nothing before. */
  lemma {:induction false} StopAtReason(cs: seq<Chunk>, i: nat, serde: Serde)
    requires i <= |cs|
    ensures var n := StopAt(cs, i, serde);
            n == |cs| || cs[n - 1].Broken? || serde.parse(cs[n - 1].text).Eof?
    ensures forall k :: i <= k < StopAt(cs, i, serde) - 1 ==> cs[k].Line? && !serde.parse(cs[k].text).Eof?
    decreases |cs| - i
  {
    if i < |cs| && cs[i].Line? && !serde.parse(cs[i].text).Eof? {
      StopAtReason(cs, i + 1, serde);
    }
  }

  /** When every chunk from line `i` on is a line that parses, each gives a row, in
      order and numbered by its position, and the loop reads to the end. */
  lemma {:induction false} RowsAllParsed(cs: seq<Chunk>, i: nat, serde: Serde)
    requires i <= |cs|
    requires forall k :: i <= k < |cs| ==> cs[k].Line? && serde.parse(cs[k].text).Parsed?
    ensures |Rows(cs, i, serde)| == |cs| - i && StopAt(cs, i, serde) == |cs|
    ensures forall k :: 0 <= k < |cs| - i ==>
              Rows(cs, i, serde)[k] == Row(i + k, serde.parse(cs[i + k].text).value)
    decreases |cs| - i
  {
    if i < |cs| {
      RowsAllParsed(cs, i + 1, serde);
      var rest := Rows(cs, i + 1, serde);
      assert Rows(cs, i, serde) == [Row(i, serde.parse(cs[i].text).value)] + rest;
      forall k | 0 < k < |cs| - i
        ensures Rows(cs, i, serde)[k] == Row(i + k, serde.parse(cs[i + k].text).value)
      {
        assert Rows(cs, i, serde)[k] == rest[k - 1];
      }
    }
  }

  /** What one turn of the read loop found. */
  datatype Step = Stop | Skip | Got(json: Value)

  /** One `read_line` into the cleared buffer and one parse of it: the end of the loop
      (end of input, a failing read, or a parse classed as end of input), a line to
      skip, or a parsed row. */
  method NextRow(input: InputStdin, ghost cs: seq<Chunk>, i: nat, serde: Serde) returns (step: Step)
    requires input.Valid() && EmptyIsEof(serde) && i <= |cs| && input.pending == cs[i..]
    modifies input
    ensures input.Valid()
    ensures input.poisoned ==> step == Stop && input.pending == old(input.pending)
    ensures !input.poisoned && step.Stop? ==> Rows(cs, i, serde) == [] && input.pending == cs[StopAt(cs, i, serde)..]
    ensures step.Skip? ==> i < |cs| && input.pending == cs[i + 1..] &&
                           Rows(cs, i, serde) == Rows(cs, i + 1, serde) && StopAt(cs, i, serde) == StopAt(cs, i + 1, serde)
    ensures step.Got? ==> i < |cs| && input.pending == cs[i + 1..] &&
                          Rows(cs, i, serde) == [Row(i, step.json)] + Rows(cs, i + 1, serde) &&
                          StopAt(cs, i, serde) == StopAt(cs, i + 1, serde)
  {
    var read, buf := input.ReadLine([]);
    if read.Fail? {
      return Stop;
    }
    assert i < |cs| ==> cs[i] == Line(buf) && cs[i + 1..] == cs[i..][1..];
    match serde.parse(buf)
    case Eof => step := Stop;
    case Malformed => step := Skip;
    case Parsed(json) => step := Got(json);
  }

  /** How far a read loop has read, after `i` lines and `done` rows: while it goes
      on, the rows still to come are those of the unread lines; once it has stopped,
      every row has been read. */
  ghost predicate Reading(poisoned: bool, pending: seq<Chunk>, cs: seq<Chunk>, rows: seq<Row>, serde: Serde,
                          i: nat, done: nat, going: bool)
  {
    i <= |cs| && done <= |rows| &&
    (poisoned ==> done == 0 && pending == cs) &&
    (going ==> Rows(cs, i, serde) == rows[done..] && StopAt(cs, i, serde) == StopAt(cs, 0, serde) && pending == cs[i..]) &&
    (!going ==> poisoned || (done == |rows| && pending == cs[StopAt(cs, 0, serde)..]))
  }

  /** One `read_line` and parse, as `NextRow` reports it, moves the reading on by a
      line, and by a row when the line parsed. */
  lemma ReadingNext(poisoned: bool, before: seq<Chunk>, after: seq<Chunk>, cs: seq<Chunk>, rows: seq<Row>, serde: Serde,
                    i: nat, done: nat, step: Step)
    requires Reading(poisoned, before, cs, rows, serde, i, done, true)
    requires poisoned ==> step.Stop? && after == before
    requires !poisoned && step.Stop? ==> Rows(cs, i, serde) == [] && after == cs[StopAt(cs, i, serde)..]
    requires step.Skip? ==> i < |cs| && after == cs[i + 1..] &&
                            Rows(cs, i, serde) == Rows(cs, i + 1, serde) && StopAt(cs, i, serde) == StopAt(cs, i + 1, serde)
    requires step.Got? ==> i < |cs| && after == cs[i + 1..] &&
                           Rows(cs, i, serde) == [Row(i, step.json)] + Rows(cs, i + 1, serde) &&
                           StopAt(cs, i, serde) == StopAt(cs, i + 1, serde)
    ensures step.Stop? ==> Reading(poisoned, after, cs, rows, serde, i, done, false)
    ensures step.Skip? ==> Reading(poisoned, after, cs, rows, serde, i + 1, done, true)
    ensures step.Got? ==> !poisoned && done < |rows| && rows[done] == Row(i, step.json) && after == cs[i + 1..] &&
                          Reading(poisoned, after, cs, rows, serde, i + 1, done + 1, true)
  {
    if step.Got? {
      SuffixStep(rows, done);
    }
  }
}
