/** Standard input as a source of entries, one `[name, value]` array per line,
    and as a reader of one whole JSON object. */
module InputStd {
  import opened Wrappers
  import opened Json

  /** What one `read_line` on the buffered reader meets next: a line (its text with
      the line break, never empty), or a read that fails (such as invalid UTF-8),
      which consumes the offending input. */
  datatype Chunk = Line(text: string) | Broken

  /** The chunks a reader can deliver: every line holds at least one character. */
  predicate WellFormed(cs: seq<Chunk>)
  {
    forall k :: 0 <= k < |cs| && cs[k].Line? ==> cs[k].text != []
  }

  /** One line read as an entry: a JSON array whose two elements are a string and a value. */
  function ParseEntry(line: string, serde: Serde): Option<Entry>
  {
    match serde.parse(line)
    case Parsed(Array(items)) =>
      if |items| == 2 && items[0].String? then Some((items[0].s, items[1])) else None
    case _ => None
  }

  /** The entries `get_entries` collects from the chunks `cs`: it stops at the end of
      input or at the first failing read, and skips lines that are not entries. */
  function Collected(cs: seq<Chunk>, serde: Serde): seq<Entry>
  {
    if cs == [] || cs[0].Broken? then []
    else (match ParseEntry(cs[0].text, serde) case Some(e) => [e] case None => []) + Collected(cs[1..], serde)
  }

  /** The chunks still unread after `get_entries`: everything after the first failing read. */
  function Unread(cs: seq<Chunk>): seq<Chunk>
  {
    if cs == [] then [] else if cs[0].Broken? then cs[1..] else Unread(cs[1..])
  }

  /** The remaining input as one text, or nothing when some read fails. */
  function RestText(cs: seq<Chunk>): Option<string>
  {
    if cs == [] then Some([])
    else if cs[0].Broken? then None
    else match RestText(cs[1..])
      case None => None
      case Some(t) => Some(cs[0].text + t)
  }

  /** A text read as a `HashMap<String, Value>`: only a JSON object is accepted. */
  function ObjectOf(text: Option<string>, serde: Serde): Result<map<string, Value>>
  {
    match text
    case None => Err(Failure("stream did not contain valid UTF-8"))
    case Some(t) =>
      (match serde.parse(t)
        case Parsed(Object(m)) => Ok(m)
        case Parsed(_) => Err(Failure("invalid type: expected a map"))
        case _ => Err(Failure("invalid JSON")))
  }

  /** The process's standard input behind a lock: `pending` is what is still to be
      read, and `poisoned` says whether taking the lock fails. */
  class InputStdin {
    var pending: seq<Chunk>
    const poisoned: bool

    ghost predicate Valid()
      reads this
    {
      WellFormed(pending)
    }

    constructor (input: seq<Chunk>, poisoned: bool)
      requires WellFormed(input)
      ensures Valid() && pending == input && this.poisoned == poisoned
    {
      pending := input;
      this.poisoned := poisoned;
    }

    /** `read_line`: append the next line to `buf`. A poisoned lock is an error and
        reads nothing; at the end of input nothing is appended. */
    method ReadLine(buf: string) returns (r: Outcome, buf': string)
      requires Valid()
      modifies this
      ensures Valid()
      ensures poisoned ==> r.Fail? && buf' == buf && pending == old(pending)
      ensures !poisoned && old(pending) == [] ==> r.Pass? && buf' == buf && pending == []
      ensures !poisoned && old(pending) != [] ==> pending == old(pending)[1..]
      ensures !poisoned && old(pending) != [] && old(pending)[0].Line? ==>
                r.Pass? && buf' == buf + old(pending)[0].text
      ensures !poisoned && old(pending) != [] && old(pending)[0].Broken? ==> r.Fail? && buf' == buf
    {
      if poisoned {
        return Fail(Failure("PoisonError")), buf;
      }
      if pending == [] {
        return Pass, buf;
      }
      var next := pending[0];
      pending := pending[1..];
      if next.Broken? {
        r, buf' := Fail(Failure("stream did not contain valid UTF-8")), buf;
      } else {
        r, buf' := Pass, buf + next.text;
      }
    }

    /** `get_entries`: read line by line until a read fails or the input ends,
        keeping every line that parses as an entry. */
    method GetEntries(sort: bool, serde: Serde) returns (entries: seq<Entry>)
      requires Valid()
      modifies this
      ensures Valid()
      ensures entries == if poisoned then [] else Collected(old(pending), serde)
      ensures pending == if poisoned then old(pending) else Unread(old(pending))
    {
      entries := [];
      var buf: string := [];
      var going := true;
      while going
        invariant Valid() && buf == []
        invariant poisoned ==> entries == [] && pending == old(pending)
        invariant !poisoned && going ==>
                    entries + Collected(pending, serde) == Collected(old(pending), serde) &&
                    Unread(pending) == Unread(old(pending))
        invariant !poisoned && !going ==>
                    entries == Collected(old(pending), serde) && pending == Unread(old(pending))
        decreases if going then |pending| + 1 else 0
      {
        var r;
        ghost var before := pending;
        r, buf := ReadLine(buf);
        if r.Fail? {
          going := false;
        } else if buf == [] {
          going := false;
        } else {
          assert before[0].Line? && before[1..] == pending && buf == before[0].text;
          var parsed := ParseEntry(buf, serde);
          if parsed.Some? {
            entries := entries + [parsed.value];
          }
          buf := [];
        }
      }
    }

    /** `get_object`: read all the remaining input and parse it as one JSON object.
        This reads the process's input directly, not through the lock. */
    method GetObject(serde: Serde) returns (r: Result<map<string, Value>>)
      requires Valid()
      modifies this
      ensures Valid() && pending == []
      ensures r == ObjectOf(RestText(old(pending)), serde)
    {
      r := ObjectOf(RestText(pending), serde);
      pending := [];
    }
  }

  // ---------------------------------------------------------------------
  // collecting entries

  /** Lines are read one at a time and in order: collecting from two stretches of
      input, the first of which reads without failure, is collecting from each in turn. */
  lemma {:induction false} CollectedAppend(a: seq<Chunk>, b: seq<Chunk>, serde: Serde)
    requires forall k :: 0 <= k < |a| ==> a[k].Line?
    ensures Collected(a + b, serde) == Collected(a, serde) + Collected(b, serde)
  {
    if a != [] {
      CollectedAppend(a[1..], b, serde);
      assert (a + b)[0] == a[0] && (a + b)[1..] == a[1..] + b;
      var head := match ParseEntry(a[0].text, serde) case Some(e) => [e] case None => [];
      assert Collected(a + b, serde) == head + Collected(a[1..] + b, serde);
      assert Collected(a, serde) == head + Collected(a[1..], serde);
    } else {
      assert a + b == b;
    }
  }

  /** Nothing after a failing read is collected. */
  lemma CollectedStops(a: seq<Chunk>, b: seq<Chunk>, serde: Serde)
    requires forall k :: 0 <= k < |a| ==> a[k].Line?
    ensures Collected(a + [Broken] + b, serde) == Collected(a, serde)
  {
    CollectedAppend(a, [Broken] + b, serde);
    assert a + [Broken] + b == a + ([Broken] + b);
  }

  /** Each line is parsed on its own: it yields its entry, or nothing when it is not one. */
  lemma CollectedLine(line: string, rest: seq<Chunk>, serde: Serde)
    ensures Collected([Line(line)] + rest, serde) ==
              (if ParseEntry(line, serde).Some? then [ParseEntry(line, serde).value] else []) + Collected(rest, serde)
  {
    assert ([Line(line)] + rest)[1..] == rest;
  }

  /** Every collected entry is the parse of one of the lines read. */
  lemma {:induction false} CollectedFromLines(cs: seq<Chunk>, serde: Serde, e: Entry)
    requires e in Collected(cs, serde)
    ensures exists k :: 0 <= k < |cs| && cs[k].Line? && ParseEntry(cs[k].text, serde) == Some(e)
  {
    if ParseEntry(cs[0].text, serde) == Some(e) {
      assert cs[0].Line?;
    } else {
      CollectedFromLines(cs[1..], serde, e);
      var k :| 0 <= k < |cs[1..]| && cs[1..][k].Line? && ParseEntry(cs[1..][k].text, serde) == Some(e);
      assert cs[k + 1] == cs[1..][k];
    }
  }

  // ---------------------------------------------------------------------
  // reading one object

  /** An object written compactly on standard input is read back whole. */
  lemma GetObjectRoundTrip(m: map<string, Value>, serde: Serde)
    requires CompactRoundTrips(serde)
    ensures ObjectOf(RestText([Line(serde.compact(Object(m)))]), serde) == Ok(m)
  {
    assert serde.parse(serde.compact(Object(m))) == Parsed(Object(m));
    assert RestText([Line(serde.compact(Object(m)))]) == Some(serde.compact(Object(m)) + []);
    assert serde.compact(Object(m)) + [] == serde.compact(Object(m));
  }

  /** Input holding a failing read is never read as an object. */
  lemma {:induction false} GetObjectBroken(cs: seq<Chunk>, serde: Serde)
    requires Broken in cs
    ensures ObjectOf(RestText(cs), serde).Err?
    ensures RestText(cs).None?
  {
    if cs[0] != Broken {
      GetObjectBroken(cs[1..], serde);
    }
  }
}
