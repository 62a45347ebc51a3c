/** Standard output as a sink: values are written one after another, and a batch
    of entries as one `{key: value}` line each. */
module OutputStream {
  import opened Wrappers
  import opened Json
  import opened Io

  /** The line `write_entries` emits for one entry: the one-key object, then a line break. */
  function EntryLine(e: Entry, pretty: bool, serde: Serde): string
  {
    Serialize(serde, pretty, Object(map[e.0 := e.1])) + "\n"
  }

  /** The text emitted for `es`, one line per entry in order. */
  function Rendered(es: seq<Entry>, pretty: bool, serde: Serde): string
  {
    if es == [] then [] else Rendered(es[..|es| - 1], pretty, serde) + EntryLine(es[|es| - 1], pretty, serde)
  }

  class StreamOutput {
    var pretty: bool

    constructor (pretty: bool)
      ensures this.pretty == pretty
    {
      this.pretty := pretty;
    }

    method SetPretty(pretty: bool)
      modifies this
      ensures this.pretty == pretty
    {
      this.pretty := pretty;
    }

    /** `append`: the value, serialised as `pretty` says, then a line break. */
    method Append(out: Stdout, content: Value, serde: Serde) returns (r: Outcome)
      modifies out
      ensures r.Pass? <==> old(out.room) > 0
      ensures out.text == if r.Pass? then old(out.text) + Serialize(serde, pretty, content) + "\n" else old(out.text)
      ensures out.room == if r.Pass? then old(out.room) - 1 else old(out.room)
    {
      r := out.Write(Serialize(serde, pretty, content) + "\n");
    }

    /** `write`: the value, serialised as `pretty` says, with no line break. */
    method Write(out: Stdout, content: Value, serde: Serde) returns (r: Outcome)
      modifies out
      ensures r.Pass? <==> old(out.room) > 0
      ensures out.text == if r.Pass? then old(out.text) + Serialize(serde, pretty, content) else old(out.text)
      ensures out.room == if r.Pass? then old(out.room) - 1 else old(out.room)
    {
      r := out.Write(Serialize(serde, pretty, content));
    }

    /** `write_entries`: one line per entry, in order, stopping at the first failed write;
        the lines before it stay written. */
    method WriteEntries(out: Stdout, entries: seq<Entry>, serde: Serde) returns (r: Outcome)
      modifies out
      ensures r.Pass? <==> |entries| <= old(out.room)
      ensures var n := if |entries| <= old(out.room) then |entries| else old(out.room);
              out.text == old(out.text) + Rendered(entries[..n], pretty, serde) &&
              out.room == old(out.room) - n
    {
      var i := 0;
      ghost var text0, room0 := out.text, out.room;
      while i < |entries|
        invariant i <= |entries| && i <= room0 && out.room == room0 - i
        invariant out.text == text0 + Rendered(entries[..i], pretty, serde)
      {
        RenderedStep(text0, entries, i, pretty, serde);
        r := out.Write(EntryLine(entries[i], pretty, serde));
        if r.Fail? {
          return;
        }
        i := i + 1;
      }
      assert entries[..i] == entries;
      r := Pass;
    }
  }

  /** The text for one entry more, after any earlier text, is the text before it and
      that entry's line. */
  lemma RenderedStep(text0: string, es: seq<Entry>, i: nat, pretty: bool, serde: Serde)
    requires i < |es|
    ensures text0 + Rendered(es[..i + 1], pretty, serde) ==
            (text0 + Rendered(es[..i], pretty, serde)) + EntryLine(es[i], pretty, serde)
  {
    assert es[..i + 1][..i] == es[..i];
  }

  /** Writing two batches one after the other emits the same text as writing them as one. */
  lemma {:induction false} RenderedConcat(a: seq<Entry>, b: seq<Entry>, pretty: bool, serde: Serde)
    ensures Rendered(a + b, pretty, serde) == Rendered(a, pretty, serde) + Rendered(b, pretty, serde)
  {
    if b == [] {
      assert a + b == a;
    } else {
      var init := b[..|b| - 1];
      RenderedConcat(a, init, pretty, serde);
      assert (a + b)[..|a + b| - 1] == a + init;
    }
  }

  /** The text of a batch begins with the first entry's line. */
  lemma RenderedFirst(e: Entry, rest: seq<Entry>, pretty: bool, serde: Serde)
    ensures Rendered([e] + rest, pretty, serde) == EntryLine(e, pretty, serde) + Rendered(rest, pretty, serde)
  {
    RenderedConcat([e], rest, pretty, serde);
    assert [e][..0] == [];
  }

  /** A compact line, read back without its line break, is the entry's one-key object. */
  lemma EntryLineRoundTrip(e: Entry, serde: Serde)
    requires CompactRoundTrips(serde)
    ensures var line := EntryLine(e, false, serde);
            serde.parse(line[..|line| - 1]) == Parsed(Object(map[e.0 := e.1]))
  {
    var line := EntryLine(e, false, serde);
    assert line[..|line| - 1] == serde.compact(Object(map[e.0 := e.1]));
  }
}
