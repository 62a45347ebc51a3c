/** The NDJSON engine: bundling a directory of JSON documents into one line per
    document, with configured fields escaped to strings, and unbundling such lines
    back into named documents, with those fields unescaped. A field is named by a
    dotted path such as `a.b.c`, which addresses it through the JSON pointer `/a/b/c`. */
module ProcessorNdjson {
  import opened Wrappers
  import opened Json
  import opened Text
  import opened Pointer
  import opened Paths
  import opened Io
  import opened JsonField
  import opened InputStd
  import opened NdjsonLines
  import opened Seqs
  import InputFile
  import InputDir
  import OutputDir
  import OutputStream
  import Output

  // ---------------------------------------------------------------------
  // dotted paths

  /** `dots_to_slashes`: a leading '/', then the parts between the dots joined by '/'. */
  function DotsToSlashes(s: string): string
  {
    "/" + Join(Split(s, '.'), "/")
  }

  /** The pointer is the path with every '.' turned into '/', behind one leading '/'. */
  lemma DotsToSlashesShape(s: string)
    ensures DotsToSlashes(s) == "/" + ReplaceChar(s, '.', '/')
    ensures |DotsToSlashes(s)| == |s| + 1 && DotsToSlashes(s)[0] == '/' && '.' !in DotsToSlashes(s)
  {
    JoinSplit(s, '.', '/');
    ReplaceCharRemoves(s, '.', '/');
  }

  /** For a path with no '/' or '~', the pointer's reference tokens are exactly the
      parts between the dots: `a.b.c` addresses key `a`, then `b`, then `c`. */
  lemma DotsToSlashesTokens(s: string)
    requires '/' !in s && '~' !in s
    ensures Tokens(DotsToSlashes(s)) == Split(s, '.')
  {
    DotsToSlashesShape(s);
    var t := ReplaceChar(s, '.', '/');
    assert ("/" + t)[1..] == t;
    SplitAfterReplace(s, '.', '/');
    SplitPartsWithin(s, '.', '~');
    UnescapePlain(Split(s, '.'));
  }

  /** Reference tokens without '~' have nothing to unescape. */
  lemma {:induction false} UnescapePlain(parts: seq<string>)
    requires forall k :: 0 <= k < |parts| ==> '~' !in parts[k]
    ensures UnescapeTokens(parts) == parts
  {
    if parts != [] {
      AbsentHead(parts[0], "~1");
      ReplaceAbsent(parts[0], "~1", "/");
      AbsentHead(parts[0], "~0");
      ReplaceAbsent(parts[0], "~0", "~");
      UnescapePlain(parts[1..]);
    }
  }

  /** The pointers of a list of dotted paths, in order. */
  function Pointers(fields: seq<string>): (ptrs: seq<string>)
    ensures |ptrs| == |fields| && forall k :: 0 <= k < |fields| ==> ptrs[k] == DotsToSlashes(fields[k])
  {
    if fields == [] then [] else [DotsToSlashes(fields[0])] + Pointers(fields[1..])
  }

  // ---------------------------------------------------------------------
  // rewriting fields

  /** The document after rewriting through each pointer of `ptrs` in turn. */
  function RewriteAll(v: Value, ptrs: seq<string>, f: Value -> Value): Value
    decreases |ptrs|
  {
    if ptrs == [] then v else RewriteAll(Rewrite(v, ptrs[0], f), ptrs[1..], f)
  }

  /** `JsonField::from(value).escape()`, as the function applied at each field. */
  function EscapeFn(serde: Serde): Value -> Value
  {
    x => Escape(FromValue(x), serde)
  }

  /** `JsonField::from(value).unescape()`, as the function applied at each field. */
  function UnescapeFn(serde: Serde): Value -> Value
  {
    x => Unescape(FromValue(x), serde)
  }

  /** A document with the configured fields escaped; with no fields configured, as it is. */
  function Escaped(v: Value, fields: Option<seq<string>>, serde: Serde): Value
  {
    match fields
    case None => v
    case Some(fs) => RewriteAll(v, Pointers(fs), EscapeFn(serde))
  }

  /** A document with the configured fields unescaped; with no fields configured, as it is. */
  function Unescaped(v: Value, fields: Option<seq<string>>, serde: Serde): Value
  {
    match fields
    case None => v
    case Some(fs) => RewriteAll(v, Pointers(fs), UnescapeFn(serde))
  }

  /** The `for_each` over the fields in `read_entries_to_output`: each field whose
      pointer resolves is overwritten with its escaped form, in place. */
  method EscapeFields(json: Value, fields: seq<string>, serde: Serde) returns (r: Value)
    ensures r == Escaped(json, Some(fields), serde)
  {
    r := json;
    var ptrs := Pointers(fields);
    for k := 0 to |fields|
      invariant RewriteAll(r, ptrs[k..], EscapeFn(serde)) == RewriteAll(json, ptrs, EscapeFn(serde))
    {
      assert ptrs[k..][0] == DotsToSlashes(fields[k]) && ptrs[k..][1..] == ptrs[k + 1..];
      r := Rewrite(r, DotsToSlashes(fields[k]), EscapeFn(serde));
    }
    assert ptrs[|fields|..] == [];
  }

  /** Rewriting where no pointer resolves leaves the document as it was. */
  lemma {:induction false} RewriteAllUnresolved(v: Value, ptrs: seq<string>, f: Value -> Value)
    requires forall k :: 0 <= k < |ptrs| ==> Get(v, ptrs[k]).None?
    ensures RewriteAll(v, ptrs, f) == v
    decreases |ptrs|
  {
    if ptrs != [] {
      RewriteUnresolved(v, ptrs[0], f);
      RewriteAllUnresolved(v, ptrs[1..], f);
    }
  }

  /** Rewriting leaves every location off the paths of the pointers as it was. */
  lemma {:induction false} RewriteAllElsewhere(v: Value, ptrs: seq<string>, f: Value -> Value, q: seq<string>)
    requires forall k :: 0 <= k < |ptrs| ==> |ptrs[k]| > 0 && ptrs[k][0] == '/' && !Related(Tokens(ptrs[k]), q)
    ensures Resolve(RewriteAll(v, ptrs, f), q) == Resolve(v, q)
    decreases |ptrs|
  {
    if ptrs != [] {
      RewriteElsewhere(v, ptrs[0], f, q);
      RewriteAllElsewhere(Rewrite(v, ptrs[0], f), ptrs[1..], f, q);
    }
  }

  /** Escaping configured fields that resolve nowhere leaves the document unchanged. */
  lemma EscapedUnresolved(v: Value, fields: seq<string>, serde: Serde)
    requires forall k :: 0 <= k < |fields| ==> Get(v, DotsToSlashes(fields[k])).None?
    ensures Escaped(v, Some(fields), serde) == v
  {
    RewriteAllUnresolved(v, Pointers(fields), EscapeFn(serde));
  }

  /** Escaping touches nothing off the configured paths: a location no field path
      leads to, or passes through, keeps its value. */
  lemma EscapedElsewhere(v: Value, fields: seq<string>, serde: Serde, q: seq<string>)
    requires forall k :: 0 <= k < |fields| ==>
               '/' !in fields[k] && '~' !in fields[k] && !Related(Split(fields[k], '.'), q)
    ensures Resolve(Escaped(v, Some(fields), serde), q) == Resolve(v, q)
  {
    var ptrs := Pointers(fields);
    forall k | 0 <= k < |ptrs| ensures |ptrs[k]| > 0 && ptrs[k][0] == '/' && !Related(Tokens(ptrs[k]), q) {
      DotsToSlashesShape(fields[k]);
      DotsToSlashesTokens(fields[k]);
    }
    RewriteAllElsewhere(v, ptrs, EscapeFn(serde), q);
  }

  /** A field that resolves holds, once escaped, a JSON string; escaping it again changes nothing. */
  lemma EscapeFieldIdempotent(v: Value, field: string, serde: Serde)
    requires Get(v, DotsToSlashes(field)).Some?
    ensures var after := Get(Escaped(v, Some([field]), serde), DotsToSlashes(field));
            after.Some? && after.value.String?
    ensures Escaped(Escaped(v, Some([field]), serde), Some([field]), serde) == Escaped(v, Some([field]), serde)
  {
    var p := DotsToSlashes(field);
    var e := EscapeFn(serde);
    OnePointer(field);
    RewriteResolved(v, p, e);
    EscapeIdempotent(Get(v, p).value, serde);
    RewriteIdempotent(v, p, e);
  }

  /** With one field configured, escaping or unescaping is one rewrite through its pointer. */
  lemma OnePointer(field: string)
    ensures Pointers([field]) == [DotsToSlashes(field)]
    ensures forall v, f :: RewriteAll(v, Pointers([field]), f) == Rewrite(v, DotsToSlashes(field), f)
  {
    assert [DotsToSlashes(field)][1..] == [];
  }

  /** Unescaping a field escaped at bundling gives the document back, for a non-string
      field whose compact text holds no `\"` (parse assumed to invert compact serialisation). */
  lemma EscapeFieldRoundTrip(v: Value, field: string, serde: Serde)
    requires CompactRoundTrips(serde)
    requires Get(v, DotsToSlashes(field)).Some?
    requires var x := Get(v, DotsToSlashes(field)).value;
             !x.String? && !Contains(serde.compact(x), ESCAPED_QUOTE)
    ensures Unescaped(Escaped(v, Some([field]), serde), Some([field]), serde) == v
  {
    var p := DotsToSlashes(field);
    OnePointer(field);
    EscapeUnescapeRoundTrip(Get(v, p).value, serde);
    RewriteInverse(v, p, EscapeFn(serde), UnescapeFn(serde));
  }

  // ---------------------------------------------------------------------
  // naming unbundled records

  /** `format!("object-{i:06}")`. */
  function DefaultName(i: nat): string
  {
    "object-" + ZeroPad(Decimal(i), 6)
  }

  /** `find_map` over the name pointers: the value at the first one that resolves. */
  function FirstResolved(json: Value, ptrs: seq<string>): (r: Option<Value>)
    ensures r.None? <==> forall k :: 0 <= k < |ptrs| ==> Get(json, ptrs[k]).None?
    ensures r.Some? ==> exists k :: 0 <= k < |ptrs| && Get(json, ptrs[k]) == r &&
                                   forall j :: 0 <= j < k ==> Get(json, ptrs[j]).None?
  {
    if ptrs == [] then None
    else match Get(json, ptrs[0])
      case Some(x) => Some(x)
      case None =>
        var r := FirstResolved(json, ptrs[1..]);
        assert r.Some? ==> exists k :: 0 <= k < |ptrs[1..]| && Get(json, ptrs[1..][k]) == r &&
                                       forall j :: 0 <= j < k ==> Get(json, ptrs[1..][j]).None?;
        assert r.Some? ==> exists k :: 0 <= k < |ptrs| && Get(json, ptrs[k]) == r &&
                                       forall j :: 0 <= j < k ==> Get(json, ptrs[j]).None? by {
          if r.Some? {
            var k :| 0 <= k < |ptrs[1..]| && Get(json, ptrs[1..][k]) == r &&
                     forall j :: 0 <= j < k ==> Get(json, ptrs[1..][j]).None?;
            assert ptrs[k + 1] == ptrs[1..][k];
            forall j | 0 <= j < k + 1 ensures Get(json, ptrs[j]).None? {
              if j > 0 { assert ptrs[j] == ptrs[1..][j - 1]; }
            }
          }
        }
        r
  }

  /** The `name_entry` closure: the string at the first name pointer that resolves
      (any other value gives ""), or the default name when none does; then, when the
      type pointer resolves, a '.' and the string there (or ""). */
  function NameEntry(i: nat, json: Value, namePtrs: seq<string>, typePtr: Option<string>): string
  {
    var name := match FirstResolved(json, namePtrs)
      case None => DefaultName(i)
      case Some(x) => StrOrEmpty(x);
    match typePtr
    case None => name
    case Some(tp) =>
      (match Get(json, tp)
        case None => name
        case Some(t) => name + "." + StrOrEmpty(t))
  }

  /** Distinct line counters give distinct default names. */
  lemma DefaultNameInjective(i: nat, j: nat)
    ensures DefaultName(i) == DefaultName(j) ==> i == j
  {
    if DefaultName(i) == DefaultName(j) {
      assert ZeroPad(Decimal(i), 6) == DefaultName(i)[7..];
      assert ZeroPad(Decimal(j), 6) == DefaultName(j)[7..];
      PaddedValue(i);
      PaddedValue(j);
    }
  }

  /** The padded numeral still reads as the counter. */
  lemma PaddedValue(i: nat)
    ensures AllDigits(ZeroPad(Decimal(i), 6)) && DigitsValue(ZeroPad(Decimal(i), 6)) == i
  {
    DecimalValue(i);
    if |Decimal(i)| < 6 {
      LeadingZerosValue(6 - |Decimal(i)|, Decimal(i));
    }
  }

  /** Below a million lines the default name has its full width: "object-" and six digits. */
  lemma DefaultNameWidth(i: nat)
    requires i < 1000000
    ensures |DefaultName(i)| == 13 && DefaultName(i)[..7] == "object-"
    ensures AllDigits(DefaultName(i)[7..]) && DigitsValue(DefaultName(i)[7..]) == i
  {
    assert Pow10(6) == 1000000;
    DecimalLength(i, 6, Pow10(6));
    PaddedValue(i);
    assert DefaultName(i)[7..] == ZeroPad(Decimal(i), 6);
  }

  /** The name rule: the first resolving name pointer decides, any earlier one not
      resolving; a non-string there names the record "". */
  lemma NameFromFirstResolving(i: nat, json: Value, namePtrs: seq<string>, k: nat)
    requires k < |namePtrs| && Get(json, namePtrs[k]).Some?
    requires forall j :: 0 <= j < k ==> Get(json, namePtrs[j]).None?
    ensures NameEntry(i, json, namePtrs, None) == StrOrEmpty(Get(json, namePtrs[k]).value)
  {
    var r := FirstResolved(json, namePtrs);
    var k' :| 0 <= k' < |namePtrs| && Get(json, namePtrs[k']) == r &&
              forall j :: 0 <= j < k' ==> Get(json, namePtrs[j]).None?;
    assert k' == k;
  }

  /** With no name pointer resolving, the record takes the default name of its line. */
  lemma NameDefault(i: nat, json: Value, namePtrs: seq<string>)
    requires forall k :: 0 <= k < |namePtrs| ==> Get(json, namePtrs[k]).None?
    ensures NameEntry(i, json, namePtrs, None) == DefaultName(i)
  {
  }

  /** The type suffix: when the type pointer resolves, the name gains '.' and the string
      there (or ""); otherwise the name is unchanged. */
  lemma NameTypeSuffix(i: nat, json: Value, namePtrs: seq<string>, typePtr: string)
    ensures Get(json, typePtr).Some? ==>
              NameEntry(i, json, namePtrs, Some(typePtr)) ==
              NameEntry(i, json, namePtrs, None) + "." + StrOrEmpty(Get(json, typePtr).value)
    ensures Get(json, typePtr).None? ==>
              NameEntry(i, json, namePtrs, Some(typePtr)) == NameEntry(i, json, namePtrs, None)
  {
  }

  // ---------------------------------------------------------------------
  // bundling

  /** The line the bundler appends for one document: the document with its configured
      fields escaped, serialised as `pretty` says, then a line break. */
  function BundleLine(v: Value, fields: Option<seq<string>>, pretty: bool, serde: Serde): string
  {
    Serialize(serde, pretty, Escaped(v, fields, serde)) + "\n"
  }

  /** The text the bundler appends for `es`, one line per entry in order. */
  function BundleText(es: seq<Entry>, fields: Option<seq<string>>, pretty: bool, serde: Serde): string
  {
    if es == [] then [] else BundleText(es[..|es| - 1], fields, pretty, serde) + BundleLine(es[|es| - 1].1, fields, pretty, serde)
  }

  /** The text for one entry more, after any earlier text, is the text before it and
      that entry's line. */
  lemma BundleTextStep(text0: string, es: seq<Entry>, i: nat, fields: Option<seq<string>>, pretty: bool, serde: Serde)
    requires i < |es|
    ensures text0 + BundleText(es[..i + 1], fields, pretty, serde) ==
            (text0 + BundleText(es[..i], fields, pretty, serde)) + BundleLine(es[i].1, fields, pretty, serde)
  {
    assert es[..i + 1][..i] == es[..i];
  }

  /** What the bundler has appended after `i` entries, to an output that had `room0`
      room: their lines, one append each. */
  ghost predicate Appended(text: string, room: nat, text0: string, room0: nat, es: seq<Entry>, i: nat,
                           fields: Option<seq<string>>, pretty: bool, serde: Serde)
  {
    i <= |es| && i <= room0 && text == text0 + BundleText(es[..i], fields, pretty, serde) && room == room0 - i
  }

  /** The same text as a sequence of lines. */
  function BundleLines(es: seq<Entry>, fields: Option<seq<string>>, pretty: bool, serde: Serde): (ls: seq<string>)
    ensures |ls| == |es|
    ensures forall k :: 0 <= k < |es| ==> ls[k] == BundleLine(es[k].1, fields, pretty, serde)
  {
    if es == [] then [] else BundleLines(es[..|es| - 1], fields, pretty, serde) + [BundleLine(es[|es| - 1].1, fields, pretty, serde)]
  }

  /** The bundle text is its lines written one after another. */
  lemma {:induction false} BundleTextLines(es: seq<Entry>, fields: Option<seq<string>>, pretty: bool, serde: Serde)
    ensures BundleText(es, fields, pretty, serde) == Concat(BundleLines(es, fields, pretty, serde))
  {
    if es != [] {
      BundleTextLines(es[..|es| - 1], fields, pretty, serde);
      var ls := BundleLines(es, fields, pretty, serde);
      assert ls[..|ls| - 1] == BundleLines(es[..|es| - 1], fields, pretty, serde);
    }
  }

  /** The chunks a line reader delivers for these lines. */
  function AsChunks(ls: seq<string>): (cs: seq<Chunk>)
    ensures |cs| == |ls| && forall k :: 0 <= k < |ls| ==> cs[k] == Line(ls[k])
  {
    if ls == [] then [] else [Line(ls[0])] + AsChunks(ls[1..])
  }

  class NdjsonBundler {
    const input: InputDir.InputDirectory
    const output: OutputStream.StreamOutput

    constructor (input: InputDir.InputDirectory, output: OutputStream.StreamOutput)
      ensures this.input == input && this.output == output
    {
      this.input := input;
      this.output := output;
    }

    /** `bundle`, which is `read_entries_to_output`: the directory's entries, unsorted,
        each with its configured fields escaped and appended as one line, stopping at
        the first append that fails. A directory that cannot be read panics. */
    method Bundle(jsonFields: Option<seq<string>>, disk: Disk, out: Stdout, serde: Serde) returns (r: Outcome)
      modifies out
      ensures InputFile.ReadEntries(disk, input.path, false, serde).Err? ==>
                r == Fail(Panic(InputDir.ENTRIES_PANIC)) && out.text == old(out.text) && out.room == old(out.room)
      ensures InputFile.ReadEntries(disk, input.path, false, serde).Ok? ==>
                var es := InputFile.ReadEntries(disk, input.path, false, serde).value;
                var n := if |es| <= old(out.room) then |es| else old(out.room);
                (r.Pass? <==> |es| <= old(out.room)) &&
                out.text == old(out.text) + BundleText(es[..n], jsonFields, output.pretty, serde) &&
                out.room == old(out.room) - n
    {
      var got := InputDir.GetEntries(input, false, disk, serde);
      if got.Err? {
        return Fail(got.error);
      }
      r := AppendEntries(got.value, jsonFields, out, serde);
    }

    /** The `map` and `collect` of `read_entries_to_output`: each entry's document, its
        configured fields escaped, appended as one line, in order, up to the first append
        that fails, whose error is returned. */
    method AppendEntries(es: seq<Entry>, jsonFields: Option<seq<string>>, out: Stdout, serde: Serde) returns (r: Outcome)
      modifies out
      ensures var n := if |es| <= old(out.room) then |es| else old(out.room);
              (r.Pass? <==> |es| <= old(out.room)) &&
              out.text == old(out.text) + BundleText(es[..n], jsonFields, output.pretty, serde) &&
              out.room == old(out.room) - n
    {
      var i := 0;
      ghost var text0, room0 := out.text, out.room;
      while i < |es|
        invariant Appended(out.text, out.room, text0, room0, es, i, jsonFields, output.pretty, serde)
      {
        r := AppendNext(es, i, jsonFields, out, serde, text0, room0);
        if r.Fail? {
          return;
        }
        i := i + 1;
      }
      assert es[..i] == es;
      r := Pass;
    }

    /** One turn of the `map` over the entries: the next entry's line is appended, or
        the output has no room left and nothing changes. */
    method AppendNext(es: seq<Entry>, i: nat, jsonFields: Option<seq<string>>, out: Stdout, serde: Serde,
                      ghost text0: string, ghost room0: nat) returns (r: Outcome)
      requires i < |es| && Appended(out.text, out.room, text0, room0, es, i, jsonFields, output.pretty, serde)
      modifies out
      ensures r.Pass? ==> Appended(out.text, out.room, text0, room0, es, i + 1, jsonFields, output.pretty, serde)
      ensures r.Fail? ==> i == room0 && out.text == old(out.text) && out.room == old(out.room)
    {
      BundleTextStep(text0, es, i, jsonFields, output.pretty, serde);
      r := AppendOne(es[i].1, jsonFields, out, serde);
    }

    /** One step of the `map`: escape the configured fields of one document in place,
        then append it. */
    method AppendOne(json: Value, jsonFields: Option<seq<string>>, out: Stdout, serde: Serde) returns (r: Outcome)
      modifies out
      ensures r.Pass? <==> old(out.room) > 0
      ensures out.text == if r.Pass? then old(out.text) + BundleLine(json, jsonFields, output.pretty, serde) else old(out.text)
      ensures out.room == if r.Pass? then old(out.room) - 1 else old(out.room)
    {
      var escaped := json;
      if jsonFields.Some? {
        escaped := EscapeFields(json, jsonFields.value, serde);
      }
      r := output.Append(out, escaped, serde);
    }
  }

  /** Read back line by line, a compact bundle gives one row per bundled document, in
      order and numbered from 0, each the document with its fields escaped; the loop
      reads to the end. */
  lemma BundleRows(es: seq<Entry>, fields: Option<seq<string>>, serde: Serde)
    requires CompactLinesRoundTrip(serde)
    ensures var cs := AsChunks(BundleLines(es, fields, false, serde));
            |Rows(cs, 0, serde)| == |es| && StopAt(cs, 0, serde) == |es| &&
            forall k :: 0 <= k < |es| ==> Rows(cs, 0, serde)[k] == Row(k, Escaped(es[k].1, fields, serde))
  {
    var ls := BundleLines(es, fields, false, serde);
    var cs := AsChunks(ls);
    forall k | 0 <= k < |cs| ensures cs[k].Line? && serde.parse(cs[k].text) == Parsed(Escaped(es[k].1, fields, serde)) {
      var v := Escaped(es[k].1, fields, serde);
      assert cs[k] == Line(ls[k]) && ls[k] == serde.compact(v) + "\n";
    }
    RowsAllParsed(cs, 0, serde);
    forall k | 0 <= k < |es| ensures Rows(cs, 0, serde)[k] == Row(k, Escaped(es[k].1, fields, serde)) {
      assert Rows(cs, 0, serde)[k] == Row(0 + k, serde.parse(cs[0 + k].text).value);
    }
  }

  // ---------------------------------------------------------------------
  // unbundling

  /** The naming configuration: name pointers and an optional type pointer, built from
      the dotted paths given to `unbundle`. */
  datatype Naming = Naming(namePtrs: seq<string>, typePtr: Option<string>)

  function NamingOf(name: Option<seq<string>>, typeField: Option<string>): Naming
  {
    Naming(match name case None => [] case Some(list) => Pointers(list),
           match typeField case None => None case Some(f) => Some(DotsToSlashes(f)))
  }

  /** The one-entry batch a parsed row is written as: the row with its fields unescaped,
      named from that unescaped row and its line number. */
  function RowEntry(row: Row, naming: Naming, fields: Option<seq<string>>, serde: Serde): Entry
  {
    var u := Unescaped(row.value, fields, serde);
    (NameEntry(row.line, u, naming.namePtrs, naming.typePtr), u)
  }

  /** The batches the rows are written as, one per row, in order. */
  function RowEntries(rows: seq<Row>, naming: Naming, fields: Option<seq<string>>, serde: Serde): (es: seq<Entry>)
    ensures |es| == |rows|
  {
    if rows == [] then [] else [RowEntry(rows[0], naming, fields, serde)] + RowEntries(rows[1..], naming, fields, serde)
  }

  /** The `k`-th batch is the `k`-th row's. */
  lemma {:induction false} RowEntriesAt(rows: seq<Row>, naming: Naming, fields: Option<seq<string>>, serde: Serde, k: nat)
    requires k < |rows|
    ensures RowEntries(rows, naming, fields, serde)[k] == RowEntry(rows[k], naming, fields, serde)
    decreases k
  {
    if k > 0 {
      RowEntriesAt(rows[1..], naming, fields, serde, k - 1);
      assert rows[1..][k - 1] == rows[k];
    }
  }

  /** The effect of writing one row as a one-entry batch: on standard output its
      `{name: value}` line, refused when the stream has no room; in a directory its file,
      after creating the directory (unless it is "."), refused when that fails. */
  function RowWrite(t: Output.Target, denied: set<Path>, m: Medium, e: Entry, serde: Serde): (Medium, bool)
  {
    match t
    case ToStream(pretty) =>
      if m.room > 0 then (m.(text := m.text + OutputStream.EntryLine(e, pretty, serde), room := m.room - 1), true)
      else (m, false)
    case ToDirectory(path, pretty) =>
      if path != "." && path in denied then (m, false)
      else (m.(files := OutputDir.WriteOne(m.files, path, e, pretty, serde, denied),
               dirs := if path != "." then m.dirs + {path} else m.dirs), true)
  }

  /** The medium after writing rows one at a time, up to the first write that fails, and
      whether every write succeeded. */
  function Feed(t: Output.Target, denied: set<Path>, m: Medium, es: seq<Entry>, serde: Serde): (Medium, bool)
  {
    if es == [] then (m, true)
    else
      var prev := Feed(t, denied, m, es[..|es| - 1], serde);
      if !prev.1 then prev else RowWrite(t, denied, prev.0, es[|es| - 1], serde)
  }

  /** One more row after rows that were all written is that row's write. */
  lemma FeedNext(t: Output.Target, denied: set<Path>, m: Medium, es: seq<Entry>, k: nat, serde: Serde)
    requires k < |es| && Feed(t, denied, m, es[..k], serde).1
    ensures Feed(t, denied, m, es[..k + 1], serde) == RowWrite(t, denied, Feed(t, denied, m, es[..k], serde).0, es[k], serde)
  {
    assert es[..k + 1][..k] == es[..k];
  }

  /** Once a write has failed, the rest of the rows change nothing. */
  lemma {:induction false} FeedStops(t: Output.Target, denied: set<Path>, m: Medium, es: seq<Entry>, k: nat, serde: Serde)
    requires k <= |es| && !Feed(t, denied, m, es[..k], serde).1
    ensures Feed(t, denied, m, es, serde) == Feed(t, denied, m, es[..k], serde)
    decreases |es| - k
  {
    if k < |es| {
      assert es[..k + 1][..k] == es[..k];
      FeedStops(t, denied, m, es, k + 1, serde);
    } else {
      assert es[..k] == es;
    }
  }

  /** What a read loop has written: the medium is as after the first `done` writes,
      none of which failed. */
  ghost predicate Fed(m: Medium, denied: set<Path>, t: Output.Target, m0: Medium, es: seq<Entry>, done: nat, serde: Serde)
  {
    done <= |es| && Feed(t, denied, m0, es[..done], serde).1 && m == Feed(t, denied, m0, es[..done], serde).0
  }

  /** How a read loop ends on a failing write: writing row `done`, after the line it
      came from was read, the rows before it all written. */
  ghost predicate Refused(m: Medium, denied: set<Path>, poisoned: bool, pending: seq<Chunk>, cs: seq<Chunk>,
                          rows: seq<Row>, t: Output.Target, m0: Medium, es: seq<Entry>, serde: Serde, done: nat)
  {
    !poisoned && done < |es| && done < |rows| && rows[done].line < |cs| && pending == cs[rows[done].line + 1..] &&
    Feed(t, denied, m0, es[..done], serde).1 &&
    m == Feed(t, denied, m0, es[..done + 1], serde).0 && !Feed(t, denied, m0, es[..done + 1], serde).1
  }

  /** On standard output, the rows that fit are printed as one `{name: value}` line
      each, in order; the first row that does not fit ends the run with an error. */
  lemma {:induction false} FeedStream(pretty: bool, denied: set<Path>, m: Medium, es: seq<Entry>, serde: Serde)
    ensures var n := if |es| <= m.room then |es| else m.room;
            Feed(Output.ToStream(pretty), denied, m, es, serde) ==
            (m.(text := m.text + OutputStream.Rendered(es[..n], pretty, serde), room := m.room - n), |es| <= m.room)
  {
    var t := Output.ToStream(pretty);
    if es == [] {
      assert es[..0] == [] && m.text + [] == m.text;
    } else {
      var init := es[..|es| - 1];
      var last := es[|es| - 1];
      FeedStream(pretty, denied, m, init, serde);
      var prev := Feed(t, denied, m, init, serde);
      assert Feed(t, denied, m, es, serde) == if !prev.1 then prev else RowWrite(t, denied, prev.0, last, serde);
      if |init| < m.room {
        assert init[..|init|] == init && es[..|es|] == es;
        var before := m.text + OutputStream.Rendered(init, pretty, serde);
        assert prev == (m.(text := before, room := m.room - |init|), true);
        assert OutputStream.Rendered(es, pretty, serde) ==
               OutputStream.Rendered(init, pretty, serde) + OutputStream.EntryLine(last, pretty, serde);
        assert before + OutputStream.EntryLine(last, pretty, serde) == m.text + OutputStream.Rendered(es, pretty, serde);
      } else {
        assert es[..m.room] == init[..m.room];
      }
    }
  }

  /** In a directory whose creation fails, no row is written and any row ends the run
      with an error; otherwise every row's file is written, in order, and the directory
      exists once a row has been written. */
  lemma {:induction false} FeedDirectory(path: Path, pretty: bool, denied: set<Path>, m: Medium, es: seq<Entry>, serde: Serde)
    ensures path != "." && path in denied ==>
              Feed(Output.ToDirectory(path, pretty), denied, m, es, serde) == (m, es == [])
    ensures !(path != "." && path in denied) ==>
              Feed(Output.ToDirectory(path, pretty), denied, m, es, serde) ==
              (m.(files := OutputDir.WriteFiles(m.files, path, es, pretty, serde, denied),
                  dirs := if es != [] && path != "." then m.dirs + {path} else m.dirs), true)
  {
    if es != [] {
      var t := Output.ToDirectory(path, pretty);
      var init := es[..|es| - 1];
      var last := es[|es| - 1];
      FeedDirectory(path, pretty, denied, m, init, serde);
      var prev := Feed(t, denied, m, init, serde);
      assert Feed(t, denied, m, es, serde) == if !prev.1 then prev else RowWrite(t, denied, prev.0, last, serde);
      if !(path != "." && path in denied) {
        var files := OutputDir.WriteFiles(m.files, path, init, pretty, serde, denied);
        var dirs := if init != [] && path != "." then m.dirs + {path} else m.dirs;
        assert prev == (m.(files := files, dirs := dirs), true);
        var next := RowWrite(t, denied, prev.0, last, serde);
        assert next == (prev.0.(files := OutputDir.WriteOne(files, path, last, pretty, serde, denied),
                                dirs := if path != "." then dirs + {path} else dirs), true);
        OutputDir.WriteFilesLast(m.files, path, es, pretty, serde, denied);
        assert (if path != "." then dirs + {path} else dirs) == (if path != "." then m.dirs + {path} else m.dirs);
      }
    }
  }

  class NdjsonUnbundler {
    const input: InputStdin
    const output: Output.Writable
    const unescapeFields: Option<seq<string>>

    constructor (input: InputStdin, output: Output.Writable, unescapeFields: Option<seq<string>>)
      ensures this.input == input && this.output == output && this.unescapeFields == unescapeFields
    {
      this.input := input;
      this.output := output;
      this.unescapeFields := unescapeFields;
    }

    /** `unescape_fields`: each configured field whose pointer resolves is overwritten
        with its unescaped form, in place. */
    method UnescapeFields(json: Value, serde: Serde) returns (r: Value)
      ensures r == Unescaped(json, unescapeFields, serde)
    {
      r := json;
      if unescapeFields.None? {
        return;
      }
      var fields := unescapeFields.value;
      var ptrs := Pointers(fields);
      for k := 0 to |fields|
        invariant RewriteAll(r, ptrs[k..], UnescapeFn(serde)) == RewriteAll(json, ptrs, UnescapeFn(serde))
      {
        assert ptrs[k..][0] == DotsToSlashes(fields[k]) && ptrs[k..][1..] == ptrs[k + 1..];
        r := Rewrite(r, DotsToSlashes(fields[k]), UnescapeFn(serde));
      }
      assert ptrs[|fields|..] == [];
    }

    /** `unbundle`: read the input line by line, write each parsed row as a one-entry
        batch named by `name_entry`, skip lines that do not parse, and end at the end of
        input or at a failing read. A failing write ends it with that error. */
    method Unbundle(name: Option<seq<string>>, typeField: Option<string>, store: FileStore, out: Stdout,
                    serde: Serde) returns (r: Outcome)
      requires input.Valid() && EmptyIsEof(serde)
      modifies input, store, out
      ensures input.Valid()
      ensures input.poisoned ==>
                r == Pass && input.pending == old(input.pending) && MediumOf(store, out) == old(MediumOf(store, out))
      ensures !input.poisoned ==>
                var cs := old(input.pending);
                var rows := Rows(cs, 0, serde);
                var es := RowEntries(rows, NamingOf(name, typeField), unescapeFields, serde);
                var fed := Feed(old(Output.TargetOf(output)), store.denied, old(MediumOf(store, out)), es, serde);
                MediumOf(store, out) == fed.0 && (r.Pass? <==> fed.1) &&
                (r.Pass? ==> input.pending == cs[StopAt(cs, 0, serde)..]) &&
                (r.Fail? ==> exists k :: 0 <= k < |rows| && input.pending == cs[rows[k].line + 1..] &&
                               Feed(old(Output.TargetOf(output)), store.denied, old(MediumOf(store, out)), es[..k], serde).1 &&
                               !Feed(old(Output.TargetOf(output)), store.denied, old(MediumOf(store, out)), es[..k + 1], serde).1)
    {
      var naming := NamingOf(name, typeField);
      ghost var cs := input.pending;
      ghost var rows := Rows(cs, 0, serde);
      ghost var es := RowEntries(rows, naming, unescapeFields, serde);
      ghost var t := Output.TargetOf(output);
      ghost var m0 := MediumOf(store, out);
      ghost var read, done;
      r, read, done := ReadLoop(naming, cs, rows, es, t, m0, store, out, serde);
      if r.Fail? {
        FeedStops(t, store.denied, m0, es, done + 1, serde);
      } else if !input.poisoned {
        assert es[..done] == es;
      }
    }

    /** The read loop of `unbundle`: rows are written one at a time until the input
        ends or a write fails; `done` rows were written successfully before that. */
    method ReadLoop(naming: Naming, ghost cs: seq<Chunk>, ghost rows: seq<Row>, ghost es: seq<Entry>, ghost t: Output.Target,
                    ghost m0: Medium, store: FileStore, out: Stdout, serde: Serde)
      returns (r: Outcome, ghost read: nat, ghost done: nat)
      requires input.Valid() && EmptyIsEof(serde) && input.pending == cs
      requires rows == Rows(cs, 0, serde) && es == RowEntries(rows, naming, unescapeFields, serde)
      requires t == Output.TargetOf(output) && m0 == MediumOf(store, out)
      modifies input, store, out
      ensures input.Valid()
      ensures r.Pass? ==> Reading(input.poisoned, input.pending, cs, rows, serde, read, done, false) &&
                          Fed(MediumOf(store, out), store.denied, t, m0, es, done, serde)
      ensures r.Fail? ==> Refused(MediumOf(store, out), store.denied, input.poisoned, input.pending, cs, rows, t, m0, es,
                                  serde, done)
    {
      read, done := 0, 0;
      var i: nat := 0;
      var going := true;
      assert cs[0..] == cs && es[..0] == [];
      while going
        invariant input.Valid() && t == Output.TargetOf(output)
        invariant Reading(input.poisoned, input.pending, cs, rows, serde, i, done, going)
        invariant Fed(MediumOf(store, out), store.denied, t, m0, es, done, serde)
        decreases if going then |cs| - i + 1 else 0
      {
        i, done, going, r := Turn(naming, cs, rows, es, t, m0, store, out, serde, i, done);
        if r.Fail? {
          return;
        }
      }
      read, r := i, Pass;
    }

    /** One turn of the read loop: read a line, and write it when it parses. Only a
        failing write ends the turn with a failure. */
    method Turn(naming: Naming, ghost cs: seq<Chunk>, ghost rows: seq<Row>, ghost es: seq<Entry>, ghost t: Output.Target,
                ghost m0: Medium, store: FileStore, out: Stdout, serde: Serde, i: nat, ghost done: nat)
      returns (i': nat, ghost done': nat, going: bool, r: Outcome)
      requires EmptyIsEof(serde) && es == RowEntries(rows, naming, unescapeFields, serde)
      requires input.Valid() && t == Output.TargetOf(output)
      requires Reading(input.poisoned, input.pending, cs, rows, serde, i, done, true)
      requires Fed(MediumOf(store, out), store.denied, t, m0, es, done, serde)
      modifies input, store, out
      ensures input.Valid() && t == Output.TargetOf(output)
      ensures r.Pass? ==> Reading(input.poisoned, input.pending, cs, rows, serde, i', done', going) &&
                          Fed(MediumOf(store, out), store.denied, t, m0, es, done', serde) && (going ==> i < i')
      ensures r.Fail? ==> done' == done &&
                          Refused(MediumOf(store, out), store.denied, input.poisoned, input.pending, cs, rows, t, m0, es,
                                  serde, done)
    {
      ghost var before, m := input.pending, MediumOf(store, out);
      assert i <= |cs| && before == cs[i..];
      var step := ReadRow(cs, i, serde);
      assert MediumOf(store, out) == m;
      ReadingNext(input.poisoned, before, input.pending, cs, rows, serde, i, done, step);
      i', done', going, r := i, done, true, Pass;
      match step {
        case Stop =>
          going := false;
        case Skip =>
          i' := i + 1;
        case Got(json) =>
          r := WriteNext(i, json, naming, rows, es, done, t, m0, store, out, serde);
          if r.Pass? {
            i', done' := i + 1, done + 1;
          }
      }
    }

    /** One turn of the read loop on a parsed row: unescape it, name it, and write it
        as a one-entry batch; the medium is then as after the first `done + 1` writes. */
    method WriteNext(i: nat, json: Value, naming: Naming, ghost rows: seq<Row>, ghost es: seq<Entry>, ghost done: nat,
                     ghost t: Output.Target, ghost m0: Medium, store: FileStore, out: Stdout, serde: Serde)
      returns (r: Outcome)
      requires es == RowEntries(rows, naming, unescapeFields, serde) && done < |rows| && rows[done] == Row(i, json)
      requires t == Output.TargetOf(output) && Fed(MediumOf(store, out), store.denied, t, m0, es, done, serde)
      modifies store, out
      ensures MediumOf(store, out) == Feed(t, store.denied, m0, es[..done + 1], serde).0
      ensures r.Pass? <==> Feed(t, store.denied, m0, es[..done + 1], serde).1
      ensures r.Pass? ==> Fed(MediumOf(store, out), store.denied, t, m0, es, done + 1, serde)
      ensures t == Output.TargetOf(output)
    {
      var u := UnescapeFields(json, serde);
      var e := (NameEntry(i, u, naming.namePtrs, naming.typePtr), u);
      RowEntriesAt(rows, naming, unescapeFields, serde, done);
      r := WriteRow(e, store, out, serde);
      FeedNext(t, store.denied, m0, es, done, serde);
      match output {
        case StreamSink(s) => assert s.pretty == old(s.pretty);
        case DirectorySink(d) => assert d.pretty == old(d.pretty) && d.path == old(d.path);
      }
    }

    /** One turn of reading, which leaves the sink's settings alone. */
    method ReadRow(ghost cs: seq<Chunk>, i: nat, serde: Serde) returns (step: Step)
      requires input.Valid() && EmptyIsEof(serde) && i <= |cs| && input.pending == cs[i..]
      modifies input
      ensures input.Valid()
      ensures input.poisoned ==> step == Stop && input.pending == old(input.pending)
      ensures !input.poisoned && step.Stop? ==> Rows(cs, i, serde) == [] && input.pending == cs[StopAt(cs, i, serde)..]
      ensures step.Skip? ==> i < |cs| && input.pending == cs[i + 1..] &&
                             Rows(cs, i, serde) == Rows(cs, i + 1, serde) && StopAt(cs, i, serde) == StopAt(cs, i + 1, serde)
      ensures step.Got? ==> i < |cs| && input.pending == cs[i + 1..] &&
                            Rows(cs, i, serde) == [Row(i, step.json)] + Rows(cs, i + 1, serde) &&
                            StopAt(cs, i, serde) == StopAt(cs, i + 1, serde)
      ensures Output.TargetOf(output) == old(Output.TargetOf(output))
    {
      step := NextRow(input, cs, i, serde);
      match output {
        case StreamSink(s) => assert s.pretty == old(s.pretty);
        case DirectorySink(d) => assert d.pretty == old(d.pretty) && d.path == old(d.path);
      }
    }

    /** `write_entries` of the one-entry batch a row is written as, through the sink. */
    method WriteRow(e: Entry, store: FileStore, out: Stdout, serde: Serde) returns (r: Outcome)
      modifies store, out
      ensures var next := RowWrite(old(Output.TargetOf(output)), store.denied, old(MediumOf(store, out)), e, serde);
              MediumOf(store, out) == next.0 && (r.Pass? <==> next.1)
    {
      r := Output.WriteEntries(output, store, out, [e], serde);
      assert [e][..0] == [] && [e][..1] == [e] && [e][1..] == [];
    }
  }
}
