/** The older bundler and unbundler, written against an `Input` and an `Output`
    enum of their own: bundling appends the parsed content of every `.json` file of a
    directory, and unbundling writes each parsed line as `<name>.json` in a directory
    or prints it on standard output. */
module NdjsonLegacy {
  import opened Wrappers
  import opened Json
  import opened Paths
  import opened Io
  import opened Pointer
  import opened InputStd
  import opened NdjsonLines
  import opened Seqs
  import InputFile
  import OutputDir
  import ProcessorNdjson

  /** Where `bundle` and `unbundle` read from. */
  datatype Input = DirectoryInput(dir: Path) | FileInput(path: Path) | StdinInput

  /** Where they write to. */
  datatype Output = StdoutOutput(pretty: bool) | DirectoryOutput(path: Path, pretty: bool) | FileOutput(path: Path, pretty: bool)

  const TO_DIRECTORY_ERROR: string := "Cannot bundle to a directory"
  const FROM_FILE_ERROR: string := "Cannot bundle from a single file, multiple objects in a file is invalid JSON!"
  const FROM_STDIN_ERROR: string := "Why bundle from stdin? Just redirect output to a file!"
  const TO_FILE_ERROR: string := "Cannot unbundle to a file: "

  /** The error of a listing item that came back as an error. */
  const ITEM_ERROR: string := "Cannot read directory entry"

  /** The error of an append the sink refuses. */
  const APPEND_ERROR: string := "Cannot append to output"

  /** The panic of a `println!` that cannot write. */
  const PRINT_PANIC: string := "failed printing to stdout"

  /** A path as `{:?}` shows it: between double quotes. */
  function Quoted(p: Path): string
  {
    "\"" + p + "\""
  }

  // ---------------------------------------------------------------------
  // bundle

  /** The sink behind `Output::append`, recorded as the values appended so far, in
      order. An append is refused once `room` is used up. */
  class AppendLog {
    var values: seq<Value>
    var room: nat

    constructor (room: nat)
      ensures values == [] && this.room == room
    {
      values := [];
      this.room := room;
    }

    method Append(v: Value) returns (r: Outcome)
      modifies this
      ensures r.Pass? <==> old(room) > 0
      ensures r.Fail? ==> r == Fail(Failure(APPEND_ERROR))
      ensures values == if r.Pass? then old(values) + [v] else old(values)
      ensures room == if r.Pass? then old(room) - 1 else old(room)
    {
      if room == 0 {
        r := Fail(Failure(APPEND_ERROR));
      } else {
        values := values + [v];
        room := room - 1;
        r := Pass;
      }
    }
  }

  /** Whether a path names a `.json` file: the extension of its last component is "json". */
  predicate IsJsonFile(p: Path)
  {
    match FileName(p)
    case None => false
    case Some(n) => Extension(n) == Some("json")
  }

  /** One listing item's contribution: an item that came back as an error ends the run,
      a file without the `json` extension contributes nothing, and a `.json` file
      contributes its parsed text or ends the run when it cannot be read or parsed. */
  function ItemValue(disk: Disk, dir: Path, it: DirItem, serde: Serde): Result<Option<Value>>
  {
    match it
    case Unlisted => Err(Failure(ITEM_ERROR))
    case Listed(name) =>
      var path := JoinPath(dir, name);
      if !IsJsonFile(path) then Ok(None)
      else match InputFile.ReadObject(disk, path, serde)
        case Err(e) => Err(e)
        case Ok(v) => Ok(Some(v))
  }

  /** What a run over some listing items yields: the values to append, in order, and
      the error that ended it, if one did. */
  datatype Plan = Plan(values: seq<Value>, stop: Option<Error>)

  function Planned(disk: Disk, dir: Path, items: seq<DirItem>, serde: Serde): Plan
  {
    if items == [] then Plan([], None)
    else
      var p := Planned(disk, dir, items[..|items| - 1], serde);
      if p.stop.Some? then p
      else match ItemValue(disk, dir, items[|items| - 1], serde)
        case Err(e) => Plan(p.values, Some(e))
        case Ok(None) => p
        case Ok(Some(v)) => Plan(p.values + [v], None)
  }

  /** The `.json` files of a listing, in order. */
  function JsonPaths(dir: Path, items: seq<DirItem>): seq<Path>
  {
    if items == [] then []
    else
      var it := items[|items| - 1];
      JsonPaths(dir, items[..|items| - 1]) +
      (if it.Listed? && IsJsonFile(JoinPath(dir, it.name)) then [JoinPath(dir, it.name)] else [])
  }

  /** What a run that has produced `p` leaves, for an output that accepts `room` more
      appends: the values appended, and the outcome. The first refused append ends the
      run with its error. */
  function Settled(p: Plan, room: nat): (run: (seq<Value>, Outcome))
    ensures |run.0| <= room && |run.0| <= |p.values| && run.0 == p.values[..|run.0|]
    ensures run.1.Pass? <==> |p.values| <= room && p.stop.None?
  {
    if |p.values| > room then (p.values[..room], Fail(Failure(APPEND_ERROR)))
    else (p.values, if p.stop.Some? then Fail(p.stop.value) else Pass)
  }

  /** What `read_directory_to_output` appends and returns: a listing error, or the run
      over the listing. */
  function DirectoryRun(disk: Disk, dir: Path, room: nat, serde: Serde): (seq<Value>, Outcome)
  {
    match ReadDir(disk, dir)
    case Err(e) => ([], Fail(e))
    case Ok(items) => Settled(Planned(disk, dir, items, serde), room)
  }

  /** `bundle`: a directory output, then a file or standard-input source, is refused
      before anything is read; a directory source is read to the output. */
  method Bundle(input: Input, output: Output, disk: Disk, log: AppendLog, serde: Serde) returns (r: Outcome)
    modifies log
    ensures output.DirectoryOutput? ==> r == Fail(Failure(TO_DIRECTORY_ERROR))
    ensures !output.DirectoryOutput? && input.FileInput? ==> r == Fail(Failure(FROM_FILE_ERROR))
    ensures !output.DirectoryOutput? && input.StdinInput? ==> r == Fail(Failure(FROM_STDIN_ERROR))
    ensures output.DirectoryOutput? || !input.DirectoryInput? ==>
              log.values == old(log.values) && log.room == old(log.room)
    ensures !output.DirectoryOutput? && input.DirectoryInput? ==>
              var run := DirectoryRun(disk, input.dir, old(log.room), serde);
              log.values == old(log.values) + run.0 && log.room == old(log.room) - |run.0| && r == run.1
  {
    if output.DirectoryOutput? {
      return Fail(Failure(TO_DIRECTORY_ERROR));
    }
    match input {
      case DirectoryInput(dir) => r := ReadDirectoryToOutput(dir, disk, log, serde);
      case FileInput(_) => r := Fail(Failure(FROM_FILE_ERROR));
      case StdinInput => r := Fail(Failure(FROM_STDIN_ERROR));
    }
  }

  /** `read_directory_to_output`: list `dir` and append the parsed text of each `.json`
      file, in listing order; the first error of any kind ends the run with it. */
  method ReadDirectoryToOutput(dir: Path, disk: Disk, log: AppendLog, serde: Serde) returns (r: Outcome)
    modifies log
    ensures var run := DirectoryRun(disk, dir, old(log.room), serde);
            log.values == old(log.values) + run.0 && log.room == old(log.room) - |run.0| && r == run.1
  {
    var listing := ReadDir(disk, dir);
    if listing.Err? {
      return Fail(listing.error);
    }
    r := AppendItems(dir, listing.value, disk, log, serde);
  }

  /** The loop of `read_directory_to_output` over the listing's items. */
  method AppendItems(dir: Path, items: seq<DirItem>, disk: Disk, log: AppendLog, serde: Serde) returns (r: Outcome)
    modifies log
    ensures var run := Settled(Planned(disk, dir, items, serde), old(log.room));
            log.values == old(log.values) + run.0 && log.room == old(log.room) - |run.0| && r == run.1
  {
    for k := 0 to |items|
      invariant Planned(disk, dir, items[..k], serde).stop.None?
      invariant |Planned(disk, dir, items[..k], serde).values| <= old(log.room)
      invariant log.values == old(log.values) + Planned(disk, dir, items[..k], serde).values
      invariant log.room == old(log.room) - |Planned(disk, dir, items[..k], serde).values|
    {
      ghost var before := Planned(disk, dir, items[..k], serde);
      PlannedStep(disk, dir, items, k, serde);
      var found := ItemValue(disk, dir, items[k], serde);
      match found {
        case Err(e) =>
          PlannedPrefix(disk, dir, items, k + 1, serde);
          return Fail(e);
        case Ok(None) =>
          assert Planned(disk, dir, items[..k + 1], serde) == before;
        case Ok(Some(v)) =>
          assert Planned(disk, dir, items[..k + 1], serde) == Plan(before.values + [v], None);
          r := log.Append(v);
          if r.Fail? {
            Overflow(disk, dir, items, k, v, serde);
            return;
          }
      }
    }
    assert items[..|items|] == items;
    r := Pass;
  }

  /** The run over one more item, from the run before it. */
  lemma PlannedStep(disk: Disk, dir: Path, items: seq<DirItem>, k: nat, serde: Serde)
    requires k < |items|
    ensures var before := Planned(disk, dir, items[..k], serde);
            Planned(disk, dir, items[..k + 1], serde) ==
            if before.stop.Some? then before
            else match ItemValue(disk, dir, items[k], serde)
              case Err(e) => Plan(before.values, Some(e))
              case Ok(None) => before
              case Ok(Some(v)) => Plan(before.values + [v], None)
  {
    assert items[..k + 1][..k] == items[..k];
    assert items[..k + 1][k] == items[k];
  }

  /** When item `k` yields one more value than the values before it, the whole run
      yields more values than those, beginning with them. */
  lemma Overflow(disk: Disk, dir: Path, items: seq<DirItem>, k: nat, v: Value, serde: Serde)
    requires k < |items| && Planned(disk, dir, items[..k], serde).stop.None?
    requires ItemValue(disk, dir, items[k], serde) == Ok(Some(v))
    ensures var before := Planned(disk, dir, items[..k], serde).values;
            var all := Planned(disk, dir, items, serde).values;
            |before| < |all| && all[..|before|] == before
  {
    var before := Planned(disk, dir, items[..k], serde).values;
    PlannedStep(disk, dir, items, k, serde);
    var after := before + [v];
    assert Planned(disk, dir, items[..k + 1], serde).values == after;
    PlannedPrefix(disk, dir, items, k + 1, serde);
    var all := Planned(disk, dir, items, serde).values;
    assert all[..|after|] == after;
    assert all[..|before|] == after[..|before|] == before;
  }

  /** A run over a prefix of the listing is the start of the run over all of it, and a
      run that has stopped stays stopped. */
  lemma {:induction false} PlannedPrefix(disk: Disk, dir: Path, items: seq<DirItem>, k: nat, serde: Serde)
    requires k <= |items|
    ensures var head := Planned(disk, dir, items[..k], serde).values;
            var all := Planned(disk, dir, items, serde).values;
            |head| <= |all| && all[..|head|] == head
    ensures Planned(disk, dir, items[..k], serde).stop.Some? ==>
              Planned(disk, dir, items, serde) == Planned(disk, dir, items[..k], serde)
    decreases |items| - k
  {
    if k == |items| {
      assert items[..k] == items;
    } else {
      PlannedPrefix(disk, dir, items, k + 1, serde);
      assert items[..k + 1][..k] == items[..k];
      var head := Planned(disk, dir, items[..k], serde).values;
      var next := Planned(disk, dir, items[..k + 1], serde).values;
      var all := Planned(disk, dir, items, serde).values;
      assert |head| <= |next| && next[..|head|] == head;
      assert all[..|head|] == all[..|next|][..|head|];
    }
  }

  /** A run ends with no error exactly when every item was listed and every `.json`
      file among them could be read and parsed. */
  lemma PlannedClean(disk: Disk, dir: Path, items: seq<DirItem>, serde: Serde)
    ensures Planned(disk, dir, items, serde).stop.None? <==>
            forall j :: 0 <= j < |items| ==> ItemValue(disk, dir, items[j], serde).Ok?
  {
    if Planned(disk, dir, items, serde).stop.None? {
      forall j | 0 <= j < |items| ensures ItemValue(disk, dir, items[j], serde).Ok? {
        PlannedItemOk(disk, dir, items, j, serde);
      }
    } else {
      PlannedFailed(disk, dir, items, serde);
    }
  }

  /** In a run that ends with no error, every item was listed and, when it is a
      `.json` file, read and parsed. */
  lemma PlannedItemOk(disk: Disk, dir: Path, items: seq<DirItem>, j: nat, serde: Serde)
    requires j < |items| && Planned(disk, dir, items, serde).stop.None?
    ensures ItemValue(disk, dir, items[j], serde).Ok?
  {
    PlannedPrefix(disk, dir, items, j + 1, serde);
    PlannedStep(disk, dir, items, j, serde);
  }

  lemma {:induction false} PlannedFailed(disk: Disk, dir: Path, items: seq<DirItem>, serde: Serde)
    requires Planned(disk, dir, items, serde).stop.Some?
    ensures exists j :: 0 <= j < |items| && ItemValue(disk, dir, items[j], serde).Err?
  {
    var init := items[..|items| - 1];
    if Planned(disk, dir, init, serde).stop.Some? {
      PlannedFailed(disk, dir, init, serde);
      var j :| 0 <= j < |init| && ItemValue(disk, dir, init[j], serde).Err?;
      assert items[j] == init[j];
    } else {
      assert ItemValue(disk, dir, items[|items| - 1], serde).Err?;
    }
  }

  /** A run that ends with no error appends the parsed text of each `.json` file of the
      listing, in order, and nothing else: files without the extension are skipped. */
  lemma {:induction false} PlannedComplete(disk: Disk, dir: Path, items: seq<DirItem>, serde: Serde)
    requires Planned(disk, dir, items, serde).stop.None?
    ensures var vs := Planned(disk, dir, items, serde).values;
            var ps := JsonPaths(dir, items);
            |vs| == |ps| && forall k :: 0 <= k < |ps| ==> InputFile.ReadObject(disk, ps[k], serde) == Ok(vs[k])
  {
    if items != [] {
      var init := items[..|items| - 1];
      PlannedComplete(disk, dir, init, serde);
    }
  }

  // ---------------------------------------------------------------------
  // unbundle

  /** The name a row is written under: the string at the single name path, or the
      default `object-NNNNNN` when there is no name path, when it does not resolve, or
      when the value there is not a string. */
  function RowName(i: nat, json: Value, name: Option<string>): string
  {
    match name
    case None => ProcessorNdjson.DefaultName(i)
    case Some(n) =>
      match Get(json, ProcessorNdjson.DotsToSlashes(n))
      case Some(String(s)) => s
      case _ => ProcessorNdjson.DefaultName(i)
  }

  /** Each row with the name it is written under. */
  function Named(rows: seq<Row>, name: Option<string>): (es: seq<Entry>)
    ensures |es| == |rows|
  {
    if rows == [] then [] else [(RowName(rows[0].line, rows[0].value, name), rows[0].value)] + Named(rows[1..], name)
  }

  /** What `println!` emits for the rows, in order: each value, then a line break. */
  function Printed(es: seq<Entry>, pretty: bool, serde: Serde): string
  {
    if es == [] then [] else Printed(es[..|es| - 1], pretty, serde) + Serialize(serde, pretty, es[|es| - 1].1) + "\n"
  }

  /** Printing one more row adds that row's value and a line break. */
  lemma PrintedSnoc(es: seq<Entry>, e: Entry, pretty: bool, serde: Serde)
    ensures Printed(es + [e], pretty, serde) == Printed(es, pretty, serde) + Serialize(serde, pretty, e.1) + "\n"
  {
    assert (es + [e])[..|es|] == es;
  }

  /** The state the line loop leaves: the file contents, standard output's text and
      room, the unread input, and the outcome. */
  datatype After = After(files: map<Path, string>, text: string, room: nat, pending: seq<Chunk>, outcome: Outcome)

  /** What the line loop does, from the unread chunks `cs`: into a directory, every
      row's file is written and the loop runs to its end; on standard output, the rows
      that fit are printed and the first print that fails panics, leaving the input just
      past that row's line. A poisoned reader reads nothing. */
  function LinesAfter(cs: seq<Chunk>, poisoned: bool, path: Option<Path>, pretty: bool, name: Option<string>,
                      denied: set<Path>, files: map<Path, string>, text: string, room: nat, serde: Serde): After
  {
    var rows := if poisoned then [] else Rows(cs, 0, serde);
    var es := Named(rows, name);
    var ended := if poisoned then cs else cs[StopAt(cs, 0, serde)..];
    match path
    case Some(dir) => After(OutputDir.WriteFiles(files, dir, es, pretty, serde, denied), text, room, ended, Pass)
    case None =>
      if |es| <= room then After(files, text + Printed(es, pretty, serde), room - |es|, ended, Pass)
      else After(files, text + Printed(es[..room], pretty, serde), 0, cs[rows[room].line + 1..], Fail(Panic(PRINT_PANIC)))
  }

  /** `unbundle`: a file output is refused; a directory output is created first when
      it does not exist; then the line loop writes every parsed row. */
  method Unbundle(input: InputStdin, output: Output, name: Option<string>, store: FileStore, out: Stdout, serde: Serde)
    returns (r: Outcome)
    requires input.Valid() && EmptyIsEof(serde)
    modifies input, store, out
    ensures input.Valid()
    ensures output.FileOutput? ==>
              r == Fail(Failure(TO_FILE_ERROR + Quoted(output.path))) &&
              input.pending == old(input.pending) && MediumOf(store, out) == old(MediumOf(store, out))
    ensures output.DirectoryOutput? && !old(store.Exists(output.path)) && output.path in store.denied ==>
              r.Fail? && input.pending == old(input.pending) && MediumOf(store, out) == old(MediumOf(store, out))
    ensures output.DirectoryOutput? && !(!old(store.Exists(output.path)) && output.path in store.denied) ==>
              store.dirs == (if old(store.Exists(output.path)) then old(store.dirs) else old(store.dirs) + {output.path}) &&
              After(store.files, out.text, out.room, input.pending, r) ==
              LinesAfter(old(input.pending), input.poisoned, Some(output.path), output.pretty, name, store.denied,
                         old(store.files), old(out.text), old(out.room), serde)
    ensures output.StdoutOutput? ==>
              store.dirs == old(store.dirs) &&
              After(store.files, out.text, out.room, input.pending, r) ==
              LinesAfter(old(input.pending), input.poisoned, None, output.pretty, name, store.denied,
                         old(store.files), old(out.text), old(out.room), serde)
  {
    var path: Option<Path>;
    match output {
      case StdoutOutput(_) => path := None;
      case DirectoryOutput(p, _) => path := Some(p);
      case FileOutput(p, _) => return Fail(Failure(TO_FILE_ERROR + Quoted(p)));
    }
    if path.Some? && !store.Exists(path.value) {
      r := store.CreateDirAll(path.value);
      if r.Fail? {
        return;
      }
    }
    r := WriteLines(input, path, output.pretty, name, store, out, serde);
  }

  /** The medium after one row's `write_json`, and whether the loop goes on: in a
      directory the row's file is written, a failure being ignored; on standard output
      the value and a line break are printed, and a print without room panics. */
  function EmitOne(path: Option<Path>, pretty: bool, denied: set<Path>, m: Medium, e: Entry, serde: Serde): (Medium, bool)
  {
    match path
    case Some(dir) => (m.(files := OutputDir.WriteOne(m.files, dir, e, pretty, serde, denied)), true)
    case None =>
      if m.room > 0 then (m.(text := m.text + Serialize(serde, pretty, e.1) + "\n", room := m.room - 1), true)
      else (m, false)
  }

  /** The medium after `write_json` on each of the first `n` rows in turn, up to the
      first panic, and whether there was none. */
  function Emit(path: Option<Path>, pretty: bool, denied: set<Path>, m: Medium, es: seq<Entry>, n: nat, serde: Serde): (Medium, bool)
    requires n <= |es|
  {
    if n == 0 then (m, true)
    else
      var prev := Emit(path, pretty, denied, m, es, n - 1, serde);
      if !prev.1 then prev else EmitOne(path, pretty, denied, prev.0, es[n - 1], serde)
  }

  /** The line loop of `unbundle`, with `write_json` writing each parsed row. */
  method WriteLines(input: InputStdin, path: Option<Path>, pretty: bool, name: Option<string>,
                    store: FileStore, out: Stdout, serde: Serde) returns (r: Outcome)
    requires input.Valid() && EmptyIsEof(serde)
    modifies input, store`files, out
    ensures input.Valid()
    ensures After(store.files, out.text, out.room, input.pending, r) ==
            LinesAfter(old(input.pending), input.poisoned, path, pretty, name, store.denied,
                       old(store.files), old(out.text), old(out.room), serde)
  {
    ghost var cs := input.pending;
    ghost var rows := Rows(cs, 0, serde);
    ghost var es := Named(rows, name);
    ghost var m0 := MediumOf(store, out);
    ghost var read, done;
    r, read, done := LineLoop(input, path, pretty, name, cs, rows, es, m0, store, out, serde);
    LinesSettled(cs, input.poisoned, input.pending, rows, es, path, pretty, name, store.denied, m0, MediumOf(store, out),
                 r, read, done, serde);
  }

  /** Where the line loop stops, its effect is the one `LinesAfter` describes. */
  lemma LinesSettled(cs: seq<Chunk>, poisoned: bool, pending: seq<Chunk>, rows: seq<Row>, es: seq<Entry>,
                     path: Option<Path>, pretty: bool, name: Option<string>, denied: set<Path>, m0: Medium, m: Medium,
                     r: Outcome, read: nat, done: nat, serde: Serde)
    requires rows == Rows(cs, 0, serde) && es == Named(rows, name)
    requires r.Pass? ==> Reading(poisoned, pending, cs, rows, serde, read, done, false) &&
                         Written(m, denied, path, pretty, es, m0, serde, done)
    requires r.Fail? ==> r == Fail(Panic(PRINT_PANIC)) &&
                         Panicked(m, denied, poisoned, pending, cs, rows, path, pretty, es, m0, serde, done)
    ensures After(m.files, m.text, m.room, pending, r) ==
            LinesAfter(cs, poisoned, path, pretty, name, denied, m0.files, m0.text, m0.room, serde)
  {
    if r.Fail? {
      EmitStreamPanics(pretty, denied, m0, es, done, serde);
    } else if poisoned {
      assert Named([], name) == [];
      assert OutputDir.WriteFiles(m0.files, if path.Some? then path.value else "", [], pretty, serde, denied) == m0.files;
      assert m0.text + Printed([], pretty, serde) == m0.text;
    } else {
      assert es[..|es|] == es;
      if path.Some? {
        EmitDirectory(path.value, pretty, denied, m0, es, |es|, serde);
      } else {
        EmitStream(pretty, denied, m0, es, |es|, serde);
      }
    }
  }

  /** The line loop, counting in `read` the lines read and in `done` the rows written. */
  method LineLoop(input: InputStdin, path: Option<Path>, pretty: bool, name: Option<string>, ghost cs: seq<Chunk>,
                  ghost rows: seq<Row>, ghost es: seq<Entry>, ghost m0: Medium, store: FileStore, out: Stdout, serde: Serde)
    returns (r: Outcome, ghost read: nat, ghost done: nat)
    requires input.Valid() && EmptyIsEof(serde) && input.pending == cs
    requires rows == Rows(cs, 0, serde) && es == Named(rows, name) && m0 == MediumOf(store, out)
    modifies input, store`files, out
    ensures input.Valid()
    ensures r.Pass? ==> Reading(input.poisoned, input.pending, cs, rows, serde, read, done, false) &&
                        Written(MediumOf(store, out), store.denied, path, pretty, es, m0, serde, done)
    ensures r.Fail? ==> r == Fail(Panic(PRINT_PANIC)) &&
                        Panicked(MediumOf(store, out), store.denied, input.poisoned, input.pending, cs, rows,
                                 path, pretty, es, m0, serde, done)
  {
    read, done := 0, 0;
    var i: nat := 0;
    var going := true;
    assert cs[0..] == cs;
    while going
      invariant input.Valid() && Reading(input.poisoned, input.pending, cs, rows, serde, i, done, going)
      invariant Written(MediumOf(store, out), store.denied, path, pretty, es, m0, serde, done)
      decreases if going then |cs| - i + 1 else 0
    {
      i, done, going, r := Turn(input, path, pretty, name, cs, rows, es, m0, store, out, serde, i, done);
      if r.Fail? {
        return;
      }
    }
    read, r := i, Pass;
  }

  /** What the line loop has written: the medium is as after the first `done` rows'
      writes, none of which panicked. */
  ghost predicate Written(m: Medium, denied: set<Path>, path: Option<Path>, pretty: bool, es: seq<Entry>, m0: Medium,
                          serde: Serde, done: nat)
  {
    done <= |es| && Emit(path, pretty, denied, m0, es, done, serde).1 &&
    m == Emit(path, pretty, denied, m0, es, done, serde).0
  }

  /** How the line loop ends on a panic: printing row `done`, after the line it came
      from was read, the rows before it all written. */
  ghost predicate Panicked(m: Medium, denied: set<Path>, poisoned: bool, pending: seq<Chunk>, cs: seq<Chunk>,
                           rows: seq<Row>, path: Option<Path>, pretty: bool, es: seq<Entry>, m0: Medium, serde: Serde,
                           done: nat)
  {
    !poisoned && path.None? && done < |es| && done < |rows| && rows[done].line < |cs| &&
    pending == cs[rows[done].line + 1..] &&
    Emit(path, pretty, denied, m0, es, done, serde).1 &&
    m == Emit(path, pretty, denied, m0, es, done + 1, serde).0 && !Emit(path, pretty, denied, m0, es, done + 1, serde).1
  }

  /** One turn of the line loop: read a line, and write it when it parses. Only a
      panicking print ends the turn with a failure. */
  method Turn(input: InputStdin, path: Option<Path>, pretty: bool, name: Option<string>, ghost cs: seq<Chunk>,
              ghost rows: seq<Row>, ghost es: seq<Entry>, ghost m0: Medium, store: FileStore, out: Stdout, serde: Serde,
              i: nat, ghost done: nat)
    returns (i': nat, ghost done': nat, going: bool, r: Outcome)
    requires EmptyIsEof(serde) && es == Named(rows, name)
    requires input.Valid() && Reading(input.poisoned, input.pending, cs, rows, serde, i, done, true)
    requires Written(MediumOf(store, out), store.denied, path, pretty, es, m0, serde, done)
    modifies input, store`files, out
    ensures input.Valid()
    ensures r.Pass? ==> Reading(input.poisoned, input.pending, cs, rows, serde, i', done', going) &&
                        Written(MediumOf(store, out), store.denied, path, pretty, es, m0, serde, done') && (going ==> i < i')
    ensures r.Fail? ==> r == Fail(Panic(PRINT_PANIC)) && done' == done &&
                        Panicked(MediumOf(store, out), store.denied, input.poisoned, input.pending, cs, rows,
                                 path, pretty, es, m0, serde, done)
  {
    ghost var before, m := input.pending, MediumOf(store, out);
    assert i <= |cs| && before == cs[i..];
    var step := NextRow(input, cs, i, serde);
    assert MediumOf(store, out) == m;
    ReadingNext(input.poisoned, before, input.pending, cs, rows, serde, i, done, step);
    i', done', going, r := i, done, true, Pass;
    match step {
      case Stop =>
        going := false;
      case Skip =>
        i' := i + 1;
      case Got(json) =>
        r := WriteNextRow(i, json, path, pretty, name, rows, es, done, m0, store, out, serde);
        if r.Pass? {
          i', done' := i + 1, done + 1;
        }
    }
  }

  /** One parsed row through `write_json`, after the rows before it. */
  method WriteNextRow(i: nat, json: Value, path: Option<Path>, pretty: bool, name: Option<string>,
                      ghost rows: seq<Row>, ghost es: seq<Entry>, ghost done: nat, ghost m0: Medium,
                      store: FileStore, out: Stdout, serde: Serde) returns (r: Outcome)
    requires es == Named(rows, name) && done < |rows| && rows[done] == Row(i, json)
    requires Written(MediumOf(store, out), store.denied, path, pretty, es, m0, serde, done)
    modifies store`files, out
    ensures r.Pass? ==> Written(MediumOf(store, out), store.denied, path, pretty, es, m0, serde, done + 1)
    ensures r.Fail? ==> path.None? && r == Fail(Panic(PRINT_PANIC)) &&
                        MediumOf(store, out) == Emit(path, pretty, store.denied, m0, es, done + 1, serde).0 &&
                        !Emit(path, pretty, store.denied, m0, es, done + 1, serde).1
  {
    NamedAt(rows, name, done);
    r := WriteJson(i, json, path, pretty, name, store, out, serde);
  }

  /** After a panic, the rest of the rows change nothing. */
  lemma {:induction false} EmitStops(path: Option<Path>, pretty: bool, denied: set<Path>, m: Medium, es: seq<Entry>,
                                     k: nat, serde: Serde)
    requires k <= |es| && !Emit(path, pretty, denied, m, es, k, serde).1
    ensures Emit(path, pretty, denied, m, es, |es|, serde) == Emit(path, pretty, denied, m, es, k, serde)
    decreases |es| - k
  {
    if k < |es| {
      EmitStops(path, pretty, denied, m, es, k + 1, serde);
    }
  }

  /** Into a directory, the files of the first `n` rows are written, in order, and
      nothing panics. */
  lemma {:induction false} EmitDirectory(dir: Path, pretty: bool, denied: set<Path>, m: Medium, es: seq<Entry>, n: nat,
                                         serde: Serde)
    requires n <= |es|
    ensures var e := Emit(Some(dir), pretty, denied, m, es, n, serde);
            e.1 && e.0 == m.(files := OutputDir.WriteFiles(m.files, dir, es[..n], pretty, serde, denied))
  {
    if n > 0 {
      EmitDirectory(dir, pretty, denied, m, es, n - 1, serde);
      var prev := Emit(Some(dir), pretty, denied, m, es, n - 1, serde).0;
      var files := OutputDir.WriteOne(prev.files, dir, es[n - 1], pretty, serde, denied);
      assert Emit(Some(dir), pretty, denied, m, es, n, serde) == (prev.(files := files), true);
      PrefixSnoc(es, n);
      OutputDir.WriteFilesSnoc(m.files, dir, es[..n - 1], es[n - 1], pretty, serde, denied);
    }
  }

  /** On standard output, those of the first `n` rows that fit are printed in order,
      and the first that does not fit panics. */
  lemma {:induction false} EmitStream(pretty: bool, denied: set<Path>, m: Medium, es: seq<Entry>, n: nat, serde: Serde)
    requires n <= |es|
    ensures var k := if n <= m.room then n else m.room;
            Emit(None, pretty, denied, m, es, n, serde) ==
            (m.(text := m.text + Printed(es[..k], pretty, serde), room := m.room - k), n <= m.room)
  {
    if n == 0 {
      assert es[..0] == [] && m.text + [] == m.text;
    } else {
      EmitStream(pretty, denied, m, es, n - 1, serde);
      var prev := Emit(None, pretty, denied, m, es, n - 1, serde);
      assert Emit(None, pretty, denied, m, es, n, serde) ==
             if !prev.1 then prev else EmitOne(None, pretty, denied, prev.0, es[n - 1], serde);
      if n - 1 < m.room {
        var before := m.text + Printed(es[..n - 1], pretty, serde);
        assert prev == (m.(text := before, room := m.room - (n - 1)), true);
        PrintedSnoc(es[..n - 1], es[n - 1], pretty, serde);
        PrefixSnoc(es, n);
        assert before + Serialize(serde, pretty, es[n - 1].1) + "\n" == m.text + Printed(es[..n], pretty, serde);
      }
    }
  }

  /** On standard output, the row whose print panics is the first past the room
      there was, and the rows after it change nothing. */
  lemma EmitStreamPanics(pretty: bool, denied: set<Path>, m: Medium, es: seq<Entry>, k: nat, serde: Serde)
    requires k < |es| && Emit(None, pretty, denied, m, es, k, serde).1 && !Emit(None, pretty, denied, m, es, k + 1, serde).1
    ensures k == m.room
    ensures Emit(None, pretty, denied, m, es, |es|, serde) == Emit(None, pretty, denied, m, es, k + 1, serde)
    ensures Emit(None, pretty, denied, m, es, |es|, serde).0 == m.(text := m.text + Printed(es[..k], pretty, serde), room := 0)
  {
    EmitStream(pretty, denied, m, es, k, serde);
    EmitStream(pretty, denied, m, es, k + 1, serde);
    EmitStops(None, pretty, denied, m, es, k + 1, serde);
  }

  /** `write_json`: into a directory, the value goes to `<path>/<name>.json` and a
      failed write is ignored; on standard output it is printed with a line break, and a
      failed print panics. */
  method WriteJson(i: nat, json: Value, path: Option<Path>, pretty: bool, name: Option<string>,
                   store: FileStore, out: Stdout, serde: Serde) returns (r: Outcome)
    modifies store`files, out
    ensures path.Some? ==>
              r == Pass && out.text == old(out.text) && out.room == old(out.room) &&
              store.files == OutputDir.WriteOne(old(store.files), path.value, (RowName(i, json, name), json), pretty,
                                                serde, store.denied)
    ensures path.None? ==>
              store.files == old(store.files) && (r.Pass? <==> old(out.room) > 0) &&
              (r.Fail? ==> r == Fail(Panic(PRINT_PANIC))) &&
              out.text == (if r.Pass? then old(out.text) + Serialize(serde, pretty, json) + "\n" else old(out.text)) &&
              out.room == (if r.Pass? then old(out.room) - 1 else old(out.room))
  {
    var newName := RowName(i, json, name);
    if path.Some? {
      var filename := JoinPath(path.value, newName + ".json");
      var ignored := store.Put(filename, Serialize(serde, pretty, json));
      r := Pass;
    } else {
      var printed := out.Write(Serialize(serde, pretty, json) + "\n");
      r := if printed.Pass? then Pass else Fail(Panic(PRINT_PANIC));
    }
  }

  /** The `k`-th named row is the `k`-th row under its name. */
  lemma {:induction false} NamedAt(rows: seq<Row>, name: Option<string>, k: nat)
    requires k < |rows|
    ensures Named(rows, name)[k] == (RowName(rows[k].line, rows[k].value, name), rows[k].value)
    decreases k
  {
    if k > 0 {
      NamedAt(rows[1..], name, k - 1);
      assert rows[1..][k - 1] == rows[k];
    }
  }

  /** The name is the string at the single path when there is one; this agrees with
      the newer unbundler's naming from that one path. */
  lemma RowNameFromString(i: nat, json: Value, n: string, s: string)
    requires Get(json, ProcessorNdjson.DotsToSlashes(n)) == Some(String(s))
    ensures RowName(i, json, Some(n)) == s
    ensures ProcessorNdjson.NameEntry(i, json, [ProcessorNdjson.DotsToSlashes(n)], None) == s
  {
    ProcessorNdjson.NameFromFirstResolving(i, json, [ProcessorNdjson.DotsToSlashes(n)], 0);
  }

  /** A path that resolves to something other than a string gives the default name
      here, where the newer unbundler gives the empty name. */
  lemma RowNameNonString(i: nat, json: Value, n: string)
    requires Get(json, ProcessorNdjson.DotsToSlashes(n)).Some? && !Get(json, ProcessorNdjson.DotsToSlashes(n)).value.String?
    ensures RowName(i, json, Some(n)) == ProcessorNdjson.DefaultName(i)
    ensures ProcessorNdjson.NameEntry(i, json, [ProcessorNdjson.DotsToSlashes(n)], None) == ""
  {
    ProcessorNdjson.NameFromFirstResolving(i, json, [ProcessorNdjson.DotsToSlashes(n)], 0);
  }

  /** Rows come in strictly increasing line order. */
  lemma {:induction false} RowsIncreasing(cs: seq<Chunk>, serde: Serde, a: nat, b: nat)
    requires a < b < |Rows(cs, 0, serde)|
    ensures Rows(cs, 0, serde)[a].line < Rows(cs, 0, serde)[b].line
    decreases b - a
  {
    RowsSound(cs, 0, serde, a);
    if a + 1 < b {
      RowsIncreasing(cs, serde, a + 1, b);
    }
  }

  /** Without a name path, every row of a directory unbundle gets its own default
      name, so each row's file holds that row's value, serialised as `pretty` says. */
  lemma UnbundleDefaultNames(cs: seq<Chunk>, dir: Path, pretty: bool, denied: set<Path>,
                             files: map<Path, string>, text: string, room: nat, serde: Serde, k: nat)
    requires k < |Rows(cs, 0, serde)|
    requires OutputDir.FileFor(dir, ProcessorNdjson.DefaultName(Rows(cs, 0, serde)[k].line)) !in denied
    ensures var row := Rows(cs, 0, serde)[k];
            var after := LinesAfter(cs, false, Some(dir), pretty, None, denied, files, text, room, serde).files;
            var p := OutputDir.FileFor(dir, ProcessorNdjson.DefaultName(row.line));
            p in after && after[p] == Serialize(serde, pretty, row.value)
  {
    var rows := Rows(cs, 0, serde);
    var es := Named(rows, None);
    forall a, b | 0 <= a < b < |es| ensures es[a].0 != es[b].0 {
      NamedAt(rows, None, a);
      NamedAt(rows, None, b);
      RowsIncreasing(cs, serde, a, b);
      ProcessorNdjson.DefaultNameInjective(rows[a].line, rows[b].line);
    }
    NamedAt(rows, None, k);
    OutputDir.WriteFilesEntry(files, dir, es, pretty, serde, denied, k);
  }

  /** On standard output, the printed text of a batch is the text of its first part
      followed by the text of the rest. */
  lemma {:induction false} PrintedConcat(a: seq<Entry>, b: seq<Entry>, pretty: bool, serde: Serde)
    ensures Printed(a + b, pretty, serde) == Printed(a, pretty, serde) + Printed(b, pretty, serde)
  {
    if b == [] {
      assert a + b == a;
    } else {
      var init := b[..|b| - 1];
      PrintedConcat(a, init, pretty, serde);
      assert (a + b)[..|a + b| - 1] == a + init;
    }
  }
}
