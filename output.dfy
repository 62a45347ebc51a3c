/** Choosing a sink from a command-line argument, and writing a batch of entries
    through whichever sink was chosen. */
module Output {
  import opened Wrappers
  import opened Json
  import opened Io
  import OutputDir
  import OutputStream

  /** What an output writes to: standard output, a directory of files, or one file. */
  datatype Kind = StreamKind | DirectoryKind(path: string) | FileKind(path: string)

  /** An output as `from_str` builds it. */
  datatype Built = Built(kind: Kind, pretty: bool)

  /** `JsonAppendableOutput::from_str`. `isDir` says whether the path is an existing
      directory and `hasExtension` whether its file name has an extension. */
  function AppendableFromStr(s: string, isDir: bool, hasExtension: bool): (r: Result<Built>)
    ensures r.Ok? ==> !r.value.pretty
    ensures s == "-" ==> r == Ok(Built(StreamKind, false))
    ensures s != "-" ==> (r.Err? <==> isDir || !hasExtension)
    ensures s != "-" && r.Ok? ==> r.value.kind == FileKind(s)
    ensures r.Err? ==> r.error == Failure("Cannot append to a directory output: " + s)
  {
    if s == "-" then Ok(Built(StreamKind, false))
    else if isDir || !hasExtension then Err(Failure("Cannot append to a directory output: " + s))
    else Ok(Built(FileKind(s), false))
  }

  /** `JsonWritableOutput::from_str`: never fails; a directory or an extension-less
      path is written as a directory of files. */
  function WritableFromStr(s: string, isDir: bool, hasExtension: bool): (r: Result<Built>)
    ensures r.Ok? && !r.value.pretty
    ensures s == "-" ==> r.value.kind == StreamKind
    ensures s != "-" ==> r.value.kind == if isDir || !hasExtension then DirectoryKind(s) else FileKind(s)
  {
    if s == "-" then Ok(Built(StreamKind, false))
    else if isDir || !hasExtension then Ok(Built(DirectoryKind(s), false))
    else Ok(Built(FileKind(s), false))
  }

  /** The two choices agree wherever appending is possible; where it is not, the
      writable choice is the directory. */
  lemma AppendableWritableAgree(s: string, isDir: bool, hasExtension: bool)
    ensures AppendableFromStr(s, isDir, hasExtension).Ok? ==>
              WritableFromStr(s, isDir, hasExtension) == AppendableFromStr(s, isDir, hasExtension)
    ensures AppendableFromStr(s, isDir, hasExtension).Err? ==>
              WritableFromStr(s, isDir, hasExtension) == Ok(Built(DirectoryKind(s), false))
  {
  }

  /** A `dyn Writeable`: the two sinks whose `write_entries` is part of this model. */
  datatype Writable = DirectorySink(dir: OutputDir.DirectoryOutput) | StreamSink(stream: OutputStream.StreamOutput)

  /** `write_entries` through the trait object: each sink's own effect, and nothing
      on the other sink's medium. */
  method WriteEntries(w: Writable, store: FileStore, out: Stdout, entries: seq<Entry>, serde: Serde)
    returns (r: Outcome)
    modifies store, out
    ensures w.StreamSink? ==>
              store.files == old(store.files) && store.dirs == old(store.dirs) &&
              (r.Pass? <==> |entries| <= old(out.room)) &&
              var n := if |entries| <= old(out.room) then |entries| else old(out.room);
              out.text == old(out.text) + OutputStream.Rendered(entries[..n], w.stream.pretty, serde) &&
              out.room == old(out.room) - n
    ensures w.DirectorySink? ==>
              out.text == old(out.text) && out.room == old(out.room) &&
              var d := w.dir;
              if d.path != "." && d.path in store.denied then
                r.Fail? && store.files == old(store.files) && store.dirs == old(store.dirs)
              else
                r.Pass? &&
                store.files == OutputDir.WriteFiles(old(store.files), d.path, entries, d.pretty, serde, store.denied) &&
                store.dirs == if d.path != "." then old(store.dirs) + {d.path} else old(store.dirs)
  {
    match w
    case StreamSink(s) => r := s.WriteEntries(out, entries, serde);
    case DirectorySink(d) => r := d.WriteEntries(store, entries, serde);
  }

  /** The objects behind a sink. */
  function Objects(w: Writable): set<object>
  {
    match w
    case StreamSink(s) => {s}
    case DirectorySink(d) => {d}
  }

  /** A sink's settings as a value: where it writes and how it serialises. */
  datatype Target = ToStream(pretty: bool) | ToDirectory(path: string, pretty: bool)

  ghost function TargetOf(w: Writable): Target
    reads Objects(w)
  {
    match w
    case StreamSink(s) => ToStream(s.pretty)
    case DirectorySink(d) => ToDirectory(d.path, d.pretty)
  }
}
