/** A directory as a sink: each entry `(key, value)` becomes the file `<key>.json`
    in it, holding the serialised value. */
module OutputDir {
  import opened Wrappers
  import opened Json
  import opened Paths
  import opened Io
  import opened Seqs

  /** The error `append` always returns. */
  const APPEND_ERROR: string := "Cannot append to a directory output"

  /** The file an entry named `key` is written to. */
  function FileFor(dir: Path, key: string): Path
  {
    JoinPath(dir, key + ".json")
  }

  /** The files after writing each entry of `es` in turn; a file that cannot be
      opened is skipped and the rest are still written. */
  function WriteFiles(files: map<Path, string>, dir: Path, es: seq<Entry>, pretty: bool, serde: Serde,
                      denied: set<Path>): map<Path, string>
    decreases |es|
  {
    if es == [] then files
    else WriteFiles(WriteOne(files, dir, es[0], pretty, serde, denied), dir, es[1..], pretty, serde, denied)
  }

  /** The files after writing one entry: its file replaced, unless it cannot be opened. */
  function WriteOne(files: map<Path, string>, dir: Path, e: Entry, pretty: bool, serde: Serde,
                    denied: set<Path>): map<Path, string>
  {
    var p := FileFor(dir, e.0);
    if p in denied then files else files[p := Serialize(serde, pretty, e.1)]
  }

  class DirectoryOutput {
    var pretty: bool
    var path: Path

    /** `new`: the given directory and serialisation style. */
    constructor (path: Path, pretty: bool)
      ensures this.path == path && this.pretty == pretty
    {
      this.pretty := pretty;
      this.path := path;
    }

    /** `set_pretty`: only the serialisation style changes. */
    method SetPretty(pretty: bool)
      modifies this`pretty
      ensures this.pretty == pretty && path == old(path)
    {
      this.pretty := pretty;
    }

    /** `append`: a directory cannot be appended to; nothing is written. */
    method Append(content: Value) returns (r: Outcome)
      ensures r == Fail(Failure(APPEND_ERROR))
    {
      r := Fail(Failure(APPEND_ERROR));
    }

    /** `write_file`: create or truncate `<path>/<filename>` and write the value to it. */
    method WriteFile(store: FileStore, filename: string, content: Value, serde: Serde) returns (r: Outcome)
      modifies store`files
      ensures r.Pass? <==> JoinPath(path, filename) !in store.denied
      ensures store.files == if r.Pass? then old(store.files)[JoinPath(path, filename) := Serialize(serde, pretty, content)]
                             else old(store.files)
    {
      r := store.Put(JoinPath(path, filename), Serialize(serde, pretty, content));
    }

    /** `write_entries`: create the directory (unless it is "."), then write one file
        per entry; a file that cannot be written is logged and skipped. */
    method WriteEntries(store: FileStore, entries: seq<Entry>, serde: Serde) returns (r: Outcome)
      modifies store
      ensures path != "." && path in store.denied ==>
                r.Fail? && store.files == old(store.files) && store.dirs == old(store.dirs)
      ensures !(path != "." && path in store.denied) ==>
                r.Pass? &&
                store.files == WriteFiles(old(store.files), path, entries, pretty, serde, store.denied) &&
                store.dirs == if path != "." then old(store.dirs) + {path} else old(store.dirs)
    {
      if path != "." {
        r := store.CreateDirAll(path);
        if r.Fail? {
          return;
        }
      }
      WriteAll(store, entries, serde);
      r := Pass;
    }

    /** The loop of `write_entries`: one `write_file` per entry, in order, whatever the
        outcome of each. */
    method WriteAll(store: FileStore, entries: seq<Entry>, serde: Serde)
      modifies store`files
      ensures store.files == WriteFiles(old(store.files), path, entries, pretty, serde, store.denied)
    {
      for i := 0 to |entries|
        invariant WriteFiles(store.files, path, entries[i..], pretty, serde, store.denied) ==
                  WriteFiles(old(store.files), path, entries, pretty, serde, store.denied)
      {
        ghost var before := store.files;
        var written := WriteFile(store, entries[i].0 + ".json", entries[i].1, serde);
        assert store.files == WriteOne(before, path, entries[i], pretty, serde, store.denied);
        assert entries[i..][0] == entries[i] && entries[i..][1..] == entries[i + 1..];
      }
    }
  }

  // ---------------------------------------------------------------------
  // where each entry lands

  /** Different keys are written to different files. */
  lemma FileForInjective(dir: Path, a: string, b: string)
    ensures FileFor(dir, a) == FileFor(dir, b) ==> a == b
  {
    if FileFor(dir, a) == FileFor(dir, b) {
      JoinInjective(dir, a + ".json", b + ".json");
      assert a == (a + ".json")[..|a|];
    }
  }

  /** A file that no entry is written to, or that cannot be opened, is left as it was. */
  lemma {:induction false} WriteFilesElsewhere(files: map<Path, string>, dir: Path, es: seq<Entry>, pretty: bool,
                                               serde: Serde, denied: set<Path>, p: Path)
    requires p in denied || forall k :: 0 <= k < |es| ==> FileFor(dir, es[k].0) != p
    ensures var after := WriteFiles(files, dir, es, pretty, serde, denied);
            (p in after <==> p in files) && (p in files ==> after[p] == files[p])
    decreases |es|
  {
    if es != [] {
      WriteFilesElsewhere(WriteOne(files, dir, es[0], pretty, serde, denied), dir, es[1..], pretty, serde, denied, p);
    }
  }

  /** Writing one more entry after a batch is writing that entry's file last. */
  lemma {:induction false} WriteFilesSnoc(files: map<Path, string>, dir: Path, es: seq<Entry>, e: Entry, pretty: bool,
                                          serde: Serde, denied: set<Path>)
    ensures WriteFiles(files, dir, es + [e], pretty, serde, denied) ==
            WriteOne(WriteFiles(files, dir, es, pretty, serde, denied), dir, e, pretty, serde, denied)
    decreases |es|
  {
    if es == [] {
      assert [e][1..] == [];
    } else {
      assert (es + [e])[0] == es[0] && (es + [e])[1..] == es[1..] + [e];
      WriteFilesSnoc(WriteOne(files, dir, es[0], pretty, serde, denied), dir, es[1..], e, pretty, serde, denied);
    }
  }

  /** Writing a batch is writing all but its last entry, then the last. */
  lemma WriteFilesLast(files: map<Path, string>, dir: Path, es: seq<Entry>, pretty: bool, serde: Serde,
                       denied: set<Path>)
    requires es != []
    ensures WriteFiles(files, dir, es, pretty, serde, denied) ==
            WriteOne(WriteFiles(files, dir, es[..|es| - 1], pretty, serde, denied), dir, es[|es| - 1], pretty, serde, denied)
  {
    WriteFilesSnoc(files, dir, es[..|es| - 1], es[|es| - 1], pretty, serde, denied);
    SnocLast(es);
  }

  /** With distinct keys, the file of each entry that can be written holds that entry's
      value, serialised as `pretty` says. */
  lemma {:induction false} WriteFilesEntry(files: map<Path, string>, dir: Path, es: seq<Entry>, pretty: bool,
                                           serde: Serde, denied: set<Path>, i: nat)
    requires DistinctNames(es) && i < |es| && FileFor(dir, es[i].0) !in denied
    ensures var after := WriteFiles(files, dir, es, pretty, serde, denied);
            FileFor(dir, es[i].0) in after && after[FileFor(dir, es[i].0)] == Serialize(serde, pretty, es[i].1)
    decreases |es|
  {
    if i == 0 {
      WriteFilesFirst(files, dir, es, pretty, serde, denied);
    } else {
      assert es[1..][i - 1] == es[i];
      DistinctTail(es);
      WriteFilesEntry(WriteOne(files, dir, es[0], pretty, serde, denied), dir, es[1..], pretty, serde, denied, i - 1);
    }
  }

  /** The first entry's file, once written, is not written again. */
  lemma WriteFilesFirst(files: map<Path, string>, dir: Path, es: seq<Entry>, pretty: bool,
                        serde: Serde, denied: set<Path>)
    requires DistinctNames(es) && |es| > 0 && FileFor(dir, es[0].0) !in denied
    ensures var after := WriteFiles(files, dir, es, pretty, serde, denied);
            FileFor(dir, es[0].0) in after && after[FileFor(dir, es[0].0)] == Serialize(serde, pretty, es[0].1)
  {
    DistinctRest(dir, es);
    WriteFilesElsewhere(WriteOne(files, dir, es[0], pretty, serde, denied), dir, es[1..], pretty, serde, denied,
                        FileFor(dir, es[0].0));
  }

  lemma DistinctTail(es: seq<Entry>)
    requires DistinctNames(es) && |es| > 0
    ensures DistinctNames(es[1..])
  {
    forall a, b | 0 <= a < b < |es[1..]| ensures es[1..][a].0 != es[1..][b].0 {
      assert es[1..][a] == es[a + 1] && es[1..][b] == es[b + 1];
    }
  }

  /** With distinct keys, no later entry is written to the first entry's file. */
  lemma DistinctRest(dir: Path, es: seq<Entry>)
    requires DistinctNames(es) && |es| > 0
    ensures forall k :: 0 <= k < |es[1..]| ==> FileFor(dir, es[1..][k].0) != FileFor(dir, es[0].0)
  {
    forall k | 0 <= k < |es[1..]| ensures FileFor(dir, es[1..][k].0) != FileFor(dir, es[0].0) {
      FileForInjective(dir, es[1..][k].0, es[0].0);
      assert es[1..][k] == es[k + 1];
    }
  }

  /** With distinct keys the order of the writes does not matter, so writing the
      entries in any order leaves the same files. */
  lemma WriteFilesOrder(files: map<Path, string>, dir: Path, es: seq<Entry>, fs: seq<Entry>, pretty: bool,
                        serde: Serde, denied: set<Path>)
    requires DistinctNames(es) && DistinctNames(fs) && multiset(es) == multiset(fs)
    ensures WriteFiles(files, dir, es, pretty, serde, denied) == WriteFiles(files, dir, fs, pretty, serde, denied)
  {
    var a := WriteFiles(files, dir, es, pretty, serde, denied);
    var b := WriteFiles(files, dir, fs, pretty, serde, denied);
    forall p ensures (p in a <==> p in b) && (p in a ==> a[p] == b[p]) {
      if p !in denied && exists i :: 0 <= i < |es| && FileFor(dir, es[i].0) == p {
        var i :| 0 <= i < |es| && FileFor(dir, es[i].0) == p;
        assert es[i] in multiset(fs);
        var j :| 0 <= j < |fs| && fs[j] == es[i];
        WriteFilesEntry(files, dir, es, pretty, serde, denied, i);
        WriteFilesEntry(files, dir, fs, pretty, serde, denied, j);
      } else {
        forall j | 0 <= j < |fs| && p !in denied ensures FileFor(dir, fs[j].0) != p {
          assert fs[j] in multiset(es);
        }
        WriteFilesElsewhere(files, dir, es, pretty, serde, denied, p);
        WriteFilesElsewhere(files, dir, fs, pretty, serde, denied, p);
      }
    }
    assert a == b;
  }
}
