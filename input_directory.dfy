/** A directory given as the source of entries: every file in it is one entry. */
module InputDir {
  import opened Wrappers
  import opened Json
  import opened Paths
  import opened Io
  import InputFile

  /** The message `get_entries` panics with when the directory cannot be read. */
  const ENTRIES_PANIC: string := "Error reading entries from directory"

  datatype InputDirectory = InputDirectory(path: Path)

  /** `from_str`: any text names a directory source; nothing is checked. */
  function FromStr(s: string): (r: Result<InputDirectory>)
    ensures r.Ok? && r.value.path == s
  {
    Ok(InputDirectory(s))
  }

  /** `read_entries`: the listing loop, which is the same as the one in
      `read_entries_from_directory`. */
  method ReadEntries(dir: Path, sort: bool, disk: Disk, serde: Serde) returns (r: Result<seq<Entry>>)
    ensures r == InputFile.ReadEntries(disk, dir, sort, serde)
  {
    r := InputFile.ReadEntriesFromDirectory(disk, dir, sort, serde);
  }

  /** `get_entries`: the entries of the directory, or a panic when reading fails. */
  method GetEntries(d: InputDirectory, sort: bool, disk: Disk, serde: Serde) returns (r: Result<seq<Entry>>)
    ensures InputFile.ReadEntries(disk, d.path, sort, serde).Ok? ==> r == InputFile.ReadEntries(disk, d.path, sort, serde)
    ensures InputFile.ReadEntries(disk, d.path, sort, serde).Err? ==> r == Err(Panic(ENTRIES_PANIC))
  {
    var read := ReadEntries(d.path, sort, disk, serde);
    if read.Err? {
      r := Err(Panic(ENTRIES_PANIC));
    } else {
      r := read;
    }
  }

  /** `read_entry`: the source's own path read as one entry, named by its file stem. */
  function ReadEntry(d: InputDirectory, disk: Disk, serde: Serde): (r: Result<Entry>)
    ensures r.Ok? ==> InputFile.ReadObject(disk, d.path, serde) == Ok(r.value.1)
    ensures r.Ok? ==> FileStem(d.path) == Some(r.value.0)
    ensures InputFile.ReadObject(disk, d.path, serde).Ok? && FileStem(d.path).Some? ==>
              r == Ok((FileStem(d.path).value, InputFile.ReadObject(disk, d.path, serde).value))
    ensures InputFile.ReadObject(disk, d.path, serde).Ok? && FileStem(d.path).None? ==> r.Err? && r.error.Panic?
    ensures InputFile.ReadObject(disk, d.path, serde).Err? ==> r.Err? && r.error.Failure?
  {
    InputFile.EntryAt(disk, d.path, serde)
  }

  /** Reading one listed file on its own gives the entry the directory read gives it. */
  lemma ReadEntryOfListed(dir: Path, name: string, disk: Disk, serde: Serde)
    ensures ReadEntry(InputDirectory(JoinPath(dir, name)), disk, serde) == InputFile.EntryFor(disk, dir, name, serde)
  {
  }

  /** A source path that names no file, such as "..", cannot be named, and reading it panics. */
  lemma ReadEntryUnnamed(d: InputDirectory, disk: Disk, serde: Serde)
    requires FileName(d.path).None? && InputFile.ReadObject(disk, d.path, serde).Ok?
    ensures ReadEntry(d, disk, serde).Err? && ReadEntry(d, disk, serde).error.Panic?
  {
  }
}
