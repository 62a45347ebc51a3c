/** The outside world the program touches: a snapshot of the files and directory
    listings it reads, the file store it writes, and standard output. */
module Io {
  import opened Wrappers
  import opened Paths

  /** One item of a `read_dir` iteration: an item that came back as an error, or a listed name. */
  datatype DirItem = Unlisted | Listed(name: string)

  /** What reading sees: the listing of each readable directory, in iteration order,
      and the text of each readable file. */
  datatype Disk = Disk(listings: map<Path, seq<DirItem>>, contents: map<Path, string>)

  /** `fs::read_dir`: fails for a path that is not a readable directory. */
  function ReadDir(disk: Disk, dir: Path): (r: Result<seq<DirItem>>)
    ensures r.Ok? <==> dir in disk.listings
    ensures r.Ok? ==> r.value == disk.listings[dir]
  {
    if dir in disk.listings then Ok(disk.listings[dir])
    else Err(Failure("No such file or directory: " + dir))
  }

  /** `File::open` followed by reading it all: fails for a path that is not a readable file. */
  function ReadToString(disk: Disk, path: Path): (r: Result<string>)
    ensures r.Ok? <==> path in disk.contents
    ensures r.Ok? ==> r.value == disk.contents[path]
  {
    if path in disk.contents then Ok(disk.contents[path])
    else Err(Failure("No such file or directory: " + path))
  }

  /** The files and directories the program writes. Opening a path for writing,
      or creating a directory, fails exactly for the paths in `denied`. */
  class FileStore {
    var files: map<Path, string>
    var dirs: set<Path>
    const denied: set<Path>

    constructor (files: map<Path, string>, dirs: set<Path>, denied: set<Path>)
      ensures this.files == files && this.dirs == dirs && this.denied == denied
    {
      this.files := files;
      this.dirs := dirs;
      this.denied := denied;
    }

    /** `Path::exists`. */
    predicate Exists(p: Path)
      reads this
    {
      p in files || p in dirs
    }

    /** Open with create and truncate, then write `body`: the file's contents become `body`. */
    method Put(p: Path, body: string) returns (r: Outcome)
      modifies this`files
      ensures r.Pass? <==> p !in denied
      ensures files == if r.Pass? then old(files)[p := body] else old(files)
    {
      if p in denied {
        r := Fail(Failure("Permission denied: " + p));
      } else {
        files := files[p := body];
        r := Pass;
      }
    }

    /** `fs::create_dir_all`. */
    method CreateDirAll(p: Path) returns (r: Outcome)
      modifies this`dirs
      ensures r.Pass? <==> p !in denied
      ensures dirs == if r.Pass? then old(dirs) + {p} else old(dirs)
    {
      if p in denied {
        r := Fail(Failure("Permission denied: " + p));
      } else {
        dirs := dirs + {p};
        r := Pass;
      }
    }
  }

  /** Standard output: the text written so far, and how many more writes it
      accepts before a write fails. */
  class Stdout {
    var text: string
    var room: nat

    constructor (room: nat)
      ensures text == [] && this.room == room
    {
      text := [];
      this.room := room;
    }

    /** One write: accepted whole while there is room, refused otherwise. */
    method Write(chunk: string) returns (r: Outcome)
      modifies this
      ensures r.Pass? <==> old(room) > 0
      ensures text == if r.Pass? then old(text) + chunk else old(text)
      ensures room == if r.Pass? then old(room) - 1 else old(room)
    {
      if room == 0 {
        r := Fail(Failure("Broken pipe"));
      } else {
        text := text + chunk;
        room := room - 1;
        r := Pass;
      }
    }
  }

  /** What the sinks have written so far, as one value: the files and directories of
      the store, and standard output's text and remaining room. */
  datatype Medium = Medium(files: map<Path, string>, dirs: set<Path>, text: string, room: nat)

  ghost function MediumOf(store: FileStore, out: Stdout): Medium
    reads store, out
  {
    Medium(store.files, store.dirs, out.text, out.room)
  }
}
