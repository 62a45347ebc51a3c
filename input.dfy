/** Choosing a source from a command-line argument: "-" is standard input, and
    any other argument is a path. */
module Input {
  import opened Wrappers
  import InputDir

  /** A `JsonSource`: where entries are read from. */
  datatype SourceKind = StdinSource | DirectorySource(dir: InputDir.InputDirectory)

  /** A `JsonReader`: where one object or a stream of lines is read from. */
  datatype ReaderKind = StdinReader | FileReader(path: string)

  /** `JsonSourceInput::from_str`: entries come from standard input or an existing directory. */
  function SourceFromStr(s: string, isDir: bool): (r: Result<SourceKind>)
    ensures s == "-" ==> r == Ok(StdinSource)
    ensures s != "-" ==> (r.Ok? <==> isDir)
    ensures s != "-" && r.Ok? ==> r.value == DirectorySource(InputDir.InputDirectory(s))
    ensures r.Err? ==> r.error == Failure("Cannot read entries from file: " + s)
  {
    if s == "-" then Ok(StdinSource)
    else if isDir then Ok(DirectorySource(InputDir.InputDirectory(s)))
    else Err(Failure("Cannot read entries from file: " + s))
  }

  /** `JsonReaderInput::from_str`: a reader is standard input or a file that is not a
      directory; `fileOpen` is the outcome of opening that file, whose error is passed on. */
  function ReaderFromStr(s: string, isDir: bool, fileOpen: Outcome): (r: Result<ReaderKind>)
    ensures s == "-" ==> r == Ok(StdinReader)
    ensures s != "-" ==> (r.Ok? <==> !isDir && fileOpen.Pass?)
    ensures s != "-" && r.Ok? ==> r.value == FileReader(s)
    ensures s != "-" && isDir ==> r == Err(Failure("Cannot read object from directory: " + s))
    ensures s != "-" && !isDir && fileOpen.Fail? ==> r == Err(fileOpen.error)
  {
    if s == "-" then Ok(StdinReader)
    else if isDir then Err(Failure("Cannot read object from directory: " + s))
    else match fileOpen
      case Pass => Ok(FileReader(s))
      case Fail(e) => Err(e)
  }

  /** Apart from "-", a path is a source of entries or a reader, never both. */
  lemma SourceReaderExclusive(s: string, isDir: bool, fileOpen: Outcome)
    requires s != "-"
    ensures !(SourceFromStr(s, isDir).Ok? && ReaderFromStr(s, isDir, fileOpen).Ok?)
  {
  }
}
