# jsrmx, modelled in Dafny

jsrmx is a command-line tool that moves JSON between three shapes:

- one large object;
- a directory holding one `<name>.json` file per entry;
- NDJSON, with one document per line.

This project models the tool's core and proves what that core promises. The core covers:

- **Field codec.** `JsonField` escapes a value into a JSON string that holds the value's compact text. It also unescapes such a string back into a value.
- **NDJSON engine.**
  - Bundling appends every document of a directory as one line, with its configured fields escaped.
  - Unbundling reads lines one at a time and unescapes the configured fields. It names each document from name paths, a type suffix and a zero-padded line counter, then writes it to a sink.
  - Fields are addressed by dotted paths such as `a.b.c`, which become the JSON pointer `/a/b/c`.
- **Older engine.** `src/ndjson.rs` has its own `bundle` and `unbundle`, written against `Input`/`Output` enums. Its `.json` extension filter, single-path naming and `println!` output differ from the newer engine.
- **Merge and split.** These turn a list of named entries into one object and back. Each takes an optional regular-expression key filter that fails open.
- **Sources.**
  - A directory is read as named entries, with an optional stable sort by name.
  - Standard input is read as a line reader, or as one whole object.
  - `from_str` classifies command-line arguments.
- **Sinks.**
  - A directory sink writes one file per entry and swallows per-file errors.
  - The standard-output stream writes one `{key: value}` line per entry.
  - `from_str` classifies command-line arguments.

The world the tool touches is modelled as follows:

- **Reading.** A `Disk` value: directory listings in iteration order, plus file contents.
- **Writing.** A `FileStore` object: files and directories. Opening or creating fails exactly for the paths in `denied`.
- **Standard output.** A `Stdout` object: the text written so far, and `room`, the number of further writes it accepts.
- **Standard input.** An `InputStdin` object: a cursor over the chunks still to be read. A chunk is a line, or a read that fails.
- **serde_json.** Its text codec is a `Serde` value holding the compact serialiser, the pretty serialiser and the parser as functions. Parsing answers with a value, with "end of input", or with "malformed".
- **The regex crate.** A `RegexEngine` value: whether a pattern compiles, and whether it matches a key.
- **Laws.** Each law a property needs, such as "parsing the compact text gives the value back", is a precondition of that property.
- **Panics.** `expect`, `unwrap` and a failing `println!` become an `Error.Panic` outcome.

Field access follows serde_json's `Value::pointer` and `pointer_mut`, which implement section 4 of RFC 6901:

- reference tokens are split at '/';
- `~1` is unescaped before `~0`;
- array indices are canonical decimals that fit in `usize`.

Where the loops of the source update state (the line reader, the sinks, the directory scan, the bundler, both unbundlers), the model has methods with loops and invariants. Each is proved against a specification function: `Collected`, `ReadEntries`, `Rows`/`StopAt`, `WriteFiles`, `Rendered`, `BundleText`, `Feed`, `LinesAfter` or `DirectoryRun`. The properties the source promises are then lemmas about those functions.

## Model

| member | source | states |
|---|---|---|
| JsonField.FromValue | src/processor/json_field.rs:32-39 | a JSON string becomes the string variant holding the same text; every other value becomes the value variant, unchanged |
| JsonField.FromString | src/processor/json_field.rs:26-30 | a `String` always becomes the string variant holding that string |
| JsonField.Escape | src/processor/json_field.rs:18-23 | escaping always yields a JSON string |
| JsonField.Unescape | src/processor/json_field.rs:9-16 | the value variant is returned unchanged |
| JsonField.EscapeString | src/processor/json_field.rs:20 | escaping a JSON string gives back the same string |
| JsonField.EscapeNonString | src/processor/json_field.rs:21 | escaping any non-string value gives the string of its compact serialisation |
| JsonField.EscapeIdempotent | src/processor/json_field.rs:18-23 | escaping an escaped value again changes nothing |
| JsonField.UnescapeMalformed | src/processor/json_field.rs:11-13 | a string that does not parse, once every `\"` is turned into `"`, unescapes to null |
| JsonField.UnescapeCompact | src/processor/json_field.rs:11-13 | a string holding the compact text of `v`, with no `\"` in it, unescapes to `v` |
| JsonField.EscapeUnescapeRoundTrip | src/processor/json_field.rs:9-23 | for a non-string value whose compact text holds no `\"`, unescape after escape gives the value back |
| Text.JoinSplit | src/processor/ndjson.rs:152 | splitting at one character and joining with another replaces every occurrence of the first by the second |
| Text.JoinSplitIdentity | src/processor/ndjson.rs:152 | joining a split with its own separator gives the string back |
| Text.SplitAfterReplace | src/processor/ndjson.rs:152 | splitting at `d` after turning every `c` into `d` is splitting at `c`, when `d` did not occur before |
| Text.SplitPartsFree | src/processor/ndjson.rs:152 | no part of a split contains the separator |
| Text.ReplaceAbsent | src/processor/json_field.rs:12 | `replace` of a pattern that does not occur leaves the string unchanged |
| Text.DecimalValue | src/processor/ndjson.rs:105 | the numeral `format!` writes for a counter reads back as that counter |
| Text.ValueDecimal | src/processor/ndjson.rs:105 | a digit string without a leading zero is the numeral of its own value |
| Text.LeadingZerosValue | src/processor/ndjson.rs:105 | zero padding does not change the value a numeral denotes |
| Text.DecimalLength | src/processor/ndjson.rs:105 | a number below 10^w has a numeral of at most `w` digits |
| Pointer.ParseIndexCanonical | src/processor/ndjson.rs:109 | an array-index token is exactly the decimal numeral of the index it denotes |
| Pointer.ParseIndexInjective | src/processor/ndjson.rs:109 | different tokens never select the same array element |
| Pointer.ParseIndexDecimal | src/processor/ndjson.rs:109 | every index that fits in `usize` is addressed by its numeral |
| Pointer.SetAtUnresolved | src/processor/ndjson.rs:50 | assigning through a location that does not exist leaves the document unchanged |
| Pointer.SetAtResolved | src/processor/ndjson.rs:50-53 | after assigning at an existing location, that location holds the new value |
| Pointer.SetAtSame | src/processor/ndjson.rs:50-53 | assigning a location the value it already holds changes nothing |
| Pointer.SetAtElsewhere | src/processor/ndjson.rs:50-53 | every location off the path through the assigned one keeps its value |
| Pointer.SetAtTwice | src/processor/ndjson.rs:50-53 | a second assignment at the same location overrides the first |
| Pointer.RewriteUnresolved | src/processor/ndjson.rs:50 | `if let Some(slot) = pointer_mut(p)` skips a pointer that resolves nowhere, leaving the document unchanged |
| Pointer.RewriteResolved | src/processor/ndjson.rs:50-53 | a resolving pointer afterwards resolves to `f` of its old value |
| Pointer.RewriteElsewhere | src/processor/ndjson.rs:50-53 | rewriting through a pointer leaves every location off its path untouched |
| Pointer.RewriteInverse | src/processor/ndjson.rs:142-145 | rewriting with `f` and then with a `g` that undoes `f` at the location gives the document back |
| Pointer.RewriteIdempotent | src/processor/ndjson.rs:50-53 | rewriting twice with a function idempotent at the location is rewriting once |
| Paths.JoinPath | src/output/directory.rs:22-23 | the joined path ends with the file name that was pushed |
| Paths.JoinInjective | src/output/directory.rs:22-23 | one directory joined with different names gives different paths |
| Paths.StemExtension | src/input/file.rs:97 | stem, '.' and extension make up the file name again; a name without an extension is its own stem |
| Paths.FileNameOfJoin | src/input/file.rs:95-97 | the path of a listed name has that name as its file name and the name's stem as its file stem |
| Paths.LastDot | src/input/file.rs:97 | the position found is the last '.' of the name, and there is none when the name has no '.' |
| Io.ReadDir | src/input/file.rs:92 | listing succeeds exactly for a readable directory and yields its listing |
| Io.ReadToString | src/ndjson.rs:54 | reading succeeds exactly for a readable file and yields its text |
| Io.FileStore.Put | src/output/directory.rs:25-29 | opening with create and truncate succeeds exactly for a path not denied, and the file then holds exactly the new body |
| Io.FileStore.CreateDirAll | src/output/directory.rs:54 | creating succeeds exactly for a path not denied, and the directory then exists |
| Io.Stdout.Write | src/output/stream.rs:20-21 | a write is accepted whole while there is room and refused otherwise, the text unchanged |
| EntrySort.NameLeTotal | src/input/file.rs:104 | `String::cmp` relates any two names |
| EntrySort.NameLeTrans | src/input/file.rs:104 | the name order is transitive |
| EntrySort.NameLeAntisym | src/input/file.rs:104 | names each at most the other are equal |
| EntrySort.InsertSorted | src/input/file.rs:103-105 | inserting into sorted entries keeps them sorted |
| EntrySort.InsertPermutes | src/input/file.rs:103-105 | inserting adds exactly the one entry |
| EntrySort.SortByNameSorted | src/input/file.rs:103-105 | the sorted entries are in ascending name order |
| EntrySort.SortByNamePermutes | src/input/file.rs:103-105 | the sorted entries are a permutation of the input |
| EntrySort.SortByNameStable | src/input/file.rs:103-105 | entries that share a name keep their relative order |
| EntrySort.SortByNameSortedInput | src/input/file.rs:103-105 | sorting entries already in order changes nothing |
| Input.SourceFromStr | src/input.rs:27-39 | "-" is standard input; any other path is a directory source exactly when it is a directory, and otherwise "Cannot read entries from file: …" |
| Input.ReaderFromStr | src/input.rs:56-68 | "-" is standard input; a directory is refused with "Cannot read object from directory: …"; any other path is a file reader, and a failure to open it is passed on |
| Input.SourceReaderExclusive | src/input.rs:27-68 | apart from "-", no path is accepted both as a source of entries and as a reader |
| InputDir.FromStr | src/input/directory.rs:40-42 | always succeeds and keeps the text as the path |
| InputDir.ReadEntries | src/input/directory.rs:45-64 | returns what the directory scan specifies: one entry per listed file, named by its stem, sorted when asked |
| InputDir.GetEntries | src/input/directory.rs:18-20 | the entries when the scan succeeds, and a panic with "Error reading entries from directory" when it fails |
| InputDir.ReadEntry | src/input/directory.rs:22-28 | a readable file with a stem gives (its file stem, its parsed contents); a file that cannot be read or parsed gives that error and not a panic; a path with no stem panics |
| InputDir.ReadEntryOfListed | src/input/directory.rs:22-28 | reading a listed file on its own gives the entry the directory scan gives it |
| InputDir.ReadEntryUnnamed | src/input/directory.rs:26 | a path without a file name, such as "..", panics at `file_stem().unwrap()` |
| InputFile.ReadEntriesFromDirectory | src/input/file.rs:89-108 | the loop returns what the scan specifies: listing errors end it, errored items are skipped, each listed file is read in order, then a stable sort by name is applied when asked |
| InputFile.ScanStopsAtError | src/input/file.rs:96 | once a file fails to read, later items do not matter |
| InputFile.ScanEntries | src/input/file.rs:93-101 | a successful scan has exactly one entry per listed item, in listing order, each that file's stem and parsed contents |
| InputFile.ScanFailureWitness | src/input/file.rs:96 | a failed scan names a listed file that cannot be read, parsed or named |
| InputFile.ScanFails | src/input/file.rs:93-101 | the scan fails if and only if some listed file cannot be read, parsed or named |
| InputFile.EntryForProperName | src/input/file.rs:95-99 | a listed name's entry succeeds exactly when its file reads, and is then (stem of the name, parsed contents) |
| InputFile.ReadObjectOk | src/input/file.rs:29-34 | a file is read as a value exactly when it exists and parses, and the value is the parse |
| InputFile.ReadHashmapObject | src/input/file.rs:58-63 | `read_hashmap` gives a map exactly when `read_object` gives an object with that map |
| InputFile.ReadEntriesSorted | src/input/file.rs:103-105 | sorting does not change success; a sorted result is in ascending name order, is a permutation of the unsorted one and keeps equal names in their order |
| InputFile.ReadEntriesFails | src/input/file.rs:92-101 | the read fails exactly when the directory cannot be listed or some listed file cannot be read, parsed or named |
| InputFile.ReadEntriesUnsorted | src/input/file.rs:89-107 | unsorted, the result has one entry per listed item, in listing order, named by that item's stem |
| InputFile.ListedNamesListed | src/input/file.rs:94 | every name scanned comes from an item listed without error |
| InputStd.InputStdin.constructor | src/input/stdin.rs:15-20 | the reader starts at the given input, with the lock poisoned or not |
| InputStd.InputStdin.ReadLine | src/input/stdin.rs:50-54 | a poisoned lock is an error that reads nothing; otherwise the next line is appended to `buf` without clearing it and the cursor moves one chunk on; at the end of input `buf` is unchanged; a failing read is an error |
| InputStd.InputStdin.GetEntries | src/input/stdin.rs:24-40 | the entries are exactly those `Collected` specifies and the cursor stops just past the first failing read; with a poisoned lock nothing is read |
| InputStd.InputStdin.GetObject | src/input/stdin.rs:44-48 | all the remaining input is consumed, and the result is the object it holds, or an error |
| InputStd.CollectedAppend | src/input/stdin.rs:27-38 | lines are read one at a time, in order: collecting two stretches of clean input is collecting each in turn |
| InputStd.CollectedStops | src/input/stdin.rs:27 | nothing after a failing read is collected |
| InputStd.CollectedLine | src/input/stdin.rs:31-37 | each line is parsed on its own and yields its entry, or nothing when it does not parse |
| InputStd.CollectedFromLines | src/input/stdin.rs:31-32 | every collected entry is the parse of one line of the input |
| InputStd.GetObjectRoundTrip | src/input/stdin.rs:44-48 | an object written compactly on standard input is read back whole |
| InputStd.GetObjectBroken | src/input/stdin.rs:46 | input that holds a failing read never yields an object |
| NdjsonLines.Rows | src/processor/ndjson.rs:122-135 | every row comes from a line within the input, at or after the line it starts from |
| NdjsonLines.StopAt | src/processor/ndjson.rs:123-130 | the loop consumes between the starting line and the whole input |
| NdjsonLines.RowsSound | src/processor/ndjson.rs:123-131 | each row is a line read before the loop stops that parsed to the row's value, and rows come in line order |
| NdjsonLines.RowsComplete | src/processor/ndjson.rs:123-131 | every line before the stop that parses gives a row: no parsed line is lost |
| NdjsonLines.StopAtReason | src/processor/ndjson.rs:123-130 | the loop stops at the end of input, at a failing read, or at a line that parses as end of input, and at nothing earlier |
| NdjsonLines.RowsAllParsed | src/processor/ndjson.rs:122-135 | when every line parses, each is a row numbered by its position and the loop reads to the end |
| NdjsonLines.NextRow | src/processor/ndjson.rs:123-131 | one read and parse reports a stop, a skipped line or a parsed row, consistent with `Rows` and `StopAt`, and moves the cursor one line on |
| OutputDir.DirectoryOutput.constructor | src/output/directory.rs:17-19 | the sink holds exactly the given path and flag |
| OutputDir.DirectoryOutput.SetPretty | src/output/directory.rs:47-49 | only the flag changes; the path is kept |
| OutputDir.DirectoryOutput.Append | src/output/directory.rs:40-45 | always fails with "Cannot append to a directory output" and writes nothing |
| OutputDir.DirectoryOutput.WriteFile | src/output/directory.rs:21-36 | `<path>/<filename>` is replaced by the value, serialised as `pretty` says, or the write fails and nothing changes |
| OutputDir.DirectoryOutput.WriteEntries | src/output/directory.rs:51-65 | unless the path is ".", a failure to create the directory is returned and nothing is written; otherwise the result is `Ok` and the files are those `WriteFiles` specifies |
| OutputDir.DirectoryOutput.WriteAll | src/output/directory.rs:57-63 | one file write per entry, in order, whatever each outcome |
| OutputDir.FileForInjective | src/output/directory.rs:58 | different keys go to different files |
| OutputDir.WriteFilesElsewhere | src/output/directory.rs:57-63 | a file no entry is written to, or one that cannot be opened, is left as it was |
| OutputDir.WriteFilesSnoc | src/output/directory.rs:57-63 | writing one more entry after a batch writes that entry's file last |
| OutputDir.WriteFilesEntry | src/output/directory.rs:57-63 | with distinct keys, every writable `<key>.json` holds that entry's value, serialised as `pretty` says |
| OutputDir.WriteFilesFirst | src/output/directory.rs:57-63 | with distinct keys, the first entry's file is not overwritten later |
| OutputDir.WriteFilesOrder | src/output/directory.rs:57 | with distinct keys, any order of the writes leaves the same files, so `par_drain`'s order does not matter |
| OutputStream.StreamOutput.constructor | src/output/stream.rs:12-14 | the stream holds the given flag |
| OutputStream.StreamOutput.SetPretty | src/output/stream.rs:37-39 | only the flag changes |
| OutputStream.StreamOutput.Append | src/output/stream.rs:18-25 | the value, serialised as `pretty` says, then a line break; a refused write is an error |
| OutputStream.StreamOutput.Write | src/output/stream.rs:27-33 | the value, serialised as `pretty` says, with no line break |
| OutputStream.StreamOutput.WriteEntries | src/output/stream.rs:41-51 | one `{key: value}` line per entry, in order; the first refused write stops the batch with an error, and the lines before it stay written |
| OutputStream.RenderedConcat | src/output/stream.rs:42-49 | writing two batches one after the other emits the text of writing them as one |
| OutputStream.RenderedFirst | src/output/stream.rs:42-49 | a batch's text begins with its first entry's line |
| OutputStream.EntryLineRoundTrip | src/output/stream.rs:43 | a compact entry line, read back without its line break, is the one-key object `{key: value}` |
| Output.AppendableFromStr | src/output.rs:31-52 | "-" is the stream; a directory or an extension-less path is refused with "Cannot append to a directory output: …"; any other path is a file; every output starts with `pretty` false |
| Output.WritableFromStr | src/output.rs:69-92 | never fails: "-" is the stream, a directory or an extension-less path is a directory sink, any other path a file; `pretty` starts false |
| Output.AppendableWritableAgree | src/output.rs:31-92 | the two classifications agree wherever appending is possible; where it is refused, the writable one is the directory sink |
| Output.WriteEntries | src/output.rs:20-23 | `write_entries` through the trait object has the chosen sink's own effect and leaves the other medium alone |
| ProcessorJson.Merge | src/processor/json.rs:18-31 | the result is always an object |
| ProcessorJson.CollectKeys | src/processor/json.rs:21 | the keys of the collected object are exactly the entry names |
| ProcessorJson.CollectLastWins | src/processor/json.rs:21 | each key holds the value of the last entry with that name |
| ProcessorJson.CollectPairsAreEntries | src/processor/json.rs:21 | every key/value pair of the collected object is one of the entries |
| ProcessorJson.KeepMatchingMembers | src/processor/json.rs:25-29 | the kept entries are exactly the entries whose name matches |
| ProcessorJson.MergeUnfiltered | src/processor/json.rs:19-21 | with no filter, the keys are exactly the names, and each maps to the last value with that name |
| ProcessorJson.MergeFiltered | src/processor/json.rs:23-29 | with a valid pattern, a key is present if and only if some entry has that name and it matches; it holds the value of the last entry with that name |
| ProcessorJson.CollectMatchingAgrees | src/processor/json.rs:23-29 | on a name the pattern matches, collecting the filtered entries gives the same key and value as collecting them all |
| ProcessorJson.MatchingNameKept | src/processor/json.rs:25-29 | a matching name survives the filter |
| ProcessorJson.MergeInvalidPattern | src/processor/json.rs:23-28 | a pattern that does not compile is treated as no filter |
| ProcessorJson.SplitCounts | src/processor/json.rs:45-60 | split yields each admitted key/value pair of the map exactly once, and nothing else |
| ProcessorJson.SplitUnfiltered | src/processor/json.rs:53-59 | with no filter, every pair once |
| ProcessorJson.SplitFiltered | src/processor/json.rs:55-57 | with a valid pattern, exactly the pairs whose key matches |
| ProcessorJson.SplitInvalidPattern | src/processor/json.rs:46-52 | a pattern that does not compile is treated as no filter |
| ProcessorJson.SplitMergeRoundTrip | src/processor/json.rs:18-60 | merge after split, both unfiltered, rebuilds the object, whatever order the pairs come in |
| ProcessorNdjson.DotsToSlashesShape | src/processor/ndjson.rs:151-153 | the pointer is "/" and the path with every '.' turned into '/'; it starts with '/', holds no '.', and is one longer |
| ProcessorNdjson.DotsToSlashesTokens | src/processor/ndjson.rs:151-153 | for a path without '/' or '~', the pointer's reference tokens are exactly the dot-separated parts |
| ProcessorNdjson.UnescapePlain | src/processor/ndjson.rs:151-153 | tokens without '~' are unchanged by RFC 6901 unescaping |
| ProcessorNdjson.EscapeFields | src/processor/ndjson.rs:48-55 | the in-place loop over the fields yields the document with each resolving field escaped, in order |
| ProcessorNdjson.RewriteAllUnresolved | src/processor/ndjson.rs:49-54 | where no pointer resolves, the document is unchanged |
| ProcessorNdjson.RewriteAllElsewhere | src/processor/ndjson.rs:49-54 | locations off every pointer's path keep their values |
| ProcessorNdjson.EscapedUnresolved | src/processor/ndjson.rs:48-55 | escaping fields that resolve nowhere leaves the document unchanged |
| ProcessorNdjson.EscapedElsewhere | src/processor/ndjson.rs:48-55 | escaping touches nothing off the configured paths |
| ProcessorNdjson.EscapeFieldIdempotent | src/processor/ndjson.rs:50-53 | a resolving field holds a JSON string once escaped, and escaping again changes nothing |
| ProcessorNdjson.EscapeFieldRoundTrip | src/processor/ndjson.rs:139-148 | unescaping a field escaped at bundling gives the document back, for a non-string field whose compact text has no `\"` |
| ProcessorNdjson.FirstResolved | src/processor/ndjson.rs:107-109 | `find_map` gives the value at the first resolving name pointer, and nothing exactly when none resolves |
| ProcessorNdjson.DefaultNameInjective | src/processor/ndjson.rs:105 | distinct line counters give distinct default names |
| ProcessorNdjson.PaddedValue | src/processor/ndjson.rs:105 | the zero-padded numeral reads back as the counter |
| ProcessorNdjson.DefaultNameWidth | src/processor/ndjson.rs:105 | below a million, the default name is "object-" and six digits denoting the counter |
| ProcessorNdjson.NameFromFirstResolving | src/processor/ndjson.rs:107-112 | the first resolving name pointer decides; a non-string value there gives the name "" |
| ProcessorNdjson.NameDefault | src/processor/ndjson.rs:105-112 | when no name pointer resolves, the name is `object-NNNNNN` for the line |
| ProcessorNdjson.NameTypeSuffix | src/processor/ndjson.rs:114-119 | a resolving type pointer adds "." and the string there (or "") to the name; otherwise the name is unchanged |
| ProcessorNdjson.BundleTextLines | src/processor/ndjson.rs:44-58 | the bundle text is the bundle's lines written one after another |
| ProcessorNdjson.NdjsonBundler.constructor | src/processor/ndjson.rs:16-18 | the bundler holds the given source and sink |
| ProcessorNdjson.NdjsonBundler.Bundle | src/processor/ndjson.rs:27-59 | an unreadable directory panics and nothing is written; otherwise the unsorted entries are appended one line each, with fields escaped, up to the first failed append, whose error is returned |
| ProcessorNdjson.NdjsonBundler.AppendEntries | src/processor/ndjson.rs:44-58 | one line per entry, in order, up to the first append that fails; `Ok` exactly when all fit |
| ProcessorNdjson.NdjsonBundler.AppendNext | src/processor/ndjson.rs:47-56 | the next entry's line is appended, or the output is out of room and nothing changes |
| ProcessorNdjson.NdjsonBundler.AppendOne | src/processor/ndjson.rs:47-56 | one document, its fields escaped in place, appended as one line or refused |
| ProcessorNdjson.BundleRows | src/processor/ndjson.rs:42-59 | read back line by line, a compact bundle gives one row per document, in order, numbered from 0, each the document with its fields escaped, and the loop reads it all |
| ProcessorNdjson.RowEntriesAt | src/processor/ndjson.rs:125-127 | the `k`-th batch written is the `k`-th row, unescaped, under the name `name_entry` gives it |
| ProcessorNdjson.FeedStops | src/processor/ndjson.rs:128 | once a write has failed, the later rows change nothing |
| ProcessorNdjson.FeedStream | src/processor/ndjson.rs:128 | on standard output, the rows that fit are printed as one `{name: value}` line each; the first that does not fit ends the run with an error |
| ProcessorNdjson.FeedDirectory | src/processor/ndjson.rs:128 | in a directory whose creation fails, no row is written and any row ends the run; otherwise every row's file is written, in order |
| ProcessorNdjson.NdjsonUnbundler.constructor | src/processor/ndjson.rs:69-79 | the unbundler holds the given reader, sink and fields |
| ProcessorNdjson.NdjsonUnbundler.UnescapeFields | src/processor/ndjson.rs:139-148 | each configured field that resolves is replaced by its unescaped form |
| ProcessorNdjson.NdjsonUnbundler.Unbundle | src/processor/ndjson.rs:89-137 | with a poisoned lock nothing happens and the result is `Ok`; otherwise the medium is as after writing the rows in order as one-entry batches; `Ok` exactly when every write succeeds, having read to the stop; on a failed write, the input stops just past that row's line |
| ProcessorNdjson.NdjsonUnbundler.ReadLoop | src/processor/ndjson.rs:122-135 | the loop reads to its stop with every row written, or ends at the first failed write |
| ProcessorNdjson.NdjsonUnbundler.Turn | src/processor/ndjson.rs:123-134 | one read, then a write when the line parses; the reading moves on and only a failing write ends the loop |
| ProcessorNdjson.NdjsonUnbundler.WriteNext | src/processor/ndjson.rs:125-129 | the row is unescaped, named and written; the medium is then as after the first `done + 1` writes |
| ProcessorNdjson.NdjsonUnbundler.ReadRow | src/processor/ndjson.rs:123-124 | one read and parse, consistent with `Rows` and `StopAt`, leaving the sink's settings alone |
| ProcessorNdjson.NdjsonUnbundler.WriteRow | src/processor/ndjson.rs:128 | `write_entries` of one row's batch has exactly the effect `RowWrite` gives |
| NdjsonLegacy.AppendLog.Append | src/ndjson.rs:56 | an append records the value while there is room and is refused otherwise |
| NdjsonLegacy.Settled | src/ndjson.rs:50-58 | the values appended are a prefix of those planned, bounded by the room; `Ok` exactly when all fit and no error stopped the run |
| NdjsonLegacy.Bundle | src/ndjson.rs:13-35 | a directory output is refused before anything else, then a file or standard-input source; nothing is appended then; a directory source is read to the output |
| NdjsonLegacy.ReadDirectoryToOutput | src/ndjson.rs:48-60 | the run over the listing, or the listing's error, with the appended values recorded |
| NdjsonLegacy.AppendItems | src/ndjson.rs:50-58 | the loop appends what the run plans, up to the first error or refused append, whose error it returns |
| NdjsonLegacy.PlannedPrefix | src/ndjson.rs:50-58 | the run over a prefix of the listing starts the run over all of it, and a stopped run stays stopped |
| NdjsonLegacy.PlannedClean | src/ndjson.rs:50-58 | a run ends without error if and only if every item was listed and every `.json` file read and parsed |
| NdjsonLegacy.PlannedFailed | src/ndjson.rs:51-55 | a run that fails names an item that failed |
| NdjsonLegacy.PlannedComplete | src/ndjson.rs:53-56 | a clean run appends the parsed text of every `.json` file, in listing order, and nothing else |
| NdjsonLegacy.Unbundle | src/ndjson.rs:70-128 | a file output is refused and nothing changes; a missing directory is created first, and a failure there is returned; then the line loop has the effect `LinesAfter` specifies |
| NdjsonLegacy.WriteLines | src/ndjson.rs:117-127 | the line loop's effect on the files, standard output and the unread input is the one `LinesAfter` specifies |
| NdjsonLegacy.LinesSettled | src/ndjson.rs:117-127 | where the loop stops, its effect is the one `LinesAfter` specifies |
| NdjsonLegacy.LineLoop | src/ndjson.rs:117-126 | reads to the stop with every row written, or ends with the panic of a failed print |
| NdjsonLegacy.Turn | src/ndjson.rs:118-125 | one read, then `write_json` when the line parses; only a panicking print ends the loop |
| NdjsonLegacy.WriteNextRow | src/ndjson.rs:120 | one row through `write_json`; the medium is then as after the first `done + 1` rows |
| NdjsonLegacy.EmitStops | src/ndjson.rs:112-113 | after a panic, later rows change nothing |
| NdjsonLegacy.EmitDirectory | src/ndjson.rs:106-111 | into a directory, every row's file is written, in order, and nothing panics |
| NdjsonLegacy.EmitStream | src/ndjson.rs:112-113 | on standard output, the rows that fit are printed in order, and the first that does not fit panics |
| NdjsonLegacy.EmitStreamPanics | src/ndjson.rs:112-113 | the row that panics is the first past the room there was, and later rows change nothing |
| NdjsonLegacy.WriteJson | src/ndjson.rs:96-115 | into a directory, `<path>/<name>.json` is written and a failure ignored; on standard output, the value and a line break are printed, and a refused print panics |
| NdjsonLegacy.RowNameFromString | src/ndjson.rs:98-104 | the name is the string at the single name path, as in the newer naming |
| NdjsonLegacy.RowNameNonString | src/ndjson.rs:99-103 | a non-string value at the name path gives the default name here, where the newer engine gives "" |
| NdjsonLegacy.RowsIncreasing | src/ndjson.rs:118-125 | rows come in strictly increasing line order |
| NdjsonLegacy.UnbundleDefaultNames | src/ndjson.rs:97-108 | without a name path, every row of a directory unbundle lands in its own `object-NNNNNN.json`, holding that row's value |
| NdjsonLegacy.PrintedConcat | src/ndjson.rs:112-113 | printing two batches one after the other is printing them as one |

## Left out

- Concurrency. The `Arc`, `RwLock` and `Mutex` wrappers and rayon's `par_drain`/`for_each` are modelled sequentially. A poisoned standard-input mutex is the `poisoned` flag. A poisoned output `RwLock` (`read().unwrap()`) is not modelled.
- `split`'s order: its result is a multiset because `par_drain` fixes no order.
- The directory sink's order: it writes in entry order; `OutputDir.WriteFilesOrder` shows that with distinct keys the order does not matter.
- serde_json's text codec: it is not modelled character by character. Parsing, compact and pretty serialisation are parameters. The laws used (`parse("")` is end of input; parsing the compact text, with or without a line break, gives the value back) are preconditions of the lemmas that need them.
- Which parse failures serde_json classes as end of input is a parameter (the `Eof` answer).
- JSON numbers are integers; floating point is not modelled.
- The regex crate is a parameter: whether a pattern compiles and whether it matches a key.
- Logging (`log::info!`, `log::error!`, `log::debug!`) is not modelled; it has no effect on results.
- The wording of io and serde errors is not modelled. A failed read, parse or open is `Failure` with a fixed message, and a refused append in the older engine is "Cannot append to output".
- `{path:?}` in "Cannot unbundle to a file" is the path between double quotes; Rust's Debug escaping of characters inside the path is not modelled.
- `is_dir`, `exists` and `extension().is_none()` in the argument classifiers are boolean inputs; no real filesystem is probed.
- The outcome of `InputFile::new` is an input to `Input.ReaderFromStr`. `src/output/file.rs` (`FileOutput`) and the `InputFile` struct are not part of this model; `from_str` records a file output or reader by its path only.
- Path normalisation is not modelled. `PathBuf::push`/`join` is one '/' between directory and name (or none after a trailing '/'). An absolute name pushed onto a directory is not treated specially.
- Serialisation failures of `to_writer` and partial writes are not modelled. A write to standard output is accepted whole while `room` lasts and refused after. The older engine's `println!` prints the value and its line break as one write.
- OutputStream.StreamOutput.Append: the serialised value and its line break are one write to standard output, and a refused write is the `Err` that `to_writer(...)?` returns. The source writes the line break with a separate `println!()` (src/output/stream.rs:23), which panics instead when that second write fails. The model does not tell the two apart.
- OutputStream.StreamOutput.WriteEntries: each entry's line is one write, and a refused write ends the batch with `to_writer`'s error. The source's separate `println!()` after each entry (src/output/stream.rs:48) would panic on its own failure, and that value-written-but-no-line-break state is not modelled.
- `read_to_string` followed by `from_str` in `src/ndjson.rs` is read as the same abstract file parse as `read_object`.
- The older engine's `Input` and `Output` enums and `Output::append`/`write` are imported from a crate module that is not part of this model. They are modelled from their use in `src/ndjson.rs`: `Output::append` is an `AppendLog` of the appended values with a room bound, and `Output::write` is a file write.
- `src/output/stream.rs` implements traits named `FileAndStdOut` and `AllOutputs`, and `src/output/directory.rs` puts `append` on `Writeable`. Each file is modelled as written, and `Output.Writable` dispatches to the two sinks.
- The in-place `sort_by` is modelled on values, as `EntrySort.SortByName` applied to the collected sequence (a stable insertion sort).
- The `Serde` value's functions are pure, so serialising a value cannot fail.
- `main.rs` (argument parsing, logger set-up) and the module files `lib.rs` and `processor.rs` hold no logic of the core and are not modelled.
- Naming in `NdjsonUnbundler::unbundle` (src/processor/ndjson.rs:107-112): the record is named from the first name path that resolves to any value, and it is named "" when that value is not a string; later paths are not tried (`ProcessorNdjson.NameFromFirstResolving`). The older engine (src/ndjson.rs:99-103) falls back to the default `object-NNNNNN` name in that case instead (`NdjsonLegacy.RowNameNonString`).
- ProcessorNdjson.EscapeFieldRoundTrip: proved for one configured field whose value is not a string and whose compact text holds no `\"`. A string field is escaped as itself and then parsed on unescape, so it does not round-trip.
