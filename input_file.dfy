/** Reading JSON documents from files: one file as one value, and a whole
    directory as named entries, one per listed file, named by its file stem. */
module InputFile {
  import opened Wrappers
  import opened Json
  import opened Paths
  import opened Io
  import opened EntrySort

  /** `read_object`: open a file and parse all of its text as one JSON value. */
  function ReadObject(disk: Disk, path: Path, serde: Serde): Result<Value>
  {
    match ReadToString(disk, path)
    case Err(e) => Err(e)
    case Ok(text) =>
      (match serde.parse(text)
        case Parsed(v) => Ok(v)
        case _ => Err(Failure("Invalid JSON in " + path)))
  }

  /** `read_hashmap`: as `ReadObject`, but only a JSON object is accepted. */
  function ReadHashmap(disk: Disk, path: Path, serde: Serde): Result<map<string, Value>>
  {
    match ReadObject(disk, path, serde)
    case Err(e) => Err(e)
    case Ok(v) => if v.Object? then Ok(v.fields) else Err(Failure("Expected a JSON object in " + path))
  }

  /** The names of the items that were listed without error, in iteration order. */
  function ListedNames(items: seq<DirItem>): (ns: seq<string>)
    ensures |ns| <= |items|
  {
    if items == [] then []
    else ListedNames(items[..|items| - 1]) + (if items[|items| - 1].Listed? then [items[|items| - 1].name] else [])
  }

  /** The entry a file gives: its parsed contents under its file stem; a path
      with no stem panics on `unwrap`. */
  function EntryAt(disk: Disk, path: Path, serde: Serde): Result<Entry>
  {
    match ReadObject(disk, path, serde)
    case Err(e) => Err(e)
    case Ok(v) =>
      (match FileStem(path)
        case None => Err(Panic("called `Option::unwrap()` on a `None` value"))
        case Some(stem) => Ok((stem, v)))
  }

  /** The entry one listed name contributes: the entry of its path in `dir`. */
  function EntryFor(disk: Disk, dir: Path, name: string, serde: Serde): Result<Entry>
  {
    EntryAt(disk, JoinPath(dir, name), serde)
  }

  /** The loop over the listing: errored items are skipped, and the first listed
      file that cannot be read ends the whole scan with its error. */
  function Scan(disk: Disk, dir: Path, items: seq<DirItem>, serde: Serde): Result<seq<Entry>>
  {
    if items == [] then Ok([])
    else match Scan(disk, dir, items[..|items| - 1], serde)
      case Err(e) => Err(e)
      case Ok(es) =>
        var it := items[|items| - 1];
        if it.Unlisted? then Ok(es)
        else match EntryFor(disk, dir, it.name, serde)
          case Err(e) => Err(e)
          case Ok(entry) => Ok(es + [entry])
  }

  /** What `read_entries_from_directory` returns. */
  function ReadEntries(disk: Disk, dir: Path, sort: bool, serde: Serde): Result<seq<Entry>>
  {
    match ReadDir(disk, dir)
    case Err(e) => Err(e)
    case Ok(items) =>
      (match Scan(disk, dir, items, serde)
        case Err(e) => Err(e)
        case Ok(es) => Ok(if sort then SortByName(es) else es))
  }

  /** `read_entries_from_directory`: list `dir`, read each listed file in turn, then
      sort by name when asked. */
  method ReadEntriesFromDirectory(disk: Disk, dir: Path, sort: bool, serde: Serde)
    returns (r: Result<seq<Entry>>)
    ensures r == ReadEntries(disk, dir, sort, serde)
  {
    var listing := ReadDir(disk, dir);
    if listing.Err? {
      return Err(listing.error);
    }
    var items := listing.value;
    var entries: seq<Entry> := [];
    for i := 0 to |items|
      invariant Scan(disk, dir, items[..i], serde) == Ok(entries)
    {
      assert items[..i + 1][..i] == items[..i];
      if items[i].Listed? {
        var entry := EntryFor(disk, dir, items[i].name, serde);
        if entry.Err? {
          ScanStopsAtError(disk, dir, items, i + 1, serde);
          return Err(entry.error);
        }
        entries := entries + [entry.value];
      }
    }
    assert items[..|items|] == items;
    if sort {
      entries := SortByName(entries);
    }
    r := Ok(entries);
  }

  // ---------------------------------------------------------------------
  // the scan

  /** Once the scan has failed, later items do not matter. */
  lemma {:induction false} ScanStopsAtError(disk: Disk, dir: Path, items: seq<DirItem>, k: nat, serde: Serde)
    requires k <= |items| && Scan(disk, dir, items[..k], serde).Err?
    ensures Scan(disk, dir, items, serde) == Scan(disk, dir, items[..k], serde)
    decreases |items| - k
  {
    if k < |items| {
      var p := items[..k + 1];
      assert p[..|p| - 1] == items[..k];
      ScanStopsAtError(disk, dir, items, k + 1, serde);
    } else {
      assert items[..k] == items;
    }
  }

  /** A successful scan has one entry per listed name, in listing order: named by the
      stem of that file's path and holding its parsed contents. */
  lemma {:induction false} ScanEntries(disk: Disk, dir: Path, items: seq<DirItem>, serde: Serde)
    requires Scan(disk, dir, items, serde).Ok?
    ensures var es := Scan(disk, dir, items, serde).value;
            var ns := ListedNames(items);
            |es| == |ns| &&
            forall k :: 0 <= k < |es| ==> EntryFor(disk, dir, ns[k], serde) == Ok(es[k])
  {
    if items != [] {
      ScanEntries(disk, dir, items[..|items| - 1], serde);
    }
  }

  /** A failed scan names a listed file that cannot be read, parsed or named. */
  lemma {:induction false} ScanFailureWitness(disk: Disk, dir: Path, items: seq<DirItem>, serde: Serde)
    requires Scan(disk, dir, items, serde).Err?
    ensures exists k :: 0 <= k < |ListedNames(items)| && EntryFor(disk, dir, ListedNames(items)[k], serde).Err?
  {
    var init := items[..|items| - 1];
    var last := items[|items| - 1];
    var ns := ListedNames(items);
    var ms := ListedNames(init);
    assert ns == ms + (if last.Listed? then [last.name] else []);
    if Scan(disk, dir, init, serde).Err? {
      ScanFailureWitness(disk, dir, init, serde);
      var k :| 0 <= k < |ms| && EntryFor(disk, dir, ms[k], serde).Err?;
      assert ns[k] == ms[k];
    } else {
      assert ns[|ms|] == last.name;
    }
  }

  /** The scan fails exactly when some listed file cannot be read, parsed or named. */
  lemma ScanFails(disk: Disk, dir: Path, items: seq<DirItem>, serde: Serde)
    ensures Scan(disk, dir, items, serde).Err? <==>
              exists k :: 0 <= k < |ListedNames(items)| && EntryFor(disk, dir, ListedNames(items)[k], serde).Err?
  {
    if Scan(disk, dir, items, serde).Err? {
      ScanFailureWitness(disk, dir, items, serde);
    } else {
      ScanEntries(disk, dir, items, serde);
    }
  }

  /** Each listed file is read from its path in `dir`, and a listed name's entry is
      named by the name's own stem. */
  lemma EntryForProperName(disk: Disk, dir: Path, name: string, serde: Serde)
    requires ProperName(name)
    ensures EntryFor(disk, dir, name, serde).Ok? <==> ReadObject(disk, JoinPath(dir, name), serde).Ok?
    ensures EntryFor(disk, dir, name, serde).Ok? ==>
              EntryFor(disk, dir, name, serde).value == (Stem(name), ReadObject(disk, JoinPath(dir, name), serde).value)
  {
    FileNameOfJoin(dir, name);
  }

  /** A file is read as a value exactly when it exists and parses. */
  lemma ReadObjectOk(disk: Disk, path: Path, serde: Serde)
    ensures ReadObject(disk, path, serde).Ok? <==> path in disk.contents && serde.parse(disk.contents[path]).Parsed?
    ensures ReadObject(disk, path, serde).Ok? ==> ReadObject(disk, path, serde).value == serde.parse(disk.contents[path]).value
  {
  }

  /** `read_hashmap` accepts exactly the files `read_object` reads as an object. */
  lemma ReadHashmapObject(disk: Disk, path: Path, serde: Serde, m: map<string, Value>)
    ensures ReadHashmap(disk, path, serde) == Ok(m) <==> ReadObject(disk, path, serde) == Ok(Object(m))
  {
  }

  // ---------------------------------------------------------------------
  // the whole read

  /** Sorting does not change whether the read succeeds; a sorted read is the
      unsorted one in ascending, stable name order. */
  lemma ReadEntriesSorted(disk: Disk, dir: Path, serde: Serde, n: string)
    ensures ReadEntries(disk, dir, true, serde).Ok? <==> ReadEntries(disk, dir, false, serde).Ok?
    ensures ReadEntries(disk, dir, true, serde).Ok? ==>
              var s := ReadEntries(disk, dir, true, serde).value;
              var u := ReadEntries(disk, dir, false, serde).value;
              Sorted(s) && multiset(s) == multiset(u) && Named(s, n) == Named(u, n)
  {
    if ReadEntries(disk, dir, false, serde).Ok? {
      var u := ReadEntries(disk, dir, false, serde).value;
      SortByNameSorted(u);
      SortByNamePermutes(u);
      SortByNameStable(u, n);
    }
  }

  /** The read fails exactly when the directory cannot be listed or some listed
      file cannot be read, parsed or named; sorting plays no part. */
  lemma ReadEntriesFails(disk: Disk, dir: Path, sort: bool, serde: Serde)
    ensures ReadEntries(disk, dir, sort, serde).Err? <==>
              dir !in disk.listings ||
              exists k :: 0 <= k < |ListedNames(disk.listings[dir])| &&
                          EntryFor(disk, dir, ListedNames(disk.listings[dir])[k], serde).Err?
  {
    if dir in disk.listings {
      ScanFails(disk, dir, disk.listings[dir], serde);
    }
  }

  /** Without sorting, a successful read has one entry per listed item, in listing
      order, each named by the stem of its listed name. */
  lemma ReadEntriesUnsorted(disk: Disk, dir: Path, serde: Serde)
    requires dir in disk.listings && ReadEntries(disk, dir, false, serde).Ok?
    requires forall it :: it in disk.listings[dir] && it.Listed? ==> ProperName(it.name)
    ensures var es := ReadEntries(disk, dir, false, serde).value;
            var ns := ListedNames(disk.listings[dir]);
            |es| == |ns| && forall k :: 0 <= k < |es| ==> es[k].0 == Stem(ns[k])
  {
    var items := disk.listings[dir];
    ScanEntries(disk, dir, items, serde);
    var ns := ListedNames(items);
    forall k | 0 <= k < |ns| ensures ProperName(ns[k]) {
      ListedNamesListed(items, k);
    }
    forall k | 0 <= k < |ns| ensures EntryFor(disk, dir, ns[k], serde).value.0 == Stem(ns[k]) {
      EntryForProperName(disk, dir, ns[k], serde);
    }
  }

  /** Every listed name comes from a listed item. */
  lemma {:induction false} ListedNamesListed(items: seq<DirItem>, k: nat)
    requires k < |ListedNames(items)|
    ensures Listed(ListedNames(items)[k]) in items
  {
    var init := items[..|items| - 1];
    if k < |ListedNames(init)| {
      ListedNamesListed(init, k);
    }
  }
}
