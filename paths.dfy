/** The parts of `std::path` the program relies on: joining a file name onto a
    directory, the last component of a path, and its split into stem and extension. */
module Paths {
  import opened Wrappers

  type Path = string

  /** `dir.join(name)` / `push(name)` for a relative `name`: one '/' between the two. */
  function JoinPath(dir: Path, name: string): (p: Path)
    ensures |p| >= |name| && p[|p| - |name|..] == name
  {
    if dir == [] then name
    else if dir[|dir| - 1] == '/' then dir + name
    else dir + "/" + name
  }

  /** The text after the last '/'. */
  function LastSegment(p: string): (seg: string)
    ensures '/' !in seg
  {
    if p == [] || p[|p| - 1] == '/' then [] else LastSegment(p[..|p| - 1]) + [p[|p| - 1]]
  }

  /** `p` without its trailing separators. */
  function TrimTrailingSlashes(p: string): string
  {
    if p != [] && p[|p| - 1] == '/' then TrimTrailingSlashes(p[..|p| - 1]) else p
  }

  /** `Path::file_name`: the last component, absent for a root, "." or "..". */
  function FileName(p: Path): Option<string>
  {
    var seg := LastSegment(TrimTrailingSlashes(p));
    if seg == [] || seg == "." || seg == ".." then None else Some(seg)
  }

  /** A name `read_dir` can list: one component, not "." or "..". */
  predicate ProperName(name: string)
  {
    name != [] && name != "." && name != ".." && '/' !in name
  }

  /** The position of the last '.' in a name. */
  function LastDot(name: string): (k: Option<nat>)
    ensures k.Some? ==> k.value < |name| && name[k.value] == '.' &&
                        forall j :: k.value < j < |name| ==> name[j] != '.'
    ensures k.None? ==> '.' !in name
  {
    if name == [] then None
    else if name[|name| - 1] == '.' then Some(|name| - 1)
    else LastDot(name[..|name| - 1])
  }

  /** `file_stem` of a file name: the text before the last '.', the whole name when
      there is no '.', when the only '.' leads the name, or for "..". */
  function Stem(name: string): string
  {
    if name == ".." then name
    else match LastDot(name)
      case None => name
      case Some(k) => if k == 0 then name else name[..k]
  }

  /** `extension` of a file name: the text after the last '.', under the same exceptions. */
  function Extension(name: string): Option<string>
  {
    if name == ".." then None
    else match LastDot(name)
      case None => None
      case Some(k) => if k == 0 then None else Some(name[k + 1..])
  }

  /** `Path::file_stem`. */
  function FileStem(p: Path): Option<string>
  {
    match FileName(p)
    case None => None
    case Some(n) => Some(Stem(n))
  }

  /** The same directory joined with different names gives different paths. */
  lemma JoinInjective(dir: Path, a: string, b: string)
    requires JoinPath(dir, a) == JoinPath(dir, b)
    ensures a == b
  {
    var p := JoinPath(dir, a);
    assert |a| == |b|;
    assert a == p[|p| - |a|..];
  }

  /** The stem, a '.', and the extension make up the name again; a name
      without an extension is its own stem. */
  lemma StemExtension(name: string)
    ensures Extension(name).Some? ==>
              Stem(name) + "." + Extension(name).value == name && '.' !in Extension(name).value
    ensures Extension(name).None? ==> Stem(name) == name
  {
    if name != ".." && LastDot(name).Some? && LastDot(name).value > 0 {
      var k := LastDot(name).value;
      assert name == name[..k] + "." + name[k + 1..];
    }
  }

  lemma {:induction false} LastSegmentOfJoin(prefix: string, name: string)
    requires '/' !in name && (prefix == [] || prefix[|prefix| - 1] == '/')
    ensures LastSegment(prefix + name) == name
    decreases |name|
  {
    if name == [] {
    } else {
      var init := name[..|name| - 1];
      LastSegmentOfJoin(prefix, init);
      assert (prefix + name)[..|prefix + name| - 1] == prefix + init;
      assert name == init + [name[|name| - 1]];
    }
  }

  /** The path of a listed name ends in that name, so its file name is the name itself. */
  lemma FileNameOfJoin(dir: Path, name: string)
    requires ProperName(name)
    ensures FileName(JoinPath(dir, name)) == Some(name)
    ensures FileStem(JoinPath(dir, name)) == Some(Stem(name))
  {
    var p := JoinPath(dir, name);
    assert p[|p| - 1] == name[|name| - 1];
    assert TrimTrailingSlashes(p) == p;
    if dir == [] {
      LastSegmentOfJoin([], name);
      assert [] + name == name;
    } else if dir[|dir| - 1] == '/' {
      LastSegmentOfJoin(dir, name);
    } else {
      LastSegmentOfJoin(dir + "/", name);
    }
  }
}
