/** The parts of a file path the core reads: `Path(p).name` and `Path(p).suffix`. */
module Paths {
  /** Python `s.rfind(c)` for one character. */
  function LastIndexOf(s: string, c: char): (r: int)
    ensures -1 <= r < |s|
    ensures r >= 0 ==> s[r] == c
    ensures forall k :: r < k < |s| ==> s[k] != c
  {
    if s == [] then -1
    else if s[|s| - 1] == c then |s| - 1
    else LastIndexOf(s[..|s| - 1], c)
  }

  /** `os.path.basename(p)`, also used for `Path(p).name`: the text after the last '/'. */
  function BaseName(p: string): (r: string)
    ensures '/' !in r
    ensures |r| <= |p| && p[|p| - |r|..] == r
  {
    p[LastIndexOf(p, '/') + 1..]
  }

  /** A name placed in a directory is read back by `BaseName`. */
  lemma BaseNameJoin(dir: string, name: string)
    requires '/' !in name
    ensures BaseName(dir + "/" + name) == name
  {
    var p := dir + "/" + name;
    assert p[|dir|] == '/';
    assert forall k :: |dir| < k < |p| ==> p[k] == name[k - |dir| - 1];
    assert LastIndexOf(p, '/') == |dir|;
    assert p[|dir| + 1..] == name;
  }

  /**
   * `Path(name).suffix`: from the last '.' on, when that dot is neither the
   * first nor the last character of the name; otherwise empty.
   */
  function Suffix(name: string): (r: string)
    ensures r == [] || (r[0] == '.' && '.' !in r[1..] && |r| >= 2)
  {
    var i := LastIndexOf(name, '.');
    if 0 < i < |name| - 1 then name[i..] else ""
  }

  /** A non-empty stem followed by `.ext` has suffix `.ext`. */
  lemma SuffixOf(stem: string, ext: string)
    requires stem != [] && ext != [] && '.' !in ext
    ensures Suffix(stem + "." + ext) == "." + ext
  {
    var name := stem + "." + ext;
    assert name[|stem|] == '.';
    assert forall k :: |stem| < k < |name| ==> name[k] == ext[k - |stem| - 1];
    assert LastIndexOf(name, '.') == |stem|;
    assert name[|stem|..] == "." + ext;
  }
}
