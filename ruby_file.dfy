/**
 * Ruby's File.basename(path) on a Unix platform, the only file-name
 * function the marshaller uses: trailing slashes are ignored, what follows
 * the last remaining slash is the base name, and a path made only of
 * slashes has the base name "/".
 */
module RubyFile {

  /** `s` with every trailing '/' removed. */
  function StripTrailingSlashes(s: string): (r: string)
    ensures |r| <= |s| && r == s[..|r|]
    ensures r == [] || r[|r| - 1] != '/'
    ensures forall i :: |r| <= i < |s| ==> s[i] == '/'
  {
    if s != [] && s[|s| - 1] == '/' then StripTrailingSlashes(s[..|s| - 1]) else s
  }

  /** The part of `s` after its last '/', or all of `s` if it has none. */
  function AfterLastSlash(s: string): (r: string)
    ensures '/' !in r
    ensures |r| <= |s| && r == s[|s| - |r|..]
    ensures |r| < |s| ==> s[|s| - |r| - 1] == '/'
  {
    if s == [] then []
    else if s[|s| - 1] == '/' then []
    else AfterLastSlash(s[..|s| - 1]) + [s[|s| - 1]]
  }

  /**
   * `name` is the last component of `path`: it occurs at position `k`,
   * right after a '/' or at the start, and only slashes follow it.
   */
  predicate LastComponentAt(path: string, name: string, k: int)
  {
    0 <= k && k + |name| <= |path| && path[k..k + |name|] == name &&
    (k == 0 || path[k - 1] == '/') &&
    (forall i :: k + |name| <= i < |path| ==> path[i] == '/')
  }

  /** File.basename(path). */
  function Basename(path: string): (r: string)
    ensures '/' !in r || r == "/"
    ensures r == [] <==> path == []
    ensures r == "/" ==> forall i :: 0 <= i < |path| ==> path[i] == '/'
    ensures path != [] && r != "/" ==> exists k :: LastComponentAt(path, r, k)
  {
    var stripped := StripTrailingSlashes(path);
    if stripped == [] then (if path == [] then "" else "/")
    else
      var r := AfterLastSlash(stripped);
      var k := |stripped| - |r|;
      assert path[k..k + |r|] == stripped[k..] == r;
      assert LastComponentAt(path, r, k);
      r
  }

  /** The last component of `dir + "/" + name` is `name`, whatever `dir` is. */
  lemma {:induction false} AfterLastSlashOfJoin(dir: string, name: string)
    requires '/' !in name
    ensures AfterLastSlash(dir + "/" + name) == name
  {
    var s := dir + "/" + name;
    if name == [] {
      assert s[|s| - 1] == '/';
    } else {
      var last := name[|name| - 1];
      assert s[|s| - 1] == last;
      assert s[..|s| - 1] == dir + "/" + name[..|name| - 1];
      assert name == name[..|name| - 1] + [last];
      AfterLastSlashOfJoin(dir, name[..|name| - 1]);
    }
  }

  /** A file named `name` in directory `dir` has base name `name`. */
  lemma BasenameOfJoin(dir: string, name: string)
    requires name != [] && '/' !in name
    ensures Basename(dir + "/" + name) == name
  {
    var s := dir + "/" + name;
    assert s[|s| - 1] == name[|name| - 1];
    assert StripTrailingSlashes(s) == s;
    AfterLastSlashOfJoin(dir, name);
  }
}
