/**
 * Paths as the file operations treat them: absolute strings with `/` between
 * components, already resolved. `Path.name`, `.parent`, `.stem`, `.suffix` and
 * `/` are modelled on such strings, and `_validate_path`'s containment test is
 * the plain string prefix test it is in the source.
 */
module Paths {
  import opened Wrappers
  import opened Text

  /** `p` is `root` itself or lies beneath it; every absolute path lies beneath "/". */
  predicate Under(root: string, p: string) {
    p == root || (|p| > |root| && p[..|root|] == root && (root == "/" || p[|root|] == '/'))
  }

  /** Everything beneath something beneath `a` is beneath `a`. */
  lemma UnderTransitive(a: string, b: string, c: string)
    requires Under(a, b) && Under(b, c)
    ensures Under(a, c)
  {
    if b != a && c != b {
      assert c[..|b|][..|a|] == c[..|a|];
      assert c[|a|] == c[..|b|][|a|];
    }
  }

  /** The position of the last `/` in `p`, if any. */
  function LastSlash(p: string): (r: Option<nat>)
    ensures r.Some? ==> r.value < |p| && p[r.value] == '/' && '/' !in p[r.value + 1..]
    ensures r.None? ==> '/' !in p
  {
    if p == [] then None
    else if p[|p| - 1] == '/' then Some(|p| - 1)
    else
      var r := LastSlash(p[..|p| - 1]);
      assert p == p[..|p| - 1] + [p[|p| - 1]];
      if r.Some? then
        assert p[r.value + 1..] == p[..|p| - 1][r.value + 1..] + [p[|p| - 1]];
        r
      else r
  }

  /** `Path(p).name`: the last component. */
  function Name(p: string): (r: string)
    ensures '/' !in r
  {
    match LastSlash(p)
    case None => p
    case Some(i) => p[i + 1..]
  }

  /** `Path(p).parent`, as a string: "/" for a top-level path, "." for a bare name. */
  function Parent(p: string): string {
    match LastSlash(p)
    case None => "."
    case Some(i) => if i == 0 then "/" else p[..i]
  }

  /** `Path(dir) / name` for a name without `/`. */
  function JoinPath(dir: string, name: string): (r: string)
    ensures dir != "." && dir != "/" ==> r == dir + "/" + name
  {
    if dir == "." then name else if dir == "/" then "/" + name else dir + "/" + name
  }

  /**
   * `Path(dir) / name` for any name: an empty or "." name leaves `dir`, a name
   * starting with `/` replaces it, and any other name is joined beneath it.
   */
  function Slash(dir: string, name: string): string {
    if name == "" || name == "." then dir else if name[0] == '/' then name else JoinPath(dir, name)
  }

  /** A name joined to a directory lies beneath it. */
  lemma JoinUnder(dir: string, name: string)
    requires dir != "." && name != []
    ensures Under(dir, JoinPath(dir, name))
  {
    var r := JoinPath(dir, name);
    if dir != "/" {
      assert r[..|dir|] == dir && r[|dir|] == '/';
    } else {
      assert r[..1] == "/";
    }
  }

  /** Where `.suffix` starts in a name: at its last dot, unless that is the first or the last character. */
  function DotIndex(name: string): (r: Option<nat>)
    ensures r.Some? ==> 0 < r.value < |name| - 1 && name[r.value] == '.' && '.' !in name[r.value + 1..]
  {
    LastDot(name, |name|)
  }

  function LastDot(name: string, n: nat): (r: Option<nat>)
    requires n <= |name|
    ensures r.Some? ==> 0 < r.value < |name| - 1 && name[r.value] == '.' && '.' !in name[r.value + 1..]
    ensures r.None? ==> forall j :: 1 <= j < |name| - 1 && j < n ==> name[j] != '.' || '.' in name[j + 1..]
    decreases n
  {
    if n == 0 then None
    else if name[n - 1] == '.' && '.' !in name[n..] then
      if 0 < n - 1 < |name| - 1 then Some(n - 1) else None
    else LastDot(name, n - 1)
  }

  /** `Path(p).suffix`. */
  function Suffix(name: string): string {
    match DotIndex(name)
    case None => ""
    case Some(i) => name[i..]
  }

  /** `Path(p).stem`. */
  function Stem(name: string): string {
    match DotIndex(name)
    case None => name
    case Some(i) => name[..i]
  }

  /** A name is its stem followed by its suffix. */
  lemma StemSuffix(name: string)
    ensures Stem(name) + Suffix(name) == name
  {
  }

  /** The message `_validate_path` raises. */
  function OutsideMessage(path: string): string {
    "Path " + path + " is outside storage root"
  }

  /**
   * `_validate_path`: `resolve` stands for `Path.resolve()` and `root` for the
   * resolved storage root; a path passes exactly when its resolved string
   * starts with the root's.
   */
  function ValidatePath(path: string, resolve: string -> string, root: string): (r: Result<string>)
    ensures r.Ok? <==> StartsWith(resolve(path), root)
    ensures r.Ok? ==> r.value == resolve(path)
    ensures r.Err? ==> r.error == OutsideMessage(path) && Contains(r.error, "outside storage root")
  {
    if StartsWith(resolve(path), root) then Ok(resolve(path))
    else
      OutsideContains(path);
      Err(OutsideMessage(path))
  }

  lemma OutsideContains(path: string)
    ensures Contains(OutsideMessage(path), "outside storage root")
  {
    var m := OutsideMessage(path);
    var i := |"Path " + path + " is "|;
    assert m[i..] == "outside storage root";
    assert StartsWith(m[i..], "outside storage root");
  }

  /** Every path beneath the root passes. */
  lemma UnderRootPasses(path: string, resolve: string -> string, root: string)
    requires Under(root, resolve(path))
    ensures ValidatePath(path, resolve, root).Ok?
  {
  }

  /**
   * The test is on strings, not components: a sibling whose name extends the
   * root's passes too.
   */
  lemma SiblingPasses()
    ensures ValidatePath("/storage-other/file.txt", p => p, "/storage").Ok?
    ensures !Under("/storage", "/storage-other/file.txt")
  {
    assert "/storage-other/file.txt"[..|"/storage"|] == "/storage";
    assert "/storage-other/file.txt"[|"/storage"|] == '-';
  }
}
