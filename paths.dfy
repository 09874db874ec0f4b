/** The two `Path` operations the handler and the generator use:
    `parent()` and `join()`, on the path syntax of each platform. */
module Paths {
  import opened Wrappers

  datatype Os = Windows | Unix

  /** Windows accepts both slashes as separators; Unix only `/`. */
  predicate IsSeparator(os: Os, c: char) {
    c == '/' || (os == Windows && c == '\\')
  }

  /** The separator `join` inserts. */
  function Separator(os: Os): (c: char)
    ensures IsSeparator(os, c)
  {
    if os == Windows then '\\' else '/'
  }

  /** The position of the last separator of `p`. */
  function LastSeparator(os: Os, p: string): (r: Option<nat>)
    ensures r.Some? ==> r.value < |p| && IsSeparator(os, p[r.value])
    ensures r.Some? ==> forall i :: r.value < i < |p| ==> !IsSeparator(os, p[i])
    ensures r.None? ==> forall i :: 0 <= i < |p| ==> !IsSeparator(os, p[i])
    decreases |p|
  {
    if |p| == 0 then None
    else if IsSeparator(os, p[|p| - 1]) then Some(|p| - 1)
    else LastSeparator(os, p[..|p| - 1])
  }

  /** `Path::parent` for a path that ends in a file name: everything
      before the last separator; None for the empty path and for a lone
      root separator. A bare file name has the empty path as its parent.
      Windows prefixes such as `C:` and trailing separators are not
      treated specially. */
  function ParentDir(os: Os, p: string): (r: Option<string>)
    ensures r.None? <==> p == "" || (|p| == 1 && IsSeparator(os, p[0]))
    ensures r.Some? ==> |r.value| < |p| && r.value == p[..|r.value|]
  {
    match LastSeparator(os, p)
    case None => if p == "" then None else Some("")
    case Some(i) =>
      if i == 0 then (if |p| == 1 then None else Some(p[..1]))
      else Some(p[..i])
  }

  /** `Path::join` with a relative path: a separator is put between the two
      unless `base` is empty or already ends with one. */
  function Join(os: Os, base: string, name: string): (r: string)
    ensures base == "" ==> r == name
    ensures base != "" && IsSeparator(os, base[|base| - 1]) ==> r == base + name
    ensures base != "" && !IsSeparator(os, base[|base| - 1]) ==> r == base + [Separator(os)] + name
  {
    if base == "" then name
    else if IsSeparator(os, base[|base| - 1]) then base + name
    else base + [Separator(os)] + name
  }

  /** A file `name` inside a directory `dir`: `parent` gives the directory
      back, and joining another name to it gives the sibling file. */
  lemma {:induction false} ParentOfJoin(os: Os, dir: string, name: string, other: string)
    requires dir != "" && !IsSeparator(os, dir[|dir| - 1])
    requires name != "" && forall i :: 0 <= i < |name| ==> !IsSeparator(os, name[i])
    ensures ParentDir(os, Join(os, dir, name)) == Some(dir)
    ensures Join(os, dir, other) == dir + [Separator(os)] + other
  {
    var p := Join(os, dir, name);
    assert p == dir + [Separator(os)] + name;
    var k := |dir|;
    assert IsSeparator(os, p[k]);
    forall i | k < i < |p| ensures !IsSeparator(os, p[i]) {
      assert p[i] == name[i - k - 1];
    }
    LastSeparatorIs(os, p, k);
    assert p[..k] == dir;
  }

  lemma {:induction false} LastSeparatorIs(os: Os, p: string, k: nat)
    requires k < |p| && IsSeparator(os, p[k])
    requires forall i :: k < i < |p| ==> !IsSeparator(os, p[i])
    ensures LastSeparator(os, p) == Some(k)
    decreases |p|
  {
    if k < |p| - 1 {
      var q := p[..|p| - 1];
      assert forall i :: k < i < |q| ==> q[i] == p[i];
      LastSeparatorIs(os, q, k);
    }
  }
}
