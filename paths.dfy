/**
 * `PathBuf` as the sequence of its components. Roots and `..` are ordinary
 * components here; nothing is normalised, as `PathBuf` does not normalise.
 */
module Paths {

  type Path = seq<string>

  /** `PathBuf::push` of one component: pushing `""` leaves the components as they were. */
  function Push(p: Path, c: string): (r: Path)
    requires '/' !in c
    ensures c == "" ==> r == p
    ensures c != "" ==> |r| == |p| + 1 && r[..|p|] == p && r[|p|] == c
  {
    if c == "" then p else p + [c]
  }

  /** `PathBuf::pop`: drop the last component, if there is one. */
  function Parent(p: Path): (r: Path)
    ensures p != [] ==> r + [p[|p| - 1]] == p
    ensures p == [] ==> r == []
  {
    if p == [] then p else p[..|p| - 1]
  }

  /** `Path::file_name`: the last component. */
  function FileName(p: Path): (r: string)
    ensures p != [] ==> r == p[|p| - 1]
  {
    if p == [] then "" else p[|p| - 1]
  }

  predicate IsPrefix(p: Path, q: Path) {
    |p| <= |q| && q[..|p|] == p
  }
}
