/** Filesystem paths as sequences of components; `dir / name` appends one component. */
module Paths {

  datatype Path = Path(parts: seq<string>)

  /** `dir / name` for a single file name. */
  function Join(dir: Path, name: string): (p: Path)
    ensures |p.parts| == |dir.parts| + 1
    ensures p.parts[..|dir.parts|] == dir.parts && p.parts[|dir.parts|] == name
  {
    Path(dir.parts + [name])
  }

  /** Two joined paths are equal exactly when their directories and their names are. */
  lemma JoinInjective(d1: Path, n1: string, d2: Path, n2: string)
    ensures Join(d1, n1) == Join(d2, n2) <==> d1 == d2 && n1 == n2
  {
    if Join(d1, n1) == Join(d2, n2) {
      var p := Join(d1, n1).parts;
      assert |d1.parts| == |d2.parts|;
      assert d1.parts == p[..|d1.parts|] == d2.parts;
    }
  }
}
