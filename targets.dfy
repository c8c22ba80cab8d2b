/** Choosing the language client for a path: the first client class, in registration
    order, whose language configuration finds a project root above the path. */
module Targets {
  import opened Options
  import opened Paths

  /** The capability protocols a client class may implement (the lsap `*Client` classes). */
  datatype Protocol =
    | LocateClient | DefinitionClient | HoverClient | ReferenceClient
    | OutlineClient | SymbolClient | SearchClient | RenameClient

  /** A language-server client class: its name, the `kind` of its language configuration
      and the capability protocols its instances satisfy. */
  datatype ClientClass = ClientClass(name: string, kind: string, protocols: set<Protocol>)

  /** `TargetLspClient`: the project root found for a path and the class that found it. */
  datatype Target = Target(projectPath: Path, clientCls: ClientClass)

  /** The root detector of each class's language configuration (`find_project_root`). */
  type RootFinder = (ClientClass, Path) -> Option<Path>

  /** Candidate `i` is the first one whose root detector finds a root for `path`. */
  ghost predicate IsFirstMatch(candidates: seq<ClientClass>, path: Path, findRoot: RootFinder, i: int)
  {
    && 0 <= i < |candidates|
    && findRoot(candidates[i], path).Some?
    && forall j | 0 <= j < i :: findRoot(candidates[j], path).None?
  }

  /** `find_client`: a linear search that returns at the first candidate with a root. */
  function FindClient(candidates: seq<ClientClass>, path: Path, findRoot: RootFinder): (r: Option<Target>)
    ensures r.None? <==> forall j | 0 <= j < |candidates| :: findRoot(candidates[j], path).None?
    ensures r.Some? ==>
      exists i :: IsFirstMatch(candidates, path, findRoot, i)
        && r.value == Target(findRoot(candidates[i], path).value, candidates[i])
  {
    if |candidates| == 0 then None
    else match findRoot(candidates[0], path)
      case Some(root) =>
        assert IsFirstMatch(candidates, path, findRoot, 0);
        Some(Target(root, candidates[0]))
      case None =>
        FirstMatchShift(candidates, path, findRoot);
        FindClient(candidates[1..], path, findRoot)
  }

  /** When the head candidate finds no root, a first match of the tail is a first match
      of the whole sequence, one position later. */
  lemma FirstMatchShift(candidates: seq<ClientClass>, path: Path, findRoot: RootFinder)
    requires |candidates| > 0 && findRoot(candidates[0], path).None?
    ensures forall i :: IsFirstMatch(candidates[1..], path, findRoot, i) ==>
      IsFirstMatch(candidates, path, findRoot, i + 1) && candidates[1..][i] == candidates[i + 1]
  {
    forall i | IsFirstMatch(candidates[1..], path, findRoot, i)
      ensures IsFirstMatch(candidates, path, findRoot, i + 1)
    {
      assert forall j | 1 <= j <= i + 1 :: candidates[j] == candidates[1..][j - 1];
    }
  }

  /** The result is determined by the first match: its root and its class. */
  lemma {:induction false} FindClientIsFirstMatch(candidates: seq<ClientClass>, path: Path, findRoot: RootFinder, i: int)
    requires IsFirstMatch(candidates, path, findRoot, i)
    ensures FindClient(candidates, path, findRoot) == Some(Target(findRoot(candidates[i], path).value, candidates[i]))
  {
    if i > 0 {
      assert IsFirstMatch(candidates[1..], path, findRoot, i - 1);
      FindClientIsFirstMatch(candidates[1..], path, findRoot, i - 1);
    }
  }

  /** No candidate after the first match is consulted: replacing everything after it
      leaves the result unchanged. */
  lemma {:induction false} FindClientStopsAtFirstMatch(candidates: seq<ClientClass>, path: Path, findRoot: RootFinder, i: int, rest: seq<ClientClass>)
    requires IsFirstMatch(candidates, path, findRoot, i)
    ensures FindClient(candidates[..i + 1] + rest, path, findRoot) == FindClient(candidates, path, findRoot)
  {
    var other := candidates[..i + 1] + rest;
    assert IsFirstMatch(other, path, findRoot, i) by {
      assert forall j | 0 <= j <= i :: other[j] == candidates[j];
    }
    FindClientIsFirstMatch(other, path, findRoot, i);
    FindClientIsFirstMatch(candidates, path, findRoot, i);
  }

  /** The search is deterministic in the root detection: two detectors that answer alike
      for every candidate give the same result. */
  lemma {:induction false} FindClientDeterministic(candidates: seq<ClientClass>, path: Path, f: RootFinder, g: RootFinder)
    requires forall j | 0 <= j < |candidates| :: f(candidates[j], path) == g(candidates[j], path)
    ensures FindClient(candidates, path, f) == FindClient(candidates, path, g)
  {
    if |candidates| > 0 && f(candidates[0], path).None? {
      FindClientDeterministic(candidates[1..], path, f, g);
    }
  }
}
