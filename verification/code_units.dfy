/** The record the indexer emits for every function, method, class and whole file. */
module CodeUnits {
  import opened Wrappers
  import opened Text

  /** The `kind` field: `'function'`, `'class'` or `'file'`. */
  datatype Kind = Function | Class | File

  function KindName(k: Kind): string {
    match k
    case Function => "function"
    case Class => "class"
    case File => "file"
  }

  /**
   * `CodeUnit`: `docstring` and `signature` are Python's optional strings,
   * `calls` is the set the indexer builds with `list(set(calls))`, whose
   * order Python leaves unspecified.
   */
  datatype CodeUnit = CodeUnit(
    id: string,
    filePath: string,
    name: string,
    kind: Kind,
    startLine: int,
    endLine: int,
    code: string,
    docstring: Option<string>,
    signature: Option<string>,
    imports: seq<string>,
    calls: set<string>)

  /** `[u['id'] for u in units]`. */
  function Ids(units: seq<CodeUnit>): (r: seq<string>)
    ensures |r| == |units|
    ensures forall i :: 0 <= i < |units| ==> r[i] == units[i].id
  {
    seq(|units|, i requires 0 <= i < |units| => units[i].id)
  }

  /** The set of ids of `units`. */
  function IdSet(units: seq<CodeUnit>): set<string> {
    set u | u in units :: u.id
  }

  /** Appending a unit adds its id to both views, and keeps the ids distinct when it is new. */
  lemma AppendUnit(r: seq<CodeUnit>, u: CodeUnit)
    ensures Ids(r + [u]) == Ids(r) + [u.id]
    ensures IdSet(r + [u]) == IdSet(r) + {u.id}
    ensures u.id !in IdSet(r) && Distinct(Ids(r)) ==> Distinct(Ids(r + [u]))
  {
    assert forall x :: x in r + [u] <==> x in r || x == u;
    if u.id !in IdSet(r) && Distinct(Ids(r)) {
      forall i | 0 <= i < |r|
        ensures Ids(r)[i] != u.id
      {
        assert r[i] in r;
      }
    }
  }
}
