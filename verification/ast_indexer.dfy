/**
 * Unit extraction from one Python file: a pre-order walk over the syntax
 * tree that keeps an import accumulator and the name of the class being
 * visited, and emits one `CodeUnit` per function, method and class.
 */
module AstIndexer {
  import opened Wrappers
  import opened Text
  import opened CodeUnits

  type LineNo = n: int | 1 <= n witness 1

  /**
   * The `lineno` and `end_lineno` of a definition (1-based, inclusive); a
   * definition never ends before the line it starts on.
   */
  datatype Span = Span(lineno: LineNo, endLineno: LineNo)
  type LineSpan = s: Span | s.lineno <= s.endLineno witness Span(1, 1)

  /**
   * The part of Python's syntax tree the indexer looks at. The children of a
   * definition are every node `generic_visit` reaches under it (argument
   * defaults, body statements, decorators, annotations) in that order; a
   * definition's docstring is what `ast.get_docstring` returns for it. Any
   * other statement or expression is `Other` with its child nodes.
   */
  datatype Node =
    | Module(body: seq<Node>)
    | Import(names: seq<string>)
    | ImportFrom(fromModule: Option<string>)
    | FunctionDef(isAsync: bool, name: string, span: LineSpan, docstring: Option<string>, body: seq<Node>)
    | ClassDef(name: string, span: LineSpan, docstring: Option<string>, body: seq<Node>)
    | Call(func: Node, args: seq<Node>)
    | Name(id: string)
    | Attribute(value: Node, attr: string)
    | Other(children: seq<Node>)

  function Size(n: Node): (r: nat)
    ensures r >= 1
  {
    match n
    case Module(body) => 1 + SizeAll(body)
    case Import(_) => 1
    case ImportFrom(_) => 1
    case FunctionDef(_, _, _, _, body) => 1 + SizeAll(body)
    case ClassDef(_, _, _, body) => 1 + SizeAll(body)
    case Call(f, args) => 1 + Size(f) + SizeAll(args)
    case Name(_) => 1
    case Attribute(v, _) => 1 + Size(v)
    case Other(children) => 1 + SizeAll(children)
  }

  function SizeAll(ns: seq<Node>): nat {
    if ns == [] then 0 else Size(ns[0]) + SizeAll(ns[1..])
  }

  /** `ast.iter_child_nodes`: the direct children, in field order. */
  function Children(n: Node): seq<Node> {
    match n
    case Module(body) => body
    case Import(_) => []
    case ImportFrom(_) => []
    case FunctionDef(_, _, _, _, body) => body
    case ClassDef(_, _, _, body) => body
    case Call(f, args) => [f] + args
    case Name(_) => []
    case Attribute(v, _) => [v]
    case Other(children) => children
  }

  lemma ChildrenSize(n: Node)
    ensures SizeAll(Children(n)) == Size(n) - 1
  {
    match n
    case Call(f, args) =>
      assert ([f] + args)[1..] == args;
    case Attribute(v, _) =>
      assert [v][1..] == [];
    case _ =>
  }

  lemma {:induction false} SizeAllAppend(a: seq<Node>, b: seq<Node>)
    ensures SizeAll(a + b) == SizeAll(a) + SizeAll(b)
  {
    if a == [] {
      assert a + b == b;
    } else {
      assert (a + b)[0] == a[0];
      assert (a + b)[1..] == a[1..] + b;
      SizeAllAppend(a[1..], b);
    }
  }

  lemma {:induction false} SizeAllElem(ns: seq<Node>, i: nat)
    requires i < |ns|
    ensures Size(ns[i]) <= SizeAll(ns)
  {
    if i > 0 {
      SizeAllElem(ns[1..], i - 1);
    }
  }

  // ---------------------------------------------------------------------
  // Call names
  // ---------------------------------------------------------------------

  /** The name a call records for its callee: `Name.id`, `Attribute.attr`, or nothing. */
  function CalleeName(func: Node): Option<string> {
    match func
    case Name(id) => Some(id)
    case Attribute(_, attr) => Some(attr)
    case _ => None
  }

  /** The callee name contributed by `n` itself, when `n` is a call. */
  function OwnCall(n: Node): set<string> {
    if n.Call? && CalleeName(n.func).Some? then {CalleeName(n.func).value} else {}
  }

  /** Every callee name of every call anywhere in the subtree of `n`, `n` included. */
  function CallsIn(n: Node): set<string>
    decreases Size(n), 0
  {
    ChildrenSize(n);
    OwnCall(n) + CallsInAll(Children(n))
  }

  function CallsInAll(ns: seq<Node>): set<string>
    decreases SizeAll(ns), 1
  {
    if ns == [] then {} else CallsIn(ns[0]) + CallsInAll(ns[1..])
  }

  lemma {:induction false} CallsInAllAppend(a: seq<Node>, b: seq<Node>)
    ensures CallsInAll(a + b) == CallsInAll(a) + CallsInAll(b)
  {
    if a == [] {
      assert a + b == b;
    } else {
      assert (a + b)[0] == a[0];
      assert (a + b)[1..] == a[1..] + b;
      CallsInAllAppend(a[1..], b);
    }
  }

  lemma {:induction false} CallsInAllElem(ns: seq<Node>, i: nat)
    requires i < |ns|
    ensures CallsIn(ns[i]) <= CallsInAll(ns)
  {
    if i > 0 {
      CallsInAllElem(ns[1..], i - 1);
    }
  }

  /**
   * The calls recorded for a node include those of each of its children, so a
   * function's calls include the calls of every definition nested in it.
   */
  lemma CallsOfChild(n: Node, i: nat)
    requires i < |Children(n)|
    ensures CallsIn(Children(n)[i]) <= CallsIn(n)
  {
    CallsInAllElem(Children(n), i);
  }

  /**
   * The loop of `_process_function` over `ast.walk(node)`: a breadth-first
   * walk with a queue, recording the callee name of every call it meets.
   * The list may repeat names; the unit keeps their set.
   */
  method CollectCalls(node: Node) returns (calls: seq<string>)
    ensures (set c | c in calls) == CallsIn(node)
  {
    calls := [];
    var todo := [node];
    assert [node][1..] == [];
    while todo != []
      invariant CallsIn(node) == (set c | c in calls) + CallsInAll(todo)
      decreases SizeAll(todo)
    {
      var child := todo[0];
      ChildrenSize(child);
      SizeAllAppend(todo[1..], Children(child));
      CallsInAllAppend(todo[1..], Children(child));
      todo := todo[1..] + Children(child);
      if child.Call? {
        match child.func
        case Name(id) =>
          calls := calls + [id];
        case Attribute(_, attr) =>
          calls := calls + [attr];
        case _ =>
      }
    }
  }

  // ---------------------------------------------------------------------
  // Imports
  // ---------------------------------------------------------------------

  /**
   * The module names the subtree of `n` imports, in visiting order:
   * every alias of `import a, b`, and the module of `from M import ...`
   * when it is present (a relative `from . import x` names none).
   */
  function ImportsIn(n: Node): seq<string>
    decreases Size(n), 0
  {
    match n
    case Import(names) => names
    case ImportFrom(m) => if Truthy(m) then [m.value] else []
    case _ =>
      ChildrenSize(n);
      ImportsInAll(Children(n))
  }

  function ImportsInAll(ns: seq<Node>): seq<string>
    decreases SizeAll(ns), 1
  {
    if ns == [] then [] else ImportsIn(ns[0]) + ImportsInAll(ns[1..])
  }

  // ---------------------------------------------------------------------
  // The visitor, as a function of its state
  // ---------------------------------------------------------------------

  /** The file being visited: its relative path and `file_content.splitlines()`. */
  datatype SourceFile = SourceFile(path: string, lines: seq<string>)

  /** The fields `ASTVisitor` updates while it walks. */
  datatype VisitorState = VisitorState(units: seq<CodeUnit>, imports: seq<string>, currentClass: Option<string>)

  const Initial := VisitorState([], [], None)

  /** A function's unit name: `"<current class>.<name>"` inside a class, the bare name otherwise. */
  function QualifiedName(currentClass: Option<string>, name: string): string {
    if Truthy(currentClass) then currentClass.value + "." + name else name
  }

  /** `_get_code_snippet`: lines `lineno` to `end_lineno` joined with newlines. */
  function CodeSnippet(lines: seq<string>, span: Span): string {
    Join(Slice(lines, span.lineno - 1, span.endLineno), "\n")
  }

  /** The unit `_process_function` emits for `n`. */
  function FunctionUnit(src: SourceFile, currentClass: Option<string>, imports: seq<string>, n: Node): CodeUnit
    requires n.FunctionDef?
  {
    var name := QualifiedName(currentClass, n.name);
    CodeUnit(src.path + "::" + name, src.path, name, Function, n.span.lineno, n.span.endLineno,
             CodeSnippet(src.lines, n.span), n.docstring, Some("def " + name + "(...)"), imports, CallsIn(n))
  }

  /** The unit `visit_ClassDef` emits for `n`. */
  function ClassUnit(src: SourceFile, imports: seq<string>, n: Node): CodeUnit
    requires n.ClassDef?
  {
    CodeUnit(src.path + "::" + n.name, src.path, n.name, Class, n.span.lineno, n.span.endLineno,
             CodeSnippet(src.lines, n.span), n.docstring, Some("class " + n.name), imports, {})
  }

  /** The visitor's state after visiting `n` from state `st`. */
  function Visited(src: SourceFile, st: VisitorState, n: Node): VisitorState
    decreases Size(n), 0
  {
    match n
    case Import(names) => st.(imports := st.imports + names)
    case ImportFrom(m) => if Truthy(m) then st.(imports := st.imports + [m.value]) else st
    case FunctionDef(_, _, _, _, body) =>
      VisitedAll(src, st.(units := st.units + [FunctionUnit(src, st.currentClass, st.imports, n)]), body)
    case ClassDef(name, _, _, body) =>
      var inner := st.(units := st.units + [ClassUnit(src, st.imports, n)], currentClass := Some(name));
      VisitedAll(src, inner, body).(currentClass := st.currentClass)
    case _ =>
      ChildrenSize(n);
      VisitedAll(src, st, Children(n))
  }

  function VisitedAll(src: SourceFile, st: VisitorState, ns: seq<Node>): VisitorState
    decreases SizeAll(ns), 1
  {
    if ns == [] then st else VisitedAll(src, Visited(src, st, ns[0]), ns[1..])
  }

  // ---------------------------------------------------------------------
  // What the visitor guarantees
  // ---------------------------------------------------------------------

  /** Visiting any node leaves the current-class register as it found it. */
  lemma {:induction false} VisitedKeepsClass(src: SourceFile, st: VisitorState, n: Node)
    decreases Size(n), 0
    ensures Visited(src, st, n).currentClass == st.currentClass
  {
    match n
    case Import(_) =>
    case ImportFrom(_) =>
    case FunctionDef(_, _, _, _, body) =>
      VisitedAllKeepsClass(src, st.(units := st.units + [FunctionUnit(src, st.currentClass, st.imports, n)]), body);
    case ClassDef(_, _, _, _) =>
    case _ =>
      ChildrenSize(n);
      VisitedAllKeepsClass(src, st, Children(n));
  }

  lemma {:induction false} VisitedAllKeepsClass(src: SourceFile, st: VisitorState, ns: seq<Node>)
    decreases SizeAll(ns), 1
    ensures VisitedAll(src, st, ns).currentClass == st.currentClass
  {
    if ns != [] {
      VisitedKeepsClass(src, st, ns[0]);
      VisitedAllKeepsClass(src, Visited(src, st, ns[0]), ns[1..]);
    }
  }

  /** The accumulator only grows, by exactly the imports of the subtree, in order. */
  lemma {:induction false} VisitedImports(src: SourceFile, st: VisitorState, n: Node)
    decreases Size(n), 0
    ensures Visited(src, st, n).imports == st.imports + ImportsIn(n)
  {
    match n
    case Import(_) =>
    case ImportFrom(_) =>
    case FunctionDef(_, _, _, _, body) =>
      VisitedAllImports(src, st.(units := st.units + [FunctionUnit(src, st.currentClass, st.imports, n)]), body);
    case ClassDef(name, _, _, body) =>
      VisitedAllImports(src, st.(units := st.units + [ClassUnit(src, st.imports, n)], currentClass := Some(name)), body);
    case _ =>
      ChildrenSize(n);
      VisitedAllImports(src, st, Children(n));
  }

  lemma {:induction false} VisitedAllImports(src: SourceFile, st: VisitorState, ns: seq<Node>)
    decreases SizeAll(ns), 1
    ensures VisitedAll(src, st, ns).imports == st.imports + ImportsInAll(ns)
  {
    if ns != [] {
      VisitedImports(src, st, ns[0]);
      VisitedAllImports(src, Visited(src, st, ns[0]), ns[1..]);
      assert st.imports + ImportsInAll(ns) == (st.imports + ImportsIn(ns[0])) + ImportsInAll(ns[1..]);
    }
  }

  /**
   * Every unit's imports are a prefix of every later unit's imports and of
   * the accumulator: each unit holds a snapshot of a list that only grows.
   */
  ghost predicate SnapshotsOrdered(st: VisitorState) {
    && (forall i, j :: 0 <= i < j < |st.units| ==> st.units[i].imports <= st.units[j].imports)
    && (forall i :: 0 <= i < |st.units| ==> st.units[i].imports <= st.imports)
  }

  lemma {:induction false} VisitedSnapshots(src: SourceFile, st: VisitorState, n: Node)
    requires SnapshotsOrdered(st)
    decreases Size(n), 0
    ensures var r := Visited(src, st, n);
      SnapshotsOrdered(r) && st.units <= r.units && st.imports <= r.imports
  {
    match n
    case Import(names) =>
      assert st.imports <= st.imports + names;
    case ImportFrom(m) =>
      if Truthy(m) {
        assert st.imports <= st.imports + [m.value];
      }
    case FunctionDef(_, _, _, _, body) =>
      var u := FunctionUnit(src, st.currentClass, st.imports, n);
      SnapshotPush(st, u, st.currentClass);
      VisitedAllSnapshots(src, VisitorState(st.units + [u], st.imports, st.currentClass), body);
    case ClassDef(name, _, _, body) =>
      var u := ClassUnit(src, st.imports, n);
      SnapshotPush(st, u, Some(name));
      VisitedAllSnapshots(src, VisitorState(st.units + [u], st.imports, Some(name)), body);
    case _ =>
      ChildrenSize(n);
      VisitedAllSnapshots(src, st, Children(n));
  }

  /** A unit that snapshots the current imports keeps the snapshots ordered. */
  lemma SnapshotPush(st: VisitorState, u: CodeUnit, c: Option<string>)
    requires SnapshotsOrdered(st) && u.imports == st.imports
    ensures SnapshotsOrdered(VisitorState(st.units + [u], st.imports, c))
  {
    var us := st.units + [u];
    forall i, j | 0 <= i < j < |us|
      ensures us[i].imports <= us[j].imports
    {
      assert us[i] == st.units[i];
      if j < |st.units| {
        assert us[j] == st.units[j];
      }
    }
    forall i | 0 <= i < |us|
      ensures us[i].imports <= st.imports
    {
      if i < |st.units| {
        assert us[i] == st.units[i];
      }
    }
  }

  lemma {:induction false} VisitedAllSnapshots(src: SourceFile, st: VisitorState, ns: seq<Node>)
    requires SnapshotsOrdered(st)
    decreases SizeAll(ns), 1
    ensures var r := VisitedAll(src, st, ns);
      SnapshotsOrdered(r) && st.units <= r.units && st.imports <= r.imports
  {
    if ns != [] {
      VisitedSnapshots(src, st, ns[0]);
      VisitedAllSnapshots(src, Visited(src, st, ns[0]), ns[1..]);
    }
  }

  /** Within one file, an earlier unit's imports are a prefix of a later unit's. */
  lemma ImportSnapshotsArePrefixes(src: SourceFile, tree: Node, i: nat, j: nat)
    requires var r := Visited(src, Initial, tree); i < j < |r.units|
    ensures var r := Visited(src, Initial, tree); r.units[i].imports <= r.units[j].imports
  {
    VisitedSnapshots(src, Initial, tree);
  }

  /** The shape of every unit the visitor emits. */
  ghost predicate WellShaped(src: SourceFile, u: CodeUnit) {
    && u.filePath == src.path
    && u.id == src.path + "::" + u.name
    && 1 <= u.startLine <= u.endLine
    && u.code == Join(Slice(src.lines, u.startLine - 1, u.endLine), "\n")
    && (u.kind == Function ==> u.signature == Some("def " + u.name + "(...)"))
    && (u.kind == Class ==> u.signature == Some("class " + u.name) && u.calls == {})
    && u.kind != File
  }

  ghost predicate AllWellShaped(src: SourceFile, units: seq<CodeUnit>) {
    forall i :: 0 <= i < |units| ==> WellShaped(src, units[i])
  }

  lemma {:induction false} VisitedWellShaped(src: SourceFile, st: VisitorState, n: Node)
    requires AllWellShaped(src, st.units)
    decreases Size(n), 0
    ensures AllWellShaped(src, Visited(src, st, n).units)
  {
    match n
    case Import(_) =>
    case ImportFrom(_) =>
    case FunctionDef(_, _, _, _, body) =>
      var st1 := st.(units := st.units + [FunctionUnit(src, st.currentClass, st.imports, n)]);
      assert WellShaped(src, st1.units[|st.units|]);
      VisitedAllWellShaped(src, st1, body);
    case ClassDef(name, _, _, body) =>
      var st1 := st.(units := st.units + [ClassUnit(src, st.imports, n)], currentClass := Some(name));
      assert WellShaped(src, st1.units[|st.units|]);
      VisitedAllWellShaped(src, st1, body);
    case _ =>
      ChildrenSize(n);
      VisitedAllWellShaped(src, st, Children(n));
  }

  lemma {:induction false} VisitedAllWellShaped(src: SourceFile, st: VisitorState, ns: seq<Node>)
    requires AllWellShaped(src, st.units)
    decreases SizeAll(ns), 1
    ensures AllWellShaped(src, VisitedAll(src, st, ns).units)
  {
    if ns != [] {
      VisitedWellShaped(src, st, ns[0]);
      VisitedAllWellShaped(src, Visited(src, st, ns[0]), ns[1..]);
    }
  }

  /** Units are only ever appended. */
  lemma {:induction false} VisitedExtends(src: SourceFile, st: VisitorState, n: Node)
    decreases Size(n), 0
    ensures st.units <= Visited(src, st, n).units
  {
    match n
    case Import(_) =>
    case ImportFrom(_) =>
    case FunctionDef(_, _, _, _, body) =>
      VisitedAllExtends(src, st.(units := st.units + [FunctionUnit(src, st.currentClass, st.imports, n)]), body);
    case ClassDef(name, _, _, body) =>
      VisitedAllExtends(src, st.(units := st.units + [ClassUnit(src, st.imports, n)], currentClass := Some(name)), body);
    case _ =>
      ChildrenSize(n);
      VisitedAllExtends(src, st, Children(n));
  }

  lemma {:induction false} VisitedAllExtends(src: SourceFile, st: VisitorState, ns: seq<Node>)
    decreases SizeAll(ns), 1
    ensures st.units <= VisitedAll(src, st, ns).units
  {
    if ns != [] {
      VisitedExtends(src, st, ns[0]);
      VisitedAllExtends(src, Visited(src, st, ns[0]), ns[1..]);
    }
  }

  /**
   * Pre-order: the unit of a function definition is emitted before anything
   * nested in it. It is named after the innermost enclosing class, holds the
   * imports seen so far, and the imports inside its body come after that
   * snapshot.
   */
  lemma FunctionUnitFirst(src: SourceFile, st: VisitorState, n: Node)
    requires n.FunctionDef?
    ensures var r := Visited(src, st, n);
      && |r.units| > |st.units|
      && r.units[|st.units|] == FunctionUnit(src, st.currentClass, st.imports, n)
      && r.units[|st.units|].name == QualifiedName(st.currentClass, n.name)
      && r.units[|st.units|].imports == st.imports
      && r.units[|st.units|].calls == CallsIn(n)
      && r.imports == st.imports + ImportsIn(n)
      && r.currentClass == st.currentClass
  {
    var st1 := st.(units := st.units + [FunctionUnit(src, st.currentClass, st.imports, n)]);
    VisitedAllExtends(src, st1, n.body);
    VisitedImports(src, st, n);
    VisitedKeepsClass(src, st, n);
  }

  /**
   * A class's unit is emitted before its methods, under the bare class name
   * whatever class encloses it, and the register is restored afterwards.
   */
  lemma ClassUnitFirst(src: SourceFile, st: VisitorState, n: Node)
    requires n.ClassDef?
    ensures var r := Visited(src, st, n);
      && |r.units| > |st.units|
      && r.units[|st.units|] == ClassUnit(src, st.imports, n)
      && r.units[|st.units|].name == n.name
      && r.units[|st.units|].id == src.path + "::" + n.name
      && r.units[|st.units|].calls == {}
      && r.imports == st.imports + ImportsIn(n)
      && r.currentClass == st.currentClass
  {
    var st1 := st.(units := st.units + [ClassUnit(src, st.imports, n)], currentClass := Some(n.name));
    VisitedAllExtends(src, st1, n.body);
    VisitedImports(src, st, n);
  }

  /** No class is defined anywhere in the subtree of `n`. */
  ghost predicate ClassFree(n: Node) {
    !n.ClassDef? && forall m | m in Children(n) :: ClassFree(m)
  }

  ghost predicate ClassFreeAll(ns: seq<Node>) {
    forall m | m in ns :: ClassFree(m)
  }

  /** Every unit from index `from` on is a function whose name is qualified by class `c`. */
  ghost predicate MethodsOf(units: seq<CodeUnit>, from: nat, c: string) {
    forall i :: from <= i < |units| ==> units[i].kind == Function && StartsWith(units[i].name, c + ".")
  }

  lemma QualifiedStartsWith(c: string, f: string)
    ensures StartsWith(c + "." + f, c + ".")
  {
    assert (c + "." + f)[..|c| + 1] == c + ".";
  }

  lemma {:induction false} MethodsQualifiedNode(src: SourceFile, st: VisitorState, n: Node, c: string)
    requires st.currentClass == Some(c) && c != "" && ClassFree(n)
    decreases Size(n), 0
    ensures MethodsOf(Visited(src, st, n).units, |st.units|, c)
  {
    ChildrenSize(n);
    match n
    case Import(_) =>
    case ImportFrom(_) =>
    case FunctionDef(_, f, _, _, body) =>
      var st1 := st.(units := st.units + [FunctionUnit(src, st.currentClass, st.imports, n)]);
      QualifiedStartsWith(c, f);
      MethodsQualifiedAll(src, st1, body, c);
      VisitedAllExtends(src, st1, body);
    case ClassDef(_, _, _, _) =>
      assert false;
    case _ =>
      MethodsQualifiedAll(src, st, Children(n), c);
  }

  lemma {:induction false} MethodsQualifiedAll(src: SourceFile, st: VisitorState, ns: seq<Node>, c: string)
    requires st.currentClass == Some(c) && c != "" && ClassFreeAll(ns)
    decreases SizeAll(ns), 1
    ensures MethodsOf(VisitedAll(src, st, ns).units, |st.units|, c)
  {
    if ns != [] {
      var st1 := Visited(src, st, ns[0]);
      MethodsQualifiedNode(src, st, ns[0], c);
      VisitedKeepsClass(src, st, ns[0]);
      MethodsQualifiedAll(src, st1, ns[1..], c);
      VisitedAllExtends(src, st1, ns[1..]);
    }
  }

  /**
   * Inside a class whose body defines no further class, every unit after the
   * class's own is a method named `"<Class>.<method>"`.
   */
  lemma ClassMethodsQualified(src: SourceFile, st: VisitorState, n: Node)
    requires n.ClassDef? && n.name != "" && ClassFreeAll(n.body)
    ensures MethodsOf(Visited(src, st, n).units, |st.units| + 1, n.name)
  {
    var st1 := st.(units := st.units + [ClassUnit(src, st.imports, n)], currentClass := Some(n.name));
    MethodsQualifiedAll(src, st1, n.body, n.name);
    assert Visited(src, st, n).units == VisitedAll(src, st1, n.body).units;
  }

  // ---------------------------------------------------------------------
  // The visitor object
  // ---------------------------------------------------------------------

  /** `ASTVisitor`: a `NodeVisitor` whose visit methods update its fields. */
  class ASTVisitor {
    var units: seq<CodeUnit>
    const fileContent: string
    const lines: seq<string>
    const filePath: string
    var currentClass: Option<string>
    var imports: seq<string>

    constructor(fileContent: string, filePath: string)
      ensures this.fileContent == fileContent && this.filePath == filePath
      ensures lines == SplitLines(fileContent)
      ensures State() == Initial
    {
      this.units := [];
      this.fileContent := fileContent;
      this.lines := SplitLines(fileContent);
      this.filePath := filePath;
      this.currentClass := None;
      this.imports := [];
    }

    function Source(): SourceFile {
      SourceFile(filePath, lines)
    }

    function State(): VisitorState
      reads this
    {
      VisitorState(units, imports, currentClass)
    }

    /** `visit`: dispatch on the type of the node. */
    method Visit(n: Node)
      modifies this
      decreases Size(n), 3
      ensures State() == Visited(Source(), old(State()), n)
    {
      match n
      case Import(_) => VisitImport(n);
      case ImportFrom(_) => VisitImportFrom(n);
      case FunctionDef(_, _, _, _, _) => ProcessFunction(n);
      case ClassDef(_, _, _, _) => VisitClassDef(n);
      case _ => GenericVisit(n);
    }

    /** `generic_visit`: visit every child in order. */
    method GenericVisit(n: Node)
      modifies this
      decreases Size(n), 1
      ensures State() == VisitedAll(Source(), old(State()), Children(n))
    {
      var children := Children(n);
      ChildrenSize(n);
      var i := 0;
      while i < |children|
        invariant 0 <= i <= |children|
        invariant VisitedAll(Source(), State(), children[i..]) == VisitedAll(Source(), old(State()), children)
      {
        SizeAllElem(children, i);
        assert children[i..][1..] == children[i + 1..];
        Visit(children[i]);
        i := i + 1;
      }
    }

    method VisitImport(n: Node)
      requires n.Import?
      modifies this
      decreases Size(n), 2
      ensures State() == Visited(Source(), old(State()), n)
    {
      var i := 0;
      while i < |n.names|
        invariant 0 <= i <= |n.names|
        invariant imports == old(imports) + n.names[..i]
        invariant units == old(units) && currentClass == old(currentClass)
      {
        imports := imports + [n.names[i]];
        i := i + 1;
      }
      assert n.names[..i] == n.names;
      GenericVisit(n);
    }

    method VisitImportFrom(n: Node)
      requires n.ImportFrom?
      modifies this
      decreases Size(n), 2
      ensures State() == Visited(Source(), old(State()), n)
    {
      if n.fromModule.Some? && n.fromModule.value != "" {
        imports := imports + [n.fromModule.value];
      }
      GenericVisit(n);
    }

    /** `_process_function`, shared by `visit_FunctionDef` and `visit_AsyncFunctionDef`. */
    method ProcessFunction(n: Node)
      requires n.FunctionDef?
      modifies this
      decreases Size(n), 2
      ensures State() == Visited(Source(), old(State()), n)
    {
      var name := n.name;
      if currentClass.Some? && currentClass.value != "" {
        name := currentClass.value + "." + name;
      }
      var unitId := filePath + "::" + name;
      var code := CodeSnippet(lines, n.span);
      var calls := CollectCalls(n);
      var unit := CodeUnit(unitId, filePath, name, Function, n.span.lineno, n.span.endLineno,
                           code, n.docstring, Some("def " + name + "(...)"), imports, set c | c in calls);
      units := units + [unit];
      GenericVisit(n);
    }

    method VisitClassDef(n: Node)
      requires n.ClassDef?
      modifies this
      decreases Size(n), 2
      ensures State() == Visited(Source(), old(State()), n)
    {
      var prevClass := currentClass;
      currentClass := Some(n.name);
      var unitId := filePath + "::" + n.name;
      var code := CodeSnippet(lines, n.span);
      var unit := CodeUnit(unitId, filePath, n.name, Class, n.span.lineno, n.span.endLineno,
                           code, n.docstring, Some("class " + n.name), imports, {});
      units := units + [unit];
      GenericVisit(n);
      currentClass := prevClass;
    }
  }
}
