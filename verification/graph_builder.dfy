/**
 * The heuristic call graph: one node per unit id, and an edge from a unit to
 * every other unit whose simple name (the last dot-separated piece of its
 * name) the first one calls. Edges carry the label `"call"`.
 */
module Graph {
  import opened Wrappers
  import opened Text
  import opened CodeUnits

  type Edge = (string, string)

  /**
   * A directed graph as `build` fills it: the node ids in insertion order and,
   * for every edge, its `type` attribute. The attributes stored on nodes are
   * not modelled; `unit_map` is the lookup the callers use.
   */
  datatype DiGraph = DiGraph(nodes: seq<string>, edges: map<Edge, string>)

  const Empty := DiGraph([], map[])

  /** Every edge joins two nodes of the graph. */
  predicate WellFormed(g: DiGraph) {
    forall e | e in g.edges :: e.0 in g.nodes && e.1 in g.nodes
  }

  // ---------------------------------------------------------------------
  // Simple names
  // ---------------------------------------------------------------------

  /**
   * `name.split('.')[-1]`: the part of `name` after its last dot, or the
   * whole name when it has none.
   */
  function SimpleName(name: string): string
    decreases |name|
  {
    if name == [] || name[|name| - 1] == '.' then [] else SimpleName(name[..|name| - 1]) + [name[|name| - 1]]
  }

  /** The simple name is the dot-free tail of the name that follows its last dot, if any. */
  lemma {:induction false} SimpleNameShape(name: string)
    decreases |name|
    ensures var r := SimpleName(name);
      && |r| <= |name| && r == name[|name| - |r|..]
      && (forall j :: 0 <= j < |r| ==> r[j] != '.')
      && (|r| < |name| ==> name[|name| - |r| - 1] == '.')
  {
    if name != [] && name[|name| - 1] != '.' {
      var front := name[..|name| - 1];
      SimpleNameShape(front);
      var r := SimpleName(name);
      assert r == SimpleName(front) + [name[|name| - 1]];
      assert front[|front| - |SimpleName(front)|..] + [name[|name| - 1]] == name[|name| - |r|..];
    }
  }

  lemma {:induction false} SimpleNameNoDot(name: string)
    requires forall j :: 0 <= j < |name| ==> name[j] != '.'
    decreases |name|
    ensures SimpleName(name) == name
  {
    if name != [] {
      SimpleNameNoDot(name[..|name| - 1]);
      assert name == name[..|name| - 1] + [name[|name| - 1]];
    }
  }

  /** Whatever precedes a dot does not matter to the simple name. */
  lemma {:induction false} SimpleNameAfterDot(name: string, k: nat)
    requires k < |name| && name[k] == '.'
    decreases |name|
    ensures SimpleName(name) == SimpleName(name[k + 1..])
  {
    if k < |name| - 1 && name[|name| - 1] != '.' {
      var front := name[..|name| - 1];
      SimpleNameAfterDot(front, k);
      assert front[k + 1..] == name[k + 1..][..|name| - k - 2];
    }
  }

  lemma NoDotIn(s: string)
    requires Find(s, ".", 0) == -1
    ensures forall j :: 0 <= j < |s| ==> s[j] != '.'
  {
    forall j | 0 <= j < |s|
      ensures s[j] != '.'
    {
      assert !IsAt(s, ".", j);
      assert s[j..j + 1] == [s[j]];
    }
  }

  /** The simple name is exactly the last piece Python's `split('.')` returns. */
  lemma {:induction false} SimpleNameIsLastPiece(name: string)
    decreases |name|
    ensures var pieces := Split(name, ".");
      SimpleName(name) == pieces[|pieces| - 1]
  {
    var i := Find(name, ".", 0);
    if i == -1 {
      assert Split(name, ".") == [name];
      NoDotIn(name);
      SimpleNameNoDot(name);
    } else {
      assert |"."| == 1;
      assert name[i..i + 1][0] == name[i];
      var rest := name[i + 1..];
      SimpleNameIsLastPiece(rest);
      SimpleNameAfterDot(name, i);
      var tail := Split(rest, ".");
      var pieces := [name[..i]] + tail;
      assert Split(name, ".") == pieces;
      assert pieces[|pieces| - 1] == tail[|tail| - 1];
    }
  }

  // ---------------------------------------------------------------------
  // The graph `build` produces
  // ---------------------------------------------------------------------

  /** `ns` after `add_node` of each of `ids` in turn: new ids are appended, known ones stay put. */
  function AddNodes(ns: seq<string>, ids: seq<string>): (r: seq<string>)
    decreases |ids|
    ensures ns <= r
    ensures forall x :: x in r <==> x in ns || x in ids
    ensures Distinct(ns) ==> Distinct(r)
  {
    if ids == [] then ns
    else
      var front := AddNodes(ns, ids[..|ids| - 1]);
      var x := ids[|ids| - 1];
      assert forall y :: y in ids <==> y in ids[..|ids| - 1] || y == x by {
        assert ids == ids[..|ids| - 1] + [x];
      }
      if x in front then front else front + [x]
  }

  /** The ids of `units` in order of first occurrence. */
  function NodeOrder(units: seq<CodeUnit>): seq<string> {
    AddNodes([], Ids(units))
  }

  /** The edge rule: `u` calls the simple name of `w`, and `w`'s id is not `u`'s. */
  function EdgesFrom(callers: seq<CodeUnit>, units: seq<CodeUnit>): set<Edge> {
    set u, w | u in callers && w in units && SimpleName(w.name) in u.calls && w.id != u.id :: (u.id, w.id)
  }

  function CallEdges(units: seq<CodeUnit>): set<Edge> {
    EdgesFrom(units, units)
  }

  /** The graph `build` returns on a fresh builder. */
  function BuiltGraph(units: seq<CodeUnit>): DiGraph {
    DiGraph(NodeOrder(units), Labelled(CallEdges(units)))
  }

  /** `{u['id']: u for u in units}`: each id maps to the last unit that carries it. */
  function UnitMap(units: seq<CodeUnit>): (m: map<string, CodeUnit>)
    decreases |units|
    ensures m.Keys == IdSet(units)
    ensures forall id | id in m :: m[id].id == id && m[id] in units
    ensures forall i :: 0 <= i < |units| && LastWithId(units, i) ==> m[units[i].id] == units[i]
  {
    if units == [] then map[]
    else
      var front := units[..|units| - 1];
      var u := units[|units| - 1];
      UnitMapStep(units, front, u, UnitMap(front));
      UnitMap(front)[u.id := u]
  }

  /** Adding the last unit to the id map of the others keeps the three properties of `UnitMap`. */
  lemma UnitMapStep(units: seq<CodeUnit>, front: seq<CodeUnit>, u: CodeUnit, m0: map<string, CodeUnit>)
    requires units == front + [u]
    requires m0.Keys == IdSet(front)
    requires forall id | id in m0 :: m0[id].id == id && m0[id] in front
    requires forall i :: 0 <= i < |front| && LastWithId(front, i) ==> m0[front[i].id] == front[i]
    ensures var m := m0[u.id := u];
      && m.Keys == IdSet(units)
      && (forall id | id in m :: m[id].id == id && m[id] in units)
      && (forall i :: 0 <= i < |units| && LastWithId(units, i) ==> m[units[i].id] == units[i])
  {
    var m := m0[u.id := u];
    assert forall x :: x in units <==> x in front || x == u;
    assert IdSet(units) == IdSet(front) + {u.id};
    forall i | 0 <= i < |units| && LastWithId(units, i)
      ensures m[units[i].id] == units[i]
    {
      if i < |front| {
        assert units[i] == front[i];
        assert units[|units| - 1] == u;
        assert LastWithId(front, i) by {
          forall j | i < j < |front|
            ensures front[j].id != front[i].id
          {
            assert front[j] == units[j];
          }
        }
      }
    }
  }

  /** No unit after position `i` carries the id of `units[i]`. */
  predicate LastWithId(units: seq<CodeUnit>, i: nat)
    requires i < |units|
  {
    forall j :: i < j < |units| ==> units[j].id != units[i].id
  }

  /** `name_to_ids[s]`: the ids of the units whose simple name is `s`, in unit order. */
  function IdsNamed(units: seq<CodeUnit>, s: string): (r: seq<string>)
    decreases |units|
    ensures |r| <= |units|
  {
    if units == [] then []
    else
      var front := units[..|units| - 1];
      var u := units[|units| - 1];
      assert units == front + [u];
      if SimpleName(u.name) == s then IdsNamed(front, s) + [u.id] else IdsNamed(front, s)
  }

  /** The ids listed under `s` are exactly those of the units whose simple name is `s`. */
  lemma {:induction false} IdsNamedMembers(units: seq<CodeUnit>, s: string, t: string)
    decreases |units|
    ensures t in IdsNamed(units, s) <==> exists i :: 0 <= i < |units| && units[i].id == t && SimpleName(units[i].name) == s
  {
    if units != [] {
      var n := |units| - 1;
      var front := units[..n];
      var u := units[n];
      IdsNamedMembers(front, s, t);
      assert units == front + [u];
      var tail := if SimpleName(u.name) == s then [u.id] else [];
      assert IdsNamed(units, s) == IdsNamed(front, s) + tail;
      if t in IdsNamed(front, s) {
        var i :| 0 <= i < n && front[i].id == t && SimpleName(front[i].name) == s;
        assert units[i] == front[i];
      }
      if exists i :: 0 <= i < |units| && units[i].id == t && SimpleName(units[i].name) == s {
        var i :| 0 <= i < |units| && units[i].id == t && SimpleName(units[i].name) == s;
        if i < n {
          assert front[i] == units[i];
        } else {
          assert t in tail;
        }
      }
    }
  }

  /** `d.get(k, [])`. */
  function Get(m: map<string, seq<string>>, k: string): seq<string> {
    if k in m then m[k] else []
  }

  /** The edges one caller gets for the call names in `names`. */
  function CallerEdges(u: CodeUnit, names: set<string>, units: seq<CodeUnit>): set<Edge> {
    set w | w in units && SimpleName(w.name) in names && w.id != u.id :: (u.id, w.id)
  }

  /** Every edge of `es`, labelled `"call"`. */
  function Labelled(es: set<Edge>): map<Edge, string> {
    map e | e in es :: "call"
  }

  lemma LabelledAdd(m: map<Edge, string>, es: set<Edge>, e: Edge)
    ensures (m + Labelled(es))[e := "call"] == m + Labelled(es + {e})
  {
  }

  lemma LabelledUnion(m: map<Edge, string>, a: set<Edge>, b: set<Edge>)
    ensures m + Labelled(a) + Labelled(b) == m + Labelled(a + b)
  {
  }

  /** The edges `u` gets towards the ids in `ts`. */
  function Targets(u: CodeUnit, ts: seq<string>): set<Edge> {
    set t | t in ts && t != u.id :: (u.id, t)
  }

  lemma TargetsStep(u: CodeUnit, ts: seq<string>, j: nat)
    requires j < |ts|
    ensures Targets(u, ts[..j + 1]) == Targets(u, ts[..j]) + (if ts[j] != u.id then {(u.id, ts[j])} else {})
  {
    assert ts[..j + 1] == ts[..j] + [ts[j]];
  }

  lemma EdgesFromStep(units: seq<CodeUnit>, i: nat)
    requires i < |units|
    ensures EdgesFrom(units[..i + 1], units) == EdgesFrom(units[..i], units) + CallerEdges(units[i], units[i].calls, units)
  {
    assert units[..i + 1] == units[..i] + [units[i]];
  }

  lemma CallerEdgesStep(u: CodeUnit, done: set<string>, c: string, units: seq<CodeUnit>)
    ensures CallerEdges(u, done + {c}, units)
      == CallerEdges(u, done, units) + Targets(u, IdsNamed(units, c))
  {
    var named := IdsNamed(units, c);
    forall e | e in CallerEdges(u, done + {c}, units)
      ensures e in CallerEdges(u, done, units) + Targets(u, named)
    {
      var w :| w in units && SimpleName(w.name) in done + {c} && w.id != u.id && e == (u.id, w.id);
      if SimpleName(w.name) == c {
        IdsNamedMembers(units, c, w.id);
      }
    }
    forall e | e in Targets(u, named)
      ensures e in CallerEdges(u, done + {c}, units)
    {
      IdsNamedMembers(units, c, e.1);
    }
  }

  // ---------------------------------------------------------------------
  // What the built graph satisfies
  // ---------------------------------------------------------------------

  /** The nodes are the unit ids, each once, in order of first occurrence. */
  lemma BuiltNodes(units: seq<CodeUnit>)
    ensures var g := BuiltGraph(units);
      (forall x :: x in g.nodes <==> x in IdSet(units)) && Distinct(g.nodes)
  {
    var g := BuiltGraph(units);
    forall x
      ensures x in g.nodes <==> x in IdSet(units)
    {
      if x in IdSet(units) {
        var u :| u in units && u.id == x;
        var i :| 0 <= i < |units| && units[i] == u;
        assert Ids(units)[i] == x;
      }
    }
  }

  /**
   * The edge rule, both ways: `a -> b` exists exactly when some unit with id
   * `a` calls the simple name of some unit with id `b`, and `a` is not `b`.
   * Every edge is labelled `"call"`, and edges join nodes.
   */
  lemma BuiltEdges(units: seq<CodeUnit>, a: string, b: string)
    ensures var g := BuiltGraph(units);
      && ((a, b) in g.edges <==>
          a != b && exists u, w :: u in units && w in units && u.id == a && w.id == b && SimpleName(w.name) in u.calls)
      && ((a, b) in g.edges ==> g.edges[(a, b)] == "call")
  {
  }

  lemma BuiltWellFormed(units: seq<CodeUnit>)
    ensures WellFormed(BuiltGraph(units))
  {
    var g := BuiltGraph(units);
    BuiltNodes(units);
    forall e | e in g.edges
      ensures e.0 in g.nodes && e.1 in g.nodes
    {
      var u, w :| u in units && w in units && SimpleName(w.name) in u.calls && w.id != u.id && e == (u.id, w.id);
      assert u.id in IdSet(units) && w.id in IdSet(units);
    }
  }

  /** No unit is linked to itself. */
  lemma NoSelfLoops(units: seq<CodeUnit>, a: string)
    ensures (a, a) !in BuiltGraph(units).edges
  {
  }

  /** A unit that calls a name shared by several units is linked to every one of them but itself. */
  lemma AmbiguousCallsFanOut(units: seq<CodeUnit>, u: CodeUnit, w1: CodeUnit, w2: CodeUnit)
    requires u in units && w1 in units && w2 in units
    requires SimpleName(w1.name) in u.calls && SimpleName(w2.name) == SimpleName(w1.name)
    requires w1.id != u.id && w2.id != u.id
    ensures (u.id, w1.id) in BuiltGraph(units).edges && (u.id, w2.id) in BuiltGraph(units).edges
  {
  }

  /** A unit id none of whose units call anything has no outgoing edge. */
  lemma SilentUnitsHaveNoSuccessors(units: seq<CodeUnit>, a: string, b: string)
    requires forall u | u in units && u.id == a :: u.calls == {}
    ensures (a, b) !in BuiltGraph(units).edges
  {
  }

  /** A file unit such as `"main.py"` is reachable only through the call name `"py"`. */
  lemma FileNameSimpleName()
    ensures SimpleName("main.py") == "py"
    ensures SimpleName("DataLoader.load") == "load"
  {
    var q := "DataLoader.load";
    SimpleNameAfterDot(q, 10);
    assert q[11..] == "load";
    SimpleNameNoDot("load");
  }

  // ---------------------------------------------------------------------
  // Shortest paths
  // ---------------------------------------------------------------------

  /** `p` is a directed path of `g`: its vertices are nodes and consecutive ones are joined by edges. */
  predicate IsPath(g: DiGraph, p: seq<string>) {
    && p != []
    && (forall i :: 0 <= i < |p| ==> p[i] in g.nodes)
    && (forall i :: 0 <= i < |p| - 1 ==> (p[i], p[i + 1]) in g.edges)
  }

  predicate PathFromTo(g: DiGraph, p: seq<string>, s: string, t: string) {
    IsPath(g, p) && p[0] == s && p[|p| - 1] == t
  }

  /** `g.successors(v)`, in node order. */
  function Succ(g: DiGraph, v: string): (r: seq<string>)
    ensures forall w :: w in r <==> w in g.nodes && (v, w) in g.edges
  {
    SuccAmong(g, v, g.nodes)
  }

  function SuccAmong(g: DiGraph, v: string, ns: seq<string>): (r: seq<string>)
    ensures forall w :: w in r <==> w in ns && (v, w) in g.edges
  {
    if ns == [] then []
    else (if (v, ns[0]) in g.edges then [ns[0]] else []) + SuccAmong(g, v, ns[1..])
  }

  /** Each walk of `ps` extended by one successor of its last vertex, in order. */
  function Extend(g: DiGraph, ps: seq<seq<string>>): seq<seq<string>> {
    if ps == [] then []
    else if ps[0] == [] then Extend(g, ps[1..])
    else ExtendBy(ps[0], Succ(g, ps[0][|ps[0]| - 1])) + Extend(g, ps[1..])
  }

  function ExtendBy(p: seq<string>, ws: seq<string>): (r: seq<seq<string>>)
    ensures forall q :: q in r <==> |q| == |p| + 1 && q[..|p|] == p && q[|p|] in ws
  {
    if ws == [] then []
    else
      var rest := ExtendBy(p, ws[1..]);
      assert forall q :: q == p + [ws[0]] <==> |q| == |p| + 1 && q[..|p|] == p && q[|p|] == ws[0] by {
        forall q | |q| == |p| + 1 && q[..|p|] == p && q[|p|] == ws[0]
          ensures q == p + [ws[0]]
        {
          assert q == q[..|p|] + [q[|p|]];
        }
      }
      [p + [ws[0]]] + rest
  }

  lemma {:induction false} ExtendMembers(g: DiGraph, ps: seq<seq<string>>, q: seq<string>)
    ensures q in Extend(g, ps) <==>
      |q| >= 2 && q[..|q| - 1] in ps && q[|q| - 1] in g.nodes && (q[|q| - 2], q[|q| - 1]) in g.edges
  {
    if ps != [] {
      var p := ps[0];
      ExtendMembers(g, ps[1..], q);
      var head := if p == [] then [] else ExtendBy(p, Succ(g, p[|p| - 1]));
      assert Extend(g, ps) == head + Extend(g, ps[1..]);
      if p != [] && |q| == |p| + 1 && q[..|p|] == p {
        assert q[|q| - 2] == p[|p| - 1];
      }
      if |q| >= 2 {
        assert ps == [p] + ps[1..];
        assert q[..|q| - 1] in ps <==> q[..|q| - 1] == p || q[..|q| - 1] in ps[1..];
      }
    }
  }

  /** Every walk from `s` with `k + 1` vertices, enumerated breadth first. */
  function Walks(g: DiGraph, s: string, k: nat): seq<seq<string>> {
    if k == 0 then [[s]] else Extend(g, Walks(g, s, k - 1))
  }

  /** A path with its last vertex dropped, and a path extended along one more edge. */
  lemma PathFront(g: DiGraph, q: seq<string>)
    requires IsPath(g, q) && |q| >= 2
    ensures IsPath(g, q[..|q| - 1])
  {
    var front := q[..|q| - 1];
    forall i | 0 <= i < |front| - 1
      ensures (front[i], front[i + 1]) in g.edges
    {
      assert front[i] == q[i] && front[i + 1] == q[i + 1];
    }
  }

  lemma PathSnoc(g: DiGraph, q: seq<string>)
    requires |q| >= 2 && IsPath(g, q[..|q| - 1])
    requires q[|q| - 1] in g.nodes && (q[|q| - 2], q[|q| - 1]) in g.edges
    ensures IsPath(g, q)
  {
    var front := q[..|q| - 1];
    forall i | 0 <= i < |q| - 1
      ensures (q[i], q[i + 1]) in g.edges
    {
      if i < |q| - 2 {
        assert front[i] == q[i] && front[i + 1] == q[i + 1];
      }
    }
    forall i | 0 <= i < |q|
      ensures q[i] in g.nodes
    {
      if i < |q| - 1 {
        assert front[i] == q[i];
      }
    }
  }

  /** Every walk in `ws` is a path from `s` with `k + 1` vertices. */
  ghost predicate PathsFrom(g: DiGraph, s: string, k: nat, ws: seq<seq<string>>) {
    forall q :: q in ws ==> IsPath(g, q) && q[0] == s && |q| == k + 1
  }

  /** Extending paths along one more edge keeps them paths, one vertex longer. */
  lemma ExtendSound(g: DiGraph, s: string, k: nat, ps: seq<seq<string>>)
    requires PathsFrom(g, s, k, ps)
    ensures PathsFrom(g, s, k + 1, Extend(g, ps))
  {
    forall q | q in Extend(g, ps)
      ensures IsPath(g, q) && q[0] == s && |q| == k + 2
    {
      ExtendMembers(g, ps, q);
      var front := q[..|q| - 1];
      assert front in ps;
      assert q[0] == front[0];
      PathSnoc(g, q);
    }
  }

  lemma {:induction false} WalksSound(g: DiGraph, s: string, k: nat)
    requires s in g.nodes
    decreases k
    ensures PathsFrom(g, s, k, Walks(g, s, k))
  {
    if k > 0 {
      WalksSound(g, s, k - 1);
      ExtendSound(g, s, k - 1, Walks(g, s, k - 1));
    }
  }

  lemma {:induction false} WalksComplete(g: DiGraph, s: string, k: nat, q: seq<string>)
    requires IsPath(g, q) && q[0] == s && |q| == k + 1
    decreases k
    ensures q in Walks(g, s, k)
  {
    if k > 0 {
      var front := q[..|q| - 1];
      PathFront(g, q);
      WalksComplete(g, s, k - 1, front);
      ExtendMembers(g, Walks(g, s, k - 1), q);
    } else {
      assert q == [s];
    }
  }

  /** The walks enumerated at level `k` are exactly the paths from `s` with `k + 1` vertices. */
  lemma WalksAreThePaths(g: DiGraph, s: string, k: nat, q: seq<string>)
    requires s in g.nodes
    ensures q in Walks(g, s, k) <==> IsPath(g, q) && q[0] == s && |q| == k + 1
  {
    WalksSound(g, s, k);
    if IsPath(g, q) && q[0] == s && |q| == k + 1 {
      WalksComplete(g, s, k, q);
    }
  }

  /** The first walk of `ps` that ends at `t`. */
  function FirstEnding(ps: seq<seq<string>>, t: string): (r: Option<seq<string>>)
    ensures r.Some? ==> r.value in ps && r.value != [] && r.value[|r.value| - 1] == t
    ensures r.None? ==> forall p | p in ps && p != [] :: p[|p| - 1] != t
  {
    if ps == [] then None
    else if ps[0] != [] && ps[0][|ps[0]| - 1] == t then Some(ps[0])
    else FirstEnding(ps[1..], t)
  }

  /** Breadth-first search by walk length, from `k + 1` vertices up to one per node. */
  function Search(g: DiGraph, s: string, t: string, k: nat): seq<string>
    decreases |g.nodes| - k
  {
    if k >= |g.nodes| then []
    else
      match FirstEnding(Walks(g, s, k), t)
      case Some(p) => p
      case None => Search(g, s, t, k + 1)
  }

  function NodeSet(g: DiGraph): set<string> {
    set x | x in g.nodes
  }

  lemma {:induction false} CardOfSeqSet(xs: seq<string>)
    ensures |set x | x in xs| <= |xs|
  {
    if xs != [] {
      CardOfSeqSet(xs[1..]);
      assert (set x | x in xs) == (set x | x in xs[1..]) + {xs[0]};
    }
  }

  /** A sequence longer than the set it draws from repeats an element. */
  lemma {:induction false} Pigeonhole(q: seq<string>, S: set<string>)
    requires forall i :: 0 <= i < |q| ==> q[i] in S
    requires |q| > |S|
    ensures exists i, j :: 0 <= i < j < |q| && q[i] == q[j]
  {
    if q[0] in q[1..] {
      var j :| 0 <= j < |q[1..]| && q[1..][j] == q[0];
      assert q[0] == q[j + 1];
    } else {
      var S' := S - {q[0]};
      forall i | 0 <= i < |q[1..]|
        ensures q[1..][i] in S'
      {
        assert q[1..][i] == q[i + 1];
      }
      Pigeonhole(q[1..], S');
      var i, j :| 0 <= i < j < |q[1..]| && q[1..][i] == q[1..][j];
      assert q[i + 1] == q[j + 1];
    }
  }

  /** Cutting out the cycle between two visits of the same vertex leaves a path between the same ends. */
  lemma CutCycle(g: DiGraph, q: seq<string>, s: string, t: string, i: nat, j: nat)
    requires PathFromTo(g, q, s, t) && i < j < |q| && q[i] == q[j]
    ensures PathFromTo(g, q[..i] + q[j..], s, t)
  {
    var p := q[..i] + q[j..];
    assert forall k :: 0 <= k < i ==> p[k] == q[k];
    assert forall k :: i <= k < |p| ==> p[k] == q[k + j - i];
    forall k | 0 <= k < |p| - 1
      ensures (p[k], p[k + 1]) in g.edges
    {
      if k + 1 < i {
        assert p[k] == q[k] && p[k + 1] == q[k + 1];
      } else if k + 1 == i {
        assert p[k] == q[k] && p[k + 1] == q[j] == q[k + 1];
      } else {
        assert p[k] == q[k + j - i] && p[k + 1] == q[k + 1 + j - i];
      }
    }
  }

  /** Any path can be cut down to one with at most one vertex per node. */
  lemma {:induction false} ShortPathExists(g: DiGraph, q: seq<string>, s: string, t: string)
    requires PathFromTo(g, q, s, t)
    decreases |q|
    ensures exists p :: PathFromTo(g, p, s, t) && |p| <= |NodeSet(g)|
  {
    if |q| > |NodeSet(g)| {
      Pigeonhole(q, NodeSet(g));
      var i, j :| 0 <= i < j < |q| && q[i] == q[j];
      CutCycle(g, q, s, t, i, j);
      ShortPathExists(g, q[..i] + q[j..], s, t);
    }
  }

  /**
   * Search from `k` on, when every path from `s` to `t` has more than `k`
   * vertices: a non-empty result is a path of least length, and an empty
   * one means there is no path.
   */
  lemma {:induction false} SearchCorrect(g: DiGraph, s: string, t: string, k: nat)
    requires s in g.nodes
    requires forall q :: PathFromTo(g, q, s, t) ==> |q| > k
    decreases |g.nodes| - k
    ensures var r := Search(g, s, t, k);
      && (r != [] ==> PathFromTo(g, r, s, t) && forall q :: PathFromTo(g, q, s, t) ==> |r| <= |q|)
      && (r == [] ==> forall q :: !PathFromTo(g, q, s, t))
  {
    if k >= |g.nodes| {
      forall q | PathFromTo(g, q, s, t)
        ensures false
      {
        ShortPathExists(g, q, s, t);
        var p :| PathFromTo(g, p, s, t) && |p| <= |NodeSet(g)|;
        CardOfSeqSet(g.nodes);
      }
    } else {
      var found := FirstEnding(Walks(g, s, k), t);
      if found.Some? {
        WalksAreThePaths(g, s, k, found.value);
      } else {
        forall q | PathFromTo(g, q, s, t)
          ensures |q| > k + 1
        {
          if |q| == k + 1 {
            WalksAreThePaths(g, s, k, q);
          }
        }
        SearchCorrect(g, s, t, k + 1);
      }
    }
  }

  /** A node reaches itself by the one-vertex path, found at the first level. */
  lemma SearchSelf(g: DiGraph, s: string)
    requires s in g.nodes
    ensures Search(g, s, s, 0) == [s]
  {
    assert Walks(g, s, 0) == [[s]];
    assert |g.nodes| > 0;
  }

  /** A path only visits nodes, so an absent endpoint leaves no path. */
  lemma NoPathWithoutEndpoints(g: DiGraph, s: string, t: string)
    requires s !in g.nodes || t !in g.nodes
    ensures forall q :: !PathFromTo(g, q, s, t)
  {
    forall q | PathFromTo(g, q, s, t)
      ensures false
    {
    }
  }

  // ---------------------------------------------------------------------
  // Context neighbours
  // ---------------------------------------------------------------------

  /** `g.successors(u)`: the heads of the edges leaving `u`. */
  function Callees(g: DiGraph, u: string): set<string> {
    set e | e in g.edges && e.0 == u :: e.1
  }

  /** `g.predecessors(u)`: the tails of the edges entering `u`. */
  function Callers(g: DiGraph, u: string): set<string> {
    set e | e in g.edges && e.1 == u :: e.0
  }

  /** The callees and callers of those of `ids` that are nodes. */
  function Neighbourhood(g: DiGraph, ids: seq<string>): set<string>
    decreases |ids|
  {
    if ids == [] then {}
    else
      var u := ids[|ids| - 1];
      Neighbourhood(g, ids[..|ids| - 1]) + (if u in g.nodes then Callees(g, u) + Callers(g, u) else {})
  }

  /** `relevant_ids` once the loop of `get_context_neighbors` is done. */
  function ContextIds(g: DiGraph, ids: seq<string>): set<string> {
    (set x | x in ids) + Neighbourhood(g, ids)
  }

  /** One step away from a node of `ids`, in either direction. */
  ghost predicate Adjacent(g: DiGraph, ids: seq<string>, x: string) {
    exists u :: u in ids && u in g.nodes && ((u, x) in g.edges || (x, u) in g.edges)
  }

  lemma {:induction false} NeighbourhoodMeaning(g: DiGraph, ids: seq<string>, x: string)
    decreases |ids|
    ensures x in Neighbourhood(g, ids) <==> Adjacent(g, ids, x)
  {
    if ids != [] {
      var front := ids[..|ids| - 1];
      var u := ids[|ids| - 1];
      NeighbourhoodMeaning(g, front, x);
      if Adjacent(g, ids, x) && !Adjacent(g, front, x) {
        var v :| v in ids && v in g.nodes && ((v, x) in g.edges || (x, v) in g.edges);
        assert v !in front;
        assert v == u by {
          assert ids == front + [u];
        }
        if (v, x) in g.edges {
          assert x in Callees(g, u);
        } else {
          assert x in Callers(g, u);
        }
      }
      if x in Neighbourhood(g, ids) && x !in Neighbourhood(g, front) {
        if x in Callees(g, u) {
          var e :| e in g.edges && e.0 == u && e.1 == x;
        } else {
          var e :| e in g.edges && e.1 == u && e.0 == x;
        }
      }
    }
  }

  /**
   * The ids `get_context_neighbors` considers: the requested ids themselves,
   * and every callee and caller of those of them that are nodes; `depth`
   * plays no part.
   */
  lemma ContextIdsMeaning(g: DiGraph, ids: seq<string>, x: string)
    ensures x in ContextIds(g, ids) <==> x in ids || Adjacent(g, ids, x)
  {
    NeighbourhoodMeaning(g, ids, x);
  }

  /** In a well-formed graph, being in each other's context is symmetric. */
  lemma ContextSymmetric(g: DiGraph, a: string, b: string)
    requires WellFormed(g) && a in g.nodes && b in g.nodes
    ensures b in ContextIds(g, [a]) <==> a in ContextIds(g, [b])
  {
    ContextIdsMeaning(g, [a], b);
    ContextIdsMeaning(g, [b], a);
  }

  /** A node with no edges has only itself as context. */
  lemma IsolatedContext(g: DiGraph, a: string)
    requires forall e | e in g.edges :: e.0 != a && e.1 != a
    ensures ContextIds(g, [a]) == {a}
  {
    forall x | x in ContextIds(g, [a])
      ensures x == a
    {
      ContextIdsMeaning(g, [a], x);
    }
  }

  // ---------------------------------------------------------------------
  // The builder object
  // ---------------------------------------------------------------------

  class GraphBuilder {
    const units: seq<CodeUnit>
    /** `unit_map`: each id mapped to the last unit that carries it. */
    const unitMap: map<string, CodeUnit>
    var graph: DiGraph

    /** Every id of `unit_map` leads to a unit carrying that id. */
    ghost predicate Valid()
      reads this
    {
      forall id | id in unitMap :: unitMap[id].id == id
    }

    constructor(units: seq<CodeUnit>)
      ensures this.units == units && unitMap == UnitMap(units) && graph == Empty
      ensures Valid()
    {
      this.units := units;
      this.unitMap := UnitMap(units);
      this.graph := Empty;
    }

    /**
     * `find_call_path`: `nx.shortest_path` on the current graph, with both of
     * its exceptions turned into `[]`. A non-empty result runs from `s` to `t`
     * along edges and no path is shorter; an empty result means there is no
     * path at all, an absent endpoint included; a node reaches itself by the
     * one-vertex path.
     */
    function FindCallPath(s: string, t: string): (r: seq<string>)
      reads this
      ensures r != [] ==> PathFromTo(graph, r, s, t) && forall q :: PathFromTo(graph, q, s, t) ==> |r| <= |q|
      ensures r == [] <==> forall q :: !PathFromTo(graph, q, s, t)
      ensures s !in graph.nodes || t !in graph.nodes ==> r == []
      ensures s == t && s in graph.nodes ==> r == [s]
    {
      if s in graph.nodes && t in graph.nodes then
        SearchCorrect(graph, s, t, 0);
        if s == t then SearchSelf(graph, s); Search(graph, s, t, 0)
        else Search(graph, s, t, 0)
      else
        NoPathWithoutEndpoints(graph, s, t);
        []
    }

    /** The loop filling `name_to_ids`. */
    method IndexNames() returns (nameToIds: map<string, seq<string>>)
      ensures forall s :: (s in nameToIds <==> IdsNamed(units, s) != [])
      ensures forall s :: Get(nameToIds, s) == IdsNamed(units, s)
    {
      nameToIds := map[];
      for i := 0 to |units|
        invariant forall s :: (s in nameToIds <==> IdsNamed(units[..i], s) != [])
        invariant forall s :: Get(nameToIds, s) == IdsNamed(units[..i], s)
      {
        var u := units[i];
        var name := SimpleName(u.name);
        assert units[..i + 1][..i] == units[..i];
        if name !in nameToIds {
          nameToIds := nameToIds[name := []];
        }
        nameToIds := nameToIds[name := nameToIds[name] + [u.id]];
      }
      assert units[..|units|] == units;
    }

    /** The innermost loop: an edge from `u` to each target id other than its own. */
    method AddTargets(u: CodeUnit, targets: seq<string>)
      modifies this
      ensures graph.nodes == old(graph.nodes)
      ensures graph.edges == old(graph.edges) + Labelled(Targets(u, targets))
    {
      assert Targets(u, targets[..0]) == {};
      assert graph.edges == old(graph.edges) + Labelled({});
      for j := 0 to |targets|
        invariant graph.nodes == old(graph.nodes)
        invariant graph.edges == old(graph.edges) + Labelled(Targets(u, targets[..j]))
      {
        TargetsStep(u, targets, j);
        if targets[j] != u.id {
          LabelledAdd(old(graph.edges), Targets(u, targets[..j]), (u.id, targets[j]));
          graph := graph.(edges := graph.edges[(u.id, targets[j]) := "call"]);
        }
      }
      assert targets[..|targets|] == targets;
    }

    /** The edges of one unit: for each call name, an edge to every unit of that simple name but itself. */
    method AddCallEdges(u: CodeUnit, nameToIds: map<string, seq<string>>)
      requires forall s :: Get(nameToIds, s) == IdsNamed(units, s)
      modifies this
      ensures graph.nodes == old(graph.nodes)
      ensures graph.edges == old(graph.edges) + Labelled(CallerEdges(u, u.calls, units))
    {
      var pending := u.calls;
      assert u.calls - pending == {};
      assert graph.edges == old(graph.edges) + Labelled({});
      while pending != {}
        invariant pending <= u.calls
        invariant graph.nodes == old(graph.nodes)
        invariant graph.edges == old(graph.edges) + Labelled(CallerEdges(u, u.calls - pending, units))
        decreases |pending|
      {
        var call :| call in pending;
        ghost var done := u.calls - pending;
        AddTargets(u, Get(nameToIds, call));
        CallerEdgesStep(u, done, call, units);
        LabelledUnion(old(graph.edges), CallerEdges(u, done, units), Targets(u, IdsNamed(units, call)));
        assert u.calls - (pending - {call}) == done + {call};
        pending := pending - {call};
      }
    }

    /** `build`: add a node per unit id, then the call edges, and return the graph. */
    method Build() returns (g: DiGraph)
      modifies this
      ensures g == graph
      ensures graph.nodes == AddNodes(old(graph.nodes), Ids(units))
      ensures graph.edges == old(graph.edges) + Labelled(CallEdges(units))
      ensures old(graph) == Empty ==> graph == BuiltGraph(units)
    {
      ghost var ids := Ids(units);
      for i := 0 to |units|
        invariant graph.nodes == AddNodes(old(graph.nodes), ids[..i])
        invariant graph.edges == old(graph.edges)
      {
        assert ids[..i + 1][..i] == ids[..i];
        if units[i].id !in graph.nodes {
          graph := graph.(nodes := graph.nodes + [units[i].id]);
        }
      }
      assert ids[..|units|] == ids;
      var nameToIds := IndexNames();
      assert graph.edges == old(graph.edges) + Labelled(EdgesFrom(units[..0], units));
      for i := 0 to |units|
        invariant graph.nodes == AddNodes(old(graph.nodes), ids)
        invariant graph.edges == old(graph.edges) + Labelled(EdgesFrom(units[..i], units))
      {
        EdgesFromStep(units, i);
        AddCallEdges(units[i], nameToIds);
        LabelledUnion(old(graph.edges), EdgesFrom(units[..i], units), CallerEdges(units[i], units[i].calls, units));
      }
      assert units[..|units|] == units;
      g := graph;
      if old(graph) == Empty {
        assert graph.edges == Labelled(CallEdges(units));
      }
    }

    /**
     * `get_context_neighbors`: the units of the requested ids and of their
     * callees and callers, one per id and only for ids `unit_map` knows, in
     * the (unspecified) iteration order of the set.
     */
    method GetContextNeighbors(unitIds: seq<string>, depth: int) returns (r: seq<CodeUnit>)
      requires Valid()
      ensures IdSet(r) == ContextIds(graph, unitIds) * unitMap.Keys
      ensures Distinct(Ids(r))
      ensures forall i :: 0 <= i < |r| ==> r[i].id in unitMap && r[i] == unitMap[r[i].id]
    {
      var relevant := set x | x in unitIds;
      for i := 0 to |unitIds|
        invariant relevant == (set x | x in unitIds) + Neighbourhood(graph, unitIds[..i])
      {
        var uid := unitIds[i];
        assert unitIds[..i + 1][..i] == unitIds[..i];
        if uid in graph.nodes {
          relevant := relevant + Callees(graph, uid);
          relevant := relevant + Callers(graph, uid);
        }
      }
      assert unitIds[..|unitIds|] == unitIds;
      r := UnitsOf(relevant);
    }

    /** The final comprehension: the unit of each id of `ids` that `unit_map` knows, each once. */
    method UnitsOf(ids: set<string>) returns (r: seq<CodeUnit>)
      requires Valid()
      ensures IdSet(r) == ids * unitMap.Keys
      ensures Distinct(Ids(r))
      ensures forall i :: 0 <= i < |r| ==> r[i].id in unitMap && r[i] == unitMap[r[i].id]
    {
      r := [];
      var rest := ids;
      while rest != {}
        invariant rest <= ids
        invariant IdSet(r) == (ids - rest) * unitMap.Keys
        invariant Distinct(Ids(r))
        invariant forall i :: 0 <= i < |r| ==> r[i].id in unitMap && r[i] == unitMap[r[i].id]
        decreases |rest|
      {
        var uid :| uid in rest;
        assert ids - (rest - {uid}) == (ids - rest) + {uid};
        if uid in unitMap {
          var u := unitMap[uid];
          assert u.id == uid;
          assert uid !in IdSet(r);
          AppendUnit(r, u);
          forall i | 0 <= i < |r| + 1
            ensures (r + [u])[i].id in unitMap && (r + [u])[i] == unitMap[(r + [u])[i].id]
          {
            if i < |r| {
              assert (r + [u])[i] == r[i];
            }
          }
          r := r + [u];
        }
        rest := rest - {uid};
      }
    }
  }
}
