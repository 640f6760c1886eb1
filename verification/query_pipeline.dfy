/**
 * The query pipeline: retrieval of the best units, their call-graph
 * neighbours, the edges among them as text lines, the generated answer,
 * and the retrieved ids attached as its sources.
 */
module Pipeline {
  import opened Wrappers
  import opened Text
  import opened CodeUnits
  import opened Graph
  import opened Retrieval
  import opened Llm

  /**
   * `[h[0] for h in top_hits]`. It projects ranked `Hit` pairs, not code
   * units, which is why it stands beside `CodeUnits.Ids`.
   */
  function HitIds(hs: seq<Hit>): (r: seq<string>)
    ensures |r| == |hs|
    ensures forall i :: 0 <= i < |hs| ==> r[i] == hs[i].id
  {
    seq(|hs|, i requires 0 <= i < |hs| => hs[i].id)
  }

  /**
   * The hits `query_top_k` returns on an index fitted on `units`: none for
   * no units, otherwise the selection of the ranked positions, which cannot
   * fail there since there is one unit per score.
   */
  function TopHits(units: seq<CodeUnit>, scores: seq<real>, order: seq<nat>, k: int): seq<Hit>
    requires units != [] ==> |scores| == |units| && IsArgsort(scores, order)
  {
    if units == [] then []
    else
      TopIndicesRanked(scores, order, k);
      SelectOkWhenConsistent(units, scores, TopIndices(order, k));
      Select(units, scores, TopIndices(order, k)).value
  }

  /** The line `run` writes for an edge and its `type` attribute. */
  function EdgeLine(e: Edge, tag: string): string {
    e.0 + " -> " + e.1 + " (" + tag + ")"
  }

  /** The edges of the subgraph on `ids`: the graph's edges with both ends in `ids`. */
  function SubEdges(g: DiGraph, ids: set<string>): set<Edge> {
    set e | e in g.edges && e.0 in ids && e.1 in ids
  }

  /**
   * `lines` lists the edges of the subgraph on `ids`, each exactly once, in
   * some order, each with its label.
   */
  ghost predicate ListsEdges(g: DiGraph, ids: set<string>, lines: seq<string>) {
    exists es: seq<Edge> ::
      && |es| == |lines|
      && Distinct(es)
      && (forall e :: e in es <==> e in SubEdges(g, ids))
      && (forall i :: 0 <= i < |es| ==> es[i] in g.edges && lines[i] == EdgeLine(es[i], g.edges[es[i]]))
  }

  /** `ctx` holds the unit `unit_map` gives for each id of `ids`, each once, in some order. */
  ghost predicate IsContext(ctx: seq<CodeUnit>, ids: set<string>, unitMap: map<string, CodeUnit>) {
    && IdSet(ctx) == ids
    && Distinct(Ids(ctx))
    && (forall i :: 0 <= i < |ctx| ==> ctx[i].id in unitMap && ctx[i] == unitMap[ctx[i].id])
  }

  /** A sequence without repetitions has as many distinct elements as it is long. */
  lemma {:induction false} DistinctCard<T>(s: seq<T>)
    requires Distinct(s)
    decreases |s|
    ensures |set x | x in s| == |s|
  {
    if s != [] {
      var front := s[..|s| - 1];
      var last := s[|s| - 1];
      DistinctCard(front);
      assert (set x | x in s) == (set x | x in front) + {last};
      assert last !in (set x | x in front) by {
        forall i | 0 <= i < |front| ensures front[i] != last {
          assert front[i] == s[i];
        }
      }
    }
  }

  /** Every edge of the built graph is a call edge labelled `"call"`. */
  lemma BuiltLabels(units: seq<CodeUnit>, e: Edge)
    requires e in BuiltGraph(units).edges
    ensures e in CallEdges(units) && BuiltGraph(units).edges[e] == "call"
  {
  }

  /** The edges a listing was made from, in listing order. */
  lemma ListingEdges(g: DiGraph, ids: set<string>, lines: seq<string>) returns (es: seq<Edge>)
    requires ListsEdges(g, ids, lines)
    ensures |es| == |lines| && Distinct(es)
    ensures forall e :: e in es <==> e in SubEdges(g, ids)
    ensures forall i :: 0 <= i < |es| ==> es[i] in g.edges && lines[i] == EdgeLine(es[i], g.edges[es[i]])
  {
    es :| && |es| == |lines| && Distinct(es)
      && (forall e :: e in es <==> e in SubEdges(g, ids))
      && (forall i :: 0 <= i < |es| ==> es[i] in g.edges && lines[i] == EdgeLine(es[i], g.edges[es[i]]));
  }

  /** A listing has one line per edge of the subgraph. */
  lemma ListingCount(g: DiGraph, ids: set<string>, lines: seq<string>)
    requires ListsEdges(g, ids, lines)
    ensures |lines| == |SubEdges(g, ids)|
  {
    var es := ListingEdges(g, ids, lines);
    DistinctCard(es);
    assert (set x | x in es) == SubEdges(g, ids);
  }

  /**
   * On the built graph the listed lines read `"u -> v (call)"`, both ends
   * among the context ids and the pair a call edge; there is one line per
   * edge of the subgraph.
   */
  lemma EdgeLinesAreCalls(units: seq<CodeUnit>, ids: set<string>, lines: seq<string>)
    requires ListsEdges(BuiltGraph(units), ids, lines)
    ensures |lines| == |SubEdges(BuiltGraph(units), ids)|
    ensures forall i :: 0 <= i < |lines| ==>
      exists u, v :: u in ids && v in ids && (u, v) in CallEdges(units) && lines[i] == EdgeLine((u, v), "call")
  {
    var g := BuiltGraph(units);
    ListingCount(g, ids, lines);
    var es := ListingEdges(g, ids, lines);
    forall i | 0 <= i < |lines|
      ensures exists u, v :: u in ids && v in ids && (u, v) in CallEdges(units) && lines[i] == EdgeLine((u, v), "call")
    {
      var e := es[i];
      assert e in SubEdges(g, ids);
      BuiltLabels(units, e);
      assert lines[i] == EdgeLine((e.0, e.1), "call");
    }
  }

  /** Nothing retrieved: no context ids. */
  lemma NoContextForNothing(g: DiGraph)
    ensures ContextIds(g, []) == {}
  {
    assert Neighbourhood(g, []) == {};
  }

  /** The context and the edge listing of no ids are empty. */
  lemma EmptyListing(ctx: seq<CodeUnit>, lines: seq<string>, g: DiGraph, unitMap: map<string, CodeUnit>)
    requires IsContext(ctx, {}, unitMap) && ListsEdges(g, {}, lines)
    ensures ctx == [] && lines == []
  {
    DistinctCard(Ids(ctx));
    assert (set x | x in Ids(ctx)) == IdSet(ctx);
    assert SubEdges(g, {}) == {};
    ListingCount(g, {}, lines);
  }

  /** Every retrieved id is the id of an indexed unit. */
  lemma TopIdsKnown(units: seq<CodeUnit>, scores: seq<real>, order: seq<nat>, k: int)
    requires units != [] ==> |scores| == |units| && IsArgsort(scores, order)
    ensures forall i :: 0 <= i < |TopHits(units, scores, order, k)| ==> HitIds(TopHits(units, scores, order, k))[i] in UnitMap(units)
  {
    if units != [] {
      TopIndicesRanked(scores, order, k);
      SelectOkWhenConsistent(units, scores, TopIndices(order, k));
      QueryResults(units, scores, order, k);
    }
  }

  // ---------------------------------------------------------------------
  // The pipeline object
  // ---------------------------------------------------------------------

  class QueryPipeline {
    const units: seq<CodeUnit>
    const unitMap: map<string, CodeUnit>
    const graphBuilder: GraphBuilder
    /** The graph `build` returned: the builder's own graph. */
    const graph: DiGraph
    const retriever: Retriever
    const llm: LLMClient

    /** What the constructor establishes and `run` relies on. */
    ghost predicate Valid()
      reads this, graphBuilder, retriever
    {
      && unitMap == UnitMap(units)
      && graphBuilder.units == units && graphBuilder.unitMap == unitMap && graphBuilder.Valid()
      && graphBuilder.graph == graph
      && retriever.units == units
      && (retriever.matrix.Some? <==> units != [])
      && (retriever.matrix.Some? ==> |retriever.matrix.value| == |units|)
    }

    /** `__init__`: map the ids, build the graph, index the units, set up the generator from `env`. */
    constructor(indexData: seq<CodeUnit>, env: map<string, string>)
      ensures units == indexData && unitMap == UnitMap(indexData)
      ensures graph == BuiltGraph(indexData)
      ensures retriever.units == indexData
      ensures retriever.matrix == (if indexData == [] then None else Some(Corpus(indexData)))
      ensures llm.provider == ChooseProvider(EnvOr(env, "LLM_PROVIDER", "none"), Truthy(llm.hfToken), Truthy(llm.openaiKey))
      ensures fresh(graphBuilder) && fresh(retriever) && fresh(llm)
      ensures Valid()
    {
      var gb := new GraphBuilder(indexData);
      var g := gb.Build();
      var rt := new Retriever(EnvGet(env, "OPENAI_API_KEY"));
      rt.IndexUnits(indexData);
      var client := new LLMClient(env);
      units := indexData;
      unitMap := UnitMap(indexData);
      graphBuilder := gb;
      graph := g;
      retriever := rt;
      llm := client;
    }

    /** The loop over the subgraph's edges, in the (unspecified) order networkx yields them. */
    method EdgeLines(ids: set<string>) returns (lines: seq<string>)
      ensures ListsEdges(graph, ids, lines)
    {
      lines := [];
      ghost var es: seq<Edge> := [];
      var pending := SubEdges(graph, ids);
      while pending != {}
        invariant pending <= SubEdges(graph, ids)
        invariant |es| == |lines| && Distinct(es)
        invariant forall e :: e in es <==> e in SubEdges(graph, ids) - pending
        invariant forall i :: 0 <= i < |es| ==> es[i] in graph.edges && lines[i] == EdgeLine(es[i], graph.edges[es[i]])
        decreases |pending|
      {
        var e :| e in pending;
        assert e !in es;
        lines := lines + [EdgeLine(e, graph.edges[e])];
        es := es + [e];
        pending := pending - {e};
      }
    }

    /**
     * `run`, given the query's similarity to each unit and an argsort of
     * those scores (the TF-IDF step), and the remote calls of the
     * generator. The answer is the generator's, for the context of the
     * retrieved units and their neighbours and the edges among them, with
     * the retrieved ids, best first, as its sources; `k` is 5 unless given.
     */
    method Run(question: string, scores: seq<real>, order: seq<nat>,
               hf: string -> string,
               openai: (string, string, string) -> Option<string>,
               decode: string -> Decoded, k: int := 5) returns (answer: Answer)
      requires Valid()
      requires units != [] ==> |scores| == |units| && IsArgsort(scores, order)
      ensures var top := HitIds(TopHits(units, scores, order, k));
        Sources in answer && answer[Sources] == Strs(top)
      ensures var top := HitIds(TopHits(units, scores, order, k));
        var ids := (set x | x in top) + ContextIds(graph, top) * unitMap.Keys;
        exists ctx, lines ::
          && IsContext(ctx, ids, unitMap)
          && ListsEdges(graph, ids, lines)
          && answer == llm.Respond(question, ctx, lines, hf, openai, decode)[Sources := Strs(top)]
      ensures TopHits(units, scores, order, k) == [] ==>
        answer == llm.Respond(question, [], [], hf, openai, decode)[Sources := Strs([])]
    {
      var hits := retriever.QueryTopK(scores, order, k);
      assert hits == Ok(TopHits(units, scores, order, k));
      var topIds := HitIds(hits.value);
      var contextUnits := graphBuilder.GetContextNeighbors(topIds, 1);
      var allIds := (set x | x in topIds) + IdSet(contextUnits);
      var finalContext := graphBuilder.UnitsOf(allIds);
      assert allIds <= unitMap.Keys by {
        TopIdsKnown(units, scores, order, k);
      }
      assert IsContext(finalContext, allIds, unitMap);
      var graphEdges := EdgeLines(allIds);
      if topIds == [] {
        assert allIds == {} by {
          NoContextForNothing(graph);
        }
        EmptyListing(finalContext, graphEdges, graph, unitMap);
      }
      answer := llm.GenerateAnswer(question, finalContext, graphEdges, hf, openai, decode);
      answer := answer[Sources := Strs(topIds)];
    }
  }
}
