/**
 * Top-k retrieval over the indexed units. The TF-IDF vectoriser and the
 * cosine similarity are floating-point library code: a query's similarity
 * to every indexed document is given as a sequence of scores, and numpy's
 * `argsort` of it as a sequence of indices.
 */
module Retrieval {
  import opened Wrappers
  import opened Text
  import opened CodeUnits

  // ---------------------------------------------------------------------
  // The corpus
  // ---------------------------------------------------------------------

  /** `u.get('docstring', '')` inside an f-string: a stored `None` renders as `"None"`. */
  function DocText(d: Option<string>): string {
    match d
    case None => "None"
    case Some(s) => s
  }

  /** The text the vectoriser sees for one unit: name, kind, docstring and code, separated by blanks. */
  function CorpusText(u: CodeUnit): string {
    u.name + " " + KindName(u.kind) + " " + DocText(u.docstring) + " " + u.code
  }

  function Corpus(units: seq<CodeUnit>): (r: seq<string>)
    ensures |r| == |units|
    ensures forall i :: 0 <= i < |units| ==> r[i] == CorpusText(units[i])
  {
    seq(|units|, i requires 0 <= i < |units| => CorpusText(units[i]))
  }

  /**
   * A corpus entry opens with the unit's name and kind, closes with its
   * code, and holds the docstring (or `"None"`) in between; a unit without
   * a docstring is indexed under the word `None`.
   */
  lemma CorpusTextLayout(u: CodeUnit)
    ensures var t := CorpusText(u);
      && StartsWith(t, u.name + " " + KindName(u.kind) + " ")
      && EndsWith(t, " " + u.code)
      && IsAt(t, DocText(u.docstring), |u.name| + |KindName(u.kind)| + 2)
      && |t| == |u.name| + |KindName(u.kind)| + |DocText(u.docstring)| + |u.code| + 3
      && (u.docstring.None? ==> IsAt(t, " None ", |u.name| + |KindName(u.kind)| + 1))
  {
    var t := CorpusText(u);
    var head := u.name + " " + KindName(u.kind) + " ";
    var d := DocText(u.docstring);
    assert t == head + d + " " + u.code;
    assert t[..|head|] == head;
    assert t[|t| - |u.code| - 1..] == " " + u.code;
    assert t[|head|..|head| + |d|] == d;
    if u.docstring.None? {
      assert t[|head| - 1..|head| + 5] == " None ";
    }
  }

  // ---------------------------------------------------------------------
  // Ranking
  // ---------------------------------------------------------------------

  /** Every element of `s` is a position of a sequence of length `n`. */
  predicate Positions(s: seq<nat>, n: nat) {
    forall i :: 0 <= i < |s| ==> s[i] < n
  }

  /** Positions of `scores`, in ascending order of score. */
  predicate Ascending(scores: seq<real>, order: seq<nat>) {
    && Positions(order, |scores|)
    && (forall a, b :: 0 <= a < b < |order| ==> scores[order[a]] <= scores[order[b]])
  }

  /**
   * `order` is an `argsort` of `scores`: a permutation of its positions in
   * ascending order of score. Ties may come in any order.
   */
  predicate IsArgsort(scores: seq<real>, order: seq<nat>) {
    && |order| == |scores|
    && Ascending(scores, order)
    && (forall j :: 0 <= j < |scores| ==> j in order)
    && Distinct(order)
  }

  /** Positions of `scores`, ranked from the highest score down. */
  predicate Ranked(scores: seq<real>, s: seq<nat>) {
    && (forall i :: 0 <= i < |s| ==> s[i] < |scores|)
    && (forall a, b :: 0 <= a < b < |s| ==> scores[s[a]] >= scores[s[b]])
  }

  /** Python's `s[-k:]` for any integer `k`, including Python's clamping of the start. */
  function PyTail<T>(s: seq<T>, k: int): (r: seq<T>)
    ensures k > 0 ==> r == s[|s| - (if k < |s| then k else |s|)..]
    ensures k == 0 ==> r == s
    ensures k < 0 ==> r == s[(if -k < |s| then -k else |s|)..]
  {
    var start := -k;
    var start := if start < 0 then start + |s| else start;
    var start := if start < 0 then 0 else if start > |s| then |s| else start;
    s[start..]
  }

  /** `s[::-1]`. */
  function Reverse<T>(s: seq<T>): (r: seq<T>)
    ensures |r| == |s|
    ensures forall i :: 0 <= i < |s| ==> r[i] == s[|s| - 1 - i]
  {
    seq(|s|, i requires 0 <= i < |s| => s[|s| - 1 - i])
  }

  /** How many positions `[-k:]` keeps of `n`. */
  function TopCount(n: nat, k: int): (c: nat)
    ensures c <= n
  {
    if k > 0 then (if k < n then k else n)
    else if k == 0 then n
    else if -k < n then n + k
    else 0
  }

  /** The positions `query_top_k` visits: the last `TopCount` entries of the ranking, highest first. */
  function TopIndices(order: seq<nat>, k: int): (r: seq<nat>)
    ensures |r| == TopCount(|order|, k)
    ensures forall a :: 0 <= a < |r| ==> r[a] == order[|order| - 1 - a]
  {
    seq(TopCount(|order|, k), a requires 0 <= a < TopCount(|order|, k) => order[|order| - 1 - a])
  }

  /** The visited positions are exactly `cosine_similarities.argsort()[-k:][::-1]`. */
  lemma TopIndicesSliced(order: seq<nat>, k: int)
    ensures TopIndices(order, k) == Reverse(PyTail(order, k))
  {
    var tail := PyTail(order, k);
    var start := |order| - |tail|;
    assert tail == order[start..];
    assert |tail| == TopCount(|order|, k);
  }

  /** The positions `query_top_k` visits are each visited once. */
  lemma TopIndicesDistinct(order: seq<nat>, k: int)
    requires Distinct(order)
    ensures Distinct(TopIndices(order, k))
  {
    var top := TopIndices(order, k);
    var n := |order|;
    forall a, b | 0 <= a < b < |top|
      ensures top[a] != top[b]
    {
      assert top[a] == order[n - 1 - a] && top[b] == order[n - 1 - b];
    }
  }

  /** The positions `query_top_k` visits are in range and best first. */
  lemma TopIndicesRanked(scores: seq<real>, order: seq<nat>, k: int)
    requires Ascending(scores, order)
    ensures Ranked(scores, TopIndices(order, k))
  {
    var top := TopIndices(order, k);
    var n := |order|;
    forall a | 0 <= a < |top|
      ensures top[a] < |scores|
    {
      assert top[a] == order[n - 1 - a];
    }
    forall a, b | 0 <= a < b < |top|
      ensures scores[top[a]] >= scores[top[b]]
    {
      assert top[a] == order[n - 1 - a] && top[b] == order[n - 1 - b];
    }
  }

  /** As many positions as `k` asks for, and all of them for `k == 0`, the quirk of `[-0:]`. */
  lemma TopIndicesLength(scores: seq<real>, order: seq<nat>, k: int)
    requires |order| == |scores|
    ensures k >= 1 ==> |TopIndices(order, k)| == if k < |scores| then k else |scores|
    ensures k == 0 ==> TopIndices(order, k) == Reverse(order)
  {
  }

  /** No position left out scores above one taken. */
  lemma TopIndicesBest(scores: seq<real>, order: seq<nat>, k: int)
    requires Ascending(scores, order)
    requires forall j :: 0 <= j < |scores| ==> j in order
    ensures var top := TopIndices(order, k);
      forall j, t :: 0 <= j < |scores| && j !in top && t in top ==> scores[j] <= scores[t]
  {
    var top := TopIndices(order, k);
    var n := |order|;
    forall p | n - |top| <= p < n
      ensures order[p] in top
    {
      assert top[n - 1 - p] == order[p];
    }
    forall j, t | 0 <= j < |scores| && j !in top && t in top
      ensures scores[j] <= scores[t]
    {
      assert j in order;
      var p :| 0 <= p < n && order[p] == j;
      var q :| 0 <= q < |top| && top[q] == t;
      assert order[n - 1 - q] == t;
    }
  }

  // ---------------------------------------------------------------------
  // Selection
  // ---------------------------------------------------------------------

  /** One result pair `(unit id, score)`. */
  datatype Hit = Hit(id: string, score: real)

  /** The positions of `top` whose score is positive, in order. */
  function Kept(scores: seq<real>, top: seq<nat>): (r: seq<nat>)
    requires forall i :: 0 <= i < |top| ==> top[i] < |scores|
    decreases |top|
    ensures forall i :: 0 <= i < |r| ==> r[i] < |scores|
  {
    if top == [] then []
    else
      var front := top[..|top| - 1];
      var j := top[|top| - 1];
      assert forall i :: 0 <= i < |front| ==> front[i] == top[i];
      Kept(scores, front) + (if scores[j] > 0.0 then [j] else [])
  }

  /** Dropping the zero scores keeps exactly the positive-scoring positions, and never adds any. */
  lemma {:induction false} KeptMembers(scores: seq<real>, top: seq<nat>)
    requires forall i :: 0 <= i < |top| ==> top[i] < |scores|
    decreases |top|
    ensures var ks := Kept(scores, top);
      && |ks| <= |top|
      && (forall x :: x in ks <==> x in top && scores[x] > 0.0)
  {
    if top != [] {
      var front := top[..|top| - 1];
      var j := top[|top| - 1];
      assert top == front + [j];
      KeptMembers(scores, front);
    }
  }

  /** A ranking without repeats stays without repeats once the zero scores are dropped. */
  lemma {:induction false} KeptDistinct(scores: seq<real>, top: seq<nat>)
    requires forall i :: 0 <= i < |top| ==> top[i] < |scores|
    requires Distinct(top)
    decreases |top|
    ensures Distinct(Kept(scores, top))
  {
    if top != [] {
      var front := top[..|top| - 1];
      var j := top[|top| - 1];
      assert top == front + [j];
      assert Distinct(front) by {
        forall a, b | 0 <= a < b < |front| ensures front[a] != front[b] {
          assert front[a] == top[a] && front[b] == top[b];
        }
      }
      KeptDistinct(scores, front);
      KeptMembers(scores, front);
      assert j !in front by {
        forall a | 0 <= a < |front| ensures front[a] != j {
          assert front[a] == top[a];
        }
      }
    }
  }

  /** A ranking, best first, stays ranked once the zero scores are dropped. */
  lemma {:induction false} KeptRanked(scores: seq<real>, top: seq<nat>)
    requires Ranked(scores, top)
    decreases |top|
    ensures Ranked(scores, Kept(scores, top))
  {
    if top != [] {
      var front := top[..|top| - 1];
      var j := top[|top| - 1];
      assert Ranked(scores, front) by {
        forall a, b | 0 <= a < b < |front| ensures scores[front[a]] >= scores[front[b]] {
          assert front[a] == top[a] && front[b] == top[b];
        }
      }
      KeptRanked(scores, front);
      var kf := Kept(scores, front);
      var ks := Kept(scores, top);
      assert ks == kf + (if scores[j] > 0.0 then [j] else []);
      forall a, b | 0 <= a < b < |ks|
        ensures scores[ks[a]] >= scores[ks[b]]
      {
        if b >= |kf| {
          assert ks[b] == j && ks[a] == kf[a];
          assert scores[kf[a]] >= scores[j] by {
            KeptMembers(scores, front);
            assert kf[a] in kf;
            var c :| 0 <= c < |front| && front[c] == kf[a];
            assert top[c] == kf[a] && top[|top| - 1] == j;
          }
        }
      }
    }
  }

  /** The hits of a list of positions every one of which names a unit. */
  function HitsOf(units: seq<CodeUnit>, scores: seq<real>, ks: seq<nat>): (r: seq<Hit>)
    requires forall i :: 0 <= i < |ks| ==> ks[i] < |units| && ks[i] < |scores|
    ensures |r| == |ks|
    ensures forall i :: 0 <= i < |ks| ==> r[i] == Hit(units[ks[i]].id, scores[ks[i]])
  {
    seq(|ks|, i requires 0 <= i < |ks| => Hit(units[ks[i]].id, scores[ks[i]]))
  }

  /**
   * The loop of `query_top_k` over the ranked positions `top`: a hit per
   * positive score, or Python's `IndexError` when a positive score sits at
   * a position past the end of `units`.
   */
  function Select(units: seq<CodeUnit>, scores: seq<real>, top: seq<nat>): Result<seq<Hit>, string>
    requires forall i :: 0 <= i < |top| ==> top[i] < |scores|
  {
    var ks := Kept(scores, top);
    KeptMembers(scores, top);
    if forall i :: 0 <= i < |ks| ==> ks[i] < |units| then Ok(HitsOf(units, scores, ks))
    else Err("IndexError")
  }

  /** Selection fails exactly when a positive score points past the units. */
  lemma SelectFails(units: seq<CodeUnit>, scores: seq<real>, top: seq<nat>)
    requires forall i :: 0 <= i < |top| ==> top[i] < |scores|
    ensures Select(units, scores, top).Err? <==> exists i :: 0 <= i < |top| && scores[top[i]] > 0.0 && top[i] >= |units|
  {
    KeptMembers(scores, top);
    var ks := Kept(scores, top);
    if Select(units, scores, top).Err? {
      var a :| 0 <= a < |ks| && ks[a] >= |units|;
      assert ks[a] in top;
    }
    if exists i :: 0 <= i < |top| && scores[top[i]] > 0.0 && top[i] >= |units| {
      var i :| 0 <= i < |top| && scores[top[i]] > 0.0 && top[i] >= |units|;
      assert top[i] in ks;
    }
  }

  /** With one unit per score, as after any non-empty `index_units`, selection never fails. */
  lemma SelectOkWhenConsistent(units: seq<CodeUnit>, scores: seq<real>, top: seq<nat>)
    requires forall i :: 0 <= i < |top| ==> top[i] < |scores|
    requires |units| == |scores|
    ensures Select(units, scores, top).Ok?
  {
    SelectFails(units, scores, top);
  }

  /**
   * What `query_top_k` returns on a consistent index: at most `k` hits for
   * `k >= 1`, every score positive, best first, each from a different
   * position, each naming an indexed unit, and no positive-scoring position
   * left out scores above a returned one.
   */
  lemma QueryResults(units: seq<CodeUnit>, scores: seq<real>, order: seq<nat>, k: int)
    requires IsArgsort(scores, order)
    requires Select(units, scores, TopIndices(order, k)).Ok?
    ensures var hs := Select(units, scores, TopIndices(order, k)).value;
      var ks := Kept(scores, TopIndices(order, k));
      && hs == HitsOf(units, scores, ks)
      && Distinct(ks)
      && (k >= 1 ==> |hs| <= k)
      && (forall i :: 0 <= i < |hs| ==> hs[i].score > 0.0 && hs[i].id in IdSet(units))
      && (forall a, b :: 0 <= a < b < |hs| ==> hs[a].score >= hs[b].score)
      && (forall j, i :: 0 <= j < |scores| && j !in ks && 0 <= i < |hs| ==> scores[j] <= hs[i].score)
  {
    var top := TopIndices(order, k);
    TopIndicesRanked(scores, order, k);
    TopIndicesDistinct(order, k);
    TopIndicesLength(scores, order, k);
    TopIndicesBest(scores, order, k);
    KeptMembers(scores, top);
    KeptDistinct(scores, top);
    KeptRanked(scores, top);
    var ks := Kept(scores, top);
    var hs := Select(units, scores, top).value;
    forall i | 0 <= i < |hs|
      ensures hs[i].score > 0.0 && hs[i].id in IdSet(units)
    {
      assert ks[i] in ks;
      assert units[ks[i]] in units;
    }
    forall a, b | 0 <= a < b < |hs|
      ensures hs[a].score >= hs[b].score
    {
    }
    forall j, i | 0 <= j < |scores| && j !in ks && 0 <= i < |hs|
      ensures scores[j] <= hs[i].score
    {
      assert ks[i] in ks;
      if scores[j] > 0.0 {
        assert j !in top;
      }
    }
  }

  /** `k == 0` returns every positive-scoring unit, because `[-0:]` is the whole ranking. */
  lemma ZeroKReturnsAllPositive(units: seq<CodeUnit>, scores: seq<real>, order: seq<nat>)
    requires IsArgsort(scores, order)
    ensures forall j :: j in Kept(scores, TopIndices(order, 0)) <==> 0 <= j < |scores| && scores[j] > 0.0
  {
    TopIndicesRanked(scores, order, 0);
    var top := TopIndices(order, 0);
    KeptMembers(scores, top);
    forall j | 0 <= j < |scores|
      ensures j in top
    {
      assert j in order;
      var p :| 0 <= p < |order| && order[p] == j;
      assert top[|order| - 1 - p] == j;
    }
  }

  // ---------------------------------------------------------------------
  // The retriever object
  // ---------------------------------------------------------------------

  class Retriever {
    var units: seq<CodeUnit>
    /** The fitted TF-IDF matrix, identified with the corpus it was fitted on; `None` before any fit. */
    var matrix: Option<seq<string>>
    /** Whether an OpenAI key was configured; retrieval is TF-IDF either way. */
    const useOpenai: bool

    constructor(openaiKey: Option<string>)
      ensures units == [] && matrix == None && useOpenai == Truthy(openaiKey)
    {
      units := [];
      matrix := None;
      useOpenai := Truthy(openaiKey);
    }

    /**
     * `index_units`: the units are always replaced; the matrix is refitted on
     * their corpus, except for an empty list, which leaves the old matrix.
     */
    method IndexUnits(us: seq<CodeUnit>)
      modifies this
      ensures units == us
      ensures matrix == if us == [] then old(matrix) else Some(Corpus(us))
    {
      units := us;
      var corpus := Corpus(us);
      if corpus == [] {
        return;
      }
      matrix := Some(corpus);
    }

    /**
     * `query_top_k`, given the query's similarity to each fitted document and
     * an argsort of those scores: `[]` before any fit, otherwise the hits of
     * the `k` best positions that score above zero, best first; `k` is 5
     * unless given.
     */
    method QueryTopK(scores: seq<real>, order: seq<nat>, k: int := 5) returns (r: Result<seq<Hit>, string>)
      requires matrix.Some? ==> |scores| == |matrix.value| && IsArgsort(scores, order)
      ensures matrix.None? ==> r == Ok([])
      ensures matrix.Some? ==> r == Select(units, scores, TopIndices(order, k))
    {
      if matrix.None? {
        return Ok([]);
      }
      var top := TopIndices(order, k);
      TopIndicesRanked(scores, order, k);
      r := Collect(scores, top);
    }

    /** The loop of `query_top_k` over the visited positions. */
    method Collect(scores: seq<real>, top: seq<nat>) returns (r: Result<seq<Hit>, string>)
      requires Positions(top, |scores|)
      ensures r == Select(units, scores, top)
    {
      var results := [];
      for i := 0 to |top|
        invariant forall a :: 0 <= a < |Kept(scores, top[..i])| ==> Kept(scores, top[..i])[a] < |units|
        invariant results == HitsOf(units, scores, Kept(scores, top[..i]))
      {
        var idx := top[i];
        var score := scores[idx];
        assert Kept(scores, top[..i + 1]) == Kept(scores, top[..i]) + (if score > 0.0 then [idx] else []) by {
          assert top[..i + 1][..i] == top[..i];
        }
        if score > 0.0 {
          if idx >= |units| {
            assert Select(units, scores, top).Err? by {
              KeptMembers(scores, top);
              assert idx in top;
              var ks := Kept(scores, top);
              assert idx in ks;
            }
            return Err("IndexError");
          }
          results := results + [Hit(units[idx].id, score)];
        }
      }
      assert top[..|top|] == top;
      r := Ok(results);
    }
  }

  /**
   * Re-indexing with an empty list keeps the old matrix but empties the
   * units, so a later query that ranks any positive score fails with
   * `IndexError` instead of returning `[]`.
   */
  lemma StaleIndexRaises(scores: seq<real>, top: seq<nat>)
    requires forall i :: 0 <= i < |top| ==> top[i] < |scores|
    ensures Select([], scores, top).Err? <==> exists i :: 0 <= i < |top| && scores[top[i]] > 0.0
  {
    SelectFails([], scores, top);
  }
}
