/**
 * The retrieval engine: ranks (id, text) items against a query.
 *
 * Phase one scores every item by the cosine of its embedding with the query
 * embedding, or, when no embeddings are available, by the Jaccard overlap of
 * their token sets; it keeps the best `preselect` items.  Phase two, when a
 * cross-encoder is loaded and at least two candidates remain, replaces the
 * scores by the cross-encoder's, min-max scaled to [0, 1], and re-sorts.
 *
 * The models themselves are outside the model: the embedding vectors and the
 * cross-encoder scores are inputs, and which model names can be loaded is
 * part of the environment `Env`.  Rank is the specification of the whole
 * pipeline; the ModelRegistry class holds the module-level cache of loaded
 * models and its methods are proved to compute Rank.
 */
module Rag {
  import opened Wrappers
  import opened Text
  import opened Numeric
  import opened Sorting

  datatype Item = Item(id: string, text: string)
  datatype Scored = Scored(id: string, text: string, score: real)

  function ScoreOf(x: Scored): real { x.score }
  function PairOf(x: Scored): Item { Item(x.id, x.text) }

  /** The (id, text) pairs of a ranking, dropping the scores. */
  function Pairs(s: seq<Scored>): seq<Item> { MapSeq(s, PairOf) }

  predicate ScoresInUnit(s: seq<Scored>) {
    forall i :: 0 <= i < |s| ==> 0.0 <= s[i].score <= 1.0
  }

  /** Every entry of r is an input item, and no item is used more often than it was given. */
  predicate DrawnFrom(r: seq<Scored>, items: seq<Item>) {
    multiset(Pairs(r)) <= multiset(items)
  }

  const DefaultPreselect: int := 50
  const WarmupBatch: int := 16
  const WarmupTexts: seq<string> := ["warmup", "initialize embeddings", "smarthire"]

  function Min(a: int, b: int): int { if a < b then a else b }
  function Max(a: int, b: int): int { if a < b then b else a }

  // ------------------------------------------------------------ similarity

  function Dot(u: seq<real>, v: seq<real>): real
    requires |u| == |v|
  {
    if u == [] then 0.0 else Dot(u[..|u| - 1], v[..|v| - 1]) + u[|u| - 1] * v[|v| - 1]
  }

  /** Cosine of two normalised vectors: their dot product clamped to [0, 1]; 0 for empty or mismatched vectors. */
  function Cosine(u: seq<real>, v: seq<real>): (r: real)
    ensures 0.0 <= r <= 1.0
    ensures |u| == 0 || |v| == 0 || |u| != |v| ==> r == 0.0
    ensures |u| == |v| > 0 && 0.0 <= Dot(u, v) <= 1.0 ==> r == Dot(u, v)
    ensures |u| == |v| > 0 && Dot(u, v) > 1.0 ==> r == 1.0
  {
    if |u| == 0 || |v| == 0 || |u| != |v| then 0.0 else Clamp(Dot(u, v), 0.0, 1.0)
  }

  /** The token set of a text: its whitespace-separated words, lower-cased. */
  function TokSet(t: string): set<string> {
    set w | w in Words(t) && Strip(w) != "" :: Lower(Strip(w))
  }

  /** |qs & ts| / |qs | ts|, and 0 when either set is empty. */
  function Jaccard(qs: set<string>, ts: set<string>): (r: real)
    ensures 0.0 <= r <= 1.0
    ensures qs == {} || ts == {} ==> r == 0.0
  {
    if qs == {} || ts == {} then 0.0
    else
      var inter, union := |qs * ts|, |qs + ts|;
      SubsetCard(qs * ts, qs + ts);
      assert qs <= qs + ts;
      SubsetCard(qs, qs + ts);
      if union == 0 then 0.0 else inter as real / union as real
  }

  lemma SubsetCard(a: set<string>, b: set<string>)
    requires a <= b
    ensures |a| <= |b|
    ensures |a| == |b| ==> a == b
  {
    assert b == a + (b - a);
    assert |b| == |a| + |b - a|;
    if |a| == |b| {
      assert |b - a| == 0;
      assert b - a == {};
    }
  }

  /** Similarity is 1 exactly when both token sets are the same non-empty set. */
  lemma JaccardOne(qs: set<string>, ts: set<string>)
    ensures Jaccard(qs, ts) == 1.0 <==> qs != {} && qs == ts
  {
    if qs != {} && ts != {} {
      var i, u := qs * ts, qs + ts;
      SubsetCard(i, u);
      assert qs <= u;
      SubsetCard(qs, u);
      if Jaccard(qs, ts) == 1.0 {
        assert |i| as real == |u| as real;
        assert i == u;
        assert qs <= i && ts <= i;
      }
    }
  }

  /** Similarity is 0 exactly when the token sets share nothing. */
  lemma JaccardZero(qs: set<string>, ts: set<string>)
    ensures Jaccard(qs, ts) == 0.0 <==> qs * ts == {}
  {
    if qs != {} && ts != {} && qs * ts != {} {
      var x :| x in qs * ts;
      assert |qs * ts| > 0;
      assert qs <= qs + ts;
      SubsetCard(qs, qs + ts);
    }
  }

  // ------------------------------------------------------------ phase one

  function JaccardScored(query: string, items: seq<Item>): (r: seq<Scored>)
    ensures Pairs(r) == items
    ensures ScoresInUnit(r)
    ensures forall i :: 0 <= i < |r| ==> r[i].score == Jaccard(TokSet(query), TokSet(items[i].text))
  {
    var qs := TokSet(query);
    seq(|items|, i requires 0 <= i < |items| => Scored(items[i].id, items[i].text, Jaccard(qs, TokSet(items[i].text))))
  }

  /** zip(items, vecs) scored by cosine with the query vector. */
  function CosineScored(qv: seq<real>, vecs: seq<seq<real>>, items: seq<Item>): (r: seq<Scored>)
    ensures |r| == Min(|items|, |vecs|)
    ensures Pairs(r) == items[..|r|]
    ensures ScoresInUnit(r)
  {
    seq(Min(|items|, |vecs|), i requires 0 <= i < Min(|items|, |vecs|) => Scored(items[i].id, items[i].text, Cosine(qv, vecs[i])))
  }

  /** The embedding ranking: none without vectors, else the best k of the cosine scores. */
  function EmbeddingPhase(embs: Option<seq<seq<real>>>, items: seq<Item>, k: int): Option<seq<Scored>> {
    if embs.None? || |embs.value| == 0 then None
    else Some(PyPrefix(SortDesc(CosineScored(embs.value[0], embs.value[1..], items), ScoreOf), k))
  }

  /** The Jaccard ranking: the best k of the token-overlap scores. */
  function JaccardPhase(query: string, items: seq<Item>, k: int): seq<Scored> {
    PyPrefix(SortDesc(JaccardScored(query, items), ScoreOf), k)
  }

  /** min(max(top_k, floor), n): how many candidates phase one keeps. */
  function Preselect(topK: int, floor: int, n: int): (p: int)
    ensures p <= n
    ensures topK <= n ==> topK <= p
    ensures floor <= n ==> floor <= p
  {
    Min(Max(topK, floor), n)
  }

  /** Phase one: the embedding ranking, or the Jaccard ranking when it is missing or empty. */
  function FirstPhase(query: string, items: seq<Item>, pre: int, embs: Option<seq<seq<real>>>): seq<Scored> {
    var e := EmbeddingPhase(embs, items, pre);
    if e.Some? && e.value != [] then e.value else JaccardPhase(query, items, pre)
  }

  // ------------------------------------------------------------ phase two

  /** (s - lo) / rng with rng = (hi - lo) or 1.0. */
  function Scale(s: real, lo: real, hi: real): real {
    (s - lo) / (if hi - lo == 0.0 then 1.0 else hi - lo)
  }

  /** The reranker scores min-max scaled, zipped with the candidates. */
  function Rescaled(ranked: seq<Scored>, scores: seq<real>): (r: seq<Scored>)
    requires |scores| > 0
    ensures |r| == Min(|ranked|, |scores|)
    ensures Pairs(r) == Pairs(ranked)[..|r|]
  {
    var lo, hi := MinOf(scores), MaxOf(scores);
    seq(Min(|ranked|, |scores|), i requires 0 <= i < Min(|ranked|, |scores|) => Scored(ranked[i].id, ranked[i].text, Scale(scores[i], lo, hi)))
  }

  /**
   * best_matches(query, items, top_k): `embs` is what the embedder returned
   * for [query] + texts (None when there is no embedder or encoding failed),
   * `rerank` what the cross-encoder returned for the phase-one candidates
   * (None when there is no reranker or prediction failed).
   */
  function Rank(query: string, items: seq<Item>, topK: int, floor: int,
                embs: Option<seq<seq<real>>>, rerank: Option<seq<real>>): seq<Scored>
  {
    if items == [] then []
    else
      Reranked(FirstPhase(query, items, Preselect(topK, floor, |items|), embs), topK, rerank)
  }

  /** Phase two: rerank and cut to top_k when scores are given for at least two candidates. */
  function Reranked(ranked: seq<Scored>, topK: int, rerank: Option<seq<real>>): seq<Scored> {
    if rerank.Some? && |ranked| >= 2 && |rerank.value| > 0 then
      PyPrefix(SortDesc(Rescaled(ranked, rerank.value), ScoreOf), topK)
    else PyPrefix(ranked, topK)
  }

  // ------------------------------------------------------------ lemmas

  lemma DivUnit(a: real, b: real)
    requires 0.0 <= a <= b && b > 0.0
    ensures 0.0 <= a / b <= 1.0
  {
  }

  /** Rescaled scores lie in [0, 1]. */
  lemma RescaledInUnit(ranked: seq<Scored>, scores: seq<real>)
    requires |scores| > 0
    ensures ScoresInUnit(Rescaled(ranked, scores))
  {
    var lo, hi := MinOf(scores), MaxOf(scores);
    var r := Rescaled(ranked, scores);
    forall i | 0 <= i < |r| ensures 0.0 <= r[i].score <= 1.0 {
      assert r[i].score == Scale(scores[i], lo, hi);
      if hi - lo != 0.0 {
        DivUnit(scores[i] - lo, hi - lo);
      }
    }
  }

  /** When the reranker gives every candidate the same score, every rescaled score is 0. */
  lemma RescaledAllEqual(ranked: seq<Scored>, scores: seq<real>)
    requires |scores| > 0
    requires forall i :: 0 <= i < |scores| ==> scores[i] == scores[0]
    ensures forall i :: 0 <= i < |Rescaled(ranked, scores)| ==> Rescaled(ranked, scores)[i].score == 0.0
  {
  }

  /** Otherwise the lowest reranker score becomes 0 and the highest becomes 1. */
  lemma RescaledExtremes(ranked: seq<Scored>, scores: seq<real>, i: int, j: int)
    requires |scores| > 0 && 0 <= i < |ranked| && i < |scores| && 0 <= j < |scores|
    requires scores[j] != scores[i]
    ensures scores[i] == MaxOf(scores) ==> Rescaled(ranked, scores)[i].score == 1.0
    ensures scores[i] == MinOf(scores) ==> Rescaled(ranked, scores)[i].score == 0.0
  {
    var lo, hi := MinOf(scores), MaxOf(scores);
    assert lo <= scores[i] <= hi && lo <= scores[j] <= hi;
    assert Rescaled(ranked, scores)[i].score == Scale(scores[i], lo, hi);
    ScaleEnds(lo, hi);
  }

  lemma ScaleEnds(lo: real, hi: real)
    requires lo < hi
    ensures Scale(hi, lo, hi) == 1.0
    ensures Scale(lo, lo, hi) == 0.0
  {
    var d := hi - lo;
    assert d / d == 1.0;
    assert 0.0 / d == 0.0;
  }

  /** Permuting or truncating a ranking keeps its scores in [0, 1]. */
  lemma InUnitSub(r: seq<Scored>, s: seq<Scored>)
    requires ScoresInUnit(s)
    requires multiset(r) <= multiset(s)
    ensures ScoresInUnit(r)
  {
    forall i | 0 <= i < |r| ensures 0.0 <= r[i].score <= 1.0 {
      assert r[i] in multiset(r);
      assert r[i] in multiset(s);
      var j :| 0 <= j < |s| && s[j] == r[i];
    }
  }

  /** Sorting and then taking a prefix keeps scores in range, sorts, and draws from the same items. */
  lemma SortedPrefixProps(s: seq<Scored>, k: int, items: seq<Item>)
    requires ScoresInUnit(s) && DrawnFrom(s, items)
    ensures var r := PyPrefix(SortDesc(s, ScoreOf), k);
            ScoresInUnit(r) && SortedDesc(r, ScoreOf) && DrawnFrom(r, items) && |r| <= |s|
  {
    var t := SortDesc(s, ScoreOf);
    var r := PyPrefix(t, k);
    SortDescSortedPermutation(s, ScoreOf);
    PrefixMultiset(t, |r|);
    InUnitSub(r, s);
    MultisetMap(t, s, PairOf);
    PrefixMultiset(Pairs(t), |r|);
    assert Pairs(r) == Pairs(t)[..|r|];
  }

  lemma FirstPhaseProps(query: string, items: seq<Item>, pre: int, embs: Option<seq<seq<real>>>)
    ensures var r := FirstPhase(query, items, pre, embs);
            ScoresInUnit(r) && SortedDesc(r, ScoreOf) && DrawnFrom(r, items) && |r| <= |items|
  {
    JaccardPhaseProps(query, items, pre);
    EmbeddingPhaseProps(embs, items, pre);
  }

  lemma JaccardPhaseProps(query: string, items: seq<Item>, pre: int)
    ensures var r := JaccardPhase(query, items, pre);
            ScoresInUnit(r) && SortedDesc(r, ScoreOf) && DrawnFrom(r, items) && |r| <= |items|
  {
    SortedPrefixProps(JaccardScored(query, items), pre, items);
  }

  lemma EmbeddingPhaseProps(embs: Option<seq<seq<real>>>, items: seq<Item>, pre: int)
    ensures var e := EmbeddingPhase(embs, items, pre);
            e.Some? ==> ScoresInUnit(e.value) && SortedDesc(e.value, ScoreOf) && DrawnFrom(e.value, items) && |e.value| <= |items|
  {
    if embs.Some? && |embs.value| > 0 {
      var cs := CosineScored(embs.value[0], embs.value[1..], items);
      PrefixMultiset(items, |cs|);
      SortedPrefixProps(cs, pre, items);
    }
  }

  /** Phase two keeps scores in [0, 1], the descending order and the items drawn on, and cuts to top_k. */
  lemma RerankedProps(ranked: seq<Scored>, topK: int, rerank: Option<seq<real>>, items: seq<Item>)
    requires ScoresInUnit(ranked) && SortedDesc(ranked, ScoreOf) && DrawnFrom(ranked, items)
    ensures var r := Reranked(ranked, topK, rerank);
            ScoresInUnit(r) && SortedDesc(r, ScoreOf) && DrawnFrom(r, items)
            && |r| <= |ranked| && (topK >= 0 ==> |r| <= topK)
  {
    if rerank.Some? && |ranked| >= 2 && |rerank.value| > 0 {
      RescaledDrawn(ranked, rerank.value, items);
      SortedPrefixProps(Rescaled(ranked, rerank.value), topK, items);
    } else {
      CutProps(ranked, topK, items);
    }
  }

  /** The rescaled list has scores in [0, 1] and draws from what the ranking drew from. */
  lemma RescaledDrawn(ranked: seq<Scored>, scores: seq<real>, items: seq<Item>)
    requires |scores| > 0 && DrawnFrom(ranked, items)
    ensures var rs := Rescaled(ranked, scores);
            ScoresInUnit(rs) && DrawnFrom(rs, items) && |rs| <= |ranked|
  {
    var rs := Rescaled(ranked, scores);
    RescaledInUnit(ranked, scores);
    PrefixMultiset(Pairs(ranked), |rs|);
  }

  /** Cutting a ranking keeps its order, its score range and where it was drawn from. */
  lemma CutProps(ranked: seq<Scored>, k: int, items: seq<Item>)
    requires ScoresInUnit(ranked) && SortedDesc(ranked, ScoreOf) && DrawnFrom(ranked, items)
    ensures var r := PyPrefix(ranked, k);
            ScoresInUnit(r) && SortedDesc(r, ScoreOf) && DrawnFrom(r, items)
  {
    var r := PyPrefix(ranked, k);
    PrefixMultiset(Pairs(ranked), |r|);
    assert Pairs(r) == Pairs(ranked)[..|r|];
    assert forall i :: 0 <= i < |r| ==> r[i] == ranked[i];
  }

  /** Every score best_matches returns lies in [0, 1]. */
  lemma RankScoresInUnit(query: string, items: seq<Item>, topK: int, floor: int,
                         embs: Option<seq<seq<real>>>, rerank: Option<seq<real>>)
    ensures ScoresInUnit(Rank(query, items, topK, floor, embs, rerank))
  {
    if items != [] {
      var pre := Preselect(topK, floor, |items|);
      FirstPhaseProps(query, items, pre, embs);
      RerankedProps(FirstPhase(query, items, pre, embs), topK, rerank, items);
    }
  }

  /** The result is ordered by descending score. */
  lemma RankSorted(query: string, items: seq<Item>, topK: int, floor: int,
                   embs: Option<seq<seq<real>>>, rerank: Option<seq<real>>)
    ensures SortedDesc(Rank(query, items, topK, floor, embs, rerank), ScoreOf)
  {
    if items != [] {
      var pre := Preselect(topK, floor, |items|);
      FirstPhaseProps(query, items, pre, embs);
      RerankedProps(FirstPhase(query, items, pre, embs), topK, rerank, items);
    }
  }

  /** The result holds input items only, each at most as often as given, and at most top_k of them. */
  lemma RankDrawnFromItems(query: string, items: seq<Item>, topK: int, floor: int,
                           embs: Option<seq<seq<real>>>, rerank: Option<seq<real>>)
    ensures DrawnFrom(Rank(query, items, topK, floor, embs, rerank), items)
    ensures |Rank(query, items, topK, floor, embs, rerank)| <= |items|
    ensures topK >= 0 ==> |Rank(query, items, topK, floor, embs, rerank)| <= topK
  {
    if items != [] {
      var pre := Preselect(topK, floor, |items|);
      FirstPhaseProps(query, items, pre, embs);
      RerankedProps(FirstPhase(query, items, pre, embs), topK, rerank, items);
    }
  }

  /** Without embeddings or reranker, two candidates of identical text keep their input order. */
  lemma IdenticalTextsKeepOrder(query: string, a: Item, b: Item, topK: int, floor: int)
    requires a.text == b.text && topK >= 2
    ensures var s := Jaccard(TokSet(query), TokSet(a.text));
            Rank(query, [a, b], topK, floor, None, None) == [Scored(a.id, a.text, s), Scored(b.id, b.text, s)]
  {
    var s := Jaccard(TokSet(query), TokSet(a.text));
    var x, y := Scored(a.id, a.text, s), Scored(b.id, b.text, s);
    JaccardPhaseTwin(query, a, b);
    RankWithoutModels(query, [a, b], topK, floor);
    assert Preselect(topK, floor, 2) == 2;
    assert PyPrefix([x, y], topK) == [x, y];
  }

  lemma JaccardPhaseTwin(query: string, a: Item, b: Item)
    requires a.text == b.text
    ensures var s := Jaccard(TokSet(query), TokSet(a.text));
            JaccardPhase(query, [a, b], 2) == [Scored(a.id, a.text, s), Scored(b.id, b.text, s)]
  {
    var js := JaccardScored(query, [a, b]);
    assert Pairs(js)[0] == a;
    assert js[0].id == a.id;
    assert js[0].score == Jaccard(TokSet(query), TokSet(a.text));
    var sc := Jaccard(TokSet(query), TokSet(a.text));
    var x, y := Scored(a.id, a.text, sc), Scored(b.id, b.text, sc);
    assert js[0] == x;
    assert js[1] == y;
    assert js == [x, y];
    SortTwo(x, y);
    assert SortDesc(js, ScoreOf) == [x, y];
    assert PyPrefix([x, y], 2) == [x, y];
  }

  /** Without embeddings or reranker, best_matches is the Jaccard ranking. */
  lemma RankWithoutModels(query: string, items: seq<Item>, topK: int, floor: int)
    requires items != []
    ensures Rank(query, items, topK, floor, None, None)
            == PyPrefix(JaccardPhase(query, items, Preselect(topK, floor, |items|)), topK)
  {
  }

  lemma SortOne(x: Scored)
    ensures SortDesc([x], ScoreOf) == [x]
  {
    assert [x][..0] == [];
  }

  lemma SortTwo(x: Scored, y: Scored)
    requires x.score >= y.score
    ensures SortDesc([x, y], ScoreOf) == [x, y]
  {
    assert [x, y][..1] == [x];
    SortOne(x);
    assert [x][1..] == [];
    assert InsertDesc(y, [], ScoreOf) == [y];
    assert InsertDesc(y, [x], ScoreOf) == [x, y];
  }

  /** The token set of two lower-case words separated by a space. */
  lemma TokSetPair(u: string, v: string)
    requires IsWord(u) && IsWord(v)
    requires forall k :: 0 <= k < |u| ==> 'a' <= u[k] <= 'z'
    requires forall k :: 0 <= k < |v| ==> 'a' <= v[k] <= 'z'
    ensures TokSet(u + " " + v) == {u, v}
  {
    WordsPair(u, v);
    LowerStripWord(u);
    LowerStripWord(v);
    assert u in Words(u + " " + v) && v in Words(u + " " + v);
  }

  /** A worked fallback example: "python sql" against "python java" scores 1/3. */
  lemma JaccardExample(id: string)
    ensures Rank("python sql", [Item(id, "python java")], 1, DefaultPreselect, None, None)
            == [Scored(id, "python java", 1.0 / 3.0)]
  {
    var items := [Item(id, "python java")];
    var x := Scored(id, "python java", 1.0 / 3.0);
    ExampleScored(id);
    SortOne(x);
    RankWithoutModels("python sql", items, 1, DefaultPreselect);
    assert Preselect(1, DefaultPreselect, 1) == 1;
    assert PyPrefix([x], 1) == [x];
  }

  lemma ExampleScored(id: string)
    ensures JaccardScored("python sql", [Item(id, "python java")]) == [Scored(id, "python java", 1.0 / 3.0)]
  {
    ExampleScore();
    OneScored("python sql", Item(id, "python java"), 1.0 / 3.0);
  }

  /** A single item is scored by its own overlap with the query. */
  lemma OneScored(query: string, it: Item, v: real)
    requires Jaccard(TokSet(query), TokSet(it.text)) == v
    ensures JaccardScored(query, [it]) == [Scored(it.id, it.text, v)]
  {
    var js := JaccardScored(query, [it]);
    assert Pairs(js)[0] == it;
    assert js[0].score == v;
  }

  lemma ExampleScore()
    ensures Jaccard(TokSet("python sql"), TokSet("python java")) == 1.0 / 3.0
  {
    ExampleTokSets();
    ExampleSetJaccard();
  }

  lemma ExampleTokSets()
    ensures TokSet("python sql") == {"python", "sql"}
    ensures TokSet("python java") == {"python", "java"}
  {
    ExampleTokSet("python", "sql");
    ExampleTokSet("python", "java");
    ExampleTexts();
  }

  lemma ExampleTexts()
    ensures "python" + " " + "sql" == "python sql"
    ensures "python" + " " + "java" == "python java"
  {
  }

  lemma ExampleTokSet(u: string, v: string)
    requires u == "python" && (v == "sql" || v == "java")
    ensures TokSet(u + " " + v) == {u, v}
  {
    TokSetPair(u, v);
  }

  lemma ExampleSetJaccard()
    ensures Jaccard({"python", "sql"}, {"python", "java"}) == 1.0 / 3.0
  {
    var p, q, j := "python", "sql", "java";
    assert p != q && p != j && q != j;
    var qs, ts := {p, q}, {p, j};
    assert qs * ts == {p};
    assert qs + ts == {p, q, j};
    assert |qs + ts| == 3;
  }

  lemma WordsPair(u: string, v: string)
    requires IsWord(u) && IsWord(v)
    ensures Words(u + " " + v) == [u, v]
  {
    var t := " " + v;
    assert u + " " + v == u + t;
    WordsFromRun(u, t, "");
    assert "" + u == u;
    assert t[0] == ' ' && t[1..] == v;
    assert WordsFrom(t, u) == [u] + WordsFrom(v, "");
    assert v + "" == v;
    WordsFromRun(v, "", "");
    assert "" + v == v;
    assert WordsFrom("", v) == [v];
  }

  lemma {:induction false} WordsFromRun(w: string, rest: string, cur: string)
    requires NoSpace(w) && NoSpace(cur)
    ensures WordsFrom(w + rest, cur) == WordsFrom(rest, cur + w)
    decreases |w|
  {
    if w != "" {
      assert (w + rest)[0] == w[0];
      assert (w + rest)[1..] == w[1..] + rest;
      WordsFromRun(w[1..], rest, cur + [w[0]]);
      assert cur + [w[0]] + w[1..] == cur + w;
    } else {
      assert w + rest == rest;
      assert cur + w == cur;
    }
  }

  lemma LowerStripWord(w: string)
    requires IsWord(w) && forall k :: 0 <= k < |w| ==> 'a' <= w[k] <= 'z'
    ensures Strip(w) == w && Lower(w) == w
  {
    StripNoSpace(w);
  }

  // ------------------------------------------------------------ loaders

  /**
   * What the process environment and the installed libraries offer: the
   * EMBEDDINGS_MODEL, USE_RERANKER and RERANKER_MODEL variables (None when
   * unset), whether the sentence-transformers library imports, and the
   * model names that load.
   */
  datatype Env = Env(embeddingsModel: Option<string>, useReranker: Option<string>,
                     rerankerModel: Option<string>, libraryAvailable: bool, loadable: set<string>)

  const BgeModel: string := "BAAI/bge-base-en-v1.5"
  const MiniLmModel: string := "all-MiniLM-L6-v2"
  const DefaultRerankerModel: string := "cross-encoder/ms-marco-MiniLM-L-6-v2"

  /** The embedding models to try, in order: the configured one when set and non-empty, then the two defaults. */
  function EmbedderCandidates(preferred: Option<string>): (r: seq<string>)
    ensures forall i :: 0 <= i < |r| ==> r[i] != ""
    ensures |r| >= 2 && r[|r| - 2] == BgeModel && r[|r| - 1] == MiniLmModel
    ensures preferred.Some? && preferred.value != "" ==> |r| == 3 && r[0] == preferred.value
    ensures preferred.None? || preferred.value == "" ==> |r| == 2
  {
    (if preferred.Some? && preferred.value != "" then [preferred.value] else []) + [BgeModel, MiniLmModel]
  }

  /** The first candidate that loads, if any. */
  function FirstLoadable(cands: seq<string>, loadable: set<string>): (r: Option<string>)
    ensures r.Some? ==> r.value in loadable
  {
    if cands == [] then None
    else if cands[0] in loadable then Some(cands[0])
    else FirstLoadable(cands[1..], loadable)
  }

  /** The first candidate that loads is chosen, and none is chosen only when none loads. */
  lemma {:induction false} FirstLoadableFirst(cands: seq<string>, loadable: set<string>) returns (i: int)
    ensures FirstLoadable(cands, loadable).None? <==> forall k :: 0 <= k < |cands| ==> cands[k] !in loadable
    ensures FirstLoadable(cands, loadable).Some? ==>
              0 <= i < |cands| && cands[i] == FirstLoadable(cands, loadable).value
              && forall j :: 0 <= j < i ==> cands[j] !in loadable
  {
    if cands == [] || cands[0] in loadable {
      i := 0;
    } else {
      var t := cands[1..];
      var k := FirstLoadableFirst(t, loadable);
      i := k + 1;
      assert forall m :: 1 <= m < |cands| ==> cands[m] == t[m - 1];
    }
  }

  /** The embedder a first load attempt ends with. */
  function EmbedderAttempt(env: Env): Option<string> {
    if env.libraryAvailable then FirstLoadable(EmbedderCandidates(env.embeddingsModel), env.loadable) else None
  }

  /** The reranker a first load attempt ends with: none unless USE_RERANKER is unset or "1". */
  function RerankerAttempt(env: Env): (r: Option<string>)
    ensures r.Some? ==> env.libraryAvailable && r.value in env.loadable
    ensures env.useReranker.Some? && env.useReranker.value != "1" ==> r.None?
    ensures r.Some? ==> r.value == (if env.rerankerModel.Some? then env.rerankerModel.value else DefaultRerankerModel)
  {
    if env.useReranker.Some? && env.useReranker.value != "1" then None
    else if !env.libraryAvailable then None
    else
      var name := if env.rerankerModel.Some? then env.rerankerModel.value else DefaultRerankerModel;
      if name in env.loadable then Some(name) else None
  }

  /** The number of texts warmup encodes. */
  function WarmupCount(texts: Option<seq<string>>): (n: int)
    ensures 1 <= n <= WarmupBatch
    ensures texts.Some? && texts.value != [] ==> n == Min(|texts.value|, WarmupBatch)
  {
    var t := if texts.Some? && texts.value != [] then texts.value else WarmupTexts;
    Min(|t|, WarmupBatch)
  }

  /**
   * The process-wide cache of loaded models.  A model slot is either empty
   * and untried, loaded, or marked failed; once a load has been attempted its
   * outcome never changes.
   */
  class ModelRegistry {
    var embedder: Option<string>
    var embedderFailed: bool
    var reranker: Option<string>
    var rerankerFailed: bool

    ghost predicate Valid()
      reads this
    {
      !(embedder.Some? && embedderFailed) && !(reranker.Some? && rerankerFailed)
    }

    ghost predicate EmbedderTried()
      reads this
    {
      embedder.Some? || embedderFailed
    }

    ghost predicate RerankerTried()
      reads this
    {
      reranker.Some? || rerankerFailed
    }

    constructor ()
      ensures Valid() && !EmbedderTried() && !RerankerTried()
    {
      embedder, embedderFailed := None, false;
      reranker, rerankerFailed := None, false;
    }

    /** Returns the cached embedder, or tries the candidates in order and caches the outcome. */
    method LoadEmbedder(env: Env) returns (e: Option<string>)
      requires Valid()
      modifies this
      ensures Valid() && EmbedderTried() && e == embedder
      ensures reranker == old(reranker) && rerankerFailed == old(rerankerFailed)
      ensures old(EmbedderTried()) ==> embedder == old(embedder) && embedderFailed == old(embedderFailed)
      ensures !old(EmbedderTried()) ==> embedder == EmbedderAttempt(env) && embedderFailed == embedder.None?
    {
      if embedder.Some? || embedderFailed {
        return embedder;
      }
      if !env.libraryAvailable {
        embedderFailed := true;
        embedder := None;
        return None;
      }
      var cands := EmbedderCandidates(env.embeddingsModel);
      var i := 0;
      while i < |cands|
        invariant 0 <= i <= |cands|
        invariant embedder.None? && !embedderFailed
        invariant reranker == old(reranker) && rerankerFailed == old(rerankerFailed)
        invariant FirstLoadable(cands, env.loadable) == FirstLoadable(cands[i..], env.loadable)
      {
        assert cands[i..][1..] == cands[i + 1..];
        assert cands[i..][0] == cands[i];
        if cands[i] in env.loadable {
          embedder := Some(cands[i]);
          return embedder;
        }
        embedder := None;
        i := i + 1;
      }
      embedderFailed := true;
      return None;
    }

    /** Returns the cached reranker, or tries to load the configured cross-encoder once. */
    method LoadReranker(env: Env) returns (e: Option<string>)
      requires Valid()
      modifies this
      ensures Valid() && RerankerTried() && e == reranker
      ensures embedder == old(embedder) && embedderFailed == old(embedderFailed)
      ensures old(RerankerTried()) ==> reranker == old(reranker) && rerankerFailed == old(rerankerFailed)
      ensures !old(RerankerTried()) ==> reranker == RerankerAttempt(env) && rerankerFailed == reranker.None?
    {
      if reranker.Some? || rerankerFailed {
        return reranker;
      }
      if env.useReranker.Some? && env.useReranker.value != "1" {
        rerankerFailed := true;
        return None;
      }
      if !env.libraryAvailable {
        rerankerFailed := true;
        reranker := None;
        return None;
      }
      var name := if env.rerankerModel.Some? then env.rerankerModel.value else DefaultRerankerModel;
      if name in env.loadable {
        reranker := Some(name);
        return reranker;
      }
      rerankerFailed := true;
      reranker := None;
      return None;
    }

    /** embed_texts: what the encoder returned, or None without an embedder. */
    method EmbedTexts(env: Env, encoded: Option<seq<seq<real>>>) returns (r: Option<seq<seq<real>>>)
      requires Valid()
      modifies this
      ensures Valid() && EmbedderTried()
      ensures reranker == old(reranker) && rerankerFailed == old(rerankerFailed)
      ensures old(EmbedderTried()) ==> embedder == old(embedder) && embedderFailed == old(embedderFailed)
      ensures !old(EmbedderTried()) ==> embedder == EmbedderAttempt(env) && embedderFailed == embedder.None?
      ensures r == if embedder.Some? then encoded else None
    {
      var e := LoadEmbedder(env);
      if e.None? {
        return None;
      }
      return encoded;
    }

    /**
     * warmup(texts): the number of texts encoded, 0 without an embedder or
     * when encoding fails (`encodeOk` false).
     */
    method Warmup(env: Env, texts: Option<seq<string>>, encodeOk: bool) returns (n: int)
      requires Valid()
      modifies this
      ensures Valid() && EmbedderTried()
      ensures reranker == old(reranker) && rerankerFailed == old(rerankerFailed)
      ensures old(EmbedderTried()) ==> embedder == old(embedder) && embedderFailed == old(embedderFailed)
      ensures !old(EmbedderTried()) ==> embedder == EmbedderAttempt(env) && embedderFailed == embedder.None?
      ensures n == if embedder.Some? && encodeOk then WarmupCount(texts) else 0
      ensures 0 <= n <= WarmupBatch
    {
      var e := LoadEmbedder(env);
      if e.None? {
        return 0;
      }
      var t := texts;
      if t.None? || t.value == [] {
        t := Some(WarmupTexts);
      }
      if !encodeOk {
        return 0;
      }
      return Min(|t.value|, WarmupBatch);
    }

    /**
     * best_matches: phase one from the embedder (or Jaccard), phase two from
     * the reranker when one is loaded; `encoded` and `predicted` are what the
     * two models return when asked.
     */
    method BestMatches(query: string, items: seq<Item>, topK: int, floor: int, env: Env,
                       encoded: Option<seq<seq<real>>>, predicted: Option<seq<real>>)
      returns (r: seq<Scored>)
      requires Valid()
      modifies this
      ensures Valid()
      ensures items == [] ==> r == [] && unchanged(this)
      ensures items != [] ==> EmbedderTried() && RerankerTried()
      ensures old(EmbedderTried()) ==> embedder == old(embedder) && embedderFailed == old(embedderFailed)
      ensures old(RerankerTried()) ==> reranker == old(reranker) && rerankerFailed == old(rerankerFailed)
      ensures items != [] && !old(EmbedderTried()) ==> embedder == EmbedderAttempt(env) && embedderFailed == embedder.None?
      ensures items != [] && !old(RerankerTried()) ==> reranker == RerankerAttempt(env) && rerankerFailed == reranker.None?
      ensures items != [] ==>
        r == Rank(query, items, topK, floor, if embedder.Some? then encoded else None,
                  if reranker.Some? then predicted else None)
    {
      if items == [] {
        return [];
      }
      var pre := Min(Max(topK, floor), |items|);
      var embs := EmbedTexts(env, encoded);
      var ranked := PhaseOne(query, items, pre, embs);
      var rr := LoadReranker(env);
      r := SecondPhase(ranked, topK, if rr.Some? then predicted else None);
    }
  }

  // ------------------------------------------------------------ ranking loops

  /** Phase one of best_matches: the embedding ranking when it gives something, else the Jaccard one. */
  method PhaseOne(query: string, items: seq<Item>, pre: int, embs: Option<seq<seq<real>>>) returns (ranked: seq<Scored>)
    ensures ranked == FirstPhase(query, items, pre, embs)
  {
    var embRanked := BestMatchesEmbeddings(embs, items, pre);
    if embRanked.Some? && embRanked.value != [] {
      ranked := embRanked.value;
    } else {
      ranked := BestMatchesJaccard(query, items, pre);
    }
  }

  /** _best_matches_embeddings: None without vectors, else the k best items by cosine. */
  method BestMatchesEmbeddings(embs: Option<seq<seq<real>>>, items: seq<Item>, k: int)
    returns (r: Option<seq<Scored>>)
    ensures r == EmbeddingPhase(embs, items, k)
  {
    if embs.None? || |embs.value| == 0 {
      return None;
    }
    var qv, vecs := embs.value[0], embs.value[1..];
    var out: seq<Scored> := [];
    var i := 0;
    while i < |items| && i < |vecs|
      invariant 0 <= i <= |items| && i <= |vecs|
      invariant out == CosineScored(qv, vecs, items)[..i]
    {
      out := out + [Scored(items[i].id, items[i].text, Cosine(qv, vecs[i]))];
      i := i + 1;
    }
    assert out == CosineScored(qv, vecs, items);
    out := StableSortDesc(out, ScoreOf);
    return Some(PyPrefix(out, k));
  }

  /** _best_matches_jaccard: the k best items by token-set overlap with the query. */
  method BestMatchesJaccard(query: string, items: seq<Item>, k: int) returns (r: seq<Scored>)
    ensures r == JaccardPhase(query, items, k)
  {
    var qs := TokSet(query);
    var out: seq<Scored> := [];
    var i := 0;
    while i < |items|
      invariant 0 <= i <= |items|
      invariant out == JaccardScored(query, items)[..i]
    {
      var ts := TokSet(items[i].text);
      var sim := Jaccard(qs, ts);
      out := out + [Scored(items[i].id, items[i].text, sim)];
      i := i + 1;
    }
    assert out == JaccardScored(query, items);
    out := StableSortDesc(out, ScoreOf);
    return PyPrefix(out, k);
  }

  /** The phase-two code of best_matches. */
  method SecondPhase(ranked: seq<Scored>, topK: int, rerank: Option<seq<real>>) returns (r: seq<Scored>)
    ensures r == Reranked(ranked, topK, rerank)
  {
    if rerank.Some? && |ranked| >= 2 && |rerank.value| > 0 {
      var rescored := Rescore(ranked, rerank.value);
      rescored := StableSortDesc(rescored, ScoreOf);
      return PyPrefix(rescored, topK);
    }
    return PyPrefix(ranked, topK);
  }

  /** The min-max rescoring loop of phase two. */
  method Rescore(ranked: seq<Scored>, scores: seq<real>) returns (r: seq<Scored>)
    requires |scores| > 0
    ensures r == Rescaled(ranked, scores)
  {
    var lo, hi := MinOf(scores), MaxOf(scores);
    ghost var want := Rescaled(ranked, scores);
    r := [];
    var i := 0;
    while i < |ranked| && i < |scores|
      invariant 0 <= i <= |want| && |r| == i
      invariant forall k :: 0 <= k < i ==> r[k] == want[k]
    {
      var x := Scored(ranked[i].id, ranked[i].text, Scale(scores[i], lo, hi));
      RescaledAt(ranked, scores, i);
      r := r + [x];
      i := i + 1;
    }
  }

  /** Entry i of the zip: candidate i with reranker score i scaled. */
  lemma RescaledAt(ranked: seq<Scored>, scores: seq<real>, i: int)
    requires 0 <= i < |ranked| && i < |scores|
    ensures Rescaled(ranked, scores)[i] == Scored(ranked[i].id, ranked[i].text, Scale(scores[i], MinOf(scores), MaxOf(scores)))
  {
  }
}
