/** Hybrid retrieval: fusion of the two searches and the reranking of its result. */
module Retrieval {
  import opened Wrappers
  import opened Sorting
  import opened Fusion
  import Chunking

  /** One item of a rerank answer. */
  datatype Rank = Rank(index: int, score: real)

  datatype Error = BlankQuery | NoDocuments | BlankDocument | BadTopN | RequestFailed | InvalidResult | TooManyResults

  datatype Retrieved = Retrieved(item: Fused, rerankScore: Option<real>)

  predicate Better(a: Rank, b: Rank) { a.score >= b.score }

  /** Every item names a different document. */
  ghost predicate DistinctDocuments(n: nat, ranks: seq<Rank>) {
    && (forall i :: 0 <= i < |ranks| ==> 0 <= ranks[i].index < n)
    && (forall i, j :: 0 <= i < j < |ranks| ==> ranks[i].index != ranks[j].index)
  }

  /** The call's top_n, if it has one, is between one and the number of documents. */
  predicate LegalTop(topN: Option<nat>, n: nat) { topN.Some? ==> 1 <= topN.value <= n }

  predicate Exceeds(topN: Option<nat>, length: nat) { topN.Some? && length > topN.value }

  /** The error names something that is wrong: with the call, then with the request, then with the answer. */
  ghost predicate Explains(e: Error, query: string, documents: seq<string>, topN: Option<nat>, answer: Option<seq<Rank>>) {
    match e
    case BlankQuery => Chunking.AllSpace(query)
    case NoDocuments => documents == []
    case BlankDocument => exists d :: d in documents && Chunking.AllSpace(d)
    case BadTopN => !LegalTop(topN, |documents|)
    case RequestFailed => answer.None?
    case InvalidResult => answer.Some? && !DistinctDocuments(|documents|, answer.value)
    case TooManyResults => answer.Some? && Exceeds(topN, |answer.value|)
  }

  /** rerank: an answer is accepted exactly when it names different documents, no more than
      `topN` when that is given, and comes back best first, equal scores in the order they came. */
  method Rerank(query: string, documents: seq<string>, topN: Option<nat>, answer: Option<seq<Rank>>) returns (result: Result<seq<Rank>, Error>)
    ensures result.Success? <==>
            && !Chunking.AllSpace(query) && documents != [] && (forall d <- documents :: !Chunking.AllSpace(d)) && LegalTop(topN, |documents|)
            && answer.Some? && DistinctDocuments(|documents|, answer.value) && !Exceeds(topN, |answer.value|)
    ensures result.Success? ==> DistinctDocuments(|documents|, result.value) && SortedBy(result.value, Better)
    ensures result.Success? ==> multiset(result.value) == multiset(answer.value) && |result.value| == |answer.value|
    ensures result.Success? ==> forall r :: Ties(result.value, Better, r) == Ties(answer.value, Better, r)
    ensures result.Failure? ==> Explains(result.error, query, documents, topN, answer)
  {
    if Chunking.AllSpace(query) {
      return Failure(BlankQuery);
    }
    if documents == [] {
      return Failure(NoDocuments);
    }
    if exists d :: d in documents && Chunking.AllSpace(d) {
      return Failure(BlankDocument);
    }
    if topN.Some? && !(1 <= topN.value <= |documents|) {
      return Failure(BadTopN);
    }
    if answer.None? {
      return Failure(RequestFailed);
    }
    var ranks := answer.value;
    var seen: set<int> := {};
    for i := 0 to |ranks|
      invariant DistinctDocuments(|documents|, ranks[..i])
      invariant forall n :: n in seen <==> exists j :: 0 <= j < i && ranks[j].index == n
    {
      var index := ranks[i].index;
      if index < 0 || index >= |documents| || index in seen {
        return Failure(InvalidResult);
      }
      seen := seen + {index};
    }
    assert ranks[..|ranks|] == ranks;
    if topN.Some? && |ranks| > topN.value {
      return Failure(TooManyResults);
    }
    SortSorts(ranks, Better);
    SortKeepsDocuments(|documents|, ranks, Sort(ranks, Better));
    forall r
      ensures Ties(Sort(ranks, Better), Better, r) == Ties(ranks, Better, r)
    {
      SortIsStable(ranks, Better, r);
    }
    return Success(Sort(ranks, Better));
  }

  lemma SortKeepsDocuments(n: nat, ranks: seq<Rank>, sorted: seq<Rank>)
    requires DistinctDocuments(n, ranks) && multiset(ranks) == multiset(sorted)
    ensures DistinctDocuments(n, sorted)
  {
    PermutationKeepsDistinct(ranks, sorted);
    forall i | 0 <= i < |sorted|
      ensures 0 <= sorted[i].index < n
    {
      assert sorted[i] in ranks;
    }
    forall i, j | 0 <= i < j < |sorted|
      ensures sorted[i].index != sorted[j].index
    {
      assert sorted[i] in ranks && sorted[j] in ranks && sorted[i] != sorted[j];
    }
  }

  /** The first items of the fused list, as many as the limit and the list allow, unranked. */
  ghost predicate IsHead(fused: seq<Fused>, limit: nat, items: seq<Retrieved>) {
    && |items| <= |fused| && |items| <= limit && (|items| == |fused| || |items| == limit)
    && forall i :: 0 <= i < |items| ==> items[i] == Retrieved(fused[i], None)
  }

  /** Nothing invented and nothing twice: every retrieved item is an entry of the fused list. */
  ghost predicate DrawnFrom(fused: seq<Fused>, items: seq<Retrieved>) {
    && (forall r <- items :: r.item in fused)
    && (forall i, j :: 0 <= i < j < |items| ==> items[i].item.id != items[j].item.id)
  }

  ghost predicate BestFirst(items: seq<Retrieved>) {
    forall i, j :: 0 <= i < j < |items| ==>
      items[i].rerankScore.Some? && items[j].rerankScore.Some? && items[i].rerankScore.value >= items[j].rerankScore.value
  }

  /** The scores are the ones the reranker gave these documents. */
  ghost predicate ScoredBy(fused: seq<Fused>, ranks: seq<Rank>, items: seq<Retrieved>)
    requires DistinctDocuments(|fused|, ranks)
  {
    forall r :: r in items <==> exists i :: 0 <= i < |ranks| && r == Retrieved(fused[ranks[i].index], Some(ranks[i].score))
  }

  /** The ranks of an answer in their order: best first, equal scores as they came. */
  ghost predicate IsRanking(answer: seq<Rank>, ranks: seq<Rank>) {
    SortedBy(ranks, Better) && multiset(ranks) == multiset(answer) && forall r :: Ties(ranks, Better, r) == Ties(answer, Better, r)
  }

  ghost predicate RankedBy(fused: seq<Fused>, ranks: seq<Rank>, items: seq<Retrieved>) {
    && |items| == |ranks|
    && forall i :: 0 <= i < |items| ==>
         0 <= ranks[i].index < |fused| && items[i] == Retrieved(fused[ranks[i].index], Some(ranks[i].score))
  }

  function Texts(fused: seq<Fused>): seq<string> {
    seq(|fused|, i requires 0 <= i < |fused| => fused[i].chunk)
  }

  lemma TextsCover(fused: seq<Fused>)
    ensures (forall d <- Texts(fused) :: !Chunking.AllSpace(d)) <==> forall f <- fused :: !Chunking.AllSpace(f.chunk)
  {
    forall f | f in fused
      ensures f.chunk in Texts(fused)
    {
      var i :| 0 <= i < |fused| && fused[i] == f;
      assert Texts(fused)[i] == f.chunk;
    }
  }

  /** Without a reranker: the first entries. With one: the answer is taken exactly when it names
      at most `limit` different entries and none has a blank text, and then its entries come
      back with its scores, best first. */
  ghost predicate IsRetrieval(fused: seq<Fused>, limit: nat, hasReranker: bool, answer: Option<seq<Rank>>, result: Result<seq<Retrieved>, Error>) {
    if fused == [] || !hasReranker then result.Success? && IsHead(fused, limit, result.value)
    else
      && (result.Success? <==>
            && (forall f <- fused :: !Chunking.AllSpace(f.chunk)) && answer.Some?
            && DistinctDocuments(|fused|, answer.value) && |answer.value| <= limit && |answer.value| <= |fused|)
      && (result.Success? ==> BestFirst(result.value) && ScoredBy(fused, answer.value, result.value))
      && (result.Success? ==> exists ranks :: IsRanking(answer.value, ranks) && RankedBy(fused, ranks, result.value))
  }

  /** retrieve: what it returns is drawn from the fusion of the two searches, at most `limit`
      entries and each once. */
  method Retrieve(cfg: Config, query: string, limit: nat, lexical: seq<Candidate>, vector: seq<Candidate>,
                  hasReranker: bool, answer: Option<seq<Rank>>)
    returns (result: Result<seq<Retrieved>, Error>)
    requires cfg.Legal() && limit >= 1 && !Chunking.AllSpace(query)
    ensures exists fused :: IsFusion(cfg, lexical, vector, fused)
              && IsRetrieval(fused, limit, hasReranker, answer, result)
              && (result.Success? ==> DrawnFrom(fused, result.value) && |result.value| <= limit)
  {
    var fused := Fuse(cfg, lexical, vector);
    result := Select(query, fused, limit, hasReranker, answer);
  }

  /** Without a reranker nothing better is left out: every fused entry that is not returned scores no
      more than each one that is. */
  lemma NothingBetterLeftOut(cfg: Config, lexical: seq<Candidate>, vector: seq<Candidate>, fused: seq<Fused>, limit: nat, items: seq<Retrieved>, f: Fused, r: Retrieved)
    requires cfg.Legal() && IsFusion(cfg, lexical, vector, fused) && IsHead(fused, limit, items)
    requires f in fused && r in items && forall q <- items :: q.item != f
    ensures f.score <= r.item.score
  {
    var i :| 0 <= i < |fused| && fused[i] == f;
    var j :| 0 <= j < |items| && items[j] == r;
    assert forall n :: 0 <= n < |items| ==> items[n] in items && items[n].item == fused[n];
  }

  /** The part of retrieve behind the fusion. */
  method Select(query: string, fused: seq<Fused>, limit: nat, hasReranker: bool, answer: Option<seq<Rank>>)
    returns (result: Result<seq<Retrieved>, Error>)
    requires limit >= 1 && !Chunking.AllSpace(query) && forall i, j :: 0 <= i < j < |fused| ==> fused[i].id != fused[j].id
    ensures IsRetrieval(fused, limit, hasReranker, answer, result)
    ensures result.Success? ==> DrawnFrom(fused, result.value) && |result.value| <= limit
  {
    if fused == [] || !hasReranker {
      var kept := if limit < |fused| then limit else |fused|;
      return Success(seq(kept, i requires 0 <= i < kept => Retrieved(fused[i], None)));
    }
    TextsCover(fused);
    var ranking := Rerank(query, Texts(fused), Some(if limit < |fused| then limit else |fused|), answer);
    if ranking.Failure? {
      return Failure(ranking.error);
    }
    var ranks := ranking.value;
    var items: seq<Retrieved> := [];
    for i := 0 to |ranks|
      invariant |items| == i && forall j :: 0 <= j < i ==> items[j] == Retrieved(fused[ranks[j].index], Some(ranks[j].score))
    {
      items := items + [Retrieved(fused[ranks[i].index], Some(ranks[i].score))];
    }
    RankedItems(fused, answer.value, ranks, items);
    assert IsRanking(answer.value, ranks) && RankedBy(fused, ranks, items);
    return Success(items);
  }

  lemma RankedItems(fused: seq<Fused>, answer: seq<Rank>, ranks: seq<Rank>, items: seq<Retrieved>)
    requires forall i, j :: 0 <= i < j < |fused| ==> fused[i].id != fused[j].id
    requires DistinctDocuments(|fused|, answer) && DistinctDocuments(|fused|, ranks) && multiset(ranks) == multiset(answer)
    requires SortedBy(ranks, Better) && |items| == |ranks|
    requires forall j :: 0 <= j < |items| ==> items[j] == Retrieved(fused[ranks[j].index], Some(ranks[j].score))
    ensures DrawnFrom(fused, items) && BestFirst(items) && ScoredBy(fused, answer, items)
  {
    forall i, j | 0 <= i < j < |items|
      ensures items[i].item.id != items[j].item.id
    {
      assert ranks[i].index != ranks[j].index;
    }
    ItemsAreScored(fused, answer, ranks, items);
  }

  lemma ItemsAreScored(fused: seq<Fused>, answer: seq<Rank>, ranks: seq<Rank>, items: seq<Retrieved>)
    requires DistinctDocuments(|fused|, answer) && DistinctDocuments(|fused|, ranks) && multiset(ranks) == multiset(answer)
    requires |items| == |ranks|
    requires forall j :: 0 <= j < |items| ==> items[j] == Retrieved(fused[ranks[j].index], Some(ranks[j].score))
    ensures ScoredBy(fused, answer, items)
  {
    SameMembers(ranks, answer);
    forall r
      ensures r in items <==> exists i :: 0 <= i < |answer| && r == Retrieved(fused[answer[i].index], Some(answer[i].score))
    {
      if r in items {
        var j :| 0 <= j < |items| && items[j] == r;
        assert ranks[j] in answer;
      } else if i :| 0 <= i < |answer| && r == Retrieved(fused[answer[i].index], Some(answer[i].score)) {
        assert answer[i] in ranks;
        var j :| 0 <= j < |ranks| && ranks[j] == answer[i];
        assert items[j] == r;
      }
    }
  }
}
