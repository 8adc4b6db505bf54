/** Batched embedding: the client's response check and the indexing service's batch loop. */
module Embedding {
  import opened Wrappers
  import opened Sorting

  datatype Vector = Vector(index: int, values: seq<real>)

  datatype Error = BlankText | WrongCount | EmptyVector | InvalidIndices | WrongDimensions | RequestFailed

  type Answer = Result<seq<Vector>, Error>

  predicate ByIndex(a: Vector, b: Vector) { a.index <= b.index }

  /** `[v.index for v in vectors] == list(range(n))` */
  predicate IsRange(vectors: seq<Vector>, n: nat) {
    |vectors| == n && forall i :: 0 <= i < n ==> vectors[i].index == i
  }

  /** Every index from zero to n - 1 once, in some order. */
  ghost predicate Permutes(data: seq<Vector>, n: nat) {
    && |data| == n
    && (forall i :: 0 <= i < |data| ==> 0 <= data[i].index < n)
    && (forall i, j :: 0 <= i < j < |data| ==> data[i].index != data[j].index)
  }

  /** Sorting by index is enough to recognise a permutation. */
  lemma SortedRange(data: seq<Vector>, n: nat)
    ensures IsRange(Sort(data, ByIndex), n) <==> Permutes(data, n)
  {
    SortSorts(data, ByIndex);
    var s := Sort(data, ByIndex);
    SameMembers(data, s);
    if Permutes(data, n) {
      DistinctStaysDistinct(data, s);
      StrictlyIncreasing(s, |s|);
    }
    if IsRange(s, n) {
      DistinctStaysDistinct(s, data);
      forall v | v in data
        ensures 0 <= v.index < n
      {
        assert v in s;
      }
    }
  }

  predicate AllOfSize(vectors: seq<Vector>, dimensions: nat) {
    forall v <- vectors :: |v.values| == dimensions
  }

  /** An answer the client takes for n texts. */
  ghost predicate Good(dimensions: nat, n: nat, answer: Option<seq<Vector>>) {
    answer.Some? && Permutes(answer.value, n) && AllOfSize(answer.value, dimensions) && dimensions > 0
  }

  lemma DistinctStaysDistinct(data: seq<Vector>, s: seq<Vector>)
    requires multiset(data) == multiset(s)
    requires forall i, j :: 0 <= i < j < |data| ==> data[i].index != data[j].index
    ensures forall i, j :: 0 <= i < j < |s| ==> s[i].index != s[j].index
  {
    PermutationKeepsDistinct(data, s);
    forall i, j | 0 <= i < j < |s|
      ensures s[i].index != s[j].index
    {
      assert s[i] in data && s[j] in data && s[i] != s[j];
    }
  }

  lemma {:induction false} StrictlyIncreasing(s: seq<Vector>, k: nat)
    requires k <= |s| && SortedBy(s, ByIndex)
    requires forall i, j :: 0 <= i < j < |s| ==> s[i].index != s[j].index
    requires forall v <- s :: 0 <= v.index < |s|
    ensures forall i :: 0 <= i < k ==> s[i].index == i
    decreases k
  {
    AtLeast(s, k);
    forall i | 0 <= i < k
      ensures s[i].index == i
    {
      AtLeast(s, i);
      AtMost(s, i, |s|);
    }
  }

  lemma {:induction false} AtLeast(s: seq<Vector>, i: nat)
    requires i <= |s| && SortedBy(s, ByIndex)
    requires forall i, j :: 0 <= i < j < |s| ==> s[i].index != s[j].index
    requires forall v <- s :: 0 <= v.index
    ensures i < |s| ==> i <= s[i].index
    decreases i
  {
    if 0 < i < |s| {
      AtLeast(s, i - 1);
      assert ByIndex(s[i - 1], s[i]);
    }
  }

  lemma {:induction false} AtMost(s: seq<Vector>, i: nat, n: nat)
    requires i < |s| <= n && SortedBy(s, ByIndex)
    requires forall i, j :: 0 <= i < j < |s| ==> s[i].index != s[j].index
    requires forall v <- s :: v.index < n
    ensures s[i].index <= n - (|s| - i)
    decreases |s| - i
  {
    if i + 1 < |s| {
      AtMost(s, i + 1, n);
      assert ByIndex(s[i], s[i + 1]);
    } else {
      assert s[i] in s;
    }
  }

  lemma SortKeepsSize(data: seq<Vector>, dimensions: nat)
    ensures AllOfSize(Sort(data, ByIndex), dimensions) <==> AllOfSize(data, dimensions)
  {
    SortSorts(data, ByIndex);
    SameMembers(data, Sort(data, ByIndex));
  }

  /** The vectors are the given ones, each at the position its index names. */
  predicate Placed(vectors: seq<Vector>, given: seq<Vector>, n: nat) {
    IsRange(vectors, n) && multiset(vectors) == multiset(given)
  }

  /** What the client makes of an answer, whatever it holds: it is accepted exactly when it has
      one vector of the right size for each text, in any order, and comes back in order. */
  ghost predicate ClientAnswer(dimensions: nat, cleaned: seq<string>, raw: Option<seq<Vector>>, result: Answer) {
    && (result.Success? <==> cleaned != [] && "" !in cleaned && Good(dimensions, |cleaned|, raw))
    && (result.Success? ==> Placed(result.value, raw.value, |cleaned|) && AllOfSize(result.value, dimensions))
  }

  /** The error names something that is wrong: with the texts, then with the request, then with the answer. */
  ghost predicate Explains(e: Error, dimensions: nat, cleaned: seq<string>, raw: Option<seq<Vector>>) {
    if cleaned == [] || "" in cleaned then e.BlankText?
    else if raw.None? then e.RequestFailed?
    else match e
      case WrongCount => |raw.value| != |cleaned|
      case EmptyVector => exists v :: v in raw.value && v.values == []
      case InvalidIndices => |raw.value| == |cleaned| && !Permutes(raw.value, |cleaned|)
      case WrongDimensions => Permutes(raw.value, |cleaned|) && !AllOfSize(raw.value, dimensions)
      case _ => false
  }

  /** embed_documents: sorts the answer by index and accepts only 0..n-1. */
  method EmbedDocuments(dimensions: nat, cleaned: seq<string>, raw: Option<seq<Vector>>) returns (result: Answer)
    requires dimensions > 0
    ensures ClientAnswer(dimensions, cleaned, raw, result)
    ensures result.Failure? ==> Explains(result.error, dimensions, cleaned, raw)
  {
    if cleaned == [] || "" in cleaned {
      return Failure(BlankText);
    }
    if raw.None? {
      return Failure(RequestFailed);
    }
    var data := raw.value;
    if |data| != |cleaned| {
      return Failure(WrongCount);
    }
    if exists v :: v in data && v.values == [] {
      return Failure(EmptyVector);
    }
    SortSorts(data, ByIndex);
    SortedRange(data, |cleaned|);
    SortKeepsSize(data, dimensions);
    var vectors := Sort(data, ByIndex);
    if !IsRange(vectors, |cleaned|) {
      return Failure(InvalidIndices);
    }
    if exists v :: v in vectors && |v.values| != dimensions {
      return Failure(WrongDimensions);
    }
    return Success(vectors);
  }

  // ---- batches ----

  /** range(from, n, size): where the batches start. */
  function Starts(n: nat, size: nat, from: nat): seq<nat>
    requires size > 0
    decreases n - from
  {
    if from < n then [from] + Starts(n, size, from + size) else []
  }

  function BatchAt(texts: seq<string>, size: nat, start: nat): seq<string>
    requires start <= |texts|
  {
    if start + size <= |texts| then texts[start..start + size] else texts[start..]
  }

  /** A batch holds the texts from its start on, as many as the size and the list allow. */
  lemma BatchHolds(texts: seq<string>, size: nat, start: nat, j: nat)
    requires start <= |texts| && j < |BatchAt(texts, size, start)|
    ensures |BatchAt(texts, size, start)| <= size && start + j < |texts| && BatchAt(texts, size, start)[j] == texts[start + j]
    ensures |BatchAt(texts, size, start)| == size || start + |BatchAt(texts, size, start)| == |texts|
  {}

  function BatchLen(n: nat, size: nat, start: nat): nat {
    if start >= n then 0 else if start + size <= n then size else n - start
  }

  /** The batches lie one behind the other and cover the texts. */
  lemma {:induction false} StartsTile(n: nat, size: nat, from: nat, k: nat)
    requires size > 0 && k < |Starts(n, size, from)|
    ensures var starts := Starts(n, size, from);
            && starts[0] == from && starts[k] < n
            && starts[k] + BatchLen(n, size, starts[k]) == (if k + 1 < |starts| then starts[k + 1] else n)
            && starts[k] == from + k * size
    decreases k
  {
    if k > 0 { StartsTile(n, size, from + size, k - 1); }
    var rest := Starts(n, size, from + size);
    if rest != [] { assert rest[0] == from + size; }
  }

  function Shift(v: Vector, start: nat): Vector { Vector(start + v.index, v.values) }

  function Shifted(data: seq<Vector>, start: nat): seq<Vector> {
    seq(|data|, i requires 0 <= i < |data| => Shift(data[i], start))
  }

  /** The vectors of these batches, moved to their places, in the order they arrive. */
  function Gather(provider: nat -> Answer, starts: seq<nat>): seq<Vector> {
    if starts == [] then []
    else
      var k := |starts| - 1;
      Gather(provider, starts[..k]) + (if provider(starts[k]).Success? then Shifted(provider(starts[k]).value, starts[k]) else [])
  }

  /** The batch starting at `start` was answered with as many vectors as texts, of the right size. */
  predicate Taken(n: nat, size: nat, dimensions: nat, provider: nat -> Answer, start: nat) {
    provider(start).Success? && |provider(start).value| == BatchLen(n, size, start) && AllOfSize(provider(start).value, dimensions)
  }

  /** The inner loop: the vectors of one batch, moved to the batch's place. */
  method AddBatch(vectors: seq<Vector>, data: seq<Vector>, start: nat, dimensions: nat) returns (result: Answer)
    ensures result.Success? <==> AllOfSize(data, dimensions)
    ensures result.Success? ==> result.value == vectors + Shifted(data, start)
  {
    var more := vectors;
    for i := 0 to |data|
      invariant more == vectors + Shifted(data[..i], start)
      invariant AllOfSize(data[..i], dimensions)
    {
      if |data[i].values| != dimensions {
        return Failure(WrongDimensions);
      }
      TakeOne(data, i);
      more := more + [Shift(data[i], start)];
    }
    TakeAll(data);
    return Success(more);
  }

  /** _embed over any provider: it succeeds exactly when every batch is taken and the shifted
      indices are, in some order, those of the texts; then each gathered vector stands at the
      position its shifted index names. */
  method Embed(size: nat, dimensions: nat, texts: seq<string>, provider: nat -> Answer) returns (result: Answer)
    requires size > 0
    ensures var starts := Starts(|texts|, size, 0);
            && (result.Success? <==>
                  && (forall s <- starts :: Taken(|texts|, size, dimensions, provider, s))
                  && Permutes(Gather(provider, starts), |texts|))
            && (result.Success? ==> Placed(result.value, Gather(provider, starts), |texts|))
  {
    var vectors: seq<Vector> := [];
    var starts := Starts(|texts|, size, 0);
    for k := 0 to |starts|
      invariant vectors == Gather(provider, starts[..k])
      invariant forall s <- starts[..k] :: Taken(|texts|, size, dimensions, provider, s)
    {
      var start := starts[k];
      StartsTile(|texts|, size, 0, k);
      TakeOne(starts, k);
      assert starts[..k + 1][..k] == starts[..k];
      assert start in starts;
      var answer := provider(start);
      if answer.Failure? {
        return answer;
      }
      if |answer.value| != |BatchAt(texts, size, start)| {
        return Failure(WrongCount);
      }
      var more := AddBatch(vectors, answer.value, start, dimensions);
      if more.Failure? {
        return more;
      }
      vectors := more.value;
    }
    TakeAll(starts);
    SortSorts(vectors, ByIndex);
    SortedRange(vectors, |texts|);
    if !IsRange(Sort(vectors, ByIndex), |texts|) {
      return Failure(InvalidIndices);
    }
    return Success(Sort(vectors, ByIndex));
  }

  // ---- alignment ----

  /** The i-th vector is the i-th text's own. */
  ghost predicate Aligned(own: nat -> seq<real>, vectors: seq<Vector>) {
    forall i :: 0 <= i < |vectors| ==> vectors[i].values == own(i)
  }

  /** A successful result is aligned exactly when every vector that arrived belongs to the text
      at its shifted index. Equal texts need not have equal vectors. */
  lemma AlignedExactly(own: nat -> seq<real>, vectors: seq<Vector>, given: seq<Vector>, n: nat)
    requires Placed(vectors, given, n)
    ensures Aligned(own, vectors) <==> forall v <- given :: 0 <= v.index && v.values == own(v.index)
  {
    SameMembers(given, vectors);
    if Aligned(own, vectors) {
      forall v | v in given
        ensures 0 <= v.index && v.values == own(v.index)
      {
        assert v in vectors;
      }
    } else {
      var i :| 0 <= i < |vectors| && vectors[i].values != own(i);
      assert vectors[i] in given;
    }
  }

  // ---- the loop over the shipped client ----

  /** Every request of the loop is answered well and asks for no blank text. */
  ghost predicate AllGood(size: nat, dimensions: nat, texts: seq<string>, raw: nat -> Option<seq<Vector>>)
    requires size > 0
  {
    "" !in texts && forall s <- Starts(|texts|, size, 0) :: Good(dimensions, BatchLen(|texts|, size, s), raw(s))
  }

  /** Each vector is the item of its own batch's answer that names its text. */
  ghost predicate FromOwnBatch(size: nat, vectors: seq<Vector>, raw: nat -> Option<seq<Vector>>, n: nat)
    requires size > 0
  {
    && IsRange(vectors, n)
    && forall s <- Starts(n, size, 0) :: raw(s).Some? &&
         forall i :: s <= i < s + BatchLen(n, size, s) && i < n ==> vectors[i] in Shifted(raw(s).value, s)
  }

  /** The i-th vector has the values that the answer to the batch of text `i` gave the item naming it. */
  lemma OwnItem(size: nat, vectors: seq<Vector>, raw: nat -> Option<seq<Vector>>, n: nat, s: nat, i: nat)
    requires size > 0 && FromOwnBatch(size, vectors, raw, n) && s in Starts(n, size, 0)
    requires s <= i < s + BatchLen(n, size, s) && i < n
    ensures exists v: Vector :: v in raw(s).value && s + v.index == i && v.values == vectors[i].values
  {
    var data := raw(s).value;
    var moved := Shifted(data, s);
    assert |moved| == |data| && vectors[i] in moved;
    var k :| 0 <= k < |moved| && moved[k] == vectors[i];
    assert moved[k] == Shift(data[k], s) && data[k] in data;
  }

  lemma {:induction false} StartsCover(n: nat, size: nat, from: nat, i: nat)
    requires size > 0 && from <= i < n
    ensures exists s :: s in Starts(n, size, from) && s <= i < s + BatchLen(n, size, s)
    decreases n - from
  {
    if i < from + size {
      assert from in Starts(n, size, from);
    } else {
      StartsCover(n, size, from + size, i);
    }
  }

  function EndOf(n: nat, starts: seq<nat>, k: nat): nat {
    if k < |starts| then starts[k] else n
  }

  /** Batches that arrive in order are gathered in order. */
  lemma {:induction false} GatherInOrder(n: nat, size: nat, provider: nat -> Answer, k: nat)
    requires size > 0 && k <= |Starts(n, size, 0)|
    requires forall s <- Starts(n, size, 0) :: provider(s).Success? && IsRange(provider(s).value, BatchLen(n, size, s))
    ensures var starts := Starts(n, size, 0);
            var gathered := Gather(provider, starts[..k]);
            && IsRange(gathered, EndOf(n, starts, k))
            && forall s <- starts[..k] :: s + BatchLen(n, size, s) <= |gathered| &&
                 forall i :: s <= i < s + BatchLen(n, size, s) ==> gathered[i] in Shifted(provider(s).value, s)
    decreases k
  {
    var starts := Starts(n, size, 0);
    if k == 0 {
      if starts != [] { StartsTile(n, size, 0, 0); }
    } else {
      StartsTile(n, size, 0, k - 1);
      GatherInOrder(n, size, provider, k - 1);
      TakeOne(starts, k - 1);
      GatherOne(provider, starts[..k - 1], starts[k - 1]);
      AppendInOrder(n, size, provider, starts[..k - 1], starts[k - 1], Gather(provider, starts[..k - 1]));
    }
  }

  lemma GatherOne(provider: nat -> Answer, starts: seq<nat>, s: nat)
    requires provider(s).Success?
    ensures Gather(provider, starts + [s]) == Gather(provider, starts) + Shifted(provider(s).value, s)
  {
    assert (starts + [s])[..|starts|] == starts;
  }

  lemma AppendInOrder(n: nat, size: nat, provider: nat -> Answer, starts: seq<nat>, s: nat, before: seq<Vector>)
    requires provider(s).Success? && IsRange(provider(s).value, BatchLen(n, size, s)) && IsRange(before, s)
    requires forall t <- starts :: provider(t).Success? && t + BatchLen(n, size, t) <= |before| &&
               forall i :: t <= i < t + BatchLen(n, size, t) ==> before[i] in Shifted(provider(t).value, t)
    ensures var after := before + Shifted(provider(s).value, s);
            && IsRange(after, s + BatchLen(n, size, s))
            && forall t <- starts + [s] :: provider(t).Success? && t + BatchLen(n, size, t) <= |after| &&
                 forall i :: t <= i < t + BatchLen(n, size, t) ==> after[i] in Shifted(provider(t).value, t)
  {
    var more := Shifted(provider(s).value, s);
    var after := before + more;
    forall i | s <= i < s + BatchLen(n, size, s)
      ensures after[i] in more
    {
      assert after[i] == more[i - s];
    }
  }

  lemma RangesAgree(a: seq<Vector>, b: seq<Vector>, n: nat)
    requires IsRange(a, n) && IsRange(b, n) && multiset(a) == multiset(b)
    ensures a == b
  {
    SameMembers(a, b);
    forall i | 0 <= i < n
      ensures a[i] == b[i]
    {
      assert a[i] in b;
    }
  }

  lemma RangePermutes(data: seq<Vector>, n: nat)
    requires IsRange(data, n)
    ensures Permutes(data, n)
  {}

  /** What one good answer makes of its batch. */
  lemma GoodIsTaken(size: nat, dimensions: nat, texts: seq<string>, raw: Option<seq<Vector>>, provider: nat -> Answer, s: nat)
    requires size > 0 && s < |texts| && ClientAnswer(dimensions, BatchAt(texts, size, s), raw, provider(s))
    ensures provider(s).Success? <==> "" !in BatchAt(texts, size, s) && Good(dimensions, BatchLen(|texts|, size, s), raw)
    ensures provider(s).Success? ==>
              && Taken(|texts|, size, dimensions, provider, s)
              && IsRange(provider(s).value, BatchLen(|texts|, size, s))
              && forall v :: v in Shifted(provider(s).value, s) ==> v in Shifted(raw.value, s)
  {
    assert |BatchAt(texts, size, s)| == BatchLen(|texts|, size, s);
    if provider(s).Success? {
      SameMembers(raw.value, provider(s).value);
      forall v | v in Shifted(provider(s).value, s)
        ensures v in Shifted(raw.value, s)
      {
        var i :| 0 <= i < |provider(s).value| && Shifted(provider(s).value, s)[i] == v;
        assert provider(s).value[i] in raw.value;
        var j :| 0 <= j < |raw.value| && raw.value[j] == provider(s).value[i];
        assert Shifted(raw.value, s)[j] == v;
      }
    }
  }

  lemma BlankFree(texts: seq<string>, size: nat)
    requires size > 0
    ensures "" !in texts <==> forall s <- Starts(|texts|, size, 0) :: s < |texts| ==> "" !in BatchAt(texts, size, s)
  {
    var starts := Starts(|texts|, size, 0);
    if i :| 0 <= i < |texts| && texts[i] == "" {
      StartsCover(|texts|, size, 0, i);
      var s :| s in starts && s <= i < s + BatchLen(|texts|, size, s);
      assert BatchAt(texts, size, s)[i - s] == "";
    }
  }

  /** The loop over answers the client has checked. */
  lemma ClientBatches(size: nat, dimensions: nat, texts: seq<string>, raw: nat -> Option<seq<Vector>>, provider: nat -> Answer, vectors: seq<Vector>)
    requires size > 0
    requires forall s <- Starts(|texts|, size, 0) :: s < |texts| && ClientAnswer(dimensions, BatchAt(texts, size, s), raw(s), provider(s))
    ensures var starts, n := Starts(|texts|, size, 0), |texts|;
            && (AllGood(size, dimensions, texts, raw) <==> forall s <- starts :: Taken(n, size, dimensions, provider, s))
            && (AllGood(size, dimensions, texts, raw) ==>
                  && Permutes(Gather(provider, starts), n)
                  && (Placed(vectors, Gather(provider, starts), n) ==> FromOwnBatch(size, vectors, raw, n)))
  {
    var starts, n := Starts(|texts|, size, 0), |texts|;
    BlankFree(texts, size);
    forall s | s in starts
      ensures provider(s).Success? <==> "" !in BatchAt(texts, size, s) && Good(dimensions, BatchLen(n, size, s), raw(s))
      ensures provider(s).Success? ==> Taken(n, size, dimensions, provider, s) && IsRange(provider(s).value, BatchLen(n, size, s))
    {
      GoodIsTaken(size, dimensions, texts, raw(s), provider, s);
    }
    if AllGood(size, dimensions, texts, raw) {
      GatherInOrder(n, size, provider, |starts|);
      TakeAll(starts);
      RangePermutes(Gather(provider, starts), n);
      if Placed(vectors, Gather(provider, starts), n) {
        RangesAgree(vectors, Gather(provider, starts), n);
        forall s | s in starts
          ensures raw(s).Some? && forall v :: v in Shifted(provider(s).value, s) ==> v in Shifted(raw(s).value, s)
        {
          GoodIsTaken(size, dimensions, texts, raw(s), provider, s);
        }
      }
    }
  }

  lemma {:induction false} StartsInRange(n: nat, size: nat, from: nat)
    requires size > 0
    ensures forall s <- Starts(n, size, from) :: s < n
    decreases n - from
  {
    if from < n { StartsInRange(n, size, from + size); }
  }

  /** _embed with the shipped client: whatever arrives, it succeeds exactly when no text is blank
      and every answer has one vector of the right size for each text of its batch, in any order;
      and then the i-th vector is the item that names the i-th text in the answer to its batch. */
  method EmbedWithClient(size: nat, dimensions: nat, texts: seq<string>, raw: nat -> Option<seq<Vector>>) returns (result: Answer)
    requires size > 0 && dimensions > 0
    ensures result.Success? <==> AllGood(size, dimensions, texts, raw)
    ensures result.Success? ==> FromOwnBatch(size, result.value, raw, |texts|)
  {
    var starts := Starts(|texts|, size, 0);
    StartsInRange(|texts|, size, 0);
    var answers: map<nat, Answer> := map[];
    for k := 0 to |starts|
      invariant forall s <- starts[..k] :: s < |texts| && s in answers && ClientAnswer(dimensions, BatchAt(texts, size, s), raw(s), answers[s])
    {
      var s := starts[k];
      TakeOne(starts, k);
      assert s in starts;
      var answer := EmbedDocuments(dimensions, BatchAt(texts, size, s), raw(s));
      answers := answers[s := answer];
    }
    TakeAll(starts);
    var provider: nat -> Answer := s => if s in answers then answers[s] else Failure(RequestFailed);
    result := Embed(size, dimensions, texts, provider);
    ClientBatches(size, dimensions, texts, raw, provider, if result.Success? then result.value else []);
  }

  /** A provider of two batches of one text each that names the other batch's text. */
  function Swapping(x: seq<real>, y: seq<real>): nat -> Answer {
    s => Success(if s == 0 then [Vector(1, x)] else [Vector(-1, y)])
  }

  /** The batch loop leans on its provider for this: with indices that name texts of another batch
      two vectors can be swapped unnoticed. The shipped client never returns such indices. */
  lemma ForeignIndicesSwap(x: seq<real>, y: seq<real>)
    requires |x| == |y|
    ensures Starts(2, 1, 0) == [0, 1]
    ensures Taken(2, 1, |x|, Swapping(x, y), 0) && Taken(2, 1, |x|, Swapping(x, y), 1)
    ensures var gathered := Gather(Swapping(x, y), [0, 1]);
            Permutes(gathered, 2) && Placed([Vector(0, y), Vector(1, x)], gathered, 2)
  {
    TwoStarts();
    SwappedGather(x, y, Swapping(x, y));
    SwappedPair(Vector(1, x), Vector(0, y), Gather(Swapping(x, y), [0, 1]));
  }

  lemma TwoStarts()
    ensures Starts(2, 1, 0) == [0, 1]
  {
    assert Starts(2, 1, 2) == [] && Starts(2, 1, 1) == [1];
  }

  lemma SwappedGather(x: seq<real>, y: seq<real>, provider: nat -> Answer)
    requires provider(0) == Success([Vector(1, x)]) && provider(1) == Success([Vector(-1, y)])
    ensures Gather(provider, [0, 1]) == [Vector(1, x)] + [Vector(0, y)]
  {
    GatherOne(provider, [], 0);
    GatherOne(provider, [0], 1);
    assert [0, 1] == [0] + [1] && [0] == [] + [0];
    assert Shifted([Vector(1, x)], 0) == [Vector(1, x)] && Shifted([Vector(-1, y)], 1) == [Vector(0, y)];
  }

  lemma SwappedPair(a: Vector, b: Vector, pair: seq<Vector>)
    requires pair == [a] + [b] && a.index == 1 && b.index == 0
    ensures Permutes(pair, 2) && Placed([b, a], pair, 2)
  {
    assert [b, a] == [b] + [a];
  }
}
