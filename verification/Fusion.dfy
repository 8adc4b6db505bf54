/** Reciprocal rank fusion of a lexical and a vector result list. */
module Fusion {
  import opened Wrappers
  import opened Sorting

  type Id = string

  datatype Candidate = Candidate(id: Id, chunk: string)

  datatype Source = Lexical | Vector

  datatype Fused = Fused(id: Id, chunk: string, score: real, sources: seq<Source>)

  datatype Config = Config(rankConstant: nat, lexicalWeight: real, vectorWeight: real) {
    /** The constructor's checks. */
    predicate Legal() { rankConstant >= 1 && lexicalWeight > 0.0 && vectorWeight > 0.0 }
  }

  // ---- the reference definition ----

  predicate Lists(candidates: seq<Candidate>, id: Id) {
    exists i :: 0 <= i < |candidates| && candidates[i].id == id
  }

  /** The position of the first candidate with this id. */
  function First(candidates: seq<Candidate>, id: Id): (i: nat)
    requires Lists(candidates, id)
    ensures i < |candidates| && candidates[i].id == id && forall j :: 0 <= j < i ==> candidates[j].id != id
  {
    if candidates[0].id == id then 0 else First(candidates[1..], id) + 1
  }

  /** One list's part of a score: weight over constant plus the first rank, counted from one. */
  function Part(k: nat, weight: real, candidates: seq<Candidate>, id: Id): real
    requires k >= 1
  {
    if Lists(candidates, id) then weight / (k + First(candidates, id) + 1) as real else 0.0
  }

  function Score(cfg: Config, lexical: seq<Candidate>, vector: seq<Candidate>, id: Id): real
    requires cfg.Legal()
  {
    Part(cfg.rankConstant, cfg.lexicalWeight, lexical, id) + Part(cfg.rankConstant, cfg.vectorWeight, vector, id)
  }

  /** The chunk shown for an id: the first one the lists offer, lexical before vector. */
  function ChunkOf(lexical: seq<Candidate>, vector: seq<Candidate>, id: Id): string
    requires Lists(lexical, id) || Lists(vector, id)
  {
    if Lists(lexical, id) then lexical[First(lexical, id)].chunk else vector[First(vector, id)].chunk
  }

  function SourcesOf(lexical: seq<Candidate>, vector: seq<Candidate>, id: Id): seq<Source> {
    (if Lists(lexical, id) then [Lexical] else []) + (if Lists(vector, id) then [Vector] else [])
  }

  ghost predicate IsFusion(cfg: Config, lexical: seq<Candidate>, vector: seq<Candidate>, fused: seq<Fused>)
    requires cfg.Legal()
  {
    && (forall id :: (exists i :: 0 <= i < |fused| && fused[i].id == id) <==> Lists(lexical, id) || Lists(vector, id))
    && (forall i, j :: 0 <= i < j < |fused| ==> fused[i].id != fused[j].id)
    && (forall i :: 0 <= i < |fused| ==>
          var id := fused[i].id;
          && (Lists(lexical, id) || Lists(vector, id))
          && fused[i] == Fused(id, ChunkOf(lexical, vector, id), Score(cfg, lexical, vector, id), SourcesOf(lexical, vector, id)))
    && (forall i, j :: 0 <= i < j < |fused| ==>
          fused[i].score > fused[j].score || (fused[i].score == fused[j].score && StringLe(fused[i].id, fused[j].id)))
  }

  /** The id is first met at position `i`, or not at all when `i` is the length. */
  predicate FirstMet(candidates: seq<Candidate>, id: Id, i: nat) {
    i <= |candidates| && (i < |candidates| ==> candidates[i].id == id) && forall j :: 0 <= j < i ==> candidates[j].id != id
  }

  /** The score in plain terms: weight over rank constant plus rank, the first rank being one, summed
      over the lists that hold the id. */
  lemma ScoreInPlainTerms(cfg: Config, lexical: seq<Candidate>, vector: seq<Candidate>, id: Id, i: nat, j: nat)
    requires cfg.Legal() && FirstMet(lexical, id, i) && FirstMet(vector, id, j)
    ensures Score(cfg, lexical, vector, id)
         == (if i < |lexical| then cfg.lexicalWeight / (cfg.rankConstant + i + 1) as real else 0.0)
            + (if j < |vector| then cfg.vectorWeight / (cfg.rankConstant + j + 1) as real else 0.0)
  {
    if i < |lexical| { FirstIs(lexical, i); }
    if j < |vector| { FirstIs(vector, j); }
  }

  /** An entry in plain terms: the chunk and the sources of its id. */
  lemma EntryInPlainTerms(cfg: Config, lexical: seq<Candidate>, vector: seq<Candidate>, fused: seq<Fused>, f: Fused, i: nat, j: nat)
    requires cfg.Legal() && IsFusion(cfg, lexical, vector, fused) && f in fused
    requires FirstMet(lexical, f.id, i) && FirstMet(vector, f.id, j)
    ensures i < |lexical| || j < |vector|
    ensures f.chunk == if i < |lexical| then lexical[i].chunk else vector[j].chunk
    ensures f.sources == if i == |lexical| then [Vector] else if j == |vector| then [Lexical] else [Lexical, Vector]
  {
    var n :| 0 <= n < |fused| && fused[n] == f;
    if i < |lexical| { FirstIs(lexical, i); }
    if j < |vector| { FirstIs(vector, j); }
  }

  // ---- the loops ----

  /** What the dictionaries hold for one id. They always have the same ids. */
  datatype Row = Row(chunk: string, score: real, sources: set<Source>)

  /** The rows, and the ids in the order they were inserted. */
  datatype Tables = Tables(order: seq<Id>, rows: map<Id, Row>)

  ghost predicate Consistent(t: Tables) {
    (forall id :: id in t.rows <==> id in t.order) && Distinct(t.order)
  }

  /** One candidate's effect on its row: the first chunk stays, score and source are added. */
  function Contribute(t: Tables, id: Id, chunk: string, part: real, source: Source): Row {
    if id in t.rows then Row(t.rows[id].chunk, t.rows[id].score + part, t.rows[id].sources + {source})
    else Row(chunk, 0.0 + part, {source})
  }

  function Put(t: Tables, id: Id, row: Row): Tables {
    Tables(if id in t.rows then t.order else t.order + [id], t.rows[id := row])
  }

  lemma PutIsConsistent(t: Tables, id: Id, row: Row)
    requires Consistent(t)
    ensures Consistent(Put(t, id, row))
  {}

  /** The tables once a pass has met some ids of its list. */
  ghost predicate Passed(k: nat, weight: real, source: Source, candidates: seq<Candidate>, t: Tables, u: Tables, met: set<Id>)
    requires k >= 1
  {
    && (forall id <- met :: Lists(candidates, id) && id in u.rows
          && u.rows[id] == Contribute(t, id, candidates[First(candidates, id)].chunk, Part(k, weight, candidates, id), source))
    && (forall id :: id in u.rows && id !in met ==> id in t.rows && u.rows[id] == t.rows[id])
    && (forall id <- t.rows :: id in u.rows)
  }

  lemma {:induction false} FirstIs(candidates: seq<Candidate>, i: nat)
    requires i < |candidates| && forall j :: 0 <= j < i ==> candidates[j].id != candidates[i].id
    ensures Lists(candidates, candidates[i].id) && First(candidates, candidates[i].id) == i
  {}

  lemma PassGoesOn(k: nat, weight: real, source: Source, candidates: seq<Candidate>, t: Tables, u: Tables, met: set<Id>, i: nat)
    requires k >= 1 && i < |candidates| && Passed(k, weight, source, candidates, t, u, met)
    requires candidates[i].id !in met && forall j :: 0 <= j < i ==> candidates[j].id != candidates[i].id
    ensures var c := candidates[i];
            var row := Contribute(u, c.id, c.chunk, weight / (k + i + 1) as real, source);
            Passed(k, weight, source, candidates, t, Put(u, c.id, row), met + {c.id})
  {
    var c := candidates[i];
    FirstIs(candidates, i);
    assert Part(k, weight, candidates, c.id) == weight / (k + i + 1) as real;
    assert c.id in u.rows <==> c.id in t.rows;
  }

  /** The ids met are those of the first `i` candidates. */
  ghost predicate MetUpTo(candidates: seq<Candidate>, i: nat, met: set<Id>)
    requires i <= |candidates|
  {
    forall id :: id in met <==> exists j :: 0 <= j < i && candidates[j].id == id
  }

  lemma MetGrows(candidates: seq<Candidate>, i: nat, met: set<Id>)
    requires i < |candidates| && MetUpTo(candidates, i, met)
    ensures MetUpTo(candidates, i + 1, met + {candidates[i].id})
    ensures candidates[i].id in met ==> met + {candidates[i].id} == met
    ensures candidates[i].id !in met ==> forall j :: 0 <= j < i ==> candidates[j].id != candidates[i].id
  {
    var more := met + {candidates[i].id};
    forall id: Id
      ensures id in more <==> exists j :: 0 <= j < i + 1 && candidates[j].id == id
    {
      if id in met {
        var j :| 0 <= j < i && candidates[j].id == id;
      } else if j :| 0 <= j < i + 1 && candidates[j].id == id {
        assert j < i ==> id in met;
      }
    }
  }

  /** One candidate: counted the first time its id is met. */
  method AddCandidate(k: nat, weight: real, source: Source, candidates: seq<Candidate>, i: nat, t: Tables, u: Tables, met: set<Id>)
    returns (u': Tables)
    requires k >= 1 && i < |candidates| && MetUpTo(candidates, i, met)
    requires Consistent(u) && Passed(k, weight, source, candidates, t, u, met)
    ensures Consistent(u') && Passed(k, weight, source, candidates, t, u', met + {candidates[i].id})
  {
    MetGrows(candidates, i, met);
    var c := candidates[i];
    u' := u;
    if c.id !in met {
      var row := Contribute(u, c.id, c.chunk, weight / (k + i + 1) as real, source);
      PutIsConsistent(u, c.id, row);
      PassGoesOn(k, weight, source, candidates, t, u, met, i);
      u' := Put(u, c.id, row);
    }
  }

  lemma PassStarts(k: nat, weight: real, source: Source, candidates: seq<Candidate>, t: Tables)
    requires k >= 1
    ensures Passed(k, weight, source, candidates, t, t, {}) && MetUpTo(candidates, 0, {})
  {}

  /** One pass of the outer loop: adds a source's part to every id it lists, once per id. */
  method AddSource(k: nat, weight: real, source: Source, candidates: seq<Candidate>, t: Tables) returns (u: Tables, ghost seen: set<Id>)
    requires k >= 1 && Consistent(t)
    ensures Consistent(u) && Passed(k, weight, source, candidates, t, u, seen)
    ensures MetUpTo(candidates, |candidates|, seen)
  {
    u := t;
    var met: set<Id> := {};
    PassStarts(k, weight, source, candidates, t);
    for i := 0 to |candidates|
      invariant MetUpTo(candidates, i, met)
      invariant Consistent(u) && Passed(k, weight, source, candidates, t, u, met)
    {
      u := AddCandidate(k, weight, source, candidates, i, t, u, met);
      MetGrows(candidates, i, met);
      met := met + {candidates[i].id};
    }
    seen := met;
  }

  function ScoreIn(t: Tables, id: Id): real { if id in t.rows then t.rows[id].score else 0.0 }

  predicate Ahead(t: Tables, a: Id, b: Id) {
    ScoreIn(t, a) > ScoreIn(t, b) || (ScoreIn(t, a) == ScoreIn(t, b) && StringLe(a, b))
  }

  function SortedSources(s: set<Source>): seq<Source> {
    (if Lexical in s then [Lexical] else []) + (if Vector in s then [Vector] else [])
  }

  /** _rrf: the fused list is the one the reference definition describes. */
  method Fuse(cfg: Config, lexical: seq<Candidate>, vector: seq<Candidate>) returns (fused: seq<Fused>)
    requires cfg.Legal()
    ensures IsFusion(cfg, lexical, vector, fused)
  {
    var empty := Tables([], map[]);
    var first, seenLexical := AddSource(cfg.rankConstant, cfg.lexicalWeight, Lexical, lexical, empty);
    var t, seenVector := AddSource(cfg.rankConstant, cfg.vectorWeight, Vector, vector, first);
    TablesAreFusion(cfg, lexical, vector, empty, first, t, seenLexical, seenVector);
    var ordered := SortIds(t);
    fused := Entries(t, ordered);
    OrderedIsFusion(cfg, lexical, vector, t, ordered, fused);
  }

  /** The list built from the dictionaries, one entry per id. */
  method Entries(t: Tables, ordered: seq<Id>) returns (fused: seq<Fused>)
    requires forall id <- ordered :: id in t.rows
    ensures |fused| == |ordered| && forall i :: 0 <= i < |ordered| ==> ordered[i] in t.rows && fused[i] == EntryOf(t, ordered[i])
  {
    fused := [];
    for i := 0 to |ordered|
      invariant |fused| == i
      invariant forall j :: 0 <= j < i ==> fused[j] == EntryOf(t, ordered[j])
    {
      fused := fused + [EntryOf(t, ordered[i])];
    }
  }

  function EntryOf(t: Tables, id: Id): Fused
    requires id in t.rows
  {
    Fused(id, t.rows[id].chunk, t.rows[id].score, SortedSources(t.rows[id].sources))
  }

  lemma AheadIsTotal(t: Tables, le: (Id, Id) -> bool)
    requires forall a, b :: le(a, b) <==> Ahead(t, a, b)
    ensures TotalOrder(le)
  {
    forall a, b
      ensures le(a, b) || le(b, a)
    {
      StringLeIsTotal(a, b);
    }
    forall a, b, c | le(a, b) && le(b, c)
      ensures le(a, c)
    {
      if StringLe(a, b) && StringLe(b, c) { StringLeIsTransitive(a, b, c); }
    }
  }

  /** sorted(scores, key=(-score, id)) */
  method SortIds(t: Tables) returns (ordered: seq<Id>)
    requires Consistent(t)
    ensures Distinct(ordered) && forall id :: id in ordered <==> id in t.rows
    ensures forall i, j :: 0 <= i < j < |ordered| ==> Ahead(t, ordered[i], ordered[j])
  {
    var le := (a: Id, b: Id) => Ahead(t, a, b);
    AheadIsTotal(t, le);
    SortSorts(t.order, le);
    ordered := Sort(t.order, le);
    PermutationKeepsDistinct(t.order, ordered);
    assert forall i, j :: 0 <= i < j < |ordered| ==> le(ordered[i], ordered[j]);
  }

  ghost predicate IsEntry(cfg: Config, lexical: seq<Candidate>, vector: seq<Candidate>, f: Fused)
    requires cfg.Legal()
  {
    && (Lists(lexical, f.id) || Lists(vector, f.id))
    && f == Fused(f.id, ChunkOf(lexical, vector, f.id), Score(cfg, lexical, vector, f.id), SourcesOf(lexical, vector, f.id))
  }

  lemma TablesAreFusion(cfg: Config, lexical: seq<Candidate>, vector: seq<Candidate>,
                        empty: Tables, first: Tables, t: Tables, seenLexical: set<Id>, seenVector: set<Id>)
    requires cfg.Legal() && empty == Tables([], map[])
    requires Passed(cfg.rankConstant, cfg.lexicalWeight, Lexical, lexical, empty, first, seenLexical)
    requires Passed(cfg.rankConstant, cfg.vectorWeight, Vector, vector, first, t, seenVector)
    requires forall id :: id in seenLexical <==> Lists(lexical, id)
    requires forall id :: id in seenVector <==> Lists(vector, id)
    ensures forall id :: id in t.rows <==> Lists(lexical, id) || Lists(vector, id)
    ensures forall id <- t.rows :: IsEntry(cfg, lexical, vector, EntryOf(t, id))
  {
    forall id | id in t.rows
      ensures IsEntry(cfg, lexical, vector, EntryOf(t, id))
    {
      assert id in first.rows <==> Lists(lexical, id);
    }
  }

  lemma OrderedIsFusion(cfg: Config, lexical: seq<Candidate>, vector: seq<Candidate>, t: Tables, ordered: seq<Id>, fused: seq<Fused>)
    requires cfg.Legal() && |fused| == |ordered| && Distinct(ordered)
    requires forall id :: id in ordered <==> id in t.rows
    requires forall id :: id in t.rows <==> Lists(lexical, id) || Lists(vector, id)
    requires forall id <- t.rows :: IsEntry(cfg, lexical, vector, EntryOf(t, id))
    requires forall i, j :: 0 <= i < j < |ordered| ==> Ahead(t, ordered[i], ordered[j])
    requires forall i :: 0 <= i < |fused| ==> ordered[i] in t.rows && fused[i] == EntryOf(t, ordered[i])
    ensures IsFusion(cfg, lexical, vector, fused)
  {
    forall id | id in ordered
      ensures exists i :: 0 <= i < |fused| && fused[i].id == id
    {
      var i :| 0 <= i < |ordered| && ordered[i] == id;
      assert fused[i].id == id;
    }
    assert forall i :: 0 <= i < |fused| ==> fused[i].score == ScoreIn(t, ordered[i]);
  }

  // ---- what fusion guarantees ----

  /** The better placed item: it precedes the other in every list that has the other. */
  predicate Dominates(candidates: seq<Candidate>, a: Id, b: Id) {
    Lists(candidates, b) ==> Lists(candidates, a) && First(candidates, a) < First(candidates, b)
  }

  lemma PartIsMonotone(k: nat, weight: real, candidates: seq<Candidate>, a: Id, b: Id)
    requires k >= 1 && weight > 0.0 && Dominates(candidates, a, b)
    ensures Part(k, weight, candidates, a) >= Part(k, weight, candidates, b)
    ensures Lists(candidates, b) ==> Part(k, weight, candidates, a) > Part(k, weight, candidates, b)
  {
    if Lists(candidates, b) {
      Reciprocal(weight, k + First(candidates, a) + 1, k + First(candidates, b) + 1);
    } else if Lists(candidates, a) {
      Reciprocal(weight, k + First(candidates, a) + 1, k + First(candidates, a) + 2);
    }
  }

  lemma Reciprocal(weight: real, m: nat, n: nat)
    requires weight > 0.0 && 0 < m < n
    ensures weight / m as real > weight / n as real > 0.0
  {
    var p, q := weight / m as real, weight / n as real;
    assert p * m as real == weight && q * n as real == weight;
    Cancel(p, m as real);
    Cancel(q, n as real);
    assert p * (n - m) as real > 0.0;
    assert (p - q) * n as real == p * (n - m) as real;
    Cancel(p - q, n as real);
  }

  lemma Cancel(x: real, n: real)
    requires x * n > 0.0 && n > 0.0
    ensures x > 0.0
  {}

  /** An item ahead of another in every list where the other appears comes out ahead. */
  lemma DominanceIsKept(cfg: Config, lexical: seq<Candidate>, vector: seq<Candidate>, fused: seq<Fused>, i: nat, j: nat)
    requires cfg.Legal() && IsFusion(cfg, lexical, vector, fused) && i < |fused| && j < |fused|
    requires Dominates(lexical, fused[i].id, fused[j].id) && Dominates(vector, fused[i].id, fused[j].id)
    ensures i < j && fused[i].score > fused[j].score
  {
    PartIsMonotone(cfg.rankConstant, cfg.lexicalWeight, lexical, fused[i].id, fused[j].id);
    PartIsMonotone(cfg.rankConstant, cfg.vectorWeight, vector, fused[i].id, fused[j].id);
  }

  /** The fused list is determined by the lists. */
  lemma {:induction false} FusionIsUnique(cfg: Config, lexical: seq<Candidate>, vector: seq<Candidate>, a: seq<Fused>, b: seq<Fused>, i: nat)
    requires cfg.Legal() && IsFusion(cfg, lexical, vector, a) && IsFusion(cfg, lexical, vector, b) && i < |a|
    ensures i < |b| && a[i] == b[i]
    decreases i
  {
    var id := a[i].id;
    var m :| 0 <= m < |b| && b[m].id == id;
    if m < i {
      FusionIsUnique(cfg, lexical, vector, a, b, m);
    } else if m > i {
      var other := b[i].id;
      var n :| 0 <= n < |a| && a[n].id == other;
      if n < i { FusionIsUnique(cfg, lexical, vector, a, b, n); }
      StringLeIsTotal(id, other);
    }
  }
}
