/** The evidence registry of one chat run and the resolution of an answer's citations. */
module Evidence {
  import opened Wrappers
  import Decimal
  import Chunking

  /** A retrieved chunk, and the evidence source made of it. */
  datatype Hit = Hit(chunkId: string, contractId: string, excerpt: string)
  datatype Source = Source(sourceId: string, hit: Hit)

  /** The n-th source id, counted from one. */
  function SourceId(n: nat): string { "S" + Decimal.Print(n) }

  predicate IsNumber(id: string, n: nat) { id == "S" + Decimal.Print(n) }

  lemma SourceIdIsInjective(m: nat, n: nat)
    requires SourceId(m) == SourceId(n)
    ensures m == n
  {
    assert SourceId(m)[1..] == Decimal.Print(m) && SourceId(n)[1..] == Decimal.Print(n);
    Decimal.PrintInjective(m, n);
  }

  /** Source ids S1..Sn in order. */
  ghost predicate Numbered(sources: seq<Source>) {
    forall i :: 0 <= i < |sources| ==> sources[i].sourceId == SourceId(i + 1)
  }

  lemma NextIdIsNew(sources: seq<Source>)
    requires Numbered(sources)
    ensures forall i :: 0 <= i < |sources| ==> sources[i].sourceId != SourceId(|sources| + 1)
  {
    forall i | 0 <= i < |sources|
      ensures sources[i].sourceId != SourceId(|sources| + 1)
    {
      if sources[i].sourceId == SourceId(|sources| + 1) { SourceIdIsInjective(i + 1, |sources| + 1); }
    }
  }

  ghost predicate Registered(sources: seq<Source>, chunkId: string) {
    exists i :: 0 <= i < |sources| && sources[i].hit.chunkId == chunkId
  }

  ghost predicate HasId(sources: seq<Source>, sourceId: string) {
    exists i :: 0 <= i < |sources| && sources[i].sourceId == sourceId
  }

  /** The chunk table holds exactly the registered sources; no chunk is registered twice. */
  ghost predicate ByChunk(sources: seq<Source>, byChunk: map<string, Source>) {
    && (forall i :: 0 <= i < |sources| ==> sources[i].hit.chunkId in byChunk && byChunk[sources[i].hit.chunkId] == sources[i])
    && (forall i, j :: 0 <= i < j < |sources| ==> sources[i].hit.chunkId != sources[j].hit.chunkId)
    && (forall c <- byChunk :: Registered(sources, c))
  }

  /** The source table holds exactly the registered sources. */
  ghost predicate BySource(sources: seq<Source>, bySource: map<string, Source>) {
    && |bySource| == |sources|
    && (forall i :: 0 <= i < |sources| ==> sources[i].sourceId in bySource && bySource[sources[i].sourceId] == sources[i])
    && (forall s <- bySource :: HasId(sources, s))
  }

  lemma ByChunkGrows(sources: seq<Source>, byChunk: map<string, Source>, source: Source)
    requires ByChunk(sources, byChunk) && source.hit.chunkId !in byChunk
    ensures ByChunk(sources + [source], byChunk[source.hit.chunkId := source])
    ensures !Registered(sources, source.hit.chunkId)
  {
    var more := sources + [source];
    assert forall i :: 0 <= i < |sources| ==> more[i] == sources[i];
    forall c | c in byChunk
      ensures Registered(more, c)
    {
      var i :| 0 <= i < |sources| && sources[i].hit.chunkId == c;
      assert more[i].hit.chunkId == c;
    }
    assert more[|sources|] == source;
  }

  lemma BySourceGrows(sources: seq<Source>, bySource: map<string, Source>, source: Source)
    requires BySource(sources, bySource) && !HasId(sources, source.sourceId)
    ensures BySource(sources + [source], bySource[source.sourceId := source])
  {
    var more := sources + [source];
    assert forall i :: 0 <= i < |sources| ==> more[i] == sources[i];
    forall s | s in bySource
      ensures HasId(more, s)
    {
      var i :| 0 <= i < |sources| && sources[i].sourceId == s;
      assert more[i].sourceId == s;
    }
    assert more[|sources|] == source;
    assert source.sourceId !in bySource;
  }

  lemma ByChunkMeansRegistered(sources: seq<Source>, byChunk: map<string, Source>, chunkId: string)
    requires ByChunk(sources, byChunk)
    ensures chunkId in byChunk <==> Registered(sources, chunkId)
    ensures chunkId in byChunk ==> byChunk[chunkId] in sources && byChunk[chunkId].hit.chunkId == chunkId
  {}

  lemma NumberedGrows(sources: seq<Source>, source: Source)
    requires Numbered(sources) && source.sourceId == SourceId(|sources| + 1)
    ensures Numbered(sources + [source]) && !HasId(sources, source.sourceId)
  {
    NextIdIsNew(sources);
  }

  class Registry {
    var byChunk: map<string, Source>
    var bySource: map<string, Source>
    /** The registered sources in order. */
    ghost var sources: seq<Source>

    ghost predicate Valid()
      reads this
    {
      Numbered(sources) && ByChunk(sources, byChunk) && BySource(sources, bySource)
    }

    constructor ()
      ensures Valid() && sources == []
    {
      byChunk, bySource, sources := map[], map[], [];
    }

    /** Registering returns the existing source of a known chunk unchanged, and otherwise
        appends a new one with the next id. */
    method Register(hit: Hit) returns (source: Source)
      requires Valid()
      modifies this
      ensures Valid() && source in sources && source.hit.chunkId == hit.chunkId
      ensures Registered(old(sources), hit.chunkId) ==> sources == old(sources)
      ensures !Registered(old(sources), hit.chunkId) ==>
                sources == old(sources) + [source] && source == Source("S" + Decimal.Print(|old(sources)| + 1), hit)
    {
      ByChunkMeansRegistered(sources, byChunk, hit.chunkId);
      if hit.chunkId in byChunk {
        return byChunk[hit.chunkId];
      }
      source := Source(SourceId(|bySource| + 1), hit);
      NumberedGrows(sources, source);
      ByChunkGrows(sources, byChunk, source);
      BySourceGrows(sources, bySource, source);
      byChunk := byChunk[hit.chunkId := source];
      bySource := bySource[source.sourceId := source];
      sources := sources + [source];
    }

    /** Resolution: it fails exactly when some cited token is not a registered id, naming the
        first such token, and otherwise returns the cited sources in the order of their first
        citation, without repeats. */
    method ResolveCitations(content: string) returns (result: Result<seq<Source>, string>)
      requires Valid()
      ensures Resolves(Tokens(content), result)
    {
      result := ResolveTokens(Tokens(content));
    }

    /** What resolving a list of tokens must return. */
    ghost predicate Resolves(tokens: seq<string>, result: Result<seq<Source>, string>)
      reads this
    {
      match result
      case Success(cited) =>
        && AllKnown(tokens)
        && IdsOf(cited) == FirstUses(Stripped(tokens))
        && (forall s <- cited :: s in sources)
      case Failure(token) => !Known(token) && FirstUnknown(tokens, token)
    }

    /** The loop over the tokens. */
    method ResolveTokens(tokens: seq<string>) returns (result: Result<seq<Source>, string>)
      requires Valid()
      ensures Resolves(tokens, result)
    {
      var cited: seq<Source> := [];
      var seen: set<string> := {};
      ghost var done: seq<string> := [];
      for i := 0 to |tokens|
        invariant done == tokens[..i]
        invariant CitedFor(done, cited, seen) && AllKnown(done)
      {
        TakeOne(tokens, i);
        var token := Strip(tokens[i]);
        KnownIsWellFormed(token);
        if !IsSourceId(token) || token !in bySource {
          return Failure(token);
        }
        cited, seen := Cite(done, tokens[i], cited, seen);
        done := done + [tokens[i]];
      }
      TakeAll(tokens);
      return Success(cited);
    }

    ghost predicate AllKnown(tokens: seq<string>)
      reads this
    {
      forall t <- tokens :: Known(Strip(t))
    }

    /** The sources cited by the tokens so far, and the ids seen. */
    ghost predicate CitedFor(tokens: seq<string>, cited: seq<Source>, seen: set<string>)
      reads this
    {
      && IdsOf(cited) == FirstUses(Stripped(tokens))
      && (forall s <- cited :: s in sources)
      && (forall id :: id in seen <==> id in Stripped(tokens))
    }

    /** One known token: its source is appended at its first use. */
    method Cite(ghost before: seq<string>, raw: string, cited: seq<Source>, seen: set<string>) returns (cited': seq<Source>, seen': set<string>)
      requires Valid() && Known(Strip(raw))
      requires CitedFor(before, cited, seen)
      ensures CitedFor(before + [raw], cited', seen')
    {
      var token := Strip(raw);
      StrippedSnoc(before, raw);
      FirstUsesSnoc(Stripped(before), token);
      cited', seen' := cited, seen;
      if token !in seen {
        IdsOfSnoc(cited, bySource[token]);
        KnownIsRegistered(token);
        cited' := cited + [bySource[token]];
        seen' := seen + {token};
      }
    }

    ghost predicate Known(id: string)
      reads this
    {
      id in bySource
    }

    ghost predicate FirstUnknown(tokens: seq<string>, id: string)
      reads this
    {
      exists i :: 0 <= i < |tokens| && Strip(tokens[i]) == id && AllKnown(tokens[..i])
    }

    lemma KnownIsRegistered(id: string)
      requires Valid() && Known(id)
      ensures bySource[id] in sources && bySource[id].sourceId == id
    {
      var i :| 0 <= i < |sources| && sources[i].sourceId == id;
    }

    /** Every registered id passes the source-id pattern. */
    lemma KnownIsWellFormed(id: string)
      requires Valid()
      ensures Known(id) ==> IsSourceId(id)
    {
      if Known(id) {
        var i :| 0 <= i < |sources| && sources[i].sourceId == id;
        SourceIdIsWellFormed(i + 1);
      }
    }

    /** The registered ids are exactly S1 to Sn. */
    lemma KnownIsNumbered(id: string)
      requires Valid()
      ensures Known(id) <==> exists n: nat :: 1 <= n <= |sources| && IsNumber(id, n)
    {
      if Known(id) {
        var i :| 0 <= i < |sources| && sources[i].sourceId == id;
        assert IsNumber(id, i + 1);
      }
      if n: nat :| 1 <= n <= |sources| && IsNumber(id, n) {
        assert sources[n - 1].sourceId == id;
      }
    }
  }

  // ---- tokens ----

  /** S[1-9]\d* */
  predicate IsSourceId(s: string) {
    |s| >= 2 && s[0] == 'S' && '1' <= s[1] <= '9' && Decimal.AllDigits(s[1..])
  }

  lemma SourceIdIsWellFormed(n: nat)
    requires n >= 1
    ensures IsSourceId(SourceId(n))
  {
    Decimal.ReadPrint(n);
    var id := SourceId(n);
    assert id[1..] == Decimal.Print(n);
    assert id[1] == id[1..][0] && Decimal.IsDigit(id[1..][0]);
  }

  predicate Stops(c: char) { c == '[' || c == ']' || c == '\n' }

  /** The first bracket or line end at or behind `i`. */
  function NextStop(s: string, i: nat): (j: nat)
    requires i <= |s|
    ensures i <= j <= |s| && (j < |s| ==> Stops(s[j])) && forall k :: i <= k < j ==> !Stops(s[k])
    decreases |s| - i
  {
    if i == |s| || Stops(s[i]) then i else NextStop(s, i + 1)
  }

  /** findall of \[([^\[\]\n]{1,120})\]: the bracketed tokens from left to right. */
  function Tokens(s: string): seq<string>
    decreases |s|
  {
    if s == "" then []
    else
      var j := NextStop(s, 1);
      if s[0] == '[' && j < |s| && s[j] == ']' && 1 <= j - 1 <= 120 then [s[1..j]] + Tokens(s[j + 1..])
      else Tokens(s[1..])
  }

  /** The token stands in brackets at `i`. */
  predicate BracketedAt(s: string, i: nat, t: string) {
    && 1 <= |t| <= 120 && i + |t| + 1 < |s| && s[i] == '[' && s[i + |t| + 1] == ']' && s[i + 1..i + |t| + 1] == t
    && forall k :: 0 <= k < |t| ==> t[k] != '[' && t[k] != ']' && t[k] != '\n'
  }

  /** Somewhere in the text the token stands in brackets. */
  ghost predicate Bracketed(s: string, t: string) { exists i: nat :: BracketedAt(s, i, t) }

  lemma BracketedFirst(s: string, t: string)
    requires BracketedAt(s, 0, t)
    ensures NextStop(s, 1) == |t| + 1
  {
    assert forall k :: 1 <= k < |t| + 1 ==> s[k] == s[1..|t| + 1][k - 1];
    NextStopIs(s, 1, |t| + 1);
  }

  lemma BracketedBehind(s: string, n: nat, i: nat, t: string)
    requires n <= i && n <= |s|
    ensures BracketedAt(s, i, t) <==> BracketedAt(s[n..], i - n, t)
  {
    if i + |t| + 1 < |s| { assert s[n..][i - n + 1..i - n + |t| + 1] == s[i + 1..i + |t| + 1]; }
  }

  /** Nothing is missed and nothing invented: the tokens are exactly the texts in brackets. */
  lemma {:induction false} TokensAreBracketed(s: string, t: string)
    ensures t in Tokens(s) <==> Bracketed(s, t)
    decreases |s|
  {
    if s != "" {
      var j := NextStop(s, 1);
      if s[0] == '[' && j < |s| && s[j] == ']' && 1 <= j - 1 <= 120 {
        TokensAreBracketed(s[j + 1..], t);
        FoundToken(s, j, t);
      } else {
        TokensAreBracketed(s[1..], t);
        NoToken(s, j, t);
      }
    }
  }

  lemma FoundToken(s: string, j: nat, t: string)
    requires s != "" && s[0] == '[' && j == NextStop(s, 1) < |s| && s[j] == ']' && 1 <= j - 1 <= 120
    ensures Bracketed(s, t) <==> t == s[1..j] || Bracketed(s[j + 1..], t)
  {
    if Bracketed(s, t) {
      var i: nat :| BracketedAt(s, i, t);
      if i == 0 {
        BracketedFirst(s, t);
      } else {
        assert i > j;
        BracketedBehind(s, j + 1, i, t);
      }
    }
    if t == s[1..j] { assert BracketedAt(s, 0, t); }
    var rest := s[j + 1..];
    if Bracketed(rest, t) {
      var i: nat :| BracketedAt(rest, i, t);
      BracketedBehind(s, j + 1, i + j + 1, t);
    }
  }

  lemma NoToken(s: string, j: nat, t: string)
    requires s != "" && j == NextStop(s, 1) && !(s[0] == '[' && j < |s| && s[j] == ']' && 1 <= j - 1 <= 120)
    ensures Bracketed(s, t) <==> Bracketed(s[1..], t)
  {
    if Bracketed(s, t) {
      var i: nat :| BracketedAt(s, i, t);
      if i == 0 { BracketedFirst(s, t); }
      BracketedBehind(s, 1, if i == 0 then 1 else i, t);
    }
    var rest := s[1..];
    if Bracketed(rest, t) {
      var i: nat :| BracketedAt(rest, i, t);
      BracketedBehind(s, 1, i + 1, t);
    }
  }

  function StripStart(s: string): string {
    if s != "" && Chunking.IsSpace(s[0]) then StripStart(s[1..]) else s
  }

  function StripEnd(s: string): string {
    if s != "" && Chunking.IsSpace(s[|s| - 1]) then StripEnd(s[..|s| - 1]) else s
  }

  function Strip(s: string): string { StripEnd(StripStart(s)) }

  predicate AllSpace(s: string) { forall i :: 0 <= i < |s| ==> Chunking.IsSpace(s[i]) }

  lemma {:induction false} StripStartIsExact(s: string)
    ensures exists a: string :: AllSpace(a) && s == a + StripStart(s)
    ensures StripStart(s) != "" ==> !Chunking.IsSpace(StripStart(s)[0])
    decreases |s|
  {
    if s != "" && Chunking.IsSpace(s[0]) {
      StripStartIsExact(s[1..]);
      var a: string :| AllSpace(a) && s[1..] == a + StripStart(s[1..]);
      assert AllSpace([s[0]] + a) && s == ([s[0]] + a) + StripStart(s);
    } else {
      assert AllSpace("") && s == "" + StripStart(s);
    }
  }

  lemma {:induction false} StripEndIsExact(s: string)
    ensures exists b: string :: AllSpace(b) && s == StripEnd(s) + b
    ensures StripEnd(s) != "" ==> !Chunking.IsSpace(StripEnd(s)[|StripEnd(s)| - 1]) && StripEnd(s)[0] == s[0]
    decreases |s|
  {
    if s != "" && Chunking.IsSpace(s[|s| - 1]) {
      var rest := s[..|s| - 1];
      StripEndIsExact(rest);
      var b: string :| AllSpace(b) && rest == StripEnd(rest) + b;
      assert AllSpace(b + [s[|s| - 1]]) && s == StripEnd(s) + (b + [s[|s| - 1]]);
    } else {
      assert AllSpace("") && s == StripEnd(s) + "";
    }
  }

  /** Stripping takes off space at both ends and nothing else, until none is left. */
  lemma StripIsExact(s: string)
    ensures exists a: string, b: string :: AllSpace(a) && AllSpace(b) && s == a + Strip(s) + b
    ensures Strip(s) != "" ==> !Chunking.IsSpace(Strip(s)[0]) && !Chunking.IsSpace(Strip(s)[|Strip(s)| - 1])
  {
    StripStartIsExact(s);
    StripEndIsExact(StripStart(s));
    var a: string :| AllSpace(a) && s == a + StripStart(s);
    var b: string :| AllSpace(b) && StripStart(s) == Strip(s) + b;
    assert s == a + Strip(s) + b;
  }

  function Stripped(tokens: seq<string>): seq<string> {
    seq(|tokens|, i requires 0 <= i < |tokens| => Strip(tokens[i]))
  }

  lemma StrippedSnoc(tokens: seq<string>, t: string)
    ensures Stripped(tokens + [t]) == Stripped(tokens) + [Strip(t)]
  {}

  function IdsOf(sources: seq<Source>): seq<string> {
    seq(|sources|, i requires 0 <= i < |sources| => sources[i].sourceId)
  }

  lemma IdsOfSnoc(sources: seq<Source>, s: Source)
    ensures IdsOf(sources + [s]) == IdsOf(sources) + [s.sourceId]
  {}

  /** Each id once, where it is first used. */
  function FirstUses(ids: seq<string>): seq<string> {
    if ids == [] then []
    else
      var before, last := FirstUses(ids[..|ids| - 1]), ids[|ids| - 1];
      if last in ids[..|ids| - 1] then before else before + [last]
  }

  lemma FirstUsesSnoc(ids: seq<string>, id: string)
    ensures FirstUses(ids + [id]) == if id in ids then FirstUses(ids) else FirstUses(ids) + [id]
  {
    assert (ids + [id])[..|ids|] == ids;
  }

  function FirstAt(ids: seq<string>, id: string): (i: nat)
    requires id in ids
    ensures i < |ids| && ids[i] == id && forall j :: 0 <= j < i ==> ids[j] != id
  {
    if ids[0] == id then 0 else FirstAt(ids[1..], id) + 1
  }

  /** FirstUses keeps every id exactly once, in the order of their first positions. */
  lemma {:induction false} FirstUsesIsDedup(ids: seq<string>)
    ensures forall id :: id in FirstUses(ids) <==> id in ids
    ensures forall i, j :: 0 <= i < j < |FirstUses(ids)| ==>
              && FirstUses(ids)[i] in ids && FirstUses(ids)[j] in ids
              && FirstAt(ids, FirstUses(ids)[i]) < FirstAt(ids, FirstUses(ids)[j])
    decreases |ids|
  {
    if ids != [] {
      var before, last := ids[..|ids| - 1], ids[|ids| - 1];
      FirstUsesIsDedup(before);
      assert ids == before + [last];
      forall id | id in before
        ensures FirstAt(ids, id) == FirstAt(before, id)
      {
        FirstStays(before, last, id);
      }
    }
  }

  lemma FirstStays(before: seq<string>, last: string, id: string)
    requires id in before
    ensures FirstAt(before + [last], id) == FirstAt(before, id)
  {
    var i, j := FirstAt(before + [last], id), FirstAt(before, id);
    assert (before + [last])[j] == before[j];
    assert i < |before| ==> (before + [last])[i] == before[i];
  }

  // ---- answers built from citations ----

  /** Text with citations: a piece of prose, then an id in brackets, and so on. */
  datatype Cited = Cited(piece: string, id: string)

  function Render(parts: seq<Cited>, end: string): string {
    if parts == [] then end else parts[0].piece + ("[" + parts[0].id + "]" + Render(parts[1..], end))
  }

  function Ids(parts: seq<Cited>): seq<string> {
    if parts == [] then [] else [parts[0].id] + Ids(parts[1..])
  }

  predicate NoOpening(s: string) { forall i :: 0 <= i < |s| ==> s[i] != '[' }

  lemma {:induction false} ProseHasNoTokens(piece: string, rest: string)
    requires NoOpening(piece)
    ensures Tokens(piece + rest) == Tokens(rest)
    decreases |piece|
  {
    if piece == "" {
      assert piece + rest == rest;
    } else {
      ProseHasNoTokens(piece[1..], rest);
      assert (piece + rest)[1..] == piece[1..] + rest;
      assert (piece + rest)[0] == piece[0];
    }
  }

  predicate Citable(id: string) {
    1 <= |id| <= 120 && forall i :: 0 <= i < |id| ==> !Stops(id[i])
  }

  lemma NextStopIs(s: string, i: nat, j: nat)
    requires i <= j < |s| && Stops(s[j]) && forall k :: i <= k < j ==> !Stops(s[k])
    ensures NextStop(s, i) == j
  {}

  lemma BracketsMakeToken(id: string, rest: string)
    requires Citable(id)
    ensures Tokens("[" + id + "]" + rest) == [id] + Tokens(rest)
  {
    var s := "[" + id + "]" + rest;
    assert s[0] == '[' && s[|id| + 1] == ']';
    assert forall k :: 1 <= k < |id| + 1 ==> s[k] == id[k - 1];
    NextStopIs(s, 1, |id| + 1);
    assert s[1..|id| + 1] == id && s[|id| + 2..] == rest;
  }

  /** An answer put together from prose without opening brackets and citable ids has exactly
      those ids as tokens. */
  lemma {:induction false} RenderedTokens(parts: seq<Cited>, end: string)
    requires NoOpening(end) && forall p <- parts :: NoOpening(p.piece) && Citable(p.id)
    ensures Tokens(Render(parts, end)) == Ids(parts)
    decreases |parts|
  {
    if parts == [] {
      ProseHasNoTokens(end, "");
      assert end + "" == end;
    } else {
      var p := parts[0];
      var rest := Render(parts[1..], end);
      RenderedTokens(parts[1..], end);
      ProseHasNoTokens(p.piece, "[" + p.id + "]" + rest);
      BracketsMakeToken(p.id, rest);
    }
  }

  /** Registered ids are citable as they stand, up to the pattern's length limit. */
  lemma SourceIdIsCitable(n: nat)
    requires 1 <= n && |SourceId(n)| <= 120
    ensures Citable(SourceId(n)) && Strip(SourceId(n)) == SourceId(n)
  {
    Decimal.ReadPrint(n);
    var s := SourceId(n);
    assert forall i :: 1 <= i < |s| ==> s[i] == Decimal.Print(n)[i - 1];
    assert forall i :: 1 <= i < |s| ==> Decimal.IsDigit(s[i]);
    assert !Chunking.IsSpace(s[0]) && !Chunking.IsSpace(s[|s| - 1]);
  }

  /** A well-cited answer always resolves: its tokens are the cited ids, all of them known, so
      the resolver returns each cited source once, in the order of first citation. */
  lemma WellCitedResolves(r: Registry, parts: seq<Cited>, end: string)
    requires r.Valid() && NoOpening(end)
    requires forall p <- parts :: NoOpening(p.piece) && |p.id| <= 120 && exists n :: 1 <= n <= |r.sources| && p.id == SourceId(n)
    ensures var tokens := Tokens(Render(parts, end));
            && Stripped(tokens) == Ids(parts)
            && (forall t <- tokens :: r.Known(Strip(t)))
            && forall result :: r.Resolves(tokens, result) ==> result.Success? && IdsOf(result.value) == FirstUses(Ids(parts))
  {
    forall p | p in parts
      ensures Citable(p.id) && Strip(p.id) == p.id && r.Known(p.id)
    {
      var n :| 1 <= n <= |r.sources| && p.id == SourceId(n);
      SourceIdIsCitable(n);
      assert r.sources[n - 1].sourceId == p.id;
    }
    RenderedTokens(parts, end);
    forall t | t in Ids(parts)
      ensures Strip(t) == t && r.Known(t)
    {
      PartOf(parts, t);
    }
    assert Stripped(Ids(parts)) == Ids(parts);
  }

  lemma {:induction false} PartOf(parts: seq<Cited>, id: string)
    requires id in Ids(parts)
    ensures exists i :: 0 <= i < |parts| && parts[i].id == id
    decreases |parts|
  {
    if id != parts[0].id {
      PartOf(parts[1..], id);
      var i :| 0 <= i < |parts[1..]| && parts[1..][i].id == id;
      assert parts[i + 1].id == id;
    }
  }
}
