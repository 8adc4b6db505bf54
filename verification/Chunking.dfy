/** The page-aware overlapping chunker. */
module Chunking {
  import opened Wrappers

  datatype Config = Config(maxChars: nat, overlap: nat, minBoundary: nat) {
    /** The constructor's checks. */
    predicate Legal() {
      100 <= maxChars && overlap < maxChars && 1 <= minBoundary <= maxChars
    }
  }

  const DEFAULT: Config := Config(1200, 180, 360)

  /** Separators in the order the chunker prefers them. */
  const SEPARATORS: seq<string> := ["\n\n", "\n", ". ", "; ", " "]

  /** str.isspace for one character. */
  predicate IsSpace(c: char) {
    || '\t' <= c <= '\r' || '\U{1c}' <= c <= ' ' || c == '\U{85}' || c == '\U{a0}' || c == '\U{1680}'
    || '\U{2000}' <= c <= '\U{200a}' || c == '\U{2028}' || c == '\U{2029}' || c == '\U{202f}'
    || c == '\U{205f}' || c == '\U{3000}'
  }

  /** The characters one by one. */
  lemma SpacesAre(c: char)
    ensures IsSpace(c) <==> c in ['\U{9}', '\U{a}', '\U{b}', '\U{c}', '\U{d}', '\U{1c}', '\U{1d}', '\U{1e}', '\U{1f}', '\U{20}',
                                  '\U{85}', '\U{a0}', '\U{1680}', '\U{2000}', '\U{2001}', '\U{2002}', '\U{2003}', '\U{2004}',
                                  '\U{2005}', '\U{2006}', '\U{2007}', '\U{2008}', '\U{2009}', '\U{200a}', '\U{2028}', '\U{2029}',
                                  '\U{202f}', '\U{205f}', '\U{3000}']
  {}

  function Min(a: nat, b: nat): nat { if a <= b then a else b }

  // ---- boundaries ----

  /** The separator stands at `p`, inside text[lower..hard]. */
  predicate Occurs(text: string, sep: string, lower: nat, hard: nat, p: int) {
    lower <= p && p + |sep| <= hard <= |text| && text[p..p + |sep|] == sep
  }

  ghost predicate Absent(text: string, sep: string, lower: nat, hard: nat) {
    forall p :: !Occurs(text, sep, lower, hard, p)
  }

  ghost predicate LastAt(text: string, sep: string, lower: nat, hard: nat, p: int) {
    Occurs(text, sep, lower, hard, p) && forall q :: p < q ==> !Occurs(text, sep, lower, hard, q)
  }

  function Lower(cfg: Config, start: nat, hard: nat): nat { Min(hard, start + cfg.minBoundary) }

  /** `end` cuts just behind the last occurrence of separator `k`, no better one occurring. */
  ghost predicate CutsAt(text: string, lower: nat, hard: nat, end: int, k: int) {
    && 0 <= k < |SEPARATORS|
    && LastAt(text, SEPARATORS[k], lower, hard, end - |SEPARATORS[k]|)
    && forall m :: 0 <= m < k ==> Absent(text, SEPARATORS[m], lower, hard)
  }

  ghost predicate NoSeparator(text: string, lower: nat, hard: nat) {
    forall m :: 0 <= m < |SEPARATORS| ==> Absent(text, SEPARATORS[m], lower, hard)
  }

  ghost predicate IsCut(cfg: Config, text: string, start: nat, hard: nat, end: int) {
    var lower := Lower(cfg, start, hard);
    (exists k :: CutsAt(text, lower, hard, end, k)) || (end == hard && NoSeparator(text, lower, hard))
  }

  /** window.rfind(separator), as a position in the text. */
  method FindLast(text: string, sep: string, lower: nat, hard: nat) returns (position: Option<nat>)
    requires lower <= hard <= |text| && sep != ""
    ensures position.None? ==> Absent(text, sep, lower, hard)
    ensures position.Some? ==> LastAt(text, sep, lower, hard, position.value)
  {
    var p := hard;
    while p > lower
      invariant lower <= p <= hard
      invariant forall q :: p <= q ==> !Occurs(text, sep, lower, hard, q)
    {
      p := p - 1;
      if p + |sep| <= hard && text[p..p + |sep|] == sep {
        return Some(p);
      }
    }
    return None;
  }

  method Boundary(cfg: Config, text: string, start: nat, hard: nat) returns (end: nat)
    requires start <= hard <= |text|
    ensures IsCut(cfg, text, start, hard, end)
  {
    var lower := Lower(cfg, start, hard);
    for k := 0 to |SEPARATORS|
      invariant forall m :: 0 <= m < k ==> Absent(text, SEPARATORS[m], lower, hard)
    {
      var position := FindLast(text, SEPARATORS[k], lower, hard);
      if position.Some? {
        end := position.value + |SEPARATORS[k]|;
        assert CutsAt(text, lower, hard, end, k);
        return;
      }
    }
    return hard;
  }

  /** A cut is at least minBoundary behind the start and within the window, and a cut at a
      separator leaves a space in front of it. */
  lemma CutBounds(cfg: Config, text: string, start: nat, hard: nat, end: int)
    requires IsCut(cfg, text, start, hard, end) && hard <= |text|
    ensures Lower(cfg, start, hard) <= end <= hard
    ensures end < hard ==> end > 0 && IsSpace(text[end - 1])
  {
    var lower := Lower(cfg, start, hard);
    if k :| CutsAt(text, lower, hard, end, k) {
      var sep := SEPARATORS[k];
      assert text[end - 1] == text[end - |sep|..end][|sep| - 1] == sep[|sep| - 1];
    }
  }

  lemma CutIsUnique(cfg: Config, text: string, start: nat, hard: nat, a: int, b: int)
    requires IsCut(cfg, text, start, hard, a) && IsCut(cfg, text, start, hard, b)
    ensures a == b
  {
    var lower := Lower(cfg, start, hard);
    if k :| CutsAt(text, lower, hard, a, k) {
      if m :| CutsAt(text, lower, hard, b, m) {
        var p, q := a - |SEPARATORS[k]|, b - |SEPARATORS[m]|;
        assert Occurs(text, SEPARATORS[k], lower, hard, p) && Occurs(text, SEPARATORS[m], lower, hard, q);
      }
    }
  }

  /** Two windows, the second neither opening nor closing earlier, each cut at a separator, the
      second within the first window: the second cut is not earlier, and it is later when the
      second window opens at or behind the first cut. Either the old separator is still in the
      new window, so the new choice is that one or a better one, which lies beyond the old
      window; or it is not, and whatever is found lies behind it. */
  lemma LaterWindowLaterCut(text: string, lower: nat, hard: nat, laterLower: nat, laterHard: nat, end: int, laterEnd: int, k: int, k': int)
    requires lower <= laterLower && hard <= laterHard && laterEnd <= hard <= |text|
    requires CutsAt(text, lower, hard, end, k) && CutsAt(text, laterLower, laterHard, laterEnd, k')
    ensures end <= laterEnd && (end <= laterLower ==> end < laterEnd)
  {
    var p, p' := end - |SEPARATORS[k]|, laterEnd - |SEPARATORS[k']|;
    assert Occurs(text, SEPARATORS[k'], laterLower, laterHard, p');
    assert Occurs(text, SEPARATORS[k'], lower, hard, p');
    assert k <= k';
    if laterLower <= p {
      assert Occurs(text, SEPARATORS[k], lower, hard, p);
      assert Occurs(text, SEPARATORS[k], laterLower, laterHard, p);
      assert k' == k;
    }
  }

  /** The heart of the chunker: starting later never cuts earlier, and starting so late that
      the new window opens behind the old cut always cuts later. */
  lemma LaterStartLaterCut(cfg: Config, text: string, start: nat, later: nat, end: int, laterEnd: int)
    requires cfg.Legal() && start < later && later + cfg.maxChars <= |text|
    requires IsCut(cfg, text, start, start + cfg.maxChars, end)
    requires IsCut(cfg, text, later, later + cfg.maxChars, laterEnd)
    ensures end <= laterEnd
    ensures end <= later + cfg.minBoundary ==> end < laterEnd
  {
    var hard, laterHard := start + cfg.maxChars, later + cfg.maxChars;
    var lower, laterLower := Lower(cfg, start, hard), Lower(cfg, later, laterHard);
    CutBounds(cfg, text, start, hard, end);
    if laterEnd <= hard {
      var k' :| CutsAt(text, laterLower, laterHard, laterEnd, k');
      FoundInBoth(text, lower, hard, laterLower, laterHard, laterEnd, k');
      var k :| CutsAt(text, lower, hard, end, k);
      LaterWindowLaterCut(text, lower, hard, laterLower, laterHard, end, laterEnd, k, k');
    }
  }

  lemma FoundInBoth(text: string, lower: nat, hard: nat, laterLower: nat, laterHard: nat, laterEnd: int, k': int)
    requires lower <= laterLower && laterEnd <= hard <= |text| && CutsAt(text, laterLower, laterHard, laterEnd, k')
    ensures !NoSeparator(text, lower, hard)
  {
    var p' := laterEnd - |SEPARATORS[k']|;
    assert Occurs(text, SEPARATORS[k'], laterLower, laterHard, p');
    assert Occurs(text, SEPARATORS[k'], lower, hard, p');
  }

  /** The separators, best first. */
  predicate IsSeparator(k: nat, sep: string) {
    || (k == 0 && sep == "\n\n") || (k == 1 && sep == "\n") || (k == 2 && sep == ". ") || (k == 3 && sep == "; ")
    || (k == 4 && sep == " ")
  }

  /** The text is cut right behind separator `k`, which stands from minBoundary on in the window. */
  predicate CutBehind(cfg: Config, text: string, start: nat, end: int, k: nat, sep: string) {
    && IsSeparator(k, sep) && start + cfg.minBoundary <= end - |sep| && end <= start + cfg.maxChars <= |text|
    && text[end - |sep|..end] == sep
  }

  /** A cut in a full window stands behind a separator or at the window's end. */
  lemma CutIsBehind(cfg: Config, text: string, start: nat, end: int)
    requires cfg.Legal() && start + cfg.maxChars <= |text| && IsCut(cfg, text, start, start + cfg.maxChars, end)
    ensures end == start + cfg.maxChars || exists k: nat, sep: string :: CutBehind(cfg, text, start, end, k, sep)
  {
    var hard := start + cfg.maxChars;
    if k :| CutsAt(text, Lower(cfg, start, hard), hard, end, k) {
      assert CutBehind(cfg, text, start, end, k, SEPARATORS[k]);
    }
  }

  /** Wherever a separator stands from minBoundary on in the window, the cut is behind a better one,
      or behind the same one and not earlier. */
  lemma CutPrefers(cfg: Config, text: string, start: nat, end: int, k: nat, sep: string, p: nat)
    requires cfg.Legal() && start + cfg.maxChars <= |text| && IsCut(cfg, text, start, start + cfg.maxChars, end)
    requires IsSeparator(k, sep)
    requires start + cfg.minBoundary <= p && p + |sep| <= start + cfg.maxChars && text[p..p + |sep|] == sep
    ensures exists b: nat, best: string :: CutBehind(cfg, text, start, end, b, best) && b <= k && (b == k ==> p + |sep| <= end)
  {
    var hard := start + cfg.maxChars;
    var lower := Lower(cfg, start, hard);
    assert SEPARATORS[k] == sep && Occurs(text, SEPARATORS[k], lower, hard, p);
    var b :| CutsAt(text, lower, hard, end, b);
    assert CutBehind(cfg, text, start, end, b, SEPARATORS[b]);
  }

  // ---- pages ----

  /** A chunk is text[start..stop]; `cut` is where it was cut before trailing space was trimmed. */
  datatype Span = Span(start: nat, stop: nat, cut: nat)

  function SkipSpace(text: string, i: nat): (j: nat)
    requires i <= |text|
    ensures i <= j <= |text| && (j < |text| ==> !IsSpace(text[j]))
    ensures forall p :: i <= p < j ==> IsSpace(text[p])
    decreases |text| - i
  {
    if i < |text| && IsSpace(text[i]) then SkipSpace(text, i + 1) else i
  }

  function TrimEnd(text: string, start: nat, end: nat): (stop: nat)
    requires start <= end <= |text|
    ensures start <= stop <= end && (start < stop ==> !IsSpace(text[stop - 1]))
    ensures forall p :: stop <= p < end ==> IsSpace(text[p])
    decreases end
  {
    if start < end && IsSpace(text[end - 1]) then TrimEnd(text, start, end - 1) else end
  }

  function HardEnd(cfg: Config, text: string, start: nat): nat { Min(|text|, start + cfg.maxChars) }

  ghost predicate IsSpan(cfg: Config, text: string, s: Span) {
    && s.start < |text| && !IsSpace(text[s.start])
    && (if HardEnd(cfg, text, s.start) == |text| then s.cut == |text|
        else IsCut(cfg, text, s.start, HardEnd(cfg, text, s.start), s.cut))
    && s.start <= s.cut <= |text|
    && s.stop == TrimEnd(text, s.start, s.cut)
  }

  /** Where the scan resumes behind a span. */
  function Resume(cfg: Config, s: Span): nat { Max(s.start + 1, s.cut - cfg.overlap) }

  /** `t` is the span the scan finds from position `from`. */
  ghost predicate IsNext(cfg: Config, text: string, from: nat, t: Span) {
    from <= |text| && IsSpan(cfg, text, t) && t.start == SkipSpace(text, from)
  }

  /** `t` is the span found after `s`. */
  ghost predicate Follows(cfg: Config, text: string, s: Span, t: Span) {
    IsSpan(cfg, text, s) && s.cut < |text| && IsNext(cfg, text, Resume(cfg, s), t)
  }

  /** Where the scan goes on behind the spans found so far. */
  function Cursor(cfg: Config, spans: seq<Span>): nat {
    if spans == [] then 0 else Resume(cfg, spans[|spans| - 1])
  }

  /** The spans the scan has produced so far: each is the next one behind those before it. */
  ghost predicate IsScan(cfg: Config, text: string, spans: seq<Span>)
    decreases |spans|
  {
    spans != [] ==>
      var before, last := spans[..|spans| - 1], spans[|spans| - 1];
      && IsScan(cfg, text, before)
      && IsNext(cfg, text, Cursor(cfg, before), last)
      && (before != [] ==> before[|before| - 1].cut < |text|)
  }

  /** The scan is over: the last span reached the end of the page, or only space is left. */
  ghost predicate Finished(cfg: Config, text: string, spans: seq<Span>) {
    || (spans != [] && spans[|spans| - 1].cut == |text|)
    || (Cursor(cfg, spans) <= |text| && SkipSpace(text, Cursor(cfg, spans)) == |text|)
  }

  ghost predicate IsChunking(cfg: Config, text: string, spans: seq<Span>) {
    IsScan(cfg, text, spans) && Finished(cfg, text, spans)
  }

  lemma ScanExtends(cfg: Config, text: string, spans: seq<Span>, t: Span)
    requires IsScan(cfg, text, spans) && IsNext(cfg, text, Cursor(cfg, spans), t)
    requires spans != [] ==> spans[|spans| - 1].cut < |text|
    ensures IsScan(cfg, text, spans + [t])
  {
    assert (spans + [t])[..|spans|] == spans;
  }

  lemma {:induction false} SpanAt(cfg: Config, text: string, spans: seq<Span>, i: nat)
    requires IsScan(cfg, text, spans) && i < |spans|
    ensures IsSpan(cfg, text, spans[i])
    decreases |spans|
  {
    if i < |spans| - 1 { SpanAt(cfg, text, spans[..|spans| - 1], i); }
  }

  lemma {:induction false} FollowsAt(cfg: Config, text: string, spans: seq<Span>, i: nat, j: nat)
    requires IsScan(cfg, text, spans) && j == i + 1 < |spans|
    ensures Follows(cfg, text, spans[i], spans[j])
    decreases |spans|
  {
    if j < |spans| - 1 {
      FollowsAt(cfg, text, spans[..|spans| - 1], i, j);
    } else {
      SpanAt(cfg, text, spans, i);
    }
  }

  lemma {:induction false} FirstAt(cfg: Config, text: string, spans: seq<Span>)
    requires IsScan(cfg, text, spans) && spans != []
    ensures IsNext(cfg, text, 0, spans[0])
    decreases |spans|
  {
    if |spans| > 1 { FirstAt(cfg, text, spans[..|spans| - 1]); }
  }

  lemma SpanBounds(cfg: Config, text: string, s: Span)
    requires cfg.Legal() && IsSpan(cfg, text, s)
    ensures s.start < s.stop <= s.cut <= HardEnd(cfg, text, s.start)
    ensures s.cut < |text| ==> s.start + cfg.minBoundary <= s.cut
    ensures Resume(cfg, s) <= s.cut
  {
    var hard := HardEnd(cfg, text, s.start);
    if hard != |text| { CutBounds(cfg, text, s.start, hard, s.cut); }
    assert s.start < s.cut;
    assert !(forall p :: s.start <= p < s.cut ==> IsSpace(text[p]));
  }

  /** One round of the scan: the window from `cursor`, its cut, and the trimmed chunk. */
  method FindSpan(cfg: Config, text: string, cursor: nat) returns (s: Span)
    requires cfg.Legal() && cursor < |text| && !IsSpace(text[cursor])
    ensures IsSpan(cfg, text, s) && s.start == cursor < s.stop
    ensures Resume(cfg, s) <= |text|
  {
    var hard := Min(|text|, cursor + cfg.maxChars);
    var end := hard;
    if hard != |text| {
      end := Boundary(cfg, text, cursor, hard);
      CutBounds(cfg, text, cursor, hard, end);
    }
    s := Span(cursor, TrimEnd(text, cursor, end), end);
    SpanBounds(cfg, text, s);
  }

  method ChunkPage(cfg: Config, text: string) returns (spans: seq<Span>)
    requires cfg.Legal()
    ensures IsChunking(cfg, text, spans)
  {
    spans := [];
    var cursor := 0;
    while cursor < |text|
      invariant IsScan(cfg, text, spans)
      invariant cursor == Cursor(cfg, spans) <= |text|
      invariant spans != [] ==> spans[|spans| - 1].cut < |text|
      decreases |text| - cursor
    {
      ghost var resumed := cursor;
      while cursor < |text| && IsSpace(text[cursor])
        invariant resumed <= cursor <= |text|
        invariant SkipSpace(text, resumed) == SkipSpace(text, cursor)
      {
        cursor := cursor + 1;
      }
      if cursor >= |text| {
        return;
      }
      var s := FindSpan(cfg, text, cursor);
      ScanExtends(cfg, text, spans, s);
      if s.stop > s.start {
        spans := spans + [s];
      }
      if s.cut >= |text| {
        return;
      }
      cursor := Max(cursor + 1, s.cut - cfg.overlap);
    }
  }

  lemma NextIsUnique(cfg: Config, text: string, from: nat, s: Span, t: Span)
    requires IsNext(cfg, text, from, s) && IsNext(cfg, text, from, t)
    ensures s == t
  {
    if HardEnd(cfg, text, s.start) != |text| {
      CutIsUnique(cfg, text, s.start, HardEnd(cfg, text, s.start), s.cut, t.cut);
    }
  }

  /** A scan whose last span has a follower is not finished. */
  lemma FollowedIsNotLast(cfg: Config, text: string, spans: seq<Span>, t: Span)
    requires cfg.Legal() && IsChunking(cfg, text, spans) && spans != []
    ensures !Follows(cfg, text, spans[|spans| - 1], t)
  {
  }

  lemma FirstIsNotMissing(cfg: Config, text: string, spans: seq<Span>, t: Span)
    requires IsChunking(cfg, text, spans) && IsNext(cfg, text, 0, t)
    ensures spans != []
  {}

  lemma SameFirst(cfg: Config, text: string, a: seq<Span>, b: seq<Span>)
    requires IsChunking(cfg, text, a) && IsChunking(cfg, text, b) && a != []
    ensures b != [] && a[0] == b[0]
  {
    FirstAt(cfg, text, a);
    FirstIsNotMissing(cfg, text, b, a[0]);
    FirstAt(cfg, text, b);
    NextIsUnique(cfg, text, 0, a[0], b[0]);
  }

  lemma SameNext(cfg: Config, text: string, a: seq<Span>, b: seq<Span>, i: nat, j: nat)
    requires cfg.Legal() && IsChunking(cfg, text, a) && IsChunking(cfg, text, b)
    requires j == i + 1 < |a| && i < |b| && a[i] == b[i]
    ensures j < |b| && a[j] == b[j]
  {
    FollowsAt(cfg, text, a, i, j);
    if j == |b| {
      FollowedIsNotLast(cfg, text, b, a[j]);
    } else {
      FollowsAt(cfg, text, b, i, j);
      NextIsUnique(cfg, text, Resume(cfg, a[i]), a[j], b[j]);
    }
  }

  /** Where `b` agrees with `a` at `i`, it goes on as `a` does. */
  predicate GoesOn(a: seq<Span>, b: seq<Span>, i: nat) {
    i + 1 < |a| && i < |b| && a[i] == b[i] ==> i + 1 < |b| && a[i + 1] == b[i + 1]
  }

  ghost predicate Tracks(a: seq<Span>, b: seq<Span>) {
    (a != [] ==> b != [] && a[0] == b[0]) && forall i: nat :: GoesOn(a, b, i)
  }

  lemma {:induction false} TracksFully(a: seq<Span>, b: seq<Span>, i: nat)
    requires Tracks(a, b) && i < |a|
    ensures i < |b| && a[i] == b[i]
  {
    if i > 0 {
      TracksFully(a, b, i - 1);
      assert GoesOn(a, b, i - 1);
    }
  }

  lemma ChunkingGoesOn(cfg: Config, text: string, a: seq<Span>, b: seq<Span>, i: nat)
    requires cfg.Legal() && IsChunking(cfg, text, a) && IsChunking(cfg, text, b)
    ensures GoesOn(a, b, i)
  {
    if i + 1 < |a| && i < |b| && a[i] == b[i] { SameNext(cfg, text, a, b, i, i + 1); }
  }

  lemma ChunkingsTrack(cfg: Config, text: string, a: seq<Span>, b: seq<Span>)
    requires cfg.Legal() && IsChunking(cfg, text, a) && IsChunking(cfg, text, b)
    ensures Tracks(a, b)
  {
    if a != [] { SameFirst(cfg, text, a, b); }
    forall i: nat
      ensures GoesOn(a, b, i)
    {
      ChunkingGoesOn(cfg, text, a, b, i);
    }
  }

  /** The contract of ChunkPage leaves no choice. */
  lemma ChunkingIsUnique(cfg: Config, text: string, a: seq<Span>, b: seq<Span>)
    requires cfg.Legal() && IsChunking(cfg, text, a) && IsChunking(cfg, text, b)
    ensures a == b
  {
    ChunkingsTrack(cfg, text, a, b);
    ChunkingsTrack(cfg, text, b, a);
    SameSpans(a, b);
  }

  lemma SameSpans(a: seq<Span>, b: seq<Span>)
    requires Tracks(a, b) && Tracks(b, a)
    ensures a == b
  {
    if a != [] { TracksFully(a, b, |a| - 1); }
    if b != [] { TracksFully(b, a, |b| - 1); }
    forall i | 0 <= i < |a|
      ensures a[i] == b[i]
    {
      TracksFully(a, b, i);
    }
  }

  // ---- what a chunking guarantees ----

  predicate Blank(text: string, from: nat, to: nat)
    requires to <= |text|
  {
    forall p :: from <= p < to ==> IsSpace(text[p])
  }

  /** The facts about one chunk that the next results need. */
  predicate Shaped(text: string, s: Span) {
    s.start < s.stop <= s.cut <= |text| && !IsSpace(text[s.stop - 1]) && Blank(text, s.stop, s.cut)
  }

  lemma SpanIsShaped(cfg: Config, text: string, s: Span)
    requires cfg.Legal() && IsSpan(cfg, text, s)
    ensures Shaped(text, s) && !IsSpace(text[s.start])
  {
    SpanBounds(cfg, text, s);
  }

  lemma ChunkIsShaped(cfg: Config, text: string, spans: seq<Span>, i: nat)
    requires cfg.Legal() && IsChunking(cfg, text, spans) && i < |spans|
    ensures Shaped(text, spans[i]) && !IsSpace(text[spans[i].start])
  {
    SpanAt(cfg, text, spans, i);
    SpanIsShaped(cfg, text, spans[i]);
  }

  lemma GapAt(cfg: Config, text: string, spans: seq<Span>, i: nat, j: nat)
    requires cfg.Legal() && IsChunking(cfg, text, spans) && j == i + 1 < |spans|
    ensures spans[j].start <= |text| && Blank(text, spans[i].cut, spans[j].start)
    ensures spans[i].start + (cfg.minBoundary - cfg.overlap) <= spans[j].start
  {
    FollowsAt(cfg, text, spans, i, j);
    Neighbours(cfg, text, spans[i], spans[j]);
    Spacing(cfg, text, spans[i], spans[j]);
  }

  lemma GapInFront(cfg: Config, text: string, spans: seq<Span>)
    requires cfg.Legal() && IsChunking(cfg, text, spans) && spans != []
    ensures spans[0].start <= |text| && Blank(text, 0, spans[0].start)
  {
    FirstAt(cfg, text, spans);
  }

  /** Shape: a chunk is not empty, has no space at either end, and fits. */
  lemma ChunkShape(cfg: Config, text: string, spans: seq<Span>, i: nat)
    requires cfg.Legal() && IsChunking(cfg, text, spans) && i < |spans|
    ensures var s := spans[i];
            && s.start < s.stop <= |text| && s.stop - s.start <= cfg.maxChars
            && !IsSpace(text[s.start]) && !IsSpace(text[s.stop - 1])
  {
    SpanAt(cfg, text, spans, i);
    SpanBounds(cfg, text, spans[i]);
  }

  /** The window of a chunk is maxChars long, or ends with the page and then the page is used up. */
  lemma ChunkWindow(cfg: Config, text: string, s: Span)
    requires IsSpan(cfg, text, s)
    ensures if s.start + cfg.maxChars >= |text| then s.cut == |text| else IsCut(cfg, text, s.start, s.start + cfg.maxChars, s.cut)
  {}

  /** Neighbours: the next chunk starts later, reaches back at most the overlap, and skips
      nothing but space, between the chunks and in the overlap too. */
  lemma Neighbours(cfg: Config, text: string, s: Span, t: Span)
    requires cfg.Legal() && Follows(cfg, text, s, t)
    ensures s.start < t.start && s.cut <= t.start + cfg.overlap && s.stop - t.start <= cfg.overlap
    ensures forall p :: s.cut <= p < t.start ==> IsSpace(text[p])
    ensures forall p :: 0 <= p && s.start < p && s.cut - cfg.overlap <= p < t.start ==> IsSpace(text[p])
  {
    SpanBounds(cfg, text, s);
  }

  lemma Spacing(cfg: Config, text: string, s: Span, t: Span)
    requires cfg.Legal() && Follows(cfg, text, s, t)
    ensures s.start + (cfg.minBoundary - cfg.overlap) <= t.start
  {
    Neighbours(cfg, text, s, t);
    SpanBounds(cfg, text, s);
  }

  lemma LaterSpanLaterCut(cfg: Config, text: string, s: Span, t: Span)
    requires cfg.Legal() && IsSpan(cfg, text, s) && IsSpan(cfg, text, t)
    requires s.start < t.start && t.start + cfg.maxChars < |text|
    ensures s.cut <= t.cut && (s.cut <= t.start + cfg.minBoundary ==> s.cut < t.cut)
  {
    LaterStartLaterCut(cfg, text, s.start, t.start, s.cut, t.cut);
  }

  lemma CutAdvances(cfg: Config, text: string, s: Span, t: Span)
    requires cfg.Legal() && Follows(cfg, text, s, t)
    ensures s.cut <= t.cut && (cfg.minBoundary >= cfg.overlap ==> s.cut < t.cut)
  {
    Neighbours(cfg, text, s, t);
    if HardEnd(cfg, text, t.start) != |text| { LaterSpanLaterCut(cfg, text, s, t); }
  }

  /** Ends never go back, and with minBoundary at least the overlap every cut moves forward. */
  lemma EndsAdvance(cfg: Config, text: string, s: Span, t: Span)
    requires cfg.Legal() && Follows(cfg, text, s, t)
    ensures s.cut <= t.cut && s.stop <= t.stop
    ensures cfg.minBoundary >= cfg.overlap ==> s.cut < t.cut
  {
    CutAdvances(cfg, text, s, t);
    Neighbours(cfg, text, s, t);
    SpanIsShaped(cfg, text, s);
    SpanIsShaped(cfg, text, t);
    StopsFollowCuts(text, s, t);
  }

  lemma StopsFollowCuts(text: string, s: Span, t: Span)
    requires Shaped(text, s) && Shaped(text, t) && s.cut <= t.cut && s.start < t.start
    ensures s.stop <= t.stop
  {}

  /** What one step of the scan does to start, end and cut. */
  predicate StepsAhead(s: Span, t: Span, strictly: bool) {
    s.start < t.start && s.stop <= t.stop && if strictly then s.cut < t.cut else s.cut <= t.cut
  }

  lemma NextStepsAhead(cfg: Config, text: string, spans: seq<Span>, i: nat, j: nat)
    requires cfg.Legal() && IsChunking(cfg, text, spans) && i < |spans| && j == i + 1 < |spans|
    ensures StepsAhead(spans[i], spans[j], cfg.minBoundary >= cfg.overlap)
  {
    FollowsAt(cfg, text, spans, i, j);
    Neighbours(cfg, text, spans[i], spans[j]);
    EndsAdvance(cfg, text, spans[i], spans[j]);
  }

  lemma {:induction false} StepsAddUp(spans: seq<Span>, strictly: bool, i: nat, j: nat)
    requires i < j < |spans| && forall a, b :: 0 <= a < |spans| && b == a + 1 < |spans| ==> StepsAhead(spans[a], spans[b], strictly)
    ensures StepsAhead(spans[i], spans[j], strictly)
    decreases j
  {
    assert StepsAhead(spans[j - 1], spans[j], strictly);
    if i < j - 1 { StepsAddUp(spans, strictly, i, j - 1); }
  }

  lemma EndsMonotone(cfg: Config, text: string, spans: seq<Span>, i: nat, j: nat)
    requires cfg.Legal() && IsChunking(cfg, text, spans) && i < j < |spans|
    ensures spans[i].start < spans[j].start && spans[i].stop <= spans[j].stop && spans[i].cut <= spans[j].cut
    ensures cfg.minBoundary >= cfg.overlap ==> spans[i].cut < spans[j].cut
  {
    forall a, b | 0 <= a < |spans| && b == a + 1 < |spans|
      ensures StepsAhead(spans[a], spans[b], cfg.minBoundary >= cfg.overlap)
    {
      NextStepsAhead(cfg, text, spans, a, b);
    }
    StepsAddUp(spans, cfg.minBoundary >= cfg.overlap, i, j);
  }

  /** Every character that is not space and lies before some cut lies in some chunk. */
  lemma {:induction false} CoverageUpTo(cfg: Config, text: string, spans: seq<Span>, i: nat, p: nat)
    requires cfg.Legal() && IsChunking(cfg, text, spans) && i < |spans|
    requires p < spans[i].cut <= |text| && !IsSpace(text[p])
    ensures exists j :: 0 <= j <= i && spans[j].start <= p < spans[j].stop
    decreases i
  {
    ChunkIsShaped(cfg, text, spans, i);
    if p < spans[i].start {
      NotInGap(cfg, text, spans, i, p);
      CoverageUpTo(cfg, text, spans, i - 1, p);
    }
  }

  lemma NotInGap(cfg: Config, text: string, spans: seq<Span>, i: nat, p: nat)
    requires cfg.Legal() && IsChunking(cfg, text, spans) && i < |spans|
    requires p < spans[i].start <= |text| && !IsSpace(text[p])
    ensures i > 0 && p < spans[i - 1].cut <= |text|
  {
    if i == 0 {
      GapInFront(cfg, text, spans);
    } else {
      GapAt(cfg, text, spans, i - 1, i);
      ChunkIsShaped(cfg, text, spans, i - 1);
    }
  }

  /** Coverage: every character that is not space lies in some chunk. */
  lemma Coverage(cfg: Config, text: string, spans: seq<Span>, p: nat)
    requires cfg.Legal() && IsChunking(cfg, text, spans) && p < |text| && !IsSpace(text[p])
    ensures exists j :: 0 <= j < |spans| && spans[j].start <= p < spans[j].stop
  {
    if spans != [] {
      var last := spans[|spans| - 1];
      SpanAt(cfg, text, spans, |spans| - 1);
      SpanBounds(cfg, text, last);
      assert p < last.cut;
      CoverageUpTo(cfg, text, spans, |spans| - 1, p);
    }
  }

  /** Chunk `j` adds nothing to the earlier chunk `i`. */
  predicate Inside(spans: seq<Span>, i: nat, j: nat)
    requires i < j < |spans|
  {
    spans[i].start <= spans[j].start && spans[j].stop <= spans[i].stop
  }

  lemma InsidePair(text: string, s: Span, t: Span)
    requires s.start < s.stop <= t.stop <= t.cut <= |text| && s.start < t.start < t.stop
    requires !IsSpace(text[t.stop - 1]) && Blank(text, t.stop, t.cut)
    ensures t.stop <= s.stop <==> Blank(text, s.stop, t.cut)
  {}

  /** Advancing cuts do not keep chunks apart: a later chunk lies inside an earlier one
      exactly when only space was read between the earlier end and the later cut. */
  lemma InsideExactly(cfg: Config, text: string, spans: seq<Span>, i: nat, j: nat)
    requires cfg.Legal() && IsChunking(cfg, text, spans) && i < j < |spans|
    ensures spans[j].cut <= |text|
    ensures Inside(spans, i, j) <==> Blank(text, spans[i].stop, spans[j].cut)
  {
    EndsMonotone(cfg, text, spans, i, j);
    ChunkIsShaped(cfg, text, spans, i);
    ChunkIsShaped(cfg, text, spans, j);
    InsidePair(text, spans[i], spans[j]);
  }

  /** The page has a run of `length` spaces. */
  ghost predicate HasRun(text: string, length: nat) {
    exists a: nat, b: nat :: b == a + length && b <= |text| && Blank(text, a, b)
  }

  /** What the scan gains at least from one cut to the next, if minBoundary is not below the overlap. */
  function Gain(cfg: Config): int { Max(1, cfg.minBoundary - cfg.overlap) }

  /** With minBoundary at least the overlap, a page without trailing space and without a run of
      as many spaces as the scan gains never yields a chunk inside an earlier one. */
  lemma NoChunkInside(cfg: Config, text: string, spans: seq<Span>, i: nat, j: nat)
    requires cfg.Legal() && cfg.minBoundary >= cfg.overlap && IsChunking(cfg, text, spans) && i < j < |spans|
    requires text != "" && !IsSpace(text[|text| - 1]) && !HasRun(text, Gain(cfg))
    ensures !Inside(spans, i, j)
  {
    NextIsNotInsideAt(cfg, text, spans, i, i + 1);
    CutsInOrder(cfg, text, spans, i + 1, j);
    InsideExactly(cfg, text, spans, i, j);
  }

  lemma NextIsNotInsideAt(cfg: Config, text: string, spans: seq<Span>, i: nat, j: nat)
    requires cfg.Legal() && cfg.minBoundary >= cfg.overlap && IsChunking(cfg, text, spans) && j == i + 1 < |spans|
    requires text != "" && !IsSpace(text[|text| - 1]) && !HasRun(text, Gain(cfg))
    ensures spans[j].cut <= |text| && !Blank(text, spans[i].stop, spans[j].cut)
  {
    FollowsAt(cfg, text, spans, i, j);
    NextIsNotInside(cfg, text, spans[i], spans[j]);
  }

  lemma CutsInOrder(cfg: Config, text: string, spans: seq<Span>, i: nat, j: nat)
    requires cfg.Legal() && IsChunking(cfg, text, spans) && i <= j < |spans|
    ensures spans[i].cut <= spans[j].cut
  {
    if i < j { EndsMonotone(cfg, text, spans, i, j); }
  }

  lemma NextIsNotInside(cfg: Config, text: string, s: Span, t: Span)
    requires cfg.Legal() && cfg.minBoundary >= cfg.overlap && Follows(cfg, text, s, t)
    requires !IsSpace(text[|text| - 1]) && !HasRun(text, Gain(cfg))
    ensures t.cut <= |text| && !Blank(text, s.stop, t.cut)
  {
    SpanBounds(cfg, text, s);
    SpanBounds(cfg, text, t);
    if t.cut < |text| && Blank(text, s.stop, t.cut) {
      Spacing(cfg, text, s, t);
      EndsAdvance(cfg, text, s, t);
      RunInside(text, s.stop, t.cut, s.cut, Gain(cfg));
    }
  }

  lemma RunInside(text: string, from: nat, to: nat, at: nat, length: nat)
    requires from <= at && at + length <= to <= |text| && Blank(text, from, to)
    ensures HasRun(text, length)
  {
    assert Blank(text, at, at + length);
  }

  /** The length bound: with d = minBoundary - overlap > 0 the k-th chunk starts at k * d or
      later, so n characters give at most 1 + (n - 1) / d chunks. */
  lemma {:induction false} StartsSpread(cfg: Config, text: string, spans: seq<Span>, i: nat)
    requires cfg.Legal() && cfg.minBoundary > cfg.overlap && IsChunking(cfg, text, spans) && i < |spans|
    ensures i * (cfg.minBoundary - cfg.overlap) <= spans[i].start < |text|
    decreases i
  {
    ChunkIsShaped(cfg, text, spans, i);
    if i > 0 {
      StartsSpread(cfg, text, spans, i - 1);
      GapAt(cfg, text, spans, i - 1, i);
      OneMore(i, cfg.minBoundary - cfg.overlap, spans[i - 1].start, spans[i].start);
    }
  }

  lemma OneMore(i: nat, d: int, before: nat, start: nat)
    requires i > 0 && (i - 1) * d <= before && before + d <= start
    ensures i * d <= start
  {
    assert i * d == (i - 1) * d + d;
  }

  lemma ChunkCount(cfg: Config, text: string, spans: seq<Span>)
    requires cfg.Legal() && cfg.minBoundary > cfg.overlap && IsChunking(cfg, text, spans)
    ensures text == "" ==> spans == []
    ensures text != "" ==> |spans| <= 1 + (|text| - 1) / (cfg.minBoundary - cfg.overlap)
  {
    if spans != [] {
      StartsSpread(cfg, text, spans, |spans| - 1);
      DivideBound(|spans| - 1, cfg.minBoundary - cfg.overlap, |text| - 1);
    } else if text != "" {
      DivideBound(0, cfg.minBoundary - cfg.overlap, |text| - 1);
    }
  }

  lemma DivideBound(k: nat, d: nat, n: nat)
    requires d > 0 && k * d <= n
    ensures k <= n / d
  {
    if n / d < k {
      DivideStep(n / d + 1, k, d);
    }
  }

  lemma DivideStep(a: nat, b: nat, d: nat)
    requires a <= b
    ensures a * d <= b * d
  {}

  lemma Leading(text: string, sep: string, p: nat)
    requires p + |sep| <= |text| && text[p..p + |sep|] == sep && sep != ""
    ensures text[p] == sep[0]
  {
    assert text[p..p + |sep|][0] == sep[0];
  }

  /** The default configuration on a full first chunk and two trailing spaces: the second
      chunk is the tail of the first, although the cut moved forward. */
  lemma NestedChunkExample()
    ensures var text := seq(1199, _ => 'a') + "  ";
            var spans := [Span(0, 1199, 1200), Span(1020, 1199, 1201)];
            IsChunking(DEFAULT, text, spans) && Inside(spans, 0, 1)
  {
    var text := seq(1199, _ => 'a') + "  ";
    var spans := [Span(0, 1199, 1200), Span(1020, 1199, 1201)];
    assert forall p :: 0 <= p < 1199 ==> text[p] == 'a';
    assert text[1199] == ' ' && text[1200] == ' ';
    forall m, p | 0 <= m < 4
      ensures !Occurs(text, SEPARATORS[m], 360, 1200, p)
    {
      var sep := SEPARATORS[m];
      if Occurs(text, sep, 360, 1200, p) {
        Leading(text, sep, p);
      }
    }
    assert text[1199..1200] == " ";
    assert CutsAt(text, 360, 1200, 1200, 4);
  }

  // ---- documents ----

  datatype Page = Page(number: Option<int>, text: string)
  datatype Chunk = Chunk(page: int, span: Span, text: string)
  datatype Error = MissingIdentity | MissingPageNumber | BadPageNumber

  predicate AllSpace(s: string) { forall c <- s :: IsSpace(c) }

  /** A chunk's text: exactly text[start..stop]. */
  function Slice(text: string, s: Span): string {
    if s.start <= s.stop <= |text| then text[s.start..s.stop] else ""
  }

  /** The chunks of one page, in order. */
  function PageChunks(number: int, text: string, spans: seq<Span>): seq<Chunk> {
    seq(|spans|, i requires 0 <= i < |spans| => Chunk(number, spans[i], Slice(text, spans[i])))
  }

  /** How many chunks come before those of page `i`. */
  function Offset(parts: seq<seq<Span>>, i: nat): nat
    requires i <= |parts|
  {
    if i == 0 then 0 else Offset(parts, i - 1) + |parts[i - 1]|
  }

  lemma {:induction false} OffsetStays(parts: seq<seq<Span>>, i: nat)
    requires i < |parts|
    ensures Offset(parts[..|parts| - 1], i) == Offset(parts, i)
  {
    if i > 0 { OffsetStays(parts, i - 1); }
  }

  /** Chunk `j` of page `i`, exactly: the page's number, the span, and the page's text from the span's
      start to its end. */
  ghost predicate CarriesText(page: Page, span: Span, c: Chunk) {
    && page.number == Some(c.page) && c.span == span
    && span.start < span.stop <= |page.text| && c.text == page.text[span.start..span.stop]
  }

  /** Chunk `j` of page `i` stands behind all chunks of the pages before. */
  ghost predicate InPlace(pages: seq<Page>, parts: seq<seq<Span>>, chunks: seq<Chunk>, i: nat, j: nat)
    requires i < |pages| == |parts| && j < |parts[i]|
  {
    Offset(parts, i) + j < |chunks| && CarriesText(pages[i], parts[i][j], chunks[Offset(parts, i) + j])
  }

  /** The document's chunks are those of its pages, page behind page, each in order and with its text. */
  ghost predicate AllInOrder(pages: seq<Page>, parts: seq<seq<Span>>, chunks: seq<Chunk>) {
    && |parts| == |pages| && |chunks| == Offset(parts, |parts|)
    && forall i: nat, j: nat :: i < |pages| && j < |parts[i]| ==> InPlace(pages, parts, chunks, i, j)
  }

  lemma EarlierInPlace(pages: seq<Page>, parts: seq<seq<Span>>, chunks: seq<Chunk>, page: Page, spans: seq<Span>, last: seq<Chunk>, i: nat, j: nat)
    requires |pages| == |parts| && i < |pages| && j < |parts[i]| && InPlace(pages, parts, chunks, i, j)
    ensures (parts + [spans])[i] == parts[i] && InPlace(pages + [page], parts + [spans], chunks + last, i, j)
  {
    OffsetStays(parts + [spans], i);
    assert (parts + [spans])[..|parts|] == parts;
  }

  lemma LastInPlace(pages: seq<Page>, parts: seq<seq<Span>>, chunks: seq<Chunk>, page: Page, spans: seq<Span>, last: seq<Chunk>, j: nat)
    requires |pages| == |parts| && |chunks| == Offset(parts, |parts|) && |last| == |spans|
    requires j < |spans| && CarriesText(page, spans[j], last[j])
    ensures InPlace(pages + [page], parts + [spans], chunks + last, |pages|, j)
  {
    OffsetStays(parts + [spans], |parts|);
    assert (parts + [spans])[..|parts|] == parts;
    assert (chunks + last)[|chunks| + j] == last[j];
  }

  lemma LengthGrows(parts: seq<seq<Span>>, spans: seq<Span>)
    ensures Offset(parts + [spans], |parts| + 1) == Offset(parts, |parts|) + |spans|
  {
    OffsetStays(parts + [spans], |parts|);
    assert (parts + [spans])[..|parts|] == parts;
  }

  /** The chunks of one more page go behind. */
  lemma PageInOrder(pages: seq<Page>, parts: seq<seq<Span>>, chunks: seq<Chunk>, page: Page, spans: seq<Span>, last: seq<Chunk>)
    requires AllInOrder(pages, parts, chunks) && |last| == |spans|
    requires forall j: nat :: j < |spans| ==> CarriesText(page, spans[j], last[j])
    ensures AllInOrder(pages + [page], parts + [spans], chunks + last)
  {
    var n, more := |pages|, parts + [spans];
    LengthGrows(parts, spans);
    forall i: nat, j: nat | i < n + 1 && j < |more[i]|
      ensures InPlace(pages + [page], more, chunks + last, i, j)
    {
      if i < n {
        assert more[i] == parts[i];
        EarlierInPlace(pages, parts, chunks, page, spans, last, i, j);
      } else {
        LastInPlace(pages, parts, chunks, page, spans, last, j);
      }
    }
  }

  lemma ChunksCarryText(cfg: Config, page: Page, spans: seq<Span>)
    requires cfg.Legal() && page.number.Some? && IsChunking(cfg, page.text, spans)
    ensures forall j: nat :: j < |spans| ==> CarriesText(page, spans[j], PageChunks(page.number.value, page.text, spans)[j])
  {
    forall j: nat | j < |spans|
      ensures CarriesText(page, spans[j], PageChunks(page.number.value, page.text, spans)[j])
    {
      ChunkShape(cfg, page.text, spans, j);
    }
  }

  /** Every character of the document that is not space is in the text of some chunk of its page. */
  lemma TextIsCovered(cfg: Config, pages: seq<Page>, parts: seq<seq<Span>>, chunks: seq<Chunk>, i: nat, p: nat)
    requires cfg.Legal() && Parted(cfg, pages, parts) && AllInOrder(pages, parts, chunks)
    requires i < |pages| && p < |pages[i].text| && !IsSpace(pages[i].text[p])
    ensures exists c :: c in chunks && HoldsCharacter(pages[i], p, c)
  {
    Coverage(cfg, pages[i].text, parts[i], p);
    var j :| 0 <= j < |parts[i]| && parts[i][j].start <= p < parts[i][j].stop;
    HeldInPlace(pages, parts, chunks, i, j, p);
  }

  /** The chunk is of the page, and its text has the page's character `p` where its span says. */
  predicate HoldsCharacter(page: Page, p: nat, c: Chunk)
    requires p < |page.text|
  {
    && page.number == Some(c.page) && c.span.start <= p < c.span.stop && p - c.span.start < |c.text|
    && c.text[p - c.span.start] == page.text[p]
  }

  lemma HeldInPlace(pages: seq<Page>, parts: seq<seq<Span>>, chunks: seq<Chunk>, i: nat, j: nat, p: nat)
    requires AllInOrder(pages, parts, chunks) && i < |pages| && j < |parts[i]|
    requires parts[i][j].start <= p < parts[i][j].stop && p < |pages[i].text|
    ensures exists c :: c in chunks && HoldsCharacter(pages[i], p, c)
  {
    assert InPlace(pages, parts, chunks, i, j);
    var c := chunks[Offset(parts, i) + j];
    assert c in chunks && HoldsCharacter(pages[i], p, c);
  }

  ghost predicate GoodPages(pages: seq<Page>) {
    && (forall i :: 0 <= i < |pages| ==> pages[i].number.Some? && pages[i].number.value >= 1)
    && (forall i, j :: 0 <= i < j < |pages| ==> pages[i].number != pages[j].number)
  }

  /** The page numbers taken so far. */
  function Numbers(pages: seq<Page>): set<int> {
    set p <- pages | p.number.Some? :: p.number.value
  }

  lemma GoodPrefix(pages: seq<Page>, page: Page, rest: seq<Page>)
    ensures GoodPages(pages + [page]) <==>
              GoodPages(pages) && page.number.Some? && page.number.value >= 1 && page.number.value !in Numbers(pages)
    ensures GoodPages(pages + [page] + rest) ==> GoodPages(pages + [page])
    ensures page.number.Some? ==> Numbers(pages + [page]) == Numbers(pages) + {page.number.value}
  {
    var more := pages + [page];
    assert more[|pages|] == page;
    assert forall i :: 0 <= i < |pages| ==> more[i] == pages[i];
    assert forall i :: 0 <= i < |more| ==> (more + rest)[i] == more[i];
    if GoodPages(more) {
      assert forall i :: 0 <= i < |pages| ==> pages[i].number != more[|pages|].number;
    }
  }

  /** Each page has its own chunking. */
  ghost predicate Parted(cfg: Config, pages: seq<Page>, parts: seq<seq<Span>>) {
    |parts| == |pages| && forall i :: 0 <= i < |pages| ==> IsChunking(cfg, pages[i].text, parts[i])
  }

  /** The first page whose number is missing, not positive or repeated, and which of these it is. */
  ghost predicate FirstBadPage(pages: seq<Page>, error: Error) {
    exists i :: 0 <= i < |pages| && GoodPages(pages[..i]) && !GoodPages(pages[..i + 1])
                && error == if pages[i].number.None? then MissingPageNumber else BadPageNumber
  }

  /** The checks on one page number, given the pages before it. */
  method CheckNumber(page: Page, seen: set<int>, ghost before: seq<Page>, ghost rest: seq<Page>) returns (error: Option<Error>)
    requires GoodPages(before) && seen == Numbers(before)
    ensures error.None? ==> page.number.Some? && GoodPages(before + [page])
    ensures error.None? ==> Numbers(before + [page]) == seen + {page.number.value}
    ensures error.Some? ==> !GoodPages(before + [page] + rest) && !GoodPages(before + [page])
    ensures error.Some? ==> error.value == if page.number.None? then MissingPageNumber else BadPageNumber
  {
    GoodPrefix(before, page, rest);
    if page.number.None? {
      return Some(MissingPageNumber);
    }
    if page.number.value < 1 || page.number.value in seen {
      return Some(BadPageNumber);
    }
    return None;
  }

  /** The chunks of one more page. */
  method AddPage(cfg: Config, page: Page, chunks: seq<Chunk>, ghost before: seq<Page>, ghost parts: seq<seq<Span>>)
    returns (chunks': seq<Chunk>, ghost parts': seq<seq<Span>>)
    requires cfg.Legal() && GoodPages(before) && GoodPages(before + [page]) && page.number.Some?
    requires Parted(cfg, before, parts) && AllInOrder(before, parts, chunks)
    ensures Parted(cfg, before + [page], parts') && AllInOrder(before + [page], parts', chunks')
  {
    var spans := ChunkPage(cfg, page.text);
    ChunksCarryText(cfg, page, spans);
    PageInOrder(before, parts, chunks, page, spans, PageChunks(page.number.value, page.text, spans));
    chunks' := chunks + PageChunks(page.number.value, page.text, spans);
    parts' := parts + [spans];
  }

  /** The loop over the pages. */
  method ChunkAll(cfg: Config, pages: seq<Page>) returns (result: Result<seq<Chunk>, Error>, ghost parts: seq<seq<Span>>)
    requires cfg.Legal()
    ensures result.Success? <==> GoodPages(pages)
    ensures result.Failure? ==> FirstBadPage(pages, result.error)
    ensures result.Success? ==> Parted(cfg, pages, parts) && AllInOrder(pages, parts, result.value)
  {
    parts := [];
    var chunks: seq<Chunk> := [];
    var seen: set<int> := {};
    ghost var done: seq<Page> := [];
    for i := 0 to |pages|
      invariant done == pages[..i]
      invariant GoodPages(done) && seen == Numbers(done)
      invariant Parted(cfg, done, parts) && AllInOrder(done, parts, chunks)
    {
      var page := pages[i];
      TakeOne(pages, i);
      var error := CheckNumber(page, seen, done, pages[i + 1..]);
      if error.Some? {
        assert pages[..i + 1] == done + [page];
        return Failure(error.value), parts;
      }
      seen := seen + {page.number.value};
      chunks, parts := AddPage(cfg, page, chunks, done, parts);
      done := done + [page];
    }
    TakeAll(pages);
    result := Success(chunks);
  }

  /** A document is chunked page by page, or rejected for blank ids or for page numbers that
      are missing, not positive, or repeated. */
  method ChunkPages(cfg: Config, documentId: string, contractId: string, pages: seq<Page>)
    returns (result: Result<seq<Chunk>, Error>, ghost parts: seq<seq<Span>>)
    requires cfg.Legal()
    ensures result.Success? <==> !AllSpace(documentId) && !AllSpace(contractId) && GoodPages(pages)
    ensures result == Failure(MissingIdentity) <==> AllSpace(documentId) || AllSpace(contractId)
    ensures result.Failure? && !result.error.MissingIdentity? ==> FirstBadPage(pages, result.error)
    ensures result.Success? ==> Parted(cfg, pages, parts) && AllInOrder(pages, parts, result.value)
  {
    if AllSpace(documentId) || AllSpace(contractId) {
      result, parts := Failure(MissingIdentity), [];
    } else {
      result, parts := ChunkAll(cfg, pages);
    }
  }
}
