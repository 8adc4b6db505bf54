/** The chat event stream: the server's printer and the browser's incremental reader. */
module EventStream {
  import opened Wrappers

  // ---- text ----

  /** String.prototype.trim's notion of space. */
  predicate IsSpace(c: char) {
    || '\t' <= c <= '\r' || c == ' ' || c == '\U{a0}' || c == '\U{1680}' || '\U{2000}' <= c <= '\U{200a}'
    || c == '\U{2028}' || c == '\U{2029}' || c == '\U{202f}' || c == '\U{205f}' || c == '\U{3000}' || c == '\U{feff}'
  }

  /** White space and line terminators one by one. */
  lemma SpacesAre(c: char)
    ensures IsSpace(c) <==> c in ['\U{9}', '\U{a}', '\U{b}', '\U{c}', '\U{d}', '\U{20}', '\U{a0}', '\U{1680}', '\U{2000}', '\U{2001}',
                                  '\U{2002}', '\U{2003}', '\U{2004}', '\U{2005}', '\U{2006}', '\U{2007}', '\U{2008}', '\U{2009}',
                                  '\U{200a}', '\U{2028}', '\U{2029}', '\U{202f}', '\U{205f}', '\U{3000}', '\U{feff}']
  {}

  function TrimStart(s: string): string {
    if s != "" && IsSpace(s[0]) then TrimStart(s[1..]) else s
  }

  function TrimEnd(s: string): string {
    if s != "" && IsSpace(s[|s| - 1]) then TrimEnd(s[..|s| - 1]) else s
  }

  function Trim(s: string): string { TrimEnd(TrimStart(s)) }

  predicate Blank(s: string) { forall i :: 0 <= i < |s| ==> IsSpace(s[i]) }

  /** Trimming takes off space and nothing else, until none is left. */
  lemma {:induction false} TrimStartIsExact(s: string)
    ensures exists a: string :: Blank(a) && s == a + TrimStart(s)
    ensures TrimStart(s) != "" ==> !IsSpace(TrimStart(s)[0])
    decreases |s|
  {
    if s != "" && IsSpace(s[0]) {
      TrimStartIsExact(s[1..]);
      var a: string :| Blank(a) && s[1..] == a + TrimStart(s[1..]);
      assert Blank([s[0]] + a) && s == ([s[0]] + a) + TrimStart(s);
    } else {
      assert Blank("") && s == "" + TrimStart(s);
    }
  }

  lemma {:induction false} TrimEndIsExact(s: string)
    ensures exists b: string :: Blank(b) && s == TrimEnd(s) + b
    ensures TrimEnd(s) != "" ==> !IsSpace(TrimEnd(s)[|TrimEnd(s)| - 1]) && TrimEnd(s)[0] == s[0]
    decreases |s|
  {
    if s != "" && IsSpace(s[|s| - 1]) {
      var rest := s[..|s| - 1];
      TrimEndIsExact(rest);
      var b: string :| Blank(b) && rest == TrimEnd(rest) + b;
      assert Blank(b + [s[|s| - 1]]) && s == TrimEnd(s) + (b + [s[|s| - 1]]);
    } else {
      assert Blank("") && s == TrimEnd(s) + "";
    }
  }

  lemma TrimIsExact(s: string)
    ensures exists a: string, b: string :: Blank(a) && Blank(b) && s == a + Trim(s) + b
    ensures Trim(s) != "" ==> !IsSpace(Trim(s)[0]) && !IsSpace(Trim(s)[|Trim(s)| - 1])
  {
    TrimStartIsExact(s);
    TrimEndIsExact(TrimStart(s));
    var a: string :| Blank(a) && s == a + TrimStart(s);
    var b: string :| Blank(b) && TrimStart(s) == Trim(s) + b;
    assert s == a + Trim(s) + b;
  }

  function Concat(parts: seq<string>): string {
    if parts == [] then "" else parts[0] + Concat(parts[1..])
  }

  lemma {:induction false} ConcatSnoc(parts: seq<string>, last: string)
    ensures Concat(parts + [last]) == Concat(parts) + last
  {
    if parts != [] {
      ConcatSnoc(parts[1..], last);
      assert (parts + [last])[1..] == parts[1..] + [last];
    }
  }

  // ---- splitting ----

  /** Length of the match of \r?\n at `i`, zero without one. */
  function NewlineLen(s: string, i: nat): nat {
    if i < |s| && s[i] == '\n' then 1
    else if i + 1 < |s| && s[i] == '\r' && s[i + 1] == '\n' then 2
    else 0
  }

  /** Length of the match of \r?\n\r?\n at `i`, zero without one. */
  function BreakLen(s: string, i: nat): (n: nat)
    ensures n > 0 ==> i + n <= |s|
  {
    var first := NewlineLen(s, i);
    if first == 0 || NewlineLen(s, i + first) == 0 then 0 else first + NewlineLen(s, i + first)
  }

  /** The text stands in `s` at `i`. */
  predicate StandsAt(s: string, i: nat, part: string) { i + |part| <= |s| && s[i..i + |part|] == part }

  lemma StandsLetterByLetter(s: string, i: nat, part: string)
    requires 1 <= |part| <= 4
    ensures StandsAt(s, i, part) <==>
              && i + |part| <= |s| && s[i] == part[0]
              && (1 < |part| ==> s[i + 1] == part[1])
              && (2 < |part| ==> s[i + 2] == part[2])
              && (3 < |part| ==> s[i + 3] == part[3])
  {
    if i + |part| <= |s| {
      var here := s[i..i + |part|];
      assert forall k :: 0 <= k < |part| ==> here[k] == s[i + k];
    }
  }

  /** Line ends and block separators in plain terms. */
  lemma BreaksInPlainTerms(s: string, i: nat)
    ensures NewlineLen(s, i) == if StandsAt(s, i, "\n") then 1 else if StandsAt(s, i, "\r\n") then 2 else 0
    ensures BreakLen(s, i) == if StandsAt(s, i, "\n\n") then 2
                              else if StandsAt(s, i, "\r\n\n") || StandsAt(s, i, "\n\r\n") then 3
                              else if StandsAt(s, i, "\r\n\r\n") then 4 else 0
  {
    StandsLetterByLetter(s, i, "\n");
    StandsLetterByLetter(s, i, "\r\n");
    StandsLetterByLetter(s, i, "\n\n");
    StandsLetterByLetter(s, i, "\r\n\n");
    StandsLetterByLetter(s, i, "\n\r\n");
    StandsLetterByLetter(s, i, "\r\n\r\n");
  }

  /** The first block separator at or behind `i`; |s| without one. */
  function FirstBreak(s: string, i: nat): (j: nat)
    requires i <= |s|
    ensures i <= j <= |s| && (j < |s| ==> BreakLen(s, j) > 0)
    ensures forall k: nat :: i <= k < j ==> BreakLen(s, k) == 0
    decreases |s| - i
  {
    if i == |s| || BreakLen(s, i) > 0 then i else FirstBreak(s, i + 1)
  }

  /** buffer.split(/\r?\n\r?\n/) */
  function Blocks(s: string): (blocks: seq<string>)
    ensures blocks != []
    decreases |s|
  {
    var i := FirstBreak(s, 0);
    if i == |s| then [s] else [s[..i]] + Blocks(s[i + BreakLen(s, i)..])
  }

  function Init(blocks: seq<string>): seq<string>
    requires blocks != []
  {
    blocks[..|blocks| - 1]
  }

  function Last(blocks: seq<string>): string
    requires blocks != []
  {
    blocks[|blocks| - 1]
  }

  /** A separator found in a prefix stays the first one when more text arrives: no longer
      match can start earlier, wherever a CRLF is cut. */
  lemma BreakIsStable(a: string, b: string)
    requires FirstBreak(a, 0) < |a|
    ensures FirstBreak(a + b, 0) == FirstBreak(a, 0)
    ensures BreakLen(a + b, FirstBreak(a, 0)) == BreakLen(a, FirstBreak(a, 0))
  {
    var i, s := FirstBreak(a, 0), a + b;
    assert forall k :: 0 <= k < |a| ==> s[k] == a[k];
    assert BreakLen(s, i) == BreakLen(a, i);
    forall k: nat | k < i
      ensures BreakLen(s, k) == 0
    {
      assert BreakLen(a, k) == 0;
    }
  }

  /** The text behind the first separator. */
  function Behind(s: string): string
    requires FirstBreak(s, 0) < |s|
  {
    var i := FirstBreak(s, 0);
    s[i + BreakLen(s, i)..]
  }

  lemma FirstBlock(s: string)
    ensures FirstBreak(s, 0) == |s| ==> Blocks(s) == [s]
    ensures FirstBreak(s, 0) < |s| ==> Blocks(s) == [s[..FirstBreak(s, 0)]] + Blocks(Behind(s))
  {}

  lemma FirstBlockIsStable(a: string, b: string)
    requires FirstBreak(a, 0) < |a|
    ensures FirstBreak(a + b, 0) == FirstBreak(a, 0) && Behind(a + b) == Behind(a) + b
    ensures (a + b)[..FirstBreak(a, 0)] == a[..FirstBreak(a, 0)]
  {
    BreakIsStable(a, b);
    var i := FirstBreak(a, 0);
    var n := BreakLen(a, i);
    assert (a + b)[i + n..] == a[i + n..] + b;
  }

  /** Splitting on arrival: what the buffer kept, followed by the new text, splits into
      exactly the blocks still missing. */
  lemma {:induction false} SplitResumes(a: string, b: string)
    ensures Blocks(a + b) == Init(Blocks(a)) + Blocks(Last(Blocks(a)) + b)
    decreases |a|
  {
    FirstBlock(a);
    if FirstBreak(a, 0) == |a| {
      OnlyBlock(a, Blocks(a), Blocks(a + b));
    } else {
      FirstBlockIsStable(a, b);
      FirstBlock(a + b);
      SplitResumes(Behind(a), b);
      HeadApart(a[..FirstBreak(a, 0)], Blocks(Behind(a)), Blocks(Last(Blocks(Behind(a))) + b));
    }
  }

  lemma OnlyBlock(a: string, blocks: seq<string>, more: seq<string>)
    requires blocks == [a]
    ensures more == Init(blocks) + more && Last(blocks) == a
  {}

  lemma HeadApart(head: string, blocks: seq<string>, more: seq<string>)
    requires blocks != []
    ensures Last([head] + blocks) == Last(blocks)
    ensures Init([head] + blocks) + more == [head] + (Init(blocks) + more)
  {}

  /** The blocks are the text without its separators: joined again with some separators they are the
      text, and none of them holds a separator. */
  ghost predicate Rejoins(s: string, blocks: seq<string>)
    requires blocks != []
    decreases |blocks|
  {
    if |blocks| == 1 then s == blocks[0]
    else
      var i, n := |blocks[0]|, BreakLen(s, |blocks[0]|);
      n >= 2 && i + n <= |s| && s[..i] == blocks[0] && Rejoins(s[i + n..], blocks[1..])
  }

  lemma {:induction false} BlocksRejoin(s: string)
    ensures Rejoins(s, Blocks(s))
    decreases |s|
  {
    FirstBlock(s);
    if FirstBreak(s, 0) < |s| {
      var behind := Behind(s);
      BlocksRejoin(behind);
      HeadRejoins(s, FirstBreak(s, 0), behind, Blocks(behind));
    } else {
      OneRejoins(s);
    }
  }

  lemma OneRejoins(s: string)
    ensures Rejoins(s, [s])
  {}

  lemma HeadRejoins(s: string, i: nat, behind: string, rest: seq<string>)
    requires i < |s| && BreakLen(s, i) > 0 && behind == s[i + BreakLen(s, i)..] && rest != [] && Rejoins(behind, rest)
    ensures Rejoins(s, [s[..i]] + rest)
  {
    var blocks := [s[..i]] + rest;
    assert blocks[0] == s[..i] && blocks[1..] == rest;
  }

  lemma {:induction false} BlocksAreUnbroken(s: string)
    ensures forall b <- Blocks(s) :: FirstBreak(b, 0) == |b|
    decreases |s|
  {
    FirstBlock(s);
    if FirstBreak(s, 0) < |s| {
      HeadIsUnbroken(s);
      BlocksAreUnbroken(Behind(s));
    }
  }

  lemma HeadIsUnbroken(s: string)
    ensures var head := s[..FirstBreak(s, 0)]; FirstBreak(head, 0) == |head|
  {
    var i := FirstBreak(s, 0);
    var head := s[..i];
    var j := FirstBreak(head, 0);
    if j < |head| {
      var rest := s[i..];
      assert s == head + rest;
      BreakIsStable(head, rest);
    }
  }

  // ---- the reading loop ----

  /** The blocks a stream holds: all that are closed, and the remainder unless blank. */
  function AllBlocks(text: string): seq<string> {
    Init(Blocks(text)) + (if Trim(Last(Blocks(text))) == "" then [] else [Last(Blocks(text))])
  }

  /** A text without separator is one block, dispatched at the end unless it is blank. */
  lemma RemainderIsSent(text: string)
    requires FirstBreak(text, 0) == |text|
    ensures AllBlocks(text) == if Trim(text) == "" then [] else [text]
  {
    FirstBlock(text);
  }

  /** Dispatching stops behind the first block whose dispatch throws. */
  function UntilThrow(blocks: seq<string>, throws: string -> bool): seq<string> {
    if blocks == [] then []
    else if throws(blocks[0]) then [blocks[0]]
    else [blocks[0]] + UntilThrow(blocks[1..], throws)
  }

  predicate NoneThrows(blocks: seq<string>, throws: string -> bool) {
    forall b <- blocks :: !throws(b)
  }

  lemma NoneThrowsSplits(blocks: seq<string>, throws: string -> bool)
    requires blocks != []
    ensures NoneThrows(blocks, throws) <==> !throws(blocks[0]) && NoneThrows(blocks[1..], throws)
  {
    assert blocks == [blocks[0]] + blocks[1..];
  }

  lemma {:induction false} UntilThrowSplits(a: seq<string>, b: seq<string>, throws: string -> bool)
    ensures UntilThrow(a + b, throws) == if NoneThrows(a, throws) then a + UntilThrow(b, throws) else UntilThrow(a, throws)
    decreases |a|
  {
    if a == [] {
      assert a + b == b;
    } else {
      assert (a + b)[0] == a[0] && (a + b)[1..] == a[1..] + b;
      NoneThrowsSplits(a, throws);
      UntilThrowSplits(a[1..], b, throws);
      assert [a[0]] + a[1..] == a;
      assert [a[0]] + (a[1..] + UntilThrow(b, throws)) == a + UntilThrow(b, throws);
    }
  }

  method DispatchAll(blocks: seq<string>, throws: string -> bool) returns (dispatched: seq<string>, threw: bool)
    ensures dispatched == UntilThrow(blocks, throws)
    ensures threw <==> !NoneThrows(blocks, throws)
  {
    dispatched := [];
    for i := 0 to |blocks|
      invariant dispatched == blocks[..i] && NoneThrows(blocks[..i], throws)
    {
      dispatched := dispatched + [blocks[i]];
      assert blocks == blocks[..i] + blocks[i..];
      if throws(blocks[i]) {
        UntilThrowSplits(blocks[..i], blocks[i..], throws);
        assert blocks[i] in blocks;
        return dispatched, true;
      }
    }
    assert blocks[..|blocks|] == blocks;
    UntilThrowSplits(blocks, [], throws);
    assert blocks + [] == blocks;
    threw := false;
  }

  /** The buffer loop. However the stream is cut into chunks, it dispatches the blocks of one
      split of the whole text, up to the first dispatch that throws. */
  method ReadStream(chunks: seq<string>, throws: string -> bool) returns (dispatched: seq<string>, threw: bool)
    ensures dispatched == UntilThrow(AllBlocks(Concat(chunks)), throws)
    ensures threw <==> !NoneThrows(AllBlocks(Concat(chunks)), throws)
  {
    dispatched, threw := [], false;
    var buffer := "";
    ghost var closed: seq<string> := [];
    for i := 0 to |chunks|
      invariant Blocks(Concat(chunks[..i])) == closed + [buffer]
      invariant dispatched == closed && NoneThrows(closed, throws)
    {
      TakeOne(chunks, i);
      ConcatSnoc(chunks[..i], chunks[i]);
      Arrival(Concat(chunks[..i]), chunks[i], closed, buffer);
      buffer := buffer + chunks[i];
      var blocks := Blocks(buffer);
      buffer := Last(blocks);
      var sent;
      sent, threw := DispatchAll(Init(blocks), throws);
      dispatched := dispatched + sent;
      if threw {
        ConcatSplit(chunks, i + 1);
        ThrowIsFinal(Concat(chunks[..i + 1]), Concat(chunks[i + 1..]), closed, blocks, throws);
        return;
      }
      AllDispatched(Init(blocks), throws);
      closed := closed + Init(blocks);
      assert closed + [buffer] == dispatched + [Last(blocks)];
    }
    TakeAll(chunks);
    AllBlocksAre(Concat(chunks), closed, buffer);
    dispatched, threw := Flush(dispatched, buffer, throws);
  }

  lemma AllBlocksAre(text: string, closed: seq<string>, buffer: string)
    requires Blocks(text) == closed + [buffer]
    ensures AllBlocks(text) == if Trim(buffer) != "" then closed + [buffer] else closed
  {
    Parts(closed + [buffer], closed, buffer);
  }

  /** After the stream: a remainder that is not blank is dispatched as the last block. */
  method Flush(closed: seq<string>, buffer: string, throws: string -> bool) returns (dispatched: seq<string>, threw: bool)
    requires NoneThrows(closed, throws)
    ensures var all := if Trim(buffer) != "" then closed + [buffer] else closed;
            dispatched == UntilThrow(all, throws) && (threw <==> !NoneThrows(all, throws))
  {
    AllDispatched(closed, throws);
    dispatched, threw := closed, false;
    if Trim(buffer) != "" {
      UntilThrowSplits(closed, [buffer], throws);
      assert UntilThrow([buffer], throws) == [buffer];
      assert NoneThrows(closed + [buffer], throws) <==> !throws(buffer) by {
        assert (closed + [buffer])[|closed|] == buffer;
      }
      dispatched := closed + [buffer];
      threw := throws(buffer);
    }
  }

  lemma AllDispatched(blocks: seq<string>, throws: string -> bool)
    requires NoneThrows(blocks, throws)
    ensures UntilThrow(blocks, throws) == blocks
  {
    UntilThrowSplits(blocks, [], throws);
    assert blocks + [] == blocks;
  }

  /** A chunk that arrives closes some more blocks and leaves a new remainder. */
  lemma Arrival(text: string, chunk: string, closed: seq<string>, buffer: string)
    requires Blocks(text) == closed + [buffer]
    ensures var blocks := Blocks(buffer + chunk);
            && Blocks(text + chunk) == closed + blocks
            && closed + blocks == (closed + Init(blocks)) + [Last(blocks)]
  {
    SplitResumes(text, chunk);
    Parts(Blocks(text), closed, buffer);
    Regroup(closed, Blocks(buffer + chunk));
  }

  lemma Parts(blocks: seq<string>, closed: seq<string>, buffer: string)
    requires blocks == closed + [buffer]
    ensures Init(blocks) == closed && Last(blocks) == buffer
  {}

  lemma Regroup(closed: seq<string>, blocks: seq<string>)
    requires blocks != []
    ensures closed + blocks == (closed + Init(blocks)) + [Last(blocks)]
  {}

  /** Blocks closed by a prefix of the stream are closed blocks of the whole stream. */
  lemma ClosedStay(a: string, b: string)
    ensures Init(Blocks(a)) <= AllBlocks(a + b)
  {
    SplitResumes(a, b);
    assert Init(Blocks(a + b)) == Init(Blocks(a)) + Init(Blocks(Last(Blocks(a)) + b));
  }

  lemma {:induction false} ConcatSplit(parts: seq<string>, i: nat)
    requires i <= |parts|
    ensures Concat(parts) == Concat(parts[..i]) + Concat(parts[i..])
    decreases |parts|
  {
    if i > 0 {
      ConcatSplit(parts[1..], i - 1);
      assert parts[..i][1..] == parts[1..][..i - 1] && parts[i..] == parts[1..][i - 1..];
    }
  }

  lemma ThrowIsFinal(text: string, rest: string, closed: seq<string>, blocks: seq<string>, throws: string -> bool)
    requires blocks != [] && Blocks(text) == closed + blocks
    requires NoneThrows(closed, throws) && !NoneThrows(Init(blocks), throws)
    ensures UntilThrow(AllBlocks(text + rest), throws) == closed + UntilThrow(Init(blocks), throws)
    ensures !NoneThrows(AllBlocks(text + rest), throws)
  {
    var head := closed + Init(blocks);
    ClosedStay(text, rest);
    assert Init(closed + blocks) == head;
    PrefixDecides(head, AllBlocks(text + rest), throws);
    UntilThrowSplits(closed, Init(blocks), throws);
    var bad :| bad in Init(blocks) && throws(bad);
    assert bad in head;
  }

  lemma PrefixDecides(head: seq<string>, all: seq<string>, throws: string -> bool)
    requires head <= all
    ensures !NoneThrows(head, throws) ==> UntilThrow(all, throws) == UntilThrow(head, throws) && !NoneThrows(all, throws)
  {
    assert all == head + all[|head|..];
    UntilThrowSplits(head, all[|head|..], throws);
  }

  // ---- lines ----

  function FirstNewline(s: string, i: nat): (j: nat)
    requires i <= |s|
    ensures i <= j <= |s| && (j < |s| ==> NewlineLen(s, j) > 0)
    ensures forall k: nat :: i <= k < j ==> NewlineLen(s, k) == 0
    decreases |s| - i
  {
    if i == |s| || NewlineLen(s, i) > 0 then i else FirstNewline(s, i + 1)
  }

  /** block.split(/\r?\n/) */
  function Lines(s: string): seq<string>
    decreases |s|
  {
    var i := FirstNewline(s, 0);
    if i == |s| then [s] else [s[..i]] + Lines(s[i + NewlineLen(s, i)..])
  }

  const EVENT := "event:"
  const DATA := "data:"

  function EventName(lines: seq<string>): string {
    if lines == [] then "message"
    else
      var last := lines[|lines| - 1];
      if EVENT <= last then Trim(last[|EVENT|..]) else EventName(lines[..|lines| - 1])
  }

  function DataLines(lines: seq<string>): seq<string> {
    if lines == [] then []
    else
      var last := lines[|lines| - 1];
      DataLines(lines[..|lines| - 1]) + if DATA <= last then [TrimStart(last[|DATA|..])] else []
  }

  function Join(parts: seq<string>): string {
    if parts == [] then "" else if |parts| == 1 then parts[0] else parts[0] + "\n" + Join(parts[1..])
  }

  /** The last event line names the event; without one it is a message. */
  lemma {:induction false} LastEventLineNames(lines: seq<string>, i: nat)
    requires i <= |lines| && forall j :: i <= j < |lines| ==> !("event:" <= lines[j])
    requires i > 0 ==> "event:" <= lines[i - 1]
    ensures EventName(lines) == if i == 0 then "message" else Trim(lines[i - 1][6..])
    decreases |lines|
  {
    if i < |lines| { LastEventLineNames(lines[..|lines| - 1], i); }
  }

  /** The data lines one after the other, from the front. */
  function DataFrom(lines: seq<string>): seq<string> {
    if lines == [] then []
    else (if "data:" <= lines[0] then [TrimStart(lines[0][5..])] else []) + DataFrom(lines[1..])
  }

  lemma {:induction false} DataLinesInOrder(lines: seq<string>)
    ensures DataLines(lines) == DataFrom(lines)
    decreases |lines|
  {
    if lines != [] {
      var n := |lines| - 1;
      DataLinesInOrder(lines[..n]);
      DataFromSnoc(lines[..n], lines[n]);
      assert lines == lines[..n] + [lines[n]];
    }
  }

  lemma {:induction false} DataFromSnoc(lines: seq<string>, last: string)
    ensures DataFrom(lines + [last]) == DataFrom(lines) + if "data:" <= last then [TrimStart(last[5..])] else []
    decreases |lines|
  {
    if lines != [] {
      assert (lines + [last])[1..] == lines[1..] + [last];
      DataFromSnoc(lines[1..], last);
    }
  }

  /** Joining puts one line feed between neighbours and keeps the order. */
  lemma {:induction false} JoinPutsLineFeeds(parts: seq<string>, last: string)
    ensures Join(parts + [last]) == if parts == [] then last else Join(parts) + "\n" + last
    decreases |parts|
  {
    if parts != [] {
      assert (parts + [last])[1..] == parts[1..] + [last];
      JoinPutsLineFeeds(parts[1..], last);
    }
  }

  /** The lines are the block cut at every line end: joined again they are the block, and none holds a
      line end. */
  ghost predicate LinesRejoin(s: string, lines: seq<string>)
    requires lines != []
    decreases |lines|
  {
    if |lines| == 1 then s == lines[0]
    else
      var i, n := |lines[0]|, NewlineLen(s, |lines[0]|);
      n >= 1 && i + n <= |s| && s[..i] == lines[0] && LinesRejoin(s[i + n..], lines[1..])
  }

  lemma {:induction false} LinesAreCut(s: string)
    ensures Lines(s) != [] && LinesRejoin(s, Lines(s))
    decreases |s|
  {
    var i := FirstNewline(s, 0);
    if i < |s| {
      var rest := s[i + NewlineLen(s, i)..];
      LinesAreCut(rest);
      assert Lines(s)[0] == s[..i] && Lines(s)[1..] == Lines(rest);
    }
  }

  lemma {:induction false} LinesAreUnbroken(s: string)
    ensures forall l <- Lines(s) :: '\n' !in l
    decreases |s|
  {
    var i := FirstNewline(s, 0);
    if i < |s| { LinesAreUnbroken(s[i + NewlineLen(s, i)..]); }
    forall k | 0 <= k < i
      ensures s[k] != '\n'
    {
      assert NewlineLen(s, k) == 0;
    }
  }

  datatype Event = Event(name: string, data: string)

  /** What one block carries; a block without data carries nothing. */
  function Parsed(block: string): Option<Event> {
    var data := DataLines(Lines(block));
    if data == [] then None else Some(Event(EventName(Lines(block)), Join(data)))
  }

  /** The line loop of the block dispatcher. */
  method ParseBlock(block: string) returns (event: Option<Event>)
    ensures event == Parsed(block)
  {
    var lines := Lines(block);
    var name := "message";
    var data: seq<string> := [];
    for i := 0 to |lines|
      invariant name == EventName(lines[..i]) && data == DataLines(lines[..i])
    {
      var line := lines[i];
      assert lines[..i + 1][..i] == lines[..i];
      if EVENT <= line {
        name := Trim(line[|EVENT|..]);
      }
      if DATA <= line {
        data := data + [TrimStart(line[|DATA|..])];
      }
    }
    assert lines[..|lines|] == lines;
    if data == [] {
      return None;
    }
    return Some(Event(name, Join(data)));
  }

  // ---- the printer ----

  /** The fields of a server event, without the blank line that ends it. */
  function Fields(e: Event): string { "event: " + e.name + "\ndata: " + e.data }

  function Print(e: Event): string { Fields(e) + "\n\n" }

  function PrintAll(events: seq<Event>): string {
    if events == [] then "" else Print(events[0]) + PrintAll(events[1..])
  }

  predicate NoNewline(s: string) { forall i :: 0 <= i < |s| ==> s[i] != '\n' && s[i] != '\r' }

  lemma NoNewlineConcat(a: string, b: string)
    requires NoNewline(a) && NoNewline(b)
    ensures NoNewline(a + b)
  {}

  /** Neither field holds a line break: event names are fixed words and compact JSON escapes
      control characters. */
  predicate Printable(e: Event) { NoNewline(e.name) && NoNewline(e.data) }

  /** What the reader keeps of an event: outer space of the name, leading space of the data go. */
  function Received(e: Event): Event { Event(Trim(e.name), TrimStart(e.data)) }

  function EventLine(e: Event): string { "event: " + e.name }

  function DataLine(e: Event): string { "data: " + e.data }

  lemma LinesAreClean(e: Event)
    requires Printable(e)
    ensures NoNewline(EventLine(e)) && NoNewline(DataLine(e))
    ensures Fields(e) == EventLine(e) + "\n" + DataLine(e)
    ensures |DataLine(e)| > 0 && DataLine(e)[0] == 'd'
  {
    var event, data := "event: ", "data: ";
    assert event == ['e', 'v', 'e', 'n', 't', ':', ' '];
    assert data == ['d', 'a', 't', 'a', ':', ' '];
    assert NoNewline(event) && NoNewline(data);
    NoNewlineConcat(event, e.name);
    NoNewlineConcat(data, e.data);
    assert "\ndata: " == "\n" + data;
  }

  /** Two clean lines: one newline between them, and none of it starts a block separator. */
  lemma TwoLines(first: string, second: string, tail: string)
    requires NoNewline(first) && NoNewline(second) && |second| > 0
    ensures var s := first + "\n" + second + tail;
            && (forall k: nat :: k <= |first| + |second| ==> BreakLen(s, k) == 0)
            && NewlineLen(s, |first|) == 1 && forall k: nat :: k < |first| ==> NewlineLen(s, k) == 0
  {
    var s := first + "\n" + second + tail;
    assert s[|first|] == '\n';
    assert forall k :: 0 <= k < |first| ==> s[k] == first[k];
    assert forall k :: |first| < k <= |first| + |second| ==> s[k] == second[k - |first| - 1];
  }

  /** One printed event reads back as itself, up to outer space. */
  lemma ParsedPrinted(e: Event)
    requires Printable(e)
    ensures Parsed(Fields(e)) == Some(Received(e))
  {
    var s, first, second := Fields(e), EventLine(e), DataLine(e);
    LinesAreClean(e);
    TwoLines(first, second, "");
    assert s == first + "\n" + second + "";
    assert FirstNewline(s, 0) == |first|;
    assert s[..|first|] == first && s[|first| + 1..] == second;
    assert FirstNewline(second, 0) == |second|;
    assert Lines(second) == [second];
    assert Lines(s) == [first, second];
    LinesParse(e.name, e.data, first, second);
  }

  lemma LinesParse(name: string, data: string, first: string, second: string)
    requires first == "event: " + name && second == "data: " + data
    ensures DataLines([first, second]) == [TrimStart(data)]
    ensures EventName([first, second]) == Trim(name)
  {
    var lines := [first, second];
    assert lines[..1] == [first] && lines[..1][..0] == [];
    assert first[0] == 'e' && second[0] == 'd';
    assert first[|EVENT|..] == " " + name && second[|DATA|..] == " " + data;
    assert first == EVENT + (" " + name) && second == DATA + (" " + data);
    SpaceGoes(name);
    SpaceGoes(data);
    assert DataLines([first]) == [];
    assert EventName([first]) == Trim(" " + name);
  }

  lemma SpaceGoes(s: string)
    ensures TrimStart(" " + s) == TrimStart(s)
  {
    assert (" " + s)[1..] == s;
  }

  lemma PrintedBlock(e: Event, rest: string)
    requires Printable(e)
    ensures Blocks(Print(e) + rest) == [Fields(e)] + Blocks(rest)
  {
    var s, n := Print(e) + rest, |Fields(e)|;
    LinesAreClean(e);
    TwoLines(EventLine(e), DataLine(e), "\n\n" + rest);
    assert s == EventLine(e) + "\n" + DataLine(e) + ("\n\n" + rest);
    assert s[n] == '\n' && s[n + 1] == '\n';
    assert BreakLen(s, n) == 2;
    assert FirstBreak(s, 0) == n;
    assert s[..n] == Fields(e) && s[n + 2..] == rest;
  }

  function FieldsOf(events: seq<Event>): seq<string> {
    if events == [] then [] else [Fields(events[0])] + FieldsOf(events[1..])
  }

  /** A printed stream splits into one block per event and an empty remainder. */
  lemma {:induction false} PrintedBlocks(events: seq<Event>)
    requires forall e <- events :: Printable(e)
    ensures Blocks(PrintAll(events)) == FieldsOf(events) + [""]
    decreases |events|
  {
    if events == [] {
      assert FirstBreak("", 0) == 0;
    } else {
      PrintedBlock(events[0], PrintAll(events[1..]));
      PrintedBlocks(events[1..]);
    }
  }

  lemma {:induction false} FieldsParse(events: seq<Event>)
    requires forall e <- events :: Printable(e)
    ensures |FieldsOf(events)| == |events|
    ensures forall i :: 0 <= i < |events| ==> Parsed(FieldsOf(events)[i]) == Some(Received(events[i]))
    decreases |events|
  {
    if events != [] {
      ParsedPrinted(events[0]);
      FieldsParse(events[1..]);
    }
  }

  lemma {:induction false} UntilThrowStops(blocks: seq<string>, throws: string -> bool)
    ensures var sent := UntilThrow(blocks, throws);
            && sent <= blocks
            && (forall i :: 0 <= i < |sent| - 1 ==> !throws(sent[i]))
            && (|sent| < |blocks| ==> sent != [] && throws(sent[|sent| - 1]))
    decreases |blocks|
  {
    if blocks != [] && !throws(blocks[0]) {
      UntilThrowStops(blocks[1..], throws);
      assert blocks == [blocks[0]] + blocks[1..];
    }
  }

  /** End to end, for what ReadStream dispatches: printed events, cut anywhere on the way, arrive
      one block each and in order, up to the first whose dispatch throws; the i-th block parses
      to the i-th event, unchanged exactly when it has no outer space. */
  lemma PrintedStreamArrives(events: seq<Event>, chunks: seq<string>, throws: string -> bool)
    requires forall e <- events :: Printable(e)
    requires Concat(chunks) == PrintAll(events)
    ensures var sent := UntilThrow(AllBlocks(Concat(chunks)), throws);
            && |sent| <= |events|
            && (|sent| < |events| ==> sent != [] && throws(sent[|sent| - 1]))
            && (forall i :: 0 <= i < |sent| - 1 ==> !throws(sent[i]))
            && forall i :: 0 <= i < |sent| ==>
                 && Parsed(sent[i]) == Some(Received(events[i]))
                 && (Parsed(sent[i]) == Some(events[i]) <==>
                       Trim(events[i].name) == events[i].name && TrimStart(events[i].data) == events[i].data)
  {
    PrintedAllBlocks(events);
    UntilThrowStops(FieldsOf(events), throws);
    FieldsArrive(events, UntilThrow(FieldsOf(events), throws));
  }

  lemma FieldsArrive(events: seq<Event>, sent: seq<string>)
    requires (forall e <- events :: Printable(e)) && sent <= FieldsOf(events)
    ensures |FieldsOf(events)| == |events|
    ensures forall i :: 0 <= i < |sent| ==>
              && Parsed(sent[i]) == Some(Received(events[i]))
              && (Parsed(sent[i]) == Some(events[i]) <==>
                    Trim(events[i].name) == events[i].name && TrimStart(events[i].data) == events[i].data)
  {
    FieldsParse(events);
  }

  lemma PrintedAllBlocks(events: seq<Event>)
    requires forall e <- events :: Printable(e)
    ensures AllBlocks(PrintAll(events)) == FieldsOf(events)
  {
    PrintedBlocks(events);
    assert Init(FieldsOf(events) + [""]) == FieldsOf(events);
  }
}
