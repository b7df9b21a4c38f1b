/**
 Server-sent event frames: the gateway's framer and the event stream interpretation of section
 9.2.6 of the WHATWG HTML Living Standard.
 */
module SseFrames {
  import opened Bytes
  import opened Sequences

  const LF: byte := 10
  const CR: byte := 13
  const SPACE: byte := 32
  const COLON: byte := 58
  /** The field name "data" and the start of a line of it, "data: ". */
  const DATA: seq<byte> := [100, 97, 116, 97]
  const LINE_START: seq<byte> := [100, 97, 116, 97, 58, 32]
  const EVENT: seq<byte> := [101, 118, 101, 110, 116]
  const ID: seq<byte> := [105, 100]

  // ----- framing ---------------------------------------------------------------------------------------------

  function DataLine(value: seq<byte>): seq<byte> {
    LINE_START + value + [LF]
  }

  /** The lines of a payload; what follows its last LF is a line only when it is not empty. */
  function Pieces(data: seq<byte>): seq<seq<byte>>
    decreases |data|
  {
    if data == [] then []
    else
      var at := FirstIndex(data, LF);
      if at == |data| then [data] else [data[..at]] + Pieces(data[at + 1..])
  }

  function DataLines(pieces: seq<seq<byte>>): seq<byte> {
    if pieces == [] then [] else DataLine(pieces[0]) + DataLines(pieces[1..])
  }

  function Frame(data: seq<byte>): seq<byte> {
    DataLines(Pieces(data)) + [LF]
  }

  function Stream(payloads: seq<seq<byte>>): seq<byte> {
    if payloads == [] then [] else Frame(payloads[0]) + Stream(payloads[1..])
  }

  lemma Regroup(a: seq<byte>, b: seq<byte>, c: seq<byte>)
    ensures (a + b) + c == a + (b + c)
  {
  }

  lemma DataLinesSnoc(pieces: seq<seq<byte>>, piece: seq<byte>)
    ensures DataLines(pieces + [piece]) == DataLines(pieces) + DataLine(piece)
    decreases |pieces|
  {
    if pieces == [] {
      assert DataLines([]) == [] && [piece][1..] == [];
      assert pieces + [piece] == [piece] && DataLines([piece]) == DataLine(piece) + [];
    } else {
      assert (pieces + [piece])[1..] == pieces[1..] + [piece];
      DataLinesSnoc(pieces[1..], piece);
      Regroup(DataLine(pieces[0]), DataLines(pieces[1..]), DataLine(piece));
    }
  }

  /** `data` is its first line, LF and the rest. */
  ghost predicate Cut(data: seq<byte>, at: int) {
    0 <= at < |data| && data[at] == LF && LF !in data[..at]
  }

  lemma PiecesCut(data: seq<byte>, at: int)
    requires Cut(data, at)
    ensures Pieces(data) == [data[..at]] + Pieces(data[at + 1..])
  {
  }

  lemma PiecesLast(data: seq<byte>)
    requires data != [] && LF !in data
    ensures Pieces(data) == [data]
  {
  }

  lemma PiecesNext(written: seq<seq<byte>>, piece: seq<byte>, rest: seq<seq<byte>>)
    ensures written + ([piece] + rest) == (written + [piece]) + rest
  {
  }

  /** Builds the frame line by line, consuming the payload. */
  method WriteEvent(payload: seq<byte>) returns (buf: seq<byte>)
    ensures buf == Frame(payload)
  {
    var data := payload;
    ghost var written: seq<seq<byte>> := [];
    buf := [];
    while |data| > 0
      invariant buf == DataLines(written) && written + Pieces(data) == Pieces(payload)
      decreases |data|
    {
      var at := IndexByte(data, LF);
      if at < 0 {
        PiecesLast(data);
        DataLinesSnoc(written, data);
        buf := AppendLine(buf, data);
        return buf + [LF];
      }
      PiecesCut(data, at);
      DataLinesSnoc(written, data[..at]);
      PiecesNext(written, data[..at], Pieces(data[at + 1..]));
      buf := AppendLine(buf, data[..at]);
      written, data := written + [data[..at]], data[at + 1..];
    }
    assert written + Pieces([]) == written;
    buf := buf + [LF];
  }

  method AppendLine(buf: seq<byte>, value: seq<byte>) returns (out: seq<byte>)
    ensures out == buf + DataLine(value)
  {
    out := buf + LINE_START;
    out := out + value;
    out := out + [LF];
  }

  method IndexByte(data: seq<byte>, b: byte) returns (at: int)
    ensures if b in data then 0 <= at < |data| && data[at] == b && b !in data[..at] else at == -1
  {
    at := 0;
    while at < |data|
      invariant 0 <= at <= |data|
      invariant forall j :: 0 <= j < at ==> data[j] != b
    {
      if data[at] == b { return; }
      at := at + 1;
    }
    at := -1;
  }

  // ----- interpreting a stream ----------------------------------------------------------------------------------

  datatype Event = Event(kind: seq<byte>, data: seq<byte>, lastId: seq<byte>)

  /** The data, event type and last event ID buffers, and the events dispatched so far. */
  datatype Parser = Parser(data: seq<byte>, kind: seq<byte>, lastId: seq<byte>, events: seq<Event>)

  const Opened: Parser := Parser([], [], [], [])

  /** Position of the first CR or LF. */
  function LineEnd(s: seq<byte>): (i: nat)
    ensures i <= |s|
    ensures i < |s| ==> s[i] == CR || s[i] == LF
    ensures forall j :: 0 <= j < i ==> s[j] != CR && s[j] != LF
  {
    if s == [] || s[0] == CR || s[0] == LF then 0 else 1 + LineEnd(s[1..])
  }

  /** The lines that are ended by LF, CR or CRLF; an unfinished last line is discarded. */
  function Lines(s: seq<byte>): seq<seq<byte>>
    decreases |s|
  {
    var i := LineEnd(s);
    if i == |s| then []
    else if s[i] == CR && i + 1 < |s| && s[i + 1] == LF then [s[..i]] + Lines(s[i + 2..])
    else [s[..i]] + Lines(s[i + 1..])
  }

  function Chomp(data: seq<byte>): seq<byte> {
    if data != [] && data[|data| - 1] == LF then data[..|data| - 1] else data
  }

  function Dispatch(p: Parser): Parser {
    if p.data == [] then p.(kind := [])
    else p.(data := [], kind := [], events := p.events + [Event(p.kind, Chomp(p.data), p.lastId)])
  }

  function Field(p: Parser, name: seq<byte>, value: seq<byte>): Parser {
    if name == EVENT then p.(kind := value)
    else if name == DATA then p.(data := p.data + value + [LF])
    else if name == ID then (if 0 in value then p else p.(lastId := value))
    else p
  }

  function Feed(p: Parser, line: seq<byte>): Parser {
    if line == [] then Dispatch(p)
    else
      var at := FirstIndex(line, COLON);
      if at == 0 then p
      else if at == |line| then Field(p, line, [])
      else
        var value := line[at + 1..];
        Field(p, line[..at], if value != [] && value[0] == SPACE then value[1..] else value)
  }

  function FeedAll(p: Parser, lines: seq<seq<byte>>): Parser
    decreases |lines|
  {
    if lines == [] then p else FeedAll(Feed(p, lines[0]), lines[1..])
  }

  function Decode(s: seq<byte>): seq<Event> {
    FeedAll(Opened, Lines(s)).events
  }

  // ----- the round trip ---------------------------------------------------------------------------------------------

  /** One event per non-empty payload, each payload minus at most one trailing LF. */
  function Expected(payloads: seq<seq<byte>>): seq<Event> {
    if payloads == [] then []
    else (if payloads[0] == [] then [] else [Event([], Chomp(payloads[0]), [])]) + Expected(payloads[1..])
  }

  lemma LinesStep(line: seq<byte>, rest: seq<byte>)
    requires CR !in line && LF !in line
    ensures Lines(line + [LF] + rest) == [line] + Lines(rest)
  {
    var s := line + [LF] + rest;
    assert s[|line|] == LF;
    forall j | 0 <= j < |line| ensures s[j] != CR && s[j] != LF { assert s[j] == line[j] && line[j] in line; }
    assert LineEnd(s) == |line|;
    assert s[..|line|] == line && s[|line| + 1..] == rest;
  }

  lemma FeedData(p: Parser, value: seq<byte>)
    ensures Feed(p, LINE_START + value) == p.(data := p.data + value + [LF])
  {
    var line := LINE_START + value;
    assert forall j :: 0 <= j < 4 ==> line[j] != COLON;
    assert line[4] == COLON;
    assert FirstIndex(line, COLON) == 4;
    assert line[..4] == DATA;
    assert line[5..][1..] == value;
  }

  /** The data buffer a payload leaves behind. */
  function Buffered(data: seq<byte>): seq<byte> {
    if data == [] || data[|data| - 1] == LF then data else data + [LF]
  }

  lemma LineRead(p: Parser, value: seq<byte>, rest: seq<byte>)
    requires CR !in value && LF !in value
    ensures FeedAll(p, Lines(DataLine(value) + rest)) == FeedAll(p.(data := p.data + value + [LF]), Lines(rest))
  {
    LinesStep(LINE_START + value, rest);
    FeedData(p, value);
  }

  ghost predicate OneLine(piece: seq<byte>) {
    CR !in piece && LF !in piece
  }

  lemma {:induction false} PiecesOneLine(data: seq<byte>)
    requires CR !in data
    ensures forall i :: 0 <= i < |Pieces(data)| ==> OneLine(Pieces(data)[i])
    decreases |data|
  {
    if LF in data { PiecesOneLine(data[FirstIndex(data, LF) + 1..]); }
  }

  /** The lines, each ended by LF. */
  function Ended(pieces: seq<seq<byte>>): seq<byte> {
    if pieces == [] then [] else pieces[0] + [LF] + Ended(pieces[1..])
  }

  lemma {:induction false} PiecesEnded(data: seq<byte>)
    ensures Ended(Pieces(data)) == Buffered(data)
    decreases |data|
  {
    if LF in data {
      var at := FirstIndex(data, LF);
      PiecesCut(data, at);
      EndedCons(data[..at], Pieces(data[at + 1..]));
      PiecesEnded(data[at + 1..]);
      BufferedCut(data, at);
    } else if data != [] {
      PiecesLast(data);
      EndedCons(data, []);
    }
  }

  lemma EndedCons(piece: seq<byte>, pieces: seq<seq<byte>>)
    ensures Ended([piece] + pieces) == piece + [LF] + Ended(pieces)
  {
  }

  lemma BufferedCut(data: seq<byte>, at: int)
    requires Cut(data, at)
    ensures Buffered(data) == data[..at] + [LF] + Buffered(data[at + 1..])
  {
    assert data == data[..at] + [LF] + data[at + 1..];
  }

  /** Reading data lines puts them, each ended by LF, into the data buffer. */
  lemma {:induction false} PiecesRead(p: Parser, pieces: seq<seq<byte>>, rest: seq<byte>)
    requires forall i :: 0 <= i < |pieces| ==> OneLine(pieces[i])
    ensures FeedAll(p, Lines(DataLines(pieces) + rest)) == FeedAll(p.(data := p.data + Ended(pieces)), Lines(rest))
    decreases |pieces|
  {
    if pieces == [] {
      assert DataLines(pieces) + rest == rest && p.data + Ended(pieces) == p.data;
    } else {
      var first, tail := pieces[0], pieces[1..];
      assert OneLine(first);
      Regroup(DataLine(first), DataLines(tail), rest);
      LineRead(p, first, DataLines(tail) + rest);
      PiecesRead(p.(data := p.data + first + [LF]), tail, rest);
      Regroup(p.data, first, [LF]);
      Regroup(p.data, first + [LF], Ended(tail));
    }
  }

  lemma DataRead(p: Parser, data: seq<byte>, rest: seq<byte>)
    requires CR !in data
    ensures FeedAll(p, Lines(DataLines(Pieces(data)) + rest)) == FeedAll(p.(data := p.data + Buffered(data)), Lines(rest))
  {
    PiecesOneLine(data);
    PiecesEnded(data);
    PiecesRead(p, Pieces(data), rest);
  }

  lemma FrameRead(p: Parser, data: seq<byte>, rest: seq<byte>)
    requires CR !in data && p.data == [] && p.kind == []
    ensures FeedAll(p, Lines(Frame(data) + rest)) ==
            FeedAll(p.(events := p.events + if data == [] then [] else [Event([], Chomp(data), p.lastId)]), Lines(rest))
  {
    Regroup(DataLines(Pieces(data)), [LF], rest);
    DataRead(p, data, [LF] + rest);
    assert [] + [LF] + rest == [LF] + rest;
    LinesStep([], rest);
    var q := p.(data := p.data + Buffered(data));
    assert q.data == Buffered(data) && Chomp(Buffered(data)) == Chomp(data);
    assert FeedAll(q, [[]] + Lines(rest)) == FeedAll(Feed(q, []), Lines(rest));
    assert Feed(q, []) == p.(events := p.events + if data == [] then [] else [Event([], Chomp(data), p.lastId)]);
  }

  lemma Reassociate(a: seq<Event>, b: seq<Event>, c: seq<Event>)
    ensures (a + b) + c == a + (b + c)
  {
  }

  lemma {:induction false} StreamRead(events: seq<Event>, payloads: seq<seq<byte>>)
    requires forall i :: 0 <= i < |payloads| ==> CR !in payloads[i]
    ensures FeedAll(Opened.(events := events), Lines(Stream(payloads))).events == events + Expected(payloads)
    decreases |payloads|
  {
    if payloads != [] {
      var first := if payloads[0] == [] then [] else [Event([], Chomp(payloads[0]), [])];
      FrameRead(Opened.(events := events), payloads[0], Stream(payloads[1..]));
      StreamRead(events + first, payloads[1..]);
      assert Expected(payloads) == first + Expected(payloads[1..]);
      Reassociate(events, first, Expected(payloads[1..]));
    }
  }

  // ----- what a reader can never see ------------------------------------------------------------------------------

  ghost predicate NoCR(p: Parser) {
    CR !in p.data && forall i :: 0 <= i < |p.events| ==> CR !in p.events[i].data
  }

  lemma {:induction false} LinesNoCR(s: seq<byte>)
    ensures forall i :: 0 <= i < |Lines(s)| ==> CR !in Lines(s)[i]
    decreases |s|
  {
    var i := LineEnd(s);
    if i < |s| { LinesNoCR(s[if s[i] == CR && i + 1 < |s| && s[i + 1] == LF then i + 2 else i + 1..]); }
  }

  lemma FeedNoCR(p: Parser, line: seq<byte>)
    requires NoCR(p) && CR !in line
    ensures NoCR(Feed(p, line))
  {
  }

  lemma {:induction false} FeedAllNoCR(p: Parser, lines: seq<seq<byte>>)
    requires NoCR(p) && forall i :: 0 <= i < |lines| ==> CR !in lines[i]
    ensures NoCR(FeedAll(p, lines))
    decreases |lines|
  {
    if lines != [] {
      FeedNoCR(p, lines[0]);
      FeedAllNoCR(Feed(p, lines[0]), lines[1..]);
    }
  }

  lemma {:induction false} ExpectedCR(payloads: seq<seq<byte>>, k: nat)
    requires k < |payloads| && CR in payloads[k]
    ensures exists i :: 0 <= i < |Expected(payloads)| && CR in Expected(payloads)[i].data
    decreases |payloads|
  {
    if k == 0 {
      assert Expected(payloads)[0].data == Chomp(payloads[0]);
      var j :| 0 <= j < |payloads[0]| && payloads[0][j] == CR;
      assert Chomp(payloads[0])[j] == CR;
    } else {
      ExpectedCR(payloads[1..], k - 1);
      var i :| 0 <= i < |Expected(payloads[1..])| && CR in Expected(payloads[1..])[i].data;
      var shift := |Expected(payloads)| - |Expected(payloads[1..])|;
      assert Expected(payloads)[i + shift] == Expected(payloads[1..])[i];
    }
  }

  /**
   A reader of the stream gets exactly one event per non-empty payload, with the payload minus at
   most one trailing LF, if and only if no payload holds a CR.
   */
  lemma RoundTrip(payloads: seq<seq<byte>>)
    ensures Decode(Stream(payloads)) == Expected(payloads) <==> forall i :: 0 <= i < |payloads| ==> CR !in payloads[i]
  {
    if forall i :: 0 <= i < |payloads| ==> CR !in payloads[i] {
      StreamRead([], payloads);
      assert [] + Expected(payloads) == Expected(payloads);
    } else {
      var k :| 0 <= k < |payloads| && CR in payloads[k];
      ExpectedCR(payloads, k);
      LinesNoCR(Stream(payloads));
      FeedAllNoCR(Opened, Lines(Stream(payloads)));
    }
  }
}
