/** The two receivers of the chat protocol, each fed the byte stream in arbitrary pieces. */
module FrameParsers {
  import opened Bytes
  import opened Frames
  import opened Messages

  const BUDGET := 256 * 1024

  /** Ids the client has a handler for. */
  predicate ClientHandles(id: nat) {
    id in {1006, 1008, 1010, 1011, 1014, 1015, 1018, 1019, 1024, 1026, 1028, 1030, 1031, 1033, 1037, 1039}
  }

  function ClientLimit(id: nat): nat {
    if id == 1033 then 60 * 1024 else if id == 1006 then 65535 else 16 * 1024
  }

  predicate ClientRule(id: nat, len: nat) {
    ClientHandles(id) && 0 < len <= ClientLimit(id)
  }

  predicate FileTransfer(id: nat) {
    1025 <= id <= 1035
  }

  predicate ClientRequest(id: nat) {
    id in {1005, 1007, 1009, 1013, 1017, 1020, 1023, 1025, 1027, 1029, 1032, 1034, 1035, 1036, 1038}
  }

  predicate ServerRule(id: nat, len: nat) {
    ClientRequest(id) && 0 < len <= (if FileTransfer(id) then 60 * 1024 else 1024 * 2)
  }

  /** What the client agrees to write. */
  predicate WriteAllowed(id: nat, len: nat) {
    0 < len <= (if FileTransfer(id) then 60 * 1024 else 2048)
  }

  /** Of the undecoded bytes the parser has already taken a complete header out of its buffer. */
  function Buffered(left: bytes): nat {
    if |left| < HEAD then |left| else |left| - HEAD
  }

  predicate Overflows(left: bytes, chunk: bytes) {
    Buffered(left) + |chunk| > BUDGET
  }

  /** Undecoded bytes a live receiver can hold: no whole frame and no refused header. */
  predicate Partial(rule: Rule, left: bytes) {
    Decode(rule, left) == Decoded([], false, left)
  }

  /** The client's parser state: `id` and `len` matter while a body is awaited. */
  datatype Parser = Parser(buffer: bytes, pending: bool, id: nat, len: nat, aborted: bool)

  predicate Consistent(p: Parser) {
    p.id < 0x1_0000 && p.len < 0x1_0000 && (p.pending ==> ClientRule(p.id, p.len))
  }

  function Leftover(p: Parser): bytes
    requires Consistent(p)
  {
    if p.pending then Header(p.id, p.len) + p.buffer else p.buffer
  }

  /** A parser between two reads: short of a header, or of the body it is waiting for. */
  predicate Waiting(p: Parser) {
    Consistent(p) && !p.aborted && |p.buffer| < (if p.pending then p.len else HEAD)
  }

  lemma ShortHead(rule: Rule, s: bytes)
    requires |s| < HEAD
    ensures Partial(rule, s)
  {
  }

  lemma RefusedHead(rule: Rule, s: bytes)
    requires |s| >= HEAD && !rule(Word(s[0], s[1]), Word(s[2], s[3]))
    ensures Decode(rule, s) == Decoded([], true, s)
  {
  }

  lemma ShortBody(rule: Rule, id: nat, len: nat, s: bytes)
    requires id < 0x1_0000 && len < 0x1_0000 && rule(id, len) && |s| < len
    ensures Partial(rule, Header(id, len) + s)
  {
    HeaderReads(id, len, s);
  }

  lemma Regroup(a: seq<Wire>, f: Wire, d: Decoded)
    ensures After(a, After([f], d)) == After(a + [f], d)
  {
    assert a + ([f] + d.frames) == a + [f] + d.frames;
  }

  lemma WholeBody(rule: Rule, f: Wire, more: bytes, before: seq<Wire>)
    requires rule(f.id, |f.body|)
    ensures After(before, Decode(rule, Header(f.id, |f.body|) + (f.body + more))) == After(before + [f], Decode(rule, more))
  {
    hide Decode, After;
    assert Header(f.id, |f.body|) + (f.body + more) == Encode(f) + more;
    DecodeOne(rule, f, more);
    Regroup(before, f, Decode(rule, more));
  }

  lemma AfterEnd(frames: seq<Wire>, bad: bool, rest: bytes)
    ensures After(frames, Decoded([], bad, rest)) == Decoded(frames, bad, rest)
  {
    assert frames + [] == frames;
  }

  /** `frames` have been read off `start`, and `left` is still to be decoded. */
  ghost predicate Ahead(start: bytes, frames: seq<Wire>, left: bytes) {
    Decode(ClientRule, start) == After(frames, Decode(ClientRule, left))
  }

  lemma AheadAtFirst(start: bytes)
    ensures Ahead(start, [], start)
  {
    hide Decode;
    AfterNone(Decode(ClientRule, start), []);
  }

  lemma AheadEnds(start: bytes, frames: seq<Wire>, left: bytes, bad: bool)
    requires Ahead(start, frames, left) && Decode(ClientRule, left) == Decoded([], bad, left)
    ensures Decode(ClientRule, start) == Decoded(frames, bad, left)
  {
    hide Decode;
    AfterEnd(frames, bad, left);
  }

  lemma AheadByOne(start: bytes, frames: seq<Wire>, id: nat, len: nat, buffer: bytes)
    requires id < 0x1_0000 && len < 0x1_0000 && ClientRule(id, len) && len <= |buffer|
    requires Ahead(start, frames, Header(id, len) + buffer)
    ensures Ahead(start, frames + [Frame(id, buffer[..len])], buffer[len..])
  {
    hide Decode, ClientRule;
    var f := Frame(id, buffer[..len]);
    assert buffer == f.body + buffer[len..];
    WholeBody(ClientRule, f, buffer[len..], frames);
  }

  /** The parser's loop over its buffer. */
  method Parse(start: Parser) returns (p: Parser, frames: seq<Wire>)
    requires Consistent(start) && !start.aborted
    ensures Consistent(p)
    ensures var d := Decode(ClientRule, Leftover(start));
            frames == d.frames && p.aborted == d.bad && (!p.aborted ==> Leftover(p) == d.rest && Waiting(p))
  {
    hide Decode, Ahead, ClientRule, Header;
    p, frames := start, [];
    AheadAtFirst(Leftover(start));
    while true
      invariant Consistent(p) && !p.aborted && Ahead(Leftover(start), frames, Leftover(p))
      decreases |p.buffer|
    {
      var buffer, id, len := p.buffer, p.id, p.len;
      if !p.pending {
        if |buffer| < HEAD {
          ShortHead(ClientRule, buffer);
          AheadEnds(Leftover(start), frames, buffer, false);
          return;
        }
        id, len := Word(buffer[0], buffer[1]), Word(buffer[2], buffer[3]);
        RuleOfClient(id, len);
        if !ClientHandles(id) || len == 0 || len > ClientLimit(id) {
          RefusedHead(ClientRule, buffer);
          AheadEnds(Leftover(start), frames, buffer, true);
          p := Parser(buffer[HEAD..], false, id, len, true);
          return;
        }
        HeaderWrites(buffer);
        buffer := buffer[HEAD..];
      }
      RuleOfClient(id, len);
      if |buffer| < len {
        p := Parser(buffer, true, id, len, false);
        ShortBody(ClientRule, id, len, buffer);
        AheadEnds(Leftover(start), frames, Leftover(p), false);
        return;
      }
      AheadByOne(Leftover(start), frames, id, len, buffer);
      frames := frames + [Frame(id, buffer[..len])];
      p := Parser(buffer[len..], false, id, len, false);
    }
  }

  lemma RuleOfClient(id: nat, len: nat)
    ensures ClientRule(id, len) <==> ClientHandles(id) && len != 0 && len <= ClientLimit(id)
  {
  }

  /** What a waiting parser holds cannot be decoded any further. */
  lemma WaitingIsPartial(p: Parser)
    requires Waiting(p)
    ensures Partial(ClientRule, Leftover(p)) && Buffered(Leftover(p)) == |p.buffer|
  {
    if p.pending {
      ShortBody(ClientRule, p.id, p.len, p.buffer);
    }
  }

  class ClientParser {
    var buffer: bytes
    var pending: bool
    var id: nat
    var len: nat
    var aborted: bool

    function State(): Parser
      reads this
    {
      Parser(buffer, pending, id, len, aborted)
    }

    constructor ()
      ensures Waiting(State()) && Leftover(State()) == []
    {
      buffer, pending, id, len, aborted := [], false, 0, 0, false;
    }

    /** A new connection starts from a clean parser. */
    method ResetParser()
      modifies this
      ensures Waiting(State()) && Leftover(State()) == []
    {
      buffer, pending, id, len, aborted := [], false, 0, 0, false;
    }

    /** The bytes just received are decoded together with what was left; the frames go to their
        handlers in order, and the connection is aborted at a refused header or an overflow. */
    method ReadyRead(chunk: bytes) returns (frames: seq<Wire>)
      requires Waiting(State())
      modifies this
      ensures Consistent(State())
      ensures var left := old(Leftover(State()));
              if Overflows(left, chunk) then aborted && frames == []
              else
                var d := Decode(ClientRule, left + chunk);
                && frames == d.frames && aborted == d.bad
                && (!aborted ==> Waiting(State()) && Leftover(State()) == d.rest)
    {
      hide Decode, ClientRule;
      WaitingIsPartial(State());
      ghost var left := Leftover(State());
      buffer := buffer + chunk;
      if |buffer| > BUDGET {
        aborted := true;
        return [];
      }
      assert Leftover(State()) == left + chunk;
      var p;
      p, frames := Parse(State());
      buffer, pending, id, len, aborted := p.buffer, p.pending, p.id, p.len, p.aborted;
    }
  }

  /** The server's reader asks for exactly a header, then exactly a body. */
  datatype Reader = Reader(data: bytes, inBody: bool, id: nat, len: nat, closed: bool)

  function Wanted(r: Reader): nat {
    if r.inBody then r.len else HEAD
  }

  predicate Reading(r: Reader) {
    && !r.closed && |r.data| < Wanted(r) && r.id < 0x1_0000 && r.len < 0x1_0000
    && (r.inBody ==> ServerRule(r.id, r.len))
  }

  function Unread(r: Reader): bytes
    requires Reading(r)
  {
    if r.inBody then Header(r.id, r.len) + r.data else r.data
  }

  /** The checks beside the frame format: the session is still registered, the request budget
      allows the header, the user is logged in, the logic queue has room. */
  datatype Gate = Gate(registered: bool, budget: bool, loggedIn: bool, room: bool)

  predicate HeadPasses(g: Gate) {
    g.registered && g.budget
  }

  /** File frames go to a queue whose workers are never started, so no such frame is taken. */
  predicate Queued(g: Gate, id: nat) {
    !FileTransfer(id) && g.room
  }

  predicate BodyPasses(g: Gate, id: nat) {
    g.registered && (id == 1005 || g.loggedIn) && Queued(g, id)
  }

  /** A socket read returns something, and at most what is still wanted. */
  predicate Answers(r: Reader, piece: bytes) {
    0 < |piece| <= Wanted(r) - |r.data|
  }

  /** One socket read: the part it completes, if any, is checked and handled. */
  function ReadStep(r: Reader, piece: bytes, g: Gate): (Reader, Option<Wire>)
    requires Reading(r) && Answers(r, piece)
  {
    var data := r.data + piece;
    if |data| < Wanted(r) then (r.(data := data), None)
    else if !r.inBody then
      var id, len := Word(data[0], data[1]), Word(data[2], data[3]);
      if ServerRule(id, len) && HeadPasses(g) then (Reader([], true, id, len, false), None)
      else (Reader(data, false, id, len, true), None)
    else if BodyPasses(g, r.id) then (Reader([], false, r.id, r.len, false), Some(Frame(r.id, data)))
    else (r.(data := data, closed := true), None)
  }

  /** The read completes a part whose gate is shut. */
  predicate GateFails(r: Reader, piece: bytes, g: Gate) {
    |r.data| + |piece| == Wanted(r) && !(if r.inBody then BodyPasses(g, r.id) else HeadPasses(g))
  }

  /** The bytes decode as one stream with what was read before; at most one frame is completed,
      and it is dispatched unless its gate is shut. */
  lemma ReadStepDecodes(r: Reader, piece: bytes, g: Gate)
    requires Reading(r) && Answers(r, piece)
    ensures var (r', frame) := ReadStep(r, piece, g);
            var d := Decode(ServerRule, Unread(r) + piece);
            && |d.frames| <= 1 && (d.frames != [] ==> !d.bad && d.frames[0].id == r.id)
            && (r'.closed <==> d.bad || GateFails(r, piece, g))
            && frame == (if d.frames != [] && !r'.closed then Some(d.frames[0]) else None)
            && (!r'.closed ==> Reading(r') && Unread(r') == d.rest)
            && (d.frames != [] <==> |r.data| + |piece| == Wanted(r) && r.inBody)
  {
    hide Decode, ServerRule;
    var data := r.data + piece;
    if |data| < Wanted(r) {
      assert Unread(r.(data := data)) == Unread(r) + piece;
      ReadingIsPartial(r.(data := data));
    } else if !r.inBody {
      HeadRead(data);
      RuleOfServer(Word(data[0], data[1]), Word(data[2], data[3]));
    } else {
      BodyRead(r.id, data);
      assert Unread(r) + piece == Header(r.id, |data|) + data;
    }
  }

  lemma ReadingIsPartial(r: Reader)
    requires Reading(r)
    ensures Partial(ServerRule, Unread(r))
  {
    if r.inBody {
      ShortBody(ServerRule, r.id, r.len, r.data);
    }
  }

  /** A read that completes a header: refused, or its body is awaited. */
  lemma HeadRead(data: bytes)
    requires |data| == HEAD
    ensures var id, len := Word(data[0], data[1]), Word(data[2], data[3]);
            && data == Header(id, len) + []
            && (ServerRule(id, len) ==> Partial(ServerRule, data))
            && (!ServerRule(id, len) ==> Decode(ServerRule, data) == Decoded([], true, data))
  {
    HeaderWrites(data);
  }

  lemma BodyRead(id: nat, body: bytes)
    requires id < 0x1_0000 && |body| < 0x1_0000 && ServerRule(id, |body|)
    ensures Decode(ServerRule, Header(id, |body|) + body) == Decoded([Frame(id, body)], false, [])
  {
    hide Decode, ServerRule;
    ShortHead(ServerRule, []);
    DecodeOne(ServerRule, Frame(id, body), []);
    assert Encode(Frame(id, body)) + [] == Header(id, |body|) + body;
  }

  class ServerReader {
    var data: bytes
    var inBody: bool
    var id: nat
    var len: nat
    var closed: bool

    function State(): Reader
      reads this
    {
      Reader(data, inBody, id, len, closed)
    }

    constructor ()
      ensures Reading(State()) && Unread(State()) == []
    {
      data, inBody, id, len, closed := [], false, 0, 0, false;
    }

    /** One completed socket read. */
    method ReadSome(piece: bytes, gate: Gate) returns (frame: Option<Wire>)
      requires Reading(State()) && Answers(State(), piece)
      modifies this
      ensures (State(), frame) == ReadStep(old(State()), piece, gate)
    {
      data := data + piece;
      frame := None;
      if |data| < Wanted(State()) {
        return;
      }
      if !inBody {
        id, len := Word(data[0], data[1]), Word(data[2], data[3]);
        if !gate.registered || !ServerRule(id, len) || !gate.budget {
          closed := true;
          return;
        }
        data, inBody := [], true;
      } else {
        if !gate.registered || (id != 1005 && !gate.loggedIn) || FileTransfer(id) || !gate.room {
          closed := true;
          return;
        }
        frame := Some(Frame(id, data));
        data, inBody := [], false;
      }
    }
  }

  lemma RuleOfServer(id: nat, len: nat)
    ensures ServerRule(id, len) ==> len > 0
  {
  }
}
