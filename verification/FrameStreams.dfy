/** Whole streams: what a receiver dispatches depends on the bytes sent, not on how they arrive. */
module FrameStreams {
  import opened Bytes
  import opened Frames
  import opened FrameParsers

  /** Frames dispatched, bytes still undecoded, and whether the connection was dropped. */
  datatype Received = Received(frames: seq<Wire>, left: bytes, dead: bool)

  function Flat(chunks: seq<bytes>): bytes {
    if chunks == [] then [] else chunks[0] + Flat(chunks[1..])
  }

  /** One read of a receiver without a buffer limit; what a decoder with such a buffer must agree with. */
  function Feed(rule: Rule, left: bytes, chunk: bytes): Received {
    var d := Decode(rule, left + chunk);
    Received(d.frames, d.rest, d.bad)
  }

  function FeedAll(rule: Rule, left: bytes, chunks: seq<bytes>): Received
    decreases chunks
  {
    if chunks == [] then Received([], left, false)
    else
      var r := Feed(rule, left, chunks[0]);
      if r.dead then r else
        var s := FeedAll(rule, r.left, chunks[1..]);
        s.(frames := r.frames + s.frames)
  }

  /** One read of the client's parser. */
  function ClientFeed(left: bytes, chunk: bytes): Received {
    if Overflows(left, chunk) then Received([], left, true) else Feed(ClientRule, left, chunk)
  }

  function ClientFeedAll(left: bytes, chunks: seq<bytes>): Received
    decreases chunks
  {
    if chunks == [] then Received([], left, false)
    else
      var r := ClientFeed(left, chunks[0]);
      if r.dead then r else
        var s := ClientFeedAll(r.left, chunks[1..]);
        s.(frames := r.frames + s.frames)
  }

  /** No read takes the client's buffer over its budget. */
  predicate AllFit(left: bytes, chunks: seq<bytes>)
    decreases chunks
  {
    chunks != [] ==>
      && !Overflows(left, chunks[0])
      && (ClientFeed(left, chunks[0]).dead || AllFit(ClientFeed(left, chunks[0]).left, chunks[1..]))
  }

  lemma FeedKeepsPartial(rule: Rule, left: bytes, chunk: bytes)
    ensures Feed(rule, left, chunk).dead || Partial(rule, Feed(rule, left, chunk).left)
  {
    DecodeIsExact(rule, left + chunk);
  }

  /** However the stream is cut up, the same frames are dispatched, the connection survives in
      the same cases, and the same bytes are left over. */
  lemma {:induction false} ChunkingDoesNotMatter(rule: Rule, left: bytes, chunks: seq<bytes>)
    requires Partial(rule, left)
    ensures var r, d := FeedAll(rule, left, chunks), Decode(rule, left + Flat(chunks));
            r.frames == d.frames && r.dead == d.bad && (!r.dead ==> r.left == d.rest)
    decreases chunks
  {
    hide Decode;
    if chunks == [] {
      assert left + Flat(chunks) == left;
    } else {
      var first, more := left + chunks[0], Flat(chunks[1..]);
      assert left + Flat(chunks) == first + more;
      if Decode(rule, first).bad {
        BadStaysBad(rule, first, more);
      } else {
        DecodeAppend(rule, first, more);
        FeedKeepsPartial(rule, left, chunks[0]);
        ChunkingDoesNotMatter(rule, Decode(rule, first).rest, chunks[1..]);
      }
    }
  }

  lemma {:induction false} FittingReads(left: bytes, chunks: seq<bytes>)
    requires AllFit(left, chunks)
    ensures ClientFeedAll(left, chunks) == FeedAll(ClientRule, left, chunks)
    decreases chunks
  {
    hide Decode, ClientRule;
    if chunks != [] && !ClientFeed(left, chunks[0]).dead {
      FittingReads(ClientFeed(left, chunks[0]).left, chunks[1..]);
    }
  }

  lemma {:induction false} OverflowKills(left: bytes, chunks: seq<bytes>)
    requires !AllFit(left, chunks)
    ensures ClientFeedAll(left, chunks).dead
    decreases chunks
  {
    hide Decode, ClientRule;
    if !Overflows(left, chunks[0]) {
      OverflowKills(ClientFeed(left, chunks[0]).left, chunks[1..]);
    }
  }

  /** The client survives a well-formed stream exactly when no read overflows its buffer. */
  lemma ClientSurvives(left: bytes, chunks: seq<bytes>)
    requires Partial(ClientRule, left) && !Decode(ClientRule, left + Flat(chunks)).bad
    ensures !ClientFeedAll(left, chunks).dead <==> AllFit(left, chunks)
    ensures AllFit(left, chunks) ==> ClientFeedAll(left, chunks).frames == Decode(ClientRule, left + Flat(chunks)).frames
  {
    hide Decode, Partial;
    if AllFit(left, chunks) {
      FittingReads(left, chunks);
      ChunkingDoesNotMatter(ClientRule, left, chunks);
    } else {
      OverflowKills(left, chunks);
    }
  }

  /** What a live client holds back is shorter than the longest frame it admits. */
  lemma LeftoverBound(left: bytes)
    requires Partial(ClientRule, left)
    ensures Buffered(left) < 65535
  {
  }

  /** Reads of up to 196610 bytes never overflow. */
  lemma {:induction false} SmallReadsFit(left: bytes, chunks: seq<bytes>)
    requires Partial(ClientRule, left) && forall c :: c in chunks ==> |c| <= BUDGET - 65534
    ensures AllFit(left, chunks)
    decreases chunks
  {
    hide Decode, ClientRule;
    if chunks != [] {
      LeftoverBound(left);
      FeedKeepsPartial(ClientRule, left, chunks[0]);
      if !ClientFeed(left, chunks[0]).dead {
        SmallReadsFit(ClientFeed(left, chunks[0]).left, chunks[1..]);
      }
    }
  }

  lemma EmptyIsPartial(rule: Rule)
    ensures Partial(rule, []) && Decode(rule, []) == Decoded([], false, [])
  {
  }

  /** Chunking does matter at the budget: good frames that all arrive in one read of more than
      256 KiB are lost, though the same bytes in smaller reads are all dispatched. */
  lemma OneBigRead(frames: seq<Wire>, small: seq<bytes>)
    requires Admitted(ClientRule, frames) && |EncodeAll(frames)| > BUDGET
    requires Flat(small) == EncodeAll(frames) && forall c :: c in small ==> |c| <= BUDGET - 65534
    ensures ClientFeedAll([], [EncodeAll(frames)]) == Received([], [], true)
    ensures ClientFeedAll([], small) == Received(frames, [], false)
  {
    hide Decode, ClientRule, EncodeAll, Flat;
    EmptyIsPartial(ClientRule);
    SmallReadsFit([], small);
    FittingReads([], small);
    ChunkingDoesNotMatter(ClientRule, [], small);
    WholeStream(ClientRule, frames);
    assert [] + Flat(small) == EncodeAll(frames);
  }

  lemma WholeStream(rule: Rule, frames: seq<Wire>)
    requires Admitted(rule, frames)
    ensures Decode(rule, EncodeAll(frames)) == Decoded(frames, false, [])
  {
    hide Decode, EncodeAll;
    DecodeEncodes(rule, frames, []);
    EmptyIsPartial(rule);
    AfterEnd(frames, false, []);
    assert EncodeAll(frames) + [] == EncodeAll(frames);
  }

  /** The index of the first frame the receiver refuses. */
  function FirstRefused(rule: Rule, frames: seq<Wire>): (k: nat)
    ensures k <= |frames|
  {
    if frames == [] || !rule(frames[0].id, |frames[0].body|) then 0 else 1 + FirstRefused(rule, frames[1..])
  }

  lemma {:induction false} FirstRefusedSplits(rule: Rule, frames: seq<Wire>)
    ensures var k := FirstRefused(rule, frames);
            && Admitted(rule, frames[..k])
            && (k < |frames| ==> !rule(frames[k].id, |frames[k].body|))
  {
    if frames != [] && rule(frames[0].id, |frames[0].body|) {
      FirstRefusedSplits(rule, frames[1..]);
      var k := FirstRefused(rule, frames[1..]);
      assert frames[..k + 1] == [frames[0]] + frames[1..][..k];
    }
  }

  lemma RefusedFrame(rule: Rule, f: Wire, tail: bytes)
    requires !rule(f.id, |f.body|)
    ensures Decode(rule, Encode(f) + tail) == Decoded([], true, Encode(f) + tail)
  {
    assert Encode(f) + tail == Header(f.id, |f.body|) + (f.body + tail);
    HeaderReads(f.id, |f.body|, f.body + tail);
  }

  /** Exactly the frames before the first refused one are dispatched, and the connection is
      dropped there. */
  lemma DispatchedPrefix(rule: Rule, frames: seq<Wire>)
    ensures var d, k := Decode(rule, EncodeAll(frames)), FirstRefused(rule, frames);
            d.frames == frames[..k] && (d.bad <==> k < |frames|) && (k == |frames| ==> d.rest == [])
  {
    hide Decode, Encode;
    var k := FirstRefused(rule, frames);
    FirstRefusedSplits(rule, frames);
    assert frames == frames[..k] + frames[k..];
    EncodeAllAppend(frames[..k], frames[k..]);
    DecodeEncodes(rule, frames[..k], EncodeAll(frames[k..]));
    if k < |frames| {
      RefusedFrame(rule, frames[k], EncodeAll(frames[k + 1..]));
    } else {
      EmptyIsPartial(rule);
    }
  }

  /** A socket read at the server and the state of the gates when it completes. */
  datatype Arrival = Arrival(piece: bytes, gate: Gate)

  function Pieces(arrivals: seq<Arrival>): seq<bytes> {
    if arrivals == [] then [] else [arrivals[0].piece] + Pieces(arrivals[1..])
  }

  /** The reads as the reader asks for them; a closed session reads no more. */
  predicate Asked(r: Reader, arrivals: seq<Arrival>)
    requires r.closed || Reading(r)
    decreases arrivals
  {
    r.closed || arrivals == [] ||
    (Answers(r, arrivals[0].piece) &&
     var r' := ReadStep(r, arrivals[0].piece, arrivals[0].gate).0;
     StepGoesOn(r, arrivals[0].piece, arrivals[0].gate);
     Asked(r', arrivals[1..]))
  }

  lemma StepGoesOn(r: Reader, piece: bytes, g: Gate)
    requires Reading(r) && Answers(r, piece)
    ensures var r' := ReadStep(r, piece, g).0; r'.closed || Reading(r')
  {
    hide Decode;
    ReadStepDecodes(r, piece, g);
  }

  /** The whole run of a session's reader: its last state and what it dispatched. */
  function ReadAll(r: Reader, arrivals: seq<Arrival>): (Reader, seq<Wire>)
    requires (r.closed || Reading(r)) && Asked(r, arrivals)
    decreases arrivals
  {
    if r.closed || arrivals == [] then (r, [])
    else
      var (r', frame) := ReadStep(r, arrivals[0].piece, arrivals[0].gate);
      StepGoesOn(r, arrivals[0].piece, arrivals[0].gate);
      var (end, frames) := ReadAll(r', arrivals[1..]);
      (end, (if frame.Some? then [frame.value] else []) + frames)
  }

  /** Some part completed by the run met a shut gate. */
  predicate SomeGateFails(r: Reader, arrivals: seq<Arrival>)
    requires (r.closed || Reading(r)) && Asked(r, arrivals)
    decreases arrivals
  {
    !r.closed && arrivals != [] &&
    (GateFails(r, arrivals[0].piece, arrivals[0].gate) ||
     (StepGoesOn(r, arrivals[0].piece, arrivals[0].gate);
      SomeGateFails(ReadStep(r, arrivals[0].piece, arrivals[0].gate).0, arrivals[1..])))
  }

  /** The stream a reader has still to decode. */
  function Stream(r: Reader, arrivals: seq<Arrival>): bytes
    requires Reading(r)
  {
    Unread(r) + Flat(Pieces(arrivals))
  }

  /** What one read does to the stream's decoding. */
  lemma StreamStep(r: Reader, arrivals: seq<Arrival>)
    requires Reading(r) && arrivals != [] && Answers(r, arrivals[0].piece)
    ensures var first := Decode(ServerRule, Unread(r) + arrivals[0].piece);
            var d := Decode(ServerRule, Stream(r, arrivals));
            var r' := ReadStep(r, arrivals[0].piece, arrivals[0].gate).0;
            && first.frames <= d.frames
            && (first.bad ==> d.bad && d.frames == first.frames)
            && (!r'.closed ==> Reading(r') && d == After(first.frames, Decode(ServerRule, Stream(r', arrivals[1..]))))
  {
    hide Decode, ServerRule, ReadStep;
    var piece, more := arrivals[0].piece, Flat(Pieces(arrivals[1..]));
    assert Flat(Pieces(arrivals)) == piece + more;
    assert Stream(r, arrivals) == Unread(r) + piece + more;
    ReadStepDecodes(r, piece, arrivals[0].gate);
    if Decode(ServerRule, Unread(r) + piece).bad {
      BadStaysBad(ServerRule, Unread(r) + piece, more);
    } else {
      DecodeAppend(ServerRule, Unread(r) + piece, more);
    }
  }

  /** The server end, over any cutting of the stream and any gates: what is dispatched is a prefix
      of the stream's frames; the session closes exactly when a header is refused or a gate is
      shut; and while it is open everything so far has been dispatched. */
  lemma {:induction false} ServerDispatches(r: Reader, arrivals: seq<Arrival>)
    requires Reading(r) && Asked(r, arrivals)
    ensures var (end, frames) := ReadAll(r, arrivals);
            var d := Decode(ServerRule, Stream(r, arrivals));
            && frames <= d.frames
            && (end.closed <==> d.bad || SomeGateFails(r, arrivals))
            && (!end.closed ==> Reading(end) && frames == d.frames && Unread(end) == d.rest)
    decreases arrivals
  {
    hide Decode, ServerRule, ReadStep, GateFails, Answers;
    if arrivals == [] {
      ReadingIsPartial(r);
      assert Stream(r, arrivals) == Unread(r);
    } else {
      var piece, gate := arrivals[0].piece, arrivals[0].gate;
      StepGoesOn(r, piece, gate);
      ReadStepDecodes(r, piece, gate);
      StreamStep(r, arrivals);
      var r' := ReadStep(r, piece, gate).0;
      if !r'.closed {
        ServerDispatches(r', arrivals[1..]);
      }
    }
  }

  predicate Open(g: Gate) {
    g.registered && g.budget && g.loggedIn && g.room
  }

  /** The index of the first file-transfer frame. */
  function FirstFile(frames: seq<Wire>): (k: nat)
    ensures k <= |frames|
  {
    if frames == [] || FileTransfer(frames[0].id) then 0 else 1 + FirstFile(frames[1..])
  }

  lemma FirstFileAfter(f: Wire, frames: seq<Wire>)
    ensures !FileTransfer(f.id) ==> FirstFile([f] + frames) == 1 + FirstFile(frames) && ([f] + frames)[..1 + FirstFile(frames)] == [f] + frames[..FirstFile(frames)]
    ensures FileTransfer(f.id) ==> FirstFile([f] + frames) == 0
  {
    assert ([f] + frames)[1..] == frames;
  }

  lemma OpenGates(r: Reader, piece: bytes, g: Gate)
    requires Reading(r) && Open(g)
    ensures GateFails(r, piece, g) <==> |r.data| + |piece| == Wanted(r) && r.inBody && FileTransfer(r.id)
  {
  }

  /** With every other gate open, the frames before the first file-transfer frame are dispatched,
      and the session closes exactly at that frame or at a refused header. */
  lemma {:induction false} OpenGatesDispatch(r: Reader, arrivals: seq<Arrival>)
    requires Reading(r) && Asked(r, arrivals) && forall a :: a in arrivals ==> Open(a.gate)
    ensures var (end, frames) := ReadAll(r, arrivals);
            var d := Decode(ServerRule, Stream(r, arrivals));
            var k := FirstFile(d.frames);
            frames == d.frames[..k] && (end.closed <==> d.bad || k < |d.frames|)
    decreases arrivals
  {
    hide Decode, ServerRule, ReadStep, GateFails, Answers, FirstFile;
    if arrivals == [] {
      ReadingIsPartial(r);
      assert Stream(r, arrivals) == Unread(r);
      NoFile();
    } else {
      var piece, gate := arrivals[0].piece, arrivals[0].gate;
      StepGoesOn(r, piece, gate);
      ReadStepDecodes(r, piece, gate);
      StreamStep(r, arrivals);
      OpenGates(r, piece, gate);
      var r' := ReadStep(r, piece, gate).0;
      var first, d := Decode(ServerRule, Unread(r) + piece), Decode(ServerRule, Stream(r, arrivals));
      if !r'.closed {
        OpenGatesDispatch(r', arrivals[1..]);
        var rest := Decode(ServerRule, Stream(r', arrivals[1..]));
        if first.frames != [] {
          assert first.frames == [first.frames[0]];
          FirstFileAfter(first.frames[0], rest.frames);
        } else {
          assert first.frames + rest.frames == rest.frames;
        }
      } else if first.bad {
        NoFile();
      } else {
        assert d.frames == [first.frames[0]] + d.frames[1..];
        FirstFileAfter(first.frames[0], d.frames[1..]);
      }
    }
  }

  lemma NoFile()
    ensures FirstFile([]) == 0
  {
  }

  /** A session's reader before its first byte. */
  const START := Reader([], false, 0, 0, false)

  /** Client to server.  Of the request frames the client agrees to write, however the network cuts
      the stream and with every gate open, exactly those before the first file-transfer frame are
      dispatched, in order; the session stays open exactly when there is none. */
  lemma ClientToServer(frames: seq<Wire>, arrivals: seq<Arrival>)
    requires forall f :: f in frames ==> ClientRequest(f.id) && WriteAllowed(f.id, |f.body|)
    requires Asked(START, arrivals) && forall a :: a in arrivals ==> Open(a.gate)
    requires Flat(Pieces(arrivals)) == EncodeAll(frames)
    ensures var (end, got) := ReadAll(START, arrivals);
            got == frames[..FirstFile(frames)] && (!end.closed <==> FirstFile(frames) == |frames|)
  {
    hide Decode, EncodeAll, Flat, Pieces, ReadAll, Asked, FirstFile, ServerRule, Open, Stream, Admitted;
    OpenGatesDispatch(START, arrivals);
    StreamFromStart(arrivals);
    WrittenAreAdmitted(frames);
    WholeStream(ServerRule, frames);
  }

  lemma StreamFromStart(arrivals: seq<Arrival>)
    ensures Stream(START, arrivals) == Flat(Pieces(arrivals))
  {
    hide Flat, Pieces;
    assert [] + Flat(Pieces(arrivals)) == Flat(Pieces(arrivals));
  }

  /** The client's and the server's limits agree. */
  lemma WrittenAreAdmitted(frames: seq<Wire>)
    requires forall f :: f in frames ==> ClientRequest(f.id) && WriteAllowed(f.id, |f.body|)
    ensures Admitted(ServerRule, frames)
  {
  }

  lemma {:induction false} NoFileFrames(frames: seq<Wire>)
    ensures FirstFile(frames) == |frames| <==> forall f :: f in frames ==> !FileTransfer(f.id)
  {
    if frames != [] {
      NoFileFrames(frames[1..]);
      assert frames == [frames[0]] + frames[1..];
    }
  }

  /** So a file-transfer frame that the client agrees to write closes its session undispatched. */
  lemma FileFrameCloses(f: Wire, arrivals: seq<Arrival>)
    requires ClientRequest(f.id) && FileTransfer(f.id) && WriteAllowed(f.id, |f.body|)
    requires Asked(START, arrivals) && forall a :: a in arrivals ==> Open(a.gate)
    requires Flat(Pieces(arrivals)) == Encode(f)
    ensures ReadAll(START, arrivals).0.closed && ReadAll(START, arrivals).1 == []
  {
    hide Decode, Flat, Pieces, ReadAll, Asked;
    assert EncodeAll([f]) == Encode(f);
    ClientToServer([f], arrivals);
  }

  /** The other direction has no such match: what the server sends is dispatched whole exactly
      when the client admits every frame. */
  lemma ServerToClient(frames: seq<Wire>, chunks: seq<bytes>)
    requires Flat(chunks) == EncodeAll(frames) && AllFit([], chunks)
    ensures var r := ClientFeedAll([], chunks);
            && r.frames == frames[..FirstRefused(ClientRule, frames)]
            && (!r.dead <==> Admitted(ClientRule, frames))
  {
    hide Decode, EncodeAll, Flat, ClientRule;
    EmptyIsPartial(ClientRule);
    FittingReads([], chunks);
    ChunkingDoesNotMatter(ClientRule, [], chunks);
    assert [] + Flat(chunks) == EncodeAll(frames);
    DispatchedPrefix(ClientRule, frames);
    FirstRefusedSplits(ClientRule, frames);
    assert frames[..|frames|] == frames;
  }

  /** The event loop of the client's socket: each read goes to the parser until it aborts. */
  method ReceiveAll(parser: ClientParser, chunks: seq<bytes>) returns (frames: seq<Wire>)
    requires Waiting(parser.State())
    modifies parser
    ensures Consistent(parser.State())
    ensures var r := ClientFeedAll(old(Leftover(parser.State())), chunks);
            frames == r.frames && parser.aborted == r.dead && (!parser.aborted ==> Waiting(parser.State()) && Leftover(parser.State()) == r.left)
  {
    hide Decode, ClientRule, Overflows;
    frames := [];
    ghost var left := Leftover(parser.State());
    ghost var whole := ClientFeedAll(left, chunks);
    assert whole.(frames := [] + whole.frames) == whole;
    var i := 0;
    while i < |chunks|
      invariant 0 <= i <= |chunks| && Waiting(parser.State())
      invariant var more := ClientFeedAll(Leftover(parser.State()), chunks[i..]); whole == more.(frames := frames + more.frames)
    {
      ghost var before := Leftover(parser.State());
      assert chunks[i..][0] == chunks[i] && chunks[i..][1..] == chunks[i + 1..];
      var got := parser.ReadyRead(chunks[i]);
      ghost var r := ClientFeed(before, chunks[i]);
      assert got == r.frames && parser.aborted == r.dead;
      frames := frames + got;
      i := i + 1;
      if parser.aborted {
        return;
      }
    }
    assert chunks[i..] == [];
  }

  /** The server session's read loop. */
  method ServeAll(reader: ServerReader, arrivals: seq<Arrival>) returns (frames: seq<Wire>)
    requires Reading(reader.State()) && Asked(reader.State(), arrivals)
    modifies reader
    ensures reader.State() == ReadAll(old(reader.State()), arrivals).0 && frames == ReadAll(old(reader.State()), arrivals).1
  {
    hide Reading, Answers, ReadStep, Asked, ReadAll, Serving;
    frames := [];
    ghost var (end, all) := ReadAll(reader.State(), arrivals);
    ServingStarts(reader.State(), arrivals);
    var i := 0;
    while i < |arrivals| && !reader.closed
      invariant 0 <= i <= |arrivals| && Serving(reader.State(), arrivals, i, frames, end, all)
      decreases |arrivals| - i
    {
      ServingTurn(reader.State(), arrivals, i, frames, end, all);
      var frame := reader.ReadSome(arrivals[i].piece, arrivals[i].gate);
      frames := frames + (if frame.Some? then [frame.value] else []);
      i := i + 1;
    }
    ServingEnds(reader.State(), arrivals, i, frames, end, all);
  }

  /** The read loop before read `i`: `frames` are out, and the rest of the run ends in `end` with
      `all` dispatched. */
  ghost predicate Serving(r: Reader, arrivals: seq<Arrival>, i: nat, frames: seq<Wire>, end: Reader, all: seq<Wire>) {
    && i <= |arrivals| && (r.closed || Reading(r)) && Asked(r, arrivals[i..])
    && var (end', more) := ReadAll(r, arrivals[i..]); end == end' && all == frames + more
  }

  lemma ServingStarts(r: Reader, arrivals: seq<Arrival>)
    requires Reading(r) && Asked(r, arrivals)
    ensures Serving(r, arrivals, 0, [], ReadAll(r, arrivals).0, ReadAll(r, arrivals).1)
  {
    hide Reading, Asked, ReadAll;
    assert arrivals[0..] == arrivals;
    assert [] + ReadAll(r, arrivals).1 == ReadAll(r, arrivals).1;
  }

  lemma ServingTurn(r: Reader, arrivals: seq<Arrival>, i: nat, frames: seq<Wire>, end: Reader, all: seq<Wire>)
    requires Serving(r, arrivals, i, frames, end, all) && i < |arrivals| && !r.closed
    ensures Reading(r) && Answers(r, arrivals[i].piece)
    ensures var (r', frame) := ReadStep(r, arrivals[i].piece, arrivals[i].gate);
            Serving(r', arrivals, i + 1, frames + (if frame.Some? then [frame.value] else []), end, all)
  {
    hide Reading, Answers, ReadStep, Asked, ReadAll;
    var rest := arrivals[i..];
    assert rest[0] == arrivals[i];
    assert rest[1..] == arrivals[i + 1..];
    ReadAllTurn(r, rest);
    var (r', frame) := ReadStep(r, rest[0].piece, rest[0].gate);
    var added := if frame.Some? then [frame.value] else [];
    Associative(frames, added, ReadAll(r', rest[1..]).1);
  }

  lemma Associative<T>(a: seq<T>, b: seq<T>, c: seq<T>)
    ensures a + (b + c) == a + b + c
  {
  }

  lemma ServingEnds(r: Reader, arrivals: seq<Arrival>, i: nat, frames: seq<Wire>, end: Reader, all: seq<Wire>)
    requires Serving(r, arrivals, i, frames, end, all) && (i == |arrivals| || r.closed)
    ensures r == end && frames == all
  {
    hide Reading, Asked;
    assert frames + [] == frames;
  }

  lemma ReadAllTurn(r: Reader, arrivals: seq<Arrival>)
    requires !r.closed && Reading(r) && Asked(r, arrivals) && arrivals != []
    ensures Answers(r, arrivals[0].piece)
    ensures var (r', frame) := ReadStep(r, arrivals[0].piece, arrivals[0].gate);
            && (r'.closed || Reading(r')) && Asked(r', arrivals[1..])
            && ReadAll(r, arrivals).0 == ReadAll(r', arrivals[1..]).0
            && ReadAll(r, arrivals).1 == (if frame.Some? then [frame.value] else []) + ReadAll(r', arrivals[1..]).1
  {
    hide Reading, Answers, ReadStep;
    StepGoesOn(r, arrivals[0].piece, arrivals[0].gate);
  }
}
