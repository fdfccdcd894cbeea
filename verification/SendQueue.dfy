/** The server session's outgoing queue.  `Send` may be called from any thread; the writes run
    on the session's executor, one at a time.  `Close` touches neither the queue nor the byte
    count, so a close between a sender's check and its push is the same as one after the push,
    and every locked section is one step. */
module SendQueue {
  import opened Bytes
  import opened Frames
  import opened FrameParsers
  import opened FrameStreams
  import opened Messages
  import opened Runs

  const MAX_QUEUE := 1000
  const BYTE_LIMIT := 4 * 1024 * 1024

  /** `queue`, `bytes` and `closed` are the session's fields; `posted` counts write starts waiting
      on the executor, `writing` says a write is in flight, `accepted` lists what `Send` took,
      `wire` is what left the socket and `broken` says that a write failed. */
  datatype Sender = Sender(queue: seq<Wire>, bytes: nat, closed: bool, posted: nat, writing: bool,
                           accepted: seq<Wire>, wire: bytes, broken: bool)

  datatype Event =
    | Send(id: nat, body: bytes)
    | StartWrite
    | WriteDone
    | WriteFailed(sent: nat)     // bytes of the front frame that still got out
    | Close

  function FrameBytes(f: Wire): nat {
    |f.body| + HEAD
  }

  function QueueBytes(queue: seq<Wire>): nat {
    if queue == [] then 0 else FrameBytes(queue[0]) + QueueBytes(queue[1..])
  }

  /** Subtraction of two size_t values. */
  function Minus(a: nat, b: nat): nat {
    if b <= a then a - b else (a - b) % 0x1_0000_0000_0000_0000
  }

  predicate Full(s: Sender, bodyLength: nat) {
    |s.queue| >= MAX_QUEUE || bodyLength + HEAD > Minus(BYTE_LIMIT, s.bytes)
  }

  predicate Accepts(s: Sender, id: nat, body: bytes) {
    |body| <= 65535 && !s.closed && !Full(s, |body|)
  }

  predicate Enabled(s: Sender, e: Event) {
    match e
    case Send(id, _) => id < 0x1_0000
    case StartWrite => s.posted > 0
    case WriteDone => s.writing && s.queue != []
    case WriteFailed(n) => s.writing && s.queue != [] && n <= FrameBytes(s.queue[0])
    case Close => true
  }

  function Sent(s: Sender, id: nat, body: bytes): Sender
    requires id < 0x1_0000
  {
    if |body| > 65535 then s.(closed := true)
    else if !Accepts(s, id, body) then s
    else
      var f := Frame(id, body);
      s.(queue := s.queue + [f], bytes := s.bytes + FrameBytes(f), accepted := s.accepted + [f],
         posted := if s.queue == [] then s.posted + 1 else s.posted)
  }

  function Step(s: Sender, e: Event): Sender
    requires Enabled(s, e)
  {
    match e
    case Send(id, body) => Sent(s, id, body)
    case StartWrite => s.(posted := s.posted - 1, writing := if s.closed || s.queue == [] then s.writing else true)
    case WriteDone =>
      var f := s.queue[0];
      s.(queue := s.queue[1..], bytes := Minus(s.bytes, FrameBytes(f)),
         wire := s.wire + Encode(f), writing := |s.queue| > 1 && !s.closed)
    case WriteFailed(n) => s.(closed := true, writing := false, wire := s.wire + Encode(s.queue[0])[..n], broken := true)
    case Close => s.(closed := true)
  }

  ghost predicate Next(s: Sender, e: Event, s': Sender) {
    Enabled(s, e) && s' == Step(s, e)
  }

  const Initial := Sender([], 0, false, 0, false, [], [], false)

  /** The byte count is exact and both limits hold. */
  predicate Bounded(s: Sender) {
    s.bytes == QueueBytes(s.queue) <= BYTE_LIMIT && |s.queue| <= MAX_QUEUE
  }

  /** One writer at a time, and always one while an open session has something to send. */
  predicate OneWriter(s: Sender) {
    && s.posted + (if s.writing then 1 else 0) <= 1
    && (s.queue == [] ==> s.posted == 0 && !s.writing)
    && (s.queue != [] && !s.closed ==> s.posted == 1 || s.writing)
    && (s.broken ==> s.closed && !s.writing && s.posted == 0)
  }

  /** The accepted frames are those already on the wire, then the queue. */
  predicate InOrder(s: Sender) {
    && |s.queue| <= |s.accepted| && s.queue == s.accepted[|s.accepted| - |s.queue|..]
    && var out := EncodeAll(s.accepted[..|s.accepted| - |s.queue|]);
       if s.broken then s.queue != [] && out <= s.wire <= out + Encode(s.queue[0]) else s.wire == out
  }

  predicate Inv(s: Sender) {
    Bounded(s) && OneWriter(s) && InOrder(s)
  }

  lemma {:induction false} QueueBytesAppend(queue: seq<Wire>, f: Wire)
    ensures QueueBytes(queue + [f]) == QueueBytes(queue) + FrameBytes(f)
  {
    if queue == [] {
      assert queue + [f] == [f];
    } else {
      assert (queue + [f])[0] == queue[0] && (queue + [f])[1..] == queue[1..] + [f];
      QueueBytesAppend(queue[1..], f);
    }
  }

  lemma EncodeOneMore(frames: seq<Wire>, f: Wire)
    ensures EncodeAll(frames + [f]) == EncodeAll(frames) + Encode(f)
  {
    EncodeAllAppend(frames, [f]);
    assert EncodeAll([f]) == Encode(f);
  }

  lemma SendKeeps(s: Sender, id: nat, body: bytes)
    requires Inv(s) && id < 0x1_0000
    ensures Inv(Sent(s, id, body))
  {
    if Accepts(s, id, body) {
      var f := Frame(id, body);
      QueueBytesAppend(s.queue, f);
      var s' := Sent(s, id, body);
      var n := |s.accepted| - |s.queue|;
      assert s'.accepted[..n] == s.accepted[..n];
      assert s'.queue == s'.accepted[n..];
    }
  }

  lemma WriteDoneKeeps(s: Sender)
    requires Inv(s) && Enabled(s, WriteDone)
    ensures Inv(Step(s, WriteDone))
  {
    var n := |s.accepted| - |s.queue|;
    assert s.accepted[..n + 1] == s.accepted[..n] + [s.queue[0]];
    EncodeOneMore(s.accepted[..n], s.queue[0]);
    assert s.queue[1..] == s.accepted[n + 1..];
  }

  lemma StepKeeps(s: Sender, e: Event, s': Sender)
    requires Inv(s) && Next(s, e, s')
    ensures Inv(s')
  {
    match e
    case Send(id, body) => SendKeeps(s, id, body);
    case WriteDone => WriteDoneKeeps(s);
    case WriteFailed(n) => assert Encode(s.queue[0])[..n] <= Encode(s.queue[0]);
    case _ =>
  }

  type Run = seq<Transition<Event, Sender>>

  /** Over every interleaving of senders, writes, failures and closes. */
  lemma QueueRefinesFifo(run: Run)
    requires IsRun(Next, Initial, run)
    ensures Inv(Final(Initial, run))
  {
    hide Next, Inv;
    InitialInv();
    forall a, e, b | Inv(a) && Next(a, e, b) ensures Inv(b) { StepKeeps(a, e, b); }
    InvariantHolds(Next, Inv, Initial, run);
  }

  lemma InitialInv()
    ensures Inv(Initial)
  {
  }

  /** Frames leave in the order they were accepted, each at most once and never interleaved: the
      wire is a prefix of their encodings, and all of it once the queue is empty. */
  lemma WireIsPrefix(s: Sender)
    requires Inv(s)
    ensures s.wire <= EncodeAll(s.accepted)
    ensures s.queue == [] ==> s.wire == EncodeAll(s.accepted)
  {
    var n := |s.accepted| - |s.queue|;
    assert s.accepted == s.accepted[..n] + s.queue;
    EncodeAllAppend(s.accepted[..n], s.queue);
  }

  lemma PrefixTail(a: bytes, b: bytes) returns (tail: bytes)
    requires a <= b
    ensures b == a + tail
  {
    tail := b[|a|..];
  }

  /** A receiver that has seen less of a stream has dispatched a prefix of the frames. */
  lemma LessSeenLessDispatched(rule: Rule, seen: bytes, all: bytes)
    requires seen <= all
    ensures Decode(rule, seen).frames <= Decode(rule, all).frames
  {
    hide Decode;
    var tail := PrefixTail(seen, all);
    if Decode(rule, seen).bad {
      BadStaysBad(rule, seen, tail);
    } else {
      DecodeAppend(rule, seen, tail);
    }
  }

  /** End to end: at any moment of any run, whatever the client has dispatched from this
      connection is a prefix of what `Send` accepted. */
  lemma PeerDispatchesAcceptedPrefix(run: Run, chunks: seq<bytes>)
    requires IsRun(Next, Initial, run)
    requires Flat(chunks) <= Final(Initial, run).wire && AllFit([], chunks)
    ensures ClientFeedAll([], chunks).frames <= Final(Initial, run).accepted
  {
    hide Next, Inv, Decode, EncodeAll, Flat, AllFit, ClientRule, ClientFeedAll, FeedAll, IsRun;
    var s := Final(Initial, run);
    QueueRefinesFifo(run);
    WireIsPrefix(s);
    EmptyIsPartial(ClientRule);
    FittingReads([], chunks);
    ChunkingDoesNotMatter(ClientRule, [], chunks);
    assert [] + Flat(chunks) == Flat(chunks);
    LessSeenLessDispatched(ClientRule, Flat(chunks), EncodeAll(s.accepted));
    DispatchedPrefix(ClientRule, s.accepted);
  }

  /** An open session never stalls: its executor always has the next step, and taking these
      steps puts every accepted frame on the wire. */
  lemma {:induction false} FlushesAll(s: Sender) returns (run: Run)
    requires Inv(s) && !s.closed
    ensures IsRun(Next, s, run) && |run| <= 2 * |s.queue|
    ensures var t := Final(s, run); t.queue == [] && t.accepted == s.accepted && t.wire == EncodeAll(s.accepted)
    decreases |s.queue|, s.posted
  {
    hide Inv;
    if s.queue == [] {
      WireIsPrefix(s);
      return [];
    }
    OpenCanStep(s);
    var e := if s.posted > 0 then StartWrite else WriteDone;
    var s' := Step(s, e);
    StepKeeps(s, e, s');
    if e == StartWrite {
      var s'' := Step(s', WriteDone);
      StepKeeps(s', WriteDone, s'');
      var more := FlushesAll(s'');
      run := [Transition(e, s'), Transition(WriteDone, s'')] + more;
      assert run[1..][1..] == more && run[1..][0] == run[1];
      FinalOf(s, s'', run, more);
    } else {
      var more := FlushesAll(s');
      run := [Transition(e, s')] + more;
      assert run[1..] == more;
      FinalOf(s, s', run, more);
    }
  }

  lemma FinalOf(s: Sender, t: Sender, run: Run, more: Run)
    requires |more| < |run| && run[|run| - |more|..] == more && run[|run| - |more| - 1].after == t
    ensures Final(s, run) == Final(t, more)
  {
    if more != [] {
      assert run[|run| - 1] == run[|run| - |more|..][|more| - 1];
    }
  }

  lemma OpenCanStep(s: Sender)
    requires Inv(s) && !s.closed && s.queue != []
    ensures if s.posted > 0 then Step(s, StartWrite).writing else s.writing
  {
  }

  class Session {
    var queue: seq<Wire>
    var bytes: nat
    var closed: bool
    ghost var posted: nat
    ghost var writing: bool
    ghost var accepted: seq<Wire>
    ghost var wire: seq<byte>
    ghost var broken: bool

    ghost function State(): Sender
      reads this
    {
      Sender(queue, bytes, closed, posted, writing, accepted, wire, broken)
    }

    constructor ()
      ensures State() == Initial && Inv(State())
    {
      queue, bytes, closed := [], 0, false;
      posted, writing, accepted, wire, broken := 0, false, [], [], false;
    }

    /** True exactly when the frame was taken; an oversized body closes the session. */
    method Send(id: nat, body: seq<byte>) returns (ok: bool)
      requires Inv(State()) && id < 0x1_0000
      modifies this
      ensures Inv(State()) && State() == Step(old(State()), Event.Send(id, body))
      ensures ok <==> Accepts(old(State()), id, body)
      ensures accepted == old(accepted) + (if ok then [Frame(id, body)] else [])
    {
      hide Inv;
      SendKeeps(State(), id, body);
      if |body| > 65535 {
        closed := true;
        return false;
      }
      if closed {
        return false;
      }
      var depth := |queue|;
      var frameBytes := |body| + HEAD;
      if depth >= MAX_QUEUE || frameBytes > Minus(BYTE_LIMIT, bytes) {
        return false;
      }
      var f: Wire := Frame(id, body);
      queue := queue + [f];
      bytes := bytes + frameBytes;
      accepted := accepted + [f];
      if depth == 0 {
        posted := posted + 1;
      }
      return true;
    }

    /** Runs on the executor; yields the frame whose write is started. */
    method StartWrite() returns (frame: Option<Wire>)
      requires Inv(State()) && posted > 0
      modifies this
      ensures Inv(State()) && State() == Step(old(State()), Event.StartWrite)
      ensures frame == if closed || queue == [] then None else Some(queue[0])
    {
      hide Inv;
      StepKeeps(State(), Event.StartWrite, Step(State(), Event.StartWrite));
      posted := posted - 1;
      if closed || queue == [] {
        return None;
      }
      writing := true;
      return Some(queue[0]);
    }

    /** A write completed, or failed after `failure` of its bytes; yields the next one to start. */
    method HandleWrite(failure: Option<nat>) returns (next: Option<Wire>)
      requires Inv(State()) && writing && queue != []
      requires failure.Some? ==> failure.value <= FrameBytes(queue[0])
      modifies this
      ensures Inv(State())
      ensures State() == Step(old(State()), if failure.Some? then WriteFailed(failure.value) else WriteDone)
      ensures next == if writing then Some(queue[0]) else None
    {
      hide Inv;
      ghost var e := if failure.Some? then WriteFailed(failure.value) else WriteDone;
      StepKeeps(State(), e, Step(State(), e));
      if failure.Some? {
        wire := wire + Encode(queue[0])[..failure.value];
        writing, broken, closed := false, true, true;
        return None;
      }
      wire := wire + Encode(queue[0]);
      bytes := Minus(bytes, FrameBytes(queue[0]));
      queue := queue[1..];
      writing := queue != [] && !closed;
      if queue != [] && !closed {
        return Some(queue[0]);
      }
      return None;
    }
  }
}
