/** What is sealed under the nonce of a (file prefix, chunk index) over the life of an attachment.
    A record that was written and not flushed can be lost with the power; the next append then
    writes at its index again. */
module Nonces {
  import opened Bytes
  import opened Messages
  import opened Runs
  import opened RecordFile
  import opened EncryptedFileStore
  import opened Upload
  import opened Attachment

  /** The power loss takes bytes of the file that were not flushed. */
  predicate Cuts(env: Env, r: Resource, op: Op)
    requires r.log.Some? && Sized(r.log.value.chunks) && r.flushed <= |r.log.value.chunks|
  {
    op.PowerLoss? && Position(env.aead, r.log.value, r.flushed) + op.cut < |Encode(env.aead, r.log.value)|
  }

  lemma CutShortens(env: Env, r: Resource, op: Op)
    requires Inv(env, r) && op.PowerLoss? && r.log.Some?
    ensures Sized(r.log.value.chunks) && r.flushed <= |r.log.value.chunks|
    ensures var c := Crashed(env.aead, r.log.value, r.flushed, op.cut);
            Sized(c.chunks) && (Encode(env.aead, r.log.value) <= Encode(env.aead, c) <==> !Cuts(env, r, op))
  {
    hide Encode, RowInv, Durable, Position, Crashed;
    CrashedEncodes(env.aead, r.log.value, r.flushed, op.cut);
  }

  /** The bytes of a file that stays are extended by every operation except, exactly, a power loss
      that takes bytes that were not flushed. */
  lemma StepExtendsExactly(env: Env, r: Resource, op: Op)
    requires Inv(env, r) && Timely(r, op) && r.log.Some? && Apply(env, r, op).0.log.Some?
    ensures var log, log' := r.log.value, Apply(env, r, op).0.log.value;
            && Sized(log.chunks) && Sized(log'.chunks) && r.flushed <= |log.chunks|
            && (Encode(env.aead, log) <= Encode(env.aead, log') <==> !Cuts(env, r, op))
  {
    hide Inv, Encode, Extends, Cuts;
    var r' := Apply(env, r, op).0;
    if op.PowerLoss? {
      CutShortens(env, r, op);
    } else {
      NoCut(env, r, op);
      CalmStepExtends(env, r, op, r');
      StepKeeps(env, r, op, r');
      InvValid(env, r);
      InvValid(env, r');
      ExtendsEncodes(env.aead, r.log.value, r'.log.value);
    }
  }

  lemma NoCut(env: Env, r: Resource, op: Op)
    requires Inv(env, r) && r.log.Some? && !op.PowerLoss?
    ensures r.created && Sized(r.log.value.chunks) && r.flushed <= |r.log.value.chunks| && !Cuts(env, r, op)
  {
  }

  /** The one piece of `content` that a transfer of `total` bytes puts at index `k`. */
  predicate PieceAt(content: bytes, total: nat, piece: bytes, k: nat): (fits: bool)
    ensures fits ==> |piece| <= CHUNK
  {
    && 0 < |piece| <= CHUNK && SliceAt(content, piece, k) && k * CHUNK + |piece| <= total
    && (|piece| == CHUNK || k * CHUNK + |piece| == total)
  }

  lemma OnePiece(content: bytes, total: nat, p: bytes, q: bytes, k: nat)
    requires PieceAt(content, total, p, k) && PieceAt(content, total, q, k)
    ensures p == q
  {
    assert |p| == |q|;
  }

  ghost predicate TornFrom(aead: Aead, content: bytes, total: nat, log: Log) {
    log.torn == [] ||
    exists piece :: PieceAt(content, total, piece, |log.chunks|) && log.torn < Record(aead, log.prefix, |log.chunks|, piece)
  }

  /** Every record of the file, whole or torn, is that of the piece that belongs there. */
  ghost predicate WrittenFrom(aead: Aead, content: bytes, total: nat, log: Log) {
    && (forall k :: 0 <= k < |log.chunks| ==> PieceAt(content, total, log.chunks[k], k))
    && TornFrom(aead, content, total, log)
  }

  lemma PartIsPiece(content: bytes, total: nat, offset: nat, data: bytes, at: nat, k: nat)
    requires offset + |data| <= |content| && data == content[offset..offset + |data|] && offset + |data| <= total
    requires |data| % CHUNK == 0 || offset + |data| == total
    requires at < |data| && at % CHUNK == 0 && k * CHUNK == offset + at
    ensures PieceAt(content, total, Part(data, at), k)
  {
    PartIsSlice(content, offset, data, k);
  }

  /** What an append at `at` leaves behind, however far it gets. */
  lemma AppendWrites(aead: Aead, content: bytes, total: nat, log: Log, offset: nat, data: bytes, at: nat, reach: nat)
    requires WrittenFrom(aead, content, total, log) && at < |data|
    requires (offset + at) % CHUNK == 0 ==> PieceAt(content, total, Part(data, at), (offset + at) / CHUNK)
    ensures WrittenFrom(aead, content, total, AfterAppend(aead, log, offset + at, Part(data, at), reach))
  {
    hide PieceAt, Part, Record, AllFull;
    var part := Part(data, at);
    var after := AfterAppend(aead, log, offset + at, part, reach);
    if AppendOutcome(log, offset + at, part).Extend? {
      var record := Record(aead, log.prefix, |log.chunks|, part);
      if reach < |record| {
        assert after.torn < record;
      }
    }
  }

  lemma {:induction false} LoopWrites(aead: Aead, content: bytes, row: Row, log: Log, flushed: nat, offset: nat, data: bytes, at: nat, confirmed: nat, faults: nat -> Fault)
    requires WrittenFrom(aead, content, row.total, log) && offset % CHUNK == 0 && at % CHUNK == 0
    requires offset + |data| <= |content| && data == content[offset..offset + |data|] && offset + |data| <= row.total
    requires |data| % CHUNK == 0 || offset + |data| == row.total
    ensures WrittenFrom(aead, content, row.total, ChunkLoop(aead, row, log, flushed, offset, data, at, confirmed, faults).1)
    decreases |data| - at
  {
    hide WrittenFrom, AfterAppend, AppendAcked, FlushedAfter, Part, PieceAt, ReadLog, CanCommit;
    if at < |data| {
      if offset + at < confirmed {
        LoopWrites(aead, content, row, log, flushed, offset, data, at + CHUNK, confirmed, faults);
      } else {
        var fault, part := faults(at), Part(data, at);
        Aligned(offset, at);
        PartIsPiece(content, row.total, offset, data, at, (offset + at) / CHUNK);
        AppendWrites(aead, content, row.total, log, offset, data, at, fault.reach);
        var after := AfterAppend(aead, log, offset + at, part, fault.reach);
        var flushed' := FlushedAfter(aead, log, offset + at, part, fault.reach, fault.synced, flushed);
        var next := offset + at + |part|;
        var committed := if fault.applied && CanCommit(row, confirmed, fault.now) then row.(offset := next) else row;
        LoopWrites(aead, content, committed, after, flushed', offset, data, at + CHUNK, next, faults);
      }
    }
  }

  lemma Aligned(offset: nat, at: nat)
    requires offset % CHUNK == 0 && at % CHUNK == 0
    ensures (offset + at) / CHUNK * CHUNK == offset + at
  {
  }

  /** A power loss leaves nothing else. */
  lemma {:induction false} CrashWrites(aead: Aead, content: bytes, total: nat, log: Log, flushed: nat, cut: nat)
    requires WrittenFrom(aead, content, total, log)
    ensures WrittenFrom(aead, content, total, Crashed(aead, log, flushed, cut))
    decreases |log.chunks| - flushed
  {
    hide PieceAt, Record;
    if flushed >= |log.chunks| {
      ShorterTail(aead, content, total, log, Min(cut, |log.torn|));
    } else if |log.chunks[flushed]| <= CHUNK {
      var record := Record(aead, log.prefix, flushed, log.chunks[flushed]);
      if cut >= |record| {
        CrashWrites(aead, content, total, log, flushed + 1, cut - |record|);
      } else {
        assert record[..cut] < record;
        assert PieceAt(content, total, log.chunks[flushed], flushed);
      }
    }
  }

  lemma ShorterTail(aead: Aead, content: bytes, total: nat, log: Log, n: nat)
    requires WrittenFrom(aead, content, total, log) && n <= |log.torn|
    ensures WrittenFrom(aead, content, total, log.(torn := log.torn[..n]))
  {
    hide PieceAt, Record;
    if log.torn != [] {
      var piece :| PieceAt(content, total, piece, |log.chunks|) && log.torn < Record(aead, log.prefix, |log.chunks|, piece);
      assert log.torn[..n] < Record(aead, log.prefix, |log.chunks|, piece);
    }
  }

  /** A file holds the pieces of its transfer; without a row it holds nothing yet. */
  ghost predicate Written(env: Env, content: bytes, r: Resource) {
    r.log.Some? ==>
      if r.row.Some? then WrittenFrom(env.aead, content, r.row.value.total, r.log.value)
      else r.log.value.chunks == [] && r.log.value.torn == []
  }

  lemma EmptyIsWritten(aead: Aead, content: bytes, total: nat, prefix: bytes)
    ensures WrittenFrom(aead, content, total, Log(prefix, [], []))
  {
  }

  lemma StepWrites(env: Env, content: bytes, r: Resource, op: Op, r': Resource)
    requires Inv(env, r) && Written(env, content, r) && Next(env, r, op, r') && IsSlice(content, op)
    ensures Written(env, content, r')
  {
    hide ChunkLoop, WrittenFrom, Crashed, Inv, Content;
    if op.Chunk? && r.row.Some? && r.log.Some? && ChunkAllowed(r.row.value, op.now, op.offset, op.data) {
      LoopWrites(env.aead, content, r.row.value, r.log.value, r.flushed, op.offset, op.data, 0, r.row.value.offset, op.faults);
      StepKeeps(env, r, op, r');
    } else if op.PowerLoss? && r.log.Some? {
      CrashedEmpty(env.aead, r.log.value, r.flushed, op.cut);
      if r.row.Some? {
        CrashWrites(env.aead, content, r.row.value.total, r.log.value, r.flushed, op.cut);
      }
    } else if op.Create? {
      EmptyIsWritten(env.aead, content, op.total, op.prefix);
    }
  }

  lemma CrashedEmpty(aead: Aead, log: Log, flushed: nat, cut: nat)
    ensures log.chunks == [] && log.torn == [] ==> Crashed(aead, log, flushed, cut) == log
  {
  }

  lemma RunWrites(env: Env, content: bytes, r: Resource, run: Run)
    requires Inv(env, r) && Written(env, content, r) && IsRun(SliceSteps(env, content), r, run)
    ensures Inv(env, Final(r, run)) && Written(env, content, Final(r, run)) && Onward(r, Final(r, run))
  {
    hide Inv, Written, Apply, Timely, IsSlice, Onward;
    var inv := (a: Resource) => Inv(env, a) && Written(env, content, a);
    forall a, op, b | inv(a) && SliceSteps(env, content)(a, op, b) ensures inv(b) && Onward(a, b) {
      StepKeeps(env, a, op, b);
      StepWrites(env, content, a, op, b);
    }
    forall a | inv(a) ensures Onward(a, a) { OnwardReflexive(env, a); }
    forall a, b, c | inv(a) && inv(b) && inv(c) && Onward(a, b) && Onward(b, c) ensures Onward(a, c) { OnwardTransitive(env, a, b, c); }
    RelationHolds(SliceSteps(env, content), inv, Onward, r, run);
  }

  /** Two files written from one content differ only in how far they got. */
  ghost predicate Comparable(aead: Aead, a: Log, b: Log)
    requires Sized(a.chunks) && Sized(b.chunks)
  {
    Encode(aead, a) <= Encode(aead, b) || Encode(aead, b) <= Encode(aead, a)
  }

  lemma WrittenAgree(aead: Aead, content: bytes, total: nat, a: Log, b: Log)
    requires WrittenFrom(aead, content, total, a) && WrittenFrom(aead, content, total, b) && a.prefix == b.prefix
    requires Sized(a.chunks) && Sized(b.chunks) && |a.chunks| <= |b.chunks|
    ensures a.chunks <= b.chunks && Comparable(aead, a, b)
  {
    hide PieceAt, Encode, Record, Sized;
    forall k | 0 <= k < |a.chunks| ensures a.chunks[k] == b.chunks[k] {
      OnePiece(content, total, a.chunks[k], b.chunks[k], k);
    }
    if a.torn == [] {
      PrefixEncodes(aead, a, b);
    } else {
      var n := |a.chunks|;
      var piece :| PieceAt(content, total, piece, n) && a.torn < Record(aead, a.prefix, n, piece);
      if n < |b.chunks| {
        OnePiece(content, total, piece, b.chunks[n], n);
        TornEncodes(aead, a, b);
      } else {
        assert a.chunks == b.chunks;
        SameRecords(aead, content, total, a, b, piece);
      }
    }
  }

  lemma PrefixEncodes(aead: Aead, a: Log, b: Log)
    requires Sized(a.chunks) && Sized(b.chunks) && a.prefix == b.prefix && a.chunks <= b.chunks && a.torn == []
    ensures Encode(aead, a) <= Encode(aead, b)
  {
    hide Encode, Records;
    ExtendsEncodes(aead, a, b);
  }

  lemma TornEncodes(aead: Aead, a: Log, b: Log)
    requires Sized(a.chunks) && Sized(b.chunks) && a.prefix == b.prefix && a.chunks <= b.chunks && |a.chunks| < |b.chunks|
    requires |b.chunks[|a.chunks|]| <= CHUNK && a.torn < Record(aead, b.prefix, |a.chunks|, b.chunks[|a.chunks|])
    ensures Encode(aead, a) <= Encode(aead, b)
  {
    hide Record, Records, Sized;
    var n := |a.chunks|;
    assert b.chunks[..n] == a.chunks;
    var rest := SplitAt(aead, b, n);
    TornPrefix(MAGIC + b.prefix + Records(aead, b.prefix, a.chunks), a.torn, Record(aead, b.prefix, n, b.chunks[n]), rest);
  }

  lemma TornPrefix(head: bytes, torn: bytes, record: bytes, rest: bytes)
    requires torn <= record
    ensures head + torn <= head + record + rest
  {
  }

  lemma SameRecords(aead: Aead, content: bytes, total: nat, a: Log, b: Log, piece: bytes)
    requires a.prefix == b.prefix && a.chunks == b.chunks && Sized(a.chunks) && TornFrom(aead, content, total, b)
    requires PieceAt(content, total, piece, |a.chunks|) && a.torn < Record(aead, a.prefix, |a.chunks|, piece)
    ensures Comparable(aead, a, b)
  {
    hide PieceAt, Record, Records, Sized;
    var head := MAGIC + a.prefix + Records(aead, a.prefix, a.chunks);
    if b.torn != [] {
      var other :| PieceAt(content, total, other, |b.chunks|) && b.torn < Record(aead, b.prefix, |b.chunks|, other);
      OnePiece(content, total, piece, other, |a.chunks|);
      TwoTails(head, a.torn, b.torn, Record(aead, a.prefix, |a.chunks|, piece));
    } else {
      assert head + [] <= head + a.torn;
    }
  }

  lemma TwoTails(head: bytes, p: bytes, q: bytes, record: bytes)
    requires p <= record && q <= record
    ensures head + p <= head + q || head + q <= head + p
  {
    assert p == record[..|p|] && q == record[..|q|];
    assert |p| <= |q| ==> head + p <= head + q;
    assert |q| <= |p| ==> head + q <= head + p;
  }

  /** A client that resumes one upload never has two texts sealed under one nonce: if every chunk
      request of a run carries a slice of one string at its offset, then of the files at any two
      moments one is a beginning of the other, torn tails and power losses included.  So no byte of
      the file ever has two values. */
  lemma ResumedUploadSealsOnce(env: Env, content: bytes, run: Run, later: Run)
    requires Lawful(env.aead) && IsRun(SliceSteps(env, content), FRESH, run)
    requires IsRun(SliceSteps(env, content), Final(FRESH, run), later)
    ensures var r, r' := Final(FRESH, run), Final(Final(FRESH, run), later);
            r.log.Some? && r'.log.Some? ==>
              var log, log' := r.log.value, r'.log.value;
              && log.prefix == log'.prefix && Sized(log.chunks) && Sized(log'.chunks)
              && (log.chunks <= log'.chunks || log'.chunks <= log.chunks) && Comparable(env.aead, log, log')
  {
    hide Inv, Written, Onward, IsRun;
    FreshInv(env);
    FreshIsWritten(env, content);
    RunWrites(env, content, FRESH, run);
    var r := Final(FRESH, run);
    RunWrites(env, content, r, later);
    var r' := Final(r, later);
    if r.log.Some? && r'.log.Some? {
      FilesAgree(env, content, r, r');
    }
  }

  lemma FreshIsWritten(env: Env, content: bytes)
    ensures Written(env, content, FRESH)
  {
  }

  lemma FilesAgree(env: Env, content: bytes, r: Resource, r': Resource)
    requires Inv(env, r) && Inv(env, r') && Written(env, content, r) && Written(env, content, r') && Onward(r, r')
    requires r.log.Some? && r'.log.Some?
    ensures var log, log' := r.log.value, r'.log.value;
            && log.prefix == log'.prefix && Sized(log.chunks) && Sized(log'.chunks)
            && (log.chunks <= log'.chunks || log'.chunks <= log.chunks) && Comparable(env.aead, log, log')
  {
    hide WrittenFrom, Encode, Inv;
    var log, log' := r.log.value, r'.log.value;
    InvValid(env, r);
    InvValid(env, r');
    if r.row.Some? && r'.row.Some? {
      if |log.chunks| <= |log'.chunks| {
        WrittenAgree(env.aead, content, r.row.value.total, log, log');
      } else {
        WrittenAgree(env.aead, content, r.row.value.total, log', log);
      }
    } else if r.row.None? {
      PrefixEncodes(env.aead, log, log');
    } else {
      PrefixEncodes(env.aead, log', log);
    }
  }

  /** Without that, a power loss can put two texts under one nonce: a record is written but not
      flushed, lost, and another text is stored at its index. */
  lemma PowerLossReseals(env: Env, prefix: bytes, a: byte, b: byte) returns (run: Run, i: nat, j: nat)
    requires Lawful(env.aead) && |prefix| == PREFIX && a != b
    ensures IsRun(Steps(env), FRESH, run) && i < j <= |run|
    ensures StateAt(FRESH, run, i).log == Some(Log(prefix, [[a]], []))
    ensures StateAt(FRESH, run, j).log == Some(Log(prefix, [[b]], []))
    ensures env.aead.seal(Nonce(prefix, 0), [a]) != env.aead.seal(Nonce(prefix, 0), [b])
  {
    var fault := Fault(100, false, false, false, 0);
    var faults := (at: nat) => fault;
    var create, first, second := Create(1, "", prefix, 0, true), Chunk(0, [a], 0, faults), Chunk(0, [b], 0, faults);
    Created(env, prefix);
    StoresUnflushed(env, prefix, a, faults);
    LosesIt(env, prefix, a);
    StoresUnflushed(env, prefix, b, faults);
    hide Apply, Timely, State;
    run := FourSteps(env, create, State(prefix, []), first, State(prefix, [[a]]), PowerLoss(0, 0), second, State(prefix, [[b]]));
    StateIs(prefix, [[a]]);
    StateIs(prefix, [[b]]);
    i, j := 2, 4;
    assert run[..4] == run;
    if env.aead.seal(Nonce(prefix, 0), [a]) == env.aead.seal(Nonce(prefix, 0), [b]) {
      SealInjective(env.aead, Nonce(prefix, 0), [a], [b]);
    }
  }

  /** An upload of one byte, of which nothing is flushed. */
  function State(prefix: bytes, chunks: seq<bytes>): Resource {
    Resource(Some(Row(1, 0, "", Uploading, 7 * DAY, false)), Some(Log(prefix, chunks, [])), 0, false, 0, true)
  }

  lemma StateIs(prefix: bytes, chunks: seq<bytes>)
    ensures State(prefix, chunks).log == Some(Log(prefix, chunks, []))
  {
  }

  lemma Created(env: Env, prefix: bytes)
    requires |prefix| == PREFIX
    ensures Next(env, FRESH, Create(1, "", prefix, 0, true), State(prefix, []))
  {
  }

  lemma StoresUnflushed(env: Env, prefix: bytes, x: byte, faults: nat -> Fault)
    requires Lawful(env.aead) && faults(0) == Fault(100, false, false, false, 0)
    ensures Next(env, State(prefix, []), Chunk(0, [x], 0, faults), State(prefix, [[x]]))
  {
    hide ChunkLoop, Lawful;
    Unflushed(env, State(prefix, []).row.value, prefix, x, faults);
  }

  lemma LosesIt(env: Env, prefix: bytes, x: byte)
    requires Lawful(env.aead)
    ensures Next(env, State(prefix, [[x]]), PowerLoss(0, 0), State(prefix, []))
  {
    hide Crashed, Lawful;
    Lost(env.aead, prefix, x);
  }

  lemma FourSteps(env: Env, op1: Op, r1: Resource, op2: Op, r2: Resource, op3: Op, op4: Op, r4: Resource) returns (run: Run)
    requires Next(env, FRESH, op1, r1) && Next(env, r1, op2, r2) && Next(env, r2, op3, r1) && Next(env, r1, op4, r4)
    ensures |run| == 4 && IsRun(Steps(env), FRESH, run) && StateAt(FRESH, run, 2) == r2 && Final(FRESH, run) == r4
  {
    hide Apply, Timely;
    var last := [Transition(op4, r4)];
    assert last[1..] == [];
    assert IsRun(Steps(env), r1, last);
    var three := [Transition(op3, r1)] + last;
    assert three[1..] == last;
    assert IsRun(Steps(env), r2, three);
    var two := [Transition(op2, r2)] + three;
    assert two[1..] == three;
    assert IsRun(Steps(env), r1, two);
    run := [Transition(op1, r1)] + two;
    assert run[1..] == two;
  }

  lemma Unflushed(env: Env, row: Row, prefix: bytes, x: byte, faults: nat -> Fault)
    requires Lawful(env.aead) && faults(0) == Fault(100, false, false, false, 0) && row.offset == 0
    ensures ChunkLoop(env.aead, row, Log(prefix, [], []), 0, 0, [x], 0, 0, faults) == (row, Log(prefix, [[x]], []), 0, Error(409))
  {
    hide Nonce;
    assert Part([x], 0) == [x];
    assert |Record(env.aead, prefix, 0, [x])| <= 100;
    assert [] + [[x]] == [[x]];
  }

  lemma Lost(aead: Aead, prefix: bytes, x: byte)
    requires Lawful(aead)
    ensures Crashed(aead, Log(prefix, [[x]], []), 0, 0) == Log(prefix, [], [])
  {
    assert |Record(aead, prefix, 0, [x])| > 0;
  }
}
