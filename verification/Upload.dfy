/** The chunk request on one attachment: the database row and the record file are updated one
    after the other, and a failure is possible between any two updates.  The request holds the
    resource's lock from its first read to its last write. */
module Upload {
  import opened Messages
  import opened RecordFile
  import opened EncryptedFileStore

  const MAX_BODY := 256 * 1024
  const DAY := 86400

  datatype Status = Uploading | Available | Downloaded | Cancelled

  /** The `file_transfer` row; `published` is "completed_at is not null". */
  datatype Row = Row(total: nat, offset: nat, sha256: string, status: Status, expires: int, published: bool)

  /** One resource: its row, its file as a log and how many of its chunks are known to be flushed,
      its row in `resource_outbox`, the database clock, and whether its (never reused) id has been
      given out. */
  datatype Resource = Resource(row: Option<Row>, log: Option<Log>, flushed: nat, event: bool, now: int, created: bool)

  /** What happens to one append and the offset update after it: how much of the record
      reaches the disk, whether the flush succeeds, whether the update is applied, whether
      its answer arrives, and the database time it is applied at. */
  datatype Fault = Fault(reach: nat, synced: bool, applied: bool, answered: bool, now: int)

  datatype Reply = Ok(offset: nat) | Error(status: nat)

  predicate ChunkAllowed(row: Row, now: int, offset: nat, data: bytes) {
    && 0 < |data| <= MAX_BODY && offset % CHUNK == 0
    && now < row.expires && row.status == Uploading
    && offset <= row.total && |data| <= row.total - offset
    && (|data| % CHUNK == 0 || offset + |data| == row.total)
    && offset <= row.offset
  }

  function ChunkRefusal(row: Row, now: int, offset: nat, data: bytes): nat {
    if !(0 < |data| <= MAX_BODY && offset % CHUNK == 0) then 400
    else if !(now < row.expires && row.status == Uploading) then 410
    else if !(offset <= row.total && |data| <= row.total - offset && (|data| % CHUNK == 0 || offset + |data| == row.total)) then 400
    else 409
  }

  function Part(data: bytes, at: nat): (part: bytes)
    requires at < |data|
    ensures 0 < |part| <= CHUNK
  {
    data[at..Min(at + CHUNK, |data|)]
  }

  /** The compare-and-set on the offset. */
  predicate CanCommit(row: Row, confirmed: nat, now: int) {
    row.offset == confirmed && row.status == Uploading && now < row.expires
  }

  /** The chunk loop on the log: records below the confirmed offset are compared, the others
      are appended and confirmed one by one. */
  function ChunkLoop(aead: Aead, row: Row, log: Log, flushed: nat, offset: nat, data: bytes, at: nat, confirmed: nat, faults: nat -> Fault)
    : (Row, Log, nat, Reply)
    decreases |data| - at
  {
    if at >= |data| then (row, log, flushed, Ok(confirmed))
    else
      var part := Part(data, at);
      if offset + at < confirmed then
        var previous := ReadLog(log, offset + at, |part|);
        if previous.None? then (row, log, flushed, Error(503))
        else if previous.value != part then (row, log, flushed, Error(409))
        else ChunkLoop(aead, row, log, flushed, offset, data, at + CHUNK, confirmed, faults)
      else
        var fault := faults(at);
        var after := AfterAppend(aead, log, offset + at, part, fault.reach);
        var flushed := FlushedAfter(aead, log, offset + at, part, fault.reach, fault.synced, flushed);
        if !AppendAcked(aead, log, offset + at, part, fault.reach, fault.synced) then (row, after, flushed, Error(409))
        else
          var next := offset + at + |part|;
          var committed := if fault.applied && CanCommit(row, confirmed, fault.now) then row.(offset := next) else row;
          if !(fault.applied && fault.answered && CanCommit(row, confirmed, fault.now)) then (committed, after, flushed, Error(503))
          else ChunkLoop(aead, committed, after, flushed, offset, data, at + CHUNK, next, faults)
  }

  /** One turn of the loop over what is already confirmed ... */
  lemma ReplayTurn(aead: Aead, row: Row, log: Log, flushed: nat, offset: nat, data: bytes, at: nat, confirmed: nat, faults: nat -> Fault)
    requires at < |data| && offset + at < confirmed
    ensures var previous := ReadLog(log, offset + at, |Part(data, at)|);
            var end := ChunkLoop(aead, row, log, flushed, offset, data, at, confirmed, faults);
            if previous.None? then end == (row, log, flushed, Error(503))
            else if previous.value != Part(data, at) then end == (row, log, flushed, Error(409))
            else end == ChunkLoop(aead, row, log, flushed, offset, data, at + CHUNK, confirmed, faults)
  {
    hide ReadLog, Part;
  }

  /** ... and one that appends. */
  lemma AppendTurn(aead: Aead, row: Row, log: Log, flushed: nat, offset: nat, data: bytes, at: nat, confirmed: nat, faults: nat -> Fault)
    requires at < |data| && offset + at >= confirmed
    ensures var fault, part := faults(at), Part(data, at);
            var after := AfterAppend(aead, log, offset + at, part, fault.reach);
            var flushed' := FlushedAfter(aead, log, offset + at, part, fault.reach, fault.synced, flushed);
            var next := offset + at + |part|;
            var matched := fault.applied && CanCommit(row, confirmed, fault.now);
            var committed := if matched then row.(offset := next) else row;
            var end := ChunkLoop(aead, row, log, flushed, offset, data, at, confirmed, faults);
            if !AppendAcked(aead, log, offset + at, part, fault.reach, fault.synced) then end == (row, after, flushed', Error(409))
            else if !matched || !fault.answered then end == (committed, after, flushed', Error(503))
            else end == ChunkLoop(aead, committed, after, flushed', offset, data, at + CHUNK, next, faults)
  {
    hide AfterAppend, AppendAcked, FlushedAfter, Part, CanCommit;
  }

  lemma LoopEnds(aead: Aead, row: Row, log: Log, flushed: nat, offset: nat, data: bytes, at: nat, confirmed: nat, faults: nat -> Fault)
    requires at >= |data|
    ensures ChunkLoop(aead, row, log, flushed, offset, data, at, confirmed, faults) == (row, log, flushed, Ok(confirmed))
  {
  }

  /** The same loop on the bytes of the file, as the service runs it. */
  method ChunkBytes(aead: Aead, row: Row, file: bytes, offset: nat, data: bytes, faults: nat -> Fault, ghost log: Log, ghost flushed: nat)
    returns (row': Row, file': bytes, reply: Reply, ghost log': Log, ghost flushed': nat)
    requires Represents(aead, file, log) && offset % CHUNK == 0
    ensures (row', log', flushed', reply) == ChunkLoop(aead, row, log, flushed, offset, data, 0, row.offset, faults)
    ensures Represents(aead, file', log')
  {
    hide Represents, AfterAppend, AppendAcked, FlushedAfter, ReadLog, Part, ChunkLoop, CanCommit;
    row', file', log', flushed' := row, file, log, flushed;
    var confirmed, at := row.offset, 0;
    while at < |data|
      invariant Represents(aead, file', log') && at % CHUNK == 0
      invariant ChunkLoop(aead, row, log, flushed, offset, data, 0, row.offset, faults) ==
                ChunkLoop(aead, row', log', flushed', offset, data, at, confirmed, faults)
      decreases |data| - at
    {
      var part := Part(data, at);
      if offset + at < confirmed {
        ReplayTurn(aead, row', log', flushed', offset, data, at, confirmed, faults);
        var previous := Read(aead, file', offset + at, |part|, log');
        if previous.None? {
          return row', file', Error(503), log', flushed';
        }
        if previous.value != part {
          return row', file', Error(409), log', flushed';
        }
        at := at + CHUNK;
        continue;
      }
      var fault := faults(at);
      AppendTurn(aead, row', log', flushed', offset, data, at, confirmed, faults);
      SealLength(aead, file', log');
      var next, after := Append(aead, file', offset + at, part, fault.reach, fault.synced, log');
      flushed' := FlushedAfter(aead, log', offset + at, part, fault.reach, fault.synced, flushed');
      file', log' := after, AfterAppend(aead, log', offset + at, part, fault.reach);
      if next.None? {
        return row', file', Error(409), log', flushed';
      }
      var matched := fault.applied && CanCommit(row', confirmed, fault.now);
      if matched {
        row' := row'.(offset := next.value);
      }
      if !matched || !fault.answered {
        return row', file', Error(503), log', flushed';
      }
      confirmed := next.value;
      at := at + CHUNK;
    }
    LoopEnds(aead, row', log', flushed', offset, data, at, confirmed, faults);
    reply := Ok(confirmed);
  }

  lemma SealLength(aead: Aead, file: bytes, log: Log)
    requires Represents(aead, file, log)
    ensures forall nonce, p :: |aead.seal(nonce, p)| == |p| + TAG
  {
  }

  /** The stored part of a file: its length, and that a partial chunk can only be the last. */
  ghost predicate Stored(chunks: seq<bytes>, total: nat) {
    && |Content(chunks)| <= total
    && (AllFull(chunks) || |Content(chunks)| == total)
  }

  /** The file against its row: the confirmed chunks are there, and at most one record, whole
      or torn, lies beyond them. */
  ghost predicate InStep(aead: Aead, row: Row, log: Log) {
    && ValidLog(aead, log)
    && row.offset <= row.total
    && Stored(log.chunks, row.total)
    && ChunkCount(row.offset) <= |log.chunks|
    && |Content(log.chunks[..ChunkCount(row.offset)])| == row.offset
    && (|log.chunks| == ChunkCount(row.offset) || (|log.chunks| == ChunkCount(row.offset) + 1 && log.torn == []))
    && (row.offset == row.total ==> |log.chunks| == ChunkCount(row.offset) && log.torn == [])
  }

  lemma {:induction false} ContentFull(chunks: seq<bytes>)
    requires AllFull(chunks)
    ensures |Content(chunks)| == |chunks| * CHUNK
  {
    if chunks != [] {
      ContentFull(chunks[..|chunks| - 1]);
    }
  }

  lemma {:induction false} ContentPrefix(chunks: seq<bytes>, k: nat)
    requires k <= |chunks|
    ensures Content(chunks[..k]) <= Content(chunks)
    decreases |chunks|
  {
    if k == |chunks| {
      assert chunks[..k] == chunks;
    } else {
      assert chunks[..|chunks| - 1][..k] == chunks[..k];
      ContentPrefix(chunks[..|chunks| - 1], k);
    }
  }

  lemma ContentSnoc(chunks: seq<bytes>, k: nat)
    requires k < |chunks|
    ensures Content(chunks[..k + 1]) == Content(chunks[..k]) + chunks[k]
  {
    assert chunks[..k + 1][..k] == chunks[..k];
  }

  /** Chunk `k` is the content from byte k * 32 KiB on. */
  lemma ContentChunk(chunks: seq<bytes>, k: nat)
    requires k < |chunks| && AllFull(chunks[..k])
    ensures k * CHUNK + |chunks[k]| <= |Content(chunks)|
    ensures Content(chunks)[k * CHUNK..k * CHUNK + |chunks[k]|] == chunks[k]
  {
    ContentFull(chunks[..k]);
    ContentSnoc(chunks, k);
    ContentPrefix(chunks, k + 1);
    assert Content(chunks)[..k * CHUNK + |chunks[k]|] == Content(chunks[..k]) + chunks[k];
  }

  /** The confirmed offset ends at a chunk boundary or at the end of the file. */
  lemma OffsetAligned(aead: Aead, row: Row, log: Log)
    requires InStep(aead, row, log)
    ensures row.offset % CHUNK == 0 || row.offset == row.total
    ensures row.offset < row.total ==> AllFull(log.chunks[..ChunkCount(row.offset)]) && row.offset == ChunkCount(row.offset) * CHUNK
  {
    hide ValidLog, Content, AllFull;
    var n := ChunkCount(row.offset);
    if n < |log.chunks| || AllFull(log.chunks) {
      FullBefore(aead, log, n);
      ContentFull(log.chunks[..n]);
    } else {
      assert log.chunks[..n] == log.chunks;
    }
  }

  /** Every chunk before the last is full. */
  lemma FullBefore(aead: Aead, log: Log, k: nat)
    requires ValidLog(aead, log) && k <= |log.chunks| && (k < |log.chunks| || AllFull(log.chunks))
    ensures AllFull(log.chunks[..k])
  {
    forall c | c in log.chunks[..k] ensures |c| == CHUNK {
      var i :| 0 <= i < k && log.chunks[..k][i] == c;
      assert log.chunks[i] == c && c in log.chunks;
    }
  }

  /** The record that append meets or writes at the confirmed offset. */
  lemma AppendInStep(aead: Aead, row: Row, log: Log, part: bytes, reach: nat)
    requires Lawful(aead) && InStep(aead, row, log) && row.offset < row.total
    requires 0 < |part| <= CHUNK && row.offset + |part| <= row.total
    requires |part| == CHUNK || row.offset + |part| == row.total
    ensures var after := AfterAppend(aead, log, row.offset, part, reach);
            && InStep(aead, row, after)
            && Extends(log, after)
            && forall synced :: AppendAcked(aead, log, row.offset, part, reach, synced) ==>
                 |after.chunks| == ChunkCount(row.offset) + 1 && after.torn == [] && after.chunks[ChunkCount(row.offset)] == part
  {
    hide ValidLog, Content, Record, AfterAppend, AppendAcked;
    var n, after := ChunkCount(row.offset), AfterAppend(aead, log, row.offset, part, reach);
    OffsetAligned(aead, row, log);
    AfterAppendValid(aead, log, row.offset, part, reach);
    AppendResult(aead, row, log, part, reach);
    if after.chunks != log.chunks {
      ContentFull(log.chunks);
      ContentSnoc(after.chunks, n);
      assert after.chunks[..n + 1] == after.chunks;
      assert after.chunks[..n] == log.chunks == log.chunks[..n];
    }
  }

  /** An append at the confirmed offset adds the part, or leaves a torn record, or changes nothing. */
  lemma AppendResult(aead: Aead, row: Row, log: Log, part: bytes, reach: nat)
    requires InStep(aead, row, log) && row.offset < row.total && 0 < |part| <= CHUNK
    requires row.offset == ChunkCount(row.offset) * CHUNK && AllFull(log.chunks[..ChunkCount(row.offset)])
    ensures var n, after := ChunkCount(row.offset), AfterAppend(aead, log, row.offset, part, reach);
            && Extends(log, after)
            && (after.chunks != log.chunks ==> |log.chunks| == n && after.chunks == log.chunks + [part] && after.torn == [] && AllFull(log.chunks))
            && (after.chunks == log.chunks && |log.chunks| != n ==> after == log)
            && forall synced :: AppendAcked(aead, log, row.offset, part, reach, synced) ==>
                 |after.chunks| == n + 1 && after.torn == [] && after.chunks[n] == part
  {
    hide ValidLog, Content, Record, Stored;
    var n := ChunkCount(row.offset);
    assert row.offset / CHUNK == n && row.offset % CHUNK == 0;
    if |log.chunks| == n {
      assert log.chunks[..n] == log.chunks;
    }
  }

  /** Confirming the record keeps file and row in step. */
  lemma CommitInStep(aead: Aead, row: Row, log: Log, part: bytes)
    requires InStep(aead, row, log) && row.offset < row.total && 0 < |part| <= CHUNK && row.offset + |part| <= row.total
    requires |log.chunks| == ChunkCount(row.offset) + 1 && log.torn == [] && log.chunks[ChunkCount(row.offset)] == part
    ensures InStep(aead, row.(offset := row.offset + |part|), log)
  {
    OffsetAligned(aead, row, log);
    var n := ChunkCount(row.offset);
    assert ChunkCount(row.offset + |part|) == n + 1;
    ContentSnoc(log.chunks, n);
  }

  /** Where the loop may stand: never beyond the confirmed offset while data is left. */
  predicate InPlace(row: Row, offset: nat, data: bytes, at: nat, confirmed: nat) {
    && offset % CHUNK == 0 && at % CHUNK == 0
    && confirmed == row.offset
    && offset + |data| <= row.total
    && (|data| % CHUNK == 0 || offset + |data| == row.total)
    && (at < |data| ==> offset + at <= confirmed)
    && (at >= |data| ==> offset + |data| <= confirmed)
  }

  /** Below the confirmed offset the loop moves on without passing it ... */
  lemma ReplayInPlace(aead: Aead, row: Row, log: Log, offset: nat, data: bytes, at: nat)
    requires InStep(aead, row, log) && InPlace(row, offset, data, at, row.offset)
    requires at < |data| && offset + at < row.offset
    ensures InPlace(row, offset, data, at + CHUNK, row.offset)
  {
    hide InStep, AllFull, ChunkCount;
    OffsetAligned(aead, row, log);
  }

  /** ... and what it appends starts exactly at the confirmed offset. */
  lemma AppendInPlace(row: Row, offset: nat, data: bytes, at: nat)
    requires InPlace(row, offset, data, at, row.offset) && at < |data| && offset + at >= row.offset
    ensures offset + at == row.offset < row.total
    ensures var part := Part(data, at);
            && row.offset + |part| <= row.total && (|part| == CHUNK || row.offset + |part| == row.total)
            && InPlace(row.(offset := row.offset + |part|), offset, data, at + CHUNK, row.offset + |part|)
  {
  }

  /** Part of the request is in the file where it belongs. */
  predicate PartStored(chunks: seq<bytes>, offset: nat, data: bytes, at: nat)
    requires at < |data|
  {
    (offset + at) / CHUNK < |chunks| && chunks[(offset + at) / CHUNK] == Part(data, at)
  }

  ghost predicate PartsStored(chunks: seq<bytes>, offset: nat, data: bytes, from: nat) {
    forall at :: from <= at < |data| && at % CHUNK == 0 ==> PartStored(chunks, offset, data, at)
  }

  /** The flushed part of a file covers the confirmed offset. */
  predicate Durable(row: Row, log: Log, flushed: nat) {
    ChunkCount(row.offset) <= flushed <= |log.chunks|
  }

  /** How an append changes a log: chunks only at the end, and nothing behind a torn tail. */
  predicate Extends(log: Log, log': Log) {
    log.prefix == log'.prefix && log.chunks <= log'.chunks && (log.torn != [] ==> log' == log)
  }

  /** The chunks a request adds are its own parts. */
  ghost predicate AddsParts(log: Log, log': Log, offset: nat, data: bytes) {
    forall k :: |log.chunks| <= k < |log'.chunks| ==>
      offset <= k * CHUNK < offset + |data| && log'.chunks[k] == Part(data, k * CHUNK - offset)
  }

  /** The parts of the request that the offset has moved past are in the file. */
  ghost predicate AdvanceStored(chunks: seq<bytes>, offset: nat, data: bytes, at: nat, start: nat, end: nat) {
    forall a :: at <= a < |data| && a % CHUNK == 0 && start <= offset + a < end ==> PartStored(chunks, offset, data, a)
  }

  /** What the rest of the loop, from `at` on, keeps and achieves. */
  ghost predicate LoopPost(aead: Aead, row: Row, log: Log, flushed: nat, offset: nat, data: bytes, at: nat, end: (Row, Log, nat, Reply)) {
    var (row', log', flushed', reply) := end;
    && InStep(aead, row', log') && Durable(row', log', flushed') && flushed <= flushed'
    && row' == row.(offset := row'.offset) && row.offset <= row'.offset
    && Extends(log, log')
    && AdvanceStored(log'.chunks, offset, data, at, row.offset, row'.offset)
    && (reply.Ok? ==> reply.offset == row'.offset && offset + |data| <= reply.offset && PartsStored(log'.chunks, offset, data, at))
  }

  /** The loop stops with an error. */
  lemma StopPost(aead: Aead, row: Row, log: Log, flushed: nat, offset: nat, data: bytes, at: nat, log': Log, flushed': nat, status: nat)
    requires InStep(aead, row, log') && Extends(log, log') && Durable(row, log, flushed) && flushed <= flushed' <= |log'.chunks|
    ensures LoopPost(aead, row, log, flushed, offset, data, at, (row, log', flushed', Error(status)))
  {
    hide InStep;
  }

  lemma ReplayPost(aead: Aead, row: Row, log: Log, flushed: nat, offset: nat, data: bytes, at: nat, end: (Row, Log, nat, Reply))
    requires at < |data| && at % CHUNK == 0 && ReadLog(log, offset + at, |Part(data, at)|) == Some(Part(data, at))
    requires offset + at < row.offset
    requires LoopPost(aead, row, log, flushed, offset, data, at + CHUNK, end)
    ensures LoopPost(aead, row, log, flushed, offset, data, at, end)
  {
    hide InStep, Part, PartStored, PartsStored, ReadLog, Durable, AdvanceStored;
    AdvanceFrom(end.1.chunks, offset, data, at, row.offset, end.0.offset);
    if end.3.Ok? {
      StoredByRead(log, end.1.chunks, offset, data, at);
      PartsFrom(end.1.chunks, offset, data, at);
    }
  }

  /** The record at `at` is on disk and confirmed. */
  lemma CommittedPost(aead: Aead, row: Row, log: Log, flushed: nat, offset: nat, data: bytes, at: nat, after: Log, end: (Row, Log, nat, Reply))
    requires at < |data| && offset % CHUNK == 0 && at % CHUNK == 0 && offset + at == row.offset
    requires Extends(log, after) && flushed <= |after.chunks|
    requires |after.chunks| == ChunkCount(row.offset) + 1 && after.chunks[ChunkCount(row.offset)] == Part(data, at)
    requires LoopPost(aead, row.(offset := row.offset + |Part(data, at)|), after, |after.chunks|, offset, data, at + CHUNK, end)
    ensures LoopPost(aead, row, log, flushed, offset, data, at, end)
  {
    hide InStep, Part, PartStored, PartsStored, Durable, ChunkCount, AdvanceStored;
    StoredByAppend(after.chunks, end.1.chunks, offset, data, at);
    AdvancePast(end.1.chunks, offset, data, at, row.offset, row.offset + |Part(data, at)|, end.0.offset);
    if end.3.Ok? {
      PartsFrom(end.1.chunks, offset, data, at);
    }
  }

  /** ... or confirmed without the loop going on. */
  lemma UnansweredPost(aead: Aead, row: Row, log: Log, flushed: nat, offset: nat, data: bytes, at: nat, part: bytes, after: Log)
    requires at < |data| && offset % CHUNK == 0 && at % CHUNK == 0 && offset + at == row.offset && part == Part(data, at)
    requires |after.chunks| == ChunkCount(row.offset) + 1 && after.chunks[ChunkCount(row.offset)] == part
    requires InStep(aead, row.(offset := row.offset + |part|), after) && Extends(log, after) && Durable(row, log, flushed)
    requires Durable(row.(offset := row.offset + |part|), after, |after.chunks|)
    ensures LoopPost(aead, row, log, flushed, offset, data, at, (row.(offset := row.offset + |part|), after, |after.chunks|, Error(503)))
  {
    hide InStep, Part, PartStored, PartsStored, AdvanceStored, ChunkCount;
    StoredByAppend(after.chunks, after.chunks, offset, data, at);
    AdvanceNone(after.chunks, offset, data, at + CHUNK, row.offset + |part|);
    AdvancePast(after.chunks, offset, data, at, row.offset, row.offset + |part|, row.offset + |part|);
  }

  lemma AdvanceNone(chunks: seq<bytes>, offset: nat, data: bytes, at: nat, end: nat)
    ensures AdvanceStored(chunks, offset, data, at, end, end)
  {
  }

  lemma AdvanceFrom(chunks: seq<bytes>, offset: nat, data: bytes, at: nat, start: nat, end: nat)
    requires at % CHUNK == 0 && offset + at < start && AdvanceStored(chunks, offset, data, at + CHUNK, start, end)
    ensures AdvanceStored(chunks, offset, data, at, start, end)
  {
    hide PartStored;
    forall a | at <= a < |data| && a % CHUNK == 0 && start <= offset + a < end ensures PartStored(chunks, offset, data, a) {
      assert a >= at + CHUNK;
    }
  }

  lemma AdvancePast(chunks: seq<bytes>, offset: nat, data: bytes, at: nat, start: nat, next: nat, end: nat)
    requires at < |data| && at % CHUNK == 0 && offset + at == start && next <= start + CHUNK && PartStored(chunks, offset, data, at)
    requires AdvanceStored(chunks, offset, data, at + CHUNK, next, end)
    ensures AdvanceStored(chunks, offset, data, at, start, end)
  {
    hide PartStored;
    forall a | at <= a < |data| && a % CHUNK == 0 && start <= offset + a < end ensures PartStored(chunks, offset, data, a) {
      assert a == at || a >= at + CHUNK;
    }
  }

  lemma DonePost(aead: Aead, row: Row, log: Log, flushed: nat, offset: nat, data: bytes, at: nat)
    requires InStep(aead, row, log) && Durable(row, log, flushed) && InPlace(row, offset, data, at, row.offset) && at >= |data|
    ensures LoopPost(aead, row, log, flushed, offset, data, at, (row, log, flushed, Ok(row.offset)))
  {
    hide InStep, PartsStored;
    NoPartsLeft(log.chunks, offset, data, at);
  }

  /** What an acknowledged append and its confirmation establish. */
  lemma CommitStep(aead: Aead, row: Row, log: Log, flushed: nat, part: bytes, reach: nat, synced: bool)
    requires Lawful(aead) && InStep(aead, row, log) && Durable(row, log, flushed) && row.offset < row.total
    requires 0 < |part| <= CHUNK && row.offset + |part| <= row.total && (|part| == CHUNK || row.offset + |part| == row.total)
    requires AppendAcked(aead, log, row.offset, part, reach, synced)
    ensures var after, n := AfterAppend(aead, log, row.offset, part, reach), ChunkCount(row.offset);
            && |after.chunks| == n + 1 && after.chunks[n] == part && flushed <= n + 1
            && InStep(aead, row.(offset := row.offset + |part|), after)
            && Durable(row.(offset := row.offset + |part|), after, |after.chunks|)
  {
    hide InStep, AppendAcked, AfterAppend;
    AppendInStep(aead, row, log, part, reach);
    var after := AfterAppend(aead, log, row.offset, part, reach);
    CommitInStep(aead, row, after, part);
    CountsUp(aead, row, log, part);
  }

  lemma CountsUp(aead: Aead, row: Row, log: Log, part: bytes)
    requires InStep(aead, row, log) && row.offset < row.total && 0 < |part| <= CHUNK
    ensures ChunkCount(row.offset + |part|) == ChunkCount(row.offset) + 1 && |log.chunks| <= ChunkCount(row.offset) + 1
  {
    OffsetAligned(aead, row, log);
  }

  /** The whole loop, whatever fails: the offset never decreases, chunks already stored never
      change, file and row stay in step, the offset only covers flushed chunks, and an
      acknowledged request is stored in full. */
  lemma {:induction false} LoopKeeps(aead: Aead, row: Row, log: Log, flushed: nat, offset: nat, data: bytes, at: nat, confirmed: nat, faults: nat -> Fault)
    requires Lawful(aead) && InStep(aead, row, log) && Durable(row, log, flushed) && InPlace(row, offset, data, at, confirmed)
    ensures LoopPost(aead, row, log, flushed, offset, data, at, ChunkLoop(aead, row, log, flushed, offset, data, at, confirmed, faults))
    decreases |data| - at
  {
    hide InStep, AfterAppend, AppendAcked, FlushedAfter, Part, InPlace, ReadLog, CanCommit, LoopPost, Extends, Durable;
    InPlaceFacts(row, offset, data, at, confirmed);
    DurableFacts(row, log, flushed);
    if at >= |data| {
      DonePost(aead, row, log, flushed, offset, data, at);
      return;
    }
    var part := Part(data, at);
    if offset + at < confirmed {
      if ReadLog(log, offset + at, |part|) == Some(part) {
        ReplayInPlace(aead, row, log, offset, data, at);
        LoopKeeps(aead, row, log, flushed, offset, data, at + CHUNK, confirmed, faults);
        ReplayPost(aead, row, log, flushed, offset, data, at,
                   ChunkLoop(aead, row, log, flushed, offset, data, at + CHUNK, confirmed, faults));
      } else {
        StopPost(aead, row, log, flushed, offset, data, at, log, flushed, 503);
        StopPost(aead, row, log, flushed, offset, data, at, log, flushed, 409);
      }
      return;
    }
    var fault := faults(at);
    AppendInPlace(row, offset, data, at);
    AppendInStep(aead, row, log, part, fault.reach);
    var after := AfterAppend(aead, log, offset + at, part, fault.reach);
    AckedIsFlushed(aead, log, offset + at, part, fault.reach, fault.synced, flushed);
    if !AppendAcked(aead, log, offset + at, part, fault.reach, fault.synced) {
      StopPost(aead, row, log, flushed, offset, data, at, after,
               FlushedAfter(aead, log, offset + at, part, fault.reach, fault.synced, flushed), 409);
      return;
    }
    CommitStep(aead, row, log, flushed, part, fault.reach, fault.synced);
    if !(fault.applied && CanCommit(row, confirmed, fault.now)) {
      StopPost(aead, row, log, flushed, offset, data, at, after, |after.chunks|, 503);
    } else if !fault.answered {
      UnansweredPost(aead, row, log, flushed, offset, data, at, part, after);
    } else {
      var committed := row.(offset := offset + at + |part|);
      LoopKeeps(aead, committed, after, |after.chunks|, offset, data, at + CHUNK, committed.offset, faults);
      CommittedPost(aead, row, log, flushed, offset, data, at, after,
                    ChunkLoop(aead, committed, after, |after.chunks|, offset, data, at + CHUNK, committed.offset, faults));
    }
  }

  lemma DurableFacts(row: Row, log: Log, flushed: nat)
    requires Durable(row, log, flushed)
    ensures flushed <= |log.chunks| && Extends(log, log)
  {
  }

  /** Whatever the reply, every chunk the request added holds the request's own bytes. */
  lemma {:induction false} LoopAddsParts(aead: Aead, row: Row, log: Log, flushed: nat, offset: nat, data: bytes, at: nat, confirmed: nat, faults: nat -> Fault)
    requires offset % CHUNK == 0 && at % CHUNK == 0
    ensures var (_, log', _, _) := ChunkLoop(aead, row, log, flushed, offset, data, at, confirmed, faults);
            log.chunks <= log'.chunks && AddsParts(log, log', offset, data)
    decreases |data| - at
  {
    hide AfterAppend, AppendAcked, FlushedAfter, Part, ReadLog, CanCommit, AddsParts;
    AddsNothing(log, offset, data);
    if at < |data| {
      var part := Part(data, at);
      if offset + at < confirmed {
        LoopAddsParts(aead, row, log, flushed, offset, data, at + CHUNK, confirmed, faults);
      } else {
        var fault := faults(at);
        var after := AfterAppend(aead, log, offset + at, part, fault.reach);
        AppendAddsPart(aead, log, offset, data, at, fault.reach);
        var next := offset + at + |part|;
        var committed := if fault.applied && CanCommit(row, confirmed, fault.now) then row.(offset := next) else row;
        var flushed' := FlushedAfter(aead, log, offset + at, part, fault.reach, fault.synced, flushed);
        LoopAddsParts(aead, committed, after, flushed', offset, data, at + CHUNK, next, faults);
        var (_, end, _, _) := ChunkLoop(aead, committed, after, flushed', offset, data, at + CHUNK, next, faults);
        AddsBoth(log, after, end, offset, data);
      }
    }
  }

  lemma AddsNothing(log: Log, offset: nat, data: bytes)
    ensures AddsParts(log, log, offset, data)
  {
  }

  lemma AppendAddsPart(aead: Aead, log: Log, offset: nat, data: bytes, at: nat, reach: nat)
    requires at < |data| && (offset + at) % CHUNK == 0
    ensures var after := AfterAppend(aead, log, offset + at, Part(data, at), reach);
            log.chunks <= after.chunks && AddsParts(log, after, offset, data)
  {
    hide Part, Record, AllFull;
    var after := AfterAppend(aead, log, offset + at, Part(data, at), reach);
    if after.chunks != log.chunks {
      assert |log.chunks| == (offset + at) / CHUNK;
      assert |log.chunks| * CHUNK == offset + at;
      assert after.chunks == log.chunks + [Part(data, at)];
    }
  }

  lemma AddsBoth(log: Log, after: Log, end: Log, offset: nat, data: bytes)
    requires log.chunks <= after.chunks <= end.chunks && AddsParts(log, after, offset, data) && AddsParts(after, end, offset, data)
    ensures AddsParts(log, end, offset, data)
  {
    hide Part;
  }

  lemma InPlaceFacts(row: Row, offset: nat, data: bytes, at: nat, confirmed: nat)
    requires InPlace(row, offset, data, at, confirmed)
    ensures confirmed == row.offset && offset % CHUNK == 0 && at % CHUNK == 0
    ensures at >= |data| ==> offset + |data| <= confirmed
  {
  }

  lemma NoPartsLeft(chunks: seq<bytes>, offset: nat, data: bytes, at: nat)
    requires at >= |data|
    ensures PartsStored(chunks, offset, data, at)
  {
  }

  lemma StoredByRead(log: Log, later: seq<bytes>, offset: nat, data: bytes, at: nat)
    requires at < |data| && log.chunks <= later
    requires ReadLog(log, offset + at, |Part(data, at)|) == Some(Part(data, at))
    ensures PartStored(later, offset, data, at)
  {
  }

  lemma StoredByAppend(chunks: seq<bytes>, later: seq<bytes>, offset: nat, data: bytes, at: nat)
    requires at < |data| && chunks <= later && (offset + at) % CHUNK == 0
    requires ChunkCount(offset + at) < |chunks| && chunks[ChunkCount(offset + at)] == Part(data, at)
    ensures PartStored(later, offset, data, at)
  {
  }

  lemma PartsFrom(chunks: seq<bytes>, offset: nat, data: bytes, at: nat)
    requires at < |data| && at % CHUNK == 0 && PartStored(chunks, offset, data, at) && PartsStored(chunks, offset, data, at + CHUNK)
    ensures PartsStored(chunks, offset, data, at)
  {
    hide PartStored;
    forall i | at <= i < |data| && i % CHUNK == 0 ensures PartStored(chunks, offset, data, i) {
      assert i == at || at + CHUNK <= i;
    }
  }
}
