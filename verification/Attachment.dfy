/** The life of one attachment: upload in chunks, publication, download, cancellation and
    collection, and what every run of these operations keeps.  Every operation holds the
    resource's lock, so operations on one resource never interleave; a crash of the service is an
    operation whose remaining effects do not happen, and a power loss may also take what was
    written and not flushed. */
module Attachment {
  import opened Messages
  import opened Runs
  import opened RecordFile
  import opened EncryptedFileStore
  import opened Upload

  /** The cipher under the transfer's key and the hash function. */
  datatype Env = Env(aead: Aead, digest: bytes -> string)

  datatype Op =
    | Create(total: nat, sha256: string, prefix: bytes, now: int, committed: bool)
    | Chunk(offset: nat, data: bytes, now: int, faults: nat -> Fault)
    | Complete(now: int, later: int, applied: bool)
    | Cancel(now: int, viaUploads: bool)
    | MarkDownloaded(now: int)
    | Maintain(now: int, removed: bool, committed: bool)
    | PowerLoss(now: int, cut: nat)

  const FRESH := Resource(None, None, 0, false, 0, false)

  predicate Expired(row: Row, now: int) {
    row.expires <= now
  }

  predicate IsPublished(row: Row) {
    row.status == Available || row.status == Downloaded
  }

  /** What maintenance may collect. */
  predicate Dead(row: Row, now: int) {
    Expired(row, now) || row.status == Cancelled
  }

  /** The file is created and flushed before its row is committed; a lost commit leaves an
      orphan file without a row. */
  function CreateOp(r: Resource, op: Op): (Resource, Reply)
    requires op.Create?
  {
    if r.created then (r, Error(409))
    else
      var row := Row(op.total, 0, op.sha256, Uploading, op.now + 7 * DAY, false);
      (Resource(if op.committed then Some(row) else None, Some(Log(op.prefix, [], [])), 0, false, op.now, true),
       if op.committed then Ok(0) else Error(503))
  }

  function ChunkOp(env: Env, r: Resource, op: Op): (Resource, Reply)
    requires op.Chunk?
  {
    if r.row.None? then (r, Error(404))
    else if !ChunkAllowed(r.row.value, op.now, op.offset, op.data) then (r, Error(ChunkRefusal(r.row.value, op.now, op.offset, op.data)))
    else if r.log.None? then (r, Error(if op.offset < r.row.value.offset then 503 else 409))
    else
      var (row, log, flushed, reply) :=
        ChunkLoop(env.aead, r.row.value, r.log.value, r.flushed, op.offset, op.data, 0, r.row.value.offset, op.faults);
      (r.(row := Some(row), log := Some(log), flushed := flushed), reply)
  }

  function StoredDigest(env: Env, r: Resource): Option<string>
    requires r.row.Some?
  {
    var n := ChunkCount(r.row.value.total);
    if n == 0 then Some(env.digest([]))
    else if r.log.None? || n > |r.log.value.chunks| then None
    else Some(env.digest(Content(r.log.value.chunks[..n])))
  }

  /** Publication: row and outbox event change in one transaction. */
  function CompleteOp(env: Env, r: Resource, op: Op): (Resource, Reply)
    requires op.Complete?
  {
    if r.row.None? then (r, Error(404))
    else
      var row := r.row.value;
      if Dead(row, op.now) then (r, Error(410))
      else if IsPublished(row) then (r, Ok(row.offset))
      else if row.offset != row.total then (r, Error(409))
      else if StoredDigest(env, r).None? then (r, Error(503))
      else if StoredDigest(env, r).value != row.sha256 then (r, Error(422))
      else if !op.applied then (r, Error(503))
      else (r.(row := Some(row.(status := Available, published := true, expires := op.later + 7 * DAY)), event := true), Ok(row.offset))
  }

  function CancelOp(r: Resource, op: Op): (Resource, Reply)
    requires op.Cancel?
  {
    if r.row.None? then (r, Error(404))
    else if Dead(r.row.value, op.now) then (r, Error(410))
    else if op.viaUploads && r.row.value.status != Uploading then (r, Error(409))
    else (r.(row := Some(r.row.value.(status := Cancelled, expires := op.now))), Ok(r.row.value.offset))
  }

  function DownloadedOp(r: Resource, op: Op): (Resource, Reply)
    requires op.MarkDownloaded?
  {
    if r.row.None? then (r, Error(404))
    else if Dead(r.row.value, op.now) then (r, Error(410))
    else if !IsPublished(r.row.value) then (r, Error(409))
    else (r.(row := Some(r.row.value.(status := Downloaded, expires := Min(r.row.value.expires, op.now + DAY)))), Ok(r.row.value.offset))
  }

  /** Collection removes the file first and then, in one transaction, event and row. */
  function MaintainOp(r: Resource, op: Op): (Resource, Reply)
    requires op.Maintain?
  {
    if r.row.None? || !Dead(r.row.value, op.now) || !op.removed then (r, Ok(0))
    else if !op.committed then (r.(log := None), Error(503))
    else (r.(row := None, log := None, event := false), Ok(0))
  }

  /** The file keeps its flushed records and any beginning of what follows; nobody is answered. */
  function PowerLossOp(env: Env, r: Resource, op: Op): (Resource, Reply)
    requires op.PowerLoss?
  {
    (if r.log.None? then r else r.(log := Some(Crashed(env.aead, r.log.value, r.flushed, op.cut))), Error(503))
  }

  function Apply(env: Env, r: Resource, op: Op): (Resource, Reply) {
    var r := r.(now := op.now);
    match op
    case Create(_, _, _, _, _) => CreateOp(r, op)
    case Chunk(_, _, _, _) => ChunkOp(env, r, op)
    case Complete(_, _, _) => CompleteOp(env, r, op)
    case Cancel(_, _) => CancelOp(r, op)
    case MarkDownloaded(_) => DownloadedOp(r, op)
    case Maintain(_, _, _) => MaintainOp(r, op)
    case PowerLoss(_, _) => PowerLossOp(env, r, op)
  }

  /** The database clock does not run backwards. */
  predicate Timely(r: Resource, op: Op) {
    r.now <= op.now && (op.Complete? ==> op.now <= op.later) && (op.Create? ==> |op.prefix| == PREFIX)
  }

  ghost predicate Next(env: Env, r: Resource, op: Op, r': Resource) {
    Timely(r, op) && r' == Apply(env, r, op).0
  }

  /** The bytes one read of the download stream yields. */
  function ReadOp(r: Resource, now: int, offset: nat): Option<bytes> {
    if r.row.None? || r.log.None? || Expired(r.row.value, now) || !IsPublished(r.row.value) then None
    else ReadLog(r.log.value, offset, CHUNK)
  }

  ghost predicate Inv(env: Env, r: Resource) {
    && Lawful(env.aead)
    && (r.row.Some? || r.log.Some? ==> r.created)
    && (r.event <==> r.row.Some? && r.row.value.published)
    && (r.log.Some? ==> ValidLog(env.aead, r.log.value) && r.flushed <= |r.log.value.chunks|)
    && (r.row.Some? && r.log.Some? ==> Durable(r.row.value, r.log.value, r.flushed))
    && (r.row.Some? ==> RowInv(env, r.row.value, r.log, r.now))
  }

  /** A row has its file, in step with it, unless it is already dead; a published row is
      complete and its content has the declared digest. */
  ghost predicate RowInv(env: Env, row: Row, log: Option<Log>, now: int) {
    && (log.Some? ==> InStep(env.aead, row, log.value))
    && (log.None? ==> Dead(row, now))
    && (IsPublished(row) ==> row.published)
    && (row.status == Uploading ==> !row.published)
    && (row.published ==> row.offset == row.total && (log.Some? ==> env.digest(Content(log.value.chunks)) == row.sha256))
  }

  /** How a resource may change: the offset and the flushed chunks only grow, a published row
      never goes back to uploading and its file never changes, and what is gone stays gone. */
  ghost predicate Onward(r: Resource, r': Resource) {
    && r.now <= r'.now
    && (r.created ==> r'.created)
    && (r.created && r.row.None? ==> r'.row.None?)
    && (r.created && r.log.None? ==> r'.log.None?)
    && (r.row.Some? && r'.row.Some? ==> RowOnward(r.row.value, r'.row.value))
    && (r.log.Some? && r'.log.Some? ==> LogOnward(r.log.value, r.flushed, r'.log.value, r'.flushed))
    && (r.row.Some? && r'.row.Some? && r.row.value.published && r.log.Some? && r'.log.Some? ==> r'.log == r.log)
  }

  ghost predicate RowOnward(row: Row, row': Row) {
    && row.total == row'.total && row.sha256 == row'.sha256
    && row.offset <= row'.offset
    && (row.status != Uploading ==> row'.status != Uploading)
    && (row.published ==> row'.published)
  }

  predicate LogOnward(log: Log, flushed: nat, log': Log, flushed': nat) {
    log.prefix == log'.prefix && flushed <= flushed' && flushed <= |log.chunks| && log.chunks[..flushed] <= log'.chunks
  }

  lemma ChunkKeeps(env: Env, r: Resource, op: Op)
    requires Inv(env, r) && Timely(r, op) && op.Chunk?
    ensures Inv(env, Apply(env, r, op).0) && Onward(r, Apply(env, r, op).0)
    ensures Apply(env, r, op).1.Ok? ==>
              var after := Apply(env, r, op).0;
              && after.row.Some? && after.log.Some? && op.offset % CHUNK == 0
              && op.offset + |op.data| <= after.row.value.offset
              && PartsStored(after.log.value.chunks, op.offset, op.data, 0)
    ensures var after := Apply(env, r, op).0;
            r.row.Some? && after.row.Some? && r.row.value.offset < after.row.value.offset ==>
              && after.log.Some? && op.offset % CHUNK == 0
              && AdvanceStored(after.log.value.chunks, op.offset, op.data, 0, r.row.value.offset, after.row.value.offset)
    ensures r.log.Some? ==> Apply(env, r, op).0.log.Some? && Extends(r.log.value, Apply(env, r, op).0.log.value)
  {
    hide InStep, ChunkLoop, PartsStored, Durable, ValidLog, Content, AdvanceStored;
    if r.row.Some? && r.log.Some? && ChunkAllowed(r.row.value, op.now, op.offset, op.data) {
      LoopStart(r.row.value, op.now, op.offset, op.data);
      LoopKeeps(env.aead, r.row.value, r.log.value, r.flushed, op.offset, op.data, 0, r.row.value.offset, op.faults);
      var (row, log, flushed, _) :=
        ChunkLoop(env.aead, r.row.value, r.log.value, r.flushed, op.offset, op.data, 0, r.row.value.offset, op.faults);
      InStepValid(env.aead, row, log);
      DurableFacts(row, log, flushed);
    } else if r.log.Some? {
      SelfOnward(r.log.value, r.flushed);
    }
  }

  lemma SelfOnward(log: Log, flushed: nat)
    requires flushed <= |log.chunks|
    ensures LogOnward(log, flushed, log, flushed) && Extends(log, log)
  {
  }

  lemma InStepValid(aead: Aead, row: Row, log: Log)
    requires InStep(aead, row, log)
    ensures ValidLog(aead, log)
  {
  }

  lemma LoopStart(row: Row, now: int, offset: nat, data: bytes)
    requires ChunkAllowed(row, now, offset, data)
    ensures InPlace(row, offset, data, 0, row.offset)
  {
  }

  lemma CompleteKeeps(env: Env, r: Resource, op: Op)
    requires Inv(env, r) && Timely(r, op) && op.Complete?
    ensures Inv(env, Apply(env, r, op).0) && Onward(r, Apply(env, r, op).0)
  {
    hide InStep, Content, ChunkCount, ValidLog;
    SameOffsets(env, r);
    if r.row.Some? && r.log.Some? && r.row.value.offset == r.row.value.total {
      WholeFile(env.aead, r.row.value, r.log.value);
    }
  }

  /** A complete file is exactly the chunks that the digest covers. */
  lemma WholeFile(aead: Aead, row: Row, log: Log)
    requires InStep(aead, row, log) && row.offset == row.total
    ensures ChunkCount(row.total) == |log.chunks| && log.chunks[..ChunkCount(row.total)] == log.chunks
    ensures |Content(log.chunks)| == row.total
    ensures ChunkCount(row.total) == 0 ==> Content(log.chunks) == []
  {
    assert log.chunks[..|log.chunks|] == log.chunks;
  }

  lemma CreateKeeps(env: Env, r: Resource, op: Op)
    requires Inv(env, r) && Timely(r, op) && op.Create?
    ensures Inv(env, Apply(env, r, op).0) && Onward(r, Apply(env, r, op).0)
  {
  }

  lemma CancelKeeps(env: Env, r: Resource, op: Op)
    requires Inv(env, r) && Timely(r, op) && op.Cancel?
    ensures Inv(env, Apply(env, r, op).0) && Onward(r, Apply(env, r, op).0)
  {
    hide InStep, Content, ChunkCount, ValidLog;
    SameOffsets(env, r);
  }

  lemma DownloadedKeeps(env: Env, r: Resource, op: Op)
    requires Inv(env, r) && Timely(r, op) && op.MarkDownloaded?
    ensures Inv(env, Apply(env, r, op).0) && Onward(r, Apply(env, r, op).0)
  {
    hide InStep, Content, ChunkCount, ValidLog;
    SameOffsets(env, r);
  }

  lemma MaintainKeeps(env: Env, r: Resource, op: Op)
    requires Inv(env, r) && Timely(r, op) && op.Maintain?
    ensures Inv(env, Apply(env, r, op).0) && Onward(r, Apply(env, r, op).0)
  {
    hide InStep, Content;
  }

  lemma PowerLossKeeps(env: Env, r: Resource, op: Op)
    requires Inv(env, r) && Timely(r, op) && op.PowerLoss?
    ensures Inv(env, Apply(env, r, op).0) && Onward(r, Apply(env, r, op).0)
  {
    hide InStep, Content, ValidLog, Crashed, Durable;
    if r.log.Some? {
      var log := r.log.value;
      CrashedKeeps(env.aead, log, r.flushed, op.cut);
      CrashedValid(env.aead, log, r.flushed, op.cut);
      if r.row.Some? {
        CrashedInStep(env.aead, r.row.value, log, r.flushed, op.cut);
      }
    }
  }

  /** A power loss keeps file and row in step, because the offset only covers flushed chunks. */
  lemma CrashedInStep(aead: Aead, row: Row, log: Log, flushed: nat, cut: nat)
    requires InStep(aead, row, log) && Durable(row, log, flushed)
    ensures var c := Crashed(aead, log, flushed, cut);
            InStep(aead, row, c) && Durable(row, c, flushed) && (row.offset == row.total ==> c == log)
  {
    hide Crashed, Content, IsTorn;
    var c, n := Crashed(aead, log, flushed, cut), ChunkCount(row.offset);
    CrashedKeeps(aead, log, flushed, cut);
    CrashedValid(aead, log, flushed, cut);
    assert c.chunks[..n] == log.chunks[..n];
    if c.chunks != log.chunks {
      assert |c.chunks| == n && c.chunks == log.chunks[..n];
      FullBefore(aead, log, n);
    }
  }

  lemma SameOffsets(env: Env, r: Resource)
    requires Inv(env, r)
    ensures r.row.Some? && r.log.Some? ==>
              forall row: Row :: row.offset == r.row.value.offset && row.total == r.row.value.total ==> InStep(env.aead, row, r.log.value)
  {
    hide InStep, Content;
    if r.row.Some? && r.log.Some? {
      SameOffset(env.aead, r.row.value, r.log.value);
    }
  }

  /** Being in step depends on sizes only, not on status or expiry. */
  lemma SameOffset(aead: Aead, row: Row, log: Log)
    requires InStep(aead, row, log)
    ensures forall row': Row :: row'.offset == row.offset && row'.total == row.total ==> InStep(aead, row', log)
  {
  }

  lemma StepKeeps(env: Env, r: Resource, op: Op, r': Resource)
    requires Inv(env, r) && Next(env, r, op, r')
    ensures Inv(env, r') && Onward(r, r')
  {
    hide Inv, Onward, Apply;
    match op
    case Create(_, _, _, _, _) => CreateKeeps(env, r, op);
    case Chunk(_, _, _, _) => ChunkKeeps(env, r, op);
    case Complete(_, _, _) => CompleteKeeps(env, r, op);
    case Cancel(_, _) => CancelKeeps(env, r, op);
    case MarkDownloaded(_) => DownloadedKeeps(env, r, op);
    case Maintain(_, _, _) => MaintainKeeps(env, r, op);
    case PowerLoss(_, _) => PowerLossKeeps(env, r, op);
  }

  type Run = seq<Transition<Op, Resource>>

  function Steps(env: Env): (r: (Resource, Op, Resource) -> bool) {
    (r: Resource, op: Op, r': Resource) => Timely(r, op) && r' == Apply(env, r, op).0
  }

  lemma OnwardTransitive(env: Env, a: Resource, b: Resource, c: Resource)
    requires Inv(env, a) && Inv(env, b) && Onward(a, b) && Onward(b, c)
    ensures Onward(a, c)
  {
    hide RowInv;
  }

  lemma OnwardReflexive(env: Env, a: Resource)
    requires Inv(env, a)
    ensures Onward(a, a)
  {
  }

  lemma RunKeeps(env: Env, r: Resource, run: Run)
    requires Inv(env, r) && IsRun(Steps(env), r, run)
    ensures Inv(env, Final(r, run)) && Onward(r, Final(r, run))
  {
    hide Inv, Onward, Apply, Timely;
    var inv := (r: Resource) => Inv(env, r);
    forall a, op, b | inv(a) && Steps(env)(a, op, b) ensures inv(b) && Onward(a, b) { StepKeeps(env, a, op, b); }
    forall a | inv(a) ensures Onward(a, a) { OnwardReflexive(env, a); }
    forall a, b, c | inv(a) && inv(b) && Onward(a, b) && Onward(b, c) ensures Onward(a, c) { OnwardTransitive(env, a, b, c); }
    RelationHolds(Steps(env), inv, Onward, r, run);
  }

  lemma FreshInv(env: Env)
    requires Lawful(env.aead)
    ensures Inv(env, FRESH)
  {
  }

  /** The upload invariant, after any sequence of requests, failures, crashes and power losses:
      while the file exists it holds the confirmed bytes, flushed, and at most one record more,
      the offset is a multiple of 32 KiB or the total size and has not decreased, and no flushed
      chunk has been lost. */
  lemma UploadSurvivesCrashes(env: Env, run: Run, later: Run)
    requires Lawful(env.aead) && IsRun(Steps(env), FRESH, run) && IsRun(Steps(env), Final(FRESH, run), later)
    ensures var r, r' := Final(FRESH, run), Final(Final(FRESH, run), later);
            && (r'.row.Some? && r'.log.Some? ==>
                  var row, log := r'.row.value, r'.log.value;
                  && ValidLog(env.aead, log) && row.offset <= row.total
                  && (row.offset % CHUNK == 0 || row.offset == row.total)
                  && ChunkCount(row.offset) <= r'.flushed <= |log.chunks| <= ChunkCount(row.offset) + 1
                  && |Content(log.chunks[..ChunkCount(row.offset)])| == row.offset
                  && (log.torn != [] ==> |log.chunks| == ChunkCount(row.offset)))
            && (r'.row.Some? && r'.log.None? ==> Dead(r'.row.value, r'.now))
            && (r.row.Some? && r'.row.Some? ==> r.row.value.offset <= r'.row.value.offset)
            && (r.log.Some? && r'.log.Some? ==>
                  r.flushed <= |r.log.value.chunks| && r.log.value.chunks[..r.flushed] <= r'.log.value.chunks)
  {
    hide Inv, Onward, Content, IsRun, ValidLog;
    FreshInv(env);
    RunKeeps(env, FRESH, run);
    var r := Final(FRESH, run);
    RunKeeps(env, r, later);
    var r' := Final(r, later);
    UploadFacts(env, r');
    OnwardFacts(r, r');
  }

  lemma UploadFacts(env: Env, r: Resource)
    requires Inv(env, r)
    ensures r.row.Some? && r.log.Some? ==>
              var row, log := r.row.value, r.log.value;
              && ValidLog(env.aead, log) && row.offset <= row.total
              && (row.offset % CHUNK == 0 || row.offset == row.total)
              && ChunkCount(row.offset) <= r.flushed <= |log.chunks| <= ChunkCount(row.offset) + 1
              && |Content(log.chunks[..ChunkCount(row.offset)])| == row.offset
              && (log.torn != [] ==> |log.chunks| == ChunkCount(row.offset))
    ensures r.row.Some? && r.log.None? ==> Dead(r.row.value, r.now)
  {
    if r.row.Some? && r.log.Some? {
      OffsetAligned(env.aead, r.row.value, r.log.value);
    }
  }

  lemma OnwardFacts(r: Resource, r': Resource)
    requires Onward(r, r')
    ensures r.row.Some? && r'.row.Some? ==> r.row.value.offset <= r'.row.value.offset
    ensures r.log.Some? && r'.log.Some? ==>
              r.flushed <= |r.log.value.chunks| && r.log.value.chunks[..r.flushed] <= r'.log.value.chunks
  {
  }

  /** The part of the request that holds its byte `i` is stored. */
  predicate ByteStored(chunks: seq<bytes>, offset: nat, data: bytes, i: nat)
    requires i < |data|
  {
    PartStored(chunks, offset, data, i / CHUNK * CHUNK)
  }

  /** A byte of a stored part is where it belongs in the content. */
  lemma StoredByte(aead: Aead, log: Log, offset: nat, data: bytes, i: nat)
    requires ValidLog(aead, log) && offset % CHUNK == 0 && i < |data| && ByteStored(log.chunks, offset, data, i)
    ensures offset + i < |Content(log.chunks)| && Content(log.chunks)[offset + i] == data[i]
  {
    hide ValidLog, Content, AllFull, Part;
    var at := i / CHUNK * CHUNK;
    ChunkOf(offset, i);
    var k := (offset + at) / CHUNK;
    FullBefore(aead, log, k);
    ContentChunk(log.chunks, k);
    PartByte(data, at, i);
    assert Content(log.chunks)[offset + at..offset + at + |log.chunks[k]|][i - at] == data[i];
  }

  lemma ChunkOf(offset: nat, i: nat)
    requires offset % CHUNK == 0
    ensures var at := i / CHUNK * CHUNK;
            at % CHUNK == 0 && at <= i < at + CHUNK && (offset + at) / CHUNK * CHUNK == offset + at
  {
  }

  lemma PartByte(data: bytes, at: nat, i: nat)
    requires at <= i < |data| && i < at + CHUNK
    ensures i - at < |Part(data, at)| && Part(data, at)[i - at] == data[i]
  {
  }

  /** A byte of the request that the service has confirmed: the whole request was acknowledged,
      or this request moved the offset past the byte, even if the reply was an error or lost. */
  ghost predicate Confirmed(env: Env, r: Resource, op: Op, i: nat)
    requires op.Chunk?
  {
    var (after, reply) := Apply(env, r, op);
    reply.Ok? || (r.row.Some? && after.row.Some? && r.row.value.offset <= op.offset + i < after.row.value.offset)
  }

  /** Every byte of a request that was confirmed is in the file, now and in every later state in
      which the file still exists. */
  lemma ConfirmedBytesStay(env: Env, r: Resource, op: Op, later: Run, i: nat)
    requires Inv(env, r) && op.Chunk? && Timely(r, op) && i < |op.data| && Confirmed(env, r, op, i)
    requires IsRun(Steps(env), Apply(env, r, op).0, later)
    ensures var end := Final(Apply(env, r, op).0, later);
            end.log.Some? ==> op.offset + i < |Content(end.log.value.chunks)| && Content(end.log.value.chunks)[op.offset + i] == op.data[i]
  {
    hide Inv, Apply, Onward, IsRun, Content, ByteStored, ValidLog;
    ChunkKeeps(env, r, op);
    ConfirmedPart(env, r, op, i);
    var after := Apply(env, r, op).0;
    RunKeeps(env, after, later);
    var end := Final(after, later);
    OnwardFacts(after, end);
    if end.log.Some? {
      GoneIsGone(after, end);
      InvValid(env, end);
      StaysStored(after.log.value.chunks[..after.flushed], end.log.value.chunks, op.offset, op.data, i);
      StoredByte(env.aead, end.log.value, op.offset, op.data, i);
    }
  }

  lemma StaysStored(chunks: seq<bytes>, later: seq<bytes>, offset: nat, data: bytes, i: nat)
    requires i < |data| && ByteStored(chunks, offset, data, i) && chunks <= later
    ensures ByteStored(later, offset, data, i)
  {
    hide Part;
  }

  lemma GoneIsGone(r: Resource, r': Resource)
    requires Onward(r, r') && r.created && r'.log.Some?
    ensures r.log.Some?
  {
  }

  lemma InvValid(env: Env, r: Resource)
    requires Inv(env, r) && r.log.Some?
    ensures ValidLog(env.aead, r.log.value) && Sized(r.log.value.chunks) && r.created
  {
  }

  /** The confirmed byte's chunk is stored and flushed. */
  lemma ConfirmedPart(env: Env, r: Resource, op: Op, i: nat)
    requires Inv(env, r) && op.Chunk? && Timely(r, op) && i < |op.data| && Confirmed(env, r, op, i)
    ensures var after := Apply(env, r, op).0;
            && op.offset % CHUNK == 0 && after.created && after.log.Some? && after.flushed <= |after.log.value.chunks|
            && ByteStored(after.log.value.chunks[..after.flushed], op.offset, op.data, i)
  {
    hide Inv, Apply, Onward, ByteStored, PartsStored, AdvanceStored, ChunkCount, Content, ValidLog;
    ChunkKeeps(env, r, op);
    var (after, reply) := Apply(env, r, op);
    UploadFacts(env, after);
    InvValid(env, after);
    if reply.Ok? {
      PartOfStored(after.log.value.chunks, op.offset, op.data, i);
    } else {
      OffsetBelow(env, r, after);
      PartOfAdvance(after.log.value.chunks, op.offset, op.data, i, r.row.value.offset, after.row.value.offset);
    }
    BelowOffset(after.log.value.chunks, op.offset, op.data, i, after.row.value.offset, after.flushed);
  }

  lemma OffsetBelow(env: Env, r: Resource, r': Resource)
    requires Inv(env, r) && Inv(env, r') && Onward(r, r') && r.row.Some? && r'.row.Some? && r'.log.Some?
    requires r.row.value.offset < r'.row.value.offset
    ensures r.row.value.offset % CHUNK == 0
  {
    hide Content, InStep;
    GoneIsGone(r, r');
    UploadFacts(env, r);
    UploadFacts(env, r');
  }

  lemma PartOfStored(chunks: seq<bytes>, offset: nat, data: bytes, i: nat)
    requires offset % CHUNK == 0 && PartsStored(chunks, offset, data, 0) && i < |data|
    ensures ByteStored(chunks, offset, data, i)
  {
    hide PartStored;
    ChunkOf(offset, i);
  }

  lemma PartOfAdvance(chunks: seq<bytes>, offset: nat, data: bytes, i: nat, start: nat, end: nat)
    requires offset % CHUNK == 0 && start % CHUNK == 0 && i < |data| && start <= offset + i < end
    requires AdvanceStored(chunks, offset, data, 0, start, end)
    ensures ByteStored(chunks, offset, data, i)
  {
    hide PartStored;
    ChunkOf(offset, i);
    assert start <= offset + i / CHUNK * CHUNK;
  }

  lemma BelowOffset(chunks: seq<bytes>, offset: nat, data: bytes, i: nat, confirmed: nat, flushed: nat)
    requires i < |data| && ByteStored(chunks, offset, data, i) && offset + i < confirmed && ChunkCount(confirmed) <= flushed <= |chunks|
    ensures ByteStored(chunks[..flushed], offset, data, i)
  {
    hide Part;
    CountCovers(confirmed, offset, i / CHUNK * CHUNK);
  }

  lemma CountCovers(confirmed: nat, offset: nat, at: nat)
    requires offset + at < confirmed
    ensures (offset + at) / CHUNK < ChunkCount(confirmed)
  {
  }

  /** The request carries a slice of `content` at its offset. */
  predicate IsSlice(content: bytes, op: Op) {
    op.Chunk? ==> op.offset + |op.data| <= |content| && op.data == content[op.offset..op.offset + |op.data|]
  }

  function SliceSteps(env: Env, content: bytes): (Resource, Op, Resource) -> bool {
    (r: Resource, op: Op, r': Resource) => Timely(r, op) && r' == Apply(env, r, op).0 && IsSlice(content, op)
  }

  /** Chunk `k` is the slice of `content` at k * 32 KiB. */
  predicate SliceAt(content: bytes, chunk: bytes, k: nat) {
    k * CHUNK + |chunk| <= |content| && chunk == content[k * CHUNK..k * CHUNK + |chunk|]
  }

  ghost predicate ChunksOf(content: bytes, chunks: seq<bytes>) {
    forall k :: 0 <= k < |chunks| ==> SliceAt(content, chunks[k], k)
  }

  ghost predicate StoresOnly(content: bytes, r: Resource) {
    r.log.Some? ==> ChunksOf(content, r.log.value.chunks)
  }

  lemma PartIsSlice(content: bytes, offset: nat, data: bytes, k: nat)
    requires offset + |data| <= |content| && data == content[offset..offset + |data|]
    requires offset <= k * CHUNK < offset + |data|
    ensures SliceAt(content, Part(data, k * CHUNK - offset), k)
  {
    var at := k * CHUNK - offset;
    var end := Min(at + CHUNK, |data|);
    SliceOfSlice(content, offset, offset + |data|, at, end);
  }

  lemma AddedAreSlices(content: bytes, log: Log, log': Log, offset: nat, data: bytes)
    requires ChunksOf(content, log.chunks) && log.chunks <= log'.chunks && AddsParts(log, log', offset, data)
    requires offset + |data| <= |content| && data == content[offset..offset + |data|]
    ensures ChunksOf(content, log'.chunks)
  {
    hide SliceAt, Part;
    forall k | 0 <= k < |log'.chunks| ensures SliceAt(content, log'.chunks[k], k) {
      if k < |log.chunks| {
        assert log'.chunks[k] == log.chunks[k];
      } else {
        PartIsSlice(content, offset, data, k);
      }
    }
  }

  lemma FewerChunks(content: bytes, chunks: seq<bytes>, fewer: seq<bytes>)
    requires ChunksOf(content, chunks) && fewer <= chunks
    ensures ChunksOf(content, fewer)
  {
    hide SliceAt;
  }

  lemma StepStoresOnly(env: Env, content: bytes, r: Resource, op: Op, r': Resource)
    requires Inv(env, r) && StoresOnly(content, r) && Next(env, r, op, r') && IsSlice(content, op)
    ensures StoresOnly(content, r')
  {
    hide ChunkLoop, ChunksOf, Crashed, AddsParts, RowInv, ValidLog, Content, Durable;
    if op.Chunk? && r.row.Some? && r.log.Some? && ChunkAllowed(r.row.value, op.now, op.offset, op.data) {
      LoopAddsParts(env.aead, r.row.value, r.log.value, r.flushed, op.offset, op.data, 0, r.row.value.offset, op.faults);
      AddedAreSlices(content, r.log.value, r'.log.value, op.offset, op.data);
    } else if op.PowerLoss? && r.log.Some? {
      CrashedKeeps(env.aead, r.log.value, r.flushed, op.cut);
      FewerChunks(content, r.log.value.chunks, r'.log.value.chunks);
    } else {
      NoChunks(content);
    }
  }

  lemma NoChunks(content: bytes)
    ensures ChunksOf(content, [])
  {
  }

  lemma {:induction false} SlicesMakeUp(aead: Aead, log: Log, content: bytes, k: nat)
    requires ValidLog(aead, log) && ChunksOf(content, log.chunks) && k <= |log.chunks|
    ensures Content(log.chunks[..k]) <= content
  {
    hide ValidLog, AllFull, Content, SliceAt;
    if k == 0 {
      EmptyContent(log.chunks);
    } else {
      SlicesMakeUp(aead, log, content, k - 1);
      FullBefore(aead, log, k - 1);
      ContentFull(log.chunks[..k - 1]);
      ContentSnoc(log.chunks, k - 1);
      NextSlice(content, Content(log.chunks[..k - 1]), log.chunks[k - 1], k - 1);
    }
  }

  lemma NextSlice(content: bytes, done: bytes, chunk: bytes, k: nat)
    requires done <= content && |done| == k * CHUNK && SliceAt(content, chunk, k)
    ensures done + chunk <= content
  {
  }

  lemma EmptyContent(chunks: seq<bytes>)
    ensures Content(chunks[..0]) == []
  {
  }

  lemma RunStoresOnly(env: Env, content: bytes, run: Run)
    requires Lawful(env.aead) && IsRun(SliceSteps(env, content), FRESH, run)
    ensures Inv(env, Final(FRESH, run)) && StoresOnly(content, Final(FRESH, run))
  {
    hide Inv, StoresOnly, Apply, Timely, IsSlice;
    var inv := (r: Resource) => Inv(env, r) && StoresOnly(content, r);
    FreshInv(env);
    FreshStoresNothing(content);
    forall a, op, b | inv(a) && SliceSteps(env, content)(a, op, b) ensures inv(b) {
      StepKeeps(env, a, op, b);
      StepStoresOnly(env, content, a, op, b);
    }
    InvariantHolds(SliceSteps(env, content), inv, FRESH, run);
  }

  lemma FreshStoresNothing(content: bytes)
    ensures StoresOnly(content, FRESH)
  {
  }

  /** A resumed upload is the client's file.  If every request of a run carries a slice of one
      string at its offset, then after any failures, lost replies, crashes and power losses the
      file holds a beginning of that string, the confirmed part is exactly its first `offset`
      bytes, and a published file is the string up to the declared size. */
  lemma ResumedUploadIsTheFile(env: Env, content: bytes, run: Run)
    requires Lawful(env.aead) && IsRun(SliceSteps(env, content), FRESH, run)
    ensures var r := Final(FRESH, run);
            && (r.log.Some? ==> Content(r.log.value.chunks) <= content)
            && (r.row.Some? && r.log.Some? ==>
                  var row, log := r.row.value, r.log.value;
                  && ChunkCount(row.offset) <= |log.chunks| && row.offset <= |content|
                  && Content(log.chunks[..ChunkCount(row.offset)]) == content[..row.offset]
                  && (row.published ==> row.total <= |content| && Content(log.chunks) == content[..row.total]))
  {
    hide Inv, Content, ChunksOf, IsRun, ValidLog;
    RunStoresOnly(env, content, run);
    var r := Final(FRESH, run);
    if r.log.Some? {
      var log := r.log.value;
      InvValid(env, r);
      SlicesMakeUp(env.aead, log, content, |log.chunks|);
      assert log.chunks[..|log.chunks|] == log.chunks;
      if r.row.Some? {
        UploadFacts(env, r);
        SlicesMakeUp(env.aead, log, content, ChunkCount(r.row.value.offset));
        PublishedIsWhole(env, r);
      }
    }
  }

  lemma PublishedIsWhole(env: Env, r: Resource)
    requires Inv(env, r) && r.row.Some? && r.log.Some?
    ensures r.row.value.published ==> |Content(r.log.value.chunks)| == r.row.value.total
  {
    hide Content;
    if r.row.value.published {
      WholeFile(env.aead, r.row.value, r.log.value);
    }
  }

  /** Operations other than a power loss. */
  function CalmSteps(env: Env): (Resource, Op, Resource) -> bool {
    (r: Resource, op: Op, r': Resource) => Timely(r, op) && r' == Apply(env, r, op).0 && !op.PowerLoss?
  }

  ghost predicate FileExtends(r: Resource, r': Resource) {
    && (r.created ==> r'.created) && (r.created && r.log.None? ==> r'.log.None?)
    && (r.log.Some? && r'.log.Some? ==> Extends(r.log.value, r'.log.value))
  }

  lemma CalmStepExtends(env: Env, r: Resource, op: Op, r': Resource)
    requires Inv(env, r) && Next(env, r, op, r') && !op.PowerLoss?
    ensures FileExtends(r, r')
  {
    hide ChunkLoop, RowInv, ValidLog, Durable, Onward;
    if op.Chunk? {
      ChunkKeeps(env, r, op);
    }
  }

  lemma ExtendsEncodes(aead: Aead, log: Log, log': Log)
    requires Extends(log, log') && Sized(log.chunks) && Sized(log'.chunks)
    ensures Encode(aead, log) <= Encode(aead, log')
  {
    hide Records, Sized;
    if log.torn == [] {
      assert log'.chunks[..|log.chunks|] == log.chunks;
      RecordsPrefix(aead, log.prefix, log'.chunks, |log.chunks|);
      var head, done := MAGIC + log.prefix, Records(aead, log.prefix, log'.chunks);
      assert head + Records(aead, log.prefix, log.chunks) + [] == head + Records(aead, log.prefix, log.chunks);
      LongerTail(head, Records(aead, log.prefix, log.chunks), done, log'.torn);
    }
  }

  lemma LongerTail(head: bytes, a: bytes, b: bytes, tail: bytes)
    requires a <= b
    ensures head + a <= head + b + tail
  {
  }

  /** The bytes of a file never change and a torn tail is final, over any run without a power
      loss; so a (prefix, index) nonce never gets a second ciphertext. */
  lemma BytesNeverChange(env: Env, r: Resource, later: Run)
    requires Inv(env, r) && IsRun(CalmSteps(env), r, later) && r.log.Some? && Final(r, later).log.Some?
    ensures var log, log' := r.log.value, Final(r, later).log.value;
            && Sized(log.chunks) && Sized(log'.chunks) && Encode(env.aead, log) <= Encode(env.aead, log')
            && (log.torn != [] ==> log' == log)
  {
    hide Inv, Apply, Timely, Encode, IsRun, Extends;
    var inv := (a: Resource) => Inv(env, a);
    forall a, op, b | inv(a) && CalmSteps(env)(a, op, b) ensures inv(b) && FileExtends(a, b) {
      StepKeeps(env, a, op, b);
      CalmStepExtends(env, a, op, b);
    }
    forall a | inv(a) ensures FileExtends(a, a) { SameFile(a); }
    forall a, b, c | inv(a) && inv(b) && FileExtends(a, b) && FileExtends(b, c) ensures FileExtends(a, c) { FilesExtend(env, a, b, c); }
    RelationHolds(CalmSteps(env), inv, FileExtends, r, later);
    var end := Final(r, later);
    InvValid(env, r);
    InvValid(env, end);
    ExtendsEncodes(env.aead, r.log.value, end.log.value);
    ExtendsTorn(r.log.value, end.log.value);
  }

  lemma ExtendsTorn(log: Log, log': Log)
    requires Extends(log, log')
    ensures log.torn != [] ==> log' == log
  {
  }

  lemma SameFile(r: Resource)
    ensures FileExtends(r, r)
  {
  }

  lemma FilesExtend(env: Env, a: Resource, b: Resource, c: Resource)
    requires Inv(env, a) && FileExtends(a, b) && FileExtends(b, c)
    ensures FileExtends(a, c)
  {
    hide RowInv, ValidLog, Durable;
  }

  /** Once published, a file never changes: every later read that succeeds returns the slice
      at its offset of one string, whose length is the declared size and whose digest is the
      declared digest; and the row never goes back to uploading. */
  lemma PublishedFileIsFixed(env: Env, r: Resource, later: Run, now: int, offset: nat)
    requires Inv(env, r) && r.row.Some? && r.log.Some? && r.row.value.published
    requires IsRun(Steps(env), r, later)
    ensures var content := Content(r.log.value.chunks);
            && |content| == r.row.value.total && env.digest(content) == r.row.value.sha256
            && (Final(r, later).row.Some? ==> Final(r, later).row.value.status != Uploading)
            && (ReadOp(Final(r, later), now, offset).Some? ==>
                  && offset <= |content|
                  && ReadOp(Final(r, later), now, offset).value == content[offset..Min(offset + CHUNK, |content|)])
  {
    hide Apply, IsRun, Timely, InStep, Content;
    RunKeeps(env, r, later);
    var log := r.log.value;
    WholeFile(env.aead, r.row.value, log);
    InStepValid(env.aead, r.row.value, log);
    if ReadOp(Final(r, later), now, offset).Some? {
      assert Final(r, later).log == r.log;
      SliceOfContent(env.aead, log, r.row.value.total, offset);
    }
  }

  lemma SliceOfContent(aead: Aead, log: Log, total: nat, offset: nat)
    requires ValidLog(aead, log) && |Content(log.chunks)| == total && ReadLog(log, offset, CHUNK).Some?
    ensures offset <= total && ReadLog(log, offset, CHUNK).value == Content(log.chunks)[offset..Min(offset + CHUNK, total)]
  {
    hide Content, AllFull;
    var k := offset / CHUNK;
    FullBefore(aead, log, k);
    ContentChunk(log.chunks, k);
    assert k * CHUNK == offset;
    if k + 1 < |log.chunks| {
      assert |log.chunks[k]| == CHUNK;
    } else {
      ContentFull(log.chunks[..k]);
      ContentSnoc(log.chunks, k);
      assert log.chunks[..k + 1] == log.chunks;
    }
  }

  /** The publish event is there exactly when publication has been committed and the row has
      not been deleted; and a readable row always has its file. */
  lemma EventFollowsPublication(env: Env, run: Run, now: int)
    requires Lawful(env.aead) && IsRun(Steps(env), FRESH, run)
    ensures var r := Final(FRESH, run);
            && (r.event <==> r.row.Some? && r.row.value.published)
            && (r.row.Some? && IsPublished(r.row.value) && now >= r.now && !Expired(r.row.value, now) ==>
                  r.event && forall k: nat :: k * CHUNK < r.row.value.total ==> ReadOp(r, now, k * CHUNK).Some?)
  {
    hide Apply, IsRun, Timely, InStep, Content, ReadOp;
    FreshInv(env);
    RunKeeps(env, FRESH, run);
    var r := Final(FRESH, run);
    if r.row.Some? && IsPublished(r.row.value) && now >= r.now && !Expired(r.row.value, now) {
      forall k: nat | k * CHUNK < r.row.value.total ensures ReadOp(r, now, k * CHUNK).Some? {
        PublishedIsReadable(env, r, now, k);
      }
    }
  }

  /** While a row is published and has not expired, every chunk of its file can be read. */
  lemma PublishedIsReadable(env: Env, r: Resource, now: int, k: nat)
    requires Inv(env, r) && r.row.Some? && IsPublished(r.row.value) && now >= r.now && !Expired(r.row.value, now)
    requires k * CHUNK < r.row.value.total
    ensures ReadOp(r, now, k * CHUNK).Some?
  {
    hide InStep, Content;
    WholeFile(env.aead, r.row.value, r.log.value);
    Chunking(r.row.value.total, k);
    InStepValid(env.aead, r.row.value, r.log.value);
    assert r.log.value.chunks[k] in r.log.value.chunks;
  }
}
