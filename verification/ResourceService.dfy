/** The resource service's handlers for one attachment, as they update row, file and outbox
    in place, proved against the operations of module Attachment. */
module ResourceService {
  import opened Messages
  import opened RecordFile
  import opened EncryptedFileStore
  import opened Upload
  import opened Attachment

  class Transfer {
    const env: Env
    var row: Option<Row>
    var file: Option<bytes>
    var event: bool
    var now: int
    var created: bool
    ghost var log: Option<Log>
    ghost var flushed: nat

    ghost function State(): Resource
      reads this
    {
      Resource(row, log, flushed, event, now, created)
    }

    ghost predicate Valid()
      reads this
    {
      && Inv(env, State())
      && (file.Some? <==> log.Some?)
      && (file.Some? ==> Represents(env.aead, file.value, log.value))
    }

    constructor (env: Env)
      requires Lawful(env.aead)
      ensures Valid() && this.env == env && State() == FRESH
    {
      this.env := env;
      row, file, event, now, created, log, flushed := None, None, false, 0, false, None, 0;
      new;
      FreshInv(env);
    }

    method CreateUpload(total: nat, sha256: string, prefix: bytes, at: int, committed: bool) returns (reply: Reply)
      requires Valid() && now <= at && |prefix| == PREFIX
      modifies this
      ensures Valid()
      ensures (State(), reply) == Apply(env, old(State()), Create(total, sha256, prefix, at, committed))
    {
      CreateKeeps(env, State(), Create(total, sha256, prefix, at, committed));
      now := at;
      if created {
        return Error(409);
      }
      created, file, log, flushed := true, Some(MAGIC + prefix), Some(Log(prefix, [], [])), 0;
      assert MAGIC + prefix + [] + [] == MAGIC + prefix;
      event := false;
      if !committed {
        row := None;
        return Error(503);
      }
      row := Some(Row(total, 0, sha256, Uploading, at + 7 * DAY, false));
      return Ok(0);
    }

    method PutChunk(offset: nat, data: bytes, at: int, faults: nat -> Fault) returns (reply: Reply)
      requires Valid() && now <= at
      modifies this
      ensures Valid()
      ensures (State(), reply) == Apply(env, old(State()), Chunk(offset, data, at, faults))
    {
      hide InStep, Represents, ChunkLoop, ValidLog, AfterAppend;
      ChunkKeeps(env, State(), Chunk(offset, data, at, faults));
      now := at;
      if row.None? {
        return Error(404);
      }
      if !ChunkAllowed(row.value, at, offset, data) {
        return Error(ChunkRefusal(row.value, at, offset, data));
      }
      // A row that takes chunks always has its file: only dead rows lose it.
      var row', file', answer, log', flushed' := ChunkBytes(env.aead, row.value, file.value, offset, data, faults, log.value, flushed);
      row, file, log, flushed := Some(row'), Some(file'), Some(log'), flushed';
      return answer;
    }

    method CompleteUpload(at: int, later: int, applied: bool) returns (reply: Reply)
      requires Valid() && now <= at <= later
      modifies this
      ensures Valid()
      ensures (State(), reply) == Apply(env, old(State()), Complete(at, later, applied))
    {
      hide InStep, Represents, ValidLog, Durable;
      CompleteKeeps(env, State(), Complete(at, later, applied));
      now := at;
      if row.None? {
        return Error(404);
      }
      var r := row.value;
      if r.expires <= at || r.status == Cancelled {
        return Error(410);
      }
      if r.status == Available || r.status == Downloaded {
        return Ok(r.offset);
      }
      if r.offset != r.total {
        return Error(409);
      }
      var hash := None;
      if r.total == 0 {
        hash := Some(env.digest([]));
      } else if file.Some? {
        hash := Sha256(env.aead, file.value, r.total, env.digest, log.value);
      }
      if hash.None? {
        return Error(503);
      }
      if hash.value != r.sha256 {
        return Error(422);
      }
      if !applied {
        return Error(503);
      }
      row, event := Some(r.(status := Available, published := true, expires := later + 7 * DAY)), true;
      return Ok(r.offset);
    }

    method Delete(at: int, viaUploads: bool) returns (reply: Reply)
      requires Valid() && now <= at
      modifies this
      ensures Valid()
      ensures (State(), reply) == Apply(env, old(State()), Cancel(at, viaUploads))
    {
      hide InStep, Represents, Durable, ValidLog;
      CancelKeeps(env, State(), Cancel(at, viaUploads));
      now := at;
      if row.None? {
        return Error(404);
      }
      if row.value.expires <= at || row.value.status == Cancelled {
        return Error(410);
      }
      if viaUploads && row.value.status != Uploading {
        return Error(409);
      }
      reply := Ok(row.value.offset);
      row := Some(row.value.(status := Cancelled, expires := at));
    }

    method PostDownloaded(at: int) returns (reply: Reply)
      requires Valid() && now <= at
      modifies this
      ensures Valid()
      ensures (State(), reply) == Apply(env, old(State()), MarkDownloaded(at))
    {
      hide InStep, Represents, Durable, ValidLog;
      DownloadedKeeps(env, State(), MarkDownloaded(at));
      now := at;
      if row.None? {
        return Error(404);
      }
      if row.value.expires <= at || row.value.status == Cancelled {
        return Error(410);
      }
      if row.value.status != Available && row.value.status != Downloaded {
        return Error(409);
      }
      reply := Ok(row.value.offset);
      row := Some(row.value.(status := Downloaded, expires := Min(row.value.expires, at + DAY)));
    }

    /** `removed` and `committed` say how far collection gets before a failure. */
    method Collect(at: int, removed: bool, committed: bool) returns (reply: Reply)
      requires Valid() && now <= at
      modifies this
      ensures Valid()
      ensures (State(), reply) == Apply(env, old(State()), Maintain(at, removed, committed))
    {
      hide InStep, Represents, Durable, ValidLog;
      MaintainKeeps(env, State(), Maintain(at, removed, committed));
      now := at;
      if row.None? || !(row.value.expires <= at || row.value.status == Cancelled) || !removed {
        return Ok(0);
      }
      file, log := None, None;
      if !committed {
        return Error(503);
      }
      event := false;
      row := None;
      return Ok(0);
    }

    /** A power loss leaves the first `kept` bytes of the file: the flushed records and `cut`
        bytes more. */
    method LosePower(at: int, kept: nat, ghost cut: nat)
      requires Valid() && now <= at
      requires file.Some? ==> Leaves(env.aead, file.value, log.value, flushed, kept, cut)
      modifies this
      ensures Valid()
      ensures State() == Apply(env, old(State()), PowerLoss(at, cut)).0
      ensures old(file).Some? ==> kept <= |old(file).value| && file == Some(old(file).value[..kept])
    {
      hide InStep, Represents, Leaves, ValidLog, Crashed, Durable;
      PowerLossKeeps(env, State(), PowerLoss(at, cut));
      now := at;
      if file.Some? {
        RepresentsCut(env.aead, file.value, log.value, flushed, kept, cut);
        file, log := Some(file.value[..kept]), Some(Crashed(env.aead, log.value, flushed, cut));
      }
    }

    /** One read of the download stream. */
    method ReadChunk(at: int, offset: nat) returns (plain: Option<bytes>)
      requires Valid()
      ensures plain == ReadOp(State(), at, offset)
    {
      hide InStep, Represents;
      if row.None? || row.value.expires <= at || !(row.value.status == Available || row.value.status == Downloaded) || file.None? {
        return None;
      }
      plain := Read(env.aead, file.value, offset, CHUNK, log.value);
    }
  }

  ghost predicate Leaves(aead: Aead, file: bytes, log: Log, flushed: nat, kept: nat, cut: nat) {
    Sized(log.chunks) && flushed <= |log.chunks| && kept == Position(aead, log, flushed) + cut <= |file|
  }

  lemma RepresentsCut(aead: Aead, file: bytes, log: Log, flushed: nat, kept: nat, cut: nat)
    requires Represents(aead, file, log) && Leaves(aead, file, log, flushed, kept, cut)
    ensures kept <= |file| && Represents(aead, file[..kept], Crashed(aead, log, flushed, cut))
  {
    hide Encode, Crashed, Position;
    CrashedValid(aead, log, flushed, cut);
    CrashedEncodes(aead, log, flushed, cut);
  }
}
