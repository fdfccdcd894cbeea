/** Append, read and digest on the bytes of an attachment file, written as the store writes
    them, and their agreement with the abstract log of chunks. */
module EncryptedFileStore {
  import opened Messages
  import opened RecordFile

  /** The record of chunk `index` stands at `pos`. */
  ghost predicate RecordHere(aead: Aead, file: bytes, log: Log, index: nat, pos: nat) {
    && index < |log.chunks| && 0 < |log.chunks[index]| <= CHUNK && |log.prefix| == PREFIX
    && var end := pos + 4 + |log.chunks[index]| + TAG;
       && end <= |file|
       && DecodeLength(file[pos..pos + 4]) == |log.chunks[index]|
       && file[pos + 4..end] == aead.seal(Nonce(log.prefix, index), log.chunks[index])
  }

  /** What the record loop finds at `pos` when it is about to read record `index`. */
  lemma NextRecord(aead: Aead, file: bytes, log: Log, index: nat, pos: nat)
    requires Represents(aead, file, log) && index <= |log.chunks| && pos == Position(aead, log, index)
    ensures pos <= |file|
    ensures index < |log.chunks| ==>
              && pos + 4 + |log.chunks[index]| + TAG == Position(aead, log, index + 1)
              && RecordHere(aead, file, log, index, pos)
    ensures index == |log.chunks| ==>
              && |file| - pos == |log.torn|
              && (pos + 4 <= |file| ==> pos + 4 + DecodeLength(file[pos..pos + 4]) + TAG > |file|)
  {
    hide Encode, Records, DecodeLength, Nonce;
    if index < |log.chunks| {
      RecordAt(aead, file, log, index);
      assert log.chunks[index] in log.chunks;
    } else {
      TailAt(aead, file, log);
      if pos + 4 <= |file| {
        TornIsShort(aead, log);
        assert file[pos..pos + 4] == log.torn[..4];
      }
    }
  }

  ghost predicate At(aead: Aead, log: Log, index: nat, pos: nat) {
    Sized(log.chunks) && index <= |log.chunks| && pos == Position(aead, log, index)
  }

  ghost predicate FullUpTo(log: Log, index: nat) {
    index <= |log.chunks| && forall i :: 0 <= i < index ==> |log.chunks[i]| == CHUNK
  }

  lemma PartialIsLast(aead: Aead, log: Log, offset: nat, plain: bytes, index: nat)
    requires ValidLog(aead, log) && index < offset / CHUNK && index <= |log.chunks|
    requires index == |log.chunks| || |log.chunks[index]| != CHUNK
    ensures AppendOutcome(log, offset, plain).Refuse?
  {
    if index < |log.chunks| {
      assert log.chunks[index] in log.chunks;
    }
  }

  ghost predicate StopsAt(log: Log, index: nat) {
    index <= |log.chunks| && (index == |log.chunks| || |log.chunks[index]| != CHUNK)
  }

  /** One turn of the record loop, at `pos` before record `index`: past the last chunk no whole
      record follows; before it stands exactly that chunk's record. */
  lemma RecordTurn(aead: Aead, file: bytes, log: Log, index: nat, pos: nat)
    requires Represents(aead, file, log) && At(aead, log, index, pos)
    ensures pos <= |file| && index <= |log.chunks|
    ensures index == |log.chunks| ==> pos + 4 > |file| || pos + 4 + DecodeLength(file[pos..pos + 4]) + TAG > |file|
    ensures index < |log.chunks| ==>
              && pos + 4 <= |file|
              && var size := DecodeLength(file[pos..pos + 4]);
                 && size == |log.chunks[index]| && 0 < size <= CHUNK && pos + 4 + size + TAG <= |file|
                 && At(aead, log, index + 1, pos + 4 + size + TAG)
                 && aead.unseal(Nonce(log.prefix, index), file[pos + 4..pos + 4 + size + TAG]) == Some(log.chunks[index])
  {
    hide Records, Encode, DecodeLength, EncodeLength, ValidLog, Nonce, Position;
    NextRecord(aead, file, log, index, pos);
  }

  lemma FirstRecord(aead: Aead, file: bytes, log: Log)
    requires Represents(aead, file, log)
    ensures |file| >= HEADER && file[..9] == MAGIC && file[9..HEADER] == log.prefix && |log.prefix| == PREFIX
    ensures At(aead, log, 0, HEADER)
  {
    hide Records, Encode;
    HeaderAt(aead, file, log);
  }

  lemma FullOneMore(log: Log, index: nat)
    requires FullUpTo(log, index) && index < |log.chunks| && |log.chunks[index]| == CHUNK
    ensures FullUpTo(log, index + 1)
  {
  }

  /** Skip the confirmed records: every one must be complete and full.  None means the file
      does not hold them. */
  method SkipConfirmed(aead: Aead, file: bytes, k: nat, ghost log: Log)
    returns (end: Option<nat>, ghost stop: nat)
    requires |file| >= HEADER
    ensures end.Some? ==> HEADER <= end.value <= |file|
    ensures Represents(aead, file, log) ==>
              if end.Some? then At(aead, log, k, end.value) && FullUpTo(log, k) else stop < k && StopsAt(log, stop)
  {
    hide DecodeLength, Represents, At, FullUpTo, Nonce;
    var pos := HEADER;
    if Represents(aead, file, log) {
      FirstRecord(aead, file, log);
      FullAtFirst(log);
    }
    for index := 0 to k
      invariant HEADER <= pos <= |file|
      invariant Represents(aead, file, log) ==> At(aead, log, index, pos) && FullUpTo(log, index)
    {
      if Represents(aead, file, log) {
        RecordTurn(aead, file, log, index, pos);
      }
      if pos + 4 > |file| {
        return None, index;
      }
      var size := DecodeLength(file[pos..pos + 4]);
      if size != CHUNK || pos + 4 + size + TAG > |file| {
        return None, index;
      }
      if Represents(aead, file, log) {
        FullOneMore(log, index);
      }
      pos := pos + 4 + size + TAG;
    }
    return Some(pos), k;
  }

  lemma FullAtFirst(log: Log)
    ensures FullUpTo(log, 0)
  {
  }

  lemma RepresentsFacts(aead: Aead, file: bytes, log: Log)
    requires Represents(aead, file, log)
    ensures Lawful(aead) && ValidLog(aead, log) && Sized(log.chunks)
  {
  }

  /** What append decides once the confirmed records are skipped. */
  lemma DecideAtEnd(aead: Aead, file: bytes, log: Log, offset: nat, plain: bytes, pos: nat)
    requires Represents(aead, file, log) && 0 < |plain| <= CHUNK && offset % CHUNK == 0
    requires At(aead, log, offset / CHUNK, pos) && FullUpTo(log, offset / CHUNK)
    ensures pos <= |file|
    ensures pos == |file| <==> AppendOutcome(log, offset, plain).Extend?
    ensures var sealed := aead.seal(Nonce(log.prefix, offset / CHUNK), plain);
            AppendOutcome(log, offset, plain).Replay? <==>
              && pos + 4 <= |file| && DecodeLength(file[pos..pos + 4]) == |plain| && pos + 4 + |sealed| <= |file|
              && file[pos + 4..pos + 4 + |sealed|] == sealed
  {
    hide Records, Encode, DecodeLength, EncodeLength, ValidLog, Nonce;
    var k := offset / CHUNK;
    NextRecord(aead, file, log, k, pos);
    RepresentsFacts(aead, file, log);
    var nonce := Nonce(log.prefix, k);
    if k < |log.chunks| {
      if aead.seal(nonce, plain) == aead.seal(nonce, log.chunks[k]) {
        SealInjective(aead, nonce, plain, log.chunks[k]);
      }
    } else {
      forall c | c in log.chunks ensures |c| == CHUNK {
        var i :| 0 <= i < |log.chunks| && log.chunks[i] == c;
      }
    }
  }

  /** Append one chunk.  `reach` is how many bytes of a new record get to the disk and
      `synced` whether the final flush succeeds.  Existing bytes never change; on a file
      that represents a log the effect is exactly the append on the log. */
  method Append(aead: Aead, file: bytes, offset: nat, plain: bytes, reach: nat, synced: bool, ghost log: Log)
    returns (next: Option<nat>, after: bytes)
    requires forall nonce, p :: |aead.seal(nonce, p)| == |p| + TAG
    ensures file <= after
    ensures Represents(aead, file, log) ==>
              && Represents(aead, after, AfterAppend(aead, log, offset, plain, reach))
              && next == if AppendAcked(aead, log, offset, plain, reach, synced) then Some(offset + |plain|) else None
  {
    hide Records, Encode, DecodeLength, EncodeLength, Represents, AppendOutcome, AppendAcked, AfterAppend, At, FullUpTo;
    after := file;
    Unchanged(aead, file, log, offset, plain, reach, synced);
    if |plain| == 0 || |plain| > CHUNK || offset % CHUNK != 0 {
      BadArguments(log, offset, plain);
      return None, file;
    }
    if Represents(aead, file, log) {
      HeaderAt(aead, file, log);
    }
    if |file| < HEADER || file[..9] != MAGIC {
      return None, file;
    }
    var prefix := file[9..HEADER];
    var k := offset / CHUNK;
    var end, stop := SkipConfirmed(aead, file, k, log);
    if end.None? {
      if Represents(aead, file, log) {
        RepresentsFacts(aead, file, log);
        PartialIsLast(aead, log, offset, plain, stop);
      }
      return None, file;
    }
    var pos := end.value;
    var nonce := NonceFor(prefix, k);
    var sealed := aead.seal(nonce, plain);
    if Represents(aead, file, log) {
      DecideAtEnd(aead, file, log, offset, plain, pos);
    }
    if pos < |file| {
      if pos + 4 > |file| {
        return None, file;
      }
      var size := DecodeLength(file[pos..pos + 4]);
      if size != |plain| || |file| - pos < 4 + |sealed| || file[pos + 4..pos + 4 + |sealed|] != sealed {
        return None, file;
      }
      return if synced then Some(offset + |plain|) else None, file;
    }
    var record := EncodeLength(|plain|) + sealed;
    after := file + record[..Min(reach, |record|)];
    next := if reach >= |record| && synced then Some(offset + |plain|) else None;
    if Represents(aead, file, log) {
      Extended(aead, file, log, offset, plain, reach, synced);
    }
  }

  lemma BadArguments(log: Log, offset: nat, plain: bytes)
    requires |plain| == 0 || |plain| > CHUNK || offset % CHUNK != 0
    ensures AppendOutcome(log, offset, plain).Refuse?
  {
  }

  /** A refused or replayed append leaves the file alone. */
  lemma Unchanged(aead: Aead, file: bytes, log: Log, offset: nat, plain: bytes, reach: nat, synced: bool)
    ensures AppendOutcome(log, offset, plain).Refuse? ==>
              AfterAppend(aead, log, offset, plain, reach) == log && !AppendAcked(aead, log, offset, plain, reach, synced)
    ensures AppendOutcome(log, offset, plain).Replay? ==>
              AfterAppend(aead, log, offset, plain, reach) == log && AppendAcked(aead, log, offset, plain, reach, synced) == synced
  {
  }

  lemma Extended(aead: Aead, file: bytes, log: Log, offset: nat, plain: bytes, reach: nat, synced: bool)
    requires Represents(aead, file, log) && AppendOutcome(log, offset, plain).Extend?
    ensures var record := EncodeLength(|plain|) + aead.seal(Nonce(log.prefix, offset / CHUNK), plain);
            && Represents(aead, file + record[..Min(reach, |record|)], AfterAppend(aead, log, offset, plain, reach))
            && AppendAcked(aead, log, offset, plain, reach, synced) == (reach >= |record| && synced)
  {
    hide Records, Encode, EncodeLength, Nonce, ValidLog;
    RepresentsFacts(aead, file, log);
    AfterAppendValid(aead, log, offset, plain, reach);
    AfterAppendEncodes(aead, log, offset, plain, reach);
  }

  /** Read on the log: the whole chunk, or nothing if it is absent or too large for the buffer. */
  function ReadLog(log: Log, offset: nat, maximum: nat): Option<bytes> {
    var k := offset / CHUNK;
    if offset % CHUNK == 0 && maximum > 0 && k < |log.chunks| && |log.chunks[k]| <= maximum then Some(log.chunks[k]) else None
  }

  method Read(aead: Aead, file: bytes, offset: nat, maximum: nat, ghost log: Log) returns (plain: Option<bytes>)
    ensures plain.Some? ==> |plain.value| <= maximum
    ensures Represents(aead, file, log) ==> plain == ReadLog(log, offset, maximum)
  {
    hide DecodeLength, Represents, At, Nonce;
    if offset % CHUNK != 0 || maximum == 0 {
      return None;
    }
    if Represents(aead, file, log) {
      FirstRecord(aead, file, log);
    }
    if |file| < HEADER || file[..9] != MAGIC {
      return None;
    }
    var prefix := file[9..HEADER];
    var target := offset / CHUNK;
    var pos := HEADER;
    var index := 0;
    while true
      invariant HEADER <= pos <= |file| && index <= target
      invariant Represents(aead, file, log) ==> At(aead, log, index, pos)
      decreases |file| - pos
    {
      if Represents(aead, file, log) {
        RecordTurn(aead, file, log, index, pos);
      }
      if pos + 4 > |file| {
        return None;
      }
      var size := DecodeLength(file[pos..pos + 4]);
      if size == 0 || size > CHUNK || pos + 4 + size + TAG > |file| {
        return None;
      }
      if index == target {
        var nonce := NonceFor(prefix, index);
        var unsealed := aead.unseal(nonce, file[pos + 4..pos + 4 + size + TAG]);
        if unsealed.None? || |unsealed.value| > maximum {
          return None;
        }
        return unsealed;
      }
      pos := pos + 4 + size + TAG;
      index := index + 1;
    }
  }

  function Content(chunks: seq<bytes>): bytes {
    if chunks == [] then [] else Content(chunks[..|chunks| - 1]) + chunks[|chunks| - 1]
  }

  function ChunkCount(total: nat): nat {
    (total + CHUNK - 1) / CHUNK
  }

  /** The digest of a file of `total` bytes: the chunks are read in turn and fed to the hash. */
  method Sha256(aead: Aead, file: bytes, total: nat, digest: bytes -> string, ghost log: Log) returns (hash: Option<string>)
    ensures Represents(aead, file, log) ==>
              hash == if ChunkCount(total) <= |log.chunks| then Some(digest(Content(log.chunks[..ChunkCount(total)]))) else None
  {
    hide Represents, ReadLog, ChunkCount;
    var fed: bytes := [];
    var offset, count := 0, 0;
    Chunking(total, 0);
    while offset < total
      invariant offset == count * CHUNK && count <= ChunkCount(total)
      invariant Represents(aead, file, log) ==> count <= |log.chunks| && fed == Content(log.chunks[..count])
      decreases ChunkCount(total) - count
    {
      Chunking(total, count);
      ReadWhole(aead, file, log, count);
      var chunk := Read(aead, file, offset, CHUNK, log);
      if chunk.None? {
        return None;
      }
      assert Represents(aead, file, log) ==> log.chunks[..count + 1][..count] == log.chunks[..count];
      fed := fed + chunk.value;
      offset, count := offset + CHUNK, count + 1;
    }
    Chunking(total, count);
    return Some(digest(fed));
  }

  lemma Chunking(total: nat, count: nat)
    ensures count * CHUNK < total <==> count < ChunkCount(total)
  {
  }

  lemma ReadWhole(aead: Aead, file: bytes, log: Log, k: nat)
    ensures Represents(aead, file, log) ==>
              ReadLog(log, k * CHUNK, CHUNK) == if k < |log.chunks| then Some(log.chunks[k]) else None
  {
    hide Encode;
    if Represents(aead, file, log) && k < |log.chunks| {
      assert log.chunks[k] in log.chunks;
    }
  }

  /** A chunk that append has acknowledged is what a later read returns. */
  lemma ReadAfterAppend(aead: Aead, log: Log, offset: nat, plain: bytes, reach: nat, synced: bool, maximum: nat)
    requires AppendAcked(aead, log, offset, plain, reach, synced) && maximum >= |plain|
    ensures ReadLog(AfterAppend(aead, log, offset, plain, reach), offset, maximum) == Some(plain)
  {
  }

  /** Chunks already in the log are never changed or moved by an append ... */
  lemma AppendKeepsChunks(aead: Aead, log: Log, offset: nat, plain: bytes, reach: nat)
    ensures log.chunks <= AfterAppend(aead, log, offset, plain, reach).chunks
    ensures log.prefix == AfterAppend(aead, log, offset, plain, reach).prefix
  {
  }

  /** ... and a torn tail is neither overwritten nor extended. */
  lemma TornIsFinal(aead: Aead, log: Log, offset: nat, plain: bytes, reach: nat)
    requires log.torn != []
    ensures AfterAppend(aead, log, offset, plain, reach) == log
  {
  }
}
