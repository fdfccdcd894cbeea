/** The encrypted attachment file: a header, then one record per 32 KiB chunk, appended and
    never rewritten.  The file is given as bytes and, beside that, as an abstract log of
    chunks; append and read on the bytes are shown to be append and read on the log. */
module RecordFile {
  import opened Messages

  import Bytes

  type byte = Bytes.byte
  type bytes = Bytes.bytes

  const CHUNK := 32768
  const TAG := 16
  const PREFIX := 16
  const HEADER := 25
  const MAGIC: bytes := [67, 72, 65, 84, 70, 73, 76, 69, 49]   // "CHATFILE1"

  /** The authenticated cipher under the transfer's key, as far as the file relies on it. */
  datatype Aead = Aead(seal: (bytes, bytes) -> bytes, unseal: (bytes, bytes) -> Option<bytes>)

  ghost predicate Lawful(aead: Aead) {
    forall nonce, plain ::
      |aead.seal(nonce, plain)| == |plain| + TAG && aead.unseal(nonce, aead.seal(nonce, plain)) == Some(plain)
  }

  /** The 64-bit chunk index, least significant byte first. */
  function LittleEndian(n: nat, count: nat): (r: bytes)
    ensures |r| == count
    decreases count
  {
    if count == 0 then [] else [n % 256] + LittleEndian(n / 256, count - 1)
  }

  function Nonce(prefix: bytes, index: nat): bytes {
    prefix + LittleEndian(index, 8)
  }

  function Power256(k: nat): nat {
    if k == 0 then 1 else 256 * Power256(k - 1)
  }

  lemma {:induction false} LittleEndianInjective(m: nat, n: nat, count: nat)
    requires m < Power256(count) && n < Power256(count) && LittleEndian(m, count) == LittleEndian(n, count)
    ensures m == n
    decreases count
  {
    if count > 0 {
      assert LittleEndian(m, count)[0] == LittleEndian(n, count)[0];
      assert LittleEndian(m, count)[1..] == LittleEndian(n, count)[1..];
      LittleEndianInjective(m / 256, n / 256, count - 1);
    }
  }

  /** No two (file prefix, 64-bit chunk index) pairs share a nonce. */
  lemma NonceInjective(p: bytes, q: bytes, m: nat, n: nat)
    requires |p| == |q| == PREFIX && m < Power256(8) && n < Power256(8) && Nonce(p, m) == Nonce(q, n)
    ensures p == q && m == n
  {
    assert Nonce(p, m)[..PREFIX] == p && Nonce(q, n)[..PREFIX] == q;
    assert Nonce(p, m)[PREFIX..] == LittleEndian(m, 8) && Nonce(q, n)[PREFIX..] == LittleEndian(n, 8);
    LittleEndianInjective(m, n, 8);
  }

  /** The loop that fills the last eight nonce bytes. */
  method NonceFor(prefix: bytes, index: nat) returns (nonce: bytes)
    ensures nonce == Nonce(prefix, index)
  {
    nonce := prefix;
    var rest := index;
    for i := 0 to 8
      invariant nonce + LittleEndian(rest, 8 - i) == Nonce(prefix, index)
    {
      assert nonce + LittleEndian(rest, 8 - i) == nonce + [rest % 256] + LittleEndian(rest / 256, 7 - i);
      nonce := nonce + [rest % 256];
      rest := rest / 256;
    }
  }

  /** A record length: four bytes, most significant first. */
  function EncodeLength(n: nat): (r: bytes)
    requires n < 0x1_0000_0000
    ensures |r| == 4
  {
    [n / 0x100_0000, n / 0x1_0000 % 256, n / 0x100 % 256, n % 256]
  }

  function DecodeLength(b: bytes): (n: nat)
    requires |b| == 4
  {
    var b0: int, b1: int, b2: int, b3: int := b[0], b[1], b[2], b[3];
    b0 * 0x100_0000 + b1 * 0x1_0000 + b2 * 0x100 + b3
  }

  lemma LengthRoundTrip(n: nat)
    requires n < 0x1_0000_0000
    ensures DecodeLength(EncodeLength(n)) == n
  {
    var a := n / 256;
    var b := a / 256;
    assert n / 0x1_0000 == b && n / 0x100_0000 == b / 256;
  }

  function Record(aead: Aead, prefix: bytes, index: nat, plain: bytes): bytes
    requires |plain| <= CHUNK
  {
    EncodeLength(|plain|) + aead.seal(Nonce(prefix, index), plain)
  }

  predicate Sized(chunks: seq<bytes>) {
    forall c :: c in chunks ==> 0 < |c| <= CHUNK
  }

  function Records(aead: Aead, prefix: bytes, chunks: seq<bytes>): bytes
    requires Sized(chunks)
  {
    if chunks == [] then []
    else Records(aead, prefix, chunks[..|chunks| - 1]) + Record(aead, prefix, |chunks| - 1, chunks[|chunks| - 1])
  }

  /** `torn` is what an interrupted write left behind the last complete record. */
  datatype Log = Log(prefix: bytes, chunks: seq<bytes>, torn: bytes)

  predicate AllFull(chunks: seq<bytes>) {
    forall c :: c in chunks ==> |c| == CHUNK
  }

  /** A proper, non-empty beginning of some record for this index. */
  ghost predicate IsTorn(aead: Aead, prefix: bytes, index: nat, torn: bytes) {
    exists plain :: 0 < |plain| <= CHUNK && 0 < |torn| && torn < Record(aead, prefix, index, plain)
  }

  /** All records but the last are full; a torn tail only follows full records. */
  ghost predicate ValidLog(aead: Aead, log: Log) {
    && |log.prefix| == PREFIX
    && Sized(log.chunks)
    && (forall i :: 0 <= i < |log.chunks| - 1 ==> |log.chunks[i]| == CHUNK)
    && (log.torn != [] ==> AllFull(log.chunks) && IsTorn(aead, log.prefix, |log.chunks|, log.torn))
  }

  function Encode(aead: Aead, log: Log): bytes
    requires Sized(log.chunks)
  {
    MAGIC + log.prefix + Records(aead, log.prefix, log.chunks) + log.torn
  }

  ghost predicate Represents(aead: Aead, file: bytes, log: Log) {
    Lawful(aead) && ValidLog(aead, log) && file == Encode(aead, log)
  }

  /** Where record `k` starts. */
  function Position(aead: Aead, log: Log, k: nat): nat
    requires Sized(log.chunks) && k <= |log.chunks|
  {
    HEADER + |Records(aead, log.prefix, log.chunks[..k])|
  }

  lemma {:induction false} RecordsPrefix(aead: Aead, prefix: bytes, chunks: seq<bytes>, k: nat)
    requires Sized(chunks) && k <= |chunks|
    ensures Records(aead, prefix, chunks[..k]) <= Records(aead, prefix, chunks)
    decreases |chunks|
  {
    hide Record;
    if k == |chunks| {
      assert chunks[..k] == chunks;
    } else {
      var n := |chunks| - 1;
      assert chunks[..n][..k] == chunks[..k];
      RecordsPrefix(aead, prefix, chunks[..n], k);
      assert Records(aead, prefix, chunks) == Records(aead, prefix, chunks[..n]) + Record(aead, prefix, n, chunks[n]);
    }
  }

  lemma Middle(file: bytes, a: bytes, m: bytes, c: bytes)
    requires file == a + m + c
    ensures |a| + |m| <= |file| && file[|a|..|a| + |m|] == m
  {
  }

  lemma Regroup(head: bytes, prefix: bytes, a: bytes, m: bytes, c: bytes, torn: bytes)
    ensures head + prefix + (a + m + c) + torn == (head + prefix + a) + m + (c + torn)
  {
  }

  /** The file around record `k`. */
  lemma SplitAt(aead: Aead, log: Log, k: nat) returns (rest: bytes)
    requires Sized(log.chunks) && k < |log.chunks|
    ensures var before := Records(aead, log.prefix, log.chunks[..k]);
            var record := Record(aead, log.prefix, k, log.chunks[k]);
            && Encode(aead, log) == MAGIC + log.prefix + before + record + rest
            && Records(aead, log.prefix, log.chunks[..k + 1]) == before + record
  {
    hide Record;
    var upTo := log.chunks[..k + 1];
    assert upTo[..k] == log.chunks[..k];
    RecordsPrefix(aead, log.prefix, log.chunks, k + 1);
    var before := Records(aead, log.prefix, log.chunks[..k]);
    var record := Record(aead, log.prefix, k, log.chunks[k]);
    assert Records(aead, log.prefix, upTo) == before + record;
    var after := Records(aead, log.prefix, log.chunks)[|before + record|..];
    rest := after + log.torn;
    assert Records(aead, log.prefix, log.chunks) == before + record + after;
    Regroup(MAGIC, log.prefix, before, record, after, log.torn);
  }

  /** Record `k` lies in the file at its position. */
  lemma RecordAt(aead: Aead, file: bytes, log: Log, k: nat)
    requires Represents(aead, file, log) && k < |log.chunks|
    ensures var at, size := Position(aead, log, k), |log.chunks[k]|;
            && at + 4 + size + TAG == Position(aead, log, k + 1) <= |file|
            && DecodeLength(file[at..at + 4]) == size
            && file[at + 4..at + 4 + size + TAG] == aead.seal(Nonce(log.prefix, k), log.chunks[k])
  {
    hide Records, ValidLog, EncodeLength, DecodeLength, Nonce;
    RecordAtFacts(aead, log);
    var chunk := log.chunks[k];
    var sealed := aead.seal(Nonce(log.prefix, k), chunk);
    var rest := SplitAt(aead, log, k);
    var before := MAGIC + log.prefix + Records(aead, log.prefix, log.chunks[..k]);
    LengthRoundTrip(|chunk|);
    Middle(file, before, EncodeLength(|chunk|), sealed + rest);
    Middle(file, before + EncodeLength(|chunk|), sealed, rest);
  }

  lemma RecordAtFacts(aead: Aead, log: Log)
    requires ValidLog(aead, log)
    ensures |log.prefix| == PREFIX && Sized(log.chunks)
  {
  }

  /** Behind the last record there is only the torn tail. */
  lemma TailAt(aead: Aead, file: bytes, log: Log)
    requires Represents(aead, file, log)
    ensures var at := Position(aead, log, |log.chunks|);
            at <= |file| && file[at..] == log.torn
  {
    assert log.chunks[..|log.chunks|] == log.chunks;
  }

  lemma HeaderAt(aead: Aead, file: bytes, log: Log)
    requires Represents(aead, file, log)
    ensures |file| >= HEADER && file[..9] == MAGIC && file[9..HEADER] == log.prefix && Position(aead, log, 0) == HEADER
  {
    hide Records, Lawful, IsTorn;
    HeadParts(log.prefix, Records(aead, log.prefix, log.chunks), log.torn);
    NoRecords(aead, log);
  }

  lemma NoRecords(aead: Aead, log: Log)
    requires Sized(log.chunks)
    ensures Position(aead, log, 0) == HEADER
  {
    assert log.chunks[..0] == [];
  }

  lemma HeadParts(prefix: bytes, records: bytes, torn: bytes)
    requires |prefix| == PREFIX
    ensures var file := MAGIC + prefix + records + torn;
            |file| >= HEADER && file[..9] == MAGIC && file[9..HEADER] == prefix
  {
  }

  /** A torn tail shows a length it does not contain. */
  lemma TornIsShort(aead: Aead, log: Log)
    requires Lawful(aead) && ValidLog(aead, log) && |log.torn| >= 4
    ensures 0 < DecodeLength(log.torn[..4]) <= CHUNK && |log.torn| < 4 + DecodeLength(log.torn[..4]) + TAG
  {
    var plain :| 0 < |plain| <= CHUNK && log.torn < Record(aead, log.prefix, |log.chunks|, plain);
    var record := Record(aead, log.prefix, |log.chunks|, plain);
    assert log.torn[..4] == record[..4] == EncodeLength(|plain|);
    LengthRoundTrip(|plain|);
  }

  lemma SealInjective(aead: Aead, nonce: bytes, p: bytes, q: bytes)
    requires Lawful(aead) && aead.seal(nonce, p) == aead.seal(nonce, q)
    ensures p == q
  {
    assert aead.unseal(nonce, aead.seal(nonce, p)) == Some(p);
  }

  datatype Outcome = Replay | Extend | Refuse

  /** Append on the log: extend at the end, accept an identical replay, refuse the rest. */
  function AppendOutcome(log: Log, offset: nat, plain: bytes): Outcome {
    var k := offset / CHUNK;
    if !(0 < |plain| <= CHUNK && offset % CHUNK == 0) then Refuse
    else if k < |log.chunks| then (if log.chunks[k] == plain then Replay else Refuse)
    else if k == |log.chunks| && log.torn == [] && AllFull(log.chunks) then Extend
    else Refuse
  }

  /** The log after an append of which `reach` bytes got to the disk. */
  function AfterAppend(aead: Aead, log: Log, offset: nat, plain: bytes, reach: nat): Log {
    if !AppendOutcome(log, offset, plain).Extend? then log
    else
      var record := Record(aead, log.prefix, |log.chunks|, plain);
      if reach >= |record| then log.(chunks := log.chunks + [plain]) else log.(torn := record[..reach])
  }

  /** An append comes to its flush when the record is an identical replay or was written whole. */
  predicate ComesToFlush(aead: Aead, log: Log, offset: nat, plain: bytes, reach: nat) {
    var outcome := AppendOutcome(log, offset, plain);
    outcome.Replay? || (outcome.Extend? && reach >= |Record(aead, log.prefix, |log.chunks|, plain)|)
  }

  /** Append is acknowledged when the whole record is on disk and the flush succeeded. */
  predicate AppendAcked(aead: Aead, log: Log, offset: nat, plain: bytes, reach: nat, synced: bool) {
    synced && ComesToFlush(aead, log, offset, plain, reach)
  }

  /** How many chunks a power loss cannot take any more: all of them after a flush that succeeded,
      otherwise as many as before. */
  function FlushedAfter(aead: Aead, log: Log, offset: nat, plain: bytes, reach: nat, synced: bool, flushed: nat): nat {
    if ComesToFlush(aead, log, offset, plain, reach) && synced then |AfterAppend(aead, log, offset, plain, reach).chunks| else flushed
  }

  /** What is acknowledged is flushed. */
  lemma AckedIsFlushed(aead: Aead, log: Log, offset: nat, plain: bytes, reach: nat, synced: bool, flushed: nat)
    requires flushed <= |log.chunks|
    ensures var after, flushed' := AfterAppend(aead, log, offset, plain, reach), FlushedAfter(aead, log, offset, plain, reach, synced, flushed);
            && flushed <= flushed' <= |after.chunks|
            && (AppendAcked(aead, log, offset, plain, reach, synced) ==> flushed' == |after.chunks|)
  {
    hide Record;
  }

  lemma AfterAppendValid(aead: Aead, log: Log, offset: nat, plain: bytes, reach: nat)
    requires Lawful(aead) && ValidLog(aead, log)
    ensures ValidLog(aead, AfterAppend(aead, log, offset, plain, reach))
  {
    if AppendOutcome(log, offset, plain).Extend? {
      var record := Record(aead, log.prefix, |log.chunks|, plain);
      if 0 < reach < |record| {
        assert record[..reach] < record;
      }
    }
  }

  lemma AfterAppendEncodes(aead: Aead, log: Log, offset: nat, plain: bytes, reach: nat)
    requires Sized(log.chunks) && AppendOutcome(log, offset, plain).Extend?
    ensures var after := AfterAppend(aead, log, offset, plain, reach);
            var record := Record(aead, log.prefix, |log.chunks|, plain);
            Sized(after.chunks) && Encode(aead, after) == Encode(aead, log) + record[..Min(reach, |record|)]
  {
    hide Record, AllFull;
    var record := Record(aead, log.prefix, |log.chunks|, plain);
    var done := Records(aead, log.prefix, log.chunks);
    if reach >= |record| {
      assert (log.chunks + [plain])[..|log.chunks|] == log.chunks;
      assert Records(aead, log.prefix, log.chunks + [plain]) == done + record;
      assert record[..Min(reach, |record|)] == record;
      Reattach(MAGIC + log.prefix, done, record);
    } else {
      Reattach(MAGIC + log.prefix, done, record[..reach]);
    }
  }

  lemma Reattach(head: bytes, done: bytes, more: bytes)
    ensures head + (done + more) + [] == head + done + [] + more && head + done + more == head + done + [] + more
  {
  }

  /** What a power loss leaves of a file of which the first `flushed` records were flushed: those,
      and of everything written after them some `cut` bytes. */
  function Crashed(aead: Aead, log: Log, flushed: nat, cut: nat): Log
    decreases |log.chunks| - flushed
  {
    if flushed >= |log.chunks| then log.(torn := log.torn[..Min(cut, |log.torn|)])
    else if |log.chunks[flushed]| > CHUNK then log
    else
      var record := Record(aead, log.prefix, flushed, log.chunks[flushed]);
      if cut < |record| then Log(log.prefix, log.chunks[..flushed], record[..cut])
      else Crashed(aead, log, flushed + 1, cut - |record|)
  }

  /** Flushed chunks survive, nothing new appears, and a file that is flushed whole is untouched. */
  lemma {:induction false} CrashedKeeps(aead: Aead, log: Log, flushed: nat, cut: nat)
    requires flushed <= |log.chunks|
    ensures var c := Crashed(aead, log, flushed, cut);
            && c.prefix == log.prefix && log.chunks[..flushed] <= c.chunks <= log.chunks
            && (flushed == |log.chunks| && log.torn == [] ==> c == log)
            && (c.chunks == log.chunks ==> c.torn <= log.torn)
    decreases |log.chunks| - flushed
  {
    hide Record;
    if flushed < |log.chunks| && |log.chunks[flushed]| <= CHUNK {
      var record := Record(aead, log.prefix, flushed, log.chunks[flushed]);
      if cut >= |record| {
        CrashedKeeps(aead, log, flushed + 1, cut - |record|);
        assert log.chunks[..flushed] <= log.chunks[..flushed + 1];
      }
    }
  }

  lemma CutTail(aead: Aead, log: Log, cut: nat)
    requires ValidLog(aead, log)
    ensures ValidLog(aead, log.(torn := log.torn[..Min(cut, |log.torn|)]))
  {
    hide IsTorn, AllFull, Sized;
    var torn := log.torn[..Min(cut, |log.torn|)];
    if torn != [] {
      ShorterTorn(aead, log.prefix, |log.chunks|, log.torn, |torn|);
    }
  }

  lemma ShorterTorn(aead: Aead, prefix: bytes, index: nat, torn: bytes, n: nat)
    requires IsTorn(aead, prefix, index, torn) && 0 < n <= |torn|
    ensures IsTorn(aead, prefix, index, torn[..n])
  {
    hide Record;
    var plain :| 0 < |plain| <= CHUNK && torn < Record(aead, prefix, index, plain);
    assert torn[..n] < Record(aead, prefix, index, plain);
  }

  lemma CutRecord(aead: Aead, log: Log, k: nat, cut: nat)
    requires ValidLog(aead, log) && k < |log.chunks|
    ensures log.chunks[k] in log.chunks
    ensures var record := Record(aead, log.prefix, k, log.chunks[k]);
            cut < |record| ==> ValidLog(aead, Log(log.prefix, log.chunks[..k], record[..cut]))
  {
    var record := Record(aead, log.prefix, k, log.chunks[k]);
    if cut < |record| {
      var c := Log(log.prefix, log.chunks[..k], record[..cut]);
      assert c.torn < record;
      forall x | x in c.chunks ensures x in log.chunks && |x| == CHUNK {
        var i :| 0 <= i < k && c.chunks[i] == x;
        assert log.chunks[i] == x;
      }
    }
  }

  lemma {:induction false} CrashedValid(aead: Aead, log: Log, flushed: nat, cut: nat)
    requires ValidLog(aead, log)
    ensures ValidLog(aead, Crashed(aead, log, flushed, cut))
    decreases |log.chunks| - flushed
  {
    hide Record, ValidLog;
    if flushed >= |log.chunks| {
      CutTail(aead, log, cut);
    } else {
      CutRecord(aead, log, flushed, cut);
      if |log.chunks[flushed]| <= CHUNK {
        var record := Record(aead, log.prefix, flushed, log.chunks[flushed]);
        if cut >= |record| {
          CrashedValid(aead, log, flushed + 1, cut - |record|);
        }
      }
    }
  }

  /** On the bytes: everything up to the flushed position and `cut` bytes more. */
  lemma {:induction false} CrashedEncodes(aead: Aead, log: Log, flushed: nat, cut: nat)
    requires Sized(log.chunks) && |log.prefix| == PREFIX && flushed <= |log.chunks|
    ensures var c := Crashed(aead, log, flushed, cut);
            && Sized(c.chunks)
            && Encode(aead, c) == Encode(aead, log)[..Min(Position(aead, log, flushed) + cut, |Encode(aead, log)|)]
    decreases |log.chunks| - flushed
  {
    hide Record, Sized;
    var head := MAGIC + log.prefix;
    if flushed == |log.chunks| {
      assert log.chunks[..flushed] == log.chunks;
      var done := head + Records(aead, log.prefix, log.chunks);
      PrefixOfTail(done, log.torn, cut);
    } else {
      SizedAt(log.chunks, flushed);
      var record := Record(aead, log.prefix, flushed, log.chunks[flushed]);
      var rest := SplitAt(aead, log, flushed);
      if cut < |record| {
        var done := head + Records(aead, log.prefix, log.chunks[..flushed]);
        PrefixOfMiddle(done, record, rest, cut);
      } else {
        CrashedEncodes(aead, log, flushed + 1, cut - |record|);
      }
    }
  }

  lemma SizedAt(chunks: seq<bytes>, k: nat)
    requires Sized(chunks) && k < |chunks|
    ensures 0 < |chunks[k]| <= CHUNK && Sized(chunks[..k])
  {
    assert chunks[k] in chunks;
    forall c | c in chunks[..k] ensures c in chunks {}
  }

  lemma PrefixOfTail(done: bytes, tail: bytes, cut: nat)
    ensures done + tail[..Min(cut, |tail|)] == (done + tail)[..Min(|done| + cut, |done + tail|)]
  {
  }

  lemma PrefixOfMiddle(done: bytes, record: bytes, rest: bytes, cut: nat)
    requires cut < |record|
    ensures done + record[..cut] == (done + record + rest)[..Min(|done| + cut, |done + record + rest|)]
  {
  }
}
