/** A ranged download of a published attachment while other requests, crashes and maintenance
    go on between its reads. */
module Download {
  import opened Messages
  import opened Runs
  import opened RecordFile
  import opened EncryptedFileStore
  import opened Upload
  import opened Attachment
  import opened RangeStream

  /** The i-th read happens in the state that `later(i)` leads to, at time `now(i)`. */
  function Reads(r: Resource, later: nat -> Run, now: nat -> int): (nat, nat) -> Option<bytes> {
    (i: nat, base: nat) => ReadOp(Final(r, later(i)), now(i), base)
  }

  lemma ReadsAreFaithful(env: Env, r: Resource, later: nat -> Run, now: nat -> int)
    requires Inv(env, r) && r.row.Some? && r.log.Some? && r.row.value.published
    requires forall i: nat :: IsRun(Steps(env), r, later(i))
    ensures Faithful(Reads(r, later, now), Content(r.log.value.chunks))
    ensures |Content(r.log.value.chunks)| == r.row.value.total
  {
    hide Inv, IsRun, Content, ReadOp;
    var content := Content(r.log.value.chunks);
    PublishedFileIsFixed(env, r, later(0), now(0), 0);
    forall i: nat, base: nat | base % CHUNK == 0 && base < |content| && Reads(r, later, now)(i, base).Some?
      ensures Reads(r, later, now)(i, base).value == ChunkAt(content, base)
    {
      PublishedFileIsFixed(env, r, later(i), now(i), base);
    }
  }

  /** The file is still published when it is read. */
  predicate StillThere(r: Resource, now: int) {
    r.row.Some? && IsPublished(r.row.value) && !Expired(r.row.value, now) && r.now <= now
  }

  lemma ReadsSucceed(env: Env, r: Resource, later: nat -> Run, now: nat -> int)
    requires Inv(env, r) && r.row.Some? && r.log.Some? && r.row.value.published
    requires forall i: nat :: IsRun(Steps(env), r, later(i)) && StillThere(Final(r, later(i)), now(i))
    ensures forall i: nat, base: nat :: base % CHUNK == 0 && base < r.row.value.total ==> Reads(r, later, now)(i, base).Some?
  {
    hide Inv, IsRun, ReadOp;
    forall i: nat, base: nat | base % CHUNK == 0 && base < r.row.value.total ensures Reads(r, later, now)(i, base).Some? {
      var end := Final(r, later(i));
      assert IsRun(Steps(env), r, later(i)) && StillThere(end, now(i));
      RunKeeps(env, r, later(i));
      assert base / CHUNK * CHUNK == base;
      PublishedIsReadable(env, end, now(i), base / CHUNK);
    }
  }

  /** A request for a range of a published file is refused, or answered with exactly the selected
      bytes of the one file that was published, as far as the answer gets; it gets to the end if the
      file is still published and has not expired at every read. */
  method ServeRange(ghost env: Env, r: Resource, later: nat -> Run, now: nat -> int, range: string)
    returns (selected: Selection, header: Option<string>, sent: bytes, complete: bool)
    requires Inv(env, r) && r.row.Some? && r.log.Some? && r.row.value.published
    requires forall i: nat :: IsRun(Steps(env), r, later(i))
    ensures selected == SelectRange(range, r.row.value.total)
    ensures selected.Rejected? ==> sent == [] && header == None
    ensures header.Some? <==> selected.Slice? && selected.partial
    ensures header.Some? && complete ==>
              && 0 < |sent|
              && header.value == "bytes " + Decimal(selected.begin) + "-" + Decimal(selected.begin + |sent| - 1) + "/" + Decimal(r.row.value.total)
    ensures selected.Slice? ==>
              var content := Content(r.log.value.chunks);
              && |content| == r.row.value.total
              && |sent| <= selected.length && selected.begin + selected.length <= |content|
              && sent == content[selected.begin..selected.begin + |sent|]
              && (complete ==> |sent| == selected.length)
              && ((forall i: nat :: StillThere(Final(r, later(i)), now(i))) ==> complete)
  {
    hide Inv, IsRun, Content, ReadOp, Faithful, StillThere, Decimal;
    selected := SelectRange(range, r.row.value.total);
    header := ContentRange(selected, r.row.value.total);
    if selected.Rejected? {
      return selected, None, [], true;
    }
    if forall i: nat :: StillThere(Final(r, later(i)), now(i)) {
      ReadsSucceed(env, r, later, now);
    }
    ReadsAreFaithful(env, r, later, now);
    sent, complete := Stream(Reads(r, later, now), Content(r.log.value.chunks), selected.begin, selected.length);
  }
}
