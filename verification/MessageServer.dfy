/** The chat server's side of a text message: validation, the durable
    `chat_message` table, the page of undelivered messages and acknowledgement. */
module MessageServer {
  import opened Messages

  /** A committed row.  Row ids are handed out when a row is inserted and become visible
      when its transaction commits, so a smaller id may appear after a larger one. */
  datatype Stored = Stored(rowId: nat, receiver: int, content: string, acked: bool)

  type Table = map<Key, Stored>

  datatype Verdict = Accepted | InvalidMessage | InvalidRecipient | Unavailable

  const MAX_BATCH_BYTES := 8192

  function BatchBytes(texts: seq<Text>): nat {
    if texts == [] then 0
    else BatchBytes(texts[..|texts| - 1]) + |texts[|texts| - 1].id| + |texts[|texts| - 1].content|
  }

  lemma {:induction false} PrefixBytes(texts: seq<Text>, i: nat)
    requires i <= |texts|
    ensures BatchBytes(texts[..i]) <= BatchBytes(texts)
    decreases |texts|
  {
    if i < |texts| {
      assert texts[..|texts| - 1][..i] == texts[..i];
      PrefixBytes(texts[..|texts| - 1], i);
    } else {
      assert texts[..i] == texts;
    }
  }

  /** What a batch must satisfy before friendship and storage are consulted. */
  predicate ValidBatch(texts: seq<Text>) {
    0 < |texts| <= MAX_TEXTS_PER_FRAME && AllWellSized(texts) && BatchBytes(texts) <= MAX_BATCH_BYTES
  }

  predicate ValidParties(sender: int, receiver: int) {
    sender > 0 && receiver > 0 && sender != receiver
  }

  /** The loop that checks a batch: it stops at the first bad text or once the byte budget is spent. */
  method CheckBatch(texts: seq<Text>) returns (valid: bool)
    ensures valid <==> ValidBatch(texts)
  {
    if |texts| == 0 || |texts| > MAX_TEXTS_PER_FRAME {
      return false;
    }
    var bytes := 0;
    for i := 0 to |texts|
      invariant AllWellSized(texts[..i])
      invariant bytes == BatchBytes(texts[..i]) <= MAX_BATCH_BYTES
    {
      assert texts[..i + 1][..i] == texts[..i];
      if !WellSized(texts[i]) {
        return false;
      }
      bytes := bytes + |texts[i].id| + |texts[i].content|;
      if bytes > MAX_BATCH_BYTES {
        PrefixBytes(texts, i + 1);
        return false;
      }
    }
    assert texts[..|texts|] == texts;
    return true;
  }

  /** Every text that is already stored is stored with this receiver and content. */
  ghost predicate Repeats(table: Table, sender: int, receiver: int, texts: seq<Text>) {
    forall t :: t in texts && Key(sender, t.id) in table ==>
      table[Key(sender, t.id)].receiver == receiver && table[Key(sender, t.id)].content == t.content
  }

  /** No two rows share a row id. */
  ghost predicate DistinctIds(table: Table) {
    forall k, l :: k in table && l in table && table[k].rowId == table[l].rowId ==> k == l
  }

  /** One unacknowledged row more for every new key; committed rows are untouched. */
  ghost predicate Persisted(before: Table, sender: int, receiver: int, texts: seq<Text>, after: Table) {
    && after.Keys == before.Keys + KeysOf(sender, texts)
    && (forall k :: k in before ==> after[k] == before[k])
    && (forall t :: t in texts && Key(sender, t.id) !in before ==>
          after[Key(sender, t.id)] == Stored(after[Key(sender, t.id)].rowId, receiver, t.content, false))
  }

  /** `ids` are the auto-increment values the engine hands to this batch. */
  ghost predicate UnusedIds(table: Table, ids: seq<nat>) {
    && (forall i, k :: 0 <= i < |ids| && k in table ==> ids[i] != table[k].rowId)
    && (forall i, j :: 0 <= i < j < |ids| ==> ids[i] != ids[j])
  }

  /** What the insert-and-verify loop has established for the texts in `done`. */
  ghost predicate Stepped(table: Table, sender: int, receiver: int, done: seq<Text>, after: Table) {
    && Repeats(table, sender, receiver, done) && SelfConsistent(done)
    && Persisted(table, sender, receiver, done, after)
    && Repeats(after, sender, receiver, done)
  }

  lemma StepInsert(table: Table, sender: int, receiver: int, done: seq<Text>, text: Text, after: Table, rowId: nat)
    requires Stepped(table, sender, receiver, done, after)
    requires Key(sender, text.id) !in after
    ensures Stepped(table, sender, receiver, done + [text],
                    after[Key(sender, text.id) := Stored(rowId, receiver, text.content, false)])
  {
    hide Persisted, KeysOf;
    InsertPersisted(table, sender, receiver, done, text, after, rowId);
    PersistedGrows(table, sender, receiver, done, after);
    forall t | t in done ensures Key(sender, t.id) != Key(sender, text.id) {
      PersistedKey(table, sender, receiver, done, after, t);
    }
  }

  lemma PersistedGrows(table: Table, sender: int, receiver: int, done: seq<Text>, after: Table)
    requires Persisted(table, sender, receiver, done, after)
    ensures forall k :: k in table ==> k in after
  {
  }

  lemma PersistedKey(table: Table, sender: int, receiver: int, done: seq<Text>, after: Table, t: Text)
    requires Persisted(table, sender, receiver, done, after) && t in done
    ensures Key(sender, t.id) in after
  {
    assert Key(sender, t.id) in KeysOf(sender, done);
  }

  lemma InsertPersisted(table: Table, sender: int, receiver: int, done: seq<Text>, text: Text, after: Table, rowId: nat)
    requires Persisted(table, sender, receiver, done, after) && Key(sender, text.id) !in after
    ensures Persisted(table, sender, receiver, done + [text],
                      after[Key(sender, text.id) := Stored(rowId, receiver, text.content, false)])
  {
    BatchKeys(sender, done, text);
    forall t | t in done ensures Key(sender, t.id) in KeysOf(sender, done) {}
  }

  lemma StepRepeat(table: Table, sender: int, receiver: int, done: seq<Text>, text: Text, after: Table)
    requires Stepped(table, sender, receiver, done, after)
    requires Key(sender, text.id) in after
    ensures var row := after[Key(sender, text.id)];
            if row.receiver == receiver && row.content == text.content
            then Stepped(table, sender, receiver, done + [text], after)
            else !(Repeats(table, sender, receiver, done + [text]) && SelfConsistent(done + [text]))
  {
    var key := Key(sender, text.id);
    BatchKeys(sender, done, text);
    assert text in done + [text];
    forall t | t in done ensures Key(sender, t.id) in KeysOf(sender, done) && t in done + [text] {}
    if key !in table {
      var t :| t in done && key == Key(sender, t.id);
    }
  }

  lemma BadBatchPrefix(table: Table, sender: int, receiver: int, texts: seq<Text>, i: nat)
    requires i <= |texts|
    requires !(Repeats(table, sender, receiver, texts[..i]) && SelfConsistent(texts[..i]))
    ensures !(Repeats(table, sender, receiver, texts) && SelfConsistent(texts))
  {
    assert forall t :: t in texts[..i] ==> t in texts;
  }

  /** Insert each text unless its key exists, then read the row back and compare it; any
      difference rolls the whole batch back.  `fault` counts the texts handled before a
      database error, `fault == |texts|` being a failed commit. */
  method PersistTransaction(table: Table, sender: int, receiver: int, texts: seq<Text>, ids: seq<nat>, fault: nat)
    returns (ok: bool, after: Table)
    requires |ids| == |texts| && UnusedIds(table, ids)
    ensures ok <==> texts != [] && fault > |texts| && Repeats(table, sender, receiver, texts) && SelfConsistent(texts)
    ensures if ok then Persisted(table, sender, receiver, texts, after) else after == table
    ensures DistinctIds(table) ==> DistinctIds(after)
  {
    hide Stepped, Repeats, SelfConsistent, Persisted, DistinctIds, UnusedIds;
    after := table;
    if texts == [] {
      return false, table;
    }
    SteppedNone(table, sender, receiver);
    for i := 0 to |texts|
      invariant i <= fault
      invariant Stepped(table, sender, receiver, texts[..i], after)
      invariant DistinctIds(table) ==> DistinctIds(after)
      invariant UnusedIds(after, ids[i..])
    {
      var text := texts[i];
      var key := Key(sender, text.id);
      assert texts[..i + 1] == texts[..i] + [text];
      if i == fault {
        return false, table;
      }
      if key !in after {
        StepInsert(table, sender, receiver, texts[..i], text, after, ids[i]);
        assert ids[i..][0] == ids[i] && ids[i + 1..] == ids[i..][1..];
        IdsStayDistinct(after, ids[i..], key, Stored(ids[i], receiver, text.content, false));
        after := after[key := Stored(ids[i], receiver, text.content, false)];
      } else {
        StepRepeat(table, sender, receiver, texts[..i], text, after);
        if after[key].receiver != receiver || after[key].content != text.content {
          BadBatchPrefix(table, sender, receiver, texts, i + 1);
          return false, table;
        }
        assert ids[i + 1..] == ids[i..][1..];
        FewerIds(after, ids[i..]);
      }
    }
    assert texts[..|texts|] == texts;
    SteppedAll(table, sender, receiver, texts, after);
    if fault == |texts| {
      return false, table;
    }
    ok := true;
  }

  lemma SteppedNone(table: Table, sender: int, receiver: int)
    ensures Stepped(table, sender, receiver, [], table)
  {
    assert KeysOf(sender, []) == {};
  }

  lemma SteppedAll(table: Table, sender: int, receiver: int, texts: seq<Text>, after: Table)
    requires Stepped(table, sender, receiver, texts, after)
    ensures Repeats(table, sender, receiver, texts) && SelfConsistent(texts) && Persisted(table, sender, receiver, texts, after)
  {
  }

  lemma FewerIds(table: Table, ids: seq<nat>)
    requires UnusedIds(table, ids) && ids != []
    ensures UnusedIds(table, ids[1..])
  {
  }

  lemma IdsStayDistinct(table: Table, ids: seq<nat>, key: Key, row: Stored)
    requires UnusedIds(table, ids) && ids != [] && row.rowId == ids[0] && key !in table
    ensures UnusedIds(table[key := row], ids[1..])
    ensures DistinctIds(table) ==> DistinctIds(table[key := row])
  {
  }

  /** The rows addressed to `receiver` that the batch names become acknowledged, and stay so. */
  function MarkAcked(table: Table, receiver: int, keys: set<Key>): Table {
    map k | k in table :: if k in keys && table[k].receiver == receiver then table[k].(acked := true) else table[k]
  }

  function AckKeys(sender: int, ids: seq<string>): set<Key> {
    set id | id in ids :: Key(sender, id)
  }

  lemma AckOne(table: Table, receiver: int, keys: set<Key>, key: Key)
    ensures var before := MarkAcked(table, receiver, keys);
            MarkAcked(table, receiver, keys + {key}) ==
              if key in before && before[key].receiver == receiver then before[key := before[key].(acked := true)] else before
  {
  }

  method AckTransaction(table: Table, receiver: int, sender: int, ids: seq<string>, fault: nat)
    returns (ok: bool, after: Table)
    ensures ok <==> receiver > 0 && sender > 0 && ids != [] && fault > |ids|
    ensures after == if ok then MarkAcked(table, receiver, AckKeys(sender, ids)) else table
  {
    after := table;
    if receiver <= 0 || sender <= 0 || ids == [] {
      return false, table;
    }
    assert after == MarkAcked(table, receiver, AckKeys(sender, ids[..0]));
    for i := 0 to |ids|
      invariant i <= fault
      invariant after == MarkAcked(table, receiver, AckKeys(sender, ids[..i]))
    {
      if i == fault {
        return false, table;
      }
      var key := Key(sender, ids[i]);
      assert ids[..i + 1] == ids[..i] + [ids[i]];
      assert AckKeys(sender, ids[..i + 1]) == AckKeys(sender, ids[..i]) + {key};
      AckOne(table, receiver, AckKeys(sender, ids[..i]), key);
      if key in after && after[key].receiver == receiver {
        after := after[key := after[key].(acked := true)];
      }
    }
    assert ids[..|ids|] == ids;
    if fault == |ids| {
      return false, table;
    }
    ok := true;
  }

  /** The messages that still have to reach `receiver`. */
  function Undelivered(table: Table, receiver: int): set<Key> {
    set k | k in table && table[k].receiver == receiver && !table[k].acked
  }

  /** The answer of the page query: the undelivered rows in row-id order, at most `limit`,
      and a row is left out only when the page is full of smaller row ids. */
  ghost predicate IsPage(table: Table, receiver: int, limit: nat, page: seq<Key>) {
    && |page| <= limit
    && (forall i :: 0 <= i < |page| ==> page[i] in Undelivered(table, receiver))
    && (forall i, j :: 0 <= i < j < |page| ==> table[page[i]].rowId < table[page[j]].rowId)
    && (forall k :: k in Undelivered(table, receiver) && k !in page ==>
          |page| == limit && forall i :: 0 <= i < |page| ==> table[page[i]].rowId < table[k].rowId)
  }

  /** A page holds min(limit, n) of the n undelivered messages. */
  lemma PageSize(table: Table, receiver: int, limit: nat, page: seq<Key>)
    requires IsPage(table, receiver, limit, page)
    ensures Elements(page) <= Undelivered(table, receiver)
    ensures |page| == Min(limit, |Undelivered(table, receiver)|)
  {
    DistinctElements(page);
    var all := Undelivered(table, receiver);
    var left := all - Elements(page);
    assert all == left + Elements(page);
    assert |all| == |left| + |page|;
    if left != {} {
      var k :| k in left;
    }
  }

  ghost function Smallest(table: Table, keys: set<Key>): (least: Key)
    requires keys != {} && keys <= table.Keys
    ensures least in keys && forall k :: k in keys ==> table[least].rowId <= table[k].rowId
    decreases |keys|
  {
    var k :| k in keys;
    if keys == {k} then k
    else
      assert keys == (keys - {k}) + {k};
      var least := Smallest(table, keys - {k});
      if table[k].rowId < table[least].rowId then k else least
  }

  /** The page query always has an answer. */
  lemma {:induction false} PageExists(table: Table, receiver: int, limit: nat) returns (page: seq<Key>)
    requires DistinctIds(table)
    ensures IsPage(table, receiver, limit, page)
  {
    page := [];
    if limit > 0 {
      var before := PageExists(table, receiver, limit - 1);
      var left := Undelivered(table, receiver) - Elements(before);
      page := before;
      if left == {} {
        assert forall k :: k in Undelivered(table, receiver) && k !in page ==> k in left;
      } else {
        var k := Smallest(table, left);
        page := before + [k];
        forall l | l in Undelivered(table, receiver) && l !in page
          ensures forall i :: 0 <= i < |page| ==> table[page[i]].rowId < table[l].rowId
        {
          assert l in left;
        }
      }
    }
  }

  /** ... and only one. */
  lemma {:induction false} PageUnique(table: Table, receiver: int, limit: nat, a: seq<Key>, b: seq<Key>, i: nat)
    requires DistinctIds(table) && IsPage(table, receiver, limit, a) && IsPage(table, receiver, limit, b)
    requires i <= |a| == |b|
    ensures a[..i] == b[..i]
  {
    if i > 0 {
      PageUnique(table, receiver, limit, a, b, i - 1);
      if table[a[i - 1]].rowId < table[b[i - 1]].rowId {
        NotSkipped(table, receiver, limit, a, b, i - 1);
      } else if table[b[i - 1]].rowId < table[a[i - 1]].rowId {
        NotSkipped(table, receiver, limit, b, a, i - 1);
      }
      assert a[..i] == a[..i - 1] + [a[i - 1]] && b[..i] == b[..i - 1] + [b[i - 1]];
    }
  }

  lemma NotSkipped(table: Table, receiver: int, limit: nat, a: seq<Key>, b: seq<Key>, i: nat)
    requires DistinctIds(table) && IsPage(table, receiver, limit, a) && IsPage(table, receiver, limit, b)
    requires i < |a| == |b| && a[..i] == b[..i]
    ensures table[a[i]].rowId >= table[b[i]].rowId
  {
    hide IsPage, Undelivered;
    OnPage(table, receiver, limit, a, i);
    OnPage(table, receiver, limit, b, i);
    if a[i] in b {
      var j :| 0 <= j < |b| && b[j] == a[i];
      if j < i {
        assert a[..i][j] == b[..i][j];
        PageAscends(table, receiver, limit, a, j, i);
      } else if i < j {
        PageAscends(table, receiver, limit, b, i, j);
      }
    } else {
      LeftOut(table, receiver, limit, b, a[i], i);
    }
  }

  lemma OnPage(table: Table, receiver: int, limit: nat, page: seq<Key>, i: nat)
    requires IsPage(table, receiver, limit, page) && i < |page|
    ensures page[i] in Undelivered(table, receiver) && page[i] in table
  {
  }

  lemma PageAscends(table: Table, receiver: int, limit: nat, page: seq<Key>, i: nat, j: nat)
    requires IsPage(table, receiver, limit, page) && i < j < |page| && page[i] in table && page[j] in table
    ensures table[page[i]].rowId < table[page[j]].rowId
  {
  }

  lemma LeftOut(table: Table, receiver: int, limit: nat, page: seq<Key>, k: Key, i: nat)
    requires IsPage(table, receiver, limit, page) && i < |page| && page[i] in table
    requires k in Undelivered(table, receiver) && k in table && k !in page
    ensures table[page[i]].rowId < table[k].rowId
  {
  }

  class ChatServer {
    var table: Table

    constructor ()
      ensures table == map[]
    {
      table := map[];
    }

    /** The whole acceptance decision.  `friends` is the answer of the friendship query
        (None when it could not be made).  Only an accepted batch changes the table. */
    method AcceptTexts(sender: int, receiver: int, texts: seq<Text>, friends: Option<bool>, ids: seq<nat>, fault: nat)
      returns (verdict: Verdict)
      requires |ids| == |texts| && UnusedIds(table, ids)
      modifies this
      ensures verdict.Accepted? <==> && ValidParties(sender, receiver) && ValidBatch(texts) && friends == Some(true)
                                     && fault > |texts| && Repeats(old(table), sender, receiver, texts) && SelfConsistent(texts)
      ensures verdict.InvalidMessage? <==> ValidParties(sender, receiver) && !ValidBatch(texts)
      ensures verdict.InvalidRecipient? <==>
                !ValidParties(sender, receiver) || (ValidBatch(texts) && friends == Some(false))
      ensures if verdict.Accepted? then Persisted(old(table), sender, receiver, texts, table) else table == old(table)
      ensures DistinctIds(old(table)) ==> DistinctIds(table)
    {
      if sender <= 0 || receiver <= 0 || sender == receiver {
        return InvalidRecipient;
      }
      var valid := CheckBatch(texts);
      if !valid {
        return InvalidMessage;
      }
      if friends.None? {
        return Unavailable;
      }
      if !friends.value {
        return InvalidRecipient;
      }
      var ok, after := PersistTransaction(table, sender, receiver, texts, ids, fault);
      table := after;
      return if ok then Accepted else Unavailable;
    }

    method Acknowledge(receiver: int, sender: int, ids: seq<string>, fault: nat) returns (ok: bool)
      modifies this
      ensures ok <==> receiver > 0 && sender > 0 && ids != [] && fault > |ids|
      ensures table == if ok then MarkAcked(old(table), receiver, AckKeys(sender, ids)) else old(table)
    {
      var after;
      ok, after := AckTransaction(table, receiver, sender, ids, fault);
      table := after;
    }
  }
}
