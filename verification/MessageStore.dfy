/** The client's durable message table (SQLite), one per account.  A row is
    written before anything is sent and before anything is acknowledged. */
module MessageStore {
  import opened Messages

  datatype State = Pending | Accepted | Received

  datatype Row = Row(receiver: int, content: string, state: State, nextAttempt: int, attempts: nat)

  type Rows = map<Key, Row>

  /** The checks `save` makes before it opens a transaction. */
  predicate SaveAllowed(uid: int, from: int, to: int, texts: seq<Text>) {
    && uid != 0
    && from > 0 && to > 0 && from != to
    && (from == uid || to == uid)
    && 0 < |texts| <= MAX_TEXTS_PER_FRAME
  }

  /** No text contradicts a stored row of the same key. */
  ghost predicate Agrees(rows: Rows, from: int, to: int, texts: seq<Text>) {
    forall t :: t in texts && Key(from, t.id) in rows ==>
      rows[Key(from, t.id)].receiver == to && rows[Key(from, t.id)].content == t.content
  }

  /** Exactly the batches that `save` stores when the database does not fail. */
  ghost predicate Storable(uid: int, rows: Rows, from: int, to: int, texts: seq<Text>) {
    && SaveAllowed(uid, from, to, texts)
    && AllWellSized(texts)
    && Agrees(rows, from, to, texts)
    && SelfConsistent(texts)
  }

  function InitialState(uid: int, from: int): State {
    if from == uid then Pending else Received
  }

  /** `after` is `before` plus one row for every new key of the batch; stored rows are untouched. */
  ghost predicate Saved(uid: int, before: Rows, from: int, to: int, texts: seq<Text>, after: Rows) {
    && after.Keys == before.Keys + KeysOf(from, texts)
    && (forall k :: k in before ==> after[k] == before[k])
    && (forall t :: t in texts && Key(from, t.id) !in before ==>
          after[Key(from, t.id)] == Row(to, t.content, InitialState(uid, from), 0, 0))
  }

  /** The texts reported to the user interface: first occurrences of keys not stored before, in order. */
  function FreshTexts(before: set<Key>, from: int, texts: seq<Text>): (unseen: seq<Text>)
    ensures forall t :: t in unseen ==> t in texts && Key(from, t.id) !in before
  {
    if texts == [] then []
    else
      var last := texts[|texts| - 1];
      var earlier := texts[..|texts| - 1];
      var unseen := FreshTexts(before, from, earlier);
      if Key(from, last.id) in before || Key(from, last.id) in KeysOf(from, earlier) then unseen else unseen + [last]
  }

  /** The keys reported unseen are the keys of the batch that were not stored, each once. */
  lemma {:induction false} FreshTextsAreNewAndDistinct(before: set<Key>, from: int, texts: seq<Text>)
    ensures KeysOf(from, FreshTexts(before, from, texts)) == KeysOf(from, texts) - before
    ensures var unseen := FreshTexts(before, from, texts);
            forall i, j :: 0 <= i < j < |unseen| ==> unseen[i].id != unseen[j].id
  {
    if texts != [] {
      var last := texts[|texts| - 1];
      var earlier := texts[..|texts| - 1];
      FreshTextsAreNewAndDistinct(before, from, earlier);
      assert texts == earlier + [last];
      BatchKeys(from, earlier, last);
      var unseen := FreshTexts(before, from, earlier);
      if Key(from, last.id) !in before && Key(from, last.id) !in KeysOf(from, earlier) {
        assert forall i :: 0 <= i < |unseen| ==> Key(from, unseen[i].id) in KeysOf(from, unseen);
        assert KeysOf(from, unseen + [last]) == KeysOf(from, unseen) + {Key(from, last.id)} by {
          BatchKeys(from, unseen, last);
        }
      }
    }
  }

  /** Every text of a server reply names a stored row with the same receiver and content. */
  ghost predicate Confirms(uid: int, rows: Rows, to: int, texts: seq<Text>) {
    forall t :: t in texts ==>
      && Key(uid, t.id) in rows
      && rows[Key(uid, t.id)].receiver == to
      && rows[Key(uid, t.id)].content == t.content
  }

  /** The rows named by the batch become `accepted`; nothing else changes. */
  function MarkAccepted(rows: Rows, keys: set<Key>): Rows {
    map k | k in rows :: if k in keys then rows[k].(state := Accepted) else rows[k]
  }

  /** Seconds until the next attempt: 5, 10, 20, 40, then 60 for ever. */
  function RetryDelay(attempts: nat): int {
    Min(60, 5 * (if attempts == 0 then 1 else if attempts == 1 then 2 else if attempts == 2 then 4 else if attempts == 3 then 8 else 16))
  }

  function Retried(row: Row, now: int): Row {
    row.(nextAttempt := now + RetryDelay(row.attempts), attempts := Min(row.attempts + 1, 5))
  }

  /** What the loop of `save` has established once it has handled the texts in `done`. */
  ghost predicate Processed(uid: int, rows: Rows, from: int, to: int, done: seq<Text>, pending: Rows) {
    && AllWellSized(done) && Agrees(rows, from, to, done) && SelfConsistent(done)
    && Saved(uid, rows, from, to, done, pending)
    && Agrees(pending, from, to, done)
  }

  lemma InsertOne(uid: int, rows: Rows, from: int, to: int, done: seq<Text>, text: Text, pending: Rows)
    requires Processed(uid, rows, from, to, done, pending) && WellSized(text) && Key(from, text.id) !in pending
    ensures Processed(uid, rows, from, to, done + [text],
                      pending[Key(from, text.id) := Row(to, text.content, InitialState(uid, from), 0, 0)])
  {
    hide Saved, KeysOf;
    InsertSaved(uid, rows, from, to, done, text, pending);
    NotYet(uid, rows, from, to, done, pending, Key(from, text.id));
    forall t | t in done ensures Key(from, t.id) != Key(from, text.id) {
      InKeys(from, done, t);
    }
  }

  lemma InKeys(from: int, texts: seq<Text>, t: Text)
    requires t in texts
    ensures Key(from, t.id) in KeysOf(from, texts)
  {
  }

  lemma NotYet(uid: int, rows: Rows, from: int, to: int, done: seq<Text>, pending: Rows, key: Key)
    requires Saved(uid, rows, from, to, done, pending)
    ensures key in pending <==> key in rows || key in KeysOf(from, done)
  {
  }

  lemma InsertSaved(uid: int, rows: Rows, from: int, to: int, done: seq<Text>, text: Text, pending: Rows)
    requires Saved(uid, rows, from, to, done, pending) && Key(from, text.id) !in pending
    ensures Saved(uid, rows, from, to, done + [text],
                  pending[Key(from, text.id) := Row(to, text.content, InitialState(uid, from), 0, 0)])
  {
    BatchKeys(from, done, text);
    forall t | t in done ensures Key(from, t.id) in KeysOf(from, done) {}
  }

  lemma SkipOne(uid: int, rows: Rows, from: int, to: int, done: seq<Text>, text: Text, pending: Rows)
    requires Processed(uid, rows, from, to, done, pending) && WellSized(text)
    requires var key := Key(from, text.id); key in pending && pending[key].receiver == to && pending[key].content == text.content
    ensures Processed(uid, rows, from, to, done + [text], pending)
  {
    BatchKeys(from, done, text);
    forall t | t in done && t.id == text.id ensures t == text {
      assert Key(from, t.id) in KeysOf(from, done);
    }
  }

  lemma Conflict(uid: int, rows: Rows, from: int, to: int, done: seq<Text>, text: Text, pending: Rows)
    requires Processed(uid, rows, from, to, done, pending)
    requires var key := Key(from, text.id); key in pending && !(pending[key].receiver == to && pending[key].content == text.content)
    ensures !(Agrees(rows, from, to, done + [text]) && SelfConsistent(done + [text]))
  {
    var key := Key(from, text.id);
    assert text in done + [text];
    if key !in rows {
      var t :| t in done && key == Key(from, t.id);
      assert t in done + [text];
    }
  }

  /** A batch that fails on one of its prefixes is not storable. */
  lemma BadPrefix(uid: int, rows: Rows, from: int, to: int, texts: seq<Text>, i: nat)
    requires i <= |texts|
    requires !(AllWellSized(texts[..i]) && Agrees(rows, from, to, texts[..i]) && SelfConsistent(texts[..i]))
    ensures !Storable(uid, rows, from, to, texts)
  {
    assert forall t :: t in texts[..i] ==> t in texts;
  }

  lemma FreshOne(before: set<Key>, from: int, done: seq<Text>, text: Text)
    ensures FreshTexts(before, from, done + [text]) ==
            FreshTexts(before, from, done) +
            (if Key(from, text.id) in before || Key(from, text.id) in KeysOf(from, done) then [] else [text])
  {
    assert (done + [text])[..|done|] == done;
  }

  /** The transaction of `save`: all of the batch or none of it.  `fault` is the number of
      texts handled before a database error: an error at `fault == |texts|` is a failed
      commit, a larger value means no error. */
  method SaveTransaction(uid: int, rows: Rows, from: int, to: int, texts: seq<Text>, fault: nat)
    returns (ok: bool, after: Rows, inserted: seq<Text>)
    requires SaveAllowed(uid, from, to, texts)
    ensures ok <==> fault > |texts| && Storable(uid, rows, from, to, texts)
    ensures ok ==> Saved(uid, rows, from, to, texts, after) && inserted == FreshTexts(rows.Keys, from, texts)
    ensures !ok ==> after == rows && inserted == []
  {
    hide Processed, FreshTexts, Storable, Saved, KeysOf;
    after, inserted := rows, [];
    ProcessedNone(uid, rows, from, to);
    for i := 0 to |texts|
      invariant i <= fault
      invariant Processed(uid, rows, from, to, texts[..i], after)
      invariant inserted == FreshTexts(rows.Keys, from, texts[..i])
    {
      var text := texts[i];
      var key := Key(from, text.id);
      assert texts[..i + 1] == texts[..i] + [text];
      if i == fault {
        return false, rows, [];
      }
      if !WellSized(text) {
        BadText(uid, rows, from, to, texts, i);
        return false, rows, [];
      }
      ProcessedKey(uid, rows, from, to, texts[..i], after, key);
      FreshOne(rows.Keys, from, texts[..i], text);
      if key in after {
        if after[key].receiver != to || after[key].content != text.content {
          Conflict(uid, rows, from, to, texts[..i], text, after);
          BadPrefix(uid, rows, from, to, texts, i + 1);
          return false, rows, [];
        }
        SkipOne(uid, rows, from, to, texts[..i], text, after);
        continue;
      }
      InsertOne(uid, rows, from, to, texts[..i], text, after);
      after := after[key := Row(to, text.content, InitialState(uid, from), 0, 0)];
      inserted := inserted + [text];
    }
    assert texts[..|texts|] == texts;
    ProcessedAll(uid, rows, from, to, texts, after);
    if fault == |texts| {
      return false, rows, [];
    }
    ok := true;
  }

  lemma ProcessedNone(uid: int, rows: Rows, from: int, to: int)
    ensures Processed(uid, rows, from, to, [], rows) && FreshTexts(rows.Keys, from, []) == []
  {
    assert KeysOf(from, []) == {};
  }

  lemma ProcessedKey(uid: int, rows: Rows, from: int, to: int, done: seq<Text>, pending: Rows, key: Key)
    requires Processed(uid, rows, from, to, done, pending)
    ensures key in pending <==> key in rows.Keys || key in KeysOf(from, done)
  {
  }

  lemma ProcessedAll(uid: int, rows: Rows, from: int, to: int, texts: seq<Text>, after: Rows)
    requires Processed(uid, rows, from, to, texts, after) && SaveAllowed(uid, from, to, texts)
    ensures Storable(uid, rows, from, to, texts) && Saved(uid, rows, from, to, texts, after)
  {
  }

  lemma BadText(uid: int, rows: Rows, from: int, to: int, texts: seq<Text>, i: nat)
    requires i < |texts| && !WellSized(texts[i])
    ensures !Storable(uid, rows, from, to, texts)
  {
    assert texts[i] in texts;
  }

  /** The transaction of `accept`: every update must hit exactly one row.  `fault` as above. */
  method AcceptTransaction(uid: int, rows: Rows, to: int, texts: seq<Text>, fault: nat)
    returns (ok: bool, after: Rows)
    ensures ok <==> fault > |texts| && Confirms(uid, rows, to, texts)
    ensures after == if ok then MarkAccepted(rows, KeysOf(uid, texts)) else rows
  {
    after := rows;
    assert after == MarkAccepted(rows, KeysOf(uid, texts[..0]));
    for i := 0 to |texts|
      invariant i <= fault && Confirms(uid, rows, to, texts[..i])
      invariant after == MarkAccepted(rows, KeysOf(uid, texts[..i]))
    {
      var key := Key(uid, texts[i].id);
      assert texts[..i + 1] == texts[..i] + [texts[i]];
      BatchKeys(uid, texts[..i], texts[i]);
      if i == fault || key !in after || after[key].receiver != to || after[key].content != texts[i].content {
        return false, rows;
      }
      after := after[key := after[key].(state := Accepted)];
    }
    assert texts[..|texts|] == texts;
    if fault == |texts| {
      return false, rows;
    }
    ok := true;
  }

  class Store {
    var uid: int   // 0 while closed
    var rows: Rows

    constructor (uid: int)
      ensures this.uid == uid && rows == map[]
    {
      this.uid := uid;
      rows := map[];
    }

    /** Outgoing messages are stored as pending before they are sent, incoming ones as
        received before they are acknowledged. */
    method Save(from: int, to: int, texts: seq<Text>, fault: nat) returns (ok: bool, unseen: seq<Text>)
      modifies this
      ensures uid == old(uid)
      ensures ok <==> fault > |texts| && Storable(uid, old(rows), from, to, texts)
      ensures ok ==> Saved(uid, old(rows), from, to, texts, rows) && unseen == FreshTexts(old(rows).Keys, from, texts)
      ensures !ok ==> rows == old(rows) && unseen == []
    {
      if uid == 0 || from <= 0 || to <= 0 || from == to || (from != uid && to != uid) || |texts| == 0 || |texts| > MAX_TEXTS_PER_FRAME {
        return false, [];
      }
      var after;
      ok, after, unseen := SaveTransaction(uid, rows, from, to, texts, fault);
      rows := after;
    }

    /** A server reply marks rows accepted all together or not at all. */
    method Accept(from: int, to: int, error: int, accepted: bool, texts: seq<Text>, fault: nat) returns (ok: bool)
      modifies this
      ensures uid == old(uid)
      ensures ok <==> && uid != 0 && from == uid && error == 0 && accepted
                      && 0 < |texts| <= MAX_TEXTS_PER_FRAME && fault > |texts|
                      && Confirms(uid, old(rows), to, texts)
      ensures rows == if ok then MarkAccepted(old(rows), KeysOf(uid, texts)) else old(rows)
    {
      if uid == 0 || from != uid || error != 0 || !accepted || |texts| == 0 || |texts| > MAX_TEXTS_PER_FRAME {
        return false;
      }
      var after;
      ok, after := AcceptTransaction(uid, rows, to, texts, fault);
      rows := after;
    }

    /** Record one transmission of a pending message before it is written to the socket. */
    method Attempted(id: string, now: int, fault: bool) returns (ok: bool)
      modifies this
      ensures uid == old(uid)
      ensures ok <==> uid != 0 && !fault && Key(uid, id) in old(rows) && old(rows)[Key(uid, id)].state == Pending
      ensures rows == if ok then old(rows)[Key(uid, id) := Retried(old(rows)[Key(uid, id)], now)] else old(rows)
    {
      var key := Key(uid, id);
      if uid == 0 || fault || key !in rows || rows[key].state != Pending {
        return false;
      }
      rows := rows[key := Retried(rows[key], now)];
      return true;
    }
  }

  /** The times at which one row is sent: each send finds the row due and reschedules it. */
  ghost predicate SendTimes(row: Row, times: seq<int>)
    decreases |times|
  {
    times == [] || (row.nextAttempt <= times[0] && SendTimes(Retried(row, times[0]), times[1..]))
  }

  /** Consecutive sends of one stored message are at least 5, 10, 20, 40, 60, 60, ... seconds
      apart, however the clock moves between them and across restarts. */
  lemma {:induction false} SendsBackOff(row: Row, times: seq<int>, i: nat)
    requires row.attempts <= 5 && SendTimes(row, times) && i + 1 < |times|
    ensures times[i + 1] - times[i] >= RetryDelay(Min(row.attempts + i, 5))
    decreases i
  {
    var next := Retried(row, times[0]);
    if i == 0 {
      assert times[1..][0] == times[1];
    } else {
      SendsBackOff(next, times[1..], i - 1);
    }
  }
}
