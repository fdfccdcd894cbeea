/** The text-message protocol as a whole: every client's store, the server table, the
    delivery windows of the open sessions and the network, under lost, duplicated and
    reordered frames and under crashes between any two commits.

    The network is the set of frames ever sent.  A step may deliver any of them any number
    of times or never, which covers loss, duplication and reordering.  A crash loses what
    is not in a database: a step that commits may or may not also send its answer. */
module TextProtocol {
  import opened Messages
  import opened Runs
  import S = MessageStore
  import T = MessageServer
  import D = Delivery

  datatype Frame =
    | Request(from: int, to: int, texts: seq<Text>)      // ID_TEXT_CHAT_MSG_REQ
    | Reply(from: int, to: int, texts: seq<Text>)        // ID_TEXT_CHAT_MSG_RSP, delivery "accepted"
    | Notify(from: int, to: int, texts: seq<Text>)       // ID_NOTIFY_TEXT_CHAT_MSG_REQ
    | Ack(reader: int, sender: int, ids: seq<string>)        // ID_TEXT_CHAT_MSG_ACK

  /** A session of user `uid` with its delivery window. */
  datatype Session = Session(uid: int, window: D.Window)

  datatype System = System(
    stores: map<int, S.Rows>,       // one database per account
    table: T.Table,
    sessions: map<int, Session>,
    net: set<Frame>,
    shown: map<int, seq<Key>>)      // what each client has ever reported as new, in order

  function StoreOf(s: System, uid: int): S.Rows {
    if uid in s.stores then s.stores[uid] else map[]
  }

  function ShownBy(s: System, uid: int): seq<Key> {
    if uid in s.shown then s.shown[uid] else []
  }

  function NotifyOf(table: T.Table, k: Key): Frame
    requires k in table
  {
    Notify(k.sender, table[k].receiver, [Text(k.id, table[k].content)])
  }

  function FreshKeys(from: int, texts: seq<Text>): seq<Key> {
    seq(|texts|, i requires 0 <= i < |texts| => Key(from, texts[i].id))
  }

  datatype Event =
    | Enqueue(uid: int, to: int, texts: seq<Text>)                 // the user sends: save to the outbox
    | Transmit(uid: int, to: int, texts: seq<Text>, now: int)      // the outbox is flushed
    | Accept(from: int, to: int, texts: seq<Text>, answered: bool) // the server commits a request
    | Learn(from: int, to: int, texts: seq<Text>)                  // the sender reads the reply
    | Deliver(session: int, turn: D.Turn)                          // one delivery pass
    | Receive(from: int, to: int, texts: seq<Text>, acks: set<seq<string>>) // the receiver saves, then acknowledges
    | Confirm(reader: int, sender: int, ids: seq<string>)              // the server commits an acknowledgement
    | Open(session: int, uid: int)
    | Close(session: int)
    | ServerCrash
    | Failure                                                       // any operation that is refused or rolled back

  /** The client inserts a batch and reports what is new. */
  ghost predicate StoreStep(s: System, uid: int, from: int, to: int, texts: seq<Text>, s': System) {
    && S.Storable(uid, StoreOf(s, uid), from, to, texts)
    && S.Saved(uid, StoreOf(s, uid), from, to, texts, StoreOf(s', uid))
    && s'.stores == s.stores[uid := StoreOf(s', uid)]
    && s'.shown == s.shown[uid := ShownBy(s, uid) + FreshKeys(from, S.FreshTexts(StoreOf(s, uid).Keys, from, texts))]
  }

  /** Only own pending rows that are due are transmitted, to the receiver they were stored for. */
  ghost predicate Transmittable(rows: S.Rows, uid: int, to: int, texts: seq<Text>, now: int) {
    texts != [] && forall t :: t in texts ==>
      && Key(uid, t.id) in rows
      && rows[Key(uid, t.id)].state == S.Pending && rows[Key(uid, t.id)].nextAttempt <= now
      && rows[Key(uid, t.id)].receiver == to && rows[Key(uid, t.id)].content == t.content
  }

  function Retransmitted(rows: S.Rows, uid: int, texts: seq<Text>, now: int): S.Rows {
    map k | k in rows :: if k in KeysOf(uid, texts) then S.Retried(rows[k], now) else rows[k]
  }

  ghost predicate Next(s: System, e: Event, s': System) {
    match e
    case Enqueue(uid, to, texts) =>
      StoreStep(s, uid, uid, to, texts, s')
      && s'.table == s.table && s'.sessions == s.sessions && s'.net == s.net
    case Transmit(uid, to, texts, now) =>
      && uid in s.stores && Transmittable(s.stores[uid], uid, to, texts, now)
      && s' == s.(stores := s.stores[uid := Retransmitted(s.stores[uid], uid, texts, now)],
                  net := s.net + {Request(uid, to, texts)})
    case Accept(from, to, texts, answered) =>
      && Request(from, to, texts) in s.net
      && T.ValidParties(from, to) && T.ValidBatch(texts)
      && T.Repeats(s.table, from, to, texts) && SelfConsistent(texts)
      && T.Persisted(s.table, from, to, texts, s'.table) && T.DistinctIds(s'.table)
      && s' == s.(table := s'.table, net := s.net + (if answered then {Reply(from, to, texts)} else {}))
    case Learn(from, to, texts) =>
      && Reply(from, to, texts) in s.net
      && S.Confirms(from, StoreOf(s, from), to, texts)
      && s' == s.(stores := s.stores[from := S.MarkAccepted(StoreOf(s, from), KeysOf(from, texts))])
    case Deliver(session, turn) =>
      && session in s.sessions
      && (turn.page.Some? ==> T.IsPage(s.table, s.sessions[session].uid, D.CAPACITY, turn.page.value))
      && var window := s.sessions[session].window;
         s' == s.(sessions := s.sessions[session := s.sessions[session].(window := D.AfterTurn(window, turn))],
                  net := s.net + set k | k in D.SentInTurn(window, turn) && k in s.table :: NotifyOf(s.table, k))
    case Receive(from, to, texts, acks) =>
      && Notify(from, to, texts) in s.net
      && (forall ids :: ids in acks ==> ids != [] && forall id :: id in ids ==> Key(from, id) in KeysOf(from, texts))
      && StoreStep(s, to, from, to, texts, s')
      && s'.table == s.table && s'.sessions == s.sessions
      && s'.net == s.net + set ids | ids in acks :: Ack(to, from, ids)
    case Confirm(reader, sender, ids) =>
      && Ack(reader, sender, ids) in s.net
      && s' == s.(table := T.MarkAcked(s.table, reader, T.AckKeys(sender, ids)))
    case Open(session, uid) =>
      session !in s.sessions && s' == s.(sessions := s.sessions[session := Session(uid, map[])])
    case Close(session) => s' == s.(sessions := s.sessions - {session})
    case ServerCrash => s' == s.(sessions := map[])
    case Failure => s' == s
  }

  const INITIAL := System(map[], map[], map[], {}, map[])

  /** The stored copy of a message. */
  predicate HoldsCopy(rows: S.Rows, k: Key, receiver: int, content: string) {
    k in rows && rows[k].receiver == receiver && rows[k].content == content
  }

  /** The server row of a message. */
  predicate ServerHolds(table: T.Table, k: Key, receiver: int, content: string) {
    k in table && table[k].receiver == receiver && table[k].content == content
  }

  /** Own rows are pending or accepted, others are received and addressed to the account;
      an accepted or received row has a server row with the same receiver and content. */
  ghost predicate StoreInv(uid: int, rows: S.Rows, table: T.Table) {
    forall k :: k in rows ==>
      && (k.sender == uid <==> rows[k].state != S.Received)
      && (k.sender != uid ==> rows[k].receiver == uid)
      && (rows[k].state != S.Pending ==> ServerHolds(table, k, rows[k].receiver, rows[k].content))
  }

  /** A server row is a copy of its sender's row; once acknowledged the receiver holds it too. */
  ghost predicate TableInv(s: System) {
    forall k :: k in s.table ==>
      && T.ValidParties(k.sender, s.table[k].receiver)
      && WellSized(Text(k.id, s.table[k].content))
      && HoldsCopy(StoreOf(s, k.sender), k, s.table[k].receiver, s.table[k].content)
      && (s.table[k].acked ==> HoldsCopy(StoreOf(s, s.table[k].receiver), k, s.table[k].receiver, s.table[k].content))
  }

  /** Every frame tells the truth about the databases. */
  ghost predicate FrameInv(s: System, f: Frame) {
    match f
    case Request(from, to, texts) => forall t :: t in texts ==> HoldsCopy(StoreOf(s, from), Key(from, t.id), to, t.content)
    case Reply(from, to, texts) => forall t :: t in texts ==> ServerHolds(s.table, Key(from, t.id), to, t.content)
    case Notify(from, to, texts) =>
      |texts| == 1 && forall t :: t in texts ==> ServerHolds(s.table, Key(from, t.id), to, t.content)
    case Ack(reader, sender, ids) => reader != sender && forall id :: id in ids ==> Key(sender, id) in StoreOf(s, reader)
  }

  ghost predicate ShownInv(s: System, uid: int) {
    var log := ShownBy(s, uid);
    && (forall i :: 0 <= i < |log| ==> log[i] in StoreOf(s, uid))
    && (forall i, j :: 0 <= i < j < |log| ==> log[i] != log[j])
  }

  ghost predicate Inv(s: System) {
    && (forall uid :: uid in s.stores ==> StoreInv(uid, s.stores[uid], s.table))
    && TableInv(s)
    && T.DistinctIds(s.table)
    && (forall f :: f in s.net ==> FrameInv(s, f))
    && (forall uid :: uid in s.shown ==> ShownInv(s, uid))
  }

  /** Databases only grow: copies are never lost, contents and receivers never change, a row
      leaves no state but pending, and acknowledged rows stay acknowledged. */
  ghost predicate Grows(s: System, s': System) {
    && (forall uid, k :: k in StoreOf(s, uid) ==>
          && HoldsCopy(StoreOf(s', uid), k, StoreOf(s, uid)[k].receiver, StoreOf(s, uid)[k].content)
          && (StoreOf(s, uid)[k].state != S.Pending ==> StoreOf(s', uid)[k].state == StoreOf(s, uid)[k].state))
    && (forall k :: k in s.table ==>
          ServerHolds(s'.table, k, s.table[k].receiver, s.table[k].content) && (s.table[k].acked ==> s'.table[k].acked))
  }

  lemma FrameKept(s: System, s': System, f: Frame)
    requires Grows(s, s') && FrameInv(s, f)
    ensures FrameInv(s', f)
  {
    match f
    case Request(from, to, texts) =>
      forall t | t in texts ensures HoldsCopy(StoreOf(s', from), Key(from, t.id), to, t.content) {
        assert HoldsCopy(StoreOf(s, from), Key(from, t.id), to, t.content);
      }
    case Reply(from, to, texts) =>
      forall t | t in texts ensures ServerHolds(s'.table, Key(from, t.id), to, t.content) {
        assert ServerHolds(s.table, Key(from, t.id), to, t.content);
      }
    case Notify(from, to, texts) =>
      forall t | t in texts ensures ServerHolds(s'.table, Key(from, t.id), to, t.content) {
        assert ServerHolds(s.table, Key(from, t.id), to, t.content);
      }
    case Ack(reader, sender, ids) =>
  }

  /** Old frames stay true; only the frames a step adds need an argument. */
  lemma NetKept(s: System, s': System, added: set<Frame>)
    requires Grows(s, s') && s'.net == s.net + added
    requires forall f :: f in s.net ==> FrameInv(s, f)
    requires forall f :: f in added ==> FrameInv(s', f)
    ensures forall f :: f in s'.net ==> FrameInv(s', f)
  {
    forall f | f in s'.net && f !in added ensures FrameInv(s', f) { FrameKept(s, s', f); }
  }

  lemma LogsKept(s: System, s': System)
    requires Grows(s, s') && s'.shown == s.shown
    requires forall uid :: uid in s.shown ==> ShownInv(s, uid)
    ensures forall uid :: uid in s'.shown ==> ShownInv(s', uid)
  {
    forall uid | uid in s'.shown ensures ShownInv(s', uid) { assert ShownInv(s, uid); }
  }

  lemma TableKept(s: System, s': System)
    requires Grows(s, s') && TableInv(s) && s'.table == s.table
    ensures TableInv(s')
  {
  }

  lemma StoresKept(s: System, s': System)
    requires Grows(s, s') && s'.stores == s.stores
    requires forall uid :: uid in s.stores ==> StoreInv(uid, s.stores[uid], s.table)
    ensures forall uid :: uid in s'.stores ==> StoreInv(uid, s'.stores[uid], s'.table)
  {
    forall uid | uid in s'.stores ensures StoreInv(uid, s'.stores[uid], s'.table) {
      assert StoreInv(uid, s.stores[uid], s.table);
    }
  }

  lemma EnqueueStep(s: System, uid: int, to: int, texts: seq<Text>, s': System)
    requires Inv(s) && Next(s, Enqueue(uid, to, texts), s')
    ensures Inv(s') && Grows(s, s')
  {
    hide Grows, FrameInv, ShownInv, TableInv, StoreInv, StoreStep;
    SavedGrows(s, uid, uid, to, texts, s');
    EnqueuedStores(s, uid, to, texts, s');
    NetKept(s, s', {});
    TableKept(s, s');
    ShownKept(s, uid, uid, to, texts, s');
  }

  /** What the sender stores is pending, so it needs no server row yet. */
  lemma EnqueuedStores(s: System, uid: int, to: int, texts: seq<Text>, s': System)
    requires StoreStep(s, uid, uid, to, texts, s') && s'.table == s.table
    requires forall u :: u in s.stores ==> StoreInv(u, s.stores[u], s.table)
    ensures forall u :: u in s'.stores ==> StoreInv(u, s'.stores[u], s'.table)
  {
    assert uid in s.stores ==> StoreInv(uid, s.stores[uid], s.table);
  }

  lemma SavedGrows(s: System, uid: int, from: int, to: int, texts: seq<Text>, s': System)
    requires StoreStep(s, uid, from, to, texts, s') && s'.table == s.table
    ensures Grows(s, s')
  {
  }

  /** A batch adds to the report log only keys that were not stored, each once. */
  lemma ShownKept(s: System, uid: int, from: int, to: int, texts: seq<Text>, s': System)
    requires StoreStep(s, uid, from, to, texts, s')
    requires forall u :: u in s.shown ==> ShownInv(s, u)
    ensures forall u :: u in s'.shown ==> ShownInv(s', u)
  {
    hide ShownInv, S.Storable, S.Saved, S.FreshTexts;
    ShownLonger(s, uid, from, to, texts, s');
    forall u | u in s'.shown && u != uid ensures ShownInv(s', u) {
      OtherShown(s, s', u);
    }
  }

  lemma OtherShown(s: System, s': System, u: int)
    requires ShownInv(s, u) && StoreOf(s', u) == StoreOf(s, u) && ShownBy(s', u) == ShownBy(s, u)
    ensures ShownInv(s', u)
  {
  }

  lemma ShownLonger(s: System, uid: int, from: int, to: int, texts: seq<Text>, s': System)
    requires StoreStep(s, uid, from, to, texts, s') && (uid in s.shown ==> ShownInv(s, uid))
    ensures ShownInv(s', uid)
  {
    hide S.Storable, S.FreshTexts;
    var unseen := S.FreshTexts(StoreOf(s, uid).Keys, from, texts);
    S.FreshTextsAreNewAndDistinct(StoreOf(s, uid).Keys, from, texts);
    var log, added := ShownBy(s, uid), FreshKeys(from, unseen);
    assert ShownBy(s', uid) == log + added;
    forall i | 0 <= i < |added| ensures added[i] in StoreOf(s', uid) && added[i] !in StoreOf(s, uid) {
      assert unseen[i] in unseen;
      assert Key(from, unseen[i].id) in KeysOf(from, unseen);
    }
  }

  lemma TransmitStep(s: System, uid: int, to: int, texts: seq<Text>, now: int, s': System)
    requires Inv(s) && Next(s, Transmit(uid, to, texts, now), s')
    ensures Inv(s') && Grows(s, s')
  {
    RetransmittedStore(s, uid, to, texts, now, s');
    TableKept(s, s');
    NetKept(s, s', {Request(uid, to, texts)});
    LogsKept(s, s');
  }

  lemma RetransmittedStore(s: System, uid: int, to: int, texts: seq<Text>, now: int, s': System)
    requires Next(s, Transmit(uid, to, texts, now), s')
    requires forall u :: u in s.stores ==> StoreInv(u, s.stores[u], s.table)
    ensures Grows(s, s') && FrameInv(s', Request(uid, to, texts))
    ensures forall u :: u in s'.stores ==> StoreInv(u, s'.stores[u], s'.table)
  {
    hide Grows, StoreInv, FrameInv, Retransmitted;
    RetriedStore(uid, s.stores[uid], s.table, texts, now);
    RetriedGrows(s, uid, to, texts, now, s');
    forall u | u in s'.stores ensures StoreInv(u, s'.stores[u], s'.table) {
      assert StoreInv(u, s.stores[u], s.table);
    }
  }

  lemma RetriedStore(uid: int, rows: S.Rows, table: T.Table, texts: seq<Text>, now: int)
    requires StoreInv(uid, rows, table)
    ensures StoreInv(uid, Retransmitted(rows, uid, texts, now), table)
  {
  }

  lemma RetriedGrows(s: System, uid: int, to: int, texts: seq<Text>, now: int, s': System)
    requires uid in s.stores && Transmittable(s.stores[uid], uid, to, texts, now)
    requires s'.table == s.table && s'.stores == s.stores[uid := Retransmitted(s.stores[uid], uid, texts, now)]
    ensures Grows(s, s') && FrameInv(s', Request(uid, to, texts))
  {
  }

  lemma AcceptStep(s: System, from: int, to: int, texts: seq<Text>, answered: bool, s': System)
    requires Inv(s) && Next(s, Accept(from, to, texts, answered), s')
    ensures Inv(s') && Grows(s, s')
  {
    assert FrameInv(s, Request(from, to, texts));
    AcceptedTable(s, from, to, texts, s');
    StoresKept(s, s');
    NetKept(s, s', if answered then {Reply(from, to, texts)} else {});
    LogsKept(s, s');
  }

  lemma AcceptedTable(s: System, from: int, to: int, texts: seq<Text>, s': System)
    requires TableInv(s) && FrameInv(s, Request(from, to, texts)) && s'.stores == s.stores
    requires T.ValidParties(from, to) && AllWellSized(texts)
    requires T.Repeats(s.table, from, to, texts) && T.Persisted(s.table, from, to, texts, s'.table)
    ensures Grows(s, s') && TableInv(s') && FrameInv(s', Reply(from, to, texts))
  {
    hide TableInv, Grows, FrameInv;
    AcceptedGrows(s, from, to, texts, s');
    AcceptedReply(s, from, to, texts, s');
    AcceptedRows(s, from, to, texts, s');
  }

  lemma AcceptedGrows(s: System, from: int, to: int, texts: seq<Text>, s': System)
    requires s'.stores == s.stores && T.Persisted(s.table, from, to, texts, s'.table)
    ensures Grows(s, s')
  {
  }

  lemma AcceptedReply(s: System, from: int, to: int, texts: seq<Text>, s': System)
    requires T.Repeats(s.table, from, to, texts) && T.Persisted(s.table, from, to, texts, s'.table)
    ensures FrameInv(s', Reply(from, to, texts))
  {
    forall t | t in texts ensures Key(from, t.id) in KeysOf(from, texts) {}
  }

  lemma AcceptedRows(s: System, from: int, to: int, texts: seq<Text>, s': System)
    requires TableInv(s) && FrameInv(s, Request(from, to, texts)) && s'.stores == s.stores
    requires T.ValidParties(from, to) && AllWellSized(texts)
    requires T.Repeats(s.table, from, to, texts) && T.Persisted(s.table, from, to, texts, s'.table)
    ensures TableInv(s')
  {
    forall k | k in s'.table && k !in s.table ensures exists t :: t in texts && k == Key(from, t.id) {}
  }

  lemma LearnStep(s: System, from: int, to: int, texts: seq<Text>, s': System)
    requires Inv(s) && Next(s, Learn(from, to, texts), s')
    ensures Inv(s') && Grows(s, s')
  {
    assert FrameInv(s, Reply(from, to, texts));
    LearnedStore(s, from, to, texts, s');
    TableKept(s, s');
    NetKept(s, s', {});
    LogsKept(s, s');
  }

  lemma LearnedStore(s: System, from: int, to: int, texts: seq<Text>, s': System)
    requires Next(s, Learn(from, to, texts), s') && FrameInv(s, Reply(from, to, texts))
    requires forall u :: u in s.stores ==> StoreInv(u, s.stores[u], s.table)
    ensures Grows(s, s')
    ensures forall u :: u in s'.stores ==> StoreInv(u, s'.stores[u], s'.table)
  {
    hide Grows, StoreInv, S.MarkAccepted, KeysOf;
    NoRows(from, s.table);
    OwnRows(from, StoreOf(s, from), s.table, texts);
    LearnedGrows(s, from, KeysOf(from, texts), s');
    MarkedStore(from, StoreOf(s, from), s.table, to, texts);
  }

  lemma NoRows(uid: int, table: T.Table)
    ensures StoreInv(uid, map[], table)
  {
  }

  lemma OwnRows(uid: int, rows: S.Rows, table: T.Table, texts: seq<Text>)
    requires StoreInv(uid, rows, table)
    ensures forall k :: k in KeysOf(uid, texts) && k in rows ==> rows[k].state != S.Received
  {
  }

  lemma LearnedGrows(s: System, from: int, keys: set<Key>, s': System)
    requires s' == s.(stores := s.stores[from := S.MarkAccepted(StoreOf(s, from), keys)])
    requires forall k :: k in keys && k in StoreOf(s, from) ==> StoreOf(s, from)[k].state != S.Received
    ensures Grows(s, s')
  {
  }

  lemma MarkedStore(uid: int, rows: S.Rows, table: T.Table, to: int, texts: seq<Text>)
    requires StoreInv(uid, rows, table) && S.Confirms(uid, rows, to, texts)
    requires forall t :: t in texts ==> ServerHolds(table, Key(uid, t.id), to, t.content)
    ensures StoreInv(uid, S.MarkAccepted(rows, KeysOf(uid, texts)), table)
  {
    forall k | k in KeysOf(uid, texts)
      ensures k in rows && k.sender == uid && ServerHolds(table, k, rows[k].receiver, rows[k].content)
    {
      var t :| t in texts && k == Key(uid, t.id);
    }
  }

  lemma DeliverStep(s: System, session: int, turn: D.Turn, s': System)
    requires Inv(s) && Next(s, Deliver(session, turn), s')
    ensures Inv(s') && Grows(s, s')
  {
    hide D.AfterTurn, D.SentInTurn, FrameInv, StoreInv, ShownInv, TableInv, T.IsPage;
    TableKept(s, s');
    StoresKept(s, s');
    NotifiesHold(s');
    NetKept(s, s', set k | k in D.SentInTurn(s.sessions[session].window, turn) && k in s.table :: NotifyOf(s.table, k));
    LogsKept(s, s');
  }

  lemma NotifiesHold(s: System)
    ensures forall k :: k in s.table ==> FrameInv(s, NotifyOf(s.table, k))
  {
  }

  lemma ReceiveStep(s: System, from: int, to: int, texts: seq<Text>, acks: set<seq<string>>, s': System)
    requires Inv(s) && Next(s, Receive(from, to, texts, acks), s')
    ensures Inv(s') && Grows(s, s')
  {
    assert FrameInv(s, Notify(from, to, texts));
    SavedGrows(s, to, from, to, texts, s');
    TableKept(s, s');
    ShownKept(s, to, from, to, texts, s');
    ReceivedStore(s, from, to, texts, s');
    AcksHold(s, from, to, texts, acks, s');
    NetKept(s, s', set ids | ids in acks :: Ack(to, from, ids));
  }

  lemma AcksHold(s: System, from: int, to: int, texts: seq<Text>, acks: set<seq<string>>, s': System)
    requires StoreStep(s, to, from, to, texts, s')
    requires forall ids :: ids in acks ==> forall id :: id in ids ==> Key(from, id) in KeysOf(from, texts)
    ensures forall ids :: ids in acks ==> FrameInv(s', Ack(to, from, ids))
  {
  }

  lemma ReceivedStore(s: System, from: int, to: int, texts: seq<Text>, s': System)
    requires forall u :: u in s.stores ==> StoreInv(u, s.stores[u], s.table)
    requires FrameInv(s, Notify(from, to, texts)) && StoreStep(s, to, from, to, texts, s') && s'.table == s.table
    ensures forall u :: u in s'.stores ==> StoreInv(u, s'.stores[u], s'.table)
  {
    forall k | k in s'.stores[to] && k !in StoreOf(s, to)
      ensures k.sender == from && ServerHolds(s.table, k, s'.stores[to][k].receiver, s'.stores[to][k].content)
    {
      var t :| t in texts && k == Key(from, t.id);
    }
    assert to in s.stores ==> StoreInv(to, s.stores[to], s.table);
  }

  lemma ConfirmStep(s: System, reader: int, sender: int, ids: seq<string>, s': System)
    requires Inv(s) && Next(s, Confirm(reader, sender, ids), s')
    ensures Inv(s') && Grows(s, s')
  {
    assert FrameInv(s, Ack(reader, sender, ids));
    assert reader in s.stores ==> StoreInv(reader, s.stores[reader], s.table);
    ConfirmedTable(s, reader, sender, ids, s');
    StoresKept(s, s');
    NetKept(s, s', {});
    LogsKept(s, s');
  }

  lemma ConfirmedGrows(s: System, reader: int, sender: int, ids: seq<string>, s': System)
    requires s'.table == T.MarkAcked(s.table, reader, T.AckKeys(sender, ids)) && s'.stores == s.stores
    ensures Grows(s, s')
  {
  }

  lemma ConfirmedTable(s: System, reader: int, sender: int, ids: seq<string>, s': System)
    requires TableInv(s) && T.DistinctIds(s.table) && FrameInv(s, Ack(reader, sender, ids))
    requires StoreInv(reader, StoreOf(s, reader), s.table)
    requires s'.table == T.MarkAcked(s.table, reader, T.AckKeys(sender, ids)) && s'.stores == s.stores
    ensures Grows(s, s') && TableInv(s') && T.DistinctIds(s'.table)
  {
    hide Grows, TableInv, T.DistinctIds, T.MarkAcked, T.AckKeys;
    ConfirmedGrows(s, reader, sender, ids, s');
    ConfirmedRows(s, reader, sender, ids, s');
    MarkKeepsIds(s.table, reader, T.AckKeys(sender, ids));
  }

  lemma MarkKeepsIds(table: T.Table, reader: int, keys: set<Key>)
    requires T.DistinctIds(table)
    ensures T.DistinctIds(T.MarkAcked(table, reader, keys))
  {
  }

  /** A row that becomes acknowledged is one the reader holds. */
  lemma ConfirmedRows(s: System, reader: int, sender: int, ids: seq<string>, s': System)
    requires TableInv(s) && FrameInv(s, Ack(reader, sender, ids)) && StoreInv(reader, StoreOf(s, reader), s.table)
    requires s'.table == T.MarkAcked(s.table, reader, T.AckKeys(sender, ids)) && s'.stores == s.stores
    ensures TableInv(s')
  {
    forall k | k in s.table && s'.table[k].acked && !s.table[k].acked
      ensures s.table[k].receiver == reader && HoldsCopy(StoreOf(s, reader), k, reader, s.table[k].content)
    {
      assert k in T.AckKeys(sender, ids);
      assert k in StoreOf(s, reader);
    }
  }

  /** Every step keeps the invariant and only adds to the databases. */
  lemma InvStep(s: System, e: Event, s': System)
    requires Inv(s) && Next(s, e, s')
    ensures Inv(s') && Grows(s, s')
  {
    match e
    case Enqueue(uid, to, texts) => EnqueueStep(s, uid, to, texts, s');
    case Transmit(uid, to, texts, now) => TransmitStep(s, uid, to, texts, now, s');
    case Accept(from, to, texts, answered) => AcceptStep(s, from, to, texts, answered, s');
    case Learn(from, to, texts) => LearnStep(s, from, to, texts, s');
    case Deliver(session, turn) => DeliverStep(s, session, turn, s');
    case Receive(from, to, texts, acks) => ReceiveStep(s, from, to, texts, acks, s');
    case Confirm(reader, sender, ids) => ConfirmStep(s, reader, sender, ids, s');
    case Open(_, _) => SessionStep(s, s');
    case Close(_) => SessionStep(s, s');
    case ServerCrash => SessionStep(s, s');
    case Failure => SessionStep(s, s');
  }

  lemma SessionStep(s: System, s': System)
    requires Inv(s) && s' == s.(sessions := s'.sessions)
    ensures Inv(s') && Grows(s, s')
  {
    TableKept(s, s');
    NetKept(s, s', {});
    LogsKept(s, s');
  }

  type Run = seq<Transition<Event, System>>

  lemma RunKeepsInv(s: System, run: Run)
    requires Inv(s) && IsRun(Next, s, run)
    ensures Inv(Final(s, run)) && Grows(s, Final(s, run))
  {
    forall a, e, b | Inv(a) && Next(a, e, b) ensures Inv(b) && Grows(a, b) { InvStep(a, e, b); }
    forall a, b, c | Grows(a, b) && Grows(b, c) ensures Grows(a, c) { GrowsOnward(a, b, c); }
    RelationHolds(Next, Inv, Grows, s, run);
  }

  lemma GrowsOnward(a: System, b: System, c: System)
    requires Grows(a, b) && Grows(b, c)
    ensures Grows(a, c)
  {
    forall uid, k | k in StoreOf(a, uid)
      ensures HoldsCopy(StoreOf(c, uid), k, StoreOf(a, uid)[k].receiver, StoreOf(a, uid)[k].content)
      ensures StoreOf(a, uid)[k].state != S.Pending ==> StoreOf(c, uid)[k].state == StoreOf(a, uid)[k].state
    {
      assert HoldsCopy(StoreOf(b, uid), k, StoreOf(a, uid)[k].receiver, StoreOf(a, uid)[k].content);
    }
    forall k | k in a.table ensures ServerHolds(c.table, k, a.table[k].receiver, a.table[k].content) {
      assert ServerHolds(b.table, k, a.table[k].receiver, a.table[k].content);
    }
  }

  /** No accepted message is lost.  In every reachable state a message its sender sees as
      accepted is on the server with that receiver and content, and once the server sees it
      acknowledged the receiver's database holds the same message. */
  lemma NoAcceptedMessageLost(run: Run, uid: int, k: Key)
    requires IsRun(Next, INITIAL, run)
    ensures var s := Final(INITIAL, run);
            && (k in StoreOf(s, uid) && StoreOf(s, uid)[k].state == S.Accepted ==>
                  && k.sender == uid
                  && ServerHolds(s.table, k, StoreOf(s, uid)[k].receiver, StoreOf(s, uid)[k].content))
            && (k in s.table && s.table[k].acked ==>
                  && HoldsCopy(StoreOf(s, s.table[k].receiver), k, s.table[k].receiver, s.table[k].content)
                  && HoldsCopy(StoreOf(s, k.sender), k, s.table[k].receiver, s.table[k].content))
  {
    RunKeepsInv(INITIAL, run);
  }

  /** ... and it stays so: what a later state of the run holds never differs from an earlier one. */
  lemma AcceptedForEver(run: Run, later: Run, uid: int, k: Key)
    requires IsRun(Next, INITIAL, run) && IsRun(Next, Final(INITIAL, run), later)
    requires k in StoreOf(Final(INITIAL, run), uid) && StoreOf(Final(INITIAL, run), uid)[k].state == S.Accepted
    ensures var row := StoreOf(Final(INITIAL, run), uid)[k];
            var end := Final(Final(INITIAL, run), later);
            && ServerHolds(end.table, k, row.receiver, row.content)
            && HoldsCopy(StoreOf(end, uid), k, row.receiver, row.content) && StoreOf(end, uid)[k].state == S.Accepted
  {
    RunKeepsInv(INITIAL, run);
    RunKeepsInv(Final(INITIAL, run), later);
  }

  /** The frame carries a copy of the message. */
  predicate Carries(f: Frame, k: Key, to: int, content: string) {
    !f.Ack? && f.from == k.sender && f.to == to && Text(k.id, content) in f.texts
  }

  /** A copy of message `k`, wherever it is: in some account's database, on the server, or in a
      frame that was ever sent. */
  ghost predicate Copy(s: System, k: Key, to: int, content: string) {
    || (exists uid :: uid in s.stores && HoldsCopy(s.stores[uid], k, to, content))
    || ServerHolds(s.table, k, to, content)
    || (exists f :: f in s.net && Carries(f, k, to, content))
  }

  /** Every copy agrees with the sender's own row. */
  lemma CopyIsSenders(s: System, k: Key, to: int, content: string)
    requires Inv(s) && Copy(s, k, to, content)
    ensures HoldsCopy(StoreOf(s, k.sender), k, to, content)
  {
    if uid :| uid in s.stores && HoldsCopy(s.stores[uid], k, to, content) {
      assert StoreInv(uid, s.stores[uid], s.table);
    } else if f :| f in s.net && Carries(f, k, to, content) {
      assert FrameInv(s, f);
    }
  }

  /** Agreement: any two copies of one message, stored or in flight, have the same receiver and
      content. */
  lemma CopiesAgree(run: Run, k: Key, to: int, content: string, to': int, content': string)
    requires IsRun(Next, INITIAL, run)
    requires Copy(Final(INITIAL, run), k, to, content) && Copy(Final(INITIAL, run), k, to', content')
    ensures to == to' && content == content'
  {
    hide Inv, Copy;
    var s := Final(INITIAL, run);
    InitialInv();
    RunKeepsInv(INITIAL, run);
    CopyIsSenders(s, k, to, content);
    CopyIsSenders(s, k, to', content');
  }

  lemma InitialInv()
    ensures Inv(INITIAL)
  {
  }

  /** The receiver never meets a conflict: everything the server sends it can be saved. */
  lemma DeliveredIsStorable(run: Run, from: int, to: int, texts: seq<Text>)
    requires IsRun(Next, INITIAL, run) && Notify(from, to, texts) in Final(INITIAL, run).net
    ensures S.Storable(to, StoreOf(Final(INITIAL, run), to), from, to, texts)
  {
    RunKeepsInv(INITIAL, run);
    NotifyStorable(Final(INITIAL, run), from, to, texts);
  }

  lemma NotifyStorable(s: System, from: int, to: int, texts: seq<Text>)
    requires Inv(s) && Notify(from, to, texts) in s.net
    ensures S.Storable(to, StoreOf(s, to), from, to, texts)
  {
    assert FrameInv(s, Notify(from, to, texts));
    assert ServerHolds(s.table, Key(from, texts[0].id), to, texts[0].content);
    forall t | t in texts ensures t == texts[0] {}
    assert to in s.stores ==> StoreInv(to, s.stores[to], s.table);
  }

  /** Each message is reported as new at most once per account, over all restarts. */
  lemma ReportedAtMostOnce(run: Run, uid: int, i: nat, j: nat)
    requires IsRun(Next, INITIAL, run) && i < j < |ShownBy(Final(INITIAL, run), uid)|
    ensures ShownBy(Final(INITIAL, run), uid)[i] != ShownBy(Final(INITIAL, run), uid)[j]
  {
    RunKeepsInv(INITIAL, run);
    assert uid in Final(INITIAL, run).shown && ShownInv(Final(INITIAL, run), uid);
  }
}
