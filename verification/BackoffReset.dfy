/** A run in which the redelivery backoff of a message that is pending all the time starts over.

    Thirty-one older messages are owed.  Two requests of different senders are handled at the same
    time: the first gets row id 32, the second row id 33, and the second commits first.  Its message
    is delivered as the last of the page; then row 32 appears, the next page omits row 33, one of the
    older messages is acknowledged, and row 33 is sent again. */
module BackoffReset {
  import opened Messages
  import opened Runs
  import opened TextProtocol
  import opened RowIds
  import opened Rounds
  import opened TextProgress
  import S = MessageStore
  import T = MessageServer
  import D = Delivery

  const SENDER := 1
  const RECEIVER := 2
  const OTHER_SENDER := 3
  const SESSION := 7

  /** The row ids of the run. */
  const OLDER := 31
  const OTHER := 32
  const LATE := 33

  const CONTENT := "x"

  /** The message that gets row id `r`, whose own id is of that length. */
  function Name(r: nat): (id: string)
    ensures |id| == r
  {
    seq(r, _ => 'a')
  }

  function SenderOf(r: nat): int {
    if r == OTHER then OTHER_SENDER else SENDER
  }

  function KeyOf(r: nat): Key {
    Key(SenderOf(r), Name(r))
  }

  /** A client's request frame carries one text. */
  function TextOf(r: nat): seq<Text> {
    [Text(Name(r), CONTENT)]
  }

  lemma OneKey(r: nat)
    ensures KeysOf(SenderOf(r), TextOf(r)) == {KeyOf(r)}
  {
    assert TextOf(r)[0] in TextOf(r);
  }

  lemma OneTextIsValid(r: nat)
    requires 1 <= r <= LATE
    ensures T.ValidBatch(TextOf(r)) && SelfConsistent(TextOf(r)) && AllWellSized(TextOf(r)) && T.ValidParties(SenderOf(r), RECEIVER)
  {
    var texts := TextOf(r);
    assert texts[..0] == [];
    assert T.BatchBytes(texts) == T.BatchBytes([]) + r + 1;
  }

  const NEW_ROW := S.Row(RECEIVER, CONTENT, S.Pending, 0, 0)

  /** The user has not sent the messages from `r` on. */
  ghost predicate Unsent(s: System, r: nat) {
    forall q: nat :: r <= q ==> KeyOf(q) !in StoreOf(s, SenderOf(q))
  }

  lemma EnqueueOne(s: System, r: nat) returns (s': System)
    requires 1 <= r <= LATE && KeyOf(r) !in StoreOf(s, SenderOf(r))
    ensures Next(s, Enqueue(SenderOf(r), RECEIVER, TextOf(r)), s')
    ensures s'.table == s.table && s'.sessions == s.sessions
    ensures s'.stores == s.stores[SenderOf(r) := StoreOf(s, SenderOf(r))[KeyOf(r) := NEW_ROW]]
  {
    OneTextIsValid(r);
    OneKey(r);
    var uid, texts := SenderOf(r), TextOf(r);
    var rows := StoreOf(s, uid);
    var unseen := FreshKeys(uid, S.FreshTexts(rows.Keys, uid, texts));
    s' := s.(stores := s.stores[uid := rows[KeyOf(r) := NEW_ROW]], shown := s.shown[uid := ShownBy(s, uid) + unseen]);
    assert StoreOf(s', uid) == rows[KeyOf(r) := NEW_ROW];
  }

  lemma TransmitOne(s: System, r: nat) returns (s': System)
    requires SenderOf(r) in s.stores && KeyOf(r) in s.stores[SenderOf(r)] && s.stores[SenderOf(r)][KeyOf(r)] == NEW_ROW
    ensures Next(s, Transmit(SenderOf(r), RECEIVER, TextOf(r), 0), s')
    ensures s'.table == s.table && s'.sessions == s.sessions && Request(SenderOf(r), RECEIVER, TextOf(r)) in s'.net
    ensures forall uid :: StoreOf(s', uid).Keys == StoreOf(s, uid).Keys
  {
    var uid, texts := SenderOf(r), TextOf(r);
    s' := s.(stores := s.stores[uid := Retransmitted(s.stores[uid], uid, texts, 0)], net := s.net + {Request(uid, RECEIVER, texts)});
  }

  lemma UnsentAfter(s: System, r: nat, a: System, b: System)
    requires Unsent(s, r) && a.stores == s.stores[SenderOf(r) := StoreOf(s, SenderOf(r))[KeyOf(r) := NEW_ROW]]
    requires forall uid :: StoreOf(b, uid).Keys == StoreOf(a, uid).Keys
    ensures Unsent(b, r + 1)
  {
    forall q: nat | r + 1 <= q ensures KeyOf(q) !in StoreOf(b, SenderOf(q)) {
      assert |Name(q)| != |Name(r)|;
      assert KeyOf(q) !in StoreOf(a, SenderOf(q)).Keys;
    }
  }

  lemma ThenStep(n: Server, run: Acts, a: Act, m: Server) returns (longer: Acts)
    requires IsRun(Step, n, run) && Step(Final(n, run), a, m)
    ensures longer == run + [Transition(a, m)] && IsRun(Step, n, longer) && Final(n, longer) == m
  {
    hide Step;
    var last := [Transition(a, m)];
    assert last[1..] == [];
    RunAppend(Step, n, run, last);
    longer := run + last;
  }

  function TxOf(r: nat): Tx {
    Tx(SenderOf(r), RECEIVER, TextOf(r), [r])
  }

  /** Where the server stands between two requests: its counter, its table and its sessions. */
  ghost predicate Before(n: Server, r: nat) {
    && n.next == r && Unsent(n.sys, r) && KeyOf(r) !in n.sys.table && r !in n.open
    && forall y :: y in n.open ==> KeyOf(r) !in KeysOf(n.open[y].from, n.open[y].texts)
  }

  /** A message is sent, its request reaches the server and its row is inserted. */
  lemma SubmitOne(n: Server, r: nat) returns (run: Acts)
    requires 1 <= r <= LATE && Before(n, r)
    ensures IsRun(Step, n, run)
    ensures var m := Final(n, run);
            && m.next == r + 1 && m.open == n.open[r := TxOf(r)] && m.sys.table == n.sys.table
            && m.sys.sessions == n.sys.sessions && Unsent(m.sys, r + 1)
  {
    hide Next, Step, IsRun, Unsent;
    var uid, texts := SenderOf(r), TextOf(r);
    NotYetSent(n.sys, r);
    var a := EnqueueOne(n.sys, r);
    var b := TransmitOne(a, r);
    UnsentAfter(n.sys, r, a, b);
    run := [];
    assert Final(n, run) == n;
    EmptyRun(n);
    Others(n, Enqueue(uid, RECEIVER, texts), a);
    run := ThenStep(n, run, Other(Enqueue(uid, RECEIVER, texts)), n.(sys := a));
    Others(n.(sys := a), Transmit(uid, RECEIVER, texts, 0), b);
    run := ThenStep(n, run, Other(Transmit(uid, RECEIVER, texts, 0)), n.(sys := b));
    var c, d := BeginAndInsert(n.(sys := b), r);
    run := ThenStep(n, run, Begin(r, uid, RECEIVER, texts), c);
    run := ThenStep(n, run, Insert(r), d);
  }

  lemma NotYetSent(s: System, r: nat)
    requires Unsent(s, r)
    ensures KeyOf(r) !in StoreOf(s, SenderOf(r))
  {
  }

  lemma EmptyRun(n: Server)
    ensures IsRun(Step, n, [])
  {
  }

  lemma Others(n: Server, e: Event, s: System)
    requires Next(n.sys, e, s) && !e.Accept? && !e.ServerCrash?
    ensures Step(n, Other(e), n.(sys := s))
  {
  }

  lemma BeginAndInsert(n: Server, r: nat) returns (c: Server, d: Server)
    requires 1 <= r <= LATE && n.next == r && r !in n.open && KeyOf(r) !in n.sys.table
    requires forall y :: y in n.open ==> KeyOf(r) !in KeysOf(n.open[y].from, n.open[y].texts)
    requires Request(SenderOf(r), RECEIVER, TextOf(r)) in n.sys.net
    ensures Step(n, Begin(r, SenderOf(r), RECEIVER, TextOf(r)), c) && Step(c, Insert(r), d)
    ensures d == n.(next := r + 1, open := n.open[r := TxOf(r)])
  {
    hide T.ValidBatch;
    OneTextIsValid(r);
    var t := Tx(SenderOf(r), RECEIVER, TextOf(r), []);
    c := n.(open := n.open[r := t]);
    NobodyLocks(c.open, r);
    assert t.ids + [r] == [r];
    d := n.(next := r + 1, open := n.open[r := TxOf(r)]);
    assert d.open == c.open[r := t.(ids := t.ids + [c.next])];
  }

  lemma NobodyLocks(open: map<nat, Tx>, r: nat)
    requires forall y :: y in open && y != r ==> KeyOf(r) !in KeysOf(open[y].from, open[y].texts)
    ensures Unlocked(open, r, KeyOf(r))
  {
    forall y | y in open && y != r && |open[y].ids| <= |open[y].texts| ensures KeyOf(r) !in Locked(open[y]) {
      assert forall u :: u in Done(open[y]) ==> u in open[y].texts;
    }
  }

  lemma CommitOne(n: Server, r: nat) returns (m: Server)
    requires r in n.open && n.open[r] == TxOf(r) && KeyOf(r) !in n.sys.table
    ensures Step(n, Commit(r, false), m)
    ensures m == n.(sys := n.sys.(table := n.sys.table[KeyOf(r) := T.Stored(r, RECEIVER, CONTENT, false)]), open := n.open - {r})
  {
    OneKey(r);
    var after := Committed(n.sys.table, TxOf(r));
    assert FirstAt(SenderOf(r), TextOf(r), KeyOf(r)) == 0;
    assert after == n.sys.table[KeyOf(r) := T.Stored(r, RECEIVER, CONTENT, false)];
    m := n.(sys := n.sys.(table := after), open := n.open - {r});
    assert n.sys.net + {} == n.sys.net;
  }

  /** The rows committed so far: the first `m`, and perhaps the last two. */
  predicate Here(m: nat, other: bool, late: bool, r: nat) {
    1 <= r <= m || (other && r == OTHER) || (late && r == LATE)
  }

  /** The table holds exactly those rows; `first` tells whether the first is acknowledged. */
  ghost predicate Rows(table: T.Table, m: nat, other: bool, late: bool, first: bool) {
    && (forall k :: k in table <==> Here(m, other, late, |k.id|) && k == KeyOf(|k.id|))
    && (forall k :: k in table ==> table[k] == T.Stored(|k.id|, RECEIVER, CONTENT, first && |k.id| == 1))
  }

  lemma RowAdded(table: T.Table, m: nat, other: bool, late: bool, r: nat, m': nat, other': bool, late': bool)
    requires Rows(table, m, other, late, false) && !Here(m, other, late, r)
    requires forall q: nat :: Here(m', other', late', q) <==> Here(m, other, late, q) || q == r
    ensures KeyOf(r) !in table && Rows(table[KeyOf(r) := T.Stored(r, RECEIVER, CONTENT, false)], m', other', late', false)
  {
    hide Here;
  }

  /** The first `m` messages are on the server. */
  lemma {:induction false} SendOlder(m: nat) returns (run: Acts)
    requires m <= OLDER
    ensures IsRun(Step, START, run)
    ensures var n := Final(START, run);
            && n.next == m + 1 && n.open == map[] && n.sys.sessions == map[]
            && Rows(n.sys.table, m, false, false, false) && Unsent(n.sys, m + 1)
  {
    hide Step, IsRun, Unsent, Rows;
    if m == 0 {
      run := [];
      EmptyRun(START);
      NothingSent();
    } else {
      run := SendOlder(m - 1);
      var n := Final(START, run);
      RowAdded(n.sys.table, m - 1, false, false, m, m, false, false);
      var more := SubmitOne(n, m);
      RunAppend(Step, START, run, more);
      run := run + more;
      var c := CommitOne(Final(n, more), m);
      UnsentStill(Final(n, more).sys, c.sys, m + 1);
      run := ThenStep(START, run, Commit(m, false), c);
      assert map[m := TxOf(m)] - {m} == map[];
    }
  }

  lemma UnsentStill(s: System, s': System, r: nat)
    requires Unsent(s, r) && s'.stores == s.stores
    ensures Unsent(s', r)
  {
  }

  lemma NothingSent()
    ensures Unsent(INITIAL, 1) && Rows(INITIAL.table, 0, false, false, false)
  {
  }

  /** Before the first pass: the older messages and the late one are committed, the other one is
      inserted, and the receiver is online. */
  lemma Prologue() returns (run: Acts, n: Server)
    ensures IsRun(Step, START, run) && Final(START, run) == n
    ensures Rows(n.sys.table, OLDER, false, true, false) && n.open == map[OTHER := TxOf(OTHER)]
    ensures n.sys.sessions == map[SESSION := Session(RECEIVER, map[])]
  {
    hide Step, Next, IsRun, Unsent, Rows;
    run := SendOlder(OLDER);
    var n0 := Final(START, run);
    NotAmong(n0.sys.table, OTHER);
    var submit := SubmitOne(n0, OTHER);
    RunAppend(Step, START, run, submit);
    run := run + submit;
    var n1 := Final(n0, submit);
    NotAmong(n1.sys.table, LATE);
    OneKey(OTHER);
    assert KeyOf(LATE) != KeyOf(OTHER);
    var late := SubmitOne(n1, LATE);
    RunAppend(Step, START, run, late);
    run := run + late;
    var n2 := Final(n1, late);
    RowAdded(n2.sys.table, OLDER, false, false, LATE, OLDER, false, true);
    var n3 := CommitOne(n2, LATE);
    run := ThenStep(START, run, Commit(LATE, false), n3);
    assert n3.open == map[OTHER := TxOf(OTHER)];
    var s := n3.sys.(sessions := map[SESSION := Session(RECEIVER, map[])]);
    Opens(n3.sys, s);
    Others(n3, Open(SESSION, RECEIVER), s);
    n := n3.(sys := s);
    run := ThenStep(START, run, Other(Open(SESSION, RECEIVER)), n);
  }

  lemma NotAmong(table: T.Table, r: nat)
    requires Rows(table, OLDER, false, false, false) && r > OLDER
    ensures KeyOf(r) !in table
  {
  }

  lemma Opens(s: System, s': System)
    requires s.sessions == map[] && s' == s.(sessions := map[SESSION := Session(RECEIVER, map[])])
    ensures Next(s, Open(SESSION, RECEIVER), s')
  {
  }

  /** The three pages of the run. */
  function FirstPage(): (page: seq<Key>)
    ensures |page| == 32 && page[31] == KeyOf(LATE) && forall i :: 0 <= i < 31 ==> page[i] == KeyOf(i + 1)
  {
    seq(31, (i: nat) => KeyOf(i + 1)) + [KeyOf(LATE)]
  }

  function PageFrom(first: nat): (page: seq<Key>)
    ensures |page| == 32 && forall i :: 0 <= i < 32 ==> page[i] == KeyOf(i + first)
  {
    seq(32, (i: nat) => KeyOf(i + first))
  }

  lemma IsFirstPage(table: T.Table)
    requires Rows(table, OLDER, false, true, false)
    ensures T.IsPage(table, RECEIVER, D.CAPACITY, FirstPage()) && D.Distinct(FirstPage())
    ensures KeyOf(LATE) in FirstPage() && KeyOf(1) in FirstPage()
  {
    hide FirstPage;
    var page := FirstPage();
    assert page[0] == KeyOf(1) && page[31] == KeyOf(LATE);
    forall i | 0 <= i < 32 ensures page[i] in table && table[page[i]].rowId == if i < 31 then i + 1 else LATE {}
    forall k | k in T.Undelivered(table, RECEIVER) ensures k in page {
      assert k == page[if |k.id| == LATE then 31 else |k.id| - 1];
    }
  }

  lemma IsFullPage(table: T.Table)
    requires Rows(table, OLDER, true, true, false)
    ensures T.IsPage(table, RECEIVER, D.CAPACITY, PageFrom(1)) && D.Distinct(PageFrom(1)) && KeyOf(LATE) !in PageFrom(1)
  {
    hide PageFrom;
    var page := PageFrom(1);
    forall i | 0 <= i < 32 ensures page[i] in table && table[page[i]].rowId == i + 1 && page[i] != KeyOf(LATE) {
      assert |page[i].id| == i + 1;
    }
    forall k | k in T.Undelivered(table, RECEIVER) && |k.id| <= 32 ensures k in page {
      assert k == page[|k.id| - 1];
    }
  }

  lemma IsLastPage(table: T.Table)
    requires Rows(table, OLDER, true, true, true)
    ensures T.IsPage(table, RECEIVER, D.CAPACITY, PageFrom(2)) && D.Distinct(PageFrom(2)) && KeyOf(LATE) in PageFrom(2)
  {
    hide PageFrom;
    var page := PageFrom(2);
    assert page[31] == KeyOf(LATE);
    forall i | 0 <= i < 32 ensures page[i] in table && table[page[i]].rowId == i + 2 {}
    forall k | k in T.Undelivered(table, RECEIVER) ensures k in page {
      assert k == page[|k.id| - 2];
    }
  }

  function WindowOf(s: System): D.Window {
    if SESSION in s.sessions then s.sessions[SESSION].window else map[]
  }

  ghost predicate Online(s: System) {
    SESSION in s.sessions && s.sessions[SESSION].uid == RECEIVER
  }

  /** One pass of the session, with room for a whole page. */
  function Pass(page: seq<Key>, now: int): D.Turn {
    D.Turn(Some(page), now, 32)
  }

  lemma PassStep(n: Server, page: seq<Key>, now: int) returns (m: Server)
    requires Online(n.sys) && T.IsPage(n.sys.table, RECEIVER, D.CAPACITY, page)
    ensures m == n.(sys := Delivered(n.sys, SESSION, Pass(page, now))) && Step(n, Other(Deliver(SESSION, Pass(page, now))), m)
    ensures Online(m.sys) && WindowOf(m.sys) == D.AfterTurn(WindowOf(n.sys), Pass(page, now)) && m.sys.table == n.sys.table
  {
    hide T.IsPage, D.AfterTurn, D.SentInTurn;
    m := n.(sys := Delivered(n.sys, SESSION, Pass(page, now)));
  }

  /** At time zero the whole first page is sent. */
  lemma FirstPass(n: Server) returns (m: Server)
    requires Online(n.sys) && WindowOf(n.sys) == map[] && Rows(n.sys.table, OLDER, false, true, false)
    ensures Step(n, Other(Deliver(SESSION, Pass(FirstPage(), 0))), m)
    ensures KeyOf(LATE) in D.SentInTurn(WindowOf(n.sys), Pass(FirstPage(), 0))
    ensures Online(m.sys) && m.sys.table == n.sys.table && m.open == n.open
    ensures KeyOf(1) in m.sys.table && NotifyOf(m.sys.table, KeyOf(1)) in m.sys.net
  {
    hide Step, T.IsPage, D.AfterTurn, D.SentInTurn, FirstPage, Rows, D.Distinct;
    IsFirstPage(n.sys.table);
    RowFacts(n.sys.table, OLDER, false, true, false, 1);
    m := PassStep(n, FirstPage(), 0);
    D.FreshIsSent(map[], Pass(FirstPage(), 0), KeyOf(LATE));
    D.FreshIsSent(map[], Pass(FirstPage(), 0), KeyOf(1));
  }

  lemma RowFacts(table: T.Table, m: nat, other: bool, late: bool, first: bool, r: nat)
    requires Rows(table, m, other, late, first) && Here(m, other, late, r)
    ensures KeyOf(r) in table && table[KeyOf(r)] == T.Stored(r, RECEIVER, CONTENT, first && r == 1)
  {
  }

  /** A second later the other row has appeared and the page omits the late one. */
  lemma FullPass(n: Server) returns (m: Server)
    requires Online(n.sys) && Rows(n.sys.table, OLDER, true, true, false)
    ensures Step(n, Other(Deliver(SESSION, Pass(PageFrom(1), D.SECOND))), m)
    ensures Online(m.sys) && KeyOf(LATE) !in WindowOf(m.sys)
    ensures m.sys.table == n.sys.table && m.open == n.open && n.sys.net <= m.sys.net
  {
    hide Step, T.IsPage, D.AfterTurn, D.SentInTurn, PageFrom, Rows, D.Distinct;
    IsFullPage(n.sys.table);
    m := PassStep(n, PageFrom(1), D.SECOND);
    D.OmittedTurn(WindowOf(n.sys), Pass(PageFrom(1), D.SECOND), KeyOf(LATE));
  }

  /** One of the older messages is acknowledged, and two seconds after its first send the late
      message is back on the page and sent again. */
  lemma LastPass(n: Server) returns (m: Server)
    requires Online(n.sys) && KeyOf(LATE) !in WindowOf(n.sys) && Rows(n.sys.table, OLDER, true, true, true)
    ensures Step(n, Other(Deliver(SESSION, Pass(PageFrom(2), 2 * D.SECOND))), m)
    ensures KeyOf(LATE) in D.SentInTurn(WindowOf(n.sys), Pass(PageFrom(2), 2 * D.SECOND))
    ensures m.sys.table == n.sys.table
  {
    hide Step, T.IsPage, D.AfterTurn, D.SentInTurn, PageFrom, Rows, D.Distinct;
    IsLastPage(n.sys.table);
    m := PassStep(n, PageFrom(2), 2 * D.SECOND);
    D.FreshIsSent(WindowOf(n.sys), Pass(PageFrom(2), 2 * D.SECOND), KeyOf(LATE));
  }

  /** A protocol run without acceptances, while no transaction is open. */
  function Lifted(next: nat, run: Run): Acts {
    seq(|run|, i requires 0 <= i < |run| => Transition(Other(run[i].event), Server(run[i].after, next, map[])))
  }

  lemma {:induction false} LiftRun(n: Server, run: Run)
    requires n.open == map[] && IsRun(Next, n.sys, run) && forall i :: 0 <= i < |run| ==> !run[i].event.Accept?
    ensures IsRun(Step, n, Lifted(n.next, run))
    ensures Final(n, Lifted(n.next, run)) == n.(sys := Final(n.sys, run))
    decreases run
  {
    hide Next;
    if run != [] {
      var m := Server(run[0].after, n.next, map[]);
      assert forall i :: 0 <= i < |run[1..]| ==> run[1..][i] == run[i + 1];
      LiftRun(m, run[1..]);
      assert Lifted(n.next, run)[1..] == Lifted(n.next, run[1..]);
      assert Final(m.sys, run[1..]) == Final(n.sys, run);
    }
  }

  /** The middle of the run, from the first pass to the last: the other row appears, a pass omits
      the late one, and the first message is received and acknowledged. */
  lemma Middle(n: Server) returns (run: Acts)
    requires ServerInv(n) && Online(n.sys) && Rows(n.sys.table, OLDER, false, true, false) && n.open == map[OTHER := TxOf(OTHER)]
    requires KeyOf(1) in n.sys.table && NotifyOf(n.sys.table, KeyOf(1)) in n.sys.net
    ensures IsRun(Step, n, run)
    ensures var m := Final(n, run);
            Online(m.sys) && KeyOf(LATE) !in WindowOf(m.sys) && Rows(m.sys.table, OLDER, true, true, true)
  {
    hide Step, Next, IsRun, ServerInv, Rows, PageFrom, D.AfterTurn;
    RowAdded(n.sys.table, OLDER, false, true, OTHER, OLDER, true, true);
    EmptyRun(n);
    var a := CommitOne(n, OTHER);
    run := ThenStep(n, [], Commit(OTHER, false), a);
    assert a.open == map[];
    RowFacts(a.sys.table, OLDER, true, true, false, 1);
    RowFacts(n.sys.table, OLDER, false, true, false, 1);
    var b := FullPass(a);
    run := ThenStep(n, run, Other(Deliver(SESSION, Pass(PageFrom(1), D.SECOND))), b);
    RunRefines(n, run);
    InvOf(b);
    var settle := SettleOne(b.sys, KeyOf(1));
    LiftRun(b, settle);
    RunAppend(Step, n, run, Lifted(b.next, settle));
    FirstAcked(b.sys.table);
    run := run + Lifted(b.next, settle);
  }

  lemma InvOf(n: Server)
    requires ServerInv(n)
    ensures Inv(n.sys)
  {
  }

  lemma FirstAcked(table: T.Table)
    requires Rows(table, OLDER, true, true, false) && KeyOf(1) in table
    ensures Rows(table[KeyOf(1) := table[KeyOf(1)].(acked := true)], OLDER, true, true, true)
  {
  }

  /** Step `i` of the run is a pass of the session that sends the late message at time `now`. */
  ghost predicate SendsLate(run: Acts, i: nat, now: int) {
    && i < |run| && run[i].event.Other? && run[i].event.event.Deliver?
    && run[i].event.event.session == SESSION && run[i].event.event.turn.now == now
    && KeyOf(LATE) in D.SentInTurn(WindowOf(StateAt(START, run, i).sys), run[i].event.event.turn)
  }

  /** From the first send to the second the message is on the server and not acknowledged. */
  ghost predicate PendingThroughout(run: Acts, i: nat, j: nat)
    requires i <= j <= |run|
  {
    forall m :: i <= m <= j ==> KeyOf(LATE) in T.Undelivered(StateAt(START, run, m).sys.table, RECEIVER)
  }

  /** What is owed at both ends of a stretch is owed all along. */
  lemma OwedThroughout(run: Acts, i: nat, j: nat)
    requires IsRun(Step, START, run) && i <= j <= |run|
    requires KeyOf(LATE) in T.Undelivered(StateAt(START, run, i).sys.table, RECEIVER)
    requires KeyOf(LATE) in T.Undelivered(StateAt(START, run, j).sys.table, RECEIVER)
    ensures PendingThroughout(run, i, j)
  {
    hide Step, Grows, T.Undelivered;
    forall m | i <= m <= j ensures KeyOf(LATE) in T.Undelivered(StateAt(START, run, m).sys.table, RECEIVER) {
      LaterGrows(run, i, m);
      LaterGrows(run, m, j);
      OwedBetween(StateAt(START, run, i).sys, StateAt(START, run, m).sys, StateAt(START, run, j).sys);
    }
  }

  lemma OwedBetween(a: System, b: System, c: System)
    requires Grows(a, b) && Grows(b, c)
    requires KeyOf(LATE) in T.Undelivered(a.table, RECEIVER) && KeyOf(LATE) in T.Undelivered(c.table, RECEIVER)
    ensures KeyOf(LATE) in T.Undelivered(b.table, RECEIVER)
  {
    var k := KeyOf(LATE);
    assert ServerHolds(b.table, k, a.table[k].receiver, a.table[k].content);
  }

  lemma LaterGrows(run: Acts, i: nat, j: nat)
    requires IsRun(Step, START, run) && i <= j <= |run|
    ensures Grows(StateAt(START, run, i).sys, StateAt(START, run, j).sys)
  {
    hide Step, Grows, ServerInv;
    StartInv();
    RunUpTo(Step, START, run, j);
    RunUpTo(Step, START, run[..j], i);
    assert run[..j][..i] == run[..i];
    RunRefines(START, run[..i]);
    RunRefines(StateAt(START, run, i), run[..j][i..]);
  }

  lemma Joined(a: Acts, b: Acts, c: Acts, d: Acts)
    requires |b| == 1 && |d| == 1
    ensures var run := a + b + c + d;
            && run[..|a|] == a && run[|a|] == b[0]
            && run[..|a| + 1 + |c|] == a + b + c && run[|a| + 1 + |c|] == d[0]
  {
  }

  /** The promise of growing gaps fails for a message that is pending all the time: it is sent
      twice within two seconds. */
  lemma BackoffStartsOver() returns (run: Acts, i: nat, j: nat)
    ensures IsRun(Step, START, run) && i < j < |run|
    ensures SendsLate(run, i, 0) && SendsLate(run, j, 2 * D.SECOND) && 2 * D.SECOND < D.Gap(0)
    ensures PendingThroughout(run, i, j)
  {
    hide Step, IsRun, ServerInv, Rows, T.Undelivered, D.SentInTurn, PageFrom, FirstPage, Grows;
    var a, n0 := Prologue();
    var n1 := FirstPass(n0);
    var first := Other(Deliver(SESSION, Pass(FirstPage(), 0)));
    var ab := ThenStep(START, a, first, n1);
    StartInv();
    RunRefines(START, ab);
    var c := Middle(n1);
    RunAppend(Step, START, ab, c);
    var n2 := Final(n1, c);
    var n3 := LastPass(n2);
    var again := Other(Deliver(SESSION, Pass(PageFrom(2), 2 * D.SECOND)));
    run := ThenStep(START, ab + c, again, n3);
    Joined(a, [Transition(first, n1)], c, [Transition(again, n3)]);
    i, j := |a|, |a| + 1 + |c|;
    assert StateAt(START, run, i) == n0 && StateAt(START, run, j) == n2;
    LateIsOwed(n0.sys.table, false, false);
    LateIsOwed(n2.sys.table, true, true);
    OwedThroughout(run, i, j);
  }

  lemma LateIsOwed(table: T.Table, other: bool, first: bool)
    requires Rows(table, OLDER, other, true, first)
    ensures KeyOf(LATE) in T.Undelivered(table, RECEIVER)
  {
  }
}
