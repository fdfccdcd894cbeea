/** When a message that has been delivered once keeps its place on the page: which rows can still
    come before it, and what that means for its redelivery, over every run of the server. */
module Overtaking {
  import opened Messages
  import opened Runs
  import opened TextProtocol
  import opened RowIds
  import T = MessageServer
  import D = Delivery

  /** An open transaction holds row id `id` for a message to `uid`. */
  ghost predicate HeldFor(n: Server, uid: int, id: nat) {
    exists x :: x in n.open && n.open[x].to == uid && Held(n.open[x], id)
  }

  /** Rows stay where they are, and the only rows that can appear below the counter of `n` are those
      that were being inserted then. */
  ghost predicate Follows(n: Server, m: Server) {
    && n.next <= m.next
    && (forall k :: k in n.sys.table ==> k in m.sys.table && SameRow(n.sys.table[k], m.sys.table[k]))
    && (forall k :: k in m.sys.table && k !in n.sys.table && m.sys.table[k].rowId < n.next ==>
          HeldFor(n, m.sys.table[k].receiver, m.sys.table[k].rowId))
    && (forall uid, id: nat :: HeldFor(m, uid, id) && id < n.next ==> HeldFor(n, uid, id))
  }

  predicate SameRow(row: T.Stored, row': T.Stored) {
    row'.rowId == row.rowId && row'.receiver == row.receiver && (row.acked ==> row'.acked)
  }

  lemma StepFollows(n: Server, a: Act, m: Server)
    requires ServerInv(n) && Step(n, a, m)
    ensures Follows(n, m)
  {
    hide ServerInv, HeldFor;
    match a
    case Begin(x, _, _, _) => FewerHeld(n, m, {x});
    case Insert(x) => InsertHeld(n, x, m);
    case Commit(x, _) =>
      CommitRows(n, x, m);
      FewerHeld(n, m, {});
    case Rollback(x) => FewerHeld(n, m, {});
    case Other(e) =>
      OtherRows(n.sys, e, m.sys);
      FewerHeld(n, m, {});
  }

  /** No transaction but those in `begun`, which hold nothing, is new or changed. */
  lemma FewerHeld(n: Server, m: Server, begun: set<nat>)
    requires forall x :: x in m.open ==> (x in begun && m.open[x].ids == []) || (x in n.open && m.open[x] == n.open[x])
    ensures forall uid, id: nat :: HeldFor(m, uid, id) ==> HeldFor(n, uid, id)
  {
  }

  lemma InsertHeld(n: Server, x: nat, m: Server)
    requires Step(n, Insert(x), m)
    ensures forall uid, id: nat :: HeldFor(m, uid, id) && id < n.next ==> HeldFor(n, uid, id)
  {
    hide ReadsBack, Unlocked;
    forall uid, id: nat | HeldFor(m, uid, id) && id < n.next ensures HeldFor(n, uid, id) {
      var y :| y in m.open && m.open[y].to == uid && Held(m.open[y], id);
      assert Held(n.open[y], id);
    }
  }

  lemma CommitRows(n: Server, x: nat, m: Server)
    requires x in n.open && |n.open[x].ids| == |n.open[x].texts| && m.sys.table == Committed(n.sys.table, n.open[x])
    ensures forall k :: k in n.sys.table ==> k in m.sys.table && m.sys.table[k] == n.sys.table[k]
    ensures forall k :: k in m.sys.table && k !in n.sys.table ==> HeldFor(n, m.sys.table[k].receiver, m.sys.table[k].rowId)
  {
    hide Committed, Held;
    forall k | k in n.sys.table ensures k in m.sys.table && m.sys.table[k] == n.sys.table[k] {
      OldRows(n.sys.table, n.open[x], k);
    }
    forall k | k in m.sys.table && k !in n.sys.table ensures HeldFor(n, m.sys.table[k].receiver, m.sys.table[k].rowId) {
      NewIds(n.sys.table, n.open[x], k);
    }
  }

  lemma FollowsOn(a: Server, b: Server, c: Server)
    requires Follows(a, b) && Follows(b, c)
    ensures Follows(a, c)
  {
    hide HeldFor, SameRow;
    forall k | k in a.sys.table ensures k in c.sys.table && SameRow(a.sys.table[k], c.sys.table[k]) {
      SameRowOn(a.sys.table[k], b.sys.table[k], c.sys.table[k]);
    }
    forall k | k in c.sys.table && k !in a.sys.table && c.sys.table[k].rowId < a.next
      ensures HeldFor(a, c.sys.table[k].receiver, c.sys.table[k].rowId)
    {
      if k in b.sys.table {
        SameRowFacts(b.sys.table[k], c.sys.table[k]);
      }
    }
  }

  lemma SameRowFacts(a: T.Stored, b: T.Stored)
    requires SameRow(a, b)
    ensures a.rowId == b.rowId && a.receiver == b.receiver
  {
  }

  lemma SameRowOn(a: T.Stored, b: T.Stored, c: T.Stored)
    requires SameRow(a, b) && SameRow(b, c)
    ensures SameRow(a, c)
  {
  }

  lemma SelfFollows(n: Server)
    ensures Follows(n, n)
  {
  }

  /** A row that appears later and still comes before rows of today belongs to a transaction that
      had inserted it by today. */
  lemma {:induction false} OnlyOpenTransactionsOvertake(n: Server, run: Acts)
    requires ServerInv(n) && IsRun(Step, n, run)
    ensures ServerInv(Final(n, run)) && Follows(n, Final(n, run))
    decreases run
  {
    hide ServerInv, Step, Follows;
    if run == [] {
      SelfFollows(n);
    } else {
      StepRefines(n, run[0].event, run[0].after);
      StepFollows(n, run[0].event, run[0].after);
      OnlyOpenTransactionsOvertake(run[0].after, run[1..]);
      assert Final(run[0].after, run[1..]) == Final(n, run);
      FollowsOn(n, run[0].after, Final(n, run));
    }
  }

  /** The row ids below `id` of the messages owed to `uid` ... */
  ghost function Earlier(table: T.Table, uid: int, id: nat): set<nat> {
    set k | k in T.Undelivered(table, uid) && table[k].rowId < id :: table[k].rowId
  }

  /** ... and those that may still appear. */
  ghost function Ahead(n: Server, uid: int, id: nat): set<nat> {
    Earlier(n.sys.table, uid, id) + set i: nat | i < id && HeldFor(n, uid, i)
  }

  lemma {:induction false} RowIdsOfPage(table: T.Table, uid: int, page: seq<Key>, p: nat) returns (ids: set<nat>)
    requires T.IsPage(table, uid, D.CAPACITY, page) && p <= |page|
    ensures |ids| == p
    ensures forall j :: 0 <= j < p ==> page[j] in table && table[page[j]].rowId in ids
    ensures forall i :: i in ids ==> exists j :: 0 <= j < p && page[j] in table && table[page[j]].rowId == i
    decreases p
  {
    ids := {};
    if p > 0 {
      var rest := RowIdsOfPage(table, uid, page, p - 1);
      T.OnPage(table, uid, D.CAPACITY, page, p - 1);
      ids := rest + {table[page[p - 1]].rowId};
    }
  }

  /** A message is on the page exactly when fewer than 32 owed messages come before it. */
  lemma ListedExactly(table: T.Table, uid: int, page: seq<Key>, k: Key)
    requires T.IsPage(table, uid, D.CAPACITY, page) && k in T.Undelivered(table, uid)
    ensures k in page <==> |Earlier(table, uid, table[k].rowId)| < D.CAPACITY
  {
    hide T.IsPage;
    var earlier := Earlier(table, uid, table[k].rowId);
    if k in page {
      var p :| 0 <= p < |page| && page[p] == k;
      PageFits(table, uid, page);
      var ids := RowIdsOfPage(table, uid, page, p);
      forall i | i in earlier ensures i in ids {
        EarlierOnPage(table, uid, page, p, i);
      }
      D.SubsetSize(earlier, ids);
    } else {
      var ids := RowIdsOfPage(table, uid, page, |page|);
      FullOfEarlier(table, uid, page, k);
      D.SubsetSize(ids, earlier);
    }
  }

  lemma PageFits(table: T.Table, uid: int, page: seq<Key>)
    requires T.IsPage(table, uid, D.CAPACITY, page)
    ensures |page| <= D.CAPACITY
  {
  }

  lemma EarlierOnPage(table: T.Table, uid: int, page: seq<Key>, p: nat, i: nat)
    requires T.IsPage(table, uid, D.CAPACITY, page) && p < |page| && page[p] in T.Undelivered(table, uid)
    requires i in Earlier(table, uid, table[page[p]].rowId)
    ensures exists j :: 0 <= j < p && page[j] in table && table[page[j]].rowId == i
  {
    var l :| l in T.Undelivered(table, uid) && table[l].rowId < table[page[p]].rowId && table[l].rowId == i;
    assert l in page;
    var j :| 0 <= j < |page| && page[j] == l;
    assert j < p;
  }

  lemma FullOfEarlier(table: T.Table, uid: int, page: seq<Key>, k: Key)
    requires T.IsPage(table, uid, D.CAPACITY, page) && k in T.Undelivered(table, uid) && k !in page
    ensures |page| == D.CAPACITY
    ensures forall j :: 0 <= j < |page| ==> page[j] in table && table[page[j]].rowId in Earlier(table, uid, table[k].rowId)
  {
    forall j | 0 <= j < |page| ensures page[j] in table && table[page[j]].rowId in Earlier(table, uid, table[k].rowId) {
      T.OnPage(table, uid, D.CAPACITY, page, j);
      T.LeftOut(table, uid, D.CAPACITY, page, k, j);
    }
  }

  /** The message has been acknowledged, or fewer than 32 rows come or may still come before it. */
  ghost predicate Secure(n: Server, uid: int, k: Key) {
    && k in n.sys.table && n.sys.table[k].receiver == uid
    && (n.sys.table[k].acked || |Ahead(n, uid, n.sys.table[k].rowId)| < D.CAPACITY)
  }

  /** Nothing can be added to the rows ahead of a committed one. */
  lemma AheadShrinks(n: Server, m: Server, uid: int, k: Key)
    requires ServerInv(n) && Follows(n, m) && k in n.sys.table
    ensures Ahead(m, uid, n.sys.table[k].rowId) <= Ahead(n, uid, n.sys.table[k].rowId)
  {
    hide Inv, HeldFor, AllTxOk, LocksApart, T.DistinctIds, Held, NoRepeats;
    var id := n.sys.table[k].rowId;
    forall i | i in Earlier(m.sys.table, uid, id) ensures i in Ahead(n, uid, id) {
      var l :| l in T.Undelivered(m.sys.table, uid) && m.sys.table[l].rowId < id && m.sys.table[l].rowId == i;
      if l in n.sys.table {
        assert SameRow(n.sys.table[l], m.sys.table[l]);
        assert l in T.Undelivered(n.sys.table, uid);
      }
    }
  }

  lemma SecureStays(n: Server, m: Server, uid: int, k: Key)
    requires ServerInv(n) && Follows(n, m) && Secure(n, uid, k)
    ensures Secure(m, uid, k) && (n.sys.table[k].acked ==> m.sys.table[k].acked)
  {
    hide ServerInv, Ahead, HeldFor;
    AheadShrinks(n, m, uid, k);
    assert SameRow(n.sys.table[k], m.sys.table[k]);
    D.SubsetSize(Ahead(m, uid, n.sys.table[k].rowId), Ahead(n, uid, n.sys.table[k].rowId));
  }

  /** A secure message is on every page until it is acknowledged. */
  lemma SecureIsListed(n: Server, uid: int, k: Key, page: seq<Key>)
    requires Secure(n, uid, k) && T.IsPage(n.sys.table, uid, D.CAPACITY, page)
    ensures k in page <==> !n.sys.table[k].acked
  {
    hide T.IsPage, Earlier;
    if n.sys.table[k].acked {
      AckedNotListed(n.sys.table, uid, k, page);
    } else {
      var id := n.sys.table[k].rowId;
      ListedExactly(n.sys.table, uid, page, k);
      D.SubsetSize(Earlier(n.sys.table, uid, id), Ahead(n, uid, id));
    }
  }

  lemma AckedNotListed(table: T.Table, uid: int, k: Key, page: seq<Key>)
    requires k in table && table[k].acked && T.IsPage(table, uid, D.CAPACITY, page)
    ensures k !in page
  {
  }

  /** In particular a message that a page lists is secure if no transaction that is open at that
      moment holds a smaller row id for the same receiver. */
  lemma ListedIsSecure(n: Server, uid: int, k: Key, page: seq<Key>)
    requires T.IsPage(n.sys.table, uid, D.CAPACITY, page) && k in page
    requires forall id: nat :: k in n.sys.table && id < n.sys.table[k].rowId ==> !HeldFor(n, uid, id)
    ensures Secure(n, uid, k)
  {
    hide HeldFor, T.IsPage;
    var p :| 0 <= p < |page| && page[p] == k;
    T.OnPage(n.sys.table, uid, D.CAPACITY, page, p);
    ListedExactly(n.sys.table, uid, page, k);
    var id := n.sys.table[k].rowId;
    assert Ahead(n, uid, id) == Earlier(n.sys.table, uid, id);
  }

  predicate Passes(a: Act, session: int) {
    a.Other? && a.event.Deliver? && a.event.session == session
  }

  /** The delivery passes of one session. */
  function Turns(run: Acts, session: int): seq<D.Turn> {
    if run == [] then []
    else (if Passes(run[0].event, session) then [run[0].event.event.turn] else []) + Turns(run[1..], session)
  }

  /** The session is not closed and the server does not crash. */
  predicate StaysOpen(run: Acts, session: int) {
    forall i :: 0 <= i < |run| ==> run[i].event != Other(Close(session)) && run[i].event != Other(ServerCrash)
  }

  lemma StillOpen(run: Acts, session: int)
    requires run != [] && StaysOpen(run, session)
    ensures run[0].event != Other(Close(session)) && run[0].event != Other(ServerCrash) && StaysOpen(run[1..], session)
  {
    assert forall i :: 0 <= i < |run[1..]| ==> run[1..][i] == run[i + 1];
  }

  function WindowAfter(window: D.Window, turns: seq<D.Turn>): D.Window
    decreases turns
  {
    if turns == [] then window else WindowAfter(D.AfterTurn(window, turns[0]), turns[1..])
  }

  lemma SessionStep(n: Server, a: Act, m: Server, session: int)
    requires Step(n, a, m) && session in n.sys.sessions && a != Other(Close(session)) && a != Other(ServerCrash)
    ensures session in m.sys.sessions && m.sys.sessions[session].uid == n.sys.sessions[session].uid
    ensures m.sys.sessions[session].window ==
            if Passes(a, session) then D.AfterTurn(n.sys.sessions[session].window, a.event.turn) else n.sys.sessions[session].window
    ensures Passes(a, session) && a.event.turn.page.Some? ==>
              T.IsPage(n.sys.table, n.sys.sessions[session].uid, D.CAPACITY, a.event.turn.page.value)
  {
    hide D.AfterTurn, T.IsPage, Committed, ReadsBack, Unlocked;
  }

  /** The passes are what moves the session's window, so what they send is what the session sends. */
  lemma {:induction false} WindowFollowsTurns(n: Server, run: Acts, session: int)
    requires IsRun(Step, n, run) && session in n.sys.sessions && StaysOpen(run, session)
    ensures session in Final(n, run).sys.sessions
    ensures Final(n, run).sys.sessions[session].window == WindowAfter(n.sys.sessions[session].window, Turns(run, session))
    decreases run
  {
    hide Step, D.AfterTurn, StaysOpen;
    if run != [] {
      StillOpen(run, session);
      var a, m := run[0].event, run[0].after;
      SessionStep(n, a, m, session);
      WindowFollowsTurns(m, run[1..], session);
      assert Final(m, run[1..]) == Final(n, run);
      var rest := Turns(run[1..], session);
      if Passes(a, session) {
        assert ([a.event.turn] + rest)[1..] == rest;
      } else {
        assert [] + rest == rest;
      }
    }
  }

  lemma {:induction false} SecureTurns(n: Server, run: Acts, session: int, uid: int, k: Key)
    requires ServerInv(n) && IsRun(Step, n, run) && StaysOpen(run, session) && Secure(n, uid, k)
    requires session in n.sys.sessions && n.sys.sessions[session].uid == uid
    ensures D.WellFormed(Turns(run, session)) && D.Unbroken(Turns(run, session), k)
    ensures n.sys.table[k].acked ==> D.NeverListed(Turns(run, session), k)
    decreases run
  {
    hide ServerInv, Step, Ahead, StaysOpen, T.IsPage, D.Unbroken, D.WellFormed, D.NeverListed, Follows, D.AfterTurn;
    if run == [] {
      NoTurns(k);
    } else {
      var a, m := run[0].event, run[0].after;
      StillOpen(run, session);
      SessionStep(n, a, m, session);
      StepRefines(n, a, m);
      StepFollows(n, a, m);
      SecureStays(n, m, uid, k);
      SecureTurns(m, run[1..], session, uid, k);
      var rest := Turns(run[1..], session);
      if Passes(a, session) {
        SecureTurn(n, uid, k, a.event.turn);
        OneTurnMore(a.event.turn, rest, k, n.sys.table[k].acked);
      } else {
        assert [] + rest == rest;
      }
    }
  }

  lemma NoTurns(k: Key)
    ensures D.WellFormed([]) && D.Unbroken([], k) && D.NeverListed([], k)
  {
  }

  lemma SecureTurn(n: Server, uid: int, k: Key, turn: D.Turn)
    requires Secure(n, uid, k) && (turn.page.Some? ==> T.IsPage(n.sys.table, uid, D.CAPACITY, turn.page.value))
    ensures turn.page.Some? ==> D.Distinct(turn.page.value)
    ensures n.sys.table[k].acked ==> !D.Lists(turn, k)
    ensures !n.sys.table[k].acked ==> !D.Omits(turn, k)
  {
    if turn.page.Some? {
      SecureIsListed(n, uid, k, turn.page.value);
    }
  }

  lemma OneTurnMore(turn: D.Turn, rest: seq<D.Turn>, k: Key, acked: bool)
    requires D.WellFormed(rest) && D.Unbroken(rest, k) && (turn.page.Some? ==> D.Distinct(turn.page.value))
    requires if acked then !D.Lists(turn, k) && D.NeverListed(rest, k) else !D.Omits(turn, k)
    ensures D.WellFormed([turn] + rest) && D.Unbroken([turn] + rest, k)
    ensures acked ==> D.NeverListed([turn] + rest, k)
  {
    hide D.Distinct, D.Lists, D.Omits;
    var turns := [turn] + rest;
    assert forall i :: 1 <= i < |turns| ==> turns[i] == rest[i - 1];
    forall i, j | 0 <= i < j < |turns| && D.Omits(turns[i], k) ensures !D.Lists(turns[j], k) {
      if i > 0 {
        assert D.Omits(rest[i - 1], k);
      }
    }
  }

  /** Redelivery backs off whenever, at the moment the message is first listed, fewer than 32 rows
      come or may still come before it: from then on, over every run, its sends in the session are at
      least 5, 10, 20, 40, 40, ... seconds apart. */
  lemma SecureBacksOff(n: Server, run: Acts, session: int, k: Key, i: nat)
    requires ServerInv(n) && IsRun(Step, n, run) && StaysOpen(run, session) && session in n.sys.sessions
    requires Secure(n, n.sys.sessions[session].uid, k) && k !in n.sys.sessions[session].window
    requires i + 1 < |D.SendTimes(n.sys.sessions[session].window, Turns(run, session), k)|
    ensures var times := D.SendTimes(n.sys.sessions[session].window, Turns(run, session), k);
            times[i + 1] - times[i] >= D.Gap(Min(i, 4))
  {
    hide ServerInv, Step, StaysOpen, Secure, D.SendTimes, D.WellFormed, D.Unbroken, D.NeverListed;
    SecureTurns(n, run, session, n.sys.sessions[session].uid, k);
    D.RedeliveryBacksOff(n.sys.sessions[session].window, Turns(run, session), k, i);
  }
}
