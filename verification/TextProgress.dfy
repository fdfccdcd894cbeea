/** Delivery can make progress: from any reachable state with an open session there are loss-free
    rounds, and enough of them to empty the receiver's backlog. */
module TextProgress {
  import opened Messages
  import opened Runs
  import opened TextProtocol
  import opened Rounds
  import S = MessageStore
  import T = MessageServer
  import D = Delivery
  import A = AckBatching

  /** Everything that is owed to the session's user may be sent now. */
  ghost predicate Ready(s: System, session: int, now: int) {
    && session in s.sessions
    && forall k :: k in T.Undelivered(s.table, s.sessions[session].uid) ==> D.Due(s.sessions[session].window, k, now)
  }

  lemma InvAndReady(s: System, session: int, now: int)
    requires Inv(s) && Ready(s, session, now)
    ensures session in s.sessions && T.DistinctIds(s.table)
  {
  }

  /** What saving one delivered text leaves in the receiver's database and log. */
  function Received(s: System, k: Key, to: int, content: string): System {
    var rows := StoreOf(s, to);
    var t := Text(k.id, content);
    s.(stores := s.stores[to := if k in rows then rows else rows[k := S.Row(to, content, S.Received, 0, 0)]],
       shown := s.shown[to := ShownBy(s, to) + FreshKeys(k.sender, S.FreshTexts(rows.Keys, k.sender, [t]))],
       net := s.net + {Ack(to, k.sender, [k.id])})
  }

  lemma SavedOne(uid: int, rows: S.Rows, k: Key, to: int, content: string)
    requires k.sender != uid && (k in rows ==> HoldsCopy(rows, k, to, content))
    ensures S.Saved(uid, rows, k.sender, to, [Text(k.id, content)],
                    if k in rows then rows else rows[k := S.Row(to, content, S.Received, 0, 0)])
  {
    var t := Text(k.id, content);
    assert t in [t];
    assert KeysOf(k.sender, [t]) == {k};
  }

  lemma ReceiveOne(s: System, k: Key, to: int, content: string)
    requires Inv(s) && Notify(k.sender, to, [Text(k.id, content)]) in s.net
    ensures Next(s, Receive(k.sender, to, [Text(k.id, content)], {[k.id]}), Received(s, k, to, content))
  {
    var t := Text(k.id, content);
    NotifyStorable(s, k.sender, to, [t]);
    ReceivableOne(s, k, to, content);
  }

  lemma ReceivableOne(s: System, k: Key, to: int, content: string)
    requires Notify(k.sender, to, [Text(k.id, content)]) in s.net
    requires S.Storable(to, StoreOf(s, to), k.sender, to, [Text(k.id, content)])
    ensures Next(s, Receive(k.sender, to, [Text(k.id, content)], {[k.id]}), Received(s, k, to, content))
  {
    var t := Text(k.id, content);
    assert t in [t];
    SavedOne(to, StoreOf(s, to), k, to, content);
    var s' := Received(s, k, to, content);
    assert StoreOf(s', to) == s'.stores[to];
    assert Key(k.sender, t.id) in KeysOf(k.sender, [t]);
    assert (set ids | ids in {[k.id]} :: Ack(to, k.sender, ids)) == {Ack(to, k.sender, [k.id])};
  }

  lemma ConfirmOne(s: System, k: Key)
    requires k in s.table && Ack(s.table[k].receiver, k.sender, [k.id]) in s.net
    ensures Next(s, Confirm(s.table[k].receiver, k.sender, [k.id]), s.(table := s.table[k := s.table[k].(acked := true)]))
  {
    assert T.AckKeys(k.sender, [k.id]) == {k};
    assert T.MarkAcked(s.table, s.table[k].receiver, {k}) == s.table[k := s.table[k].(acked := true)];
  }

  lemma TwoSteps(s: System, e1: Event, mid: System, e2: Event, end: System)
    requires Next(s, e1, mid) && Next(mid, e2, end)
    ensures IsRun(Next, s, [Transition(e1, mid), Transition(e2, end)])
  {
    var run := [Transition(e1, mid), Transition(e2, end)];
    assert run[1..] == [Transition(e2, end)] && run[1..][1..] == [];
  }

  /** One message whose frame has arrived is saved, acknowledged, and off the backlog. */
  lemma SettleOne(s: System, k: Key) returns (run: Run)
    requires Inv(s) && k in s.table && NotifyOf(s.table, k) in s.net
    ensures IsRun(Next, s, run) && Inv(Final(s, run))
    ensures Final(s, run).table == s.table[k := s.table[k].(acked := true)]
    ensures Final(s, run).sessions == s.sessions && s.net <= Final(s, run).net
    ensures Settles(run, s.table[k].receiver, k, s.table[k].content)
    ensures forall i :: 0 <= i < |run| ==> !run[i].event.Accept?
  {
    hide Inv, Next, IsRun, Settles;
    var to, content := s.table[k].receiver, s.table[k].content;
    ReceiveOne(s, k, to, content);
    var mid := Received(s, k, to, content);
    ConfirmOne(mid, k);
    var end := mid.(table := s.table[k := s.table[k].(acked := true)]);
    var save, confirm := Receive(k.sender, to, [Text(k.id, content)], {[k.id]}), Confirm(to, k.sender, [k.id]);
    TwoSteps(s, save, mid, confirm, end);
    run := [Transition(save, mid), Transition(confirm, end)];
    RunKeepsInv(s, run);
    SettlesInTwo(k, to, content, mid, end);
  }

  lemma SettlesInTwo(k: Key, to: int, content: string, mid: System, end: System)
    ensures Settles([Transition(Receive(k.sender, to, [Text(k.id, content)], {[k.id]}), mid), Transition(Confirm(to, k.sender, [k.id]), end)],
                    to, k, content)
  {
    hide AckedInFull;
    var save, confirm := Receive(k.sender, to, [Text(k.id, content)], {[k.id]}), Confirm(to, k.sender, [k.id]);
    var run := [Transition(save, mid), Transition(confirm, end)];
    AcksOne(Text(k.id, content));
    assert run[1].event == confirm;
    assert ConfirmedAfter(run, 0, to, k.sender, [k.id]);
    assert SettledAt(run, 0, to, k, content);
  }

  lemma AcksOne(t: Text)
    ensures AckedInFull([t], {[t.id]})
  {
    var batches := [[t.id]];
    assert batches[..0] == [];
    assert A.Flatten(batches) == A.Flatten([]) + [t.id] == [t.id];
    assert IdsOf([t]) == [t.id];
    assert (set b | b in batches) == {[t.id]};
  }

  lemma {:induction false} SettleAll(s: System, uid: int, keys: seq<Key>) returns (run: Run)
    requires Inv(s) && (forall k :: k in keys ==> k in s.table && s.table[k].receiver == uid && NotifyOf(s.table, k) in s.net)
    ensures IsRun(Next, s, run) && Inv(Final(s, run)) && Final(s, run).sessions == s.sessions
    ensures T.Undelivered(Final(s, run).table, uid) == T.Undelivered(s.table, uid) - Elements(keys)
    ensures forall k :: k in keys ==> Settles(run, uid, k, s.table[k].content)
    ensures forall i :: 0 <= i < |run| ==> !run[i].event.Accept?
    decreases keys
  {
    hide Inv, Next, Settles;
    if keys == [] {
      run := [];
      assert Elements(keys) == {};
    } else {
      var first := SettleOne(s, keys[0]);
      var mid := Final(s, first);
      forall k | k in keys[1..] ensures k in mid.table && mid.table[k].receiver == uid && NotifyOf(mid.table, k) in mid.net {
        assert k in keys;
      }
      var rest := SettleAll(mid, uid, keys[1..]);
      run := first + rest;
      RunAppend(Next, s, first, rest);
      assert keys == [keys[0]] + keys[1..];
      assert Elements(keys) == {keys[0]} + Elements(keys[1..]);
      assert T.Undelivered(mid.table, uid) == T.Undelivered(s.table, uid) - {keys[0]};
      forall k | k in keys ensures Settles(run, uid, k, s.table[k].content) {
        if k == keys[0] {
          SettlesWithin([], first, rest, uid, k, s.table[k].content);
          assert [] + first + rest == run;
        } else {
          assert k in keys[1..] && mid.table[k].content == s.table[k].content;
          SettlesWithin(first, rest, [], uid, k, s.table[k].content);
          assert first + rest + [] == run;
        }
      }
    }
  }

  function Delivered(s: System, session: int, turn: D.Turn): System
    requires session in s.sessions
  {
    var window := s.sessions[session].window;
    s.(sessions := s.sessions[session := s.sessions[session].(window := D.AfterTurn(window, turn))],
       net := s.net + set k | k in D.SentInTurn(window, turn) && k in s.table :: NotifyOf(s.table, k))
  }

  /** The first step of a round puts a frame for every message of the page on the network. */
  lemma DeliverPage(s: System, session: int, now: int, page: seq<Key>) returns (turn: D.Turn)
    requires Inv(s) && Ready(s, session, now) && T.IsPage(s.table, s.sessions[session].uid, D.CAPACITY, page)
    ensures var mid := Delivered(s, session, turn);
            && Next(s, Deliver(session, turn), mid)
            && turn.page == Some(page) && DuePass(s, s.sessions[session].uid, Deliver(session, turn))
            && mid.table == s.table && mid.sessions[session].uid == s.sessions[session].uid
            && mid.sessions[session].window.Keys <= Elements(page)
            && forall k :: k in page ==> k in s.table && s.table[k].receiver == s.sessions[session].uid && NotifyOf(s.table, k) in mid.net
  {
    var window := s.sessions[session].window;
    turn := D.Turn(Some(page), now, |page|);
    PageDistinct(s.table, s.sessions[session].uid, page);
    WholePageSent(window, turn);
    D.WindowBounded(window, page, now, |page|);
    forall k | k in page ensures k in T.Undelivered(s.table, s.sessions[session].uid) {}
  }

  lemma StillReady(s: System, session: int, now: int, page: seq<Key>)
    requires session in s.sessions && s.sessions[session].window.Keys <= Elements(page)
    requires T.Undelivered(s.table, s.sessions[session].uid) !! Elements(page)
    ensures Ready(s, session, now)
  {
  }

  lemma PageRound(s: System, session: int, now: int, page: seq<Key>) returns (run: Run)
    requires Inv(s) && Ready(s, session, now) && T.IsPage(s.table, s.sessions[session].uid, D.CAPACITY, page)
    ensures IsRun(Next, s, run) && Inv(Final(s, run)) && LossFree(s, s.sessions[session].uid, run)
    ensures forall i :: 0 <= i < |run| ==> !run[i].event.Accept?
    ensures session in Final(s, run).sessions
    ensures Final(s, run).sessions[session].uid == s.sessions[session].uid
    ensures Final(s, run).sessions[session].window.Keys <= Elements(page)
    ensures T.Undelivered(Final(s, run).table, s.sessions[session].uid) ==
            T.Undelivered(s.table, s.sessions[session].uid) - Elements(page)
  {
    hide Inv, Next, T.IsPage, Ready, T.Undelivered, Elements, Settles, DuePass, D.SentInTurn, D.AfterTurn;
    InvAndReady(s, session, now);
    var turn := DeliverPage(s, session, now, page);
    var mid := Delivered(s, session, turn);
    InvStep(s, Deliver(session, turn), mid);
    var rest := SettleAll(mid, s.sessions[session].uid, page);
    run := [Transition(Deliver(session, turn), mid)] + rest;
    assert run[1..] == rest && Final(s, run) == Final(mid, rest);
    PassIsWholePage(s, session, turn);
    forall k | k in page ensures Settles(run, s.sessions[session].uid, k, s.table[k].content) {
      SettlesWithin([run[0]], rest, [], s.sessions[session].uid, k, s.table[k].content);
      assert [run[0]] + rest + [] == run;
    }
  }

  lemma PassIsWholePage(s: System, session: int, turn: D.Turn)
    requires session in s.sessions && DuePass(s, s.sessions[session].uid, Deliver(session, turn))
    requires T.IsPage(s.table, s.sessions[session].uid, D.CAPACITY, turn.page.value)
    ensures D.SentInTurn(s.sessions[session].window, turn) == turn.page.value
  {
    PageDistinct(s.table, s.sessions[session].uid, turn.page.value);
    WholePageSent(s.sessions[session].window, turn);
  }

  /** From every ready state there is a loss-free round; it removes min(32, n) of the n messages
      owed and leaves the session ready for the next. */
  lemma Round(s: System, session: int, now: int) returns (run: Run)
    requires Inv(s) && Ready(s, session, now)
    ensures IsRun(Next, s, run) && Inv(Final(s, run)) && LossFree(s, s.sessions[session].uid, run)
    ensures forall i :: 0 <= i < |run| ==> !run[i].event.Accept?
    ensures Ready(Final(s, run), session, now)
    ensures var uid := s.sessions[session].uid;
            var owed := T.Undelivered(s.table, uid);
            && Final(s, run).sessions[session].uid == uid
            && |T.Undelivered(Final(s, run).table, uid)| == |owed| - Min(D.CAPACITY, |owed|)
  {
    hide Inv, Next, T.IsPage, T.DistinctIds, T.Undelivered, Elements, LossFree, IsRun, Ready;
    InvAndReady(s, session, now);
    var uid := s.sessions[session].uid;
    var page := T.PageExists(s.table, uid, D.CAPACITY);
    T.PageSize(s.table, uid, D.CAPACITY, page);
    PageIsSet(s.table, uid, page);
    run := PageRound(s, session, now, page);
    var owed := T.Undelivered(s.table, uid);
    Remaining(owed, Elements(page));
    StillReady(Final(s, run), session, now, page);
  }

  lemma Remaining(owed: set<Key>, taken: set<Key>)
    requires taken <= owed
    ensures |owed - taken| == |owed| - |taken| && (owed - taken) !! taken
  {
    assert owed == (owed - taken) + taken;
  }

  /** So there are ceil(n / 32) loss-free rounds that empty the backlog. */
  lemma {:induction false} BacklogDrains(s: System, session: int, now: int) returns (rounds: seq<Run>)
    requires Inv(s) && Ready(s, session, now)
    ensures QuietRounds(s, s.sessions[session].uid, rounds)
    ensures |rounds| == (|T.Undelivered(s.table, s.sessions[session].uid)| + D.CAPACITY - 1) / D.CAPACITY
    ensures T.Undelivered(After(s, rounds).table, s.sessions[session].uid) == {}
    decreases |T.Undelivered(s.table, s.sessions[session].uid)|
  {
    hide Inv, Next, IsRun, LossFree, T.Undelivered;
    var uid := s.sessions[session].uid;
    if T.Undelivered(s.table, uid) == {} {
      rounds := [];
    } else {
      var first := Round(s, session, now);
      var rest := BacklogDrains(Final(s, first), session, now);
      rounds := [first] + rest;
      assert rounds[1..] == rest;
    }
    RoundsDrain(s, uid, rounds);
  }

  /** A session that has just been opened is ready at any time. */
  lemma NewSessionReady(s: System, session: int, uid: int, s': System, now: int)
    requires Next(s, Open(session, uid), s')
    ensures Ready(s', session, now)
  {
  }
}
