/** Progress of delivery in every loss-free round, in whatever order its frames arrive and
    whatever else happens meanwhile. */
module Rounds {
  import opened Messages
  import opened Runs
  import opened TextProtocol
  import A = AckBatching
  import T = MessageServer
  import D = Delivery

  function IdsOf(texts: seq<Text>): seq<string> {
    seq(|texts|, i requires 0 <= i < |texts| => texts[i].id)
  }

  /** The acknowledgement frames that packing the ids of a batch yields. */
  ghost predicate AckedInFull(texts: seq<Text>, acks: set<seq<string>>) {
    exists batches :: A.Flatten(batches) == IdsOf(texts) && acks == set b | b in batches
  }

  lemma {:induction false} InSomeBatch(batches: seq<seq<string>>, id: string) returns (ids: seq<string>)
    requires id in A.Flatten(batches)
    ensures ids in batches && id in ids
  {
    var n := |batches| - 1;
    if id in batches[n] {
      return batches[n];
    }
    ids := InSomeBatch(batches[..n], id);
  }

  /** Every message of the batch is acknowledged in some frame. */
  lemma EveryTextAcked(texts: seq<Text>, acks: set<seq<string>>, t: Text) returns (ids: seq<string>)
    requires AckedInFull(texts, acks) && t in texts
    ensures ids in acks && t.id in ids
  {
    var batches :| A.Flatten(batches) == IdsOf(texts) && acks == set b | b in batches;
    var i :| 0 <= i < |texts| && texts[i] == t;
    assert IdsOf(texts)[i] == t.id;
    ids := InSomeBatch(batches, t.id);
  }

  ghost predicate ConfirmedAfter(run: Run, i: nat, uid: int, sender: int, ids: seq<string>) {
    exists j :: i < j < |run| && run[j].event == Confirm(uid, sender, ids)
  }

  /** Step `i` receives message `k` and acknowledges its whole frame, and the server commits each
      of those acknowledgements later in the run. */
  ghost predicate SettledAt(run: Run, i: nat, uid: int, k: Key, content: string)
    requires i < |run|
  {
    var e := run[i].event;
    && e.Receive? && e.from == k.sender && e.to == uid && Text(k.id, content) in e.texts && AckedInFull(e.texts, e.acks)
    && forall ids :: ids in e.acks ==> ConfirmedAfter(run, i, uid, k.sender, ids)
  }

  ghost predicate Settles(run: Run, uid: int, k: Key, content: string) {
    exists i :: 0 <= i < |run| && SettledAt(run, i, uid, k, content)
  }

  /** A successful pass of one of the user's sessions, with everything on its page due and room in
      the socket queue. */
  ghost predicate DuePass(s: System, uid: int, e: Event) {
    && e.Deliver? && e.session in s.sessions && s.sessions[e.session].uid == uid
    && e.turn.page.Some? && e.turn.room >= |e.turn.page.value|
    && forall k :: k in e.turn.page.value ==> D.Due(s.sessions[e.session].window, k, e.turn.now)
  }

  /** A loss-free round: it starts with such a pass, and every notification the pass sends is
      received, acknowledged in full and confirmed.  The steps come in any order, and any other
      steps may come between them. */
  ghost predicate LossFree(s: System, uid: int, run: Run) {
    && run != [] && DuePass(s, uid, run[0].event)
    && forall k :: k in D.SentInTurn(s.sessions[run[0].event.session].window, run[0].event.turn) && k in s.table ==>
         Settles(run, uid, k, s.table[k].content)
  }

  /** When everything is due and there is room, a pass sends its whole page. */
  lemma WholePageSent(window: D.Window, turn: D.Turn)
    requires turn.page.Some? && D.Distinct(turn.page.value) && turn.room >= |turn.page.value|
    requires forall k :: k in turn.page.value ==> D.Due(window, k, turn.now)
    ensures D.SentInTurn(window, turn) == turn.page.value
  {
    var page := turn.page.value;
    var start := D.Reconciled(window, page);
    D.PassSendsDueKeys(start, page, turn.now, turn.room);
    AllDue(start, page, turn.now);
  }

  lemma {:induction false} AllDue(window: D.Window, page: seq<Key>, now: int)
    requires forall k :: k in page ==> D.Due(window, k, now)
    ensures D.DueKeys(window, page, now) == page
  {
    if page != [] {
      AllDue(window, page[1..], now);
      assert page == [page[0]] + page[1..];
    }
  }

  lemma PageDistinct(table: T.Table, uid: int, page: seq<Key>)
    requires T.IsPage(table, uid, D.CAPACITY, page)
    ensures D.Distinct(page) && forall k :: k in page ==> k in table && table[k].receiver == uid
  {
    forall k | k in page ensures k in table && table[k].receiver == uid {
      var i :| 0 <= i < |page| && page[i] == k;
    }
  }

  /** A confirmed acknowledgement stays. */
  lemma ConfirmMarks(s: System, run: Run, j: nat, uid: int, k: Key, ids: seq<string>)
    requires Inv(s) && IsRun(Next, s, run) && j < |run| && run[j].event == Confirm(uid, k.sender, ids) && k.id in ids
    requires k in s.table && s.table[k].receiver == uid
    ensures k in Final(s, run).table && Final(s, run).table[k].acked
  {
    hide Inv, IsRun, Next;
    RunAt(Next, s, run, j);
    var before, after := StateAt(s, run, j), run[j].after;
    RunKeepsInv(s, run[..j]);
    ConfirmStepMarks(s, before, uid, k, ids, after);
    InvStep(before, run[j].event, after);
    RunKeepsInv(after, run[j + 1..]);
    AckedStays(after, Final(s, run), k);
  }

  lemma ConfirmStepMarks(s: System, before: System, uid: int, k: Key, ids: seq<string>, after: System)
    requires Grows(s, before) && k in s.table && s.table[k].receiver == uid && k.id in ids
    requires Next(before, Confirm(uid, k.sender, ids), after)
    ensures k in after.table && after.table[k].acked
  {
    assert k in T.AckKeys(k.sender, ids);
  }

  lemma AckedStays(s: System, t: System, k: Key)
    requires Grows(s, t) && k in s.table && s.table[k].acked
    ensures k in t.table && t.table[k].acked
  {
  }

  /** A settled message is off the backlog. */
  lemma SettledIsAcked(s: System, run: Run, uid: int, k: Key, content: string)
    requires Inv(s) && IsRun(Next, s, run) && Settles(run, uid, k, content) && k in s.table && s.table[k].receiver == uid
    ensures k in Final(s, run).table && Final(s, run).table[k].acked
  {
    hide Inv, IsRun, Next, AckedInFull;
    var i :| 0 <= i < |run| && SettledAt(run, i, uid, k, content);
    var e := run[i].event;
    var ids := EveryTextAcked(e.texts, e.acks, Text(k.id, content));
    assert ConfirmedAfter(run, i, uid, k.sender, ids);
    var j :| i < j < |run| && run[j].event == Confirm(uid, k.sender, ids);
    ConfirmMarks(s, run, j, uid, k, ids);
  }

  /** Every loss-free round takes its whole page off the backlog. */
  lemma RoundClearsPage(s: System, uid: int, run: Run) returns (page: seq<Key>)
    requires Inv(s) && IsRun(Next, s, run) && LossFree(s, uid, run)
    ensures T.IsPage(s.table, uid, D.CAPACITY, page)
    ensures forall k :: k in page ==> k !in T.Undelivered(Final(s, run).table, uid)
  {
    hide Inv, T.IsPage, Settles, D.SentInTurn, D.AfterTurn;
    var e := run[0].event;
    page := e.turn.page.value;
    assert Next(s, e, run[0].after);
    PageDistinct(s.table, uid, page);
    WholePageSent(s.sessions[e.session].window, e.turn);
    forall k | k in page ensures k !in T.Undelivered(Final(s, run).table, uid) {
      SettledIsAcked(s, run, uid, k, s.table[k].content);
    }
  }

  /** Of the n messages owed when it starts, a loss-free round leaves at most n - min(32, n), even
      while new ones are accepted. */
  lemma EveryRoundRemoves(s: System, uid: int, run: Run)
    requires Inv(s) && IsRun(Next, s, run) && LossFree(s, uid, run)
    ensures var owed := T.Undelivered(s.table, uid);
            |owed * T.Undelivered(Final(s, run).table, uid)| <= |owed| - Min(D.CAPACITY, |owed|)
  {
    hide Inv, IsRun, LossFree, T.IsPage, T.Undelivered;
    var page := RoundClearsPage(s, uid, run);
    var owed, still := T.Undelivered(s.table, uid), T.Undelivered(Final(s, run).table, uid);
    T.PageSize(s.table, uid, D.CAPACITY, page);
    PageIsSet(s.table, uid, page);
    assert owed * still <= owed - Elements(page);
    D.SubsetSize(owed * still, owed - Elements(page));
    assert owed == (owed - Elements(page)) + Elements(page);
  }

  lemma PageIsSet(table: T.Table, uid: int, page: seq<Key>)
    requires T.IsPage(table, uid, D.CAPACITY, page)
    ensures |Elements(page)| == |page|
  {
    DistinctElements(page);
  }

  /** The server accepts nothing new for the user. */
  predicate Quiet(uid: int, e: Event) {
    e.Accept? ==> e.to != uid
  }

  lemma QuietStep(s: System, e: Event, t: System, uid: int)
    requires Inv(s) && Next(s, e, t) && Quiet(uid, e)
    ensures T.Undelivered(t.table, uid) <= T.Undelivered(s.table, uid)
  {
    hide Inv;
    InvStep(s, e, t);
    forall k | k in T.Undelivered(t.table, uid) ensures k in T.Undelivered(s.table, uid) {
      if k in s.table {
        assert ServerHolds(t.table, k, s.table[k].receiver, s.table[k].content);
      }
    }
  }

  lemma {:induction false} NothingNew(s: System, run: Run, uid: int)
    requires Inv(s) && IsRun(Next, s, run) && forall i :: 0 <= i < |run| ==> Quiet(uid, run[i].event)
    ensures T.Undelivered(Final(s, run).table, uid) <= T.Undelivered(s.table, uid)
    decreases run
  {
    hide Inv, Next, T.Undelivered;
    if run != [] {
      QuietStep(s, run[0].event, run[0].after, uid);
      InvStep(s, run[0].event, run[0].after);
      assert Final(run[0].after, run[1..]) == Final(s, run);
      NothingNew(run[0].after, run[1..], uid);
    }
  }

  /** Loss-free rounds one after the other, each with whatever else happens until the next. */
  ghost predicate QuietRounds(s: System, uid: int, rounds: seq<Run>)
    decreases rounds
  {
    rounds != [] ==>
      && IsRun(Next, s, rounds[0]) && LossFree(s, uid, rounds[0])
      && (forall i :: 0 <= i < |rounds[0]| ==> Quiet(uid, rounds[0][i].event))
      && QuietRounds(Final(s, rounds[0]), uid, rounds[1..])
  }

  function After(s: System, rounds: seq<Run>): System
    decreases rounds
  {
    if rounds == [] then s else After(Final(s, rounds[0]), rounds[1..])
  }

  /** Any ceil(n / 32) loss-free rounds during which nothing new is accepted empty the backlog. */
  lemma {:induction false} RoundsDrain(s: System, uid: int, rounds: seq<Run>)
    requires Inv(s) && QuietRounds(s, uid, rounds)
    ensures Inv(After(s, rounds))
    ensures |T.Undelivered(After(s, rounds).table, uid)| <= |T.Undelivered(s.table, uid)|
    ensures |rounds| >= (|T.Undelivered(s.table, uid)| + D.CAPACITY - 1) / D.CAPACITY ==> T.Undelivered(After(s, rounds).table, uid) == {}
    decreases rounds
  {
    hide Inv, Next, IsRun, LossFree, T.Undelivered;
    if rounds != [] {
      var t := Final(s, rounds[0]);
      EveryRoundRemoves(s, uid, rounds[0]);
      NothingNew(s, rounds[0], uid);
      var owed, still := T.Undelivered(s.table, uid), T.Undelivered(t.table, uid);
      assert owed * still == still;
      RunKeepsInv(s, rounds[0]);
      RoundsDrain(t, uid, rounds[1..]);
    }
  }

  /** Settling is not undone by what comes before or after. */
  lemma SettlesWithin(before: Run, run: Run, after: Run, uid: int, k: Key, content: string)
    requires Settles(run, uid, k, content)
    ensures Settles(before + run + after, uid, k, content)
  {
    hide AckedInFull;
    var whole, n := before + run + after, |before|;
    var i :| 0 <= i < |run| && SettledAt(run, i, uid, k, content);
    assert whole[n + i] == run[i];
    forall ids | ids in run[i].event.acks ensures ConfirmedAfter(whole, n + i, uid, k.sender, ids) {
      assert ConfirmedAfter(run, i, uid, k.sender, ids);
      var j :| i < j < |run| && run[j].event == Confirm(uid, k.sender, ids);
      assert whole[n + j] == run[j];
    }
    assert SettledAt(whole, n + i, uid, k, content);
  }
}
