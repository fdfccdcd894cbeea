/** The server's transactions as the database runs them: a row gets the next auto-increment id
    when it is inserted, and the rows of a transaction appear together when it commits, so a smaller
    id may appear after a larger one.  Transactions of different sessions overlap; a row that one of
    them has inserted is locked until it ends.

    This is a refinement of `TextProtocol`, in which accepting a request is one step, and it shows
    when a message that has been delivered once can be pushed off the page again. */
module RowIds {
  import opened Messages
  import opened Runs
  import opened TextProtocol
  import T = MessageServer
  import D = Delivery

  /** An open transaction: the request it stores and the ids of the rows inserted so far. */
  datatype Tx = Tx(from: int, to: int, texts: seq<Text>, ids: seq<nat>)

  /** `next` is the table's auto-increment counter. */
  datatype Server = Server(sys: System, next: nat, open: map<nat, Tx>)

  datatype Act =
    | Begin(x: nat, from: int, to: int, texts: seq<Text>)   // a worker starts on a request
    | Insert(x: nat)                                        // one turn of the insert loop
    | Commit(x: nat, answered: bool)
    | Rollback(x: nat)                                      // a conflict, or any database error
    | Other(event: Event)

  type Acts = seq<Transition<Act, Server>>

  const START := Server(INITIAL, 1, map[])

  function Done(t: Tx): seq<Text>
    requires |t.ids| <= |t.texts|
  {
    t.texts[..|t.ids|]
  }

  function Locked(t: Tx): set<Key>
    requires |t.ids| <= |t.texts|
  {
    KeysOf(t.from, Done(t))
  }

  /** No other open transaction has inserted the row. */
  predicate Unlocked(open: map<nat, Tx>, x: nat, k: Key) {
    forall y :: y in open && y != x && |open[y].ids| <= |open[y].texts| ==> k !in Locked(open[y])
  }

  /** What the insert loop reads back for its next text is what it wrote. */
  ghost predicate ReadsBack(table: T.Table, t: Tx)
    requires |t.ids| < |t.texts|
  {
    var text := t.texts[|t.ids|];
    && T.Repeats(table, t.from, t.to, [text])
    && forall u :: u in Done(t) && u.id == text.id ==> u == text
  }

  /** Where a key first stands in a batch. */
  function FirstAt(from: int, texts: seq<Text>, k: Key): (i: nat)
    requires k in KeysOf(from, texts)
    ensures i < |texts| && Key(from, texts[i].id) == k
  {
    if Key(from, texts[0].id) == k then 0
    else
      assert exists t :: t in texts[1..] && Key(from, t.id) == k by {
        var t :| t in texts && Key(from, t.id) == k;
      }
      1 + FirstAt(from, texts[1..], k)
  }

  function NewRow(t: Tx, k: Key): T.Stored
    requires |t.ids| == |t.texts| && k in KeysOf(t.from, t.texts)
  {
    var i := FirstAt(t.from, t.texts, k);
    T.Stored(t.ids[i], t.to, t.texts[i].content, false)
  }

  /** The table once the transaction's rows are visible. */
  function Committed(table: T.Table, t: Tx): T.Table
    requires |t.ids| == |t.texts|
  {
    table + map k | k in KeysOf(t.from, t.texts) && k !in table :: NewRow(t, k)
  }

  ghost predicate Step(n: Server, a: Act, n': Server) {
    match a
    case Begin(x, from, to, texts) =>
      && x !in n.open && Request(from, to, texts) in n.sys.net && T.ValidParties(from, to) && T.ValidBatch(texts)
      && n' == n.(open := n.open[x := Tx(from, to, texts, [])])
    case Insert(x) =>
      && x in n.open && |n.open[x].ids| < |n.open[x].texts|
      && var t := n.open[x];
         && Unlocked(n.open, x, Key(t.from, t.texts[|t.ids|].id)) && ReadsBack(n.sys.table, t)
         && n' == n.(next := n.next + 1, open := n.open[x := t.(ids := t.ids + [n.next])])
    case Commit(x, answered) =>
      && x in n.open && |n.open[x].ids| == |n.open[x].texts|
      && var t := n.open[x];
         n' == n.(sys := n.sys.(table := Committed(n.sys.table, t),
                                net := n.sys.net + (if answered then {Reply(t.from, t.to, t.texts)} else {})),
                  open := n.open - {x})
    case Rollback(x) => x in n.open && n' == n.(open := n.open - {x})
    case Other(e) =>
      && !e.Accept? && Next(n.sys, e, n'.sys)
      && n'.next == n.next && n'.open == if e.ServerCrash? then map[] else n.open
  }

  /** The protocol step that an act amounts to. */
  function Abstract(n: Server, a: Act): Event {
    match a
    case Commit(x, answered) => if x in n.open then Accept(n.open[x].from, n.open[x].to, n.open[x].texts, answered) else Failure
    case Other(e) => e
    case _ => Failure
  }

  /** A transaction's request was received and is valid, and what it has inserted agrees with
      itself and with the table. */
  ghost predicate TxOk(sys: System, t: Tx) {
    && |t.ids| <= |t.texts|
    && Request(t.from, t.to, t.texts) in sys.net && T.ValidParties(t.from, t.to) && T.ValidBatch(t.texts)
    && SelfConsistent(Done(t)) && T.Repeats(sys.table, t.from, t.to, Done(t))
  }

  ghost predicate AllTxOk(n: Server) {
    forall x :: x in n.open ==> TxOk(n.sys, n.open[x])
  }

  /** Two transactions have inserted different rows. */
  ghost predicate Apart(t: Tx, u: Tx) {
    |t.ids| <= |t.texts| && |u.ids| <= |u.texts| ==> Locked(t) !! Locked(u)
  }

  ghost predicate LocksApart(n: Server) {
    forall x, y :: x in n.open && y in n.open && x != y ==> Apart(n.open[x], n.open[y])
  }

  /** An id in use: of a committed row, or held by an open transaction. */
  ghost predicate Held(t: Tx, id: nat) {
    id in t.ids
  }

  ghost predicate NoRepeats(ids: seq<nat>) {
    forall i, j :: 0 <= i < j < |ids| ==> ids[i] != ids[j]
  }

  /** Ids in use are below the counter, and no id is used twice. */
  ghost predicate IdsApart(n: Server) {
    && (forall k :: k in n.sys.table ==> n.sys.table[k].rowId < n.next)
    && (forall x, id: nat :: x in n.open && Held(n.open[x], id) ==> id < n.next)
    && (forall x, k :: x in n.open && k in n.sys.table ==> !Held(n.open[x], n.sys.table[k].rowId))
    && (forall x, y, id: nat :: x in n.open && y in n.open && x != y && Held(n.open[x], id) ==> !Held(n.open[y], id))
    && (forall x :: x in n.open ==> NoRepeats(n.open[x].ids))
    && T.DistinctIds(n.sys.table)
  }

  ghost predicate ServerInv(n: Server) {
    Inv(n.sys) && AllTxOk(n) && LocksApart(n) && IdsApart(n)
  }

  /** A table that only marks rows acknowledged, and a network that only grows, disturb no
      transaction. */
  predicate SameRows(table: T.Table, table': T.Table) {
    table.Keys == table'.Keys && forall k :: k in table ==> table'[k] == table[k].(acked := table'[k].acked)
  }

  lemma OtherRows(s: System, e: Event, s': System)
    requires Next(s, e, s') && !e.Accept?
    ensures SameRows(s.table, s'.table) && s.net <= s'.net
  {
  }

  lemma OtherKeeps(n: Server, e: Event, n': Server)
    requires ServerInv(n) && Step(n, Other(e), n')
    ensures AllTxOk(n') && LocksApart(n') && IdsApart(n')
  {
    hide Inv, Next, Held, Apart, TxOk, SameRows, IdsApart;
    OtherRows(n.sys, e, n'.sys);
    forall x | x in n'.open ensures TxOk(n'.sys, n'.open[x]) {
      assert TxOk(n.sys, n.open[x]);
      OtherTx(n.sys, n'.sys, n.open[x]);
    }
    OtherIds(n, n');
  }

  lemma OtherTx(s: System, s': System, t: Tx)
    requires TxOk(s, t) && SameRows(s.table, s'.table) && s.net <= s'.net
    ensures TxOk(s', t)
  {
  }

  lemma OtherIds(n: Server, n': Server)
    requires IdsApart(n) && SameRows(n.sys.table, n'.sys.table) && n'.next == n.next && (n'.open == n.open || n'.open == map[])
    ensures IdsApart(n')
  {
    hide Held, NoRepeats;
  }

  lemma BeginKeeps(n: Server, a: Act, n': Server)
    requires ServerInv(n) && a.Begin? && Step(n, a, n')
    ensures AllTxOk(n') && LocksApart(n') && IdsApart(n')
  {
    hide Inv, Apart, TxOk;
    NothingInserted(n.sys, a.from, a.to, a.texts);
    forall y | y in n.open ensures Apart(n.open[y], n'.open[a.x]) && Apart(n'.open[a.x], n.open[y]) {
      NothingLocked(a.from, a.to, a.texts, n.open[y]);
    }
  }

  lemma NothingInserted(sys: System, from: int, to: int, texts: seq<Text>)
    requires Request(from, to, texts) in sys.net && T.ValidParties(from, to) && T.ValidBatch(texts)
    ensures TxOk(sys, Tx(from, to, texts, []))
  {
  }

  lemma NothingLocked(from: int, to: int, texts: seq<Text>, t: Tx)
    ensures Apart(t, Tx(from, to, texts, [])) && Apart(Tx(from, to, texts, []), t)
  {
    assert Locked(Tx(from, to, texts, [])) == {};
  }

  lemma InsertDone(t: Tx, id: nat)
    requires |t.ids| < |t.texts|
    ensures var t' := t.(ids := t.ids + [id]); |t'.ids| <= |t'.texts| && Done(t') == Done(t) + [t.texts[|t.ids|]]
    ensures var t' := t.(ids := t.ids + [id]); Locked(t') == Locked(t) + {Key(t.from, t.texts[|t.ids|].id)}
  {
    var t' := t.(ids := t.ids + [id]);
    assert Done(t') == Done(t) + [t.texts[|t.ids|]];
    BatchKeys(t.from, Done(t), t.texts[|t.ids|]);
  }

  lemma InsertTx(sys: System, t: Tx, id: nat)
    requires TxOk(sys, t) && |t.ids| < |t.texts| && ReadsBack(sys.table, t)
    ensures TxOk(sys, t.(ids := t.ids + [id]))
  {
    InsertDone(t, id);
    var text := t.texts[|t.ids|];
    assert text in [text];
  }

  lemma InsertLocks(n: Server, a: Act, n': Server)
    requires LocksApart(n) && a.Insert? && Step(n, a, n')
    ensures LocksApart(n')
  {
    hide Apart, ReadsBack, Unlocked;
    forall y | y in n.open && y != a.x ensures Apart(n.open[y], n'.open[a.x]) && Apart(n'.open[a.x], n.open[y]) {
      assert Apart(n.open[a.x], n.open[y]);
      LocksOneMore(n.open, a.x, n.next, y);
    }
  }

  lemma LocksOneMore(open: map<nat, Tx>, x: nat, id: nat, y: nat)
    requires x in open && |open[x].ids| < |open[x].texts| && y in open && y != x && Apart(open[x], open[y])
    requires Unlocked(open, x, Key(open[x].from, open[x].texts[|open[x].ids|].id))
    ensures var t := open[x].(ids := open[x].ids + [id]); Apart(open[y], t) && Apart(t, open[y])
  {
    InsertDone(open[x], id);
  }

  lemma InsertIds(n: Server, a: Act, n': Server)
    requires IdsApart(n) && a.Insert? && Step(n, a, n')
    ensures IdsApart(n')
  {
    hide ReadsBack, Unlocked;
    var t := n.open[a.x];
    var ids := t.ids;
    forall id | Held(n'.open[a.x], id) ensures Held(t, id) || id == n.next {}
    forall i, j | 0 <= i < j < |ids| + 1 ensures (ids + [n.next])[i] != (ids + [n.next])[j] {
      assert Held(t, ids[i]);
    }
  }

  lemma InsertKeeps(n: Server, a: Act, n': Server)
    requires ServerInv(n) && a.Insert? && Step(n, a, n')
    ensures AllTxOk(n') && LocksApart(n') && IdsApart(n')
  {
    hide Inv, IdsApart, LocksApart, TxOk, ReadsBack, Unlocked;
    assert TxOk(n.sys, n.open[a.x]);
    InsertTx(n.sys, n.open[a.x], n.next);
    InsertLocks(n, a, n');
    InsertIds(n, a, n');
  }

  lemma RollbackKeeps(n: Server, a: Act, n': Server)
    requires ServerInv(n) && a.Rollback? && Step(n, a, n')
    ensures AllTxOk(n') && LocksApart(n') && IdsApart(n')
  {
    hide Inv, TxOk, Apart, Held, NoRepeats;
  }

  /** A committing transaction does what accepting its request does. */
  lemma CommitPersists(sys: System, t: Tx)
    requires TxOk(sys, t) && |t.ids| == |t.texts|
    ensures T.Repeats(sys.table, t.from, t.to, t.texts) && SelfConsistent(t.texts)
    ensures T.Persisted(sys.table, t.from, t.to, t.texts, Committed(sys.table, t))
  {
    assert Done(t) == t.texts;
    forall u | u in t.texts && Key(t.from, u.id) !in sys.table
      ensures Key(t.from, u.id) in KeysOf(t.from, t.texts) && NewRow(t, Key(t.from, u.id)).content == u.content
    {
      var i := FirstAt(t.from, t.texts, Key(t.from, u.id));
      assert t.texts[i] in t.texts;
    }
  }

  /** Its new rows carry the ids it holds, different ones for different keys. */
  lemma NewIds(table: T.Table, t: Tx, k: Key)
    requires |t.ids| == |t.texts| && k in Committed(table, t) && k !in table
    ensures Committed(table, t)[k].receiver == t.to && Held(t, Committed(table, t)[k].rowId) && k in KeysOf(t.from, t.texts)
    ensures Committed(table, t)[k].rowId == t.ids[FirstAt(t.from, t.texts, k)]
  {
  }

  lemma CommitIds(n: Server, x: nat)
    requires IdsApart(n) && x in n.open && |n.open[x].ids| == |n.open[x].texts|
    ensures T.DistinctIds(Committed(n.sys.table, n.open[x]))
  {
    var t, table := n.open[x], n.sys.table;
    var after := Committed(table, t);
    forall k, l | k in after && l in after && after[k].rowId == after[l].rowId ensures k == l {
      if k in table && l !in table {
        NewIds(table, t, l);
      } else if k !in table && l in table {
        NewIds(table, t, k);
      } else if k !in table {
        NewIds(table, t, k);
        NewIds(table, t, l);
      }
    }
  }

  lemma CommitIdsApart(n: Server, a: Act, n': Server)
    requires IdsApart(n) && a.Commit? && Step(n, a, n')
    ensures IdsApart(n')
  {
    hide T.DistinctIds, Committed, Held;
    var t, table, after := n.open[a.x], n.sys.table, n'.sys.table;
    CommitIds(n, a.x);
    forall k | k in after ensures after[k].rowId < n.next && forall y :: y in n'.open ==> !Held(n'.open[y], after[k].rowId) {
      if k !in table {
        NewIds(table, t, k);
      } else {
        OldRows(table, t, k);
      }
    }
  }

  lemma OldRows(table: T.Table, t: Tx, k: Key)
    requires |t.ids| == |t.texts| && k in table
    ensures k in Committed(table, t) && Committed(table, t)[k] == table[k]
  {
  }

  lemma CommitOthers(n: Server, a: Act, n': Server)
    requires AllTxOk(n) && LocksApart(n) && a.Commit? && Step(n, a, n')
    ensures AllTxOk(n') && LocksApart(n')
  {
    hide Committed, TxOk, Apart;
    var t := n.open[a.x];
    forall y | y in n'.open ensures TxOk(n'.sys, n'.open[y]) {
      assert TxOk(n.sys, n.open[y]) && Apart(t, n.open[y]);
      CommitOther(n.sys, t, n.open[y], n'.sys);
    }
  }

  /** A commit adds no row that another transaction has inserted. */
  lemma CommitOther(s: System, t: Tx, u: Tx, s': System)
    requires TxOk(s, u) && |t.ids| == |t.texts| && Apart(t, u)
    requires s'.table == Committed(s.table, t) && s.net <= s'.net
    ensures TxOk(s', u)
  {
    hide Committed;
    assert Done(t) == t.texts;
    forall v | v in Done(u) && Key(u.from, v.id) in s'.table
      ensures s'.table[Key(u.from, v.id)].receiver == u.to && s'.table[Key(u.from, v.id)].content == v.content
    {
      var k := Key(u.from, v.id);
      assert k in Locked(u);
      if k in s.table {
        OldRows(s.table, t, k);
      } else {
        NewIds(s.table, t, k);
      }
    }
  }

  lemma CommitAccepts(n: Server, a: Act, n': Server)
    requires ServerInv(n) && a.Commit? && Step(n, a, n')
    ensures Next(n.sys, Abstract(n, a), n'.sys)
  {
    hide Inv, Committed, T.Persisted, T.DistinctIds, T.Repeats;
    var t := n.open[a.x];
    assert TxOk(n.sys, t);
    CommitPersists(n.sys, t);
    CommitIds(n, a.x);
  }

  /** Every act is a step of the protocol and keeps the ids of all rows apart. */
  lemma StepRefines(n: Server, a: Act, n': Server)
    requires ServerInv(n) && Step(n, a, n')
    ensures Next(n.sys, Abstract(n, a), n'.sys) && ServerInv(n') && Grows(n.sys, n'.sys)
  {
    hide Inv, Grows, AllTxOk, LocksApart, IdsApart;
    ActIsStep(n, a, n');
    InvStep(n.sys, Abstract(n, a), n'.sys);
    match a
    case Begin(_, _, _, _) => BeginKeeps(n, a, n');
    case Insert(_) => InsertKeeps(n, a, n');
    case Commit(_, _) =>
      CommitOthers(n, a, n');
      CommitIdsApart(n, a, n');
    case Rollback(_) => RollbackKeeps(n, a, n');
    case Other(e) => OtherKeeps(n, e, n');
  }

  lemma ActIsStep(n: Server, a: Act, n': Server)
    requires ServerInv(n) && Step(n, a, n')
    ensures Next(n.sys, Abstract(n, a), n'.sys)
  {
    hide ServerInv, Committed, ReadsBack, Unlocked;
    if a.Commit? {
      CommitAccepts(n, a, n');
    }
  }

  /** The protocol run that a run of the server amounts to. */
  function Projected(n: Server, run: Acts): Run
    decreases run
  {
    if run == [] then []
    else [Transition(Abstract(n, run[0].event), run[0].after.sys)] + Projected(run[0].after, run[1..])
  }

  /** So every run is a run of the protocol, and everything proved of those holds of it. */
  lemma {:induction false} RunRefines(n: Server, run: Acts)
    requires ServerInv(n) && IsRun(Step, n, run)
    ensures ServerInv(Final(n, run)) && Grows(n.sys, Final(n, run).sys)
    ensures IsRun(Next, n.sys, Projected(n, run)) && Final(n.sys, Projected(n, run)) == Final(n, run).sys
    decreases run
  {
    hide ServerInv, Step, Next, Grows;
    if run == [] {
      NoStep(n);
    } else {
      var a, m := run[0].event, run[0].after;
      StepRefines(n, a, m);
      RunRefines(m, run[1..]);
      GrowsOn(n.sys, m.sys, Final(n, run).sys);
      var first, rest := [Transition(Abstract(n, a), m.sys)], Projected(m, run[1..]);
      assert first[1..] == [];
      RunAppend(Next, n.sys, first, rest);
      assert Final(m, run[1..]) == Final(n, run);
    }
  }

  lemma NoStep(n: Server)
    ensures Grows(n.sys, n.sys)
  {
  }

  lemma GrowsOn(a: System, b: System, c: System)
    requires Grows(a, b) && Grows(b, c)
    ensures Grows(a, c)
  {
  }

  lemma StartInv()
    ensures ServerInv(START)
  {
    InitialInv();
  }
}
