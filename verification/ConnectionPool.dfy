/** The bounded connection pools (the MySQL and the Redis pool are the same machine).  Every
    section that holds the mutex, and every free outside it, is one step; any number of
    borrowers, the health worker and a closer may interleave. */
module ConnectionPool {
  import opened Messages
  import opened Runs

  type Conn = nat

  const MAX_SIZE := 0xFFFF_FFFF_FFFF_FFFF

  /** `idle`, `live` and `stopped` are the pool's fields.  The rest says where every other
      connection is: with a borrower, under a health check, being created (a reserved place),
      or freed with its place not yet given back.  `made` and `freed` log both ends of life. */
  datatype Pool = Pool(size: nat, idle: seq<Conn>, live: nat, stopped: bool,
                       lent: set<Conn>, checking: set<Conn>, making: nat, discarding: nat,
                       made: set<Conn>, freed: multiset<Conn>)

  datatype Event =
    | Borrow
    | GiveBack(c: Conn)      // returned in good order
    | Discard(c: Conn)       // sanitation or health check failed: freed before the lock is taken
    | DiscardDone            // ... and its place given back under the lock
    | Reserve                // a place for a new connection
    | MakeFailed             // the factory yields nothing
    | MakeSpoiled(c: Conn)   // it yields a connection that does not authenticate: freed at once
    | MakeDone(c: Conn)
    | CheckTake
    | CheckPass(c: Conn)
    | Stop
    | Drain

  /** An unguarded decrement of a size_t. */
  function Lower(live: nat): nat {
    if live == 0 then MAX_SIZE else live - 1
  }

  /** One that is skipped at zero. */
  function LowerIfAny(live: nat): nat {
    if live > 0 then live - 1 else 0
  }

  /** A connection comes back: kept while the pool runs, freed once it is stopped. */
  function Put(p: Pool, c: Conn): Pool {
    if p.stopped then p.(live := LowerIfAny(p.live), freed := p.freed + multiset{c}) else p.(idle := p.idle + [c])
  }

  function DrainOne(p: Pool): Pool
    requires p.idle != []
  {
    p.(idle := p.idle[1..], live := LowerIfAny(p.live), freed := p.freed + multiset{p.idle[0]})
  }

  function Drained(p: Pool): Pool
    decreases |p.idle|
  {
    if p.idle == [] then p else Drained(DrainOne(p))
  }

  predicate Enabled(p: Pool, e: Event) {
    match e
    case Borrow => !p.stopped && p.idle != []
    case GiveBack(c) => c in p.lent
    case Discard(c) => c in p.lent || c in p.checking
    case DiscardDone => p.discarding > 0
    case Reserve => !p.stopped && p.live < p.size
    case MakeFailed => p.making > 0
    case MakeSpoiled(c) => p.making > 0 && c !in p.made
    case MakeDone(c) => p.making > 0 && c !in p.made
    case CheckTake => !p.stopped && p.idle != []
    case CheckPass(c) => c in p.checking
    case Stop => true
    case Drain => true
  }

  function Step(p: Pool, e: Event): Pool
    requires Enabled(p, e)
  {
    match e
    case Borrow => p.(idle := p.idle[1..], lent := p.lent + {p.idle[0]})
    case GiveBack(c) => Put(p.(lent := p.lent - {c}), c)
    case Discard(c) =>
      p.(lent := p.lent - {c}, checking := p.checking - {c}, freed := p.freed + multiset{c}, discarding := p.discarding + 1)
    case DiscardDone => p.(live := LowerIfAny(p.live), discarding := p.discarding - 1)
    case Reserve => p.(live := p.live + 1, making := p.making + 1)
    case MakeFailed => p.(live := Lower(p.live), making := p.making - 1)
    case MakeSpoiled(c) =>
      p.(live := Lower(p.live), making := p.making - 1, made := p.made + {c}, freed := p.freed + multiset{c})
    case MakeDone(c) =>
      var q := p.(making := p.making - 1, made := p.made + {c});
      if p.stopped then q.(live := Lower(p.live), freed := p.freed + multiset{c}) else q.(idle := p.idle + [c])
    case CheckTake => p.(idle := p.idle[1..], checking := p.checking + {p.idle[0]})
    case CheckPass(c) => Put(p.(checking := p.checking - {c}), c)
    case Stop => p.(stopped := true)
    case Drain => Drained(p)
  }

  ghost predicate Next(p: Pool, e: Event, p': Pool) {
    Enabled(p, e) && p' == Step(p, e)
  }

  /** Every connection ever made is in exactly one place, exactly once. */
  ghost predicate Placed(p: Pool) {
    multiset(p.idle) + multiset(p.lent) + multiset(p.checking) + p.freed == multiset(p.made)
  }

  /** The live count is the number of connections that exist, are being made or are being given up. */
  ghost predicate Counted(p: Pool) {
    p.live == |p.idle| + |p.lent| + |p.checking| + p.making + p.discarding <= p.size
  }

  ghost predicate Inv(p: Pool) {
    Counted(p) && Placed(p)
  }

  /** What `Placed` says of one connection: its place is unique and it is freed at most once. */
  lemma OnePlace(p: Pool, c: Conn)
    requires Placed(p)
    ensures c in p.idle ==> c !in p.lent && c !in p.checking && c !in p.freed
    ensures c in p.lent ==> c !in p.checking && c !in p.freed
    ensures c in p.checking ==> c !in p.freed
    ensures multiset(p.idle)[c] <= 1 && p.freed[c] <= 1
    ensures c !in p.made ==> c !in p.idle && c !in p.lent && c !in p.checking && c !in p.freed
  {
    var all := multiset(p.idle) + multiset(p.lent) + multiset(p.checking) + p.freed;
    assert all[c] == multiset(p.made)[c] <= 1;
    assert all[c] == multiset(p.idle)[c] + multiset(p.lent)[c] + multiset(p.checking)[c] + p.freed[c];
    assert c in p.idle <==> c in multiset(p.idle);
  }

  lemma FrontIsNowhereElse(p: Pool)
    requires Inv(p) && p.idle != []
    ensures p.lent - {p.idle[0]} == p.lent && p.checking + {p.idle[0]} - {p.idle[0]} == p.checking && p.live > 0
  {
    OnePlace(p, p.idle[0]);
  }

  /** The pool while the health check holds the front connection. */
  function FrontTaken(p: Pool): Pool
    requires p.idle != []
  {
    p.(idle := p.idle[1..], checking := p.checking + {p.idle[0]})
  }

  /** What the health check of the front connection comes to. */
  lemma CheckSteps(p: Pool)
    requires Inv(p) && !p.stopped && p.idle != []
    ensures var c, q := p.idle[0], FrontTaken(p);
            && Enabled(p, CheckTake) && Step(p, CheckTake) == q && c in q.checking
            && Enabled(q, CheckPass(c)) && Step(q, CheckPass(c)) == p.(idle := p.idle[1..] + [c])
            && Enabled(q, Discard(c)) && Enabled(Step(q, Discard(c)), DiscardDone)
            && Step(Step(q, Discard(c)), DiscardDone) == p.(idle := p.idle[1..], live := p.live - 1, freed := p.freed + multiset{c})
  {
    hide Placed;
    var c, q := p.idle[0], FrontTaken(p);
    FrontIsNowhereElse(p);
  }

  lemma ReturnKeeps(p: Pool, c: Conn)
    requires Inv(p) && c in p.checking
    ensures Inv(Step(p, CheckPass(c)))
  {
    hide Placed;
    StepKeeps(p, CheckPass(c), Step(p, CheckPass(c)));
  }

  lemma DrainedUnfolds(p: Pool)
    ensures Drained(p) == if p.idle == [] then p else Drained(DrainOne(p))
  {
  }

  lemma WithMember(s: set<Conn>, c: Conn)
    ensures c in s ==> |s - {c}| == |s| - 1 && multiset(s) == multiset(s - {c}) + multiset{c}
    ensures c !in s ==> |s + {c}| == |s| + 1 && multiset(s + {c}) == multiset(s) + multiset{c} && s - {c} == s
  {
    if c in s {
      assert s == (s - {c}) + {c};
    }
  }

  lemma WithHead(s: seq<Conn>)
    requires s != []
    ensures multiset(s) == multiset(s[1..]) + multiset{s[0]}
  {
    assert s == [s[0]] + s[1..];
  }

  lemma DrainOneKeeps(p: Pool)
    requires Inv(p) && p.idle != []
    ensures Inv(DrainOne(p)) && DrainOne(p).live == p.live - 1
    ensures DrainOne(p).freed + multiset(DrainOne(p).idle) == p.freed + multiset(p.idle)
  {
    WithHead(p.idle);
  }

  lemma DrainedKeeps(p: Pool)
    requires Inv(p)
    ensures Inv(Drained(p))
    ensures Drained(p) == p.(idle := [], live := p.live - |p.idle|, freed := p.freed + multiset(p.idle))
    decreases |p.idle|
  {
    hide Placed;
    if p.idle == [] {
      NothingAdded(p);
    } else {
      DrainOneKeeps(p);
      DrainedKeeps(DrainOne(p));
    }
  }

  lemma NothingAdded(p: Pool)
    requires p.idle == []
    ensures p.freed + multiset(p.idle) == p.freed
  {
  }

  lemma TakeKeeps(p: Pool, e: Event)
    requires Inv(p) && Enabled(p, e) && (e.Borrow? || e.CheckTake?)
    ensures Inv(Step(p, e))
  {
    var c := p.idle[0];
    OnePlace(p, c);
    WithHead(p.idle);
    WithMember(if e.Borrow? then p.lent else p.checking, c);
  }

  lemma PutKeeps(p: Pool, e: Event)
    requires Inv(p) && Enabled(p, e) && (e.GiveBack? || e.CheckPass?)
    ensures Inv(Step(p, e))
  {
    OnePlace(p, e.c);
    WithMember(if e.GiveBack? then p.lent else p.checking, e.c);
    assert multiset(p.idle + [e.c]) == multiset(p.idle) + multiset{e.c};
  }

  lemma DiscardKeeps(p: Pool, c: Conn)
    requires Inv(p) && Enabled(p, Discard(c))
    ensures Inv(Step(p, Discard(c)))
  {
    OnePlace(p, c);
    WithMember(p.lent, c);
    WithMember(p.checking, c);
  }

  lemma DiscardBothKeep(p: Pool, c: Conn)
    requires Inv(p) && Enabled(p, Discard(c))
    ensures Inv(Step(Step(p, Discard(c)), DiscardDone))
  {
    DiscardKeeps(p, c);
  }

  lemma MakeKeeps(p: Pool, e: Event)
    requires Inv(p) && Enabled(p, e) && (e.MakeSpoiled? || e.MakeDone?)
    ensures Inv(Step(p, e))
  {
    WithMember(p.made, e.c);
    assert multiset(p.idle + [e.c]) == multiset(p.idle) + multiset{e.c};
  }

  function Outcome(product: Option<Conn>, healthy: bool): Event {
    if product.None? then MakeFailed else if healthy then MakeDone(product.value) else MakeSpoiled(product.value)
  }

  lemma CreateUnfolds(p: Pool, product: Option<Conn>, healthy: bool)
    requires product.Some? ==> product.value !in p.made
    ensures Enabled(p, Reserve) ==>
              && Step(p, Reserve).making > 0 && Step(p, Reserve).made == p.made && !Step(p, Reserve).stopped
              && Enabled(Step(p, Reserve), Outcome(product, healthy))
              && !Step(Step(p, Reserve), Outcome(product, healthy)).stopped
  {
  }

  lemma CreationKeeps(p: Pool, product: Option<Conn>, healthy: bool)
    requires Inv(p) && p.making > 0 && (product.Some? ==> product.value !in p.made)
    ensures Inv(Step(p, Outcome(product, healthy))) && p.live > 0
  {
    hide Placed;
    StepKeeps(p, Outcome(product, healthy), Step(p, Outcome(product, healthy)));
  }

  lemma StepKeeps(p: Pool, e: Event, p': Pool)
    requires Inv(p) && Next(p, e, p')
    ensures Inv(p') && p'.size == p.size
  {
    match e
    case Borrow => TakeKeeps(p, e);
    case CheckTake => TakeKeeps(p, e);
    case GiveBack(_) => PutKeeps(p, e);
    case CheckPass(_) => PutKeeps(p, e);
    case Discard(c) => DiscardKeeps(p, c);
    case MakeSpoiled(_) => MakeKeeps(p, e);
    case MakeDone(_) => MakeKeeps(p, e);
    case Drain => DrainedKeeps(p);
    case _ =>
  }

  type Run = seq<Transition<Event, Pool>>

  function Initial(size: nat): Pool {
    Pool(size, [], 0, false, {}, {}, 0, 0, {}, multiset{})
  }

  /** Conservation over every interleaving: the live count is exact and never above the pool
      size, and every connection made is in one place and freed at most once. */
  lemma PoolConserved(size: nat, run: Run)
    requires IsRun(Next, Initial(size), run)
    ensures Inv(Final(Initial(size), run)) && Final(Initial(size), run).size == size
  {
    var sized := (p: Pool) => Inv(p) && p.size == size;
    forall a, e, b | sized(a) && Next(a, e, b) ensures sized(b) { StepKeeps(a, e, b); }
    InvariantHolds(Next, sized, Initial(size), run);
  }

  /** No decrement is ever skipped by its guard or wraps around. */
  lemma NoUnderflow(p: Pool, e: Event)
    requires Inv(p) && Enabled(p, e)
    ensures Step(p, e).live == p.live
                               + (if e.Reserve? then 1 else 0)
                               - (if e.DiscardDone? || e.MakeFailed? || e.MakeSpoiled? then 1 else 0)
                               - (if p.stopped && (e.GiveBack? || e.CheckPass? || e.MakeDone?) then 1 else 0)
                               - (if e.Drain? then |p.idle| else 0)
  {
    match e
    case GiveBack(c) => WithMember(p.lent, c);
    case CheckPass(c) => WithMember(p.checking, c);
    case Drain => DrainedKeeps(p);
    case _ =>
  }

  ghost predicate Shut(p: Pool) {
    p.stopped && p.idle == []
  }

  /** Once closed, the idle queue stays empty for ever and nobody borrows or creates again. */
  lemma ClosedStaysEmpty(p: Pool, run: Run)
    requires Shut(p) && IsRun(Next, p, run)
    ensures Shut(Final(p, run)) && !Enabled(Final(p, run), Borrow) && !Enabled(Final(p, run), Reserve)
  {
    forall a, e, b | Shut(a) && Next(a, e, b) ensures Shut(b) {}
    InvariantHolds(Next, Shut, p, run);
  }

  /** Nothing leaks: when a closed pool has everything back, every connection ever made has
      been freed exactly once and the count is zero. */
  lemma ClosedPoolFreesAll(size: nat, run: Run)
    requires IsRun(Next, Initial(size), run)
    requires var p := Final(Initial(size), run);
             Shut(p) && p.lent == {} && p.checking == {} && p.making == 0 && p.discarding == 0
    ensures var p := Final(Initial(size), run); p.live == 0 && p.freed == multiset(p.made)
  {
    PoolConserved(size, run);
  }

  function Healthy(conns: seq<Conn>, ok: set<Conn>): seq<Conn> {
    if conns == [] then []
    else
      var last := |conns| - 1;
      Healthy(conns[..last], ok) + (if conns[last] in ok then [conns[last]] else [])
  }

  /** The idle queue after `i` of its connections were checked. */
  function Rotated(conns: seq<Conn>, i: nat, ok: set<Conn>): seq<Conn>
    requires i <= |conns|
  {
    conns[i..] + Healthy(conns[..i], ok)
  }

  lemma RotatedEnds(conns: seq<Conn>, ok: set<Conn>)
    ensures Rotated(conns, 0, ok) == conns && Rotated(conns, |conns|, ok) == Healthy(conns, ok)
  {
    assert conns[..|conns|] == conns;
  }

  lemma CheckedOneMore(conns: seq<Conn>, i: nat, ok: set<Conn>)
    requires i < |conns|
    ensures var q := Rotated(conns, i, ok);
            q != [] && Rotated(conns, i + 1, ok) == q[1..] + (if q[0] in ok then [q[0]] else [])
  {
    assert conns[..i + 1][..i] == conns[..i];
  }

  class BoundedPool {
    const size: nat
    var idle: seq<Conn>
    var live: nat
    var stopped: bool
    ghost var lent: set<Conn>
    ghost var checking: set<Conn>
    ghost var making: nat
    ghost var discarding: nat
    ghost var made: set<Conn>
    ghost var freed: multiset<Conn>

    ghost function State(): Pool
      reads this
    {
      Pool(size, idle, live, stopped, lent, checking, making, discarding, made, freed)
    }

    ghost predicate Valid()
      reads this
    {
      Inv(State())
    }

    constructor (size: nat)
      ensures Valid() && State() == Initial(size)
    {
      this.size := size;
      idle, live, stopped := [], 0, false;
      lent, checking, making, discarding, made, freed := {}, {}, 0, 0, {}, multiset{};
    }

    /** The locked part of a borrow, once the wait is over. */
    method GetConnection() returns (c: Option<Conn>)
      requires Valid()
      modifies this
      ensures Valid()
      ensures if Enabled(old(State()), Borrow)
              then State() == Step(old(State()), Borrow) && c == Some(old(idle)[0])
              else State() == old(State()) && c == None
    {
      if stopped || idle == [] {
        return None;
      }
      TakeKeeps(State(), Borrow);
      c := Some(idle[0]);
      lent := lent + {idle[0]};
      idle := idle[1..];
    }

    method ReturnConnection(c: Conn)
      requires Valid() && c in lent
      modifies this
      ensures Valid() && State() == Step(old(State()), GiveBack(c))
    {
      PutKeeps(State(), GiveBack(c));
      lent := lent - {c};
      if stopped {
        if live > 0 {
          live := live - 1;
        }
        freed := freed + multiset{c};
        return;
      }
      idle := idle + [c];
    }

    method DiscardConnection(c: Conn)
      requires Valid() && (c in lent || c in checking)
      modifies this
      ensures Valid() && State() == Step(Step(old(State()), Discard(c)), DiscardDone)
    {
      hide Inv;
      DiscardBothKeep(State(), c);
      lent, checking, freed, discarding := lent - {c}, checking - {c}, freed + multiset{c}, discarding + 1;
      if live > 0 {
        live := live - 1;
      }
      discarding := discarding - 1;
    }

    /** The first locked section of a creation: a place is reserved. */
    method ReservePlace() returns (ok: bool)
      requires Valid()
      modifies this
      ensures Valid() && ok == Enabled(old(State()), Reserve)
      ensures State() == if ok then Step(old(State()), Reserve) else old(State())
    {
      hide Inv;
      if stopped || live >= size {
        return false;
      }
      StepKeeps(State(), Reserve, Step(State(), Reserve));
      live, making := live + 1, making + 1;
      return true;
    }

    /** The second, in whatever state the pool is by then: after a stop a new connection is freed
        and its place given back. */
    method FinishCreation(product: Option<Conn>, healthy: bool) returns (ok: bool)
      requires Valid() && making > 0 && (product.Some? ==> product.value !in made)
      modifies this
      ensures Valid() && State() == Step(old(State()), Outcome(product, healthy))
      ensures ok <==> product.Some? && healthy && !stopped
    {
      hide Inv;
      CreationKeeps(State(), product, healthy);
      making := making - 1;
      if product.Some? {
        made := made + {product.value};
      }
      if product.None? || !healthy || stopped {
        if product.Some? {
          freed := freed + multiset{product.value};
        }
        live := live - 1;
        return false;
      }
      idle := idle + [product.value];
      return true;
    }

    /** The two locked sections around the factory call, when nothing comes between them.  `product`
        is what the factory yields, `healthy` whether it authenticates; if not, it is freed at
        once. */
    method CreateOneConnection(product: Option<Conn>, healthy: bool) returns (ok: bool)
      requires Valid() && (product.Some? ==> product.value !in made)
      modifies this
      ensures Valid()
      ensures if !Enabled(old(State()), Reserve) then State() == old(State()) && !ok
              else State() == Step(Step(old(State()), Reserve), Outcome(product, healthy)) && (ok <==> product.Some? && healthy)
    {
      hide Inv, Step, Outcome;
      CreateUnfolds(State(), product, healthy);
      ok := ReservePlace();
      if ok {
        ok := FinishCreation(product, healthy);
      }
    }

    /** One undisturbed health pass: the healthy connections stay, in order; the others are
        freed and their places given back. */
    method CheckIdleConnections(ok: set<Conn>)
      requires Valid()
      modifies this
      ensures Valid() && unchanged(`stopped) && unchanged(`lent) && unchanged(`made) && unchanged(`checking)
      ensures if stopped then State() == old(State())
              else idle == Healthy(old(idle), ok) && live == old(live) - |old(idle)| + |idle|
    {
      hide Inv, Healthy, Rotated;
      RotatedEnds(idle, ok);
      var count := |idle|;
      ghost var before := idle;
      var i := 0;
      while i < count
        invariant 0 <= i <= count == |before| && Valid()
        invariant stopped == old(stopped) && lent == old(lent) && made == old(made) && checking == old(checking)
        invariant stopped ==> State() == old(State())
        invariant !stopped ==> idle == Rotated(before, i, ok) && live == old(live) - |before| + |idle|
      {
        CheckedOneMore(before, i, ok);
        if stopped || idle == [] {
          return;
        }
        CheckFront(ok);
        i := i + 1;
      }
    }

    /** The first locked section of a turn: the front connection is taken out for its test. */
    method TakeForCheck() returns (c: Option<Conn>)
      requires Valid()
      modifies this
      ensures Valid()
      ensures if Enabled(old(State()), CheckTake)
              then State() == Step(old(State()), CheckTake) && c == Some(old(idle)[0])
              else State() == old(State()) && c == None
    {
      hide Inv;
      if stopped || idle == [] {
        return None;
      }
      StepKeeps(State(), CheckTake, Step(State(), CheckTake));
      c := Some(idle[0]);
      checking := checking + {idle[0]};
      idle := idle[1..];
    }

    /** The second, in whatever state the pool is by then: a healthy connection goes back, or is
        freed if the pool has stopped; the others are discarded. */
    method FinishCheck(c: Conn, healthy: bool)
      requires Valid() && c in checking
      modifies this
      ensures Valid()
      ensures State() == if healthy then Step(old(State()), CheckPass(c)) else Step(Step(old(State()), Discard(c)), DiscardDone)
    {
      hide Inv;
      if !healthy {
        DiscardConnection(c);
        return;
      }
      ReturnKeeps(State(), c);
      checking := checking - {c};
      if stopped {
        if live > 0 {
          live := live - 1;
        }
        freed := freed + multiset{c};
        return;
      }
      idle := idle + [c];
    }

    /** The loop body, when nothing comes between its sections: take the front connection, test it,
        put it back or discard it. */
    method CheckFront(ok: set<Conn>)
      requires Valid() && !stopped && idle != []
      modifies this
      ensures Valid() && unchanged(`stopped) && unchanged(`lent) && unchanged(`made) && unchanged(`checking)
      ensures var c := old(idle)[0];
              if c in ok then idle == old(idle)[1..] + [c] && live == old(live) && freed == old(freed)
              else idle == old(idle)[1..] && live == old(live) - 1 && freed == old(freed) + multiset{c}
    {
      hide Inv, Step;
      CheckSteps(State());
      var c := TakeForCheck();
      FinishCheck(c.value, c.value in ok);
    }

    method Close()
      requires Valid()
      modifies this
      ensures Valid() && Shut(State())
      ensures State() == Step(Step(old(State()), Stop), Drain)
    {
      hide Inv, Drained;
      StepKeeps(State(), Stop, Step(State(), Stop));
      stopped := true;
      while idle != []
        invariant Valid() && stopped && Drained(State()) == Step(Step(old(State()), Stop), Drain)
        decreases |idle|
      {
        ghost var before := State();
        DrainOneKeeps(before);
        DrainedUnfolds(before);
        freed := freed + multiset{idle[0]};
        idle := idle[1..];
        if live > 0 {
          live := live - 1;
        }
        assert State() == DrainOne(before);
      }
      DrainedUnfolds(State());
    }
  }
}
