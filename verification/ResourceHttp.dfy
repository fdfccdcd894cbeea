/** The client's request gate to the resource server: credentials, bounded retries, cancellation
    and account isolation.  Network replies, timers, token responses and user actions arrive in
    any order; a callback may itself start, cancel or reset, so the requests a token releases are
    issued one step at a time.  Renewal ids are UUIDs and are taken to be distinct. */
module ResourceHttp {
  import opened Runs

  type Handle = nat
  type Token = nat            // 0 is the empty token

  const MAX_WAITING := 64
  const MAX_RETRY := 5

  /** The control object of one request, with a log of its callbacks and network sends. */
  datatype Ticket = Ticket(generation: nat, cancelled: bool, pathOk: bool, calls: nat, sends: nat)

  /** A pending continuation of a request. */
  datatype Item = Item(h: Handle, retry: nat, generation: nat)

  datatype Timer = RenewalTimeout(generation: nat, id: nat) | RenewAgain(generation: nat)

  datatype Login = Login(generation: nat, uid: int)

  /** `flying` are network replies, `resting` retry timers, `releasing` requests a token has freed;
      `issued` remembers for which login each renewal id was sent. */
  datatype State = State(generation: nat, uid: int, baseOk: bool, token: Token, renewing: bool, renewalId: nat,
                         waiting: seq<Item>, releasing: seq<Item>, flying: multiset<Item>, resting: multiset<Item>,
                         timers: set<Timer>, tickets: map<Handle, Ticket>, issued: seq<Login>)

  datatype Event =
    | Reset
    | Configure(uid: int, baseOk: bool)
    | Request(h: Handle, pathOk: bool)
    | Cancel(h: Handle)
    | Renew                                       // reconnected, or the periodic renewal
    | TokenArrives(uid: int, id: nat, token: Token)
    | Release
    | Finished(item: Item, code: int, failed: bool)
    | RetryFires(item: Item)
    | TimerFires(timer: Timer)

  const NO_ID := 0

  predicate Live(s: State, h: Handle) {
    h in s.tickets && !s.tickets[h].cancelled && s.tickets[h].generation == s.generation
  }

  function Called(s: State, h: Handle): State
    requires h in s.tickets
  {
    s.(tickets := s.tickets[h := s.tickets[h].(calls := s.tickets[h].calls + 1)])
  }

  /** Ids count from 1: the id just minted is the number of logins in `issued`. */
  function Renewed(s: State): State {
    if s.renewing || s.uid <= 0 then s
    else
      var id := |s.issued| + 1;
      s.(renewing := true, renewalId := id, issued := s.issued + [Login(s.generation, s.uid)],
         timers := s.timers + {RenewalTimeout(s.generation, id)})
  }

  /** The request is answered on the spot: signed out, bad endpoint, or too many waiting. */
  predicate Answers(s: State, h: Handle) {
    Live(s, h) && (s.uid <= 0 || !s.baseOk || !s.tickets[h].pathOk || (s.token == 0 && |s.waiting| >= MAX_WAITING))
  }

  /** The request function, from its check of the control object on. */
  function Issue(s: State, h: Handle, retry: nat): State
    requires h in s.tickets
  {
    if !Live(s, h) then s
    else if Answers(s, h) then Called(s, h)
    else if s.token == 0 then Renewed(s.(waiting := s.waiting + [Item(h, retry, s.generation)]))
    else
      s.(flying := s.flying + multiset{Item(h, retry, s.generation)},
         tickets := s.tickets[h := s.tickets[h].(sends := s.tickets[h].sends + 1)])
  }

  function ResetState(s: State): State {
    s.(generation := s.generation + 1, token := 0, waiting := [], renewing := false, uid := 0, baseOk := false, renewalId := NO_ID)
  }

  predicate TokenMatches(s: State, uid: int, id: nat) {
    s.renewing && s.uid > 0 && uid == s.uid && id == s.renewalId
  }

  function TokenTaken(s: State, uid: int, id: nat, token: Token): State {
    if !TokenMatches(s, uid, id) then s
    else if token == 0 then s.(renewing := false, token := 0, timers := s.timers + {RenewAgain(s.generation)})
    else s.(renewing := false, token := token, waiting := [], releasing := s.releasing + s.waiting)
  }

  predicate Retries(item: Item, code: int) {
    item.retry < MAX_RETRY && (code == 401 || code == 429 || code == 503 || code == 0)
  }

  function Finish(s: State, item: Item, code: int): State
    requires item.h in s.tickets
  {
    var s := s.(flying := s.flying - multiset{item});
    if item.generation != s.generation || s.tickets[item.h].cancelled then s
    else if Retries(item, code) then
      s.(token := if code == 401 then 0 else s.token,
         resting := s.resting + multiset{item.(retry := item.retry + 1)})
    else Called(s, item.h)
  }

  /** The status a callback gets: a failure never looks like a success. */
  function Reported(code: int, failed: bool): int {
    if code == 0 || (failed && code < 400) then 503 else code
  }

  lemma FailureIsReported(code: int, failed: bool)
    ensures Reported(code, failed) != 0
    ensures Reported(code, failed) < 400 ==> !failed && Reported(code, failed) == code
    ensures code >= 400 ==> Reported(code, failed) == code
  {
  }

  function TimerFired(s: State, t: Timer): State {
    var s := s.(timers := s.timers - {t});
    match t
    case RenewAgain(g) => if g == s.generation then Renewed(s) else s
    case RenewalTimeout(g, id) =>
      if g == s.generation && s.renewing && s.renewalId == id then Renewed(s.(renewing := false)) else s
  }

  predicate Enabled(s: State, e: Event) {
    match e
    case Request(h, _) => h !in s.tickets
    case Cancel(h) => h in s.tickets
    case Release => s.releasing != [] && s.releasing[0].h in s.tickets
    case Finished(item, _, _) => item in s.flying && item.h in s.tickets
    case RetryFires(item) => item in s.resting && item.h in s.tickets
    case TimerFires(t) => t in s.timers
    case _ => true
  }

  function Step(s: State, e: Event): State
    requires Enabled(s, e)
  {
    match e
    case Reset => ResetState(s)
    case Configure(uid, baseOk) => ResetState(s).(uid := uid, baseOk := baseOk)
    case Request(h, pathOk) => Issue(s.(tickets := s.tickets[h := Ticket(s.generation, false, pathOk, 0, 0)]), h, 0)
    case Cancel(h) => s.(tickets := s.tickets[h := s.tickets[h].(cancelled := true)])
    case Renew => Renewed(s)
    case TokenArrives(uid, id, token) => TokenTaken(s, uid, id, token)
    case Release => Issue(s.(releasing := s.releasing[1..]), s.releasing[0].h, s.releasing[0].retry)
    case Finished(item, code, _) => Finish(s, item, code)
    case RetryFires(item) =>
      var s := s.(resting := s.resting - multiset{item});
      if item.generation == s.generation && !s.tickets[item.h].cancelled then Issue(s, item.h, item.retry) else s
    case TimerFires(t) => TimerFired(s, t)
  }

  ghost predicate Next(s: State, e: Event, s': State) {
    Enabled(s, e) && s' == Step(s, e)
  }

  function Pending(s: State): multiset<Item> {
    multiset(s.waiting) + multiset(s.releasing) + s.flying + s.resting
  }

  /** A request is pending at most once. */
  ghost predicate Unique(p: multiset<Item>) {
    forall x, y :: x in p && y in p && x.h == y.h ==> x == y && p[x] == 1
  }

  /** A pending request has had no callback yet, and its retry number counts its sends. */
  predicate TrackedItem(s: State, x: Item) {
    && x.h in s.tickets && x.retry <= MAX_RETRY && x.generation == s.tickets[x.h].generation
    && s.tickets[x.h].calls == 0
    && s.tickets[x.h].sends == x.retry + (if x in s.flying then 1 else 0)
  }

  ghost predicate Tracked(s: State) {
    Unique(Pending(s)) && forall x :: x in Pending(s) ==> TrackedItem(s, x)
  }

  predicate InBounds(s: State) {
    && |s.waiting| <= MAX_WAITING
    && (forall h :: h in s.tickets ==>
          s.tickets[h].calls <= 1 && s.tickets[h].sends <= MAX_RETRY + 1 && s.tickets[h].generation <= s.generation)
  }

  ghost predicate Somewhere(p: multiset<Item>, h: Handle) {
    exists x :: x in p && x.h == h
  }

  predicate Awaited(s: State, h: Handle) {
    Live(s, h) && s.tickets[h].calls == 0
  }

  /** Whoever waits, waits for a renewal that a timer will repeat; and the renewal under way
      belongs to the present login. */
  predicate RenewalSound(s: State) {
    && (s.waiting != [] ==> s.token == 0 && s.uid > 0 && (s.renewing || RenewAgain(s.generation) in s.timers))
    && (s.renewing ==> 1 <= s.renewalId <= |s.issued| && s.issued[s.renewalId - 1] == Login(s.generation, s.uid)
                       && RenewalTimeout(s.generation, s.renewalId) in s.timers)
  }

  /** No live request is lost: its callback has come or it is still pending. */
  ghost predicate NoneLost(s: State) {
    forall h :: Awaited(s, h) ==> Somewhere(Pending(s), h)
  }

  ghost predicate Inv(s: State) {
    Tracked(s) && InBounds(s) && RenewalSound(s) && NoneLost(s)
  }

  /** The invariant while request `h` is in hand, pending nowhere. */
  ghost predicate InHand(s: State, h: Handle) {
    && Tracked(s) && InBounds(s) && RenewalSound(s)
    && (forall k :: Awaited(s, k) && k != h ==> Somewhere(Pending(s), k))
    && !Somewhere(Pending(s), h) && h in s.tickets && s.tickets[h].calls == 0
  }

  lemma UniqueTake(p: multiset<Item>, x: Item)
    requires Unique(p) && x in p
    ensures Unique(p - multiset{x}) && !Somewhere(p - multiset{x}, x.h)
    ensures forall k :: Somewhere(p, k) && k != x.h ==> Somewhere(p - multiset{x}, k)
  {
    forall k | Somewhere(p, k) && k != x.h ensures Somewhere(p - multiset{x}, k) {
      var y :| y in p && y.h == k;
      assert y in p - multiset{x};
    }
  }

  lemma UniquePut(p: multiset<Item>, x: Item)
    requires Unique(p) && !Somewhere(p, x.h)
    ensures Unique(p + multiset{x}) && Somewhere(p + multiset{x}, x.h)
    ensures forall k :: Somewhere(p, k) ==> Somewhere(p + multiset{x}, k)
  {
    assert x !in p;
    assert x in p + multiset{x};
    forall k | Somewhere(p, k) ensures Somewhere(p + multiset{x}, k) {
      var y :| y in p && y.h == k;
      assert y in p + multiset{x};
    }
  }

  /** Taking a continuation from where it is pending. */
  lemma Take(s: State, t: State, x: Item)
    requires Inv(s) && x in Pending(s) && Pending(t) == Pending(s) - multiset{x}
    requires t == s.(releasing := t.releasing, flying := t.flying, resting := t.resting)
    requires forall y :: y in Pending(t) ==> (y in t.flying <==> y in s.flying)
    ensures InHand(t, x.h) && t.tickets[x.h].sends == x.retry + (if x in s.flying then 1 else 0)
  {
    hide Unique, Somewhere, Pending;
    UniqueTake(Pending(s), x);
    assert TrackedItem(s, x);
    forall y | y in Pending(t) ensures TrackedItem(t, y) {
      assert y in Pending(s);
      assert TrackedItem(s, y);
    }
    forall k | Awaited(t, k) && k != x.h ensures Somewhere(Pending(t), k) {
      assert Awaited(s, k);
    }
  }

  /** ... and putting it, or its successor, somewhere. */
  lemma Put(s: State, t: State, x: Item)
    requires InHand(s, x.h) && Pending(t) == Pending(s) + multiset{x}
    requires t.generation == s.generation && x.h in t.tickets && t.tickets == s.tickets[x.h := t.tickets[x.h]]
    requires TrackedItem(t, x) && InBounds(t) && RenewalSound(t)
    requires forall y :: y in Pending(s) ==> (y in t.flying <==> y in s.flying)
    ensures Inv(t)
  {
    hide Unique, Somewhere, Pending;
    UniquePut(Pending(s), x);
    forall y | y in Pending(t) ensures TrackedItem(t, y) {
      if y != x {
        assert TrackedItem(s, y);
        NotElsewhere(Pending(s), y, x.h);
      }
    }
    forall k | Awaited(t, k) ensures Somewhere(Pending(t), k) {
      if k != x.h {
        assert Awaited(s, k);
      }
    }
  }

  lemma NotElsewhere(p: multiset<Item>, y: Item, h: Handle)
    requires y in p && !Somewhere(p, h)
    ensures y.h != h
  {
  }

  lemma NotFlying(s: State, x: Item)
    requires !Somewhere(Pending(s), x.h)
    ensures x !in s.flying
  {
    assert x in s.flying ==> x in Pending(s);
  }

  /** The request in hand gets its callback. */
  lemma CallKeeps(s: State, h: Handle)
    requires InHand(s, h)
    ensures Inv(Called(s, h))
  {
    hide Unique, Somewhere, Pending;
    var t := Called(s, h);
    SamePending(s, t);
    forall y | y in Pending(t) ensures TrackedItem(t, y) {
      assert TrackedItem(s, y);
      NotElsewhere(Pending(s), y, h);
    }
    forall k | Awaited(t, k) ensures Somewhere(Pending(t), k) {
      assert Awaited(s, k);
    }
  }

  lemma SamePending(s: State, t: State)
    requires t == s.(tickets := t.tickets)
    ensures Pending(t) == Pending(s)
  {
  }

  /** A cancelled or outdated request is dropped. */
  lemma DropKeeps(s: State, h: Handle)
    requires InHand(s, h) && !Live(s, h)
    ensures Inv(s)
  {
  }

  lemma RenewedSound(s: State)
    requires s.waiting != [] ==> s.token == 0 && s.uid > 0
    requires s.renewing ==> RenewalSound(s.(waiting := []))
    ensures RenewalSound(Renewed(s)) && Pending(Renewed(s)) == Pending(s)
  {
  }

  lemma WaitKeeps(s: State, h: Handle, retry: nat)
    requires InHand(s, h) && Live(s, h) && retry <= MAX_RETRY && s.tickets[h].sends == retry
    requires s.uid > 0 && s.token == 0 && |s.waiting| < MAX_WAITING
    ensures Inv(Renewed(s.(waiting := s.waiting + [Item(h, retry, s.generation)])))
  {
    var x := Item(h, retry, s.generation);
    var w := s.(waiting := s.waiting + [x]);
    var t := Renewed(w);
    RenewedSound(w);
    assert multiset(w.waiting) == multiset(s.waiting) + multiset{x};
    NotFlying(s, x);
    Put(s, t, x);
  }

  lemma SendKeeps(s: State, h: Handle, retry: nat)
    requires InHand(s, h) && Live(s, h) && retry <= MAX_RETRY && s.tickets[h].sends == retry
    ensures Inv(s.(flying := s.flying + multiset{Item(h, retry, s.generation)},
                   tickets := s.tickets[h := s.tickets[h].(sends := s.tickets[h].sends + 1)]))
  {
    hide Unique, Somewhere;
    var x := Item(h, retry, s.generation);
    var t := s.(flying := s.flying + multiset{x}, tickets := s.tickets[h := s.tickets[h].(sends := s.tickets[h].sends + 1)]);
    forall y | y in Pending(s) ensures y in t.flying <==> y in s.flying {
      NotElsewhere(Pending(s), y, h);
    }
    Put(s, t, x);
  }

  lemma IssueKeeps(s: State, h: Handle, retry: nat)
    requires InHand(s, h) && retry <= MAX_RETRY && s.tickets[h].sends == retry
    ensures Inv(Issue(s, h, retry))
  {
    hide Inv, InHand;
    InHandTicket(s, h);
    if !Live(s, h) {
      DropKeeps(s, h);
    } else if Answers(s, h) {
      CallKeeps(s, h);
    } else if s.token == 0 {
      WaitKeeps(s, h, retry);
    } else {
      SendKeeps(s, h, retry);
    }
  }

  lemma InHandTicket(s: State, h: Handle)
    requires InHand(s, h)
    ensures h in s.tickets
  {
  }

  lemma RequestKeeps(s: State, h: Handle, pathOk: bool)
    requires Inv(s) && h !in s.tickets
    ensures Inv(Step(s, Request(h, pathOk)))
  {
    hide Unique, Issue;
    var t := s.(tickets := s.tickets[h := Ticket(s.generation, false, pathOk, 0, 0)]);
    SamePending(s, t);
    forall y | y in Pending(t) ensures TrackedItem(t, y) && y.h != h {
      assert TrackedItem(s, y);
    }
    forall k | Awaited(t, k) && k != h ensures Somewhere(Pending(t), k) {
      assert Awaited(s, k);
    }
    IssueKeeps(t, h, 0);
  }

  lemma Released(s: State)
    requires s.releasing != []
    ensures var x := s.releasing[0];
            x in Pending(s) && Pending(s.(releasing := s.releasing[1..])) == Pending(s) - multiset{x}
  {
    var x := s.releasing[0];
    assert s.releasing == [x] + s.releasing[1..];
    assert multiset(s.releasing) == multiset{x} + multiset(s.releasing[1..]);
  }

  lemma ReleaseKeeps(s: State)
    requires Inv(s) && Enabled(s, Release)
    ensures Inv(Step(s, Release))
  {
    hide Unique, Issue, Somewhere, Pending, RenewalSound, InBounds, NoneLost;
    var x, t := s.releasing[0], s.(releasing := s.releasing[1..]);
    Released(s);
    assert TrackedItem(s, x);
    Once(s, x);
    Take(s, t, x);
    IssueKeeps(t, x.h, x.retry);
  }

  /** A request is in one place only. */
  lemma Once(s: State, x: Item)
    requires Unique(Pending(s)) && x in Pending(s)
    ensures (if x in s.waiting then 1 else 0) + (if x in s.releasing then 1 else 0)
            + (if x in s.flying then 1 else 0) + (if x in s.resting then 1 else 0) == 1
    ensures s.flying[x] <= 1 && s.resting[x] <= 1
  {
    assert Pending(s)[x] == multiset(s.waiting)[x] + multiset(s.releasing)[x] + s.flying[x] + s.resting[x];
    assert x in s.waiting <==> x in multiset(s.waiting);
    assert x in s.releasing <==> x in multiset(s.releasing);
  }

  lemma LandKeeps(s: State, x: Item)
    requires Inv(s) && x in s.flying
    ensures InHand(s.(flying := s.flying - multiset{x}), x.h)
    ensures x.h in s.tickets && s.tickets[x.h].sends == x.retry + 1 && x.generation == s.tickets[x.h].generation && x.retry <= MAX_RETRY
  {
    hide Unique, Pending, Somewhere;
    var t := s.(flying := s.flying - multiset{x});
    FlyingOnce(s, x);
    assert TrackedItem(s, x);
    Take(s, t, x);
  }

  lemma FlyingOnce(s: State, x: Item)
    requires Unique(Pending(s)) && x in s.flying
    ensures x in Pending(s)
    ensures var t := s.(flying := s.flying - multiset{x});
            Pending(t) == Pending(s) - multiset{x} && forall y :: y in Pending(t) ==> (y in t.flying <==> y in s.flying)
  {
    var t := s.(flying := s.flying - multiset{x});
    assert x in Pending(s);
    Once(s, x);
    assert Pending(t) == Pending(s) - multiset{x} && Pending(t)[x] == 0;
  }

  lemma RestKeeps(s: State, x: Item, token: Token)
    requires InHand(s, x.h) && x.generation == s.tickets[x.h].generation && 1 <= x.retry <= MAX_RETRY && s.tickets[x.h].sends == x.retry
    requires token == 0 || token == s.token
    ensures Inv(s.(token := token, resting := s.resting + multiset{x}))
  {
    var t := s.(token := token, resting := s.resting + multiset{x});
    NotFlying(s, x);
    Put(s, t, x);
  }

  lemma FinishKeeps(s: State, x: Item, code: int)
    requires Inv(s) && x in s.flying && x.h in s.tickets
    ensures Inv(Finish(s, x, code))
  {
    hide Inv, InHand;
    var t := s.(flying := s.flying - multiset{x});
    LandKeeps(s, x);
    if !Live(t, x.h) {
      DropKeeps(t, x.h);
    } else if Retries(x, code) {
      RestKeeps(t, x.(retry := x.retry + 1), if code == 401 then 0 else t.token);
    } else {
      CallKeeps(t, x.h);
    }
  }

  lemma RetryKeeps(s: State, x: Item)
    requires Inv(s) && Enabled(s, RetryFires(x))
    ensures Inv(Step(s, RetryFires(x)))
  {
    hide Unique, Issue;
    var t := s.(resting := s.resting - multiset{x});
    assert x in Pending(s) && TrackedItem(s, x);
    Once(s, x);
    Take(s, t, x);
    if x.generation == t.generation && !t.tickets[x.h].cancelled {
      IssueKeeps(t, x.h, x.retry);
    } else {
      DropKeeps(t, x.h);
    }
  }

  /** Steps that touch neither tickets nor which requests are pending. */
  lemma SameRequests(s: State, t: State)
    requires Inv(s) && Pending(t) == Pending(s) && t.tickets == s.tickets && t.generation == s.generation && t.flying == s.flying
    requires |t.waiting| <= |s.waiting| && RenewalSound(t)
    ensures Inv(t)
  {
    hide Unique, Somewhere, Pending;
    forall y | y in Pending(t) ensures TrackedItem(t, y) {
      assert TrackedItem(s, y);
    }
    forall k | Awaited(t, k) ensures Somewhere(Pending(t), k) {
      assert Awaited(s, k);
    }
  }

  lemma TokenKeeps(s: State, uid: int, id: nat, token: Token)
    requires Inv(s)
    ensures Inv(TokenTaken(s, uid, id, token))
  {
    hide Tracked, NoneLost, InBounds;
    var t := TokenTaken(s, uid, id, token);
    assert multiset(s.releasing + s.waiting) == multiset(s.releasing) + multiset(s.waiting);
    SameRequests(s, t);
  }

  lemma TimerSound(s: State, timer: Timer)
    requires RenewalSound(s)
    ensures var t := TimerFired(s, timer);
            RenewalSound(t) && t == s.(timers := t.timers, renewing := t.renewing, renewalId := t.renewalId, issued := t.issued)
  {
    var u := s.(timers := s.timers - {timer});
    if timer.RenewAgain? && timer.generation == s.generation {
      RenewedSound(u);
    } else if timer.RenewalTimeout? && timer.generation == s.generation && s.renewing && s.renewalId == timer.id {
      RenewedSound(u.(renewing := false));
    }
  }

  lemma TimerKeeps(s: State, timer: Timer)
    requires Inv(s)
    ensures Inv(TimerFired(s, timer))
  {
    hide Tracked, NoneLost, InBounds, RenewalSound, TimerFired;
    TimerSound(s, timer);
    SameRequests(s, TimerFired(s, timer));
  }

  lemma ResetKeeps(s: State, uid: int, baseOk: bool)
    requires Inv(s)
    ensures Inv(ResetState(s).(uid := uid, baseOk := baseOk))
  {
    hide Unique, Pending, Somewhere;
    var t := ResetState(s).(uid := uid, baseOk := baseOk);
    FewerUnique(s, t);
    forall y | y in Pending(t) ensures TrackedItem(t, y) {
      assert y in Pending(s) && TrackedItem(s, y);
    }
  }

  lemma FewerUnique(s: State, t: State)
    requires Unique(Pending(s)) && t.waiting == [] && t.releasing == s.releasing && t.flying == s.flying && t.resting == s.resting
    ensures Unique(Pending(t)) && forall y :: y in Pending(t) ==> y in Pending(s)
  {
    assert Pending(s) == Pending(t) + multiset(s.waiting);
  }

  lemma CancelKeeps(s: State, h: Handle)
    requires Inv(s) && h in s.tickets
    ensures Inv(Step(s, Cancel(h)))
  {
    hide Unique, Somewhere, Pending;
    var t := Step(s, Cancel(h));
    SamePending(s, t);
    forall y | y in Pending(t) ensures TrackedItem(t, y) {
      assert TrackedItem(s, y);
    }
    forall k | Awaited(t, k) ensures Somewhere(Pending(t), k) {
      assert Awaited(s, k);
    }
  }

  lemma StepKeeps(s: State, e: Event, s': State)
    requires Inv(s) && Next(s, e, s')
    ensures Inv(s')
  {
    hide Inv;
    match e
    case Reset => ResetKeeps(s, 0, false);
    case Configure(uid, baseOk) => ResetKeeps(s, uid, baseOk);
    case Request(h, pathOk) => RequestKeeps(s, h, pathOk);
    case Cancel(h) => CancelKeeps(s, h);
    case Renew => RenewKeeps(s);
    case TokenArrives(uid, id, token) => TokenKeeps(s, uid, id, token);
    case Release => ReleaseKeeps(s);
    case Finished(item, code, _) => FinishKeeps(s, item, code);
    case RetryFires(item) => RetryKeeps(s, item);
    case TimerFires(t) => TimerKeeps(s, t);
  }

  lemma RenewKeeps(s: State)
    requires Inv(s)
    ensures Inv(Renewed(s))
  {
    RenewedSound(s);
    SameRequests(s, Renewed(s));
  }

  type Run = seq<Transition<Event, State>>

  const Initial := State(0, 0, false, 0, false, NO_ID, [], [], multiset{}, multiset{}, {}, map[], [])

  lemma InitialInv()
    ensures Inv(Initial)
  {
  }

  lemma RunKeeps(s: State, run: Run)
    requires Inv(s) && IsRun(Next, s, run)
    ensures Inv(Final(s, run))
  {
    hide Inv, Next;
    forall a, e, b | Inv(a) && Next(a, e, b) ensures Inv(b) { StepKeeps(a, e, b); }
    InvariantHolds(Next, Inv, s, run);
  }

  /** Over every order of events: one callback and six sends per request at most, 64 waiting. */
  lemma AtMostOneCallback(run: Run, h: Handle)
    requires IsRun(Next, Initial, run) && h in Final(Initial, run).tickets
    ensures var t := Final(Initial, run);
            t.tickets[h].calls <= 1 && t.tickets[h].sends <= 6 && |t.waiting| <= 64
  {
    InitialInv();
    RunKeeps(Initial, run);
  }

  /** Request `h` is over: what it did stays all it does. */
  predicate Silent(s: State, h: Handle, calls: nat, sends: nat) {
    h in s.tickets && !Live(s, h) && s.tickets[h].calls == calls && s.tickets[h].sends == sends && s.tickets[h].generation <= s.generation
  }

  lemma IssueLeavesOthers(s: State, k: Handle, retry: nat, h: Handle)
    requires k in s.tickets && h in s.tickets && (k != h || !Live(s, h))
    ensures var t := Issue(s, k, retry); h in t.tickets && t.tickets[h] == s.tickets[h] && t.generation == s.generation
  {
  }

  lemma TicketsUntouched(s: State, e: Event)
    requires e.Reset? || e.Configure? || e.Renew? || e.TokenArrives? || (e.TimerFires? && e.timer in s.timers)
    ensures Step(s, e).tickets == s.tickets && Step(s, e).generation >= s.generation
  {
  }

  lemma FinishLeavesOthers(s: State, x: Item, code: int, h: Handle)
    requires Inv(s) && x in s.flying && x.h in s.tickets && h in s.tickets && !Live(s, h)
    ensures var t := Finish(s, x, code); h in t.tickets && t.tickets[h] == s.tickets[h] && t.generation == s.generation
  {
    hide Inv;
    FlyingTicket(s, x);
  }

  lemma FlyingTicket(s: State, x: Item)
    requires Inv(s) && x in s.flying
    ensures x.h in s.tickets && x.generation == s.tickets[x.h].generation
  {
    assert x in Pending(s) && TrackedItem(s, x);
  }

  lemma StepStaysSilent(s: State, e: Event, t: State, h: Handle, calls: nat, sends: nat)
    requires Inv(s) && Next(s, e, t) && Silent(s, h, calls, sends)
    ensures Silent(t, h, calls, sends)
  {
    hide Issue, Inv, Finish, TimerFired, Renewed, TokenTaken, ResetState;
    match e
    case Request(k, pathOk) =>
      IssueLeavesOthers(s.(tickets := s.tickets[k := Ticket(s.generation, false, pathOk, 0, 0)]), k, 0, h);
    case Release =>
      IssueLeavesOthers(s.(releasing := s.releasing[1..]), s.releasing[0].h, s.releasing[0].retry, h);
    case RetryFires(x) =>
      IssueLeavesOthers(s.(resting := s.resting - multiset{x}), x.h, x.retry, h);
    case Finished(x, code, _) => FinishLeavesOthers(s, x, code, h);
    case Cancel(_) =>
    case _ => TicketsUntouched(s, e);
  }

  /** Nothing after cancel or reset: once a request is cancelled, or its account generation is
      past, no further callback and no further network send happens for it, for ever. */
  lemma SilentForEver(s: State, run: Run, h: Handle)
    requires Inv(s) && IsRun(Next, s, run) && h in s.tickets && !Live(s, h)
    ensures var t := Final(s, run);
            h in t.tickets && !Live(t, h) && t.tickets[h].calls == s.tickets[h].calls && t.tickets[h].sends == s.tickets[h].sends
  {
    var calls, sends := s.tickets[h].calls, s.tickets[h].sends;
    var over := (a: State) => Inv(a) && Silent(a, h, calls, sends);
    SilentNow(s, h);
    SilentRun(over, s, run, h, calls, sends);
  }

  lemma SilentNow(s: State, h: Handle)
    requires Inv(s) && h in s.tickets && !Live(s, h)
    ensures Silent(s, h, s.tickets[h].calls, s.tickets[h].sends)
  {
  }

  lemma SilentRun(over: State -> bool, s: State, run: Run, h: Handle, calls: nat, sends: nat)
    requires over == ((a: State) => Inv(a) && Silent(a, h, calls, sends))
    requires over(s) && IsRun(Next, s, run)
    ensures Silent(Final(s, run), h, calls, sends)
  {
    hide Inv, Next, Silent, IsRun;
    forall a, e, b | over(a) && Next(a, e, b) ensures over(b) {
      StepKeeps(a, e, b);
      StepStaysSilent(a, e, b, h, calls, sends);
    }
    InvariantHolds(Next, over, s, run);
  }

  /** No request is forgotten: a live one without its callback is pending in exactly one place,
      and something can happen there; if it waits for a credential, a renewal timer is running. */
  lemma NeverForgotten(s: State, h: Handle) returns (x: Item)
    requires Inv(s) && Awaited(s, h)
    ensures x.h == h && x in Pending(s) && Pending(s)[x] == 1
    ensures x in s.flying ==> forall code, failed :: Enabled(s, Finished(x, code, failed))
    ensures x in s.resting ==> Enabled(s, RetryFires(x))
    ensures s.releasing != [] ==> Enabled(s, Release)
    ensures x in s.waiting ==> RenewAgain(s.generation) in s.timers || RenewalTimeout(s.generation, s.renewalId) in s.timers
  {
    hide Inv, Pending, Unique;
    x := PendingItem(s, h);
    if s.releasing != [] {
      ReleaseReady(s);
    }
    if x in s.waiting {
      WaitersHaveTimer(s);
    }
  }

  lemma PendingItem(s: State, h: Handle) returns (x: Item)
    requires Inv(s) && Awaited(s, h)
    ensures x.h == h && x in Pending(s) && Pending(s)[x] == 1 && x.h in s.tickets
  {
    assert Somewhere(Pending(s), h);
    x :| x in Pending(s) && x.h == h;
    assert TrackedItem(s, x);
  }

  lemma WaitersHaveTimer(s: State)
    requires Inv(s) && s.waiting != []
    ensures RenewAgain(s.generation) in s.timers || RenewalTimeout(s.generation, s.renewalId) in s.timers
  {
  }

  /** The account generation and the renewal log only grow. */
  ghost predicate Onward(s: State, t: State) {
    s.generation <= t.generation && s.issued <= t.issued
  }

  lemma StepOnward(s: State, e: Event, t: State)
    requires Next(s, e, t)
    ensures Onward(s, t)
  {
    hide Issue;
    match e
    case Request(h, pathOk) => IssueOnward(s.(tickets := s.tickets[h := Ticket(s.generation, false, pathOk, 0, 0)]), h, 0);
    case Release => IssueOnward(s.(releasing := s.releasing[1..]), s.releasing[0].h, s.releasing[0].retry);
    case RetryFires(x) => IssueOnward(s.(resting := s.resting - multiset{x}), x.h, x.retry);
    case _ =>
  }

  lemma IssueOnward(s: State, h: Handle, retry: nat)
    requires h in s.tickets
    ensures Onward(s, Issue(s, h, retry))
  {
  }

  /** A token is taken only for the login that asked for it. */
  lemma TokenIsForThisLogin(s: State, uid: int, id: nat)
    requires Inv(s) && TokenMatches(s, uid, id)
    ensures 1 <= id <= |s.issued| && s.issued[id - 1] == Login(s.generation, uid)
  {
  }

  /** A token asked for under an earlier login changes nothing, however late it arrives and
      whatever happened in between. */
  lemma LateTokenIgnored(s: State, run: Run, uid: int, id: nat, token: Token)
    requires Inv(s) && IsRun(Next, s, run) && 1 <= id <= |s.issued|
    requires s.issued[id - 1].generation != Final(s, run).generation
    ensures TokenTaken(Final(s, run), uid, id, token) == Final(s, run)
  {
    hide Inv, Next;
    var t := Final(s, run);
    forall a, e, b | Inv(a) && Next(a, e, b) ensures Inv(b) && Onward(a, b) {
      StepKeeps(a, e, b);
      StepOnward(a, e, b);
    }
    RelationHolds(Next, Inv, Onward, s, run);
    if TokenMatches(t, uid, id) {
      TokenIsForThisLogin(t, uid, id);
    }
  }

  /** All requests a token released, issued in order. */
  function ReleaseAll(s: State): State
    decreases |s.releasing|
  {
    if !Enabled(s, Release) then s
    else
      var t := Step(s, Release);
      assert t.releasing == s.releasing[1..];
      ReleaseAll(t)
  }

  class Gate {
    var generation: nat
    var uid: int
    var baseOk: bool
    var token: Token
    var renewing: bool
    var renewalId: nat
    var waiting: seq<Item>
    var releasing: seq<Item>
    var flying: multiset<Item>
    var resting: multiset<Item>
    var timers: set<Timer>
    var tickets: map<Handle, Ticket>
    var issued: seq<Login>

    ghost function Current(): State
      reads this
    {
      State(generation, uid, baseOk, token, renewing, renewalId, waiting, releasing, flying, resting, timers, tickets, issued)
    }

    constructor ()
      ensures Current() == Initial && Inv(Current())
    {
      generation, uid, baseOk, token, renewing, renewalId := 0, 0, false, 0, false, NO_ID;
      waiting, releasing, flying, resting, timers, tickets, issued := [], [], multiset{}, multiset{}, {}, map[], [];
    }

    method ResetAccount()
      requires Inv(Current())
      modifies this
      ensures Inv(Current()) && Current() == Step(old(Current()), Reset)
    {
      hide Inv;
      ResetKeeps(Current(), 0, false);
      generation := generation + 1;
      token, waiting, renewing := 0, [], false;
      uid, baseOk, renewalId := 0, false, NO_ID;
    }

    method RenewCredential()
      modifies this
      ensures Current() == Renewed(old(Current()))
    {
      if renewing || uid <= 0 {
        return;
      }
      renewing, renewalId := true, |issued| + 1;
      issued := issued + [Login(generation, uid)];
      timers := timers + {RenewalTimeout(generation, renewalId)};
    }

    method IssueRequest(h: Handle, retry: nat) returns (callback: bool)
      requires h in tickets
      modifies this
      ensures Current() == Issue(old(Current()), h, retry)
      ensures callback <==> Answers(old(Current()), h)
    {
      hide Renewed;
      callback := false;
      var t := tickets[h];
      if t.cancelled || t.generation != generation {
        return;
      }
      if uid <= 0 || !baseOk || !t.pathOk || (token == 0 && |waiting| >= MAX_WAITING) {
        tickets := tickets[h := t.(calls := t.calls + 1)];
        return true;
      }
      if token == 0 {
        waiting := waiting + [Item(h, retry, generation)];
        RenewCredential();
        return;
      }
      flying := flying + multiset{Item(h, retry, generation)};
      tickets := tickets[h := t.(sends := t.sends + 1)];
    }

    /** A new request gets its own control object, of the present generation. */
    method StartRequest(h: Handle, pathOk: bool) returns (callback: bool)
      requires Inv(Current()) && h !in tickets
      modifies this
      ensures Inv(Current()) && Current() == Step(old(Current()), Request(h, pathOk))
    {
      hide Inv, Issue;
      RequestKeeps(Current(), h, pathOk);
      tickets := tickets[h := Ticket(generation, false, pathOk, 0, 0)];
      callback := IssueRequest(h, 0);
    }

    method CancelRequest(h: Handle)
      requires Inv(Current()) && h in tickets
      modifies this
      ensures Inv(Current()) && Current() == Step(old(Current()), Cancel(h))
    {
      hide Inv;
      CancelKeeps(Current(), h);
      tickets := tickets[h := tickets[h].(cancelled := true)];
    }

    method RetryTimer(x: Item)
      requires Inv(Current()) && x in resting && x.h in tickets
      modifies this
      ensures Inv(Current()) && Current() == Step(old(Current()), RetryFires(x))
    {
      hide Inv, Issue;
      RetryKeeps(Current(), x);
      resting := resting - multiset{x};
      if x.generation == generation && !tickets[x.h].cancelled {
        var _ := IssueRequest(x.h, x.retry);
      }
    }

    /** A renewal timer only acts on the login and the renewal it was set for. */
    method RenewalTimer(t: Timer)
      requires Inv(Current()) && t in timers
      modifies this
      ensures Inv(Current()) && Current() == Step(old(Current()), TimerFires(t))
    {
      hide Inv, Renewed;
      TimerKeeps(Current(), t);
      timers := timers - {t};
      match t
      case RenewAgain(g) =>
        if g == generation {
          RenewCredential();
        }
      case RenewalTimeout(g, id) =>
        if g == generation && renewing && renewalId == id {
          renewing := false;
          RenewCredential();
        }
    }

    /** A token response: taken only if it answers the renewal under way, and then everything
        that waited is issued. */
    method TokenArrived(forUid: int, id: nat, value: Token)
      requires Inv(Current())
      modifies this
      ensures Inv(Current()) && Current() == if TokenMatches(old(Current()), forUid, id) && value != 0
                                             then ReleaseAll(TokenTaken(old(Current()), forUid, id, value))
                                             else TokenTaken(old(Current()), forUid, id, value)
    {
      hide Inv, ReleaseAll, Issue;
      TokenKeeps(Current(), forUid, id, value);
      if !renewing || uid <= 0 || forUid != uid || id != renewalId {
        return;
      }
      renewing, token := false, value;
      if token == 0 {
        timers := timers + {RenewAgain(generation)};
        return;
      }
      releasing, waiting := releasing + waiting, [];
      ghost var start := Current();
      while releasing != []
        invariant Inv(Current()) && ReleaseAll(Current()) == ReleaseAll(start)
        decreases |releasing|
      {
        ghost var before := Current();
        ReleaseReady(before);
        ReleaseKeeps(before);
        ReleaseAllUnfolds(before);
        var x := releasing[0];
        releasing := releasing[1..];
        var _ := IssueRequest(x.h, x.retry);
        IssueKeepsReleasing(before.(releasing := before.releasing[1..]), x.h, x.retry);
      }
      ReleaseAllUnfolds(Current());
    }

    /** A network reply ended; yields the status its callback gets, if it gets one. */
    method ReplyFinished(x: Item, code: int, failed: bool) returns (callback: seq<int>)
      requires Inv(Current()) && x in flying && x.h in tickets
      modifies this
      ensures Inv(Current()) && Current() == Finish(old(Current()), x, code)
      ensures callback == if x.generation == generation && !old(tickets)[x.h].cancelled && !Retries(x, code)
                          then [Reported(code, failed)] else []
    {
      hide Inv, Finish;
      FinishKeeps(Current(), x, code);
      FinishUnfolds(Current(), x, code);
      callback := [];
      flying := flying - multiset{x};
      if x.generation != generation || tickets[x.h].cancelled {
        return;
      }
      if x.retry < MAX_RETRY && (code == 401 || code == 429 || code == 503 || code == 0) {
        if code == 401 {
          token := 0;
        }
        resting := resting + multiset{x.(retry := x.retry + 1)};
        return;
      }
      tickets := tickets[x.h := tickets[x.h].(calls := tickets[x.h].calls + 1)];
      callback := [if code == 0 || (failed && code < 400) then 503 else code];
    }
  }

  lemma FinishUnfolds(s: State, x: Item, code: int)
    requires x.h in s.tickets
    ensures var landed := s.flying - multiset{x};
            if x.generation != s.generation || s.tickets[x.h].cancelled then Finish(s, x, code) == s.(flying := landed)
            else if Retries(x, code) then
              Finish(s, x, code) == s.(flying := landed, token := if code == 401 then 0 else s.token,
                                       resting := s.resting + multiset{x.(retry := x.retry + 1)})
            else
              Finish(s, x, code) == s.(flying := landed, tickets := s.tickets[x.h := s.tickets[x.h].(calls := s.tickets[x.h].calls + 1)])
  {
  }

  lemma ReleaseReady(s: State)
    requires Inv(s) && s.releasing != []
    ensures Enabled(s, Release)
  {
    Released(s);
    assert TrackedItem(s, s.releasing[0]);
  }

  lemma ReleaseAllUnfolds(s: State)
    ensures ReleaseAll(s) == if Enabled(s, Release) then ReleaseAll(Step(s, Release)) else s
  {
  }

  lemma IssueKeepsReleasing(s: State, h: Handle, retry: nat)
    requires h in s.tickets
    ensures Issue(s, h, retry).releasing == s.releasing
  {
  }
}
