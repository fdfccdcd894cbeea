/** The redelivery window of one session and the pass that sends what is due. */
module Delivery {
  import opened Messages

  /** Times are steady-clock nanoseconds. */
  const SECOND := 1_000_000_000
  const CAPACITY := 32
  const MAX_IDLE_SECONDS := 30

  datatype Attempt = Attempt(count: nat, next: int)

  type Window = map<Key, Attempt>

  /** Five seconds doubled for every earlier attempt, at most eightfold. */
  function Gap(count: nat): int {
    5 * SECOND * (if count == 0 then 1 else if count == 1 then 2 else if count == 2 then 4 else 8)
  }

  function Count(window: Window, k: Key): nat {
    if k in window then window[k].count else 0
  }

  /** Only entries that are still pending survive. */
  function Reconciled(window: Window, page: seq<Key>): Window {
    map k | k in window && k in page :: window[k]
  }

  predicate Due(window: Window, k: Key, now: int) {
    k !in window || now >= window[k].next
  }

  function Sent(window: Window, k: Key, now: int): Window {
    window[k := Attempt(Min(Count(window, k) + 1, 4), now + Gap(Count(window, k)))]
  }

  class DeliveryWindow {
    var attempts: Window

    constructor ()
      ensures attempts == map[]
    {
      attempts := map[];
    }

    method Reconcile(page: seq<Key>)
      modifies this
      ensures attempts == Reconciled(old(attempts), page)
    {
      var keys: set<Key> := {};
      for i := 0 to |page|
        invariant attempts == old(attempts)
        invariant keys == Elements(page[..i])
      {
        assert page[..i + 1] == page[..i] + [page[i]];
        keys := keys + {page[i]};
      }
      assert page[..|page|] == page;
      var rest := attempts.Keys;
      while rest != {}
        invariant rest <= attempts.Keys
        invariant attempts == map k | k in old(attempts) && (k in page || k in rest) :: old(attempts)[k]
        decreases |rest|
      {
        var k :| k in rest;
        if k !in keys {
          attempts := attempts - {k};
        }
        rest := rest - {k};
      }
    }

    /** Called only after the bounded socket queue accepted the message. */
    method MarkSent(k: Key, now: int) returns (retry: bool)
      modifies this
      ensures attempts == Sent(old(attempts), k, now)
      ensures retry <==> Count(old(attempts), k) != 0
    {
      var attempt := if k in attempts then attempts[k] else Attempt(0, 0);
      retry := attempt.count != 0;
      attempts := attempts[k := Attempt(Min(attempt.count + 1, 4), now + Gap(attempt.count))];
    }
  }

  /** One pass over a page: keys that are not due are skipped, and the pass stops when the
      socket queue refuses a frame, which it does after `room` of them. */
  function Pass(window: Window, page: seq<Key>, now: int, room: nat): (r: (Window, seq<Key>))
    decreases page
  {
    if page == [] then (window, [])
    else if !Due(window, page[0], now) then Pass(window, page[1..], now, room)
    else if room == 0 then (window, [])
    else
      var (after, sent) := Pass(Sent(window, page[0], now), page[1..], now, room - 1);
      (after, [page[0]] + sent)
  }

  ghost predicate Distinct(page: seq<Key>) {
    forall i, j :: 0 <= i < j < |page| ==> page[i] != page[j]
  }

  /** The keys of a page that are due, in page order. */
  function DueKeys(window: Window, page: seq<Key>, now: int): seq<Key> {
    if page == [] then []
    else (if Due(window, page[0], now) then [page[0]] else []) + DueKeys(window, page[1..], now)
  }

  lemma {:induction false} DueKeysOfOthers(window: Window, page: seq<Key>, now: int, k: Key, at: int)
    requires k !in page
    ensures DueKeys(Sent(window, k, at), page, now) == DueKeys(window, page, now)
  {
    if page != [] {
      DueKeysOfOthers(window, page[1..], now, k, at);
    }
  }

  /** A pass sends the due keys in order until the queue is full ... */
  lemma {:induction false} PassSendsDueKeys(window: Window, page: seq<Key>, now: int, room: nat)
    requires Distinct(page)
    ensures var due := DueKeys(window, page, now);
            Pass(window, page, now, room).1 == due[..Min(room, |due|)]
    decreases page
  {
    if page != [] {
      var k, rest := page[0], page[1..];
      assert k !in rest;
      if !Due(window, k, now) {
        PassSendsDueKeys(window, rest, now, room);
      } else if room > 0 {
        DueKeysOfOthers(window, rest, now, k, now);
        PassSendsDueKeys(Sent(window, k, now), rest, now, room - 1);
      }
    }
  }

  /** ... reschedules exactly those, and leaves every other entry alone. */
  lemma {:induction false} PassReschedules(window: Window, page: seq<Key>, now: int, room: nat, k: Key)
    requires Distinct(page)
    ensures var (after, sent) := Pass(window, page, now, room);
            if k in sent then k in page && k in after && after[k] == Sent(window, k, now)[k]
            else (k in after <==> k in window) && (k in window ==> after[k] == window[k])
    decreases page
  {
    if page != [] {
      var rest := page[1..];
      assert page[0] !in rest;
      if !Due(window, page[0], now) {
        PassReschedules(window, rest, now, room, k);
      } else if room > 0 {
        PassReschedules(Sent(window, page[0], now), rest, now, room - 1, k);
      }
    }
  }

  /** After a successful query the window holds keys of the current page only, so at most 32. */
  lemma WindowBounded(window: Window, page: seq<Key>, now: int, room: nat)
    requires Distinct(page) && |page| <= CAPACITY
    ensures Pass(Reconciled(window, page), page, now, room).0.Keys <= Elements(page)
    ensures |Pass(Reconciled(window, page), page, now, room).0| <= CAPACITY
  {
    var after := Pass(Reconciled(window, page), page, now, room).0;
    forall k | k in after ensures k in page {
      PassReschedules(Reconciled(window, page), page, now, room, k);
    }
    DistinctElements(page);
    SubsetSize(after.Keys, Elements(page));
  }

  lemma {:induction false} SubsetSize<T>(a: set<T>, b: set<T>)
    requires a <= b
    ensures |a| <= |b|
  {
    var rest := b - a;
    assert b == a + rest;
  }

  /** One delivery pass as the scheduler makes it; `page` is None when the query failed. */
  datatype Turn = Turn(page: Option<seq<Key>>, now: int, room: nat)

  function AfterTurn(window: Window, turn: Turn): Window {
    if turn.page.None? then window
    else Pass(Reconciled(window, turn.page.value), turn.page.value, turn.now, turn.room).0
  }

  function SentInTurn(window: Window, turn: Turn): seq<Key> {
    if turn.page.None? then []
    else Pass(Reconciled(window, turn.page.value), turn.page.value, turn.now, turn.room).1
  }

  /** When `k` is sent over a sequence of turns. */
  function SendTimes(window: Window, turns: seq<Turn>, k: Key): (times: seq<int>)
    decreases turns
  {
    if turns == [] then []
    else (if k in SentInTurn(window, turns[0]) then [turns[0].now] else []) + SendTimes(AfterTurn(window, turns[0]), turns[1..], k)
  }

  predicate Lists(turn: Turn, k: Key) {
    turn.page.Some? && k in turn.page.value
  }

  predicate Omits(turn: Turn, k: Key) {
    turn.page.Some? && k !in turn.page.value
  }

  ghost predicate WellFormed(turns: seq<Turn>) {
    forall t :: t in turns && t.page.Some? ==> Distinct(t.page.value)
  }

  ghost predicate NeverListed(turns: seq<Turn>, k: Key) {
    forall i :: 0 <= i < |turns| ==> !Lists(turns[i], k)
  }

  /** Once a successful query omits `k`, none lists it any more. */
  ghost predicate Unbroken(turns: seq<Turn>, k: Key) {
    forall i, j :: 0 <= i < j < |turns| && Omits(turns[i], k) ==> !Lists(turns[j], k)
  }

  lemma TurnOf(window: Window, turn: Turn, k: Key)
    requires turn.page.Some? ==> Distinct(turn.page.value) && k in turn.page.value
    ensures k in SentInTurn(window, turn) ==> Due(window, k, turn.now) && k in AfterTurn(window, turn)
                                              && AfterTurn(window, turn)[k] == Sent(window, k, turn.now)[k]
    ensures k !in SentInTurn(window, turn) ==> (k in AfterTurn(window, turn) <==> k in window)
                                               && (k in window ==> AfterTurn(window, turn)[k] == window[k])
  {
    if turn.page.Some? {
      var page := turn.page.value;
      var start := Reconciled(window, page);
      PassSendsDueKeys(start, page, turn.now, turn.room);
      PassReschedules(start, page, turn.now, turn.room, k);
      if k in SentInTurn(window, turn) {
        DueKeysAreDue(start, page, turn.now, k);
      }
    }
  }

  lemma {:induction false} DueKeysAreDue(window: Window, page: seq<Key>, now: int, k: Key)
    requires k in DueKeys(window, page, now)
    ensures Due(window, k, now)
  {
    if !(Due(window, page[0], now) && k == page[0]) {
      DueKeysAreDue(window, page[1..], now, k);
    }
  }

  lemma {:induction false} NotListedNotSent(window: Window, turns: seq<Turn>, k: Key)
    requires WellFormed(turns) && NeverListed(turns, k)
    ensures SendTimes(window, turns, k) == []
    decreases turns
  {
    hide Pass, AfterTurn, SentInTurn, Reconciled, Distinct;
    if turns != [] {
      OmittedTurn(window, turns[0], k);
      assert forall i :: 0 <= i < |turns| - 1 ==> turns[1..][i] == turns[i + 1];
      NotListedNotSent(AfterTurn(window, turns[0]), turns[1..], k);
    }
  }

  /** A turn that does not list `k` does not send it; if its query succeeded, `k` is forgotten. */
  lemma OmittedTurn(window: Window, turn: Turn, k: Key)
    requires !Lists(turn, k) && (turn.page.Some? ==> Distinct(turn.page.value))
    ensures k !in SentInTurn(window, turn)
    ensures Omits(turn, k) ==> k !in AfterTurn(window, turn)
  {
    if turn.page.Some? {
      var page := turn.page.value;
      PassReschedules(Reconciled(window, page), page, turn.now, turn.room, k);
    }
  }

  lemma UnbrokenRest(turns: seq<Turn>, k: Key)
    requires turns != [] && WellFormed(turns) && Unbroken(turns, k)
    ensures WellFormed(turns[1..]) && Unbroken(turns[1..], k)
    ensures Omits(turns[0], k) ==> NeverListed(turns[1..], k)
  {
    forall i, j | 0 <= i < j < |turns[1..]| && Omits(turns[1..][i], k) ensures !Lists(turns[1..][j], k) {
      assert turns[1..][i] == turns[i + 1] && turns[1..][j] == turns[j + 1];
    }
    if Omits(turns[0], k) {
      forall i | 0 <= i < |turns[1..]| ensures !Lists(turns[1..][i], k) {
        assert turns[1..][i] == turns[i + 1];
      }
    }
  }

  /** The first send waits until the recorded time. */
  lemma {:induction false} FirstSendIsDue(window: Window, turns: seq<Turn>, k: Key)
    requires WellFormed(turns) && Unbroken(turns, k) && k in window && SendTimes(window, turns, k) != []
    ensures SendTimes(window, turns, k)[0] >= window[k].next
    decreases turns
  {
    hide Pass, AfterTurn, SentInTurn, Reconciled, Distinct, NeverListed, Unbroken;
    UnbrokenRest(turns, k);
    var after := AfterTurn(window, turns[0]);
    if Omits(turns[0], k) {
      OmittedTurn(window, turns[0], k);
      NotListedNotSent(after, turns[1..], k);
    } else {
      TurnOf(window, turns[0], k);
      if k !in SentInTurn(window, turns[0]) {
        FirstSendIsDue(after, turns[1..], k);
      }
    }
  }

  /** As long as no successful query omits a message and a later one lists it again, its sends are
      at least 5, 10, 20, 40, 40, ... seconds apart, failed queries and full socket queues
      included. */
  lemma {:induction false} RedeliveryBacksOff(window: Window, turns: seq<Turn>, k: Key, i: nat)
    requires WellFormed(turns) && Unbroken(turns, k) && i + 1 < |SendTimes(window, turns, k)| && Count(window, k) <= 4
    ensures var times := SendTimes(window, turns, k);
            times[i + 1] - times[i] >= Gap(Min(Count(window, k) + i, 4))
    decreases |turns|
  {
    hide Pass, AfterTurn, SentInTurn, Reconciled, Distinct, NeverListed, Unbroken;
    UnbrokenRest(turns, k);
    var after := AfterTurn(window, turns[0]);
    if Omits(turns[0], k) {
      OmittedTurn(window, turns[0], k);
      NotListedNotSent(after, turns[1..], k);
    } else {
      TurnOf(window, turns[0], k);
      if k !in SentInTurn(window, turns[0]) {
        RedeliveryBacksOff(after, turns[1..], k, i);
      } else if i == 0 {
        FirstSendIsDue(after, turns[1..], k);
      } else {
        RedeliveryBacksOff(after, turns[1..], k, i - 1);
      }
    }
  }

  /** One successful query without `k` forgets its backoff, so the next page that lists it, with
      room in the queue, sends it at whatever time that is. */
  lemma LeavingThePageResets(window: Window, without: Turn, again: Turn, k: Key)
    requires without.page.Some? && Distinct(without.page.value) && k !in without.page.value
    requires again.page.Some? && Distinct(again.page.value) && k in again.page.value && again.room >= |again.page.value|
    ensures k in SentInTurn(AfterTurn(window, without), again)
  {
    hide Pass, AfterTurn, SentInTurn, Reconciled, Distinct;
    OmittedTurn(window, without, k);
    FreshIsSent(AfterTurn(window, without), again, k);
  }

  /** A listed message that the window does not know is sent, given room. */
  lemma FreshIsSent(window: Window, turn: Turn, k: Key)
    requires Lists(turn, k) && Distinct(turn.page.value) && turn.room >= |turn.page.value| && k !in window
    ensures k in SentInTurn(window, turn)
  {
    var page := turn.page.value;
    PassSendsDueKeys(Reconciled(window, page), page, turn.now, turn.room);
    DueKeysComplete(Reconciled(window, page), page, turn.now, k);
  }

  /** A message is listed, then omitted by a successful query, then listed again. */
  ghost predicate Interrupted(pages: seq<Option<seq<Key>>>, k: Key) {
    exists a, b, c :: 0 <= a < b < c < |pages|
      && Shows(pages[a], k) && Hides(pages[b], k) && Shows(pages[c], k)
  }

  predicate Shows(page: Option<seq<Key>>, k: Key) {
    page.Some? && k in page.value
  }

  predicate Hides(page: Option<seq<Key>>, k: Key) {
    page.Some? && k !in page.value
  }

  /** Turns with these query answers, at times that do not run backwards. */
  ghost predicate TurnsOver(pages: seq<Option<seq<Key>>>, turns: seq<Turn>) {
    && |turns| == |pages|
    && (forall i :: 0 <= i < |turns| ==> turns[i].page == pages[i])
    && (forall i, j :: 0 <= i < j < |turns| ==> turns[i].now <= turns[j].now)
  }

  /** The promised gaps, in a session that starts with an empty window. */
  ghost predicate GapsHold(turns: seq<Turn>, k: Key) {
    var times := SendTimes(map[], turns, k);
    forall i :: 0 <= i && i + 1 < |times| ==> times[i + 1] - times[i] >= Gap(Min(i, 4))
  }

  lemma StillUnknown(window: Window, turn: Turn, k: Key)
    requires !Lists(turn, k) && (turn.page.Some? ==> Distinct(turn.page.value)) && k !in window
    ensures k !in AfterTurn(window, turn)
  {
    OmittedTurn(window, turn, k);
  }

  ghost predicate InterruptedTurns(turns: seq<Turn>, k: Key) {
    exists a, b, c :: 0 <= a < b < c < |turns| && Lists(turns[a], k) && Omits(turns[b], k) && Lists(turns[c], k)
  }

  lemma InterruptedRest(turns: seq<Turn>, k: Key)
    requires turns != []
    ensures InterruptedTurns(turns[1..], k) ==> InterruptedTurns(turns, k)
  {
    hide Lists, Omits;
    if InterruptedTurns(turns[1..], k) {
      var a, b, c :| 0 <= a < b < c < |turns[1..]| && Lists(turns[1..][a], k) && Omits(turns[1..][b], k) && Lists(turns[1..][c], k);
      assert Lists(turns[a + 1], k) && Omits(turns[b + 1], k) && Lists(turns[c + 1], k);
    }
  }

  lemma BrokenIsInterrupted(turns: seq<Turn>, k: Key)
    requires turns != [] && Lists(turns[0], k) && !Unbroken(turns, k)
    ensures InterruptedTurns(turns, k)
  {
    assert !Omits(turns[0], k);
    hide Lists, Omits;
    var b, c :| 0 <= b < c < |turns| && Omits(turns[b], k) && Lists(turns[c], k);
    assert 0 < b;
  }

  lemma {:induction false} UninterruptedBacksOff(window: Window, turns: seq<Turn>, k: Key, i: nat)
    requires WellFormed(turns) && !InterruptedTurns(turns, k) && k !in window && i + 1 < |SendTimes(window, turns, k)|
    ensures var times := SendTimes(window, turns, k); times[i + 1] - times[i] >= Gap(Min(i, 4))
    decreases turns
  {
    hide Pass, AfterTurn, SentInTurn, Reconciled, Distinct, InterruptedTurns, Unbroken;
    InterruptedRest(turns, k);
    if Lists(turns[0], k) {
      if !Unbroken(turns, k) {
        BrokenIsInterrupted(turns, k);
      }
      RedeliveryBacksOff(window, turns, k, i);
    } else {
      OmittedTurn(window, turns[0], k);
      StillUnknown(window, turns[0], k);
      UninterruptedBacksOff(AfterTurn(window, turns[0]), turns[1..], k, i);
    }
  }

  ghost predicate FullRoom(turns: seq<Turn>) {
    forall t :: t in turns && t.page.Some? ==> t.room >= |t.page.value|
  }

  lemma {:induction false} SentIfListed(window: Window, turns: seq<Turn>, k: Key, c: nat)
    requires WellFormed(turns) && FullRoom(turns) && k !in window && c < |turns| && Lists(turns[c], k)
    ensures SendTimes(window, turns, k) != []
    decreases turns
  {
    hide Pass, AfterTurn, SentInTurn, Reconciled, Distinct;
    if Lists(turns[0], k) {
      FreshIsSent(window, turns[0], k);
    } else {
      StillUnknown(window, turns[0], k);
      SentIfListed(AfterTurn(window, turns[0]), turns[1..], k, c - 1);
    }
  }

  lemma {:induction false} SentAfterForgetting(window: Window, turns: seq<Turn>, k: Key, b: nat, c: nat)
    requires WellFormed(turns) && FullRoom(turns) && b < c < |turns| && Omits(turns[b], k) && Lists(turns[c], k)
    ensures SendTimes(window, turns, k) != []
    decreases turns
  {
    hide Pass, AfterTurn, SentInTurn, Reconciled, Distinct;
    var after := AfterTurn(window, turns[0]);
    if b == 0 {
      OmittedTurn(window, turns[0], k);
      SentIfListed(after, turns[1..], k, c - 1);
    } else {
      SentAfterForgetting(after, turns[1..], k, b - 1, c - 1);
    }
  }

  /** A message that is listed, omitted and listed again is sent twice. */
  lemma {:induction false} SentTwice(window: Window, turns: seq<Turn>, k: Key, a: nat, b: nat, c: nat)
    requires WellFormed(turns) && FullRoom(turns) && k !in window && a < b < c < |turns|
    requires Lists(turns[a], k) && Omits(turns[b], k) && Lists(turns[c], k)
    ensures |SendTimes(window, turns, k)| >= 2
    decreases turns
  {
    hide Pass, AfterTurn, SentInTurn, Reconciled, Distinct;
    var after := AfterTurn(window, turns[0]);
    if Lists(turns[0], k) {
      FreshIsSent(window, turns[0], k);
      SentAfterForgetting(after, turns[1..], k, b - 1, c - 1);
    } else {
      StillUnknown(window, turns[0], k);
      SentTwice(after, turns[1..], k, a - 1, b - 1, c - 1);
    }
  }

  lemma {:induction false} SentAtTurnTimes(window: Window, turns: seq<Turn>, k: Key, now: int)
    requires forall t :: t in turns ==> t.now == now
    ensures forall x :: x in SendTimes(window, turns, k) ==> x == now
    decreases turns
  {
    hide Pass, AfterTurn, SentInTurn, Reconciled;
    if turns != [] {
      SentAtTurnTimes(AfterTurn(window, turns[0]), turns[1..], k, now);
    }
  }

  /** All turns at one instant, with room for everything. */
  function AtOnce(pages: seq<Option<seq<Key>>>): seq<Turn> {
    seq(|pages|, i requires 0 <= i < |pages| => Turn(pages[i], 0, if pages[i].Some? then |pages[i].value| else 0))
  }

  lemma AtOnceTurns(pages: seq<Option<seq<Key>>>)
    requires forall p :: p in pages && p.Some? ==> Distinct(p.value)
    ensures var turns := AtOnce(pages);
            && TurnsOver(pages, turns) && WellFormed(turns) && FullRoom(turns)
            && (forall t :: t in turns ==> t.now == 0)
  {
    hide Distinct;
    var turns := AtOnce(pages);
    forall t | t in turns && t.page.Some? ensures Distinct(t.page.value) {
      var i :| 0 <= i < |turns| && turns[i] == t;
      assert pages[i] in pages;
    }
  }

  lemma AtOncePage(pages: seq<Option<seq<Key>>>, k: Key, i: nat)
    requires i < |pages|
    ensures |AtOnce(pages)| == |pages|
    ensures Shows(pages[i], k) ==> Lists(AtOnce(pages)[i], k)
    ensures Hides(pages[i], k) ==> Omits(AtOnce(pages)[i], k)
  {
  }

  lemma ZeroGap(turns: seq<Turn>, k: Key)
    requires |SendTimes(map[], turns, k)| >= 2 && forall x :: x in SendTimes(map[], turns, k) ==> x == 0
    ensures !GapsHold(turns, k)
  {
    hide SendTimes;
    var times := SendTimes(map[], turns, k);
    assert times[0] in times && times[1] in times;
    assert times[0 + 1] - times[0] < Gap(Min(0, 4));
  }

  lemma InterruptedBreaksAGap(pages: seq<Option<seq<Key>>>, k: Key)
    requires (forall p :: p in pages && p.Some? ==> Distinct(p.value)) && Interrupted(pages, k)
    ensures TurnsOver(pages, AtOnce(pages)) && !GapsHold(AtOnce(pages), k)
  {
    hide SendTimes, Distinct, AtOnce, GapsHold, WellFormed, FullRoom, TurnsOver, Lists, Omits, Shows, Hides;
    AtOnceTurns(pages);
    var turns := AtOnce(pages);
    var a, b, c :| 0 <= a < b < c < |pages| && Shows(pages[a], k) && Hides(pages[b], k) && Shows(pages[c], k);
    AtOncePage(pages, k, a);
    AtOncePage(pages, k, b);
    AtOncePage(pages, k, c);
    SentTwice(map[], turns, k, a, b, c);
    SentAtTurnTimes(map[], turns, k, 0);
    ZeroGap(turns, k);
  }

  lemma PagesAndTurns(pages: seq<Option<seq<Key>>>, turns: seq<Turn>, k: Key)
    requires (forall p :: p in pages && p.Some? ==> Distinct(p.value)) && TurnsOver(pages, turns)
    ensures WellFormed(turns) && (InterruptedTurns(turns, k) ==> Interrupted(pages, k))
  {
    hide Distinct;
    forall t | t in turns && t.page.Some? ensures Distinct(t.page.value) {
      var i :| 0 <= i < |turns| && turns[i] == t;
      assert pages[i] in pages;
    }
    if InterruptedTurns(turns, k) {
      var a, b, c :| 0 <= a < b < c < |turns| && Lists(turns[a], k) && Omits(turns[b], k) && Lists(turns[c], k);
      assert Shows(pages[a], k) && Hides(pages[b], k) && Shows(pages[c], k);
    }
  }

  /** Exactly when the promise holds: given the answers of a session's queries, the gaps hold for
      every choice of times and socket room if and only if no successful answer between two
      listings of the message omits it. */
  lemma BackoffExactly(pages: seq<Option<seq<Key>>>, k: Key)
    requires forall p :: p in pages && p.Some? ==> Distinct(p.value)
    ensures !Interrupted(pages, k) <==> forall turns :: TurnsOver(pages, turns) ==> GapsHold(turns, k)
  {
    hide SendTimes, Distinct, Interrupted, InterruptedTurns, WellFormed, TurnsOver;
    if Interrupted(pages, k) {
      InterruptedBreaksAGap(pages, k);
    } else {
      forall turns | TurnsOver(pages, turns) ensures GapsHold(turns, k) {
        PagesAndTurns(pages, turns, k);
        var times := SendTimes(map[], turns, k);
        forall i | 0 <= i && i + 1 < |times| ensures times[i + 1] - times[i] >= Gap(Min(i, 4)) {
          UninterruptedBacksOff(map[], turns, k, i);
        }
      }
    }
  }

  lemma {:induction false} DueKeysComplete(window: Window, page: seq<Key>, now: int, k: Key)
    requires k in page && Due(window, k, now)
    ensures k in DueKeys(window, page, now) && |DueKeys(window, page, now)| <= |page|
  {
    if k in page[1..] {
      DueKeysComplete(window, page[1..], now, k);
    } else {
      DueKeysLength(window, page[1..], now);
    }
  }

  lemma {:induction false} DueKeysLength(window: Window, page: seq<Key>, now: int)
    ensures |DueKeys(window, page, now)| <= |page|
  {
    if page != [] {
      DueKeysLength(window, page[1..], now);
    }
  }

  lemma PassStarts(window: Window, page: seq<Key>, now: int, room: nat)
    ensures page[0..] == page && [] + Pass(window, page, now, room).1 == Pass(window, page, now, room).1
  {
    hide Pass;
  }

  /** One turn of the sending loop, before key `i`. */
  lemma PassTurn(window: Window, page: seq<Key>, i: nat, now: int, room: nat, sent: seq<Key>)
    requires i < |page|
    ensures var k, rest := page[i], Pass(window, page[i..], now, room);
            if !Due(window, k, now) then Pass(window, page[i + 1..], now, room) == rest
            else if room == 0 then rest.0 == window && sent + rest.1 == sent
            else var more := Pass(Sent(window, k, now), page[i + 1..], now, room - 1);
                 rest.0 == more.0 && sent + rest.1 == sent + [k] + more.1
  {
    assert page[i..][0] == page[i] && page[i..][1..] == page[i + 1..];
  }

  lemma PassEnds(window: Window, page: seq<Key>, now: int, room: nat, sent: seq<Key>)
    ensures var rest := Pass(window, page[|page|..], now, room); rest.0 == window && sent + rest.1 == sent
  {
    assert page[|page|..] == [];
  }

  class DeliveryState {
    const window: DeliveryWindow
    var next: int
    var idleSeconds: nat

    constructor ()
      ensures fresh(window) && window.attempts == map[] && idleSeconds == 1
    {
      window := new DeliveryWindow();
      next, idleSeconds := 0, 1;
    }

    /** Ask for one page and send what is due.  A failed query leaves the window as it was
        and only pushes the next attempt back. */
    method Deliver(page: Option<seq<Key>>, now: int, room: nat) returns (sent: seq<Key>, retries: nat)
      modifies this, window
      ensures window.attempts == AfterTurn(old(window.attempts), Turn(page, now, room))
      ensures sent == SentInTurn(old(window.attempts), Turn(page, now, room))
      ensures idleSeconds == if page.Some? && page.value != [] then 1 else Min(2 * old(idleSeconds), MAX_IDLE_SECONDS)
      ensures next == now + idleSeconds * SECOND
    {
      hide Pass, Sent;
      sent, retries := [], 0;
      if page.None? {
        idleSeconds := Min(idleSeconds * 2, MAX_IDLE_SECONDS);
        next := now + idleSeconds * SECOND;
        return;
      }
      window.Reconcile(page.value);
      idleSeconds := if page.value == [] then Min(idleSeconds * 2, MAX_IDLE_SECONDS) else 1;
      next := now + idleSeconds * SECOND;
      ghost var start := window.attempts;
      ghost var whole := Pass(start, page.value, now, room);
      PassStarts(start, page.value, now, room);
      for i := 0 to |page.value|
        invariant |sent| <= room
        invariant idleSeconds == if page.value != [] then 1 else Min(2 * old(idleSeconds), MAX_IDLE_SECONDS)
        invariant next == now + idleSeconds * SECOND
        invariant whole.0 == Pass(window.attempts, page.value[i..], now, room - |sent|).0
        invariant whole.1 == sent + Pass(window.attempts, page.value[i..], now, room - |sent|).1
      {
        var k := page.value[i];
        PassTurn(window.attempts, page.value, i, now, room - |sent|, sent);
        if k in window.attempts && now < window.attempts[k].next {
          continue;
        }
        if |sent| == room {
          return;
        }
        var retry := window.MarkSent(k, now);
        if retry {
          retries := retries + 1;
        }
        sent := sent + [k];
      }
      PassEnds(window.attempts, page.value, now, room - |sent|, sent);
    }
  }
}
