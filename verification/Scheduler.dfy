/** The rotating maintenance scan of one shard (`LogicSystem::Tick`).  Sessions are kept in
    key order; a session id is modelled as an integer with the same order. */
module Scheduler {

  const SCAN_LIMIT := 128
  const QUERY_LIMIT := 4

  ghost predicate Sorted(keys: seq<int>) {
    forall i, j :: 0 <= i < j < |keys| ==> keys[i] < keys[j]
  }

  /** The number of keys not above the cursor, i.e. the index `upper_bound` yields. */
  function UpperBound(keys: seq<int>, cursor: int): (i: nat)
    ensures i <= |keys|
  {
    if keys == [] || cursor < keys[0] then 0 else 1 + UpperBound(keys[1..], cursor)
  }

  lemma {:induction false} UpperBoundSplits(keys: seq<int>, cursor: int, i: nat)
    requires Sorted(keys) && i <= |keys|
    requires forall j :: 0 <= j < i ==> keys[j] <= cursor
    requires forall j :: i <= j < |keys| ==> cursor < keys[j]
    ensures UpperBound(keys, cursor) == i
  {
    if i > 0 {
      UpperBoundSplits(keys[1..], cursor, i - 1);
    }
  }

  /** The order in which the scan will meet the sessions: above the cursor first, then the rest. */
  function Rotation(keys: seq<int>, cursor: int): (order: seq<int>)
    ensures |order| == |keys|
  {
    var i := UpperBound(keys, cursor);
    keys[i..] + keys[..i]
  }

  /** The index of the next session to visit. */
  function NextIndex(keys: seq<int>, cursor: int): (p: nat)
    requires keys != []
    ensures p < |keys| && keys[p] == Rotation(keys, cursor)[0]
  {
    var i := UpperBound(keys, cursor);
    if i == |keys| then 0 else i
  }

  lemma RotationTail(keys: seq<int>, cursor: int)
    requires keys != []
    ensures var p := NextIndex(keys, cursor);
            Rotation(keys, cursor)[1..] == keys[p + 1..] + keys[..p]
  {
    var i := UpperBound(keys, cursor);
    if i == |keys| {
      assert keys[i..] + keys[..i] == keys;
    } else {
      assert (keys[i..] + keys[..i])[1..] == keys[i + 1..] + keys[..i];
    }
  }

  /** Visiting a session moves it from the front of the rotation to its back ... */
  lemma VisitRotates(keys: seq<int>, cursor: int)
    requires Sorted(keys) && keys != []
    ensures var h := keys[NextIndex(keys, cursor)];
            Rotation(keys, h) == Rotation(keys, cursor)[1..] + [h]
  {
    var p := NextIndex(keys, cursor);
    UpperBoundSplits(keys, keys[p], p + 1);
    RotationTail(keys, cursor);
    assert keys[..p + 1] == keys[..p] + [keys[p]];
  }

  /** ... and erasing a dead one takes it out. */
  lemma EraseRotates(keys: seq<int>, cursor: int)
    requires Sorted(keys) && keys != []
    ensures var p := NextIndex(keys, cursor);
            var rest := keys[..p] + keys[p + 1..];
            Sorted(rest) && Rotation(rest, keys[p]) == Rotation(keys, cursor)[1..]
  {
    var p := NextIndex(keys, cursor);
    RotationTail(keys, cursor);
    ErasedAt(keys, p);
  }

  lemma ErasedAt(keys: seq<int>, p: nat)
    requires Sorted(keys) && p < |keys|
    ensures var rest := keys[..p] + keys[p + 1..];
            Sorted(rest) && Rotation(rest, keys[p]) == keys[p + 1..] + keys[..p]
  {
    var rest := keys[..p] + keys[p + 1..];
    SortedRest(keys, p);
    UpperBoundSplits(rest, keys[p], p);
    assert rest[p..] == keys[p + 1..] && rest[..p] == keys[..p];
  }

  lemma SortedRest(keys: seq<int>, p: nat)
    requires Sorted(keys) && p < |keys|
    ensures var rest := keys[..p] + keys[p + 1..];
            && Sorted(rest)
            && (forall j :: 0 <= j < p ==> rest[j] <= keys[p])
            && (forall j :: p <= j < |rest| ==> keys[p] < rest[j])
  {
  }

  function Kept(visited: seq<int>, alive: set<int>): seq<int> {
    if visited == [] then []
    else Kept(visited[..|visited| - 1], alive) + (if visited[|visited| - 1] in alive then [visited[|visited| - 1]] else [])
  }

  lemma KeptOne(visited: seq<int>, key: int, alive: set<int>)
    ensures Kept(visited + [key], alive) == Kept(visited, alive) + (if key in alive then [key] else [])
  {
    assert (visited + [key])[..|visited|] == visited;
  }

  /** What one call does to the rotation: it visits the first `v` sessions, each once, drops
      the dead among them and moves the live ones to the back; `v` is at least four unless
      there are fewer sessions. */
  ghost predicate Ticked(order: seq<int>, alive: set<int>, v: nat, after: seq<int>) {
    && v <= |order|
    && (v >= QUERY_LIMIT || v == |order|)
    && after == order[v..] + Kept(order[..v], alive)
  }

  lemma ScanStep(order: seq<int>, visited: seq<int>, alive: set<int>, left: seq<int>, at: int)
    requires Sorted(left) && left != [] && |visited| < |order| && visited == order[..|visited|]
    requires Rotation(left, at) == order[|visited|..] + Kept(visited, alive)
    ensures var p := NextIndex(left, at);
            var key := left[p];
            var rest := left[..p] + left[p + 1..];
            && visited + [key] == order[..|visited| + 1]
            && Sorted(rest)
            && Rotation(if key in alive then left else rest, key) == order[|visited| + 1..] + Kept(visited + [key], alive)
  {
    var key := left[NextIndex(left, at)];
    VisitRotates(left, at);
    EraseRotates(left, at);
    QueueStep(order, visited, Kept(visited, alive), Rotation(left, at));
    KeptOne(visited, key, alive);
  }

  lemma QueueStep(order: seq<int>, visited: seq<int>, kept: seq<int>, queue: seq<int>)
    requires |visited| < |order| && visited == order[..|visited|] && queue == order[|visited|..] + kept
    ensures visited + [queue[0]] == order[..|visited| + 1] && queue[1..] == order[|visited| + 1..] + kept
  {
  }

  /** The scan: `alive` are the sessions that are open and current, `due` those whose next
      pass has come.  It stops after 128 sessions, after one whole turn, or after four deliveries. */
  method Scan(keys: seq<int>, cursor: int, alive: set<int>, due: set<int>)
    returns (left: seq<int>, at: int, visited: seq<int>, delivered: seq<int>)
    requires Sorted(keys)
    ensures Sorted(left)
    ensures |visited| <= |keys| && visited == Rotation(keys, cursor)[..|visited|] && |visited| <= SCAN_LIMIT
    ensures Ticked(Rotation(keys, cursor), alive, |visited|, Rotation(left, at))
    ensures delivered == Kept(visited, alive * due) && |delivered| <= QUERY_LIMIT
  {
    hide Rotation, Kept, NextIndex;
    ghost var order := Rotation(keys, cursor);
    ScanStart(order, alive, due);
    left, at, visited, delivered := keys, cursor, [], [];
    var budget := if |keys| < SCAN_LIMIT then |keys| else SCAN_LIMIT;
    while |visited| < budget && left != [] && |delivered| < QUERY_LIMIT
      invariant Sorted(left) && |visited| <= budget <= |order|
      invariant |delivered| <= QUERY_LIMIT && |delivered| <= |visited|
      invariant visited == order[..|visited|]
      invariant Rotation(left, at) == order[|visited|..] + Kept(visited, alive)
      invariant delivered == Kept(visited, alive * due)
    {
      var p := NextIndex(left, at);
      var key := left[p];
      ScanStep(order, visited, alive, left, at);
      KeptOne(visited, key, alive * due);
      visited := visited + [key];
      at := key;
      if key !in alive {
        left := left[..p] + left[p + 1..];
      } else if key in due {
        delivered := delivered + [key];
      }
    }
    ScanEnd(order, visited, alive, |Rotation(left, at)|);
  }

  lemma ScanStart(order: seq<int>, alive: set<int>, due: set<int>)
    ensures order[..0] == [] && order == order[0..] + Kept([], alive) && Kept([], alive * due) == []
  {
  }

  /** When nothing is left to scan, everything has been visited. */
  lemma ScanEnd(order: seq<int>, visited: seq<int>, alive: set<int>, left: nat)
    requires |visited| <= |order| && left == |order[|visited|..] + Kept(visited, alive)|
    ensures left == 0 ==> |visited| == |order|
  {
  }

  class Shard {
    var keys: seq<int>
    var cursor: int

    ghost predicate Valid()
      reads this
    {
      Sorted(keys)
    }

    constructor ()
      ensures Valid() && keys == []
    {
      keys, cursor := [], 0;
    }

    method Tick(alive: set<int>, due: set<int>) returns (visited: seq<int>, delivered: seq<int>)
      requires Valid()
      modifies this
      ensures Valid()
      ensures |visited| <= |old(keys)| && visited == Rotation(old(keys), old(cursor))[..|visited|]
      ensures Ticked(Rotation(old(keys), old(cursor)), alive, |visited|, Rotation(keys, cursor))
      ensures delivered == Kept(visited, alive * due) && |delivered| <= QUERY_LIMIT
    {
      var left, at;
      left, at, visited, delivered := Scan(keys, cursor, alive, due);
      keys, cursor := left, at;
    }
  }

  /** One call of a run: who was alive, how many sessions were visited, the rotation after it. */
  datatype Call = Call(alive: set<int>, visits: nat, after: seq<int>)

  ghost predicate TickRun(order: seq<int>, calls: seq<Call>)
    decreases calls
  {
    calls == [] || (Ticked(order, calls[0].alive, calls[0].visits, calls[0].after) && TickRun(calls[0].after, calls[1..]))
  }

  /** Some call of the run visits `key`. */
  ghost predicate Reached(order: seq<int>, calls: seq<Call>, key: int)
    requires TickRun(order, calls)
    decreases calls
  {
    calls != [] && (key in order[..calls[0].visits] || Reached(calls[0].after, calls[1..], key))
  }

  /** With no session added, a session that is `p` places away is visited within p / 4 + 1
      calls, whichever sessions die meanwhile. */
  lemma {:induction false} ReachedByDistance(order: seq<int>, calls: seq<Call>, p: nat)
    requires TickRun(order, calls) && p < |order| && |calls| >= p / QUERY_LIMIT + 1
    ensures Reached(order, calls, order[p])
    decreases calls
  {
    var v := calls[0].visits;
    if p < v {
      assert order[p] == order[..v][p];
    } else {
      assert calls[0].after[p - v] == order[p];
      ReachedByDistance(calls[0].after, calls[1..], p - v);
    }
  }

  /** Fairness: ceil(n / 4) calls visit every session that was there at the start. */
  lemma EverySessionReached(order: seq<int>, calls: seq<Call>, key: int)
    requires TickRun(order, calls) && key in order
    requires |calls| >= (|order| + QUERY_LIMIT - 1) / QUERY_LIMIT
    ensures Reached(order, calls, key)
  {
    var p :| 0 <= p < |order| && order[p] == key;
    ReachedByDistance(order, calls, p);
  }

  lemma RotationDistinct(keys: seq<int>, cursor: int)
    requires Sorted(keys)
    ensures forall i, j :: 0 <= i < j < |keys| ==> Rotation(keys, cursor)[i] != Rotation(keys, cursor)[j]
    ensures forall k :: k in keys <==> k in Rotation(keys, cursor)
  {
    var i := UpperBound(keys, cursor);
    assert keys == keys[..i] + keys[i..];
  }
}
