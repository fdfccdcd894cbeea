/** The request budget of a connection.  Times and amounts are reals. */
module TokenBucket {

  datatype Bucket = Bucket(capacity: real, rate: real, tokens: real, last: real)

  predicate Valid(b: Bucket) {
    b.capacity > 0.0 && b.rate > 0.0 && 0.0 <= b.tokens <= b.capacity
  }

  /** The clock the bucket goes by: it never runs backwards. */
  function Clock(b: Bucket, now: real): real {
    if now > b.last then now else b.last
  }

  function Refilled(b: Bucket, now: real): Bucket {
    if now > b.last then
      var t := b.tokens + (now - b.last) * b.rate;
      b.(tokens := if t < b.capacity then t else b.capacity, last := now)
    else b
  }

  predicate Grants(b: Bucket, amount: real, now: real) {
    amount >= 0.0 && amount <= Refilled(b, now).tokens
  }

  function Consumed(b: Bucket, amount: real, now: real): Bucket {
    var r := Refilled(b, now);
    if Grants(b, amount, now) then r.(tokens := r.tokens - amount) else r
  }

  /** One call as the bucket saw it: its time and what it was granted. */
  datatype Call = Call(time: real, granted: real)

  function Total(log: seq<Call>): real {
    if log == [] then 0.0 else Total(log[..|log| - 1]) + log[|log| - 1].granted
  }

  /** The promise for a window: the capacity at once, then `rate` per second. */
  function Promise(capacity: real, rate: real, start: real, end: real): real {
    capacity + rate * (end - start)
  }

  /** What the promise still allows at time `t` of the window that opens with call `k`. */
  function Allowance(capacity: real, rate: real, log: seq<Call>, k: nat, t: real): real
    requires k < |log|
  {
    Promise(capacity, rate, log[k].time, t) - Total(log[k..])
  }

  /** The tokens are the least allowance over every window that ends now. */
  ghost predicate TokensAreLeastAllowance(b: Bucket, log: seq<Call>) {
    && (forall k :: 0 <= k < |log| ==> b.tokens <= Allowance(b.capacity, b.rate, log, k, b.last))
    && (log == [] ==> b.tokens == b.capacity)
    && (log != [] ==> exists k :: 0 <= k < |log| && b.tokens == Allowance(b.capacity, b.rate, log, k, b.last))
  }

  lemma TotalStep(log: seq<Call>, c: Call, k: nat)
    requires k <= |log|
    ensures Total((log + [c])[k..]) == Total(log[k..]) + c.granted
  {
    var s := (log + [c])[k..];
    assert s[..|s| - 1] == log[k..] && s[|s| - 1] == c;
  }

  /** A call lowers every open window by its grant. */
  lemma AllowanceStep(capacity: real, rate: real, log: seq<Call>, c: Call, k: nat)
    requires k < |log|
    ensures Allowance(capacity, rate, log + [c], k, c.time) == Allowance(capacity, rate, log, k, c.time) - c.granted
  {
    hide Promise;
    TotalStep(log, c, k);
  }

  lemma OwnWindow(capacity: real, rate: real, log: seq<Call>, c: Call)
    ensures Allowance(capacity, rate, log + [c], |log|, c.time) == capacity - c.granted
  {
    TotalStep(log, c, |log|);
    assert log[|log|..] == [];
    NoTime(capacity, rate, c.time);
  }

  lemma NoTime(capacity: real, rate: real, t: real)
    ensures Promise(capacity, rate, t, t) == capacity
  {
    assert t - t == 0.0;
  }

  lemma Distributes(rate: real, a: real, b: real, c: real)
    ensures rate * (c - a) == rate * (b - a) + rate * (c - b)
  {
    assert c - a == (b - a) + (c - b);
  }

  /** What the time since the last call adds. */
  function Gain(b: Bucket, now: real): real {
    b.rate * (Clock(b, now) - b.last)
  }

  lemma RefilledTokens(b: Bucket, now: real)
    requires Valid(b)
    ensures Gain(b, now) >= 0.0 && Refilled(b, now).last == Clock(b, now)
    ensures Refilled(b, now).tokens == if b.tokens + Gain(b, now) < b.capacity then b.tokens + Gain(b, now) else b.capacity
  {
  }

  lemma AllowanceGains(b: Bucket, log: seq<Call>, k: nat, now: real)
    requires k < |log|
    ensures Allowance(b.capacity, b.rate, log, k, Clock(b, now)) == Allowance(b.capacity, b.rate, log, k, b.last) + Gain(b, now)
  {
    Distributes(b.rate, log[k].time, b.last, Clock(b, now));
  }

  lemma ConsumedTokens(b: Bucket, amount: real, now: real)
    requires Valid(b)
    ensures var b' := Consumed(b, amount, now);
            var full := if b.tokens + Gain(b, now) < b.capacity then b.tokens + Gain(b, now) else b.capacity;
            && b'.capacity == b.capacity && b'.rate == b.rate && b'.last == Clock(b, now)
            && (Grants(b, amount, now) ==> 0.0 <= amount <= full && b'.tokens == full - amount)
            && (!Grants(b, amount, now) ==> b'.tokens == full)
  {
    RefilledTokens(b, now);
  }

  /** A refusal is forced, a grant never is: a request is granted exactly when it keeps the
      promise on every window, its own included. */
  lemma GrantedIffNoWindowBreaks(b: Bucket, log: seq<Call>, amount: real, now: real)
    requires Valid(b) && TokensAreLeastAllowance(b, log)
    ensures var t := Clock(b, now);
            Grants(b, amount, now) <==>
            && 0.0 <= amount <= b.capacity
            && (forall k :: 0 <= k < |log| ==> amount <= Allowance(b.capacity, b.rate, log, k, t))
  {
    hide Allowance, Gain, Refilled;
    RefilledTokens(b, now);
    forall k | 0 <= k < |log|
      ensures Allowance(b.capacity, b.rate, log, k, Clock(b, now)) == Allowance(b.capacity, b.rate, log, k, b.last) + Gain(b, now)
    {
      AllowanceGains(b, log, k, now);
    }
  }

  lemma ConsumeKeeps(b: Bucket, log: seq<Call>, amount: real, now: real)
    requires Valid(b) && TokensAreLeastAllowance(b, log)
    ensures var b' := Consumed(b, amount, now);
            var c := Call(b'.last, if Grants(b, amount, now) then amount else 0.0);
            Valid(b') && TokensAreLeastAllowance(b', log + [c])
  {
    hide Allowance, Gain, Consumed, Grants, Refilled, Clock;
    var b' := Consumed(b, amount, now);
    var c := Call(b'.last, if Grants(b, amount, now) then amount else 0.0);
    RefilledTokens(b, now);
    ConsumedTokens(b, amount, now);
    OwnWindow(b.capacity, b.rate, log, c);
    forall k | 0 <= k < |log|
      ensures Allowance(b.capacity, b.rate, log + [c], k, b'.last) == Allowance(b.capacity, b.rate, log, k, b.last) + Gain(b, now) - c.granted
    {
      AllowanceGains(b, log, k, now);
      AllowanceStep(b.capacity, b.rate, log, c, k);
    }
    if b.tokens + Gain(b, now) < b.capacity && log != [] {
      var k :| 0 <= k < |log| && b.tokens == Allowance(b.capacity, b.rate, log, k, b.last);
      assert b'.tokens == Allowance(b.capacity, b.rate, log + [c], k, b'.last);
    } else {
      assert b'.tokens == Allowance(b.capacity, b.rate, log + [c], |log|, b'.last);
    }
  }

  datatype Request = Request(amount: real, now: real)

  function LogOf(b: Bucket, requests: seq<Request>): seq<Call>
    decreases requests
  {
    if requests == [] then []
    else
      var r := requests[0];
      var b' := Consumed(b, r.amount, r.now);
      [Call(b'.last, if Grants(b, r.amount, r.now) then r.amount else 0.0)] + LogOf(b', requests[1..])
  }

  function After(b: Bucket, requests: seq<Request>): Bucket
    decreases requests
  {
    if requests == [] then b else After(Consumed(b, requests[0].amount, requests[0].now), requests[1..])
  }

  function New(capacity: real, rate: real, now: real): Bucket {
    Bucket(capacity, rate, capacity, now)
  }

  lemma {:induction false} RunKeeps(b: Bucket, log: seq<Call>, requests: seq<Request>)
    requires Valid(b) && TokensAreLeastAllowance(b, log)
    ensures Valid(After(b, requests)) && TokensAreLeastAllowance(After(b, requests), log + LogOf(b, requests))
    ensures After(b, requests).capacity == b.capacity && After(b, requests).rate == b.rate
    decreases requests
  {
    hide TokensAreLeastAllowance, Valid;
    if requests == [] {
      assert log + LogOf(b, requests) == log;
    } else {
      var r := requests[0];
      var b' := Consumed(b, r.amount, r.now);
      var c := Call(b'.last, if Grants(b, r.amount, r.now) then r.amount else 0.0);
      ConsumeKeeps(b, log, r.amount, r.now);
      RunKeeps(b', log + [c], requests[1..]);
      assert log + [c] + LogOf(b', requests[1..]) == log + LogOf(b, requests);
    }
  }

  lemma Fresh(capacity: real, rate: real, now: real)
    requires capacity > 0.0 && rate > 0.0
    ensures Valid(New(capacity, rate, now)) && TokensAreLeastAllowance(New(capacity, rate, now), [])
  {
  }

  lemma WindowBound(b: Bucket, log: seq<Call>, k: nat)
    requires Valid(b) && TokensAreLeastAllowance(b, log) && k < |log|
    ensures Total(log[k..]) <= Promise(b.capacity, b.rate, log[k].time, b.last)
  {
    hide Promise, Total;
    assert 0.0 <= b.tokens <= Allowance(b.capacity, b.rate, log, k, b.last);
  }

  /** In every window of every run, the grants total at most the capacity plus the rate times the
      window's length, whatever was asked and however the clock moved. */
  lemma RateBound(capacity: real, rate: real, start: real, requests: seq<Request>, k: nat)
    requires capacity > 0.0 && rate > 0.0 && k < |LogOf(New(capacity, rate, start), requests)|
    ensures var b := New(capacity, rate, start);
            var log := LogOf(b, requests);
            Total(log[k..]) <= Promise(capacity, rate, log[k].time, After(b, requests).last)
  {
    hide After, LogOf, Total, TokensAreLeastAllowance, Promise;
    var b := New(capacity, rate, start);
    Fresh(capacity, rate, start);
    RunKeeps(b, [], requests);
    assert [] + LogOf(b, requests) == LogOf(b, requests);
    WindowBound(After(b, requests), LogOf(b, requests), k);
  }

  /** After any run, a further request is granted exactly when granting it would break the bound
      on no window: the limiter is as generous as its promise allows. */
  lemma GrantedExactly(capacity: real, rate: real, start: real, requests: seq<Request>, amount: real, now: real)
    requires capacity > 0.0 && rate > 0.0
    ensures var b := After(New(capacity, rate, start), requests);
            var log := LogOf(New(capacity, rate, start), requests);
            Grants(b, amount, now) <==>
            && 0.0 <= amount <= capacity
            && (forall k :: 0 <= k < |log| ==> Total(log[k..]) + amount <= Promise(capacity, rate, log[k].time, Clock(b, now)))
  {
    hide After, LogOf, Total, Grants, TokensAreLeastAllowance, Promise;
    var b0 := New(capacity, rate, start);
    Fresh(capacity, rate, start);
    RunKeeps(b0, [], requests);
    var b, log := After(b0, requests), LogOf(b0, requests);
    assert [] + log == log;
    GrantedIffNoWindowBreaks(b, log, amount, now);
    forall k | 0 <= k < |log|
      ensures amount <= Allowance(capacity, rate, log, k, Clock(b, now))
              <==> Total(log[k..]) + amount <= Promise(capacity, rate, log[k].time, Clock(b, now)) {}
  }

  class Limiter {
    const capacity: real
    const rate: real
    var tokens: real
    var last: real

    function State(): Bucket
      reads this
    {
      Bucket(capacity, rate, tokens, last)
    }

    constructor (capacity: real, rate: real, now: real)
      requires capacity > 0.0 && rate > 0.0
      ensures State() == New(capacity, rate, now) && Valid(State())
    {
      this.capacity, this.rate, tokens, last := capacity, rate, capacity, now;
    }

    method Consume(amount: real, now: real) returns (ok: bool)
      requires Valid(State())
      modifies this
      ensures Valid(State()) && State() == Consumed(old(State()), amount, now)
      ensures ok <==> Grants(old(State()), amount, now)
    {
      RefilledTokens(State(), now);
      if now > last {
        var t := tokens + (now - last) * rate;
        tokens := if t < capacity then t else capacity;
        last := now;
      }
      if !(amount >= 0.0) || amount > tokens {
        return false;
      }
      tokens := tokens - amount;
      return true;
    }
  }
}
