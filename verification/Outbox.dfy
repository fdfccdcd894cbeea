/** When a client transmits one of its messages, over runs of the whole protocol. */
module Outbox {
  import opened Messages
  import opened Runs
  import opened TextProtocol
  import S = MessageStore

  /** The step writes a request frame that carries message `k` of its sender. */
  predicate Transmits(e: Event, k: Key) {
    e.Transmit? && e.uid == k.sender && k in KeysOf(e.uid, e.texts)
  }

  /** The times at which the run transmits `k`. */
  function TransmitTimes(run: Run, k: Key): seq<int> {
    if run == [] then []
    else (if Transmits(run[0].event, k) then [run[0].event.now] else []) + TransmitTimes(run[1..], k)
  }

  /** The sender's schedule for `k`; a message that is not stored yet is due at any time. */
  function Schedule(s: System, k: Key): S.Row {
    if k in StoreOf(s, k.sender) then StoreOf(s, k.sender)[k] else S.Row(0, "", S.Pending, 0, 0)
  }

  predicate SameSchedule(a: S.Row, b: S.Row) {
    a.nextAttempt == b.nextAttempt && a.attempts == b.attempts
  }

  lemma {:induction false} SendTimesOfSchedule(a: S.Row, b: S.Row, times: seq<int>)
    requires SameSchedule(a, b) && S.SendTimes(a, times)
    ensures S.SendTimes(b, times)
    decreases |times|
  {
    if times != [] {
      SendTimesOfSchedule(S.Retried(a, times[0]), S.Retried(b, times[0]), times[1..]);
    }
  }

  /** A transmission finds the message due and reschedules it; no other step, whoever takes it,
      touches the schedule of a stored message. */
  lemma StepSchedules(s: System, e: Event, s': System, k: Key)
    requires Next(s, e, s')
    ensures Transmits(e, k) ==> Schedule(s, k).nextAttempt <= e.now && SameSchedule(Schedule(s', k), S.Retried(Schedule(s, k), e.now))
    ensures !Transmits(e, k) ==> SameSchedule(Schedule(s', k), Schedule(s, k))
  {
    match e
    case Enqueue(uid, to, texts) => StoreSchedules(s, uid, uid, to, texts, s', k);
    case Receive(from, to, texts, _) => StoreSchedules(s, to, from, to, texts, s', k);
    case _ =>
  }

  lemma StoreSchedules(s: System, uid: int, from: int, to: int, texts: seq<Text>, s': System, k: Key)
    requires StoreStep(s, uid, from, to, texts, s')
    ensures SameSchedule(Schedule(s', k), Schedule(s, k))
  {
    if uid == k.sender && k in StoreOf(s', uid) && k !in StoreOf(s, uid) {
      var t :| t in texts && k == Key(from, t.id);
    }
  }

  lemma {:induction false} TransmitsFollowSchedule(s: System, run: Run, k: Key)
    requires IsRun(Next, s, run)
    ensures S.SendTimes(Schedule(s, k), TransmitTimes(run, k))
    decreases run
  {
    hide Next, Schedule, S.Retried;
    if run != [] {
      var e, t := run[0].event, run[0].after;
      var row, rest := Schedule(s, k), TransmitTimes(run[1..], k);
      StepSchedules(s, e, t, k);
      TransmitsFollowSchedule(t, run[1..], k);
      if Transmits(e, k) {
        SendTimesOfSchedule(Schedule(t, k), S.Retried(row, e.now), rest);
        assert ([e.now] + rest)[1..] == rest;
      } else {
        SendTimesOfSchedule(Schedule(t, k), row, rest);
        assert [] + rest == rest;
      }
    }
  }

  /** Over every run, with lost replies, restarts and a clock that may step back, a client's
      transmissions of one message are at least 5, 10, 20, 40, 60, 60, ... seconds apart. */
  lemma TransmissionsBackOff(run: Run, k: Key, i: nat)
    requires IsRun(Next, INITIAL, run) && i + 1 < |TransmitTimes(run, k)|
    ensures TransmitTimes(run, k)[i + 1] - TransmitTimes(run, k)[i] >= S.RetryDelay(Min(i, 5))
  {
    hide Next, IsRun, TransmitTimes, S.RetryDelay;
    TransmitsFollowSchedule(INITIAL, run, k);
    S.SendsBackOff(Schedule(INITIAL, k), TransmitTimes(run, k), i);
  }
}
