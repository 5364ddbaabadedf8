/**
 * The alerting rules of pkg/strategy/spreadmonitor/strategy.go. A spread check
 * (`compare`) fires only after its condition has held for longer than an
 * observation window; an alert (`throttledNotifier`) is sent at most once per
 * quiet period, into a message channel of 512 slots (`enqueueMessage`) that
 * never blocks the sender. The clock is an explicit `now`, in nanoseconds.
 */
module Alerts {
  import opened Wrappers
  import opened Durations

  /** `lessEqual(t)` and `greaterThan(t)`. */
  datatype Threshold = LessEqual(threshold: int) | GreaterThan(threshold: int)

  function Holds(p: Threshold, bps: int): (b: bool)
    ensures p.LessEqual? ==> (b <==> bps <= p.threshold)
    ensures p.GreaterThan? ==> (b <==> bps > p.threshold)
  {
    match p
    case LessEqual(t) => bps <= t
    case GreaterThan(t) => bps > t
  }

  /** The two checks against one threshold split every spread between them; the threshold itself is "less or equal". */
  lemma ThresholdsAreComplementary(t: int, bps: int)
    ensures Holds(LessEqual(t), bps) <==> !Holds(GreaterThan(t), bps)
    ensures Holds(LessEqual(t), t) && !Holds(GreaterThan(t), t)
  {
  }

  /** A check that holds for a spread holds for every spread further past the threshold. */
  lemma ThresholdsAreMonotone(p: Threshold, bps: int, further: int)
    requires Holds(p, bps)
    requires p.LessEqual? ==> further <= bps
    requires p.GreaterThan? ==> further >= bps
    ensures Holds(p, further)
  {
  }

  /** `time.Time.Sub`: the difference saturates at the ends of the int64 range. */
  function Sub(now: int, earlier: int): (d: int)
    ensures IsInt64(d)
    ensures IsInt64(now - earlier) ==> d == now - earlier
    ensures now - earlier > MaxInt64 ==> d == MaxInt64
    ensures now - earlier < MinInt64 ==> d == MinInt64
  {
    if now - earlier > MaxInt64 then MaxInt64
    else if now - earlier < MinInt64 then MinInt64
    else now - earlier
  }

  /**
   * Time elapsed since an optional instant. `None` is Go's zero `time.Time`,
   * some two thousand years back, so `now.Sub` of it saturates.
   */
  function Since(now: int, last: Option<int>): (d: int)
    ensures IsInt64(d)
    ensures last.None? ==> d == MaxInt64
  {
    match last
    case None => MaxInt64
    case Some(t) => Sub(now, t)
  }

  // ---- compare -------------------------------------------------------------

  /** One observation of the spread, and the decision whether to call back. */
  datatype Step = Step(start: Option<int>, alert: bool)

  function CompareStep(p: Threshold, observe: int, start: Option<int>, bps: int, now: int): (r: Step)
    ensures r.start.Some? <==> Holds(p, bps)
    ensures Holds(p, bps) && start.Some? ==> r.start == start
    ensures Holds(p, bps) && start.None? ==> r.start == Some(now)
    ensures r.alert <==> Holds(p, bps) && Sub(now, r.start.value) > observe
  {
    if Holds(p, bps) then
      var first := if start.None? then now else start.value;
      Step(Some(first), Sub(now, first) > observe)
    else Step(None, false)
  }

  /** A spread that fails the check closes the window and never calls back. */
  lemma CompareResets(p: Threshold, observe: int, start: Option<int>, bps: int, now: int)
    requires !Holds(p, bps)
    ensures CompareStep(p, observe, start, bps, now) == Step(None, false)
  {
  }

  /** The first spread that passes opens the window at `now`; with a non-negative window it is silent. */
  lemma CompareOpensWindow(p: Threshold, observe: int, bps: int, now: int)
    requires Holds(p, bps)
    ensures CompareStep(p, observe, None, bps, now).start == Some(now)
    ensures observe >= 0 ==> !CompareStep(p, observe, None, bps, now).alert
  {
  }

  /** While the spread keeps passing, the window's start stays put and the call back waits for it to age. */
  lemma CompareKeepsWindow(p: Threshold, observe: int, first: int, bps: int, now: int)
    requires Holds(p, bps)
    ensures CompareStep(p, observe, Some(first), bps, now).start == Some(first)
    ensures CompareStep(p, observe, Some(first), bps, now).alert <==> Sub(now, first) > observe
  {
  }

  datatype Observation = Observation(bps: int, now: int)

  /** The window's start after a run of observations from a fresh check. */
  function WindowStart(p: Threshold, obs: seq<Observation>): Option<int>
  {
    if obs == [] then None
    else
      var last := obs[|obs| - 1];
      CompareStep(p, 0, WindowStart(p, obs[..|obs| - 1]), last.bps, last.now).start
  }

  /** Whether the last of a run of observations calls back. */
  function Alerts(p: Threshold, observe: int, obs: seq<Observation>): bool
  {
    if obs == [] then false
    else
      var last := obs[|obs| - 1];
      CompareStep(p, observe, WindowStart(p, obs[..|obs| - 1]), last.bps, last.now).alert
  }

  /** Observations k and later all pass the check, and observation k - 1 (if any) fails it. */
  predicate TrailingRunFrom(p: Threshold, obs: seq<Observation>, k: nat)
  {
    k <= |obs| &&
    (forall j :: k <= j < |obs| ==> Holds(p, obs[j].bps)) &&
    (k == 0 || !Holds(p, obs[k - 1].bps))
  }

  /** The window is closed exactly when there is nothing observed or the last spread failed. */
  lemma WindowClosed(p: Threshold, obs: seq<Observation>)
    ensures WindowStart(p, obs).None? <==> obs == [] || !Holds(p, obs[|obs| - 1].bps)
  {
  }

  /** The window opened at the first observation of the latest unbroken run of passing spreads. */
  lemma {:induction false} WindowStartsAtTheRun(p: Threshold, obs: seq<Observation>, k: nat)
    requires k < |obs| && TrailingRunFrom(p, obs, k)
    ensures WindowStart(p, obs) == Some(obs[k].now)
  {
    var front := obs[..|obs| - 1];
    if k == |obs| - 1 {
      if k > 0 {
        WindowClosed(p, front);
        assert front[|front| - 1] == obs[k - 1];
      }
    } else {
      assert TrailingRunFrom(p, front, k) by {
        forall j | k <= j < |front| ensures Holds(p, front[j].bps) {
          assert front[j] == obs[j];
        }
        assert k > 0 ==> front[k - 1] == obs[k - 1];
      }
      WindowStartsAtTheRun(p, front, k);
      assert front[k] == obs[k];
    }
  }

  /**
   * The check calls back exactly when the spread has kept passing since the
   * start of the run for longer than the observation window.
   */
  lemma AlertMeansTheRunHasAged(p: Threshold, observe: int, obs: seq<Observation>, k: nat)
    requires k < |obs| && TrailingRunFrom(p, obs, k)
    ensures Alerts(p, observe, obs) <==> Sub(obs[|obs| - 1].now, obs[k].now) > observe
  {
    var front := obs[..|obs| - 1];
    if k == |obs| - 1 {
      if k > 0 {
        WindowClosed(p, front);
        assert front[|front| - 1] == obs[k - 1];
      }
    } else {
      assert TrailingRunFrom(p, front, k) by {
        forall j | k <= j < |front| ensures Holds(p, front[j].bps) {
          assert front[j] == obs[j];
        }
        assert k > 0 ==> front[k - 1] == obs[k - 1];
      }
      WindowStartsAtTheRun(p, front, k);
      assert front[k] == obs[k];
    }
  }

  /** A failed spread as the last observation never calls back. */
  lemma NoAlertAfterFailure(p: Threshold, observe: int, obs: seq<Observation>)
    requires obs != [] && !Holds(p, obs[|obs| - 1].bps)
    ensures !Alerts(p, observe, obs)
  {
  }

  /** The closure returned by `compare`: a captured window start and a check. */
  class Comparator {
    const Check: Threshold
    const ObserveDuration: int
    var firstAlertTime: Option<int>

    constructor(p: Threshold, observeDuration: int)
      ensures Check == p && ObserveDuration == observeDuration
      ensures firstAlertTime.None?
    {
      Check := p;
      ObserveDuration := observeDuration;
      firstAlertTime := None;
    }

    /** One call of the closure; `alert` says whether the callback runs. */
    method Observe(spreadBps: int, now: int) returns (alert: bool)
      modifies this
      ensures Step(firstAlertTime, alert) == CompareStep(Check, ObserveDuration, old(firstAlertTime), spreadBps, now)
    {
      alert := false;
      if Holds(Check, spreadBps) {
        if firstAlertTime.None? {
          firstAlertTime := Some(now);
        }
        if Sub(now, firstAlertTime.value) > ObserveDuration {
          alert := true;
        }
      } else {
        firstAlertTime := None;
      }
    }
  }

  // ---- enqueueMessage ------------------------------------------------------

  /** `make(chan message, 512)` */
  const ChannelCapacity: nat := 512

  datatype Message = Message(channelName: string, msg: string)

  /** A non-blocking send: it goes in when there is room, and is dropped otherwise. */
  function Offer(buffer: seq<Message>, m: Message): (r: (seq<Message>, bool))
    ensures r.1 <==> |buffer| < ChannelCapacity
    ensures r.1 ==> r.0 == buffer + [m]
    ensures !r.1 ==> r.0 == buffer
  {
    if |buffer| < ChannelCapacity then (buffer + [m], true) else (buffer, false)
  }

  /** A channel holding n < 512 messages accepts 512 - n more, then refuses. */
  function OfferAll(buffer: seq<Message>, ms: seq<Message>): seq<Message>
  {
    if ms == [] then buffer else Offer(OfferAll(buffer, ms[..|ms| - 1]), ms[|ms| - 1]).0
  }

  lemma {:induction false} OfferAllKeepsThePrefix(buffer: seq<Message>, ms: seq<Message>)
    requires |buffer| <= ChannelCapacity
    ensures |OfferAll(buffer, ms)| == if |buffer| + |ms| <= ChannelCapacity then |buffer| + |ms| else ChannelCapacity
    ensures OfferAll(buffer, ms) == (buffer + ms)[..|OfferAll(buffer, ms)|]
  {
    if ms != [] {
      var front := ms[..|ms| - 1];
      OfferAllKeepsThePrefix(buffer, front);
      var b := OfferAll(buffer, front);
      assert buffer + ms == (buffer + front) + [ms[|ms| - 1]];
      if |b| < ChannelCapacity {
        assert b + [ms[|ms| - 1]] == (buffer + ms)[..|b| + 1];
      }
    }
  }

  /** The notifier's buffered channel. */
  class MessageQueue {
    var buffer: seq<Message>

    predicate Valid()
      reads this
    {
      |buffer| <= ChannelCapacity
    }

    constructor()
      ensures buffer == [] && Valid()
    {
      buffer := [];
    }

    /** `enqueueMessage`: `ok` is false where the source returns "msg channel is full". */
    method Enqueue(m: Message) returns (ok: bool)
      requires Valid()
      modifies this
      ensures Valid()
      ensures (buffer, ok) == Offer(old(buffer), m)
    {
      if |buffer| < ChannelCapacity {
        buffer := buffer + [m];
        ok := true;
      } else {
        ok := false;
      }
    }

    /** The receiving end in the notifier loop: the oldest message, when there is one. */
    method Receive() returns (m: Option<Message>)
      requires Valid()
      modifies this
      ensures Valid()
      ensures old(buffer) == [] ==> m.None? && buffer == []
      ensures old(buffer) != [] ==> m == Some(old(buffer)[0]) && buffer == old(buffer)[1..]
    {
      if buffer == [] {
        m := None;
      } else {
        m := Some(buffer[0]);
        buffer := buffer[1..];
      }
    }
  }

  // ---- throttledNotifier ---------------------------------------------------

  datatype NotifierState = NotifierState(lastNotifyTime: Option<int>, buffer: seq<Message>)

  function NotifyStep(quiet: int, s: NotifierState, m: Message, now: int): (r: NotifierState)
    ensures r == s || (r.lastNotifyTime == Some(now) && r.buffer == s.buffer + [m])
    ensures r != s <==> Since(now, s.lastNotifyTime) > quiet && |s.buffer| < ChannelCapacity
    ensures |s.buffer| <= ChannelCapacity ==> |r.buffer| <= ChannelCapacity
  {
    if Since(now, s.lastNotifyTime) > quiet then
      var (buffer, ok) := Offer(s.buffer, m);
      if ok then NotifierState(Some(now), buffer) else s
    else s
  }

  /** Within the quiet period after the last alert, nothing is sent and nothing changes. */
  lemma NotifyIsQuiet(quiet: int, s: NotifierState, m: Message, now: int)
    requires Since(now, s.lastNotifyTime) <= quiet
    ensures NotifyStep(quiet, s, m, now) == s
  {
  }

  /**
   * The alert clock moves only with a message actually queued: a changed state
   * is always the message appended and `now` recorded, and that happens only
   * past the quiet period with room in the channel.
   */
  lemma NotifyAdvancesOnlyOnSend(quiet: int, s: NotifierState, m: Message, now: int)
    ensures NotifyStep(quiet, s, m, now) != s ==>
      NotifyStep(quiet, s, m, now) == NotifierState(Some(now), s.buffer + [m])
    ensures NotifyStep(quiet, s, m, now).buffer != s.buffer <==>
      Since(now, s.lastNotifyTime) > quiet && |s.buffer| < ChannelCapacity
  {
  }

  /** A full channel drops the alert but leaves the quiet period unstarted, so the next one tries again. */
  lemma FullChannelKeepsClock(quiet: int, s: NotifierState, m: Message, now: int)
    requires |s.buffer| >= ChannelCapacity
    ensures NotifyStep(quiet, s, m, now) == s
  {
  }

  /** The first alert of a fresh notifier goes out unless the quiet period is the largest duration. */
  lemma FirstAlertIsSent(quiet: int, buffer: seq<Message>, m: Message, now: int)
    requires quiet < MaxInt64 && |buffer| < ChannelCapacity
    ensures NotifyStep(quiet, NotifierState(None, buffer), m, now) == NotifierState(Some(now), buffer + [m])
  {
  }

  /** Two alerts sent in a row are more than the quiet period apart. */
  lemma SentAlertsAreSpaced(quiet: int, s: NotifierState, m1: Message, t1: int, m2: Message, t2: int)
    requires NotifyStep(quiet, s, m1, t1).lastNotifyTime == Some(t1) && s.lastNotifyTime != Some(t1)
    requires NotifyStep(quiet, NotifyStep(quiet, s, m1, t1), m2, t2).buffer != NotifyStep(quiet, s, m1, t1).buffer
    ensures Sub(t2, t1) > quiet
  {
  }

  /** The closure returned by `throttledNotifier`, sending into a shared channel. */
  class ThrottledNotifier {
    const ChannelName: string
    const QuietDuration: int
    const Queue: MessageQueue
    var lastNotifyTime: Option<int>

    constructor(queue: MessageQueue, channelName: string, quietDuration: int)
      ensures Queue == queue && ChannelName == channelName && QuietDuration == quietDuration
      ensures lastNotifyTime.None?
    {
      Queue := queue;
      ChannelName := channelName;
      QuietDuration := quietDuration;
      lastNotifyTime := None;
    }

    function State(): NotifierState
      reads this, Queue
    {
      NotifierState(lastNotifyTime, Queue.buffer)
    }

    /** One alert through the closure. */
    method Notify(msg: string, now: int)
      requires Queue.Valid()
      modifies this, Queue
      ensures Queue.Valid()
      ensures State() == NotifyStep(QuietDuration, old(State()), Message(ChannelName, msg), now)
    {
      if Since(now, lastNotifyTime) > QuietDuration {
        var ok := Queue.Enqueue(Message(ChannelName, msg));
        if !ok {
          return;
        }
        lastNotifyTime := Some(now);
      }
    }
  }
}
