/**
 The per-client clocks of the gateway: the fixed-window message limiter and the backoff of the state
 re-ask after a refusal (apps/server/src/sync/sync.gateway.ts, isRateLimited and askForResync).
 */
module Throttle {
  import opened Common
  import Backoff

  const RATE_LIMIT_WINDOW_MS := 1000
  const RATE_LIMIT_MAX_MSGS := 60

  // ---------------------------------------------------------------- the rate limiter

  datatype Rate = NoRate | Rate(count: nat, windowStart: nat)

  function Counted(r: Rate, now: nat): Rate
  {
    if r.NoRate? || now - r.windowStart >= RATE_LIMIT_WINDOW_MS then Rate(1, now) else r.(count := r.count + 1)
  }

  predicate Limited(r: Rate, now: nat) { Counted(r, now).count > RATE_LIMIT_MAX_MSGS }

  /** A message as the limiter saw it. */
  datatype Mark = Mark(time: nat, windowStart: nat, accepted: bool)

  predicate Ordered(times: seq<nat>) { forall i, j | 0 <= i < j < |times| :: times[i] <= times[j] }

  function RateAfter(times: seq<nat>): Rate
  {
    if times == [] then NoRate else Counted(RateAfter(times[..|times| - 1]), times[|times| - 1])
  }

  function Marks(times: seq<nat>): (ms: seq<Mark>)
    ensures |ms| == |times|
  {
    if times == [] then []
    else
      var front, now := times[..|times| - 1], times[|times| - 1];
      var r := Counted(RateAfter(front), now);
      Marks(front) + [Mark(now, r.windowStart, !Limited(RateAfter(front), now))]
  }

  function CountInWindow(ms: seq<Mark>, w: nat): nat
  {
    if ms == [] then 0
    else
      var last := ms[|ms| - 1];
      CountInWindow(ms[..|ms| - 1], w) + (if last.accepted && last.windowStart == w then 1 else 0)
  }

  /** The accepted messages with lo <= time <= hi. */
  function CountBetween(ms: seq<Mark>, lo: nat, hi: nat): nat
  {
    if ms == [] then 0
    else
      var last := ms[|ms| - 1];
      CountBetween(ms[..|ms| - 1], lo, hi) + (if last.accepted && lo <= last.time <= hi then 1 else 0)
  }

  /** Windows are at least 1000 ms apart and hold the messages counted in them. */
  predicate WindowsOk(times: seq<nat>, ms: seq<Mark>)
  {
    && |ms| == |times|
    && (forall i | 0 <= i < |ms| ::
          ms[i].windowStart <= ms[i].time == times[i] && ms[i].time < ms[i].windowStart + RATE_LIMIT_WINDOW_MS)
    && (forall i, j | 0 <= i < j < |ms| ::
          ms[i].windowStart == ms[j].windowStart || ms[i].windowStart + RATE_LIMIT_WINDOW_MS <= ms[j].windowStart)
  }

  /** The limiter's state is that of the last message's window. */
  predicate InLastWindow(ms: seq<Mark>, r: Rate)
  {
    if ms == [] then r.NoRate? else r.Rate? && r.windowStart == ms[|ms| - 1].windowStart
  }

  lemma {:induction false} LimiterKeepsWindows(times: seq<nat>)
    requires Ordered(times)
    ensures WindowsOk(times, Marks(times)) && InLastWindow(Marks(times), RateAfter(times))
  {
    if times != [] {
      var front, now := times[..|times| - 1], times[|times| - 1];
      LimiterKeepsWindows(front);
      var was, ms := Marks(front), Marks(times);
      assert ms == was + [ms[|was|]];
      if was != [] {
        var last := was[|was| - 1];
        assert last.time == times[|was| - 1] <= now;
        forall i | 0 <= i < |was| ensures was[i].windowStart <= last.windowStart {
        }
      }
    }
  }

  lemma {:induction false} NoneLater(ms: seq<Mark>, w: nat)
    requires forall i | 0 <= i < |ms| :: ms[i].windowStart < w
    ensures CountInWindow(ms, w) == 0
  {
    if ms != [] {
      NoneLater(ms[..|ms| - 1], w);
    }
  }

  /** A window lets at most 60 messages through. */
  lemma {:induction false} WindowIsBounded(times: seq<nat>, w: nat)
    requires Ordered(times)
    ensures CountInWindow(Marks(times), w) <= 60
    ensures times != [] && RateAfter(times).windowStart == w ==> CountInWindow(Marks(times), w) <= RateAfter(times).count
  {
    if times != [] {
      var front := times[..|times| - 1];
      var was, ms := Marks(front), Marks(times);
      WindowIsBounded(front, w);
      LimiterKeepsWindows(front);
      LimiterKeepsWindows(times);
      assert ms[..|ms| - 1] == was;
      var last := ms[|was|];
      if was != [] && was[|was| - 1].windowStart != last.windowStart && w == last.windowStart {
        assert forall i | 0 <= i < |was| :: was[i] == ms[i];
        assert ms[|was| - 1].windowStart < w;
        NoneLater(was, w);
      }
    }
  }

  lemma {:induction false} TwoWindowsCover(ms: seq<Mark>, lo: nat, hi: nat, a: nat, b: nat)
    requires forall i | 0 <= i < |ms| && ms[i].accepted && lo <= ms[i].time <= hi ::
      ms[i].windowStart == a || ms[i].windowStart == b
    ensures CountBetween(ms, lo, hi) <= CountInWindow(ms, a) + CountInWindow(ms, b)
  {
    if ms != [] {
      TwoWindowsCover(ms[..|ms| - 1], lo, hi, a, b);
    }
  }

  predicate Within(m: Mark, from: nat) { from <= m.time <= from + RATE_LIMIT_WINDOW_MS }

  /** Three messages within one second are not in three windows. */
  lemma NoThreeWindows(times: seq<nat>, ms: seq<Mark>, from: nat, i: nat, j: nat, k: nat)
    requires WindowsOk(times, ms) && i < |ms| && j < |ms| && k < |ms|
    requires Within(ms[i], from) && Within(ms[j], from) && Within(ms[k], from)
    ensures ms[i].windowStart == ms[j].windowStart || ms[i].windowStart == ms[k].windowStart
         || ms[j].windowStart == ms[k].windowStart
  {
  }

  /** In any second, both ends included, at most 120 messages of a client get through. */
  lemma AtMostTwiceTheLimit(times: seq<nat>, from: nat)
    requires Ordered(times)
    ensures CountBetween(Marks(times), from, from + 1000) <= 120
  {
    LimiterKeepsWindows(times);
    var ms := Marks(times);
    var i: nat := if j: nat :| j < |ms| && Within(ms[j], from) then j else 0;
    if i < |ms| && Within(ms[i], from) {
      var a := ms[i].windowStart;
      var k: nat := if j: nat :| j < |ms| && Within(ms[j], from) && ms[j].windowStart != a then j else i;
      forall j: nat | j < |ms| && Within(ms[j], from)
        ensures ms[j].windowStart == a || ms[j].windowStart == ms[k].windowStart
      {
        NoThreeWindows(times, ms, from, i, j, k);
      }
      TwoWindowsCover(ms, from, from + RATE_LIMIT_WINDOW_MS, a, ms[k].windowStart);
      WindowIsBounded(times, a);
      WindowIsBounded(times, ms[k].windowStart);
    } else {
      TwoWindowsCover(ms, from, from + RATE_LIMIT_WINDOW_MS, 0, 0);
      WindowIsBounded(times, 0);
    }
  }

  /** k more messages, all at the same moment. */
  function Burst(times: seq<nat>, t: nat, k: nat): seq<nat>
  {
    if k == 0 then times else Burst(times, t, k - 1) + [t]
  }

  lemma OneMoreMessage(times: seq<nat>, t: nat, lo: nat, hi: nat)
    ensures RateAfter(times + [t]) == Counted(RateAfter(times), t)
    ensures CountBetween(Marks(times + [t]), lo, hi) == CountBetween(Marks(times), lo, hi)
              + (if !Limited(RateAfter(times), t) && lo <= t <= hi then 1 else 0)
  {
    assert (times + [t])[..|times|] == times;
    var ms := Marks(times + [t]);
    assert ms[..|ms| - 1] == Marks(times);
  }

  lemma {:induction false} BurstIsOrdered(times: seq<nat>, t: nat, k: nat)
    requires Ordered(times) && forall i | 0 <= i < |times| :: times[i] <= t
    ensures Ordered(Burst(times, t, k)) && forall i | 0 <= i < |Burst(times, t, k)| :: Burst(times, t, k)[i] <= t
  {
    if k > 0 { BurstIsOrdered(times, t, k - 1); }
  }

  /** A burst that its window has room for gets through whole. */
  lemma {:induction false} BurstGetsThrough(times: seq<nat>, t: nat, k: nat, lo: nat, hi: nat)
    requires RateAfter(times).Rate? && t < RateAfter(times).windowStart + RATE_LIMIT_WINDOW_MS
    requires RateAfter(times).count + k <= RATE_LIMIT_MAX_MSGS && lo <= t <= hi
    ensures RateAfter(Burst(times, t, k)) == Rate(RateAfter(times).count + k, RateAfter(times).windowStart)
    ensures CountBetween(Marks(Burst(times, t, k)), lo, hi) == CountBetween(Marks(times), lo, hi) + k
  {
    if k > 0 {
      BurstGetsThrough(times, t, k - 1, lo, hi);
      OneMoreGetsThrough(Burst(times, t, k - 1), t, lo, hi);
    }
  }

  lemma OneMoreGetsThrough(times: seq<nat>, t: nat, lo: nat, hi: nat)
    requires RateAfter(times).Rate? && t < RateAfter(times).windowStart + RATE_LIMIT_WINDOW_MS
    requires RateAfter(times).count < RATE_LIMIT_MAX_MSGS && lo <= t <= hi
    ensures RateAfter(times + [t]) == Rate(RateAfter(times).count + 1, RateAfter(times).windowStart)
    ensures CountBetween(Marks(times + [t]), lo, hi) == CountBetween(Marks(times), lo, hi) + 1
  {
    OneMoreMessage(times, t, lo, hi);
  }

  /** A message that opens a window, and k more in it. */
  lemma OpenedWindow(times: seq<nat>, open: nat, t: nat, k: nat, lo: nat, hi: nat) returns (after: seq<nat>)
    requires RateAfter(times).NoRate? || RateAfter(times).windowStart + RATE_LIMIT_WINDOW_MS <= open
    requires 1 + k <= RATE_LIMIT_MAX_MSGS && lo <= open <= t <= hi && t < open + RATE_LIMIT_WINDOW_MS
    requires Ordered(times) && forall i | 0 <= i < |times| :: times[i] <= open
    ensures RateAfter(after) == Rate(1 + k, open) && Ordered(after) && forall i | 0 <= i < |after| :: after[i] <= t
    ensures CountBetween(Marks(after), lo, hi) == CountBetween(Marks(times), lo, hi) + 1 + k
  {
    var started := times + [open];
    assert RateAfter(started) == Rate(1, open)
        && CountBetween(Marks(started), lo, hi) == CountBetween(Marks(times), lo, hi) + 1 by {
      OneMoreMessage(times, open, lo, hi);
    }
    BurstGetsThrough(started, t, k, lo, hi);
    OneMoreIsOrdered(times, open, t);
    BurstIsOrdered(started, t, k);
    after := Burst(started, t, k);
  }

  lemma OneMoreIsOrdered(times: seq<nat>, last: nat, t: nat)
    requires Ordered(times) && last <= t && forall i | 0 <= i < |times| :: times[i] <= last
    ensures Ordered(times + [last]) && forall i | 0 <= i < |times + [last]| :: (times + [last])[i] <= t
  {}

  /** One message, k more at the end of its window, one that opens the next, and k more. */
  lemma TwoBursts(k: nat, now: nat) returns (times: seq<nat>)
    requires 1 + k <= RATE_LIMIT_MAX_MSGS
    ensures Ordered(times) && CountBetween(Marks(times), now, now + RATE_LIMIT_WINDOW_MS) == 2 * (1 + k)
  {
    var hi := now + RATE_LIMIT_WINDOW_MS;
    var first := OpenedWindow([], now, hi - 1, k, now, hi);
    times := OpenedWindow(first, hi, hi, k, now, hi);
  }

  /** And that many can: the end of one window and the start of the next. */
  lemma TwiceTheLimitIsReached(now: nat)
    ensures exists times: seq<nat> ::
      Ordered(times) && CountBetween(Marks(times), now, now + 1000) == 120
  {
    var times := TwoBursts(59, now);
  }

  // ---------------------------------------------------------------- the re-ask after a refusal

  datatype Timer = Idle | Due(at: nat)

  /** What the gateway remembers of a client's last refused frame. */
  datatype Rejection = NoRejection | Rejection(signature: nat, repeats: nat, timer: Timer)

  function Delay(repeats: nat): nat
    requires repeats > 0
  {
    Backoff.Delay(repeats - 1)
  }

  /** A refused frame: ask at once the first time, later when the same frame keeps coming. */
  function Refused(r: Rejection, signature: nat, now: nat): Rejection
  {
    var repeats := if r.Rejection? && r.signature == signature then r.repeats + 1 else 0;
    Rejection(signature, repeats, if repeats == 0 then Idle else Due(now + Delay(repeats)))
  }

  predicate AsksAtOnce(r: Rejection, signature: nat) { !(r.Rejection? && r.signature == signature) }

  /** A client that resends one and the same refused frame, only ever in answer to an ask. */
  datatype Resender = Resender(memory: Rejection, now: nat, asked: nat, refusals: seq<nat>)

  datatype Tick = Wait(ms: nat) | Resend | Fire

  function Start(now: nat): Resender { Resender(NoRejection, now, 1, []) }

  function Next(s: Resender, signature: nat, t: Tick): Resender
  {
    match t
    case Wait(ms) => s.(now := s.now + ms)
    case Resend =>
      if s.asked == 0 then s
      else Resender(Refused(s.memory, signature, s.now), s.now,
                    if AsksAtOnce(s.memory, signature) then s.asked else s.asked - 1,
                    s.refusals + [s.now])
    case Fire =>
      if s.memory.Rejection? && s.memory.timer.Due? && s.memory.timer.at <= s.now
      then s.(memory := s.memory.(timer := Idle), asked := s.asked + 1) else s
  }

  function Life(now: nat, signature: nat, ticks: seq<Tick>): Resender
  {
    if ticks == [] then Start(now) else Next(Life(now, signature, ticks[..|ticks| - 1]), signature, ticks[|ticks| - 1])
  }

  predicate SpacedOut(refusals: seq<nat>)
  {
    forall n | 2 <= n < |refusals| :: refusals[n] >= refusals[n - 1] + Min(1000 * Backoff.Pow2(n - 2), 30000)
  }

  /** Asks and pending timers never exceed one between them, and an open ask dates from after the wait. */
  predicate ResenderOk(s: Resender, signature: nat)
  {
    && SpacedOut(s.refusals)
    && (s.memory.NoRejection? <==> s.refusals == [])
    && (s.memory.NoRejection? ==> s.asked == 1)
    && (s.memory.Rejection? ==>
          && s.memory.signature == signature
          && s.memory.repeats == |s.refusals| - 1
          && s.refusals[|s.refusals| - 1] <= s.now
          && s.asked + (if s.memory.timer.Due? then 1 else 0) == 1
          && (s.memory.timer.Due? ==>
                s.memory.repeats > 0 && s.memory.timer.at == s.refusals[|s.refusals| - 1] + Delay(s.memory.repeats))
          && (s.asked == 1 && s.memory.repeats > 0 ==>
                s.now >= s.refusals[|s.refusals| - 1] + Delay(s.memory.repeats)))
  }

  lemma NextKeepsOk(s: Resender, signature: nat, t: Tick)
    requires ResenderOk(s, signature)
    ensures ResenderOk(Next(s, signature, t), signature)
  {
    if t.Resend? && s.asked > 0 {
      var after := Next(s, signature, t);
      assert after.refusals == s.refusals + [s.now];
      forall n | 2 <= n < |after.refusals|
        ensures after.refusals[n] >= after.refusals[n - 1] + Min(1000 * Backoff.Pow2(n - 2), 30000)
      {
        Backoff.DelaySchedule(0, n - 2);
      }
    }
  }

  /**
   However the client times its resends, from its second refusal on the next one comes no sooner than
   1 s, 2 s, 4 s, ... 30 s later, and at most one ask is ever pending or unanswered.
   */
  lemma {:induction false} ResendsBackOff(now: nat, signature: nat, ticks: seq<Tick>)
    ensures var s := Life(now, signature, ticks);
            && SpacedOut(s.refusals)
            && s.asked + (if s.memory.Rejection? && s.memory.timer.Due? then 1 else 0) == 1
            && ResenderOk(s, signature)
  {
    if ticks != [] {
      ResendsBackOff(now, signature, ticks[..|ticks| - 1]);
      NextKeepsOk(Life(now, signature, ticks[..|ticks| - 1]), signature, ticks[|ticks| - 1]);
    }
  }

  // ---------------------------------------------------------------- when the question comes

  /** What happens to the memory of a client: a frame of it is refused, or the timer comes due. */
  datatype Rebuff = Frame(signature: nat, now: nat) | TimerFired

  function Remembered(rs: seq<Rebuff>): Rejection
  {
    if rs == [] then NoRejection
    else
      var r, last := Remembered(rs[..|rs| - 1]), rs[|rs| - 1];
      match last
      case Frame(signature, now) => Refused(r, signature, now)
      case TimerFired => if r.Rejection? then r.(timer := Idle) else r
  }

  /** How often this frame was refused last, with no other refused in between. */
  function Streak(rs: seq<Rebuff>, signature: nat): nat
  {
    if rs == [] then 0
    else
      var front, last := rs[..|rs| - 1], rs[|rs| - 1];
      if last.TimerFired? then Streak(front, signature)
      else if last.signature == signature then Streak(front, signature) + 1
      else 0
  }

  lemma {:induction false} StreakIsRemembered(rs: seq<Rebuff>, signature: nat)
    ensures var r := Remembered(rs);
            Streak(rs, signature) == if r.Rejection? && r.signature == signature then r.repeats + 1 else 0
  {
    if rs != [] {
      var front, last := rs[..|rs| - 1], rs[|rs| - 1];
      StreakIsRemembered(front, signature);
      if last.Frame? { StreakIsRemembered(front, last.signature); }
    }
  }

  /**
   After any refusals and questions: a frame refused for the first time is asked about at once, and one that
   was refused k times before, with no other in between, exactly 1 s, 2 s, 4 s, ... up to 30 s later.
   */
  lemma DueExactly(rs: seq<Rebuff>, signature: nat, now: nat)
    ensures var k := Streak(rs, signature);
            && Remembered(rs + [Frame(signature, now)]) ==
               Rejection(signature, k, if k == 0 then Idle else Due(now + Min(1000 * Backoff.Pow2(k - 1), 30000)))
            && (AsksAtOnce(Remembered(rs), signature) <==> k == 0)
  {
    var k := Streak(rs, signature);
    assert (rs + [Frame(signature, now)])[..|rs|] == rs;
    StreakIsRemembered(rs, signature);
    if k > 0 { Backoff.DelaySchedule(0, k - 1); }
  }
}
