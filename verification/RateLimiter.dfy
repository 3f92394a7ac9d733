/** The limiter of calls per interval and of concurrent calls, one locked section at a time. */
module RateLimiter {

  /** What the constructor is given. */
  datatype Limits = Limits(interval: int, maxCalls: int, maxConcurrent: int)

  /** The counters under the spin lock. */
  datatype Counters = Counters(last: int, calls: int, concurrent: int)

  predicate Renews(c: Counters, now: int) {
    c.last < now
  }

  /** One turn of Enter's loop: now is the clock read by the comparison, renewed the one read on renewal. */
  function Attempted(p: Limits, c: Counters, now: int, renewed: int): Counters {
    var c := if Renews(c, now) then c.(last := renewed + p.interval, calls := 0) else c;
    if c.concurrent < p.maxConcurrent && c.calls < p.maxCalls then
      c.(concurrent := c.concurrent + 1, calls := c.calls + 1)
    else c
  }

  predicate Granted(p: Limits, c: Counters, now: int) {
    c.concurrent < p.maxConcurrent && (if Renews(c, now) then 0 else c.calls) < p.maxCalls
  }

  class Limiter {
    const limits: Limits
    var last: int
    var callsPerInterval: int
    var concurrentCalls: int

    ghost function Abs(): Counters
      reads this
    {
      Counters(last, callsPerInterval, concurrentCalls)
    }

    constructor (interval: int, maxCallsPerInterval: int, maxConcurrent: int, now: int)
      ensures limits == Limits(interval, maxCallsPerInterval, maxConcurrent)
      ensures Abs() == Counters(now + interval, 0, 0)
    {
      limits := Limits(interval, maxCallsPerInterval, maxConcurrent);
      last := now + interval;
      callsPerInterval := 0;
      concurrentCalls := 0;
    }

    /** One turn of the loop in Enter, between taking and leaving the spin lock. */
    method Attempt(now: int, renewed: int) returns (entered: bool)
      modifies this
      ensures entered == Granted(limits, old(Abs()), now)
      ensures Abs() == Attempted(limits, old(Abs()), now, renewed)
    {
      if last < now {
        last := renewed + limits.interval;
        callsPerInterval := 0;
      }
      if concurrentCalls < limits.maxConcurrent && callsPerInterval < limits.maxCalls {
        concurrentCalls := concurrentCalls + 1;
        callsPerInterval := callsPerInterval + 1;
        return true;
      }
      return false;
    }

    method Exit()
      modifies this
      ensures Abs() == old(Abs()).(concurrent := old(Abs()).concurrent - 1)
    {
      concurrentCalls := concurrentCalls - 1;
    }
  }

  // ----- whole runs, by any number of threads -----

  /** stamp is the clock value an attempt that succeeds is dated with: any value it read, or one in between. */
  datatype Event = TryEnter(now: int, renewed: int, stamp: int) | Leave

  /** A call that was let in, and the number of renewals before it. */
  datatype Grant = Grant(stamp: int, window: nat)

  /** exits counts the calls that left; clock is the latest time read. */
  datatype History = History(counters: Counters, clock: int, window: nat, grants: seq<Grant>, exits: nat)

  function Start(p: Limits, now: int): History {
    History(Counters(now + p.interval, 0, 0), now, 0, [], 0)
  }

  function Next(p: Limits, h: History, e: Event): History {
    match e
    case TryEnter(now, renewed, stamp) =>
      var window := if Renews(h.counters, now) then h.window + 1 else h.window;
      History(Attempted(p, h.counters, now, renewed),
              if Renews(h.counters, now) then renewed else now,
              window,
              if Granted(p, h.counters, now) then h.grants + [Grant(stamp, window)] else h.grants,
              h.exits)
    case Leave => h.(counters := h.counters.(concurrent := h.counters.concurrent - 1), exits := h.exits + 1)
  }

  /** The clock does not run backwards, and a grant is dated by what its attempt read. */
  predicate Timely(h: History, e: Event) {
    e.TryEnter? ==>
      && h.clock <= e.now <= e.renewed
      && if Renews(h.counters, e.now) then e.now <= e.stamp <= e.renewed else e.stamp == e.now
  }

  function Run(p: Limits, start: int, events: seq<Event>): History {
    if events == [] then Start(p, start)
    else Next(p, Run(p, start, events[..|events| - 1]), events[|events| - 1])
  }

  predicate TimelyRun(p: Limits, start: int, events: seq<Event>) {
    forall i :: 0 <= i < |events| ==> Timely(Run(p, start, events[..i]), events[i])
  }

  function CountWindow(grants: seq<Grant>, w: nat): nat {
    if grants == [] then 0
    else CountWindow(grants[..|grants| - 1], w) + if grants[|grants| - 1].window == w then 1 else 0
  }

  /** How many calls were let in between two times, both included. */
  function CountBetween(grants: seq<Grant>, from: int, to: int): nat {
    if grants == [] then 0
    else CountBetween(grants[..|grants| - 1], from, to)
         + if from <= grants[|grants| - 1].stamp <= to then 1 else 0
  }

  function Cap(n: int): nat {
    if n < 0 then 0 else n
  }

  /** Windows are filled in order, each at most once. */
  ghost predicate Filled(p: Limits, h: History) {
    && (forall i :: 0 <= i < |h.grants| ==> h.grants[i].window <= h.window)
    && (forall w: nat :: CountWindow(h.grants, w) <= Cap(p.maxCalls))
    && CountWindow(h.grants, h.window) == h.counters.calls
  }

  /** Later windows have later stamps, and grants two windows apart are more than an interval apart. */
  ghost predicate Spaced(p: Limits, h: History) {
    && (forall i, j :: 0 <= i < |h.grants| && 0 <= j < |h.grants| ==> ApartOk(p, h.grants[i], h.grants[j]))
    && (forall i :: 0 <= i < |h.grants| ==> DatedOk(p, h, h.grants[i]))
  }

  predicate ApartOk(p: Limits, g: Grant, g': Grant) {
    && (g.window < g'.window ==> g.stamp < g'.stamp)
    && (g.window + 2 <= g'.window ==> g.stamp + p.interval < g'.stamp)
  }

  predicate DatedOk(p: Limits, h: History, g: Grant) {
    && g.window <= h.window
    && (g.window == h.window ==> g.stamp <= h.counters.last)
    && (g.window < h.window ==> g.stamp + p.interval < h.counters.last && g.stamp < h.clock)
    && (g.window + 2 <= h.window ==> g.stamp + p.interval < h.clock)
  }

  lemma {:induction false} NoGrantYet(grants: seq<Grant>, w: nat)
    requires forall i :: 0 <= i < |grants| ==> grants[i].window < w
    ensures CountWindow(grants, w) == 0
  {
    if grants != [] {
      NoGrantYet(grants[..|grants| - 1], w);
    }
  }

  lemma CountAppend(grants: seq<Grant>, g: Grant, w: nat)
    ensures CountWindow(grants + [g], w) == CountWindow(grants, w) + if g.window == w then 1 else 0
  {
    assert (grants + [g])[..|grants|] == grants;
  }

  lemma NextFilled(p: Limits, h: History, e: Event)
    requires Filled(p, h)
    ensures Filled(p, Next(p, h, e))
  {
    if e.TryEnter? {
      var h' := Next(p, h, e);
      if Renews(h.counters, e.now) {
        NoGrantYet(h.grants, h.window + 1);
      }
      if Granted(p, h.counters, e.now) {
        var g := Grant(e.stamp, h'.window);
        forall w: nat ensures CountWindow(h'.grants, w) == CountWindow(h.grants, w) + if g.window == w then 1 else 0 {
          CountAppend(h.grants, g, w);
        }
      }
    }
  }

  lemma NextSpaced(p: Limits, h: History, e: Event)
    requires p.interval >= 0 && Spaced(p, h) && Timely(h, e)
    ensures Spaced(p, Next(p, h, e))
  {
    if e.TryEnter? {
      var h' := Next(p, h, e);
      var g := Grant(e.stamp, h'.window);
      forall i | 0 <= i < |h.grants| ensures DatedOk(p, h', h.grants[i]) && ApartOk(p, h.grants[i], g) && ApartOk(p, g, h.grants[i]) {
        assert DatedOk(p, h, h.grants[i]);
      }
      assert Granted(p, h.counters, e.now) ==> DatedOk(p, h', g);
      assert h'.grants == h.grants || h'.grants == h.grants + [g];
    }
  }

  lemma {:induction false} RunPaced(p: Limits, start: int, events: seq<Event>)
    requires p.interval >= 0 && TimelyRun(p, start, events)
    ensures Filled(p, Run(p, start, events)) && Spaced(p, Run(p, start, events))
  {
    if events != [] {
      var before := events[..|events| - 1];
      forall i | 0 <= i < |before| ensures Timely(Run(p, start, before[..i]), before[i]) {
        assert before[..i] == events[..i];
        assert Timely(Run(p, start, events[..i]), events[i]);
      }
      RunPaced(p, start, before);
      assert Timely(Run(p, start, events[..|events| - 1]), events[|events| - 1]);
      NextFilled(p, Run(p, start, before), events[|events| - 1]);
      NextSpaced(p, Run(p, start, before), events[|events| - 1]);
    }
  }

  /** Grants that all fall in two windows are at most as many as those windows hold. */
  lemma {:induction false} BetweenTwoWindows(grants: seq<Grant>, from: int, to: int, v: nat)
    requires forall i :: 0 <= i < |grants| && from <= grants[i].stamp <= to ==>
               grants[i].window == v || grants[i].window == v + 1
    ensures CountBetween(grants, from, to) <= CountWindow(grants, v) + CountWindow(grants, v + 1)
  {
    if grants != [] {
      var before := grants[..|grants| - 1];
      assert forall i :: 0 <= i < |before| ==> before[i] == grants[i];
      BetweenTwoWindows(before, from, to, v);
    }
  }

  /** Grants that all fall in one window are at most as many as it holds. */
  lemma {:induction false} BetweenOneWindow(grants: seq<Grant>, from: int, to: int, v: nat)
    requires forall i :: 0 <= i < |grants| && from <= grants[i].stamp <= to ==> grants[i].window == v
    ensures CountBetween(grants, from, to) <= CountWindow(grants, v)
  {
    if grants != [] {
      var before := grants[..|grants| - 1];
      assert forall i :: 0 <= i < |before| ==> before[i] == grants[i];
      BetweenOneWindow(before, from, to, v);
    }
  }

  lemma {:induction false} NoneBetween(grants: seq<Grant>, from: int, to: int)
    requires forall i :: 0 <= i < |grants| ==> !(from <= grants[i].stamp <= to)
    ensures CountBetween(grants, from, to) == 0
  {
    if grants != [] {
      NoneBetween(grants[..|grants| - 1], from, to);
    }
  }

  /** The grant of lowest window among those in a span. */
  lemma {:induction false} EarliestBetween(grants: seq<Grant>, from: int, to: int) returns (k: nat)
    requires exists i :: 0 <= i < |grants| && from <= grants[i].stamp <= to
    ensures k < |grants| && from <= grants[k].stamp <= to
    ensures forall i :: 0 <= i < |grants| && from <= grants[i].stamp <= to ==> grants[k].window <= grants[i].window
  {
    k :| 0 <= k < |grants| && from <= grants[k].stamp <= to;
    var i := 0;
    while i < |grants|
      invariant 0 <= i <= |grants| && k < |grants| && from <= grants[k].stamp <= to
      invariant forall j :: 0 <= j < i && from <= grants[j].stamp <= to ==> grants[k].window <= grants[j].window
    {
      if from <= grants[i].stamp <= to && grants[i].window < grants[k].window {
        k := i;
      }
      i := i + 1;
    }
  }

  /**
   * Although the code counts per fixed window, in every run any time span no longer than the interval contains
   * at most twice the calls allowed per interval.
   */
  lemma SlidingBound(p: Limits, start: int, events: seq<Event>, from: int, to: int)
    requires TimelyRun(p, start, events) && from <= to <= from + p.interval
    ensures CountBetween(Run(p, start, events).grants, from, to) <= 2 * Cap(p.maxCalls)
  {
    RunPaced(p, start, events);
    var grants := Run(p, start, events).grants;
    if i :| 0 <= i < |grants| && from <= grants[i].stamp <= to {
      var k := EarliestBetween(grants, from, to);
      var v := grants[k].window;
      forall j | 0 <= j < |grants| && from <= grants[j].stamp <= to
        ensures grants[j].window == v || grants[j].window == v + 1
      {
        assert ApartOk(p, grants[k], grants[j]);
      }
      BetweenTwoWindows(grants, from, to, v);
    } else {
      NoneBetween(grants, from, to);
    }
  }

  /** Live calls are the calls let in minus the calls that left, and never more than allowed. */
  lemma {:induction false} LiveCalls(p: Limits, start: int, events: seq<Event>)
    ensures var h := Run(p, start, events);
            h.counters.concurrent == |h.grants| - h.exits && h.counters.concurrent <= Cap(p.maxConcurrent)
  {
    if events != [] {
      LiveCalls(p, start, events[..|events| - 1]);
    }
  }

  // ----- when the limit holds in every span of one interval -----

  /** A call leaves only after a call was let in that has not left. */
  predicate OrderlyRun(p: Limits, start: int, events: seq<Event>) {
    forall i :: 0 <= i < |events| && events[i].Leave? ==> Run(p, start, events[..i]).counters.concurrent > 0
  }

  /** No span of one interval holds more calls than allowed per interval, in any run. */
  ghost predicate KeepsLimit(p: Limits) {
    forall start, events, from, to ::
      TimelyRun(p, start, events) && from <= to <= from + p.interval ==>
        CountBetween(Run(p, start, events).grants, from, to) <= Cap(p.maxCalls)
  }

  /** The same, where every exit belongs to a call that was let in. */
  ghost predicate KeepsLimitOrderly(p: Limits) {
    forall start, events, from, to ::
      TimelyRun(p, start, events) && OrderlyRun(p, start, events) && from <= to <= from + p.interval ==>
        CountBetween(Run(p, start, events).grants, from, to) <= Cap(p.maxCalls)
  }

  /** n calls that are let in and leave at once, all at one time. */
  function Burst(t: int, n: nat): seq<Event> {
    if n == 0 then [] else Burst(t, n - 1) + [TryEnter(t, t, t), Leave]
  }

  function Leaves(n: nat): seq<Event> {
    if n == 0 then [] else Leaves(n - 1) + [Leave]
  }

  /** A full window at its last moment and the next one a time unit later; the exits before make room if none is given. */
  function DoubleRun(p: Limits): seq<Event>
    requires p.maxCalls >= 0
  {
    Leaves(Cap(1 - p.maxConcurrent)) + Burst(p.interval, p.maxCalls) + Burst(p.interval + 1, p.maxCalls)
  }

  /** The counters once an attempt at time t has renewed the window if it had to. */
  function Opened(p: Limits, c: Counters, t: int): Counters {
    if Renews(c, t) then Counters(t + p.interval, 0, c.concurrent) else c
  }

  lemma Extend(p: Limits, start: int, events: seq<Event>, e: Event)
    requires TimelyRun(p, start, events) && Timely(Run(p, start, events), e)
    ensures TimelyRun(p, start, events + [e])
    ensures Run(p, start, events + [e]) == Next(p, Run(p, start, events), e)
    ensures OrderlyRun(p, start, events) && (e.Leave? ==> Run(p, start, events).counters.concurrent > 0) ==>
              OrderlyRun(p, start, events + [e])
  {
    hide Next, Timely;
    var more := events + [e];
    assert more[..|events|] == events;
    assert forall i :: 0 <= i < |events| ==> more[..i] == events[..i];
  }

  lemma {:induction false} LeavesOnly(p: Limits, n: nat)
    ensures TimelyRun(p, 0, Leaves(n))
    ensures Run(p, 0, Leaves(n)) == History(Counters(p.interval, 0, 0 - n), 0, 0, [], n)
  {
    if n > 0 {
      LeavesOnly(p, n - 1);
      Extend(p, 0, Leaves(n - 1), Leave);
    }
  }

  lemma CountAppended(grants: seq<Grant>, g: Grant, from: int, to: int)
    ensures CountBetween(grants + [g], from, to) == CountBetween(grants, from, to) + if from <= g.stamp <= to then 1 else 0
  {
    assert (grants + [g])[..|grants|] == grants;
  }

  /** A call let in that leaves at once. */
  lemma OneCall(p: Limits, start: int, events: seq<Event>, t: int, from: int, to: int)
    requires TimelyRun(p, start, events) && from <= t <= to
    requires Run(p, start, events).clock <= t && Granted(p, Run(p, start, events).counters, t)
    ensures var h, more := Run(p, start, events), events + [TryEnter(t, t, t), Leave];
            var h' := Run(p, start, more);
            && TimelyRun(p, start, more)
            && (OrderlyRun(p, start, events) && h.counters.concurrent >= 0 ==> OrderlyRun(p, start, more))
            && h'.clock == t
            && h'.counters == Opened(p, h.counters, t).(calls := Opened(p, h.counters, t).calls + 1)
            && CountBetween(h'.grants, from, to) == CountBetween(h.grants, from, to) + 1
  {
    hide Run, TimelyRun, OrderlyRun;
    var h := Run(p, start, events);
    var e := TryEnter(t, t, t);
    Extend(p, start, events, e);
    Extend(p, start, events + [e], Leave);
    assert events + [e] + [Leave] == events + [e, Leave];
    CountAppended(h.grants, Grant(t, Next(p, h, e).window), from, to);
  }

  /** A burst that starts with an empty or a renewed window is let in whole. */
  lemma {:induction false} BurstIsGranted(p: Limits, start: int, events: seq<Event>, t: int, n: nat, from: int, to: int)
    requires TimelyRun(p, start, events) && from <= t <= to && p.interval >= 0
    requires var h := Run(p, start, events);
             h.clock <= t && h.counters.concurrent < p.maxConcurrent && n <= p.maxCalls
             && (Renews(h.counters, t) || h.counters.calls == 0)
    ensures var h, more := Run(p, start, events), events + Burst(t, n);
            var h' := Run(p, start, more);
            && TimelyRun(p, start, more)
            && (OrderlyRun(p, start, events) && h.counters.concurrent >= 0 ==> OrderlyRun(p, start, more))
            && (n == 0 ==> h' == h)
            && (n > 0 ==> h'.clock == t)
            && (n > 0 ==> h'.counters == Opened(p, h.counters, t).(calls := n))
            && CountBetween(h'.grants, from, to) == CountBetween(h.grants, from, to) + n
  {
    hide Run, TimelyRun, OrderlyRun, CountBetween;
    if n == 0 {
      assert events + Burst(t, 0) == events;
    } else {
      BurstIsGranted(p, start, events, t, n - 1, from, to);
      var before := events + Burst(t, n - 1);
      OneCall(p, start, before, t, from, to);
      assert before + [TryEnter(t, t, t), Leave] == events + Burst(t, n);
    }
  }

  /** Whatever the limits, as long as they let calls in: twice as many as allowed, one time unit apart. */
  lemma TwiceIsReached(p: Limits)
    requires p.maxCalls >= 1 && p.interval >= 1
    ensures TimelyRun(p, 0, DoubleRun(p))
    ensures p.maxConcurrent >= 1 ==> OrderlyRun(p, 0, DoubleRun(p))
    ensures CountBetween(Run(p, 0, DoubleRun(p)).grants, p.interval, p.interval + 1) == 2 * p.maxCalls
  {
    hide Run, TimelyRun;
    var k := Cap(1 - p.maxConcurrent);
    LeavesOnly(p, k);
    BurstIsGranted(p, 0, Leaves(k), p.interval, p.maxCalls, p.interval, p.interval + 1);
    BurstIsGranted(p, 0, Leaves(k) + Burst(p.interval, p.maxCalls), p.interval + 1, p.maxCalls, p.interval, p.interval + 1);
    assert p.maxConcurrent >= 1 ==> Leaves(k) == [];
  }

  /** Grants of different windows have different stamps, so one moment belongs to one window. */
  lemma MomentBound(p: Limits, start: int, events: seq<Event>, t: int)
    requires p.interval >= 0 && TimelyRun(p, start, events)
    ensures CountBetween(Run(p, start, events).grants, t, t) <= Cap(p.maxCalls)
  {
    hide Run, TimelyRun;
    RunPaced(p, start, events);
    var grants := Run(p, start, events).grants;
    if k :| 0 <= k < |grants| && grants[k].stamp == t {
      forall i | 0 <= i < |grants| && grants[i].stamp == t ensures grants[i].window == grants[k].window {
        assert ApartOk(p, grants[i], grants[k]) && ApartOk(p, grants[k], grants[i]);
      }
      BetweenOneWindow(grants, t, t, grants[k].window);
    } else {
      NoneBetween(grants, t, t);
    }
  }

  /** No call is let in where none may be live and every exit belongs to a call that was let in. */
  lemma {:induction false} NoGrants(p: Limits, start: int, events: seq<Event>)
    requires p.maxConcurrent <= 0 && OrderlyRun(p, start, events)
    ensures Run(p, start, events).grants == [] && Run(p, start, events).counters.concurrent == 0
  {
    if events != [] {
      var before := events[..|events| - 1];
      assert forall i :: 0 <= i < |before| ==> before[..i] == events[..i];
      NoGrants(p, start, before);
    }
  }

  /** The exact condition under which the code keeps the number of calls per interval, for exits of any kind. */
  lemma KeepsLimitIff(p: Limits)
    ensures KeepsLimit(p) <==> p.maxCalls <= 0 || p.interval <= 0
  {
    if p.maxCalls >= 1 && p.interval >= 1 {
      TwiceIsReached(p);
    } else {
      forall start, events, from, to | TimelyRun(p, start, events) && from <= to <= from + p.interval
        ensures CountBetween(Run(p, start, events).grants, from, to) <= Cap(p.maxCalls)
      {
        hide Run, TimelyRun;
        SlidingBound(p, start, events, from, to);
        if p.maxCalls > 0 {
          MomentBound(p, start, events, from);
        }
      }
    }
  }

  /** With exits that belong to calls let in, it is also kept by never letting anyone in. */
  lemma KeepsLimitOrderlyIff(p: Limits)
    ensures KeepsLimitOrderly(p) <==> p.maxCalls <= 0 || p.interval <= 0 || p.maxConcurrent <= 0
  {
    KeepsLimitIff(p);
    if p.maxCalls >= 1 && p.interval >= 1 {
      if p.maxConcurrent >= 1 {
        TwiceIsReached(p);
      } else {
        forall start, events, from, to | TimelyRun(p, start, events) && OrderlyRun(p, start, events)
                                         && from <= to <= from + p.interval
          ensures CountBetween(Run(p, start, events).grants, from, to) <= Cap(p.maxCalls)
        {
          NoGrants(p, start, events);
        }
      }
    }
  }
}
