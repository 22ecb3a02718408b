/**
 * The announce interval controller (interval.c) and the three activities that share it: the collector
 * that retargets it, the changer that moves it one second at a time, and the administrator who forces it.
 */
module Interval {
  import opened Bytes

  const STEP := 60
  const MIN_DEFAULT := 239
  const MAX_DEFAULT := 1799

  /** What `getloadavg` tells `updateInterval`: idle, busy, neither, or that it failed. */
  datatype Load = Below | Above | Mixed | Unknown

  /** The struct of interval.h as a value. */
  datatype Settings = Settings(interval: int, require: int, previous: int, min: int, max: int)

  /** `niceInterval`. */
  function Nice(s: Settings, value: int): int {
    var raised := if s.min > value then s.min else value;
    if s.max < raised then s.max else raised
  }

  function Apart(x: int, y: int): nat {
    if x <= y then y - x else x - y
  }

  /** `r` is the number from `min` to `max` nearest to `value`. */
  ghost predicate Nearest(r: int, value: int, min: int, max: int) {
    min <= r <= max && forall x :: min <= x <= max ==> Apart(r, value) <= Apart(x, value)
  }

  lemma {:induction false} NiceIsNearest(s: Settings, value: int)
    requires s.min <= s.max
    ensures Nearest(Nice(s, value), value, s.min, s.max)
  {
  }

  /** Which way a load moves the target. */
  function Direction(load: Load): int {
    match load
    case Below => -1
    case Above => 1
    case Mixed => 0
    case Unknown => 0
  }

  function Updated(s: Settings, load: Load): Settings {
    if load == Unknown then s
    else
      var local := if load == Below then Wrap32(s.require - STEP)
                   else if load == Above then Wrap32(s.require + STEP)
                   else s.require;
      s.(previous := s.require, require := Nice(s, local))
  }

  function Forced(s: Settings, value: u32): Settings {
    var v := Nice(s, value);
    s.(interval := v, require := v, previous := v)
  }

  function Stepped(s: Settings): Settings {
    if s.interval < s.require then s.(interval := s.interval + 1)
    else if s.interval > s.require then s.(interval := s.interval - 1)
    else s
  }

  /** The seconds that `stepInterval` asks its caller to sleep: previous / 60, rounded, at least 1. */
  function Pause(s: Settings): int {
    var rounded := (s.previous + 30) / STEP;
    if rounded > 1 then rounded else 1
  }

  /** Proper limits with the target between them. */
  predicate Settled(s: Settings) {
    STEP <= s.min <= s.max < WORD - STEP && s.min <= s.require <= s.max
  }

  /** Inside the limits nothing wraps around. */
  lemma {:induction false} UpdatedIsNearest(s: Settings, load: Load)
    requires Settled(s) && load != Unknown
    ensures var r := Updated(s, load).require;
      Nearest(r, s.require + STEP * Direction(load), s.min, s.max) && s.min <= r <= s.max && Apart(r, s.require) <= STEP
  {
    hide Nearest;
    var moved := s.require + STEP * Direction(load);
    assert 0 <= moved < WORD;
    assert Wrap32(moved) == moved;
    NiceIsNearest(s, moved);
  }

  /** The struct that the three activities share. */
  class Interval {
    var interval: int
    var requireInterval: int
    var previousInterval: int
    var maxInterval: int
    var minInterval: int

    function Value(): Settings
      reads this
    {
      Settings(interval, requireInterval, previousInterval, minInterval, maxInterval)
    }

    /** server.c:67-72. */
    constructor (start: int, min: int, max: int)
      ensures Value() == Settings(start, start, start, min, max)
    {
      interval, requireInterval, previousInterval := start, start, start;
      maxInterval, minInterval := max, min;
    }

    method NiceInterval(value: int) returns (nice: int)
      ensures nice == Nice(Value(), value)
    {
      nice := if minInterval > value then minInterval else value;
      nice := if maxInterval < nice then maxInterval else nice;
    }

    method UpdateInterval(load: Load)
      modifies this
      ensures Value() == Updated(old(Value()), load)
      ensures load == Unknown ==> Value() == old(Value())
      ensures load != Unknown ==> previousInterval == old(requireInterval)
      ensures Settled(old(Value())) ==> minInterval <= requireInterval <= maxInterval
      ensures Settled(old(Value())) ==>
        Nearest(requireInterval, old(requireInterval) + 60 * Direction(load), minInterval, maxInterval)
      ensures Settled(old(Value())) ==> Apart(requireInterval, old(requireInterval)) <= 60
      ensures interval == old(interval) && minInterval == old(minInterval) && maxInterval == old(maxInterval)
    {
      if load == Unknown {
        return;
      }
      hide Nearest, Nice, Wrap32, Direction, Settled, Apart;
      if Settled(Value()) {
        UpdatedIsNearest(Value(), load);
      }
      var localInterval := requireInterval;
      if load == Below {
        localInterval := Wrap32(localInterval - STEP);
      } else if load == Above {
        localInterval := Wrap32(localInterval + STEP);
      }
      localInterval := NiceInterval(localInterval);
      previousInterval := requireInterval;
      requireInterval := localInterval;
    }

    method ForceUpdateInterval(value: u32)
      modifies this
      ensures interval == requireInterval == previousInterval
      ensures minInterval <= maxInterval ==> Nearest(interval, value, minInterval, maxInterval)
      ensures minInterval == old(minInterval) && maxInterval == old(maxInterval)
      ensures Value() == Forced(old(Value()), value)
    {
      hide Nearest;
      if minInterval <= maxInterval {
        NiceIsNearest(Value(), value);
      }
      var v := NiceInterval(value);
      interval := v;
      requireInterval := v;
      previousInterval := v;
    }

    method StepInterval() returns (pause: int)
      modifies this`interval
      ensures Apart(interval, requireInterval) == if old(interval) == requireInterval then 0
                                                  else Apart(old(interval), requireInterval) - 1
      ensures Apart(interval, old(interval)) <= 1
      ensures pause >= 1 && (previousInterval >= 30 ==> -30 < 60 * pause - previousInterval <= 30)
      ensures previousInterval < 30 ==> pause == 1
      ensures Value() == Stepped(old(Value())) && pause == Pause(old(Value()))
    {
      if interval < requireInterval {
        interval := interval + 1;
      } else if interval > requireInterval {
        interval := interval - 1;
      }
      pause := (previousInterval + 30) / STEP;
      if pause <= 1 {
        pause := 1;
      }
    }
  }

  // ---------------------------------------------------------------- every interleaving

  /** Where the collector is in its loop (thread_garbage.c:83-115). */
  datatype Collector = Checking | Collecting

  datatype Control = Control(s: Settings, collector: Collector)

  datatype Event =
    | Check                 // the collector finds the interval settled and starts collecting
    | Update(load: Load)    // it has collected and retargets the interval
    | Change                // the changer takes one step
    | Force(value: u32)     // the administrator sets the interval

  predicate Enabled(c: Control, e: Event) {
    match e
    case Check => c.collector == Checking && c.s.interval == c.s.require
    case Update(_) => c.collector == Collecting
    case Change => true
    case Force(_) => true
  }

  function Next(c: Control, e: Event): Control {
    match e
    case Check => c.(collector := Collecting)
    case Update(load) => Control(Updated(c.s, load), Checking)
    case Change => c.(s := Stepped(c.s))
    case Force(value) => c.(s := Forced(c.s, value))
  }

  ghost predicate Limits(s: Settings) {
    MIN_DEFAULT <= s.min <= s.max <= MAX_DEFAULT
  }

  /** A settled start inside the limits; argument.c:143-146 sees to the limits, not to the start. */
  ghost predicate Start(c: Control) {
    Limits(c.s) && c.s.min <= c.s.interval <= c.s.max && c.s.require == c.s.previous == c.s.interval
    && c.collector == Checking
  }

  ghost predicate Steady(c: Control) {
    && Limits(c.s)
    && c.s.min <= c.s.interval <= c.s.max && c.s.min <= c.s.require <= c.s.max && c.s.min <= c.s.previous <= c.s.max
    && Between(c.s.interval, c.s.previous, c.s.require)
    && -STEP <= c.s.require - c.s.previous <= STEP
    && (c.collector == Collecting ==> c.s.interval == c.s.require)
  }

  /** `x` lies between `a` and `b`, in either order. */
  predicate Between(x: int, a: int, b: int) {
    a <= x <= b || b <= x <= a
  }

  function Execute(c: Control, events: seq<Event>): Control {
    if events == [] then c else Next(Execute(c, events[..|events| - 1]), events[|events| - 1])
  }

  ghost predicate Possible(c: Control, events: seq<Event>) {
    forall i :: 0 <= i < |events| ==> Enabled(Execute(c, events[..i]), events[i])
  }

  lemma {:induction false} NextIsSteady(c: Control, e: Event)
    requires Steady(c) && Enabled(c, e)
    ensures Steady(Next(c, e)) && Next(c, e).s.min == c.s.min && Next(c, e).s.max == c.s.max
  {
  }

  /**
   * Every interleaving of the three activities keeps all fields inside the limits and the interval
   * within a minute of its target, and never takes 60 from a target below 60.
   */
  lemma {:induction false} AlwaysSteady(c: Control, events: seq<Event>)
    requires Start(c) && Possible(c, events)
    ensures var d := Execute(c, events);
            && Steady(d) && d.s.min == c.s.min && d.s.max == c.s.max
            && -60 <= d.s.interval - d.s.require <= 60
            && d.s.require >= 60
  {
    hide Enabled, Next;
    if events != [] {
      var n := |events| - 1;
      forall i | 0 <= i < n ensures Enabled(Execute(c, events[..n][..i]), events[..n][i]) {
        assert events[..n][..i] == events[..i];
      }
      AlwaysSteady(c, events[..n]);
      assert Enabled(Execute(c, events[..n]), events[n]);
      NextIsSteady(Execute(c, events[..n]), events[n]);
    }
  }

  // ---------------------------------------------------------------- settling

  /** The seconds slept while the changer takes `n` steps. */
  function Slept(s: Settings, n: nat): int
    decreases n
  {
    if n == 0 then 0 else Pause(s) + Slept(Stepped(s), n - 1)
  }

  function Steps(s: Settings, n: nat): Settings
    decreases n
  {
    if n == 0 then s else Steps(Stepped(s), n - 1)
  }

  function Distance(s: Settings): nat {
    Apart(s.interval, s.require)
  }

  lemma {:induction false} EachStepPauses(s: Settings, n: nat)
    ensures Slept(s, n) == n * Pause(s)
    decreases n
  {
    if n > 0 {
      assert Pause(Stepped(s)) == Pause(s);
      EachStepPauses(Stepped(s), n - 1);
      assert n * Pause(s) == Pause(s) + (n - 1) * Pause(s);
    }
  }

  /** Left alone the changer settles the interval in exactly as many steps as seconds are missing. */
  lemma {:induction false} SettlesInDistance(s: Settings, n: nat)
    requires n <= Distance(s)
    ensures Distance(Steps(s, n)) == Distance(s) - n
    ensures Steps(s, n) == s.(interval := Steps(s, n).interval)
    decreases n
  {
    if n > 0 {
      SettlesInDistance(Stepped(s), n - 1);
    }
  }

  lemma {:induction false} ProductBound(n: nat, p: int)
    requires n <= STEP && p >= 0
    ensures STEP * (n * ((p + 30) / STEP)) <= n * (p + 30)
  {
  }

  lemma {:induction false} MulMono(n: nat, x: int, y: int)
    requires x <= y
    ensures n * x <= n * y
  {
  }

  /**
   * After a retarget from `previous` to `require` the changer sleeps at most max(previous, require)
   * seconds on its way up, and at most half a minute more than that on its way down.
   */
  lemma {:induction false} SettlingTime(s: Settings)
    requires s.interval == s.previous && MIN_DEFAULT <= s.previous <= MAX_DEFAULT
    requires -STEP <= s.require - s.previous <= STEP
    ensures var total := Slept(s, Distance(s));
            if s.require >= s.previous then total <= s.require else total <= s.previous + 30
  {
    var n, p := Distance(s), s.previous;
    EachStepPauses(s, n);
    ProductBound(n, p);
    assert Pause(s) == (p + 30) / STEP;
    assert STEP * Slept(s, n) <= n * (p + 30);
    if s.require >= p {
      RisingBound(n, p);
    } else {
      MulMono(p + 30, n, STEP);
    }
  }

  lemma {:induction false} RisingBound(n: nat, p: int)
    requires n <= STEP && p >= 30
    ensures n * (p + 30) <= STEP * (p + n)
  {
  }

  /**
   * The promise made beside `stepInterval`, that max(previous, require) seconds are enough for a whole
   * step, holds on the way down, by any `n` of at most 60 seconds, exactly if the rounding of
   * previous / 60 goes down or `n` is small enough.
   */
  lemma {:induction false} FallingOnTimeIff(s: Settings, n: nat)
    requires s.interval == s.previous && MIN_DEFAULT <= s.previous <= MAX_DEFAULT
    requires 1 <= n <= 60 && s.require == s.previous - n
    ensures Slept(s, Distance(s)) <= s.previous
       <==> s.previous % 60 < 30 || n * (s.previous / 60 + 1) <= s.previous
  {
    hide Slept, Pause;
    var minutes, rest := s.previous / STEP, s.previous % STEP;
    RoundedPause(s, minutes, rest);
    EachStepPauses(s, n);
    MulMono(minutes, n, STEP);
  }

  /** A fall by a minute, between the default limits, that takes a second too long. */
  lemma {:induction false} FallingLate()
    ensures var s := Settings(299, 239, 299, MIN_DEFAULT, MAX_DEFAULT);
      Slept(s, Distance(s)) == 300 > s.previous
        && !(s.previous % STEP < 30 || 60 * (s.previous / STEP + 1) <= s.previous)
  {
    hide Slept;
    EachStepPauses(Settings(299, 239, 299, MIN_DEFAULT, MAX_DEFAULT), 60);
  }

  lemma {:induction false} RoundedPause(s: Settings, minutes: int, rest: int)
    requires minutes >= 1 && s.previous == STEP * minutes + rest && 0 <= rest < STEP
    ensures Pause(s) == if rest < 30 then minutes else minutes + 1
  {
  }

  // ---------------------------------------------------------------- the start

  /**
   * The start is not clamped. From a settled start at `x`, wherever it lies, the first retarget wraps
   * around exactly below 60 when the machine is idle, and exactly from 2^32 - 60 on when it is busy;
   * it then goes to the opposite limit.
   */
  lemma {:induction false} StartWrapsIff(x: u32, min: int, max: int)
    requires MIN_DEFAULT <= min <= max <= MAX_DEFAULT
    ensures var s := Settings(x, x, x, min, max);
      && (Updated(s, Below).require == Nice(s, x - 60) <==> x >= 60 || min == max)
      && (x < 60 ==> Updated(s, Below).require == max)
      && (Updated(s, Above).require == Nice(s, x + 60) <==> x < 0x1_0000_0000 - 60 || min == max)
      && (x >= 0x1_0000_0000 - 60 ==> Updated(s, Above).require == min)
  {
    var s := Settings(x, x, x, min, max);
    if x < STEP {
      assert Wrap32(x - STEP) == x - STEP + WORD;
    } else {
      assert Wrap32(x - STEP) == x - STEP;
    }
    if x >= WORD - STEP {
      assert Wrap32(x + STEP) == x + STEP - WORD;
    } else {
      assert Wrap32(x + STEP) == x + STEP;
    }
  }

  // ---------------------------------------------------------------- the limits

  /** argument.c:143-146: whatever limits are asked for, these are used. */
  method ClampLimits(min: u32, max: u32) returns (minInterval: u32, maxInterval: u32)
    ensures 239 <= minInterval <= maxInterval <= 1799
    ensures 239 <= min <= max <= 1799 ==> minInterval == min && maxInterval == max
  {
    minInterval := if MIN_DEFAULT > min then MIN_DEFAULT else min;
    minInterval := if MAX_DEFAULT < minInterval then MAX_DEFAULT else minInterval;
    maxInterval := if minInterval > max then minInterval else max;
    maxInterval := if MAX_DEFAULT < maxInterval then MAX_DEFAULT else maxInterval;
  }
}
