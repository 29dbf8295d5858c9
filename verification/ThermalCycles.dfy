/** Temperature cycles of the cooling box: a counter that goes down by half a cycle whenever
    the temperature has passed a limit, in a routine that calls itself through the setpoint. */
module ThermalCycles {
  /** What one look at the box finds: it has to be dried first, or its temperature. */
  datatype Reading = Blocked | Reads(temp: real)

  type Readings = nat -> Reading

  /** The setpoint that stands for none. */
  const NO_SETPOINT := -9999.0

  /** How far beyond the limits the setpoints lie. */
  const EXTRA := 2.0

  /** The counter after the last cycle, in half cycles. */
  const OVER := -2

  /** The cycling state. The counter counts half cycles; asked lists the setpoints that were
      asked for since cycling was started; at is the number of readings so far. */
  datatype Box = Box(halves: int, setpoint: real, low: real, high: real, asked: seq<real>, at: nat)

  function Remaining(b: Box): nat {
    if b.halves < 0 then 0 else b.halves + 1
  }

  // ----- the three routines that call one another -----

  function Ask(b: Box, temp: real, readings: Readings): (r: Box)
    ensures Remaining(r) <= Remaining(b) && (b.halves == OVER ==> r.halves == OVER)
    decreases Remaining(b), 2
  {
    var c := b.(asked := b.asked + [temp]);
    if b.setpoint == temp then c
    else if temp == NO_SETPOINT then c.(setpoint := temp)
    else Stabilized(c.(setpoint := temp), readings)
  }

  function Stabilized(b: Box, readings: Readings): (r: Box)
    ensures Remaining(r) <= Remaining(b) && (b.halves == OVER ==> r.halves == OVER)
    decreases Remaining(b), 1
  {
    match readings(b.at)
    case Blocked => b.(at := b.at + 1)
    case Reads(temp) => Checked(b.(at := b.at + 1), temp, readings)
  }

  function Checked(b: Box, temp: real, readings: Readings): (r: Box)
    ensures Remaining(r) <= Remaining(b) && (b.halves == OVER ==> r.halves == OVER)
    decreases Remaining(b), 0
  {
    if b.halves == OVER then b
    else
      var c := if b.halves == 0 && temp > b.high then Ask(b.(halves := OVER), b.high, readings) else b;
      var d := if temp < c.low && c.halves % 2 == 1 && c.halves > 0
               then Ask(c.(halves := c.halves - 1), c.high + EXTRA, readings) else c;
      if temp > d.high && d.halves % 2 == 0 && d.halves > 0
      then Ask(d.(halves := d.halves - 1), d.low - EXTRA, readings) else d
  }

  function Started(b: Box, cycles: int, low: real, high: real, readings: Readings): Box {
    Ask(b.(halves := 2 * cycles, low := low, high := high, asked := []), high + EXTRA, readings)
  }

  /** The state after n more looks at the box from outside. */
  function Watched(b: Box, n: nat, readings: Readings): Box {
    if n == 0 then b else Stabilized(Watched(b, n - 1, readings), readings)
  }

  // ----- the number of switches -----

  function Turning(i: nat, low: real, high: real): real {
    if i % 2 == 0 then high + EXTRA else low - EXTRA
  }

  function Zigzag(n: nat, low: real, high: real): (r: seq<real>)
    ensures |r| == n
  {
    seq(n, i requires i >= 0 => Turning(i, low, high))
  }

  /** What has been asked for once the counter is there: up and down in turn, and at the end
      the upper limit. */
  predicate OnScript(b: Box, cycles: int) {
    && b.asked != [] && b.setpoint == b.asked[|b.asked| - 1]
    && if cycles < 0 then b.halves == 2 * cycles && b.asked == Zigzag(1, b.low, b.high)
       else if b.halves == OVER then b.asked == Zigzag(2 * cycles + 1, b.low, b.high) + [b.high]
       else 0 <= b.halves <= 2 * cycles && b.asked == Zigzag(2 * cycles + 1 - b.halves, b.low, b.high)
  }

  /** The same before the last setpoint asked for has been set. */
  predicate ToAsk(b: Box, temp: real, cycles: int) {
    OnScript(b.(setpoint := temp, asked := b.asked + [temp]), cycles)
  }

  lemma {:induction false} AskOnScript(b: Box, temp: real, readings: Readings, cycles: int)
    requires ToAsk(b, temp, cycles)
    ensures OnScript(Ask(b, temp, readings), cycles) && SameLimits(Ask(b, temp, readings), b)
    decreases Remaining(b), 2
  {
    hide OnScript;
    if b.setpoint != temp && temp != NO_SETPOINT {
      StabilizedOnScript(b.(setpoint := temp, asked := b.asked + [temp]), readings, cycles);
    } else {
      assert b.(asked := b.asked + [temp], setpoint := temp) == b.(setpoint := temp, asked := b.asked + [temp]);
    }
  }

  predicate SameLimits(b: Box, c: Box) {
    b.low == c.low && b.high == c.high
  }

  lemma {:induction false} StabilizedOnScript(b: Box, readings: Readings, cycles: int)
    requires OnScript(b, cycles)
    ensures OnScript(Stabilized(b, readings), cycles) && SameLimits(Stabilized(b, readings), b)
    decreases Remaining(b), 1
  {
    if readings(b.at).Reads? {
      CheckedOnScript(b.(at := b.at + 1), readings(b.at).temp, readings, cycles);
    }
  }

  lemma {:induction false} CheckedOnScript(b: Box, temp: real, readings: Readings, cycles: int)
    requires OnScript(b, cycles)
    ensures OnScript(Checked(b, temp, readings), cycles) && SameLimits(Checked(b, temp, readings), b)
    decreases Remaining(b), 0
  {
    hide OnScript, ToAsk, Ask;
    if b.halves != OVER {
      var c := if b.halves == 0 && temp > b.high then Ask(b.(halves := OVER), b.high, readings) else b;
      if b.halves == 0 && temp > b.high {
        LastOnScript(b, cycles);
        AskOnScript(b.(halves := OVER), b.high, readings, cycles);
      }
      var d := if temp < c.low && c.halves % 2 == 1 && c.halves > 0
               then Ask(c.(halves := c.halves - 1), c.high + EXTRA, readings) else c;
      if temp < c.low && c.halves % 2 == 1 && c.halves > 0 {
        NextOnScript(c, cycles);
        AskOnScript(c.(halves := c.halves - 1), c.high + EXTRA, readings, cycles);
      }
      if temp > d.high && d.halves % 2 == 0 && d.halves > 0 {
        NextOnScript(d, cycles);
        AskOnScript(d.(halves := d.halves - 1), d.low - EXTRA, readings, cycles);
      }
    }
  }

  lemma NextOnScript(b: Box, cycles: int)
    requires OnScript(b, cycles) && b.halves > 0
    ensures ToAsk(b.(halves := b.halves - 1), if b.halves % 2 == 1 then b.high + EXTRA else b.low - EXTRA, cycles)
  {
    var n := 2 * cycles + 1 - b.halves;
    assert Zigzag(n + 1, b.low, b.high) == Zigzag(n, b.low, b.high) + [Turning(n, b.low, b.high)];
  }

  lemma LastOnScript(b: Box, cycles: int)
    requires OnScript(b, cycles) && b.halves == 0
    ensures ToAsk(b.(halves := OVER), b.high, cycles)
  {
  }

  /** From the start of cycling on, whatever the readings. */
  lemma {:induction false} CyclingOnScript(b: Box, cycles: int, low: real, high: real, n: nat, readings: Readings)
    ensures var r := Watched(Started(b, cycles, low, high, readings), n, readings);
            OnScript(r, cycles) && r.low == low && r.high == high
  {
    hide Ask, OnScript, ToAsk, Stabilized;
    if n == 0 {
      var c := b.(halves := 2 * cycles, low := low, high := high, asked := []);
      FirstOnScript(c, cycles);
      AskOnScript(c, high + EXTRA, readings, cycles);
    } else {
      CyclingOnScript(b, cycles, low, high, n - 1, readings);
      StabilizedOnScript(Watched(Started(b, cycles, low, high, readings), n - 1, readings), readings, cycles);
    }
  }

  lemma FirstOnScript(c: Box, cycles: int)
    requires c.asked == [] && c.halves == 2 * cycles
    ensures ToAsk(c, c.high + EXTRA, cycles)
  {
    assert Zigzag(1, c.low, c.high) == [c.high + EXTRA];
  }

  /** The first setpoint lies two degrees above the upper limit. */
  lemma FirstAsked(b: Box, cycles: int)
    requires OnScript(b, cycles)
    ensures b.asked[0] == b.high + 2.0
  {
  }

  function Count(s: seq<real>, x: real): nat {
    if s == [] then 0 else Count(s[..|s| - 1], x) + if s[|s| - 1] == x then 1 else 0
  }

  lemma {:induction false} ZigzagCount(n: nat, low: real, high: real)
    requires low - EXTRA != high + EXTRA
    ensures Count(Zigzag(n, low, high), low - EXTRA) == n / 2
    ensures Count(Zigzag(n, low, high), high + EXTRA) == (n + 1) / 2
  {
    if n > 0 {
      ZigzagCount(n - 1, low, high);
      assert Zigzag(n, low, high)[..n - 1] == Zigzag(n - 1, low, high);
      assert Zigzag(n, low, high)[n - 1] == Turning(n - 1, low, high);
    }
  }

  /** When cycling is over, the box was sent to the low setpoint as often as cycles were
      asked for, each time back up, and stays at the upper limit. */
  lemma OverIsDone(b: Box, cycles: nat)
    requires OnScript(b, cycles) && b.halves == OVER && b.low < b.high
    ensures b.setpoint == b.high && |b.asked| == 2 * cycles + 2
    ensures Count(b.asked[1..|b.asked| - 1], b.low - 2.0) == cycles
    ensures Count(b.asked[1..|b.asked| - 1], b.high + 2.0) == cycles
    ensures forall i | 0 <= i < |b.asked| - 1 :: b.asked[i] == if i % 2 == 0 then b.high + 2.0 else b.low - 2.0
  {
    hide Zigzag, Count;
    var n := 2 * cycles + 1;
    var s := Zigzag(n, b.low, b.high);
    assert b.asked[1..|b.asked| - 1] == s[1..] && b.asked[..n] == s;
    ZigzagAt(n, b.low, b.high);
    assert forall i | 0 <= i < n :: b.asked[i] == s[i];
    CountTail(s, b.low - EXTRA);
    CountTail(s, b.high + EXTRA);
    ZigzagCount(n, b.low, b.high);
  }

  lemma ZigzagAt(n: nat, low: real, high: real)
    ensures forall i | 0 <= i < n :: Zigzag(n, low, high)[i] == Turning(i, low, high)
  {
  }

  lemma {:induction false} CountTail(s: seq<real>, x: real)
    requires s != []
    ensures Count(s, x) == Count(s[1..], x) + if s[0] == x then 1 else 0
  {
    if |s| > 1 {
      CountTail(s[..|s| - 1], x);
      assert s[..|s| - 1][1..] == s[1..][..|s| - 2];
    }
  }

  // ----- the calls within calls are a plain loop over the readings -----

  /** What one temperature does to the counter. */
  function Moved(b: Box, temp: real): Box {
    var ask := (c: Box, t: real) => c.(asked := c.asked + [t], setpoint := t);
    if b.halves == 0 && temp > b.high then ask(b.(halves := OVER), b.high)
    else if b.halves > 0 && b.halves % 2 == 1 && temp < b.low then ask(b.(halves := b.halves - 1), b.high + EXTRA)
    else if b.halves > 0 && b.halves % 2 == 0 && temp > b.high then ask(b.(halves := b.halves - 1), b.low - EXTRA)
    else b
  }

  function Looked(b: Box, reading: Reading): Box {
    var c := b.(at := b.at + 1);
    match reading case Blocked => c case Reads(temp) => Moved(c, temp)
  }

  /** The loop over n readings. */
  function Looped(b: Box, n: nat, readings: Readings): Box
    decreases n
  {
    if n == 0 then b else Looped(Looked(b, readings(b.at)), n - 1, readings)
  }

  /** Whether one call is a loop over the readings it consumes. */
  predicate IsLoop(b: Box, readings: Readings) {
    var r := Stabilized(b, readings);
    r.at > b.at && r == Looped(b, r.at - b.at, readings)
  }

  predicate StartsLoop(b: Box, r: Box, readings: Readings) {
    r.at >= b.at && r == Looped(b, r.at - b.at, readings)
  }

  lemma {:induction false} AskIsLoop(b: Box, temp: real, readings: Readings)
    requires b.low <= b.high
    ensures StartsLoop(b.(asked := b.asked + [temp], setpoint := temp), Ask(b, temp, readings), readings)
    ensures SameLimits(Ask(b, temp, readings), b)
    decreases Remaining(b), 2
  {
    if b.setpoint != temp && temp != NO_SETPOINT {
      StabilizedIsLoop(b.(asked := b.asked + [temp], setpoint := temp), readings);
    }
  }

  lemma {:induction false} StabilizedIsLoop(b: Box, readings: Readings)
    requires b.low <= b.high
    ensures IsLoop(b, readings) && SameLimits(Stabilized(b, readings), b)
    decreases Remaining(b), 1
  {
    hide Looped, Checked, Moved;
    var c := b.(at := b.at + 1);
    match readings(b.at) {
      case Blocked =>
        LoopedNext(b, 0, readings);
        LoopedNothing(c, readings);
      case Reads(temp) =>
        CheckedIsLoop(c, temp, readings);
        MovedKeeps(c, temp);
        LoopedNext(b, Stabilized(b, readings).at - c.at, readings);
    }
  }

  lemma {:induction false} CheckedIsLoop(b: Box, temp: real, readings: Readings)
    requires b.low <= b.high
    ensures StartsLoop(Moved(b, temp), Checked(b, temp, readings), readings)
    ensures SameLimits(Checked(b, temp, readings), b)
    decreases Remaining(b), 0
  {
    hide Ask, Looped;
    LoopedNothing(b, readings);
    if b.halves == 0 && temp > b.high {
      AskIsLoop(b.(halves := OVER), b.high, readings);
    } else if b.halves > 0 && b.halves % 2 == 1 && temp < b.low {
      AskIsLoop(b.(halves := b.halves - 1), b.high + EXTRA, readings);
    } else if b.halves > 0 && b.halves % 2 == 0 && temp > b.high {
      AskIsLoop(b.(halves := b.halves - 1), b.low - EXTRA, readings);
    }
  }

  lemma MovedKeeps(b: Box, temp: real)
    ensures Moved(b, temp).at == b.at
  {
  }

  lemma LoopedNothing(b: Box, readings: Readings)
    ensures Looped(b, 0, readings) == b
  {
  }

  lemma StabilizedOnce(b: Box, readings: Readings)
    ensures Stabilized(b, readings)
            == match readings(b.at) case Blocked => b.(at := b.at + 1)
               case Reads(temp) => Checked(b.(at := b.at + 1), temp, readings)
  {
  }

  lemma AskSame(b: Box, readings: Readings)
    ensures Ask(b, b.setpoint, readings) == b.(asked := b.asked + [b.setpoint])
  {
  }

  lemma AskBlocked(b: Box, temp: real, readings: Readings)
    requires readings(b.at) == Blocked
    ensures var r := Ask(b, temp, readings);
            && r.halves == b.halves && r.setpoint == temp && SameLimits(r, b)
            && r.at == if b.setpoint == temp || temp == NO_SETPOINT then b.at else b.at + 1
  {
  }

  lemma AskQuiet(b: Box, temp: real, readings: Readings)
    requires b.setpoint == temp || temp == NO_SETPOINT
    ensures var r := Ask(b, temp, readings);
            r.halves == b.halves && r.setpoint == temp && SameLimits(r, b) && r.at == b.at
  {
  }

  lemma LoopedNext(b: Box, n: nat, readings: Readings)
    ensures Looped(b, n + 1, readings) == Looped(Looked(b, readings(b.at)), n, readings)
  {
  }

  lemma {:induction false} LoopedOn(b: Box, m: nat, n: nat, readings: Readings)
    ensures Looped(Looped(b, m, readings), n, readings) == Looped(b, m + n, readings)
    decreases m
  {
    hide Looked;
    if m > 0 {
      LoopedOn(Looked(b, readings(b.at)), m - 1, n, readings);
    }
  }

  /** However the readings are divided among the calls from outside and the calls within. */
  lemma {:induction false} WatchedIsLoop(b: Box, n: nat, readings: Readings)
    requires b.low <= b.high
    ensures StartsLoop(b, Watched(b, n, readings), readings) && SameLimits(Watched(b, n, readings), b)
  {
    hide Looped, Stabilized;
    if n == 0 {
      LoopedNothing(b, readings);
    } else {
      var c := Watched(b, n - 1, readings);
      WatchedIsLoop(b, n - 1, readings);
      StabilizedIsLoop(c, readings);
      LoopedOn(b, c.at - b.at, Stabilized(c, readings).at - c.at, readings);
    }
  }

  /** Whether every run from the start of cycling is the plain loop over its readings. */
  ghost predicate RunsAreLoops(low: real, high: real) {
    forall b: Box, cycles: int, n: nat, readings: Readings ::
      StartsLoop(Started(b, cycles, low, high, readings), Watched(Started(b, cycles, low, high, readings), n, readings), readings)
  }

  /** With the limits the wrong way round one temperature can count twice; otherwise never. */
  lemma IsLoopIff(low: real, high: real)
    ensures RunsAreLoops(low, high) <==> low <= high
  {
    hide StartsLoop, Watched, Started;
    if low <= high {
      forall b: Box, cycles: int, n: nat, readings: Readings
        ensures StartsLoop(Started(b, cycles, low, high, readings), Watched(Started(b, cycles, low, high, readings), n, readings), readings)
      {
        CyclingOnScript(b, cycles, low, high, 0, readings);
        WatchedNothing(Started(b, cycles, low, high, readings), readings);
        WatchedIsLoop(Started(b, cycles, low, high, readings), n, readings);
      }
    } else {
      CountsTwice(low, high);
    }
  }

  lemma WatchedNothing(b: Box, readings: Readings)
    ensures Watched(b, 0, readings) == b
  {
  }

  /** One reading above the upper limit, later one between the limits, and nothing else. */
  function TwoReadings(low: real, high: real, k: nat): Readings {
    n => if n == 0 then Reads(high + 1.0) else if n == k then Reads((low + high) / 2.0) else Blocked
  }

  /** Two cycles are started. The first reading begins the first cycle, the second one ends it
      and begins the next. */
  lemma CountsTwice(low: real, high: real)
    requires high < low
    ensures !RunsAreLoops(low, high)
  {
    hide Ask, Stabilized, Checked, Looped, StartsLoop, TwoReadings;
    var b := Box(OVER, high + EXTRA, low, high, [], 0);
    var k := if low - EXTRA == high + EXTRA || low - EXTRA == NO_SETPOINT then 1 else 2;
    var readings := TwoReadings(low, high, k);
    TwoReadingsAre(low, high, k);
    var s := Started(b, 2, low, high, readings);
    AskSame(b.(halves := 4), readings);
    assert [] + [b.setpoint] == [high + EXTRA];
    assert s == Box(4, high + EXTRA, low, high, [high + EXTRA], 0);
    FirstLook(s, k, readings);
    var u := Stabilized(s, readings);
    SecondLook(u, k, readings);
    var r := Stabilized(u, readings);
    WatchedTwice(s, readings);
    forall m: nat
      ensures Looped(s, m, readings).halves >= 2
    {
      LoopedNothing(s, readings);
      if m > 0 {
        LoopedNext(s, m - 1, readings);
        var c := Looked(s, readings(0));
        assert c.halves == 3 && c.at == 1;
        OneReading(c, m - 1, k, readings);
      }
    }
    assert !StartsLoop(s, r, readings) by { NoLoop(s, r, readings); }
  }

  lemma NoLoop(s: Box, r: Box, readings: Readings)
    requires r.halves < 2 && forall m: nat :: Looped(s, m, readings).halves >= 2
    ensures !StartsLoop(s, r, readings)
  {
    hide Looped;
  }

  lemma TwoReadingsAre(low: real, high: real, k: nat)
    requires k > 0
    ensures var t := TwoReadings(low, high, k);
            && t(0) == Reads(high + 1.0) && t(k) == Reads((low + high) / 2.0)
            && forall i: nat :: i != 0 && i != k ==> t(i) == Blocked
  {
  }

  lemma WatchedTwice(s: Box, readings: Readings)
    ensures Watched(s, 2, readings) == Stabilized(Stabilized(s, readings), readings)
  {
    hide Stabilized;
    assert Watched(s, 1, readings) == Stabilized(Watched(s, 0, readings), readings);
  }

  lemma FirstLook(s: Box, k: nat, readings: Readings)
    requires s.halves == 4 && s.at == 0 && s.setpoint == s.high + EXTRA
    requires k == if s.low - EXTRA == s.setpoint || s.low - EXTRA == NO_SETPOINT then 1 else 2
    requires readings(0) == Reads(s.high + 1.0) && (k == 2 ==> readings(1) == Blocked)
    ensures var u := Stabilized(s, readings);
            u.halves == 3 && u.at == k && SameLimits(u, s)
  {
    hide Ask, Stabilized;
    StabilizedOnce(s, readings);
    var c := s.(at := 1, halves := 3);
    if k == 1 {
      AskQuiet(c, s.low - EXTRA, readings);
    } else {
      AskBlocked(c, s.low - EXTRA, readings);
    }
  }

  lemma SecondLook(u: Box, k: nat, readings: Readings)
    requires u.halves == 3 && u.at == k && u.high < u.low && readings(k) == Reads((u.low + u.high) / 2.0)
    requires forall i: nat :: i > k ==> readings(i) == Blocked
    ensures Stabilized(u, readings).halves == 1
  {
    hide Ask, Stabilized;
    StabilizedOnce(u, readings);
    var c := u.(at := k + 1, halves := 2);
    AskBlocked(c, u.high + EXTRA, readings);
    var d := Ask(c, u.high + EXTRA, readings);
    AskBlocked(d.(halves := 1), u.low - EXTRA, readings);
  }

  /** In the loop a single reading counts for one half cycle at most. */
  lemma {:induction false} OneReading(c: Box, m: nat, k: nat, readings: Readings)
    requires c.halves >= 2 && forall i: nat :: i >= c.at && i != k ==> readings(i) == Blocked
    ensures Looped(c, m, readings).halves >= if c.at > k then c.halves else c.halves - 1
    decreases m
  {
    if m > 0 {
      var d := Looked(c, readings(c.at));
      assert d.at == c.at + 1 && d.halves >= if c.at == k then c.halves - 1 else c.halves;
      if d.halves >= 2 {
        OneReading(d, m - 1, k, readings);
      } else {
        AfterReading(d, m - 1, readings);
      }
    }
  }

  lemma {:induction false} AfterReading(c: Box, m: nat, readings: Readings)
    requires forall i: nat :: i >= c.at ==> readings(i) == Blocked
    ensures Looped(c, m, readings).halves == c.halves
    decreases m
  {
    if m > 0 {
      AfterReading(Looked(c, readings(c.at)), m - 1, readings);
    }
  }

  /** When a single look counts: going down from an even number of half cycles it takes a reading
      above the upper limit, from an odd number one below the lower limit; and at zero, where the
      box is already above, cycling ends. */
  lemma LookCountsIff(b: Box, readings: Readings)
    requires b.low <= b.high && forall i: nat :: i > b.at ==> readings(i) == Blocked
    ensures var r := Stabilized(b, readings);
            if b.halves < 0 then r.halves == b.halves
            else
              var reading := readings(b.at);
              r.halves == if reading.Reads? && (if b.halves % 2 == 0 then reading.temp > b.high else reading.temp < b.low)
                          then (if b.halves == 0 then -2 else b.halves - 1) else b.halves
  {
    hide Stabilized, Checked;
    StabilizedOnce(b, readings);
    if readings(b.at).Reads? {
      CheckCountsIff(b.(at := b.at + 1), readings(b.at).temp, readings);
    }
  }

  lemma CheckCountsIff(c: Box, temp: real, readings: Readings)
    requires c.low <= c.high && forall i: nat :: i >= c.at ==> readings(i) == Blocked
    ensures Checked(c, temp, readings).halves
            == if c.halves >= 0 && (if c.halves % 2 == 0 then temp > c.high else temp < c.low)
               then (if c.halves == 0 then -2 else c.halves - 1) else c.halves
  {
    hide Ask;
    if c.halves == 0 && temp > c.high {
      AskBlocked(c.(halves := OVER), c.high, readings);
    } else if c.halves > 0 && c.halves % 2 == 1 && temp < c.low {
      AskBlocked(c.(halves := c.halves - 1), c.high + EXTRA, readings);
    } else if c.halves > 0 && c.halves % 2 == 0 && temp > c.high {
      AskBlocked(c.(halves := c.halves - 1), c.low - EXTRA, readings);
    }
  }

  lemma AskedFirst(b: Box, cycles: int, low: real, high: real, readings: Readings)
    ensures var r := Started(b, cycles, low, high, readings); r.asked != [] && r.asked[0] == high + 2.0
  {
    hide Ask, Started;
    CyclingOnScript(b, cycles, low, high, 0, readings);
    WatchedNothing(Started(b, cycles, low, high, readings), readings);
    FirstAsked(Started(b, cycles, low, high, readings), cycles);
  }

  // ----- the object -----

  class CoolingBox {
    const readings: Readings
    var halves: int
    var setpoint: real
    var cycleLow: real
    var cycleHigh: real
    var doCycle: bool
    var at: nat
    ghost var asked: seq<real>
    ghost var wanted: int

    ghost function View(): Box
      reads this
    {
      Box(halves, setpoint, cycleLow, cycleHigh, asked, at)
    }

    /** While cycling, everything went by the script. */
    ghost predicate Valid()
      reads this
    {
      doCycle ==> OnScript(View(), wanted)
    }

    constructor (readings: Readings)
      ensures Valid() && !doCycle && View() == Box(OVER, NO_SETPOINT, -10.0, 10.0, [], 0)
    {
      this.readings := readings;
      halves, setpoint, cycleLow, cycleHigh, doCycle, at := OVER, NO_SETPOINT, -10.0, 10.0, false, 0;
      asked, wanted := [], -1;
    }

    method SetSetpoint(temp: real)
      modifies this`halves, this`setpoint, this`at, this`asked
      ensures View() == Ask(old(View()), temp, readings)
      decreases Remaining(View()), 2
    {
      asked := asked + [temp];
      if setpoint != temp {
        setpoint := temp;
        if temp != NO_SETPOINT {
          Stabilize();
        }
      }
    }

    method Stabilize()
      modifies this`halves, this`setpoint, this`at, this`asked
      ensures View() == Stabilized(old(View()), readings)
      decreases Remaining(View()), 1
    {
      var reading := readings(at);
      at := at + 1;
      if reading.Reads? {
        CheckCycles(reading.temp);
      }
    }

    method CheckCycles(temp: real)
      modifies this`halves, this`setpoint, this`at, this`asked
      ensures View() == Checked(old(View()), temp, readings)
      decreases Remaining(View()), 0
    {
      hide Ask;
      if halves == OVER {
        return;
      }
      if halves == 0 && temp > cycleHigh {
        halves := OVER;
        SetSetpoint(cycleHigh);
      }
      if temp < cycleLow && halves % 2 == 1 && halves > 0 {
        halves := halves - 1;
        SetSetpoint(cycleHigh + EXTRA);
      }
      if temp > cycleHigh && halves % 2 == 0 && halves > 0 {
        halves := halves - 1;
        SetSetpoint(cycleLow - EXTRA);
      }
    }

    method DoCycle(cycles: int, low: real, high: real)
      modifies this
      ensures doCycle && wanted == cycles && Valid()
      ensures View() == Started(old(View()), cycles, low, high, readings)
      ensures asked != [] && asked[0] == high + 2.0 && cycleLow == low && cycleHigh == high
    {
      hide Ask, OnScript;
      AskedFirst(View(), cycles, low, high, readings);
      CyclingOnScript(View(), cycles, low, high, 0, readings);
      doCycle, wanted := true, cycles;
      halves, cycleLow, cycleHigh, asked := 2 * cycles, low, high, [];
      SetSetpoint(high + EXTRA);
    }

    /** One look from outside, as the status thread takes it. */
    method Watch()
      requires Valid()
      modifies this`halves, this`setpoint, this`at, this`asked
      ensures Valid() && View() == Stabilized(old(View()), readings)
    {
      hide OnScript, Stabilized;
      if doCycle {
        StabilizedOnScript(View(), readings, wanted);
      }
      Stabilize();
    }

    /** Whether the box is where it should be; near says so when it is not cycling. The end
        of cycling is reported once, and only after exactly the cycles wanted. */
    method IsStable(near: bool) returns (r: bool)
      requires Valid()
      modifies this`doCycle
      ensures Valid() && View() == old(View())
      ensures !old(doCycle) ==> r == near && !doCycle
      ensures old(doCycle) ==> r == (halves == OVER) && doCycle == !r
      ensures old(doCycle) && r ==> OnScript(View(), wanted) && wanted >= -1
      ensures old(doCycle) && r && wanted >= 0 && cycleLow < cycleHigh ==>
                && setpoint == cycleHigh && |asked| == 2 * wanted + 2
                && Count(asked[1..|asked| - 1], cycleLow - 2.0) == wanted
                && Count(asked[1..|asked| - 1], cycleHigh + 2.0) == wanted
    {
      if doCycle {
        r := halves == OVER;
        if r {
          doCycle := false;
          if wanted >= 0 && cycleLow < cycleHigh {
            OverIsDone(View(), wanted);
          }
        }
      } else {
        r := near;
      }
    }
  }
}
