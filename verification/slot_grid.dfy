/** ExpandSlots: the half-hour grid of a time window, crossed with the table types. */
module SlotGrid {
  import opened Options
  import opened SlotRanking
  import Goals

  const STEP: nat := 30
  const LATER: int := 2

  /** Panic is no error value: make is asked for a negative capacity, and the program stops. */
  datatype ExpandError = InvalidWindow | Panic

  type ClockTime = Goals.WallTime

  function MinutesOfDay(w: WallTime): int { w.hour * 60 + w.minute }

  function FromMinutes(m: nat, second: int): WallTime { WallTime(m / 60, m % 60, second) }

  /** wallTimeAfterPub. */
  predicate After(a: WallTime, b: WallTime) {
    if a.hour != b.hour then a.hour > b.hour
    else if a.minute != b.minute then a.minute > b.minute
    else a.second > b.second
  }

  /** A reading of a clock, as ParseWallTime yields them. */
  predicate OnClock(w: WallTime) { 0 <= w.hour && 0 <= w.minute < 60 && 0 <= w.second < 60 }

  predicate ValidWindow(start: WallTime, end: WallTime) { OnClock(start) && OnClock(end) && !After(start, end) }

  lemma ClockOrder(a: WallTime, b: WallTime)
    requires OnClock(a) && OnClock(b)
    ensures After(a, b) <==>
            MinutesOfDay(a) > MinutesOfDay(b) || (MinutesOfDay(a) == MinutesOfDay(b) && a.second > b.second)
  {
  }

  function Count(start: ClockTime, end: ClockTime): nat {
    if MinutesOfDay(end) < MinutesOfDay(start) then 0 else (MinutesOfDay(end) - MinutesOfDay(start)) / STEP + 1
  }

  /** Go's division, towards zero. */
  function Quotient(a: int, b: nat): int
    requires b > 0
  {
    if a >= 0 then a / b else -(-a / b)
  }

  /** The capacity enumerateTimes asks make for. */
  function Capacity(start: ClockTime, end: ClockTime): int {
    Quotient(MinutesOfDay(end) - MinutesOfDay(start), STEP) + 1
  }

  /** A window that is expanded: not inverted, and with a capacity make accepts. */
  predicate Expandable(start: ClockTime, end: ClockTime) { !After(start, end) && Capacity(start, end) >= 0 }

  /** The k-th time of the grid, earliest first. */
  function GridTime(start: ClockTime, k: nat): WallTime {
    FromMinutes(MinutesOfDay(start) + STEP * k, start.second)
  }

  function Grid(start: ClockTime, n: nat): seq<WallTime> {
    seq(n, k requires 0 <= k < n => GridTime(start, k))
  }

  /** Latest first. */
  function Backwards(times: seq<WallTime>): seq<WallTime> {
    seq(|times|, k requires 0 <= k < |times| => times[|times| - 1 - k])
  }

  function OrderedTimes(start: ClockTime, end: ClockTime, priority: int): seq<WallTime> {
    if priority == LATER then Backwards(Grid(start, Count(start, end))) else Grid(start, Count(start, end))
  }

  function Tables(c: Goals.Constraints): (ts: seq<string>)
    ensures |ts| > 0
  {
    if c.anyTable || c.tableTypes == [] then [""] else c.tableTypes
  }

  function AtTime(t: WallTime, tables: seq<string>): seq<SlotPreference> {
    seq(|tables|, j requires 0 <= j < |tables| => SlotPreference(t, tables[j]))
  }

  function Cross(times: seq<WallTime>, tables: seq<string>): seq<SlotPreference> {
    if times == [] then [] else Cross(times[..|times| - 1], tables) + AtTime(times[|times| - 1], tables)
  }

  function Expanded(w: Goals.TimeWindow, c: Goals.Constraints): seq<SlotPreference> {
    Cross(OrderedTimes(w.start, w.end, w.priority), Tables(c))
  }

  // The code

  /** Two indices meet in the middle; outside them the times have changed places, and between
      them they have not. */
  method TurnAround(asc: array<WallTime>)
    modifies asc
    ensures asc[..] == Backwards(old(asc[..]))
  {
    ghost var was, want := asc[..], Backwards(asc[..]);
    var i, j := 0, asc.Length - 1;
    while i < j
      invariant 0 <= i <= j + 1 && i + j == asc.Length - 1
      invariant forall k | 0 <= k < i :: asc[k] == want[k]
      invariant forall k | j < k < asc.Length :: asc[k] == want[k]
      invariant forall k | i <= k <= j :: asc[k] == was[k]
    {
      assert want[i] == was[j] && want[j] == was[i];
      asc[i], asc[j] := asc[j], asc[i];
      i, j := i + 1, j - 1;
    }
    assert i == j ==> want[i] == was[i];
    assert asc[..] == want;
  }

  /** None is make's panic. */
  method EnumerateTimes(w: Goals.TimeWindow) returns (r: Option<seq<WallTime>>)
    ensures r.None? <==> Capacity(w.start, w.end) < 0
    ensures r.Some? ==> r.value == OrderedTimes(w.start, w.end, w.priority)
  {
    var startMin, endMin := MinutesOfDay(w.start), MinutesOfDay(w.end);
    var times := [FromMinutes(startMin, w.start.second)];
    if startMin == endMin {
      assert OrderedTimes(w.start, w.end, w.priority) == times;
      return Some(times);
    }
    if Quotient(endMin - startMin, STEP) + 1 < 0 {
      return None;
    }
    times := [];
    var m: nat := startMin;
    while m <= endMin
      invariant m == startMin + STEP * |times| && (times == [] || m <= endMin + STEP)
      invariant times == Grid(w.start, |times|)
    {
      times := times + [FromMinutes(m, w.start.second)];
      m := m + STEP;
    }
    assert |times| == Count(w.start, w.end);
    if w.priority == LATER {
      var a := new WallTime[|times|](i requires 0 <= i < |times| => times[i]);
      assert a[..] == times;
      TurnAround(a);
      times := a[..];
    }
    return Some(times);
  }

  method ExpandSlots(w: Goals.TimeWindow, c: Goals.Constraints)
    returns (r: Result<seq<SlotPreference>, ExpandError>)
    ensures r == Err(InvalidWindow) <==> After(w.start, w.end)
    ensures r.Ok? <==> Expandable(w.start, w.end)
    ensures r.Ok? ==> r.value == Expanded(w, c)
  {
    if After(w.start, w.end) {
      return Err(InvalidWindow);
    }
    var enumerated := EnumerateTimes(w);
    if enumerated.None? {
      return Err(Panic);
    }
    var times := enumerated.value;
    var tables := Tables(c);
    var prefs: seq<SlotPreference> := [];
    for i := 0 to |times|
      invariant prefs == Cross(times[..i], tables)
    {
      ghost var before := prefs;
      for j := 0 to |tables|
        invariant prefs == before + AtTime(times[i], tables)[..j]
      {
        prefs := prefs + [SlotPreference(times[i], tables[j])];
      }
      assert AtTime(times[i], tables)[..|tables|] == AtTime(times[i], tables);
      assert times[..i + 1][..i] == times[..i];
    }
    assert times[..|times|] == times;
    return Ok(prefs);
  }

  // What the grid is

  /** Stepping by minutes and back gives the minutes again. */
  lemma GridTimeIs(start: ClockTime, k: nat)
    ensures MinutesOfDay(GridTime(start, k)) == MinutesOfDay(start) + STEP * k
    ensures GridTime(start, k).second == start.second && (start.second < 60 ==> OnClock(GridTime(start, k)))
  {
  }

  lemma MinutesBack(t: WallTime)
    requires OnClock(t)
    ensures FromMinutes(MinutesOfDay(t), t.second) == t
  {
    DivideSixty(t.hour, t.minute);
  }

  lemma DivideSixty(h: int, m: int)
    requires 0 <= h && 0 <= m < 60
    ensures (h * 60 + m) / 60 == h && (h * 60 + m) % 60 == m
  {
  }

  /** The step a clock time is, if it is one. */
  function StepOf(start: ClockTime, t: WallTime): int { (MinutesOfDay(t) - MinutesOfDay(start)) / STEP }

  lemma StepIsGridTime(start: ClockTime, t: WallTime, k: nat)
    requires OnClock(t)
    ensures t == GridTime(start, k) <==> t.second == start.second && MinutesOfDay(t) == MinutesOfDay(start) + STEP * k
  {
    GridTimeIs(start, k);
    MinutesBack(t);
    hide MinutesOfDay, FromMinutes;
  }

  lemma StepInRange(start: ClockTime, end: ClockTime, t: WallTime)
    ensures var s, m, e, k := MinutesOfDay(start), MinutesOfDay(t), MinutesOfDay(end), StepOf(start, t);
            s <= m <= e && (m - s) % STEP == 0 <==> 0 <= k < Count(start, end) && m == s + STEP * k
  {
    hide MinutesOfDay;
  }

  /** A clock time is on the grid of any window exactly when it lies in the window's minutes, a
      whole number of steps after the start, with the start's seconds. */
  lemma GridExact(start: ClockTime, end: ClockTime, t: WallTime)
    requires OnClock(t)
    ensures t in Grid(start, Count(start, end)) <==>
            && t.second == start.second && MinutesOfDay(start) <= MinutesOfDay(t) <= MinutesOfDay(end)
            && (MinutesOfDay(t) - MinutesOfDay(start)) % STEP == 0
  {
    StepInRange(start, end, t);
    hide MinutesOfDay, GridTime, Count;
    var n, g := Count(start, end), Grid(start, Count(start, end));
    if t in g {
      var k :| 0 <= k < n && g[k] == t;
      StepIsGridTime(start, t, k);
      assert StepOf(start, t) == k;
    }
    if 0 <= StepOf(start, t) < n && t.second == start.second {
      StepIsGridTime(start, t, StepOf(start, t));
      assert g[StepOf(start, t)] == GridTime(start, StepOf(start, t));
    }
  }

  /** Every grid time lies inside the window exactly when the start's seconds do not pass the
      end's, or the last step falls short of the end's minute. */
  lemma InsideWindowExactly(start: ClockTime, end: ClockTime)
    requires ValidWindow(start, end)
    ensures (forall k | 0 <= k < Count(start, end) ::
               !After(start, GridTime(start, k)) && !After(GridTime(start, k), end))
            <==> start.second <= end.second || (MinutesOfDay(end) - MinutesOfDay(start)) % STEP != 0
  {
    ClockOrder(start, end);
    var n := Count(start, end);
    forall k | 0 <= k < n
      ensures !After(start, GridTime(start, k))
      ensures After(GridTime(start, k), end) <==>
              MinutesOfDay(start) + STEP * k == MinutesOfDay(end) && start.second > end.second
    {
      GridTimeIs(start, k);
      ClockOrder(start, GridTime(start, k));
      ClockOrder(GridTime(start, k), end);
    }
    if start.second > end.second && (MinutesOfDay(end) - MinutesOfDay(start)) % STEP == 0 {
      assert MinutesOfDay(start) + STEP * (n - 1) == MinutesOfDay(end);
      assert After(GridTime(start, n - 1), end);
    }
  }

  lemma {:induction false} CrossLength(times: seq<WallTime>, tables: seq<string>)
    ensures |Cross(times, tables)| == |times| * |tables|
  {
    if times != [] {
      CrossLength(times[..|times| - 1], tables);
      assert (|times| - 1) * |tables| + |tables| == |times| * |tables|;
    }
  }

  /** Time by time in order, and within each time the tables in the caller's order. */
  lemma {:induction false} CrossAt(times: seq<WallTime>, tables: seq<string>, i: nat, j: nat)
    requires i < |times| && j < |tables|
    ensures 0 <= i * |tables| + j < |Cross(times, tables)|
    ensures Cross(times, tables)[i * |tables| + j] == SlotPreference(times[i], tables[j])
  {
    var p := times[..|times| - 1];
    CrossLength(p, tables);
    if i == |times| - 1 {
      assert |p| * |tables| == i * |tables|;
    } else {
      CrossAt(p, tables, i, j);
    }
  }

  /** The grid's size, and the slot at each place of it, under either order. */
  lemma ExpandedExact(w: Goals.TimeWindow, c: Goals.Constraints, k: nat, j: nat)
    requires k < Count(w.start, w.end) && j < |Tables(c)|
    ensures var i := if w.priority == LATER then Count(w.start, w.end) - 1 - k else k;
            if c.anyTable || |c.tableTypes| == 0 then
              && |Expanded(w, c)| == Count(w.start, w.end) && 0 <= i < |Expanded(w, c)|
              && Expanded(w, c)[i] == SlotPreference(GridTime(w.start, k), "")
            else
              && |Expanded(w, c)| == Count(w.start, w.end) * |c.tableTypes| && j < |c.tableTypes|
              && 0 <= i * |c.tableTypes| + j < |Expanded(w, c)|
              && Expanded(w, c)[i * |c.tableTypes| + j] == SlotPreference(GridTime(w.start, k), c.tableTypes[j])
  {
    var times := OrderedTimes(w.start, w.end, w.priority);
    var i := if w.priority == LATER then Count(w.start, w.end) - 1 - k else k;
    CrossLength(times, Tables(c));
    CrossAt(times, Tables(c), i, j);
  }

  // Windows off the clock face

  /** The capacity is negative, which stops the program, exactly when the start's minutes are
      an hour or more past the end's. A window on the clock face never is so, and expands
      whenever it is not inverted. */
  lemma CapacityNegativeExactly(start: ClockTime, end: ClockTime)
    ensures Capacity(start, end) < 0 <==> MinutesOfDay(start) >= MinutesOfDay(end) + 2 * STEP
    ensures OnClock(start) && OnClock(end) ==> (Expandable(start, end) <==> ValidWindow(start, end))
    ensures ValidWindow(start, end) ==> Count(start, end) > 0
  {
    if OnClock(start) && OnClock(end) {
      ClockOrder(start, end);
    }
  }

  /** Two windows with minutes off the clock face that pass for not inverted: one stops the
      program, and one expands to no slot at all. */
  lemma OffClockWindows()
    ensures var start, end := WallTime(17, 200, 0), WallTime(18, 0, 0); !After(start, end) && Capacity(start, end) < 0
    ensures var start, end := WallTime(17, 90, 0), WallTime(18, 0, 0); Expandable(start, end) && Count(start, end) == 0
  {
  }
}
