/** The clock of a machine's shift: what each turn of the loop may add to it, and when every shift must end. */
module PlantClock {
  import opened Events
  import opened Disorder
  import opened Draws

  datatype Product = Product(sku: string, defectBaseRate: real)

  const MINUTE := 60_000_000

  /** A cycle, and the load and unload after it. */
  function CycleTicks(duration: real, fraction: real): int
  {
    Micros(duration) + UnloadTicks(duration, fraction)
  }

  function UnloadTicks(duration: real, fraction: real): int
  {
    Micros(duration * fraction)
  }

  /** What the canon says of one machine and its line. */
  datatype Plant = Plant(
    machine: string, nominalCycle: real, changeoverMin: int, changeoverMax: int, unitsMin: int, unitsMax: int,
    badges: set<string>, products: seq<Product>, defectCodes: set<string>)
  {
    /** What the canon's validation asks for, and something to choose from. */
    predicate Ready()
    {
      products != [] && badges != {} && defectCodes != {} && 1 <= unitsMin <= unitsMax && nominalCycle > 0.0
    }

    /** The cycle's floor, in seconds. */
    function Fastest(): real { nominalCycle * 0.82 }

    /** The least a unit adds to the clock: the shortest cycle and the shortest load and unload, each in whole ticks. */
    function LeastUnit(): int { CycleTicks(Fastest(), 0.05) }

    /** The least a changeover adds. The canon accepts negative minutes, and a minimum above the maximum. */
    function LeastChangeover(): int { (if changeoverMin <= changeoverMax then changeoverMin else changeoverMax) * MINUTE }

    /** The shortest order still moves the clock on. */
    predicate Advances() { LeastChangeover() + unitsMin * LeastUnit() >= 1 }
  }

  // ---- what one changeover and one unit take ----

  /** `timedelta(minutes=rng.uniform(min, max))`, for one draw. */
  function ChangeoverTicks(plant: Plant, t: real): int
  {
    Micros(At(plant.changeoverMin as real, plant.changeoverMax as real, t) * 60.0)
  }

  ghost predicate ChangeoverTakes(plant: Plant, ticks: int)
  {
    exists t: real :: 0.0 <= t < 1.0 && ticks == ChangeoverTicks(plant, t)
  }

  datatype Stop = Stop(reason: string, minutes: real)

  /** What is drawn for one unit. */
  datatype Unit = Unit(duration: real, fraction: real, code: Option<string>, stop: Option<Stop>)

  const STOP_REASONS := {"tool_change", "material_shortage", "alarm_spindle", "alarm_coolant", "quality_hold", "operator_absent"}

  predicate StopDrawn(stop: Stop)
  {
    stop.reason in STOP_REASONS && 3.0 <= stop.minutes <= 25.0
  }

  predicate Drawn(plant: Plant, u: Unit)
  {
    && u.duration >= plant.Fastest() && 0.05 <= u.fraction <= 0.18
    && (u.code.Some? ==> u.code.value in plant.defectCodes)
    && (u.stop.Some? ==> StopDrawn(u.stop.value))
  }

  function StopTicks(stop: Option<Stop>): int
  {
    if stop.Some? then Micros(stop.value.minutes * 60.0) else 0
  }

  function UnitTicks(u: Unit): int
  {
    CycleTicks(u.duration, u.fraction) + StopTicks(u.stop)
  }

  ghost predicate UnitTakes(plant: Plant, ticks: int)
  {
    exists u :: Drawn(plant, u) && ticks == UnitTicks(u)
  }

  lemma RoundMonotone(x: real, y: real)
    requires x <= y
    ensures RoundHalfEven(x) <= RoundHalfEven(y)
  {
  }

  lemma MicrosMonotone(x: real, y: real)
    requires x <= y
    ensures Micros(x) <= Micros(y)
  {
    RoundMonotone(x * 1000000.0, y * 1000000.0);
  }

  lemma ProductMonotone(a: real, b: real, x: real, y: real)
    requires 0.0 <= a <= b && 0.0 <= x <= y
    ensures 0.0 <= a * x <= b * y
  {
    assert a * x <= b * x <= b * y;
  }

  lemma LongerTakesNoLess(least: real, duration: real, fraction: real)
    requires 0.0 <= least <= duration && 0.05 <= fraction
    ensures 0 <= CycleTicks(least, 0.05) <= CycleTicks(duration, fraction)
  {
    MicrosMonotone(0.0, least);
    MicrosMonotone(least, duration);
    ProductMonotone(least, duration, 0.05, fraction);
    MicrosMonotone(0.0, least * 0.05);
    MicrosMonotone(least * 0.05, duration * fraction);
  }

  lemma StopTakesTime(u: Unit)
    requires u.stop.Some? ==> u.stop.value.minutes >= 0.0
    ensures StopTicks(u.stop) >= 0
  {
    if u.stop.Some? { MicrosMonotone(0.0, u.stop.value.minutes * 60.0); }
  }

  lemma UnitTakesAtLeast(plant: Plant, u: Unit)
    requires plant.Ready() && Drawn(plant, u)
    ensures UnitTicks(u) >= plant.LeastUnit() >= 0
  {
    LongerTakesNoLess(plant.Fastest(), u.duration, u.fraction);
    StopTakesTime(u);
  }

  /** The floor is reached: the shortest cycle, the smallest fraction, no stop. */
  lemma LeastUnitIsTaken(plant: Plant)
    ensures UnitTakes(plant, plant.LeastUnit())
  {
    var u := Unit(plant.Fastest(), 0.05, Option.None, Option.None);
    assert Drawn(plant, u) && plant.LeastUnit() == UnitTicks(u);
  }

  lemma WholeMinutes(n: int, more: real)
    requires 0.0 <= more <= 0.000000001
    ensures Micros((n as real + more) * 60.0) == n * MINUTE
  {
    assert (n as real + more) * 60.0 * 1000000.0 == (n * MINUTE) as real + more * 60000000.0;
  }

  lemma ChangeoverTakesAtLeast(plant: Plant, t: real)
    requires 0.0 <= t < 1.0
    ensures ChangeoverTicks(plant, t) >= plant.LeastChangeover()
  {
    var lo, hi := plant.changeoverMin as real, plant.changeoverMax as real;
    AtIsBetween(lo, hi, t);
    var least := if plant.changeoverMin <= plant.changeoverMax then plant.changeoverMin else plant.changeoverMax;
    WholeMinutes(least, 0.0);
    MicrosMonotone(least as real * 60.0, At(lo, hi, t) * 60.0);
  }

  lemma LeastChangeoverIsTaken(plant: Plant)
    ensures ChangeoverTakes(plant, plant.LeastChangeover())
  {
    var lo, hi := plant.changeoverMin as real, plant.changeoverMax as real;
    if plant.changeoverMin <= plant.changeoverMax {
      assert At(lo, hi, 0.0) == lo;
      WholeMinutes(plant.changeoverMin, 0.0);
      assert ChangeoverTicks(plant, 0.0) == plant.LeastChangeover();
    } else {
      var near := 0.000000001 / (lo - hi);
      NearTheEnd(lo, hi, near);
      WholeMinutes(plant.changeoverMax, 0.000000001);
      assert ChangeoverTicks(plant, 1.0 - near) == plant.LeastChangeover();
    }
  }

  lemma NearTheEnd(lo: real, hi: real, near: real)
    requires lo - hi >= 1.0 && near == 0.000000001 / (lo - hi)
    ensures 0.0 < near <= 0.000000001 && At(lo, hi, 1.0 - near) == hi + 0.000000001
  {
    assert near * (lo - hi) == 0.000000001;
    assert At(lo, hi, 1.0 - near) == lo + (hi - lo) - (hi - lo) * near;
  }

  // ---- the shift loop, as turns of the clock ----

  /** A break, by its start and its length. */
  datatype Break = Break(start: int, length: int)

  ghost predicate AllLast(breaks: seq<Break>)
  {
    forall i :: 0 <= i < |breaks| ==> breaks[i].length > 0
  }

  /** Where the loop stands: the time, the units the running order has left (none when one is due), the breaks taken. */
  datatype Clock = Clock(now: int, left: nat, nextBreak: nat)

  predicate BreakIsDue(day: int, breaks: seq<Break>, c: Clock)
  {
    c.nextBreak < |breaks| && c.now >= day + breaks[c.nextBreak].start
  }

  /** One turn: a due break, else the changeover to the next order when the last is complete, else one unit. */
  ghost predicate Turn(plant: Plant, day: int, breaks: seq<Break>, c: Clock, d: Clock)
  {
    if BreakIsDue(day, breaks, c) then
      d == Clock(c.now + breaks[c.nextBreak].length, c.left, c.nextBreak + 1)
    else if c.left == 0 then
      d.nextBreak == c.nextBreak && plant.unitsMin <= d.left <= plant.unitsMax && ChangeoverTakes(plant, d.now - c.now)
    else
      d.nextBreak == c.nextBreak && d.left == c.left - 1 && UnitTakes(plant, d.now - c.now)
  }

  /** Turns one after the other, each begun before the shift is over. */
  ghost predicate Working(plant: Plant, day: int, breaks: seq<Break>, endAt: int, path: seq<Clock>)
  {
    && path != []
    && (forall i :: 0 <= i < |path| - 1 ==> path[i].now < endAt && Turn(plant, day, breaks, path[i], path[i + 1]))
  }

  lemma WorkingSnoc(plant: Plant, day: int, breaks: seq<Break>, endAt: int, path: seq<Clock>, d: Clock)
    requires Working(plant, day, breaks, endAt, path)
    requires path[|path| - 1].now < endAt && Turn(plant, day, breaks, path[|path| - 1], d)
    ensures Working(plant, day, breaks, endAt, path + [d])
  {
    var longer := path + [d];
    forall i | 0 <= i < |longer| - 1 ensures longer[i].now < endAt && Turn(plant, day, breaks, longer[i], longer[i + 1]) {
      assert longer[i] == path[i];
      if i < |path| - 1 { assert longer[i + 1] == path[i + 1]; }
    }
  }

  /** The time by which the running order is through at the earliest. */
  function Projected(plant: Plant, c: Clock): int
  {
    c.now + c.left * plant.LeastUnit()
  }

  function Remaining(plant: Plant, endAt: int, c: Clock): nat
  {
    if Projected(plant, c) < endAt then endAt - Projected(plant, c) else 0
  }

  /** How many turns a shift can still take. */
  function TurnsLeft(plant: Plant, breaks: seq<Break>, endAt: int, c: Clock): nat
    requires plant.Ready() && c.nextBreak <= |breaks|
  {
    Remaining(plant, endAt, c) * (plant.unitsMax + 1) + c.left + (|breaks| - c.nextBreak)
  }

  lemma Grows(a: nat, b: nat, n: nat)
    requires a <= b
    ensures a * n <= b * n
    ensures a < b ==> a * n + n <= b * n
  {
    assert b * n == a * n + (b - a) * n;
    if a < b { assert (b - a) * n == n + (b - a - 1) * n; }
  }

  lemma OneMore(n: nat, ticks: int)
    ensures (n + 1) * ticks == n * ticks + ticks
  {
  }

  lemma UnitKeepsProjected(plant: Plant, c: Clock, d: Clock)
    requires plant.Ready() && c.left > 0 && d.left == c.left - 1 && UnitTakes(plant, d.now - c.now)
    ensures Projected(plant, d) >= Projected(plant, c)
  {
    var u :| Drawn(plant, u) && d.now - c.now == UnitTicks(u);
    UnitTakesAtLeast(plant, u);
    OneMore(d.left, plant.LeastUnit());
  }

  lemma OrderMovesProjected(plant: Plant, c: Clock, d: Clock)
    requires plant.Ready() && plant.Advances() && c.left == 0 && d.left >= plant.unitsMin && ChangeoverTakes(plant, d.now - c.now)
    ensures Projected(plant, d) >= Projected(plant, c) + 1
  {
    var t: real :| 0.0 <= t < 1.0 && d.now - c.now == ChangeoverTicks(plant, t);
    ChangeoverTakesAtLeast(plant, t);
    LeastUnitIsNatural(plant);
    Grows(plant.unitsMin, d.left, plant.LeastUnit());
    NoUnitsLeft(plant, c);
  }

  lemma NoUnitsLeft(plant: Plant, c: Clock)
    requires c.left == 0
    ensures Projected(plant, c) == c.now
  {
  }

  lemma LeastUnitIsNatural(plant: Plant)
    requires plant.Ready()
    ensures plant.LeastUnit() >= 0
  {
    UnitTakesAtLeast(plant, Unit(plant.Fastest(), 0.05, Option.None, Option.None));
  }

  lemma TurnUsesOne(plant: Plant, day: int, breaks: seq<Break>, endAt: int, c: Clock, d: Clock)
    requires plant.Ready() && plant.Advances() && AllLast(breaks) && c.nextBreak <= |breaks|
    requires c.now < endAt && Turn(plant, day, breaks, c, d)
    ensures d.nextBreak <= |breaks| && TurnsLeft(plant, breaks, endAt, d) < TurnsLeft(plant, breaks, endAt, c)
  {
    if !BreakIsDue(day, breaks, c) {
      if c.left == 0 { OrderMovesProjected(plant, c, d); } else { UnitKeepsProjected(plant, c, d); }
    }
    Grows(Remaining(plant, endAt, d), Remaining(plant, endAt, c), plant.unitsMax + 1);
  }

  /** An advancing plant ends every shift, within a number of turns that the shift's start gives. */
  lemma {:induction false} ShiftIsBounded(plant: Plant, day: int, breaks: seq<Break>, endAt: int, path: seq<Clock>)
    requires plant.Ready() && plant.Advances() && AllLast(breaks)
    requires Working(plant, day, breaks, endAt, path) && path[0].nextBreak <= |breaks|
    ensures path[|path| - 1].nextBreak <= |breaks|
    ensures TurnsLeft(plant, breaks, endAt, path[|path| - 1]) + |path| - 1 <= TurnsLeft(plant, breaks, endAt, path[0])
    decreases |path|
  {
    if |path| > 1 {
      var n := |path| - 1;
      ShiftIsBounded(plant, day, breaks, endAt, path[..n]);
      TurnUsesOne(plant, day, breaks, endAt, path[n - 1], path[n]);
    }
  }

  // ---- a plant that does not advance ----

  /** Every draw the least it can be. */
  function LeastTurn(plant: Plant, c: Clock): Clock
    requires plant.Ready()
  {
    if c.left == 0 then Clock(c.now + plant.LeastChangeover(), plant.unitsMin, c.nextBreak)
    else Clock(c.now + plant.LeastUnit(), c.left - 1, c.nextBreak)
  }

  function LeastPath(plant: Plant, c: Clock, turns: nat): (path: seq<Clock>)
    requires plant.Ready()
    ensures |path| == turns + 1 && path[0] == c
    decreases turns
  {
    if turns == 0 then [c] else [c] + LeastPath(plant, LeastTurn(plant, c), turns - 1)
  }

  lemma LeastTurnIsTurn(plant: Plant, day: int, breaks: seq<Break>, c: Clock)
    requires plant.Ready() && !plant.Advances() && c.nextBreak == |breaks|
    ensures Turn(plant, day, breaks, c, LeastTurn(plant, c))
    ensures Projected(plant, LeastTurn(plant, c)) <= Projected(plant, c)
  {
    if c.left == 0 {
      LeastChangeoverIsTaken(plant);
    } else {
      LeastUnitIsTaken(plant);
      OneMore(c.left - 1, plant.LeastUnit());
    }
  }

  /** Such a plant can work on without ever reaching the end of a shift, once no break is left to push the clock. */
  lemma {:induction false} ShiftNeedNotEnd(plant: Plant, day: int, breaks: seq<Break>, endAt: int, c: Clock, turns: nat)
    requires plant.Ready() && !plant.Advances() && c.nextBreak == |breaks| && Projected(plant, c) < endAt
    ensures Working(plant, day, breaks, endAt, LeastPath(plant, c, turns))
    ensures forall i :: 0 <= i <= turns ==> LeastPath(plant, c, turns)[i].now < endAt
    decreases turns
  {
    LeastUnitIsNatural(plant);
    assert c.left * plant.LeastUnit() >= 0;
    if turns > 0 {
      LeastTurnIsTurn(plant, day, breaks, c);
      var rest := LeastPath(plant, LeastTurn(plant, c), turns - 1);
      ShiftNeedNotEnd(plant, day, breaks, endAt, LeastTurn(plant, c), turns - 1);
      WorkingCons(plant, day, breaks, endAt, c, rest);
    }
  }

  lemma WorkingCons(plant: Plant, day: int, breaks: seq<Break>, endAt: int, c: Clock, path: seq<Clock>)
    requires Working(plant, day, breaks, endAt, path) && c.now < endAt && Turn(plant, day, breaks, c, path[0])
    ensures Working(plant, day, breaks, endAt, [c] + path)
  {
    var longer := [c] + path;
    forall i | 0 <= i < |longer| - 1 ensures longer[i].now < endAt && Turn(plant, day, breaks, longer[i], longer[i + 1]) {
      assert longer[i + 1] == path[i];
      if i > 0 { assert longer[i] == path[i - 1]; }
    }
  }

  /** From here, no draws make the shift last more turns than this. */
  ghost predicate EndsWithin(plant: Plant, day: int, breaks: seq<Break>, endAt: int, c: Clock, bound: nat)
  {
    forall path :: Working(plant, day, breaks, endAt, path) && path[0] == c ==> |path| <= bound + 1
  }

  ghost predicate Ends(plant: Plant, day: int, breaks: seq<Break>, endAt: int, c: Clock)
  {
    exists bound: nat :: EndsWithin(plant, day, breaks, endAt, c, bound)
  }

  ghost predicate EveryShiftEnds(plant: Plant)
  {
    forall day, breaks, endAt, c: Clock :: AllLast(breaks) && c.nextBreak <= |breaks| ==> Ends(plant, day, breaks, endAt, c)
  }

  /** Every shift ends, whatever is drawn, exactly when the shortest order moves the clock on by a tick. */
  lemma ShiftEndsIff(plant: Plant)
    requires plant.Ready()
    ensures EveryShiftEnds(plant) <==> plant.Advances()
  {
    if plant.Advances() {
      forall day, breaks, endAt, c: Clock | AllLast(breaks) && c.nextBreak <= |breaks|
        ensures Ends(plant, day, breaks, endAt, c)
      {
        BoundHolds(plant, day, breaks, endAt, c);
      }
    } else {
      var c := Clock(0, 0, 0);
      if EveryShiftEnds(plant) {
        assert Ends(plant, 0, [], 1, c);
        var bound: nat :| EndsWithin(plant, 0, [], 1, c, bound);
        ShiftNeedNotEnd(plant, 0, [], 1, c, bound + 1);
        assert false;
      }
    }
  }

  lemma BoundHolds(plant: Plant, day: int, breaks: seq<Break>, endAt: int, c: Clock)
    requires plant.Ready() && plant.Advances() && AllLast(breaks) && c.nextBreak <= |breaks|
    ensures EndsWithin(plant, day, breaks, endAt, c, TurnsLeft(plant, breaks, endAt, c))
  {
    forall path | Working(plant, day, breaks, endAt, path) && path[0] == c
      ensures |path| <= TurnsLeft(plant, breaks, endAt, c) + 1
    {
      ShiftIsBounded(plant, day, breaks, endAt, path);
    }
  }

  /** A changeover of a minute or more is enough, however short the cycle. */
  lemma ChangeoverSuffices(plant: Plant)
    requires plant.Ready() && plant.LeastChangeover() >= 1
    ensures plant.Advances()
  {
    LeastUnitIsNatural(plant);
    Grows(0, plant.unitsMin, plant.LeastUnit());
  }

  /** The canon also accepts plants that stand still, and plants whose clock each order sets back. */
  lemma SomePlantsDoNotAdvance()
    ensures var still := Plant("M", 0.0000004, 0, 0, 1, 1, {"B"}, [Product("S", 0.0)], {"D"}); still.Ready() && !still.Advances()
    ensures var back := Plant("M", 1.0, -1, 0, 1, 1, {"B"}, [Product("S", 0.0)], {"D"}); back.Ready() && !back.Advances()
  {
    assert CycleTicks(0.0000004 * 0.82, 0.05) == 0;
    assert CycleTicks(1.0 * 0.82, 0.05) == 861_000;
  }
}
