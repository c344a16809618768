/** The plant simulator: one machine's state machine, the shift loop that drives it, and what every run keeps. */
module Simulator {
  import opened Events
  import opened Ledger
  import opened Draws
  import opened Disorder
  import opened ObjectKeys
  import opened Ordering
  import opened PlantClock

  datatype Order = Order(id: string, sku: string, units: nat)

  /** `f"WO-{machine}-{n:04d}"`. */
  function OrderId(machine: string, n: nat): string
  {
    "WO-" + machine + "-" + Pad(n, 4)
  }

  lemma OrderIdInjective(machine: string, n: nat, m: nat)
    requires OrderId(machine, n) == OrderId(machine, m)
    ensures n == m
  {
    var prefix := "WO-" + machine + "-";
    assert OrderId(machine, n)[|prefix|..] == Pad(n, 4) && OrderId(machine, m)[|prefix|..] == Pad(m, 4);
    PadRoundTrip(n, 4);
    PadRoundTrip(m, 4);
  }

  lemma OrderIdsDiffer(machine: string, n: nat, m: nat)
    requires n != m
    ensures OrderId(machine, n) != OrderId(machine, m)
  {
    if OrderId(machine, n) == OrderId(machine, m) { OrderIdInjective(machine, n, m); }
  }

  // ---- what a stream says so far ----

  /** The state the last state change left the machine in; it starts idle. */
  function StateAfter(events: seq<EventValue>): MachineState
  {
    if events == [] then Idle
    else
      var e := events[|events| - 1];
      if e.kind.StateChange? && ToState in e.payload && e.payload[ToState].Name? then e.payload[ToState].state
      else StateAfter(events[..|events| - 1])
  }

  predicate CycleOf(e: EventValue, order: string)
  {
    e.kind.Cycle? && WorkOrder in e.payload && e.payload[WorkOrder] == Text(order)
  }

  /** How many cycles of an order the stream holds. */
  function Cycles(events: seq<EventValue>, order: string): nat
  {
    if events == [] then 0
    else Cycles(events[..|events| - 1], order) + (if CycleOf(events[|events| - 1], order) then 1 else 0)
  }

  predicate NoDuration(p: Payload)
  {
    DurationS !in p && DurationMs !in p
  }

  /**
   * Whether an event may come next: a state change starts where the last one ended and goes elsewhere; a cycle has the
   * next number of its order and a duration in whole milliseconds; a defect is about the unit whose cycle was just emitted.
   */
  predicate Fits(before: seq<EventValue>, kind: EventType, p: Payload)
  {
    match kind
    case StateChange =>
      && FromState in p && p[FromState] == Name(StateAfter(before))
      && ToState in p && p[ToState].Name? && p[ToState] != p[FromState]
      && NoDuration(p)
    case Cycle =>
      && WorkOrder in p && p[WorkOrder].Text?
      && UnitSeq in p && p[UnitSeq] == Number((Cycles(before, p[WorkOrder].text) + 1) as real)
      && DurationS in p && p[DurationS].Number? && Whole(p[DurationS].number * 1000.0)
      && DurationMs !in p && OperatorBadge !in p
    case Defect =>
      && NoDuration(p) && before != [] && before[|before| - 1].kind.Cycle?
      && var cycle := before[|before| - 1].payload;
         && WorkOrder in p && WorkOrder in cycle && p[WorkOrder] == cycle[WorkOrder]
         && UnitSeq in p && UnitSeq in cycle && p[UnitSeq] == cycle[UnitSeq]
    case OperatorScan => NoDuration(p)
  }

  /** Of this machine, in v1, published 40 to 400 milliseconds after it happened. */
  predicate Stamped(e: EventValue, machine: string)
  {
    e.machine == machine && e.version == SCHEMA_V1 && 40_000 <= e.publishTime - e.eventTime <= 400_000
  }

  ghost predicate Story(events: seq<EventValue>, machine: string)
  {
    forall i :: 0 <= i < |events| ==> Fits(events[..i], events[i].kind, events[i].payload) && Stamped(events[i], machine)
  }

  lemma StorySnoc(events: seq<EventValue>, e: EventValue, machine: string)
    requires Story(events, machine) && Fits(events, e.kind, e.payload) && Stamped(e, machine)
    ensures Story(events + [e], machine)
  {
    var longer := events + [e];
    forall i | 0 <= i < |longer| ensures Fits(longer[..i], longer[i].kind, longer[i].payload) && Stamped(longer[i], machine) {
      if i < |events| {
        assert longer[..i] == events[..i] && longer[i] == events[i];
      } else {
        assert longer[..i] == events;
      }
    }
  }

  lemma AfterSnoc(events: seq<EventValue>, e: EventValue, order: string)
    ensures Cycles(events + [e], order) == Cycles(events, order) + if CycleOf(e, order) then 1 else 0
    ensures !e.kind.StateChange? ==> StateAfter(events + [e]) == StateAfter(events)
    ensures e.kind.StateChange? && ToState in e.payload && e.payload[ToState].Name? ==> StateAfter(events + [e]) == e.payload[ToState].state
  {
    assert (events + [e])[..|events|] == events;
  }

  // ---- orders ----

  ghost predicate Known(started: seq<Order>, id: string)
  {
    exists n :: 0 <= n < |started| && started[n].id == id
  }

  /** The orders started, numbered from 1: all but the last ran to their full count, and no cycle belongs to any other. */
  ghost predicate Book(events: seq<EventValue>, started: seq<Order>, machine: string)
  {
    && (forall n :: 0 <= n < |started| ==> started[n].id == OrderId(machine, n + 1))
    && (forall n :: 0 <= n < |started| - 1 ==> Cycles(events, started[n].id) == started[n].units)
    && (forall id :: Cycles(events, id) > 0 ==> Known(started, id))
  }

  /** The machine's order fields against the book. */
  ghost predicate OnOrder(
    events: seq<EventValue>, started: seq<Order>, machine: string, order: Option<Order>, unitSeq: nat, ordersStarted: nat)
  {
    && Book(events, started, machine) && ordersStarted == |started|
    && (order.None? <==> started == [])
    && (order.Some? ==>
          order.value == started[|started| - 1]
          && unitSeq == Cycles(events, order.value.id) && unitSeq <= order.value.units)
  }

  lemma OtherEventsKeepOrders(
    events: seq<EventValue>, e: EventValue, started: seq<Order>, machine: string, order: Option<Order>, unitSeq: nat, ordersStarted: nat)
    requires OnOrder(events, started, machine, order, unitSeq, ordersStarted) && !e.kind.Cycle?
    ensures OnOrder(events + [e], started, machine, order, unitSeq, ordersStarted)
  {
    forall id ensures Cycles(events + [e], id) == Cycles(events, id) {
      AfterSnoc(events, e, id);
    }
  }

  lemma DistinctOrders(events: seq<EventValue>, started: seq<Order>, machine: string, n: nat, m: nat)
    requires Book(events, started, machine) && n < |started| && m < |started| && started[n].id == started[m].id
    ensures n == m
  {
    OrderIdInjective(machine, n + 1, m + 1);
  }

  lemma CycleAdvancesOrder(
    events: seq<EventValue>, e: EventValue, started: seq<Order>, machine: string, order: Order, unitSeq: nat, ordersStarted: nat)
    requires OnOrder(events, started, machine, Option.Some(order), unitSeq, ordersStarted) && unitSeq < order.units
    requires CycleOf(e, order.id)
    ensures OnOrder(events + [e], started, machine, Option.Some(order), unitSeq + 1, ordersStarted)
  {
    var last := |started| - 1;
    forall id ensures Cycles(events + [e], id) == Cycles(events, id) + if id == order.id then 1 else 0 {
      AfterSnoc(events, e, id);
    }
    forall n | 0 <= n < last ensures started[n].id != order.id {
      if started[n].id == order.id { DistinctOrders(events, started, machine, n, last); }
    }
  }

  lemma NewOrderIsNew(events: seq<EventValue>, started: seq<Order>, machine: string, id: string)
    requires Book(events, started, machine) && id == OrderId(machine, |started| + 1)
    ensures Cycles(events, id) == 0
  {
    forall n | 0 <= n < |started| ensures started[n].id != id {
      OrderIdsDiffer(machine, n + 1, |started| + 1);
    }
    assert !Known(started, id);
  }

  lemma BookGrows(events: seq<EventValue>, started: seq<Order>, machine: string, next: Order)
    requires Book(events, started, machine) && next.id == OrderId(machine, |started| + 1)
    requires started != [] ==> Cycles(events, started[|started| - 1].id) == started[|started| - 1].units
    ensures Book(events, started + [next], machine)
  {
    var longer := started + [next];
    assert forall n :: 0 <= n < |started| ==> longer[n] == started[n];
    assert longer[|started|] == next;
    forall id | Cycles(events, id) > 0 ensures Known(longer, id) { KnownGrows(started, next, id); }
  }

  lemma KnownGrows(started: seq<Order>, next: Order, id: string)
    requires Known(started, id)
    ensures Known(started + [next], id)
  {
    var n :| 0 <= n < |started| && started[n].id == id;
    assert (started + [next])[n].id == id;
  }

  lemma OrderBegins(
    events: seq<EventValue>, started: seq<Order>, machine: string, order: Option<Order>, unitSeq: nat, ordersStarted: nat, next: Order)
    requires OnOrder(events, started, machine, order, unitSeq, ordersStarted)
    requires order.Some? ==> unitSeq >= order.value.units
    requires next.id == OrderId(machine, ordersStarted + 1)
    ensures OnOrder(events, started + [next], machine, Option.Some(next), 0, ordersStarted + 1)
  {
    NewOrderIsNew(events, started, machine, next.id);
    BookGrows(events, started, machine, next);
  }

  // ---- the machine ----

  ghost predicate Makes(products: seq<Product>, sku: string)
  {
    exists i :: 0 <= i < |products| && products[i].sku == sku
  }

  method Gauss() returns (x: real)
  {
    x := *;
  }

  method NewEventId() returns (id: string)
  {
    id := *;
  }

  /** An event apart from its id and its publish lag: what happened, and when. */
  datatype Saying = Saying(kind: EventType, payload: Payload, time: int)

  function Say(e: EventValue): Saying
  {
    Saying(e.kind, e.payload, e.eventTime)
  }

  function Said(events: seq<EventValue>): (r: seq<Saying>)
    ensures |r| == |events| && forall i :: 0 <= i < |r| ==> r[i] == Say(events[i])
  {
    seq(|events|, i requires 0 <= i < |events| => Say(events[i]))
  }

  lemma SaidSnoc(events: seq<EventValue>, e: EventValue)
    ensures Said(events + [e]) == Said(events) + [Say(e)]
  {
  }

  /** What a transition emits: nothing when the machine is already there. */
  function Change(from: MachineState, to: MachineState, reason: Value, time: int): seq<Saying>
  {
    if from == to then []
    else [Saying(EventType.StateChange, map[FromState := Name(from), ToState := Name(to), Reason := reason], time)]
  }

  function Scan(badge: string, action: string, time: int): Saying
  {
    Saying(OperatorScan, map[BadgeId := Text(badge), Action := Text(action)], time)
  }

  function OrderScan(badge: string, action: string, order: Order, time: int): Saying
  {
    Saying(OperatorScan, map[BadgeId := Text(badge), Action := Text(action), WorkOrder := Text(order.id)], time)
  }

  function CyclePayload(order: Order, unit: nat, duration: real, operator: string): Payload
  {
    map[WorkOrder := Text(order.id), Sku := Text(order.sku), UnitSeq := Number(unit as real),
        DurationS := Number(PyRound3(duration)), Operator := Text(operator)]
  }

  function DefectPayload(order: Order, unit: nat, code: string, inspector: string): Payload
  {
    map[WorkOrder := Text(order.id), Sku := Text(order.sku), UnitSeq := Number(unit as real),
        DefectCode := Text(code), Inspector := Text(inspector)]
  }

  /** `max(nominal * 0.82, gauss(…))`: a floor, and no ceiling. */
  method DrawDuration(plant: Plant) returns (duration: real)
    ensures duration >= plant.Fastest()
  {
    var drawn := Gauss();
    duration := if drawn > plant.Fastest() then drawn else plant.Fastest();
  }

  /** What is said of a stop: held, and back to running when its time is over. */
  function StopSayings(from: MachineState, stop: Option<Stop>, time: int, after: int): seq<Saying>
  {
    if stop.None? then []
    else Change(from, Held, Text(stop.value.reason), time) + Change(Held, Execute, Null, after)
  }

  function DefectSayings(order: Order, unit: nat, code: Option<string>, inspector: string, time: int): seq<Saying>
  {
    if code.None? then [] else [Saying(EventType.Defect, DefectPayload(order, unit, code.value, inspector), time)]
  }

  /** All that is said of one unit begun at `time`: its cycle, the defect drawn, the stop drawn. */
  function UnitSayings(order: Order, unit: nat, operator: string, from: MachineState, time: int, u: Unit): seq<Saying>
  {
    CycleSayings(order, unit, operator, u.duration, u.code, time + Micros(u.duration))
    + StopSayings(from, u.stop, time + CycleTicks(u.duration, u.fraction), time + UnitTicks(u))
  }

  /** The cycle, and the defect drawn for it. */
  function CycleSayings(order: Order, unit: nat, operator: string, duration: real, code: Option<string>, time: int): seq<Saying>
  {
    [Saying(EventType.Cycle, CyclePayload(order, unit, duration, operator), time)] + DefectSayings(order, unit, code, operator, time)
  }

  method DrawChangeover(plant: Plant) returns (ticks: int)
    ensures ChangeoverTakes(plant, ticks)
  {
    var minutes, t := Uniform(plant.changeoverMin as real, plant.changeoverMax as real);
    ticks := Micros(minutes * 60.0);
    assert ticks == ChangeoverTicks(plant, t);
  }

  method DrawStop() returns (ghost stop: Stop, reason: string, ticks: int)
    ensures StopDrawn(stop) && stop.reason == reason && ticks == StopTicks(Option.Some(stop))
  {
    reason := Choose(STOP_REASONS);
    var minutes, t := Uniform(3.0, 25.0);
    AtIsBetween(3.0, 25.0, t);
    stop, ticks := Stop(reason, minutes), Micros(minutes * 60.0);
  }

  lemma StopInOrder(before: seq<Saying>, from: MachineState, stop: Stop, time: int, after: int, said: seq<Saying>)
    requires said == before + Change(from, Held, Text(stop.reason), time) + Change(Held, Execute, Null, after)
    ensures said == before + StopSayings(from, Option.Some(stop), time, after)
  {
  }

  lemma NextCycleFits(before: seq<EventValue>, order: Order, unit: nat, duration: real, operator: string)
    requires unit == Cycles(before, order.id) + 1
    ensures var p := CyclePayload(order, unit, duration, operator);
            Fits(before, EventType.Cycle, p) && WorkOrder in p && p[WorkOrder] == Text(order.id)
  {
    RoundedIsWhole(duration);
  }

  class MachineSim {
    const plant: Plant
    var now: int
    var state: MachineState
    var order: Option<Order>
    var unitSeq: nat
    var ordersStarted: nat
    var operator: string
    var events: seq<EventValue>
    ghost var started: seq<Order>

    ghost predicate Valid()
      reads this
    {
      && Story(events, plant.machine) && StateAfter(events) == state
      && OnOrder(events, started, plant.machine, order, unitSeq, ordersStarted)
      && (order.Some? ==> Makes(plant.products, order.value.sku))
    }

    constructor (plant: Plant, now: int)
      ensures Valid() && this.plant == plant && events == []
    {
      this.plant, this.now, state, order := plant, now, Idle, None;
      unitSeq, ordersStarted, operator, events, started := 0, 0, "", [], [];
    }

    /** `_emit`: an event of now, on its way to the broker. */
    method Emit(kind: EventType, payload: Payload) returns (e: EventValue)
      requires Story(events, plant.machine) && Fits(events, kind, payload)
      modifies `events
      ensures events == old(events) + [e] && Story(events, plant.machine)
      ensures e.kind == kind && e.payload == payload && e.eventTime == now
    {
      var lag := RandInt(40, 400);
      var id := NewEventId();
      e := EventValue(id, kind, plant.machine, now, now + lag * 1000, SCHEMA_V1, payload);
      StorySnoc(events, e, plant.machine);
      events := events + [e];
    }

    /** An event that is neither a cycle nor a state change leaves state and order as they are. */
    method Note(kind: EventType, payload: Payload)
      requires Valid() && (kind.Defect? || kind.OperatorScan?) && Fits(events, kind, payload)
      modifies `events
      ensures Valid() && old(events) <= events && Said(events) == Said(old(events)) + [Saying(kind, payload, now)]
    {
      ghost var before := events;
      var e := Emit(kind, payload);
      AfterSnoc(before, e, "");
      SaidSnoc(before, e);
      OtherEventsKeepOrders(before, e, started, plant.machine, order, unitSeq, ordersStarted);
    }

    method EmitChange(to: MachineState, reason: Value)
      requires Valid() && to != state
      modifies `events, `state
      ensures Valid() && state == to && old(events) <= events
      ensures Said(events) == Said(old(events)) + Change(old(state), to, reason, now)
    {
      ghost var before := events;
      var payload := map[FromState := Name(state), ToState := Name(to), Reason := reason];
      var e := Emit(EventType.StateChange, payload);
      AfterSnoc(before, e, "");
      SaidSnoc(before, e);
      OtherEventsKeepOrders(before, e, started, plant.machine, order, unitSeq, ordersStarted);
      state := to;
    }

    /** `_transition`. */
    method Transition(to: MachineState, reason: Value)
      requires Valid()
      modifies `events, `state
      ensures Valid() && state == to && old(events) <= events
      ensures Said(events) == Said(old(events)) + Change(old(state), to, reason, now)
    {
      if to == state {
        return;
      }
      EmitChange(to, reason);
    }

    method StartShift(badge: string)
      requires Valid()
      modifies `events, `operator
      ensures Valid() && old(events) <= events && operator == badge
      ensures Said(events) == Said(old(events)) + [Scan(badge, "login", now)]
    {
      operator := badge;
      Note(OperatorScan, map[BadgeId := Text(badge), Action := Text("login")]);
    }

    method EndShift()
      requires Valid()
      modifies `events, `operator, `state
      ensures Valid() && old(events) <= events && operator == "" && state == Idle
      ensures Said(events) == Said(old(events))
                + (if old(operator) == "" then [] else [Scan(old(operator), "logout", now)])
                + Change(old(state), Idle, Text("shift_end"), now)
    {
      if operator != "" {
        Note(OperatorScan, map[BadgeId := Text(operator), Action := Text("logout")]);
      }
      Transition(Idle, Text("shift_end"));
      operator := "";
    }

    method ScanOrder(action: string)
      requires Valid() && order.Some?
      modifies `events
      ensures Valid() && old(events) <= events
      ensures Said(events) == Said(old(events)) + [OrderScan(operator, action, order.value, now)]
    {
      Note(OperatorScan, map[BadgeId := Text(operator), Action := Text(action), WorkOrder := Text(order.value.id)]);
    }

    /** The order fields of a new order; the one before must be finished. */
    method TakeOrder(next: Order)
      requires Valid() && (order.Some? ==> unitSeq >= order.value.units)
      requires next.id == OrderId(plant.machine, ordersStarted + 1) && Makes(plant.products, next.sku)
      modifies `order, `unitSeq, `ordersStarted, `started
      ensures Valid() && order == Option.Some(next) && unitSeq == 0 && started == old(started) + [next]
    {
      OrderBegins(events, started, plant.machine, order, unitSeq, ordersStarted, next);
      order, unitSeq, ordersStarted := Option.Some(next), 0, ordersStarted + 1;
      started := started + [next];
    }

    /** The changeover itself: a state change, a scan, the time it takes, a scan. */
    method ChangeOver()
      requires Valid() && order.Some?
      modifies `events, `state, `now
      ensures Valid() && state == Changeover && old(events) <= events && ChangeoverTakes(plant, now - old(now))
      ensures Said(events) == Said(old(events))
                + Change(old(state), Changeover, Text("new_work_order"), old(now))
                + [OrderScan(operator, "changeover_start", order.value, old(now))]
                + [OrderScan(operator, "changeover_end", order.value, now)]
    {
      Transition(Changeover, Text("new_work_order"));
      ScanOrder("changeover_start");
      var ticks := DrawChangeover(plant);
      now := now + ticks;
      ScanOrder("changeover_end");
    }

    /** Changeover, then start running. */
    method BeginOrder(next: Order)
      requires Valid() && (order.Some? ==> unitSeq >= order.value.units)
      requires next.id == OrderId(plant.machine, ordersStarted + 1) && Makes(plant.products, next.sku)
      modifies `order, `unitSeq, `ordersStarted, `started, `events, `state, `now
      ensures Valid() && order == Option.Some(next) && unitSeq == 0 && started == old(started) + [next]
      ensures state == Execute && old(events) <= events && ChangeoverTakes(plant, now - old(now))
      ensures Said(events) == Said(old(events))
                + Change(old(state), Changeover, Text("new_work_order"), old(now))
                + [OrderScan(operator, "changeover_start", next, old(now))]
                + [OrderScan(operator, "changeover_end", next, now)]
                + Change(Changeover, Execute, Null, now)
    {
      TakeOrder(next);
      ChangeOver();
      Transition(Execute, Null);
    }

    predicate OrderComplete()
      reads this
    {
      order.Some? && unitSeq >= order.value.units
    }

    method HoldFor(reason: string, ticks: int)
      requires Valid()
      modifies `events, `state, `now
      ensures Valid() && state == Execute && old(events) <= events && now == old(now) + ticks
      ensures Said(events) == Said(old(events)) + Change(old(state), Held, Text(reason), old(now)) + Change(Held, Execute, Null, now)
    {
      Transition(Held, Text(reason));
      now := now + ticks;
      Transition(Execute, Null);
    }

    method UnplannedStop() returns (ghost stop: Stop)
      requires Valid()
      modifies `events, `state, `now
      ensures Valid() && state == Execute && old(events) <= events && now == old(now) + StopTicks(Option.Some(stop))
      ensures StopDrawn(stop)
      ensures Said(events) == Said(old(events)) + StopSayings(old(state), Option.Some(stop), old(now), now)
    {
      ghost var before, from, was := Said(events), state, now;
      var why, ticks;
      stop, why, ticks := DrawStop();
      HoldFor(why, ticks);
      StopInOrder(before, from, stop, was, now, Said(events));
    }

    /** A cycle event under the next number of the running order. */
    method EmitCycle(duration: real)
      requires Valid() && order.Some? && unitSeq < order.value.units
      modifies `events, `unitSeq
      ensures Valid() && unitSeq == old(unitSeq) + 1 && old(events) < events
      ensures Said(events) == Said(old(events)) + [Saying(EventType.Cycle, CyclePayload(order.value, unitSeq, duration, operator), now)]
    {
      ghost var before, was := events, unitSeq;
      unitSeq := unitSeq + 1;
      var payload := CyclePayload(order.value, unitSeq, duration, operator);
      NextCycleFits(before, order.value, unitSeq, duration, operator);
      var e := Emit(EventType.Cycle, payload);
      AfterSnoc(before, e, "");
      SaidSnoc(before, e);
      CycleAdvancesOrder(before, e, started, plant.machine, order.value, was, ordersStarted);
    }

    /** The unit just made is the last thing said. */
    ghost predicate JustMade(duration: real)
      reads this
    {
      && order.Some? && events != []
      && Say(events[|events| - 1]) == Saying(EventType.Cycle, CyclePayload(order.value, unitSeq, duration, operator), now)
    }

    /** A defect of the unit just made, as often as the product's rate says. */
    method MaybeDefect(product: Product, ghost duration: real) returns (ghost code: Option<string>)
      requires Valid() && plant.defectCodes != {} && JustMade(duration)
      modifies `events
      ensures Valid() && old(events) <= events
      ensures Said(events) == Said(old(events)) + DefectSayings(order.value, unitSeq, code, operator, now)
      ensures code.Some? ==> code.value in plant.defectCodes
      ensures (product.defectBaseRate <= 0.0 ==> code.None?) && (product.defectBaseRate >= 1.0 ==> code.Some?)
    {
      code := Option.None;
      var r := Random();
      if r < product.defectBaseRate {
        var chosen := Choose(plant.defectCodes);
        code := Option.Some(chosen);
        Note(EventType.Defect, DefectPayload(order.value, unitSeq, chosen, operator));
      }
    }

    /** Advance the clock, emit the unit's cycle, maybe a defect of it. */
    method MakeUnit(product: Product) returns (duration: real, ghost code: Option<string>)
      requires Valid() && plant.defectCodes != {} && order.Some? && unitSeq < order.value.units
      modifies `events, `unitSeq, `now
      ensures Valid() && unitSeq == old(unitSeq) + 1 && old(events) <= events
      ensures duration >= plant.Fastest() && now == old(now) + Micros(duration)
      ensures code.Some? ==> code.value in plant.defectCodes
      ensures (product.defectBaseRate <= 0.0 ==> code.None?) && (product.defectBaseRate >= 1.0 ==> code.Some?)
      ensures Said(events) == Said(old(events)) + CycleSayings(order.value, unitSeq, operator, duration, code, now)
    {
      duration := DrawDuration(plant);
      now := now + Micros(duration);
      ghost var before := events;
      EmitCycle(duration);
      LastSaid(before, events);
      assert JustMade(duration);
      code := MaybeDefect(product, duration);
      CycleInOrder(Said(before), Said(events), order.value, unitSeq, operator, duration, code, now);
    }

    /** An unplanned stop, at a small rate. */
    method MaybeStop() returns (ghost stop: Option<Stop>)
      requires Valid()
      modifies `events, `state, `now
      ensures Valid() && old(events) <= events && state == if stop.Some? then Execute else old(state)
      ensures now == old(now) + StopTicks(stop)
      ensures stop.Some? ==> StopDrawn(stop.value)
      ensures Said(events) == Said(old(events)) + StopSayings(old(state), stop, old(now), now)
    {
      stop := Option.None;
      var r := Random();
      if r < 0.004 {
        ghost var drawn := UnplannedStop();
        stop := Option.Some(drawn);
      }
    }

    /** The load and unload between two units. */
    method Unload(duration: real) returns (ghost fraction: real)
      modifies `now
      ensures 0.05 <= fraction <= 0.18 && now == old(now) + UnloadTicks(duration, fraction)
    {
      var drawn, t := Uniform(0.05, 0.18);
      AtIsBetween(0.05, 0.18, t);
      fraction := drawn;
      now := now + UnloadTicks(duration, drawn);
    }

    /** Make a unit, unload it and load the next; `at` is when its cycle ended. */
    method CycleUnit(product: Product) returns (ghost duration: real, ghost fraction: real, ghost code: Option<string>, ghost at: int)
      requires Valid() && plant.defectCodes != {} && order.Some? && unitSeq < order.value.units
      modifies `events, `unitSeq, `now
      ensures Valid() && unitSeq == old(unitSeq) + 1 && old(events) <= events
      ensures duration >= plant.Fastest() && 0.05 <= fraction <= 0.18
      ensures at == old(now) + Micros(duration) && now == old(now) + CycleTicks(duration, fraction)
      ensures code.Some? ==> code.value in plant.defectCodes
      ensures (product.defectBaseRate <= 0.0 ==> code.None?) && (product.defectBaseRate >= 1.0 ==> code.Some?)
      ensures Said(events) == Said(old(events)) + CycleSayings(order.value, unitSeq, operator, duration, code, at)
    {
      var drawn, defect := MakeUnit(product);
      duration, code, at := drawn, defect, now;
      fraction := Unload(drawn);
    }

    /** One part: make it, unload and load, and maybe stop. What it draws decides what is said, and how long it takes. */
    method RunUnit(product: Product) returns (ghost u: Unit)
      requires Valid() && plant.defectCodes != {} && order.Some? && unitSeq < order.value.units
      modifies `events, `unitSeq, `now, `state
      ensures Valid() && unitSeq == old(unitSeq) + 1 && old(events) <= events
      ensures Drawn(plant, u) && now == old(now) + UnitTicks(u) && state == if u.stop.Some? then Execute else old(state)
      ensures (product.defectBaseRate <= 0.0 ==> u.code.None?) && (product.defectBaseRate >= 1.0 ==> u.code.Some?)
      ensures Said(events) == Said(old(events)) + UnitSayings(order.value, unitSeq, operator, old(state), old(now), u)
    {
      ghost var before, from, was := Said(events), state, now;
      ghost var duration, fraction, code, at := CycleUnit(product);
      ghost var made, rested := Said(events), now;
      ghost var stop := MaybeStop();
      u := UnitDone(plant, before, made, Said(events), order.value, unitSeq, operator, from, duration, fraction, code, stop, was, at, rested, now);
    }
  }

  /** What the parts of a unit add up to. */
  lemma UnitDone(
    plant: Plant, before: seq<Saying>, made: seq<Saying>, after: seq<Saying>, order: Order, unit: nat, operator: string,
    from: MachineState, duration: real, fraction: real, code: Option<string>, stop: Option<Stop>, was: int, at: int, rested: int, now: int)
    returns (u: Unit)
    requires duration >= plant.Fastest() && 0.05 <= fraction <= 0.18
    requires (code.Some? ==> code.value in plant.defectCodes) && (stop.Some? ==> StopDrawn(stop.value))
    requires at == was + Micros(duration) && rested == was + CycleTicks(duration, fraction) && now == rested + StopTicks(stop)
    requires made == before + CycleSayings(order, unit, operator, duration, code, at)
    requires after == made + StopSayings(from, stop, rested, now)
    ensures u == Unit(duration, fraction, code, stop) && Drawn(plant, u) && now == was + UnitTicks(u)
    ensures after == before + UnitSayings(order, unit, operator, from, was, u)
  {
    u := Unit(duration, fraction, code, stop);
  }

  lemma CycleInOrder(
    before: seq<Saying>, after: seq<Saying>, order: Order, unit: nat, operator: string, duration: real, code: Option<string>, time: int)
    requires after == before + [Saying(EventType.Cycle, CyclePayload(order, unit, duration, operator), time)]
                      + DefectSayings(order, unit, code, operator, time)
    ensures after == before + CycleSayings(order, unit, operator, duration, code, time)
  {
  }

  lemma LastSaid(before: seq<EventValue>, after: seq<EventValue>)
    requires |after| == |before| + 1
    ensures Said(after)[|before|] == Say(after[|before|]) == Say(after[|after| - 1])
  {
  }

  lemma RoundedIsWhole(x: real)
    ensures Whole(PyRound3(x) * 1000.0)
  {
    assert PyRound3(x) * 1000.0 == RoundHalfEven(x * 1000.0) as real;
  }

  // ---- the shift loop ----

  /** A shift of one day; times are offsets into the day. */
  datatype Shift = Shift(start: int, end: int, breaks: seq<Break>)

  const DAY_MICROS := 86_400_000_000

  predicate EarlierBreak(a: Break, b: Break)
  {
    a.start <= b.start
  }

  /** A shift that ends no later than it starts crosses midnight. */
  function EndOf(day: int, shift: Shift): int
  {
    if shift.end <= shift.start then day + shift.end + DAY_MICROS else day + shift.end
  }

  method PickProduct(products: seq<Product>) returns (product: Product)
    requires products != []
    ensures Makes(products, product.sku)
  {
    var i := RandInt(0, |products| - 1);
    product := products[i];
  }

  /** `next(p for p in products if p.sku == sku)`. */
  method ProductOf(products: seq<Product>, sku: string) returns (product: Product)
    requires Makes(products, sku)
    ensures product in products && product.sku == sku
  {
    var i := 0;
    while products[i].sku != sku
      invariant 0 <= i < |products| && forall j :: 0 <= j < i ==> products[j].sku != sku
      decreases |products| - i
    {
      i := i + 1;
    }
    product := products[i];
  }

  /** A due break: held, and back to running. */
  method TakeBreak(sim: MachineSim, length: int)
    requires sim.Valid() && length > 0
    modifies sim
    ensures sim.Valid() && old(sim.events) <= sim.events && sim.now == old(sim.now) + length
    ensures sim.order == old(sim.order) && sim.unitSeq == old(sim.unitSeq)
  {
    sim.Transition(Held, Text("scheduled_break"));
    sim.now := sim.now + length;
    sim.Transition(Execute, Null);
  }

  method NextOrder(sim: MachineSim)
    requires sim.Valid() && sim.plant.Ready() && (sim.order.Some? ==> sim.OrderComplete())
    modifies sim
    ensures sim.Valid() && old(sim.events) <= sim.events && ChangeoverTakes(sim.plant, sim.now - old(sim.now))
    ensures sim.order.Some? && sim.unitSeq == 0 && sim.plant.unitsMin <= sim.order.value.units <= sim.plant.unitsMax
  {
    var product := PickProduct(sim.plant.products);
    var units := RandInt(sim.plant.unitsMin, sim.plant.unitsMax);
    sim.BeginOrder(Order(OrderId(sim.plant.machine, sim.ordersStarted + 1), product.sku, units));
  }

  method OpenShift(sim: MachineSim, startAt: int)
    requires sim.Valid() && sim.plant.Ready()
    modifies sim
    ensures sim.Valid() && old(sim.events) <= sim.events && sim.now == startAt
    ensures |sim.events| == |old(sim.events)| + 1 && LogsIn(sim.events[|old(sim.events)|], sim.plant.badges, startAt)
  {
    ghost var before := sim.events;
    sim.now := startAt;
    var badge := Choose(sim.plant.badges);
    sim.StartShift(badge);
    FirstSaid(before, sim.events, badge, sim.plant.badges, startAt);
  }

  /** The units the running order has left: none when an order is due. */
  function UnitsLeft(order: Option<Order>, unitSeq: nat): nat
  {
    if order.Some? && unitSeq < order.value.units then order.value.units - unitSeq else 0
  }

  /** Where the loop stands. */
  function ClockOf(sim: MachineSim, nextBreak: nat): Clock
    reads sim
  {
    Clock(sim.now, UnitsLeft(sim.order, sim.unitSeq), nextBreak)
  }

  /** One turn of the loop. */
  method WorkTurn(sim: MachineSim, day: int, breaks: seq<Break>, nextBreak: nat) returns (next: nat)
    requires sim.Valid() && sim.plant.Ready() && AllLast(breaks) && nextBreak <= |breaks|
    modifies sim
    ensures sim.Valid() && old(sim.events) <= sim.events && next <= |breaks|
    ensures Turn(sim.plant, day, breaks, old(ClockOf(sim, nextBreak)), ClockOf(sim, next))
  {
    next := nextBreak;
    if nextBreak < |breaks| && sim.now >= day + breaks[nextBreak].start {
      TakeBreak(sim, breaks[nextBreak].length);
      next := nextBreak + 1;
    } else if sim.order.None? || sim.OrderComplete() {
      NextOrder(sim);
    } else {
      var product := ProductOf(sim.plant.products, sim.order.value.sku);
      ghost var u := sim.RunUnit(product);
      assert UnitTakes(sim.plant, UnitTicks(u));
    }
  }

  /**
   * The loop of a shift, as a path of turns from where it starts to the first that leaves the shift over. It ends for
   * every draw when the plant advances, within the turns that `TurnsLeft` gives.
   */
  method WorkShift(sim: MachineSim, day: int, endAt: int, breaks: seq<Break>) returns (ghost path: seq<Clock>)
    requires sim.Valid() && sim.plant.Ready() && sim.plant.Advances() && AllLast(breaks)
    modifies sim
    ensures sim.Valid() && old(sim.events) <= sim.events && sim.now >= endAt
    ensures Working(sim.plant, day, breaks, endAt, path)
    ensures path[0] == old(ClockOf(sim, 0)) && path[|path| - 1] == ClockOf(sim, path[|path| - 1].nextBreak)
    ensures |path| - 1 <= TurnsLeft(sim.plant, breaks, endAt, path[0])
  {
    var nextBreak: nat := 0;
    path := [ClockOf(sim, 0)];
    while sim.now < endAt
      invariant sim.Valid() && old(sim.events) <= sim.events && nextBreak <= |breaks|
      invariant Working(sim.plant, day, breaks, endAt, path) && path[0] == old(ClockOf(sim, 0))
      invariant path[|path| - 1] == ClockOf(sim, nextBreak)
      decreases TurnsLeft(sim.plant, breaks, endAt, ClockOf(sim, nextBreak))
    {
      ghost var before := ClockOf(sim, nextBreak);
      nextBreak := WorkTurn(sim, day, breaks, nextBreak);
      ghost var after := ClockOf(sim, nextBreak);
      WorkingSnoc(sim.plant, day, breaks, endAt, path, after);
      TurnUsesOne(sim.plant, day, breaks, endAt, before, after);
      path := path + [after];
    }
    ShiftIsBounded(sim.plant, day, breaks, endAt, path);
  }

  /** `_run_shift`: log in, work until the shift is over, log out. */
  method RunShift(sim: MachineSim, day: int, shift: Shift)
    requires sim.Valid() && sim.plant.Ready() && sim.plant.Advances() && AllLast(shift.breaks)
    modifies sim
    ensures sim.Valid() && old(sim.events) <= sim.events
    ensures sim.state == Idle && sim.operator == "" && sim.now >= EndOf(day, shift)
    ensures |sim.events| > |old(sim.events)|
            && LogsIn(sim.events[|old(sim.events)|], sim.plant.badges, day + shift.start)
  {
    OpenShift(sim, day + shift.start);
    SortedBreaksLast(shift.breaks);
    ghost var path := WorkShift(sim, day, EndOf(day, shift), Sort(EarlierBreak, shift.breaks));
    sim.EndShift();
  }

  /** A login of one of these badges at this time. */
  ghost predicate LogsIn(e: EventValue, badges: set<string>, time: int)
  {
    exists badge :: badge in badges && Say(e) == Scan(badge, "login", time)
  }

  lemma FirstSaid(before: seq<EventValue>, after: seq<EventValue>, badge: string, badges: set<string>, time: int)
    requires Said(after) == Said(before) + [Scan(badge, "login", time)] && badge in badges
    ensures |after| == |before| + 1 && LogsIn(after[|before|], badges, time)
  {
    assert |Said(after)| == |before| + 1;
    assert Say(after[|before|]) == Said(after)[|before|];
  }

  lemma SortedBreaksLast(breaks: seq<Break>)
    requires AllLast(breaks)
    ensures AllLast(Sort(EarlierBreak, breaks))
  {
    SortPermutes(EarlierBreak, breaks);
    var sorted := Sort(EarlierBreak, breaks);
    forall i | 0 <= i < |sorted| ensures sorted[i].length > 0 {
      assert sorted[i] in multiset(sorted);
      assert sorted[i] in breaks;
    }
  }

  /** `_run_machine`: every shift of every day. */
  method RunMachine(plant: Plant, start: int, days: nat, shifts: seq<Shift>) returns (sim: MachineSim)
    requires plant.Ready() && plant.Advances()
    requires forall s :: 0 <= s < |shifts| ==> AllLast(shifts[s].breaks)
    ensures fresh(sim) && sim.Valid() && sim.plant == plant
  {
    sim := new MachineSim(plant, start);
    for d := 0 to days
      invariant fresh(sim) && sim.Valid() && sim.plant == plant
    {
      for s := 0 to |shifts|
        invariant fresh(sim) && sim.Valid() && sim.plant == plant
      {
        RunShift(sim, start + d * DAY_MICROS, shifts[s]);
      }
    }
  }

  // ---- what every run keeps ----

  /** The last state change before n, if any, decides the state there. */
  lemma {:induction false} StateIsLastChange(events: seq<EventValue>, machine: string, i: nat, n: nat)
    requires Story(events, machine) && i < n <= |events| && events[i].kind.StateChange?
    requires forall j :: i < j < n ==> !events[j].kind.StateChange?
    ensures Name(StateAfter(events[..n])) == events[i].payload[ToState]
    decreases n
  {
    assert events[..n][..n - 1] == events[..n - 1];
    if n > i + 1 {
      StateIsLastChange(events, machine, i, n - 1);
    }
  }

  lemma {:induction false} IdleBeforeAnyChange(events: seq<EventValue>, n: nat)
    requires n <= |events| && forall j :: 0 <= j < n ==> !events[j].kind.StateChange?
    ensures StateAfter(events[..n]) == Idle
    decreases n
  {
    if n > 0 {
      assert events[..n][..n - 1] == events[..n - 1];
      IdleBeforeAnyChange(events, n - 1);
    }
  }

  ghost predicate NextChange(events: seq<EventValue>, i: int, j: nat)
  {
    -1 <= i < j < |events| && events[j].kind.StateChange? && (i >= 0 ==> events[i].kind.StateChange?)
    && forall m :: i < m < j ==> !events[m].kind.StateChange?
  }

  /** The state changes are a chain from idle: each starts where the one before it ended, and none stays put. */
  lemma StateChangesChain(events: seq<EventValue>, machine: string, i: int, j: nat)
    requires Story(events, machine) && NextChange(events, i, j)
    ensures events[j].payload[FromState] == if i < 0 then Name(Idle) else events[i].payload[ToState]
    ensures events[j].payload[ToState] != events[j].payload[FromState]
  {
    if i < 0 {
      IdleBeforeAnyChange(events, j);
    } else {
      StateIsLastChange(events, machine, i, j);
    }
    assert Fits(events[..j], events[j].kind, events[j].payload);
  }

  lemma {:induction false} CyclesGrow(events: seq<EventValue>, order: string, n: nat, m: nat)
    requires n <= m <= |events|
    ensures Cycles(events[..n], order) <= Cycles(events[..m], order)
    decreases m
  {
    if n < m {
      assert events[..m][..m - 1] == events[..m - 1];
      CyclesGrow(events, order, n, m - 1);
    }
  }

  ghost predicate IsUnit(e: EventValue, order: string, unit: nat)
  {
    CycleOf(e, order) && UnitSeq in e.payload && e.payload[UnitSeq] == Number(unit as real)
  }

  /** Exactly one cycle of an order bears each number from 1 to its count, and they come in that order. */
  lemma {:induction false} UnitIsEmittedOnce(events: seq<EventValue>, machine: string, order: string, unit: nat) returns (i: nat)
    requires Story(events, machine) && 1 <= unit <= Cycles(events, order)
    ensures i < |events| && IsUnit(events[i], order, unit) && Cycles(events[..i], order) == unit - 1
    ensures forall j :: 0 <= j < |events| && IsUnit(events[j], order, unit) ==> j == i
    decreases |events|
  {
    var n := |events| - 1;
    assert events[..n][..n] == events[..n];
    if Cycles(events[..n], order) < unit {
      i := n;
      assert Fits(events[..n], events[n].kind, events[n].payload);
    } else {
      StoryPrefix(events, machine, n);
      i := UnitIsEmittedOnce(events[..n], machine, order, unit);
      assert events[..n][..i] == events[..i];
    }
    forall j | 0 <= j < |events| && IsUnit(events[j], order, unit) ensures j == i { UnitIsNoOther(events, machine, order, unit, i, j); }
  }

  lemma UnitIsNoOther(events: seq<EventValue>, machine: string, order: string, unit: nat, i: nat, j: nat)
    requires Story(events, machine) && i < |events| && j < |events|
    requires IsUnit(events[i], order, unit) && Cycles(events[..i], order) == unit - 1 && IsUnit(events[j], order, unit)
    ensures j == i
  {
    assert Fits(events[..j], events[j].kind, events[j].payload);
    UnitAt(events, order, j);
    UnitAt(events, order, i);
    if i < j { CyclesGrow(events, order, i + 1, j); }
    if j < i { CyclesGrow(events, order, j + 1, i); }
  }

  lemma UnitAt(events: seq<EventValue>, order: string, i: nat)
    requires i < |events|
    ensures Cycles(events[..i + 1], order) == Cycles(events[..i], order) + if CycleOf(events[i], order) then 1 else 0
  {
    assert events[..i + 1][..i] == events[..i];
  }

  lemma StoryPrefix(events: seq<EventValue>, machine: string, n: nat)
    requires Story(events, machine) && n <= |events|
    ensures Story(events[..n], machine)
  {
    forall i | 0 <= i < n ensures Fits(events[..n][..i], events[..n][i].kind, events[..n][i].payload) {
      assert events[..n][..i] == events[..i];
    }
  }

  /** No cycle of an order bears a number beyond its count. */
  lemma NoOtherUnits(events: seq<EventValue>, machine: string, order: string, i: nat) returns (unit: nat)
    requires Story(events, machine) && i < |events| && CycleOf(events[i], order)
    ensures IsUnit(events[i], order, unit) && 1 <= unit <= Cycles(events, order)
  {
    assert Fits(events[..i], events[i].kind, events[i].payload);
    unit := Cycles(events[..i], order) + 1;
    UnitAt(events, order, i);
    CyclesGrow(events, order, i + 1, |events|);
    assert events[..|events|] == events;
  }

  /** A defect names a unit whose cycle was already emitted. */
  lemma DefectNamesEmittedUnit(events: seq<EventValue>, machine: string, i: nat) returns (order: string, unit: nat)
    requires Story(events, machine) && i < |events| && events[i].kind.Defect?
    ensures events[i].payload[WorkOrder] == Text(order) && events[i].payload[UnitSeq] == Number(unit as real)
    ensures 1 <= unit <= Cycles(events[..i], order) && IsUnit(events[i - 1], order, unit)
  {
    assert Fits(events[..i], events[i].kind, events[i].payload);
    assert events[..i][|events[..i]| - 1] == events[i - 1];
    assert Fits(events[..i - 1], events[i - 1].kind, events[i - 1].payload);
    order := events[i].payload[WorkOrder].text;
    StoryPrefix(events, machine, i);
    unit := NoOtherUnits(events[..i], machine, order, i - 1);
  }

  /** Work orders: distinct ids; every order but the last ran to its count, the last not past it; cycles of nothing else. */
  lemma OrdersRunInFull(
    events: seq<EventValue>, started: seq<Order>, machine: string, order: Option<Order>, unitSeq: nat, ordersStarted: nat)
    requires OnOrder(events, started, machine, order, unitSeq, ordersStarted)
    ensures forall n, m :: 0 <= n < |started| && 0 <= m < |started| && started[n].id == started[m].id ==> n == m
    ensures forall n :: 0 <= n < |started| ==>
              Cycles(events, started[n].id) <= started[n].units
              && (n < |started| - 1 ==> Cycles(events, started[n].id) == started[n].units)
    ensures forall i :: 0 <= i < |events| && events[i].kind.Cycle? && WorkOrder in events[i].payload && events[i].payload[WorkOrder].Text?
              ==> Known(started, events[i].payload[WorkOrder].text)
  {
    forall n, m | 0 <= n < |started| && 0 <= m < |started| && started[n].id == started[m].id ensures n == m {
      DistinctOrders(events, started, machine, n, m);
    }
    forall i | 0 <= i < |events| && events[i].kind.Cycle? && WorkOrder in events[i].payload && events[i].payload[WorkOrder].Text?
      ensures Known(started, events[i].payload[WorkOrder].text)
    {
      var id := events[i].payload[WorkOrder].text;
      UnitAt(events, id, i);
      CyclesGrow(events, id, i + 1, |events|);
      assert events[..|events|] == events;
    }
  }

  /** No duration, or one in seconds that is a whole number of milliseconds; and no badge for the rename to overwrite. */
  predicate DriftProof(kind: EventType, p: Payload, engine: Engine)
  {
    && Convertible(p, kind) && NumericDuration(p) && !BadgeShadowed(p, kind, engine)
    && (kind.Cycle? && DurationS in p ==> p[DurationS].Number? && Whole(p[DurationS].number * 1000.0))
  }

  lemma FittingIsDriftProof(before: seq<EventValue>, kind: EventType, p: Payload, engine: Engine)
    requires Fits(before, kind, p)
    ensures DriftProof(kind, p, engine)
  {
  }

  /** A simulated stream is fit for the injector, and schema drift never changes what staging reads of it. */
  lemma SimulatedStreamSurvivesDrift(events: seq<EventValue>, machine: string, engine: Engine, i: nat)
    requires Story(events, machine) && i < |events|
    ensures Convertible(events[i].payload, events[i].kind) && NumericDuration(events[i].payload)
    ensures Conform(ToV2(events[i].payload, events[i].kind), engine) == Conform(events[i].payload, engine)
    ensures Conform(ToV3(events[i].payload, events[i].kind), engine) == Conform(events[i].payload, engine)
  {
    var p, kind := events[i].payload, events[i].kind;
    FittingIsDriftProof(events[..i], kind, p, engine);
    DriftProofSurvives(kind, p, engine);
  }

  lemma DriftProofSurvives(kind: EventType, p: Payload, engine: Engine)
    requires DriftProof(kind, p, engine)
    ensures Conform(ToV2(p, kind), engine) == Conform(p, engine) && Conform(ToV3(p, kind), engine) == Conform(p, engine)
  {
    ToV2KeepsMeaningIff(p, kind, engine);
    WholeDurationSurvives(kind, p, engine);
    ToV3KeepsMeaningIff(p, kind, engine);
  }

  lemma WholeDurationSurvives(kind: EventType, p: Payload, engine: Engine)
    requires DriftProof(kind, p, engine)
    ensures kind.Cycle? && DurationS in p ==> SurvivesRounding(p[DurationS], engine)
  {
    if kind.Cycle? && DurationS in p { NumberSurvivesIffWhole(p[DurationS].number, engine); }
  }
}
