/** The transport passes: lateness, reordering within a machine, duplication and corruption. */
module Publishing {
  import opened Events
  import opened Ranking
  import opened Reordering
  import opened Draws
  import opened Disorder

  // ---- late arrival ----

  const MICROS_PER_HOUR := 3_600_000_000.0

  ghost predicate Delayed(v: EventValue, was: EventValue, maxHours: real)
  {
    && SameButPublish(v, was)
    && 0 <= v.publishTime - was.publishTime
    && (v.publishTime - was.publishTime) as real <= maxHours * MICROS_PER_HOUR + 0.5
  }

  /** Lateness moves the publish time of the pushed events alone, and the log names exactly those. */
  ghost predicate Late(now: seq<EventValue>, was: seq<EventValue>, pushed: set<nat>, maxHours: real, late: set<string>)
  {
    && |now| == |was|
    && (forall i :: 0 <= i < |was| ==> if i in pushed then Delayed(now[i], was[i], maxHours) else now[i] == was[i])
    && late == set i | 0 <= i < |was| && i in pushed :: was[i].id
  }

  lemma DelayBound(maxHours: real, hours: real)
    requires 0.0 <= hours <= maxHours
    ensures 0 <= Micros(hours * 3600.0)
    ensures Micros(hours * 3600.0) as real <= maxHours * MICROS_PER_HOUR + 0.5
  {
    assert hours * 3600.0 * 1000000.0 == hours * MICROS_PER_HOUR;
  }

  method LateHours(maxHours: real) returns (hours: real)
    requires maxHours > 0.0
    ensures 0.0 <= hours <= maxHours
  {
    var draw := Random();
    Scaled(draw, draw);
    Scaled(maxHours, draw * draw);
    hours := maxHours * (draw * draw);
  }

  /** Push some publish times hours past the event time. */
  method ApplyLateArrival(events: seq<Event>, cfg: DisorderConfig, log: InjectionLog) returns (ghost pushed: set<nat>)
    requires cfg.Valid() && Separate(events) && log.late == {}
    modifies events, log`late
    ensures Late(Vals(events), old(Vals(events)), pushed, cfg.lateMaxHours, log.late)
    ensures cfg.lateRate == 0.0 ==> pushed == {}
  {
    pushed := {};
    for i := 0 to |events|
      invariant forall j :: 0 <= j < i ==>
              if j in pushed then Delayed(events[j].V(), old(events[j].V()), cfg.lateMaxHours)
              else events[j].V() == old(events[j].V())
      invariant forall j :: i <= j < |events| ==> events[j].V() == old(events[j].V())
      invariant forall j :: j in pushed ==> j < i
      invariant log.late == set j | 0 <= j < i && j in pushed :: events[j].id
      invariant cfg.lateRate == 0.0 ==> pushed == {}
    {
      var r := Random();
      if r < cfg.lateRate {
        var hours := LateHours(cfg.lateMaxHours);
        DelayBound(cfg.lateMaxHours, hours);
        var event := events[i];
        assert event.V() == old(event.V());
        event.publishTime := event.publishTime + Micros(hours * 3600.0);
        log.late := log.late + {event.id};
        pushed := pushed + {i};
        assert Delayed(event.V(), old(event.V()), cfg.lateMaxHours);
      }
    }
  }

  // ---- out of order ----

  function MachineKeys(vals: seq<EventValue>): (r: seq<string>)
    ensures |r| == |vals| && forall i :: 0 <= i < |vals| ==> r[i] == vals[i].machine
  {
    seq(|vals|, i requires 0 <= i < |vals| => vals[i].machine)
  }

  /** The list positions a machine owns, in order. */
  function Positions(keys: seq<string>, m: string): seq<nat>
  {
    if keys == [] then []
    else Positions(keys[..|keys| - 1], m) + (if keys[|keys| - 1] == m then [|keys| - 1] else [])
  }

  lemma {:induction false} PositionsAreOwned(keys: seq<string>, m: string)
    ensures forall k :: 0 <= k < |Positions(keys, m)| ==> Positions(keys, m)[k] < |keys| && keys[Positions(keys, m)[k]] == m
    ensures forall j, k :: 0 <= j < k < |Positions(keys, m)| ==> Positions(keys, m)[j] < Positions(keys, m)[k]
    ensures forall i :: 0 <= i < |keys| && keys[i] == m ==> i in Positions(keys, m)
    decreases |keys|
  {
    if keys != [] {
      PositionsAreOwned(keys[..|keys| - 1], m);
    }
  }

  /** What the listed positions hold. */
  function Project(s: seq<nat>, positions: seq<nat>): (r: seq<nat>)
    requires forall k :: 0 <= k < |positions| ==> positions[k] < |s|
    ensures |r| == |positions| && forall k :: 0 <= k < |positions| ==> r[k] == s[positions[k]]
  {
    seq(|positions|, k requires 0 <= k < |positions| => s[positions[k]])
  }

  ghost predicate Increasing(positions: seq<nat>, n: nat)
  {
    && (forall k :: 0 <= k < |positions| ==> positions[k] < n)
    && (forall j, k :: 0 <= j < k < |positions| ==> positions[j] < positions[k])
  }

  ghost predicate AtMost(backs: seq<nat>, bound: int)
  {
    forall k :: 0 <= k < |backs| ==> backs[k] <= bound
  }

  /** One machine's turn: its positions hold its own events, shuffled by backward swaps. */
  ghost predicate MachineShuffled(origin: seq<nat>, positions: seq<nat>, backs: seq<nat>, maxShift: int)
  {
    && Increasing(positions, |origin|)
    && |backs| == |positions| && WithinSlots(backs) && AtMost(backs, maxShift)
    && Project(origin, positions) == Shuffle(positions, backs)
  }

  lemma SwapKeepsPermutation(origin: seq<nat>, n: nat, i: nat, j: nat)
    requires Permutation(origin, n) && i < n && j < n
    ensures Permutation(Swap(origin, i, j), n)
  {
    var s := Swap(origin, i, j);
    forall x | 0 <= x < n ensures x in s {
      assert x in origin;
      var k :| 0 <= k < n && origin[k] == x;
      assert s[if k == i then j else if k == j then i else k] == x;
    }
  }

  /** A swap of two positions of one machine is a swap of two slots of its sequence. */
  lemma SwapProjects(origin: seq<nat>, positions: seq<nat>, a: nat, b: nat)
    requires Increasing(positions, |origin|) && a < |positions| && b < |positions|
    ensures Project(Swap(origin, positions[a], positions[b]), positions) == Swap(Project(origin, positions), a, b)
  {
    var l, r := Project(Swap(origin, positions[a], positions[b]), positions), Swap(Project(origin, positions), a, b);
    forall k | 0 <= k < |positions| ensures l[k] == r[k] {
      assert positions[k] == positions[a] <==> k == a;
      assert positions[k] == positions[b] <==> k == b;
    }
  }

  lemma SlotsSnoc(backs: seq<nat>, back: nat)
    requires WithinSlots(backs) && back <= |backs|
    ensures WithinSlots(backs + [back])
  {
  }

  lemma ShuffleSnoc(s: seq<nat>, backs: seq<nat>, back: nat)
    requires |backs| < |s| && WithinSlots(backs) && back <= |backs| && WithinSlots(backs + [back])
    ensures Shuffle(s, backs + [back]) == Swap(Shuffle(s, backs), |backs|, |backs| - back)
  {
    var longer := backs + [back];
    assert longer != [] && |longer| - 1 == |backs| && longer[|backs|] == back && longer[..|backs|] == backs;
  }

  /** One slot's turn, on the record of where each event came from. */
  lemma TurnStep(origin: seq<nat>, positions: seq<nat>, backs: seq<nat>, back: nat)
    requires Increasing(positions, |origin|) && Permutation(origin, |origin|)
    requires |backs| < |positions| && WithinSlots(backs) && back <= |backs|
    requires Project(origin, positions) == Shuffle(positions, backs)
    ensures var slot := |backs|;
            var next := Swap(origin, positions[slot], positions[slot - back]);
            && Permutation(next, |origin|) && WithinSlots(backs + [back])
            && Project(next, positions) == Shuffle(positions, backs + [back])
            && (forall i :: 0 <= i < |origin| && i !in positions ==> next[i] == origin[i])
  {
    var slot := |backs|;
    SwapKeepsPermutation(origin, |origin|, positions[slot], positions[slot - back]);
    SwapProjects(origin, positions, slot, slot - back);
    SlotsSnoc(backs, back);
    ShuffleSnoc(positions, backs, back);
  }

  /** Where every event came from: the list after the pass is the list before it, read through `origin`. */
  ghost predicate ReadThrough<T>(now: seq<T>, was: seq<T>, origin: seq<nat>)
  {
    && |now| == |was| && Permutation(origin, |was|)
    && forall i :: 0 <= i < |was| ==> now[i] == was[origin[i]]
  }

  /** The events of a machine that were moved back. */
  function MovedIds(vals: seq<EventValue>, positions: seq<nat>, backs: seq<nat>): set<string>
    requires |backs| <= |positions| && forall k :: 0 <= k < |positions| ==> positions[k] < |vals|
  {
    set k | 0 <= k < |backs| && backs[k] > 0 :: vals[positions[k]].id
  }

  lemma MovedSnoc(vals: seq<EventValue>, positions: seq<nat>, backs: seq<nat>, back: nat)
    requires |backs| < |positions| && forall k :: 0 <= k < |positions| ==> positions[k] < |vals|
    ensures MovedIds(vals, positions, backs + [back])
         == MovedIds(vals, positions, backs) + (if back > 0 then {vals[positions[|backs|]].id} else {})
  {
    var longer := backs + [back];
    assert forall k :: 0 <= k < |backs| ==> longer[k] == backs[k];
    assert back > 0 ==> vals[positions[|backs|]].id in MovedIds(vals, positions, longer) by {
      assert longer[|backs|] == back;
    }
    forall k | 0 <= k < |backs| && backs[k] > 0
      ensures vals[positions[k]].id in MovedIds(vals, positions, longer)
    {
      assert longer[k] > 0;
    }
  }

  method DrawBack(slot: nat, cfg: DisorderConfig) returns (back: nat)
    requires cfg.Valid()
    ensures back <= slot && back <= cfg.outOfOrderMaxShift
  {
    var r := Random();
    if r >= cfg.outOfOrderRate || slot == 0 {
      return 0;
    }
    var most := if cfg.outOfOrderMaxShift < slot then cfg.outOfOrderMaxShift else slot;
    back := RandInt(1, most);
  }

  /** Part of one machine's turn: the slots below |backs| are done, other positions are as the turn found them. */
  ghost predicate Turning<T>(
    now: seq<T>, was: seq<T>, origin: seq<nat>, begin: seq<nat>, positions: seq<nat>, backs: seq<nat>, maxShift: int)
  {
    && ReadThrough(now, was, origin) && |begin| == |was| && Increasing(positions, |was|)
    && |backs| <= |positions| && WithinSlots(backs) && AtMost(backs, maxShift)
    && Project(origin, positions) == Shuffle(positions, backs)
    && forall i :: 0 <= i < |was| && i !in positions ==> origin[i] == begin[i]
  }

  lemma TurnBegins<T>(now: seq<T>, was: seq<T>, begin: seq<nat>, positions: seq<nat>, maxShift: int)
    requires ReadThrough(now, was, begin) && Increasing(positions, |was|) && Project(begin, positions) == positions
    ensures Turning(now, was, begin, begin, positions, [], maxShift)
  {
  }

  lemma TurnAdvances<T>(
    now: seq<T>, was: seq<T>, origin: seq<nat>, begin: seq<nat>, positions: seq<nat>, backs: seq<nat>, maxShift: int, back: nat)
    requires Turning(now, was, origin, begin, positions, backs, maxShift) && |backs| < |positions|
    requires back <= |backs| && back <= maxShift
    ensures var slot := |backs|;
            var index, target := positions[slot], positions[slot - back];
            && (back == 0 ==> Swap(now, index, target) == now)
            && Turning(Swap(now, index, target), was, Swap(origin, index, target), begin, positions, backs + [back], maxShift)
  {
    TurnStep(origin, positions, backs, back);
  }

  /** The inner loop: one machine's events swapped backwards in the shared list. */
  method ReorderMachine(events: seq<Event>, start: seq<Event>, positions: seq<nat>, cfg: DisorderConfig,
                        ghost begin: seq<nat>, ghost vals: seq<EventValue>)
    returns (reordered: seq<Event>, ids: set<string>, ghost origin: seq<nat>, ghost backs: seq<nat>)
    requires cfg.Valid() && vals == Vals(events)
    requires Turning(start, events, begin, begin, positions, [], cfg.outOfOrderMaxShift)
    ensures Turning(reordered, events, origin, begin, positions, backs, cfg.outOfOrderMaxShift)
    ensures |backs| == |positions| && ids == MovedIds(vals, positions, backs)
  {
    reordered, ids, origin, backs := start, {}, begin, [];
    for slot := 0 to |positions|
      invariant Turning(reordered, events, origin, begin, positions, backs, cfg.outOfOrderMaxShift) && |backs| == slot
      invariant ids == MovedIds(vals, positions, backs)
    {
      var back := DrawBack(slot, cfg);
      var index, target := positions[slot], positions[slot - back];
      TurnAdvances(reordered, events, origin, begin, positions, backs, cfg.outOfOrderMaxShift, back);
      MovedSnoc(vals, positions, backs, back);
      if back > 0 {
        reordered := Swap(reordered, index, target);
        ids := ids + {events[index].id};
      }
      origin, backs := Swap(origin, index, target), backs + [back];
    }
  }

  /** The pass: each machine's positions hold that machine's events, shuffled by its own draws. */
  ghost predicate OutOfOrder(origin: seq<nat>, keys: seq<string>, backs: map<string, seq<nat>>, maxShift: int)
  {
    && Permutation(origin, |keys|) && backs.Keys == Owners(keys)
    && forall m :: m in backs ==> MachineShuffled(origin, Positions(keys, m), backs[m], maxShift)
  }

  function Owners(keys: seq<string>): set<string>
  {
    set i | 0 <= i < |keys| :: keys[i]
  }

  /** The ids the log names: exactly the events drawn back. */
  ghost predicate MovedExactly(ids: set<string>, vals: seq<EventValue>, backs: map<string, seq<nat>>)
  {
    forall id :: id in ids <==> exists m :: MovedIn(id, vals, backs, m)
  }

  ghost predicate MovedIn(id: string, vals: seq<EventValue>, backs: map<string, seq<nat>>, m: string)
  {
    var positions := Positions(MachineKeys(vals), m);
    && m in backs && |backs[m]| == |positions| && Increasing(positions, |vals|)
    && id in MovedIds(vals, positions, backs[m])
  }

  lemma PositionsIncrease(keys: seq<string>, m: string)
    ensures Increasing(Positions(keys, m), |keys|)
    ensures forall i :: 0 <= i < |keys| ==> (i in Positions(keys, m) <==> keys[i] == m)
  {
    PositionsAreOwned(keys, m);
  }

  /** `by_machine`: the positions of each machine's events. */
  method GroupByMachine(events: seq<Event>) returns (byMachine: map<string, seq<nat>>)
    ensures var keys := MachineKeys(Vals(events));
            byMachine.Keys == Owners(keys) && forall m :: m in byMachine ==> byMachine[m] == Positions(keys, m)
  {
    byMachine := map[];
    ghost var keys := MachineKeys(Vals(events));
    for index := 0 to |events|
      invariant byMachine.Keys == Owners(keys[..index])
      invariant forall m :: m in byMachine ==> byMachine[m] == Positions(keys[..index], m)
    {
      var m := events[index].machine;
      OwnersSnoc(keys, index);
      forall x ensures Positions(keys[..index + 1], x) == Positions(keys[..index], x) + if x == m then [index] else []
      {
        assert keys[..index + 1][..index] == keys[..index];
      }
      NoPositions(keys[..index], m);
      byMachine := byMachine[m := (if m in byMachine then byMachine[m] else []) + [index]];
    }
    assert keys[..|events|] == keys;
  }

  lemma OwnersSnoc(keys: seq<string>, index: nat)
    requires index < |keys|
    ensures Owners(keys[..index + 1]) == Owners(keys[..index]) + {keys[index]}
  {
    var longer := keys[..index + 1];
    forall x ensures x in Owners(longer) <==> x in Owners(keys[..index]) + {keys[index]} {
      if x in Owners(longer) {
        var i :| 0 <= i < |longer| && longer[i] == x;
        if i < index { assert keys[..index][i] == x; }
      }
      if x in Owners(keys[..index]) {
        var i :| 0 <= i < index && keys[..index][i] == x;
        assert longer[i] == x;
      }
      assert longer[index] == keys[index];
    }
  }

  lemma {:induction false} NoPositions(keys: seq<string>, m: string)
    ensures m !in Owners(keys) ==> Positions(keys, m) == []
    decreases |keys|
  {
    if keys != [] {
      OwnersSnoc(keys, |keys| - 1);
      assert keys[..|keys|] == keys;
      NoPositions(keys[..|keys| - 1], m);
    }
  }

  /** Machines done so far are shuffled; the positions of the others are as they were. */
  ghost predicate DoneSoFar(origin: seq<nat>, keys: seq<string>, backs: map<string, seq<nat>>, maxShift: int)
  {
    && Permutation(origin, |keys|) && backs.Keys <= Owners(keys)
    && (forall m :: m in backs ==> MachineShuffled(origin, Positions(keys, m), backs[m], maxShift))
    && (forall i :: 0 <= i < |keys| && keys[i] !in backs ==> origin[i] == i)
  }

  /** Machines own disjoint positions, so one machine's turn leaves another as it was. */
  lemma OtherMachineKept(before: seq<nat>, after: seq<nat>, keys: seq<string>, backs: seq<nat>, m: string, x: string, maxShift: int)
    requires |before| == |after| == |keys| && x != m
    requires MachineShuffled(before, Positions(keys, x), backs, maxShift)
    requires forall i :: 0 <= i < |keys| && keys[i] != m ==> after[i] == before[i]
    ensures MachineShuffled(after, Positions(keys, x), backs, maxShift)
  {
    PositionsIncrease(keys, x);
    var p := Positions(keys, x);
    forall k | 0 <= k < |p| ensures after[p[k]] == before[p[k]] {
      assert p[k] in p && keys[p[k]] == x;
    }
    assert Project(after, p) == Project(before, p);
  }

  lemma MachineStep(before: seq<nat>, after: seq<nat>, keys: seq<string>, backs: map<string, seq<nat>>, m: string, own: seq<nat>, maxShift: int)
    requires DoneSoFar(before, keys, backs, maxShift) && m in Owners(keys) && m !in backs
    requires Permutation(after, |keys|) && MachineShuffled(after, Positions(keys, m), own, maxShift)
    requires forall i :: 0 <= i < |keys| && keys[i] != m ==> after[i] == before[i]
    ensures DoneSoFar(after, keys, backs[m := own], maxShift)
  {
    var next := backs[m := own];
    forall x | x in next ensures MachineShuffled(after, Positions(keys, x), next[x], maxShift) {
      if x != m { OtherMachineKept(before, after, keys, backs[x], m, x, maxShift); }
    }
  }

  /** The list part-way through the machines. */
  ghost predicate Between<T>(
    now: seq<T>, was: seq<T>, origin: seq<nat>, keys: seq<string>, backs: map<string, seq<nat>>, maxShift: int)
  {
    |keys| == |was| && ReadThrough(now, was, origin) && DoneSoFar(origin, keys, backs, maxShift)
  }

  lemma MachineBegins<T>(
    now: seq<T>, was: seq<T>, origin: seq<nat>, keys: seq<string>, backs: map<string, seq<nat>>, maxShift: int, m: string)
    requires Between(now, was, origin, keys, backs, maxShift) && m !in backs
    ensures Turning(now, was, origin, origin, Positions(keys, m), [], maxShift)
  {
    PositionsIncrease(keys, m);
    TurnBegins(now, was, origin, Positions(keys, m), maxShift);
  }

  lemma MachineEnds<T>(
    now: seq<T>, was: seq<T>, origin: seq<nat>, keys: seq<string>, backs: map<string, seq<nat>>, maxShift: int,
    m: string, before: seq<nat>, own: seq<nat>)
    requires |keys| == |was| && DoneSoFar(before, keys, backs, maxShift) && m in Owners(keys) && m !in backs
    requires Turning(now, was, origin, before, Positions(keys, m), own, maxShift) && |own| == |Positions(keys, m)|
    ensures Between(now, was, origin, keys, backs[m := own], maxShift)
  {
    PositionsIncrease(keys, m);
    MachineStep(before, origin, keys, backs, m, own, maxShift);
  }

  lemma MovedStep(ids: set<string>, vals: seq<EventValue>, backs: map<string, seq<nat>>, m: string, own: seq<nat>)
    requires MovedExactly(ids, vals, backs) && m !in backs
    requires Increasing(Positions(MachineKeys(vals), m), |vals|) && |own| == |Positions(MachineKeys(vals), m)|
    ensures MovedExactly(ids + MovedIds(vals, Positions(MachineKeys(vals), m), own), vals, backs[m := own])
  {
    var more, next := MovedIds(vals, Positions(MachineKeys(vals), m), own), backs[m := own];
    forall id ensures id in ids + more <==> exists x :: MovedIn(id, vals, next, x) {
      assert id in more <==> MovedIn(id, vals, next, m);
      if id in ids {
        var x :| MovedIn(id, vals, backs, x);
        assert MovedIn(id, vals, next, x);
      }
      if x :| MovedIn(id, vals, next, x) {
        assert x != m ==> MovedIn(id, vals, backs, x);
      }
    }
  }

  lemma SlotsPermute(n: nat)
    ensures Permutation(Slots(n), n)
  {
    assert forall i :: 0 <= i < n ==> Slots(n)[i] == i && Slots(n)[i] in Slots(n);
  }

  /** Before any machine's turn. */
  lemma NothingDone(keys: seq<string>, maxShift: int)
    ensures DoneSoFar(Slots(|keys|), keys, map[], maxShift)
  {
    SlotsPermute(|keys|);
  }

  lemma AllDone(origin: seq<nat>, keys: seq<string>, backs: map<string, seq<nat>>, maxShift: int)
    requires DoneSoFar(origin, keys, backs, maxShift) && backs.Keys == Owners(keys)
    ensures OutOfOrder(origin, keys, backs, maxShift)
  {
  }

  /** Nobody drawn. */
  ghost function NoBacks(keys: seq<string>): map<string, seq<nat>>
  {
    map m | m in Owners(keys) :: Zeros(|Positions(keys, m)|)
  }

  function Zeros(n: nat): (r: seq<nat>)
    ensures |r| == n && forall k :: 0 <= k < n ==> r[k] == 0
  {
    seq(n, k => 0)
  }

  /** Turned off, the pass is the pass of no draws. */
  lemma NoBacksIsOutOfOrder(keys: seq<string>, maxShift: int)
    requires maxShift >= 0
    ensures OutOfOrder(Slots(|keys|), keys, NoBacks(keys), maxShift)
  {
    var n := |keys|;
    SlotsPermute(n);
    forall m | m in Owners(keys) ensures MachineShuffled(Slots(n), Positions(keys, m), Zeros(|Positions(keys, m)|), maxShift) {
      var p := Positions(keys, m);
      PositionsIncrease(keys, m);
      NoDrawsNoChange(p, Zeros(|p|));
      assert Project(Slots(n), p) == p;
    }
  }

  lemma NoBacksMovesNone(vals: seq<EventValue>)
    ensures MovedExactly({}, vals, NoBacks(MachineKeys(vals)))
  {
  }

  /** Swap events backwards, each within its own machine's sequence, in the shared publish list. */
  method ApplyOutOfOrder(events: seq<Event>, cfg: DisorderConfig, log: InjectionLog)
    returns (reordered: seq<Event>, ghost origin: seq<nat>, ghost backs: map<string, seq<nat>>)
    requires cfg.Valid() && log.outOfOrder == {}
    modifies log`outOfOrder
    ensures ReadThrough(reordered, events, origin)
    ensures cfg.outOfOrderRate == 0.0 ==> reordered == events && log.outOfOrder == {}
    ensures OutOfOrder(origin, MachineKeys(Vals(events)), backs, cfg.outOfOrderMaxShift)
    ensures MovedExactly(log.outOfOrder, Vals(events), backs)
  {
    SlotsPermute(|events|);
    if cfg.outOfOrderRate <= 0.0 {
      reordered, origin, backs := events, Slots(|events|), NoBacks(MachineKeys(Vals(events)));
      NoBacksIsOutOfOrder(MachineKeys(Vals(events)), cfg.outOfOrderMaxShift);
      NoBacksMovesNone(Vals(events));
      return;
    }
    var byMachine := GroupByMachine(events);
    var ids;
    reordered, ids, origin, backs := ReorderAll(events, byMachine, cfg, Vals(events));
    log.outOfOrder := ids;
  }

  /** The outer loop, one machine at a time; their order does not matter. */
  method ReorderAll(events: seq<Event>, byMachine: map<string, seq<nat>>, cfg: DisorderConfig, ghost vals: seq<EventValue>)
    returns (reordered: seq<Event>, ids: set<string>, ghost origin: seq<nat>, ghost backs: map<string, seq<nat>>)
    requires cfg.Valid() && vals == Vals(events)
    requires byMachine.Keys == Owners(MachineKeys(vals))
    requires forall m :: m in byMachine ==> byMachine[m] == Positions(MachineKeys(vals), m)
    ensures ReadThrough(reordered, events, origin)
    ensures OutOfOrder(origin, MachineKeys(vals), backs, cfg.outOfOrderMaxShift) && MovedExactly(ids, vals, backs)
  {
    ghost var keys, maxShift := MachineKeys(vals), cfg.outOfOrderMaxShift;
    reordered, ids, origin, backs := events, {}, Slots(|events|), map[];
    NothingDone(keys, maxShift);
    var left := byMachine.Keys;
    while left != {}
      invariant left <= byMachine.Keys && backs.Keys == byMachine.Keys - left
      invariant Between(reordered, events, origin, keys, backs, maxShift)
      invariant MovedExactly(ids, vals, backs)
    {
      var m := Choose(left);
      ghost var before := origin;
      MachineBegins(reordered, events, before, keys, backs, maxShift, m);
      var more;
      ghost var own;
      reordered, more, origin, own := ReorderMachine(events, reordered, byMachine[m], cfg, before, vals);
      MachineEnds(reordered, events, origin, keys, backs, maxShift, m, before, own);
      MovedStep(ids, vals, backs, m, own);
      ids, backs, left := ids + more, backs[m := own], left - {m};
    }
    AllDone(origin, keys, backs, maxShift);
  }

  /**
   * What the pass does to a machine's sequence: every position keeps its machine, and the event in slot k of a machine
   * began in that machine's slot o with o - k at most the configured shift, and at most 0 unless o was itself drawn back.
   */
  lemma OutOfOrderIsLocal(
    now: seq<EventValue>, was: seq<EventValue>, origin: seq<nat>, backs: map<string, seq<nat>>, maxShift: int, m: string, k: nat)
    requires ReadThrough(now, was, origin) && OutOfOrder(origin, MachineKeys(was), backs, maxShift)
    requires m in backs && k < |backs[m]|
    ensures var p, moved := Positions(MachineKeys(was), m), Origins(|backs[m]|, backs[m]);
            && |p| == |backs[m]| && k < |moved| && moved[k] < |p|
            && p[k] < |now| && now[p[k]] == was[p[moved[k]]] && now[p[k]].machine == m
            && moved[k] <= k + backs[m][moved[k]] && backs[m][moved[k]] <= maxShift
  {
    var keys := MachineKeys(was);
    var p := Positions(keys, m);
    PositionsIncrease(keys, m);
    EarlierOnlyByOwnDraw(|p|, backs[m], k);
    ShuffleByOrigin(p, backs[m], k);
    assert Project(origin, p)[k] == p[Origins(|p|, backs[m])[k]];
    assert keys[p[Origins(|p|, backs[m])[k]]] == m;
  }

  lemma PositionsKeepMachines(
    now: seq<EventValue>, was: seq<EventValue>, origin: seq<nat>, backs: map<string, seq<nat>>, maxShift: int, i: nat)
    requires ReadThrough(now, was, origin) && OutOfOrder(origin, MachineKeys(was), backs, maxShift) && i < |was|
    ensures now[i].machine == was[i].machine
  {
    var keys := MachineKeys(was);
    var m := keys[i];
    PositionsIncrease(keys, m);
    assert m in Owners(keys);
    var k :| 0 <= k < |Positions(keys, m)| && Positions(keys, m)[k] == i;
    OutOfOrderIsLocal(now, was, origin, backs, maxShift, m, k);
  }

  // ---- duplicates ----

  /** What reaches the broker: an event, or bytes that are none. The partition key survives corruption. */
  datatype PublishRecord = Clean(machine: string, event: Event) | Corrupted(machine: string, raw: string)

  /** A broker retry: the same event a little later. */
  predicate Retry(copy: EventValue, v: EventValue)
  {
    SameButPublish(copy, v) && 5_000 <= copy.publishTime - v.publishTime <= 900_000
  }

  /** The stream of copies: each event, followed at once by its extra copies. */
  ghost predicate Republished(copies: seq<EventValue>, vals: seq<EventValue>, extras: seq<nat>)
  {
    && |extras| == |vals|
    && if vals == [] then copies == []
       else
         var n := |vals| - 1;
         var at := |copies| - 1 - extras[n];
         && at >= 0 && copies[at] == vals[n]
         && (forall i :: at < i < |copies| ==> Retry(copies[i], vals[n]))
         && Republished(copies[..at], vals[..n], extras[..n])
  }

  /** The extra copies the log records. */
  function LoggedExtras(vals: seq<EventValue>, extras: seq<nat>): map<string, nat>
    requires |vals| == |extras|
  {
    if vals == [] then map[]
    else
      var n := |vals| - 1;
      var before := LoggedExtras(vals[..n], extras[..n]);
      if extras[n] == 0 then before else before[vals[n].id := extras[n]]
  }

  lemma RepublishedSnoc(
    copies: seq<EventValue>, vals: seq<EventValue>, extras: seq<nat>, v: EventValue, burst: seq<EventValue>)
    requires Republished(copies, vals, extras)
    requires forall i :: 0 <= i < |burst| ==> Retry(burst[i], v)
    ensures Republished(copies + [v] + burst, vals + [v], extras + [|burst|])
    ensures LoggedExtras(vals + [v], extras + [|burst|])
         == if |burst| == 0 then LoggedExtras(vals, extras) else LoggedExtras(vals, extras)[v.id := |burst|]
  {
    var all := copies + [v] + burst;
    assert (vals + [v])[..|vals|] == vals && (extras + [|burst|])[..|vals|] == extras;
    assert all[..|copies|] == copies;
    forall i | |copies| < i < |all| ensures Retry(all[i], v) {
      assert all[i] == burst[i - |copies| - 1];
    }
  }

  ghost predicate AllClean(records: seq<PublishRecord>)
  {
    forall i :: 0 <= i < |records| ==> records[i].Clean? && records[i].machine == records[i].event.machine
  }

  function EventsOf(records: seq<PublishRecord>): (r: seq<Event>)
    requires AllClean(records)
    ensures |r| == |records| && forall i :: 0 <= i < |records| ==> r[i] == records[i].event
  {
    seq(|records|, i requires 0 <= i < |records| => records[i].event)
  }

  /** A burst of fresh copies of one event, each a few milliseconds after it. */
  method Retries(event: Event, extra: nat) returns (burst: seq<PublishRecord>)
    ensures |burst| == extra && AllClean(burst) && fresh(EventsOf(burst))
    ensures forall i :: 0 <= i < extra ==> Retry(burst[i].event.V(), event.V())
  {
    burst := [];
    while |burst| < extra
      invariant |burst| <= extra && AllClean(burst) && fresh(EventsOf(burst))
      invariant forall i :: 0 <= i < |burst| ==> Retry(burst[i].event.V(), event.V())
    {
      var copy := new Event(event.V());
      var millis := RandInt(5, 900);
      copy.publishTime := copy.publishTime + millis * 1000;
      burst := burst + [Clean(copy.machine, copy)];
    }
  }

  method DrawExtra(cfg: DisorderConfig) returns (extra: nat)
    requires cfg.Valid()
    ensures extra <= cfg.duplicateMaxExtra && (cfg.duplicateRate == 0.0 ==> extra == 0)
  {
    var r := Random();
    if r >= cfg.duplicateRate {
      return 0;
    }
    extra := RandInt(1, cfg.duplicateMaxExtra);
  }

  /** The records carry these copies, one each. */
  ghost predicate Carry(records: seq<PublishRecord>, copies: seq<EventValue>)
    reads set i | 0 <= i < |records| && records[i].Clean? :: records[i].event
  {
    && |records| == |copies| && AllClean(records)
    && forall i :: 0 <= i < |records| ==> records[i].event.V() == copies[i]
  }

  /** An event and its extra copies. */
  ghost predicate Burst(more: seq<EventValue>, v: EventValue, extra: nat, cfg: DisorderConfig)
  {
    && |more| == 1 + extra && more[0] == v && extra <= (if cfg.duplicateRate == 0.0 then 0 else cfg.duplicateMaxExtra)
    && forall i :: 1 <= i < |more| ==> Retry(more[i], v)
  }

  /** One event's records: itself, and maybe some retries. */
  method Republish(event: Event, cfg: DisorderConfig)
    returns (records: seq<PublishRecord>, extra: nat, ghost more: seq<EventValue>)
    requires cfg.Valid()
    ensures Carry(records, more) && Burst(more, event.V(), extra, cfg)
  {
    extra := DrawExtra(cfg);
    var burst := Retries(event, extra);
    records := [Clean(event.machine, event)] + burst;
    more := Vals(EventsOf(records));
  }

  /** The dictionary entry is made only when a retry was drawn. */
  function LogExtra(duplicated: map<string, nat>, id: string, extra: nat): map<string, nat>
  {
    if extra == 0 then duplicated else duplicated[id := extra]
  }

  ghost predicate Bursts(copies: seq<EventValue>, vals: seq<EventValue>, extras: seq<nat>, logged: map<string, nat>, cfg: DisorderConfig)
  {
    && Republished(copies, vals, extras) && logged == LoggedExtras(vals, extras)
    && AtMost(extras, if cfg.duplicateRate == 0.0 then 0 else cfg.duplicateMaxExtra)
  }

  lemma BurstsSnoc(
    copies: seq<EventValue>, done: seq<EventValue>, extras: seq<nat>, logged: map<string, nat>, cfg: DisorderConfig,
    v: EventValue, more: seq<EventValue>, extra: nat)
    requires Bursts(copies, done, extras, logged, cfg) && Burst(more, v, extra, cfg)
    ensures Bursts(copies + more, done + [v], extras + [extra], LogExtra(logged, v.id, extra), cfg)
  {
    var burst := more[1..];
    assert forall i :: 0 <= i < |burst| ==> burst[i] == more[i + 1];
    RepublishedSnoc(copies, done, extras, v, burst);
    assert copies + more == copies + [v] + burst;
  }

  /** The loop over events: records appended one burst at a time. */
  method RepublishAll(events: seq<Event>, cfg: DisorderConfig)
    returns (records: seq<PublishRecord>, logged: map<string, nat>, ghost copies: seq<EventValue>, ghost extras: seq<nat>)
    requires cfg.Valid()
    ensures Carry(records, copies) && Bursts(copies, Vals(events), extras, logged, cfg)
  {
    records, logged, copies, extras := [], map[], [], [];
    ghost var vals, done := Vals(events), [];
    for k := 0 to |events|
      invariant |records| == |copies| && AllClean(records)
      invariant forall i :: 0 <= i < |records| ==> records[i].event.V() == copies[i]
      invariant done == vals[..k] && Bursts(copies, done, extras, logged, cfg)
    {
      var event := events[k];
      var more, extra, added := Republish(event, cfg);
      assert vals[k].id == event.id && vals[..k + 1] == done + [vals[k]];
      BurstsSnoc(copies, done, extras, logged, cfg, vals[k], added, extra);
      records, logged := records + more, LogExtra(logged, event.id, extra);
      copies, done, extras := copies + added, done + [vals[k]], extras + [extra];
    }
    assert vals[..|events|] == vals;
  }

  /** Republish whole events, as a broker retry does. */
  method ApplyDuplicates(events: seq<Event>, cfg: DisorderConfig, log: InjectionLog)
    returns (records: seq<PublishRecord>, ghost copies: seq<EventValue>, ghost extras: seq<nat>)
    requires cfg.Valid() && log.duplicated == map[]
    modifies log`duplicated
    ensures Carry(records, copies) && Bursts(copies, Vals(events), extras, log.duplicated, cfg)
  {
    var logged;
    records, logged, copies, extras := RepublishAll(events, cfg);
    log.duplicated := logged;
  }
}
