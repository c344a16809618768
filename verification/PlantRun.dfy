/** The whole plant: independent machines, one global sort, and why no machine can see another. */
module PlantRun {
  import opened Events
  import opened Ordering
  import opened Ranking
  import opened PlantClock
  import opened Simulator

  /** The elements that `keep` accepts, in order. */
  function Keep<T>(keep: T -> bool, s: seq<T>): seq<T>
  {
    if s == [] then [] else (if keep(s[0]) then [s[0]] else []) + Keep(keep, s[1..])
  }

  lemma KeepCons<T>(keep: T -> bool, x: T, s: seq<T>)
    ensures Keep(keep, [x] + s) == (if keep(x) then [x] else []) + Keep(keep, s)
  {
    assert ([x] + s)[1..] == s;
  }

  lemma {:induction false} KeepConcat<T>(keep: T -> bool, a: seq<T>, b: seq<T>)
    ensures Keep(keep, a + b) == Keep(keep, a) + Keep(keep, b)
    decreases |a|
  {
    if a == [] {
      assert a + b == b;
    } else {
      KeepConcat(keep, a[1..], b);
      KeepCons(keep, a[0], a[1..] + b);
      Regroup([a[0]], a[1..], b);
      assert [a[0]] + a[1..] == a;
      Regroup(if keep(a[0]) then [a[0]] else [], Keep(keep, a[1..]), Keep(keep, b));
    }
  }

  lemma {:induction false} KeepAllOrNone<T>(keep: T -> bool, s: seq<T>, all: bool)
    requires forall i :: 0 <= i < |s| ==> keep(s[i]) == all
    ensures Keep(keep, s) == if all then s else []
    decreases |s|
  {
    if s != [] {
      KeepAllOrNone(keep, s[1..], all);
      assert s == [s[0]] + s[1..];
    }
  }

  lemma {:induction false} KeepMembers<T>(keep: T -> bool, s: seq<T>, x: T)
    ensures x in Keep(keep, s) <==> x in s && keep(x)
    decreases |s|
  {
    if s != [] {
      KeepMembers(keep, s[1..], x);
      assert s == [s[0]] + s[1..];
    }
  }

  lemma InsertFront<T(!new)>(le: (T, T) -> bool, x: T, s: seq<T>)
    requires forall i :: 0 <= i < |s| ==> le(x, s[i])
    ensures Insert(le, x, s) == [x] + s
  {
  }

  /** Inserting into a sorted list and then filtering is filtering and then inserting. */
  lemma {:induction false} KeepInsert<T(!new)>(keep: T -> bool, le: (T, T) -> bool, x: T, s: seq<T>)
    requires TotalPreorder(le) && Sorted(le, s)
    ensures Keep(keep, Insert(le, x, s)) == if keep(x) then Insert(le, x, Keep(keep, s)) else Keep(keep, s)
    decreases |s|
  {
    if s == [] || le(x, s[0]) {
      assert ([x] + s)[1..] == s;
      forall i | 0 <= i < |Keep(keep, s)| ensures le(x, Keep(keep, s)[i]) {
        KeepMembers(keep, s, Keep(keep, s)[i]);
      }
      InsertFront(le, x, Keep(keep, s));
    } else {
      var rest := s[1..];
      KeepInsert(keep, le, x, rest);
      var longer := [s[0]] + Insert(le, x, rest);
      assert longer[1..] == Insert(le, x, rest);
      var kept := Keep(keep, rest);
      if keep(s[0]) {
        assert Keep(keep, s) == [s[0]] + kept && ([s[0]] + kept)[1..] == kept;
      } else {
        assert Keep(keep, s) == kept;
      }
    }
  }

  /** Filtering a stable sort is stably sorting what the filter keeps. */
  lemma {:induction false} KeepSort<T(!new)>(keep: T -> bool, le: (T, T) -> bool, s: seq<T>)
    requires TotalPreorder(le)
    ensures Keep(keep, Sort(le, s)) == Sort(le, Keep(keep, s))
    decreases |s|
  {
    if s != [] {
      var rest := s[1..];
      KeepSort(keep, le, rest);
      SortSorts(le, rest);
      KeepInsert(keep, le, s[0], Sort(le, rest));
      var kept := Keep(keep, rest);
      if keep(s[0]) {
        assert Keep(keep, s) == [s[0]] + kept && ([s[0]] + kept)[1..] == kept;
      } else {
        assert Keep(keep, s) == kept;
      }
    }
  }

  // ---- the plant ----

  function Concat(streams: seq<seq<EventValue>>): seq<EventValue>
  {
    if streams == [] then [] else Concat(streams[..|streams| - 1]) + streams[|streams| - 1]
  }

  ghost predicate Streams(streams: seq<seq<EventValue>>, plants: seq<Plant>)
  {
    |streams| == |plants| && forall i :: 0 <= i < |plants| ==> Story(streams[i], plants[i].machine)
  }

  /** `PlantSimulator.run`: each machine on its own, then one sort by `(event_time, machine_id, event_id)`. */
  method Run(plants: seq<Plant>, start: int, days: nat, shifts: seq<Shift>)
    returns (events: seq<EventValue>, ghost streams: seq<seq<EventValue>>)
    requires forall i :: 0 <= i < |plants| ==> plants[i].Ready() && plants[i].Advances()
    requires forall s :: 0 <= s < |shifts| ==> AllLast(shifts[s].breaks)
    ensures Streams(streams, plants) && events == Sort(EventKeyLe, Concat(streams))
  {
    events, streams := [], [];
    for i := 0 to |plants|
      invariant |streams| == i && events == Concat(streams)
      invariant forall j :: 0 <= j < i ==> Story(streams[j], plants[j].machine)
    {
      var sim := RunMachine(plants[i], start, days, shifts);
      assert (streams + [sim.events])[..i] == streams;
      events := events + sim.events;
      streams := streams + [sim.events];
    }
    events := Sort(EventKeyLe, events);
  }

  /** The filter for one machine. */
  function Of(machine: string): EventValue -> bool
  {
    (e: EventValue) => e.machine == machine
  }

  /** A machine's stream is all its own, and nothing of another's. */
  lemma StreamIsOwn(stream: seq<EventValue>, owner: string, machine: string)
    requires Story(stream, owner)
    ensures Keep(Of(machine), stream) == if owner == machine then stream else []
  {
    KeepAllOrNone(Of(machine), stream, owner == machine);
  }

  /** Of one machine, every stream holds all or nothing. */
  ghost predicate Owned(streams: seq<seq<EventValue>>, owners: seq<string>, machine: string)
  {
    |streams| == |owners|
    && forall i :: 0 <= i < |streams| ==> Keep(Of(machine), streams[i]) == if owners[i] == machine then streams[i] else []
  }

  lemma ShareSnoc(streams: seq<seq<EventValue>>, machine: string)
    requires streams != []
    ensures var n := |streams| - 1;
            Keep(Of(machine), Concat(streams)) == Keep(Of(machine), Concat(streams[..n])) + Keep(Of(machine), streams[n])
  {
    var n := |streams| - 1;
    KeepConcat(Of(machine), Concat(streams[..n]), streams[n]);
  }

  /** Of all that was emitted, one machine's share is the one stream it owns. */
  lemma {:induction false} OnlyOwnedShare(streams: seq<seq<EventValue>>, owners: seq<string>, machine: string, i: nat)
    requires Owned(streams, owners, machine) && forall j :: 0 <= j < |owners| ==> (owners[j] == machine <==> j == i)
    ensures Keep(Of(machine), Concat(streams)) == if i < |streams| then streams[i] else []
    decreases |streams|
  {
    if streams != [] {
      var n := |streams| - 1;
      OnlyOwnedShare(streams[..n], owners[..n], machine, i);
      ShareSnoc(streams, machine);
    }
  }

  lemma StreamsAreOwned(streams: seq<seq<EventValue>>, plants: seq<Plant>, machine: string)
    requires Streams(streams, plants)
    ensures Owned(streams, Machines(plants), machine)
  {
    forall i | 0 <= i < |streams|
      ensures Keep(Of(machine), streams[i]) == if Machines(plants)[i] == machine then streams[i] else []
    {
      StreamIsOwn(streams[i], plants[i].machine, machine);
    }
  }

  function Machines(plants: seq<Plant>): (r: seq<string>)
    ensures |r| == |plants| && forall i :: 0 <= i < |r| ==> r[i] == plants[i].machine
  {
    seq(|plants|, i requires 0 <= i < |plants| => plants[i].machine)
  }

  /**
   * Isolation: whatever other machines a plant has, the events of one machine in the sorted plant stream are that
   * machine's own stream, sorted. So two plants in which it emitted the same stream show the same events of it, in the
   * same order.
   */
  lemma MachinesAreIsolated(streams: seq<seq<EventValue>>, plants: seq<Plant>, i: nat)
    requires Streams(streams, plants) && i < |plants|
    requires forall j :: 0 <= j < |plants| && plants[j].machine == plants[i].machine ==> j == i
    ensures Keep(Of(plants[i].machine), Sort(EventKeyLe, Concat(streams))) == Sort(EventKeyLe, streams[i])
  {
    KeysAreTotalPreorders();
    KeepSort(Of(plants[i].machine), EventKeyLe, Concat(streams));
    StreamsAreOwned(streams, plants, plants[i].machine);
    OnlyOwnedShare(streams, Machines(plants), plants[i].machine, i);
  }

  /** A seeded run: what each machine emits is a function of its plant data and its own seed, so of nothing else here. */
  function PlantStream(run: Plant -> seq<EventValue>, plants: seq<Plant>): seq<EventValue>
  {
    Sort(EventKeyLe, Concat(Runs(run, plants)))
  }

  function Runs(run: Plant -> seq<EventValue>, plants: seq<Plant>): (r: seq<seq<EventValue>>)
    ensures |r| == |plants| && forall i :: 0 <= i < |r| ==> r[i] == run(plants[i])
  {
    seq(|plants|, i requires 0 <= i < |plants| => run(plants[i]))
  }

  ghost predicate OwnStories(run: Plant -> seq<EventValue>, plants: seq<Plant>)
  {
    forall i :: 0 <= i < |plants| ==> Story(run(plants[i]), plants[i].machine)
  }

  ghost predicate OnlyOne(plants: seq<Plant>, i: nat)
    requires i < |plants|
  {
    forall j :: 0 <= j < |plants| && plants[j].machine == plants[i].machine ==> j == i
  }

  /** Adding, removing, reordering or changing other machines leaves a machine's events in the plant stream as they were. */
  lemma OtherMachinesDoNotMatter(run: Plant -> seq<EventValue>, plants: seq<Plant>, others: seq<Plant>, i: nat, j: nat)
    requires i < |plants| && j < |others| && plants[i] == others[j] && OnlyOne(plants, i) && OnlyOne(others, j)
    requires OwnStories(run, plants) && OwnStories(run, others)
    ensures Keep(Of(plants[i].machine), PlantStream(run, plants)) == Keep(Of(plants[i].machine), PlantStream(run, others))
  {
    MachinesAreIsolated(Runs(run, plants), plants, i);
    MachinesAreIsolated(Runs(run, others), others, j);
  }
}
