/** The disorder injector: passes that mutate events in place, then build the broker's records. */
module Disorder {
  import opened Events
  import opened Ranking
  import opened Draws
  import opened Ledger

  datatype DisorderConfig = DisorderConfig(
    lateRate: real, lateMaxHours: real,
    duplicateRate: real, duplicateMaxExtra: int,
    outOfOrderRate: real, outOfOrderMaxShift: int,
    skewedMachines: int, skewMaxSeconds: real,
    schemaDriftAt: Option<real>, schemaV3At: Option<real>,
    corruptRate: real)
  {
    /** The bounds the configuration model enforces. */
    predicate Valid()
    {
      && 0.0 <= lateRate <= 1.0 && lateMaxHours > 0.0
      && 0.0 <= duplicateRate <= 1.0 && duplicateMaxExtra >= 1
      && 0.0 <= outOfOrderRate <= 1.0 && outOfOrderMaxShift >= 1
      && skewedMachines >= 0 && skewMaxSeconds >= 0.0
      && (schemaDriftAt.Some? ==> 0.0 <= schemaDriftAt.value <= 1.0)
      && (schemaV3At.Some? ==> 0.0 <= schemaV3At.value <= 1.0)
      && 0.0 <= corruptRate <= 1.0
    }
  }

  /** One event in memory. Passes mutate its times, version and payload; its identity is fixed. */
  class Event {
    const id: string
    const kind: EventType
    const machine: string
    var eventTime: int
    var publishTime: int
    var version: int
    var payload: Payload

    constructor (v: EventValue)
      ensures V() == v
    {
      id, kind, machine := v.id, v.kind, v.machine;
      eventTime, publishTime, version, payload := v.eventTime, v.publishTime, v.version, v.payload;
    }

    function V(): EventValue
      reads this
    {
      EventValue(id, kind, machine, eventTime, publishTime, version, payload)
    }
  }

  /** Exactly what was done, for each class of disorder. */
  class InjectionLog {
    var late: set<string>
    var duplicated: map<string, nat>
    var outOfOrder: set<string>
    var skewed: map<string, real>
    var schemaV2: set<string>
    var schemaV3: set<string>
    var corrupt: set<string>

    constructor ()
      ensures late == outOfOrder == schemaV2 == schemaV3 == corrupt == {}
      ensures duplicated == map[] && skewed == map[]
    {
      late, outOfOrder, schemaV2, schemaV3, corrupt := {}, {}, {}, {}, {};
      duplicated, skewed := map[], map[];
    }
  }

  function Vals(events: seq<Event>): (r: seq<EventValue>)
    reads events
    ensures |r| == |events| && forall i :: 0 <= i < |events| ==> r[i] == events[i].V()
  {
    seq(|events|, i requires 0 <= i < |events| reads events => events[i].V())
  }

  ghost predicate Separate(events: seq<Event>)
  {
    forall i, j :: 0 <= i < j < |events| ==> events[i] != events[j]
  }

  /** `[e.model_copy(deep=True) for e in events]`. */
  method CopyAll(events: seq<Event>) returns (copies: seq<Event>)
    ensures Separate(copies) && fresh(copies) && Vals(copies) == Vals(events)
  {
    copies := [];
    while |copies| < |events|
      invariant |copies| <= |events| && Separate(copies) && fresh(copies)
      invariant forall i :: 0 <= i < |copies| ==> copies[i].V() == events[i].V()
    {
      var copy := new Event(events[|copies|].V());
      copies := copies + [copy];
    }
  }

  function Micros(seconds: real): int
  {
    RoundHalfEven(seconds * 1000000.0)
  }

  /**
   * An event after skew: only its own time may move, and only if its machine is in the log; then by the offset the log
   * gives for the machine, the same for all its events, up to a tenth of the maximum and rounding.
   */
  ghost predicate SkewedFrom(v: EventValue, was: EventValue, skewed: map<string, real>, max: real)
  {
    && v == was.(eventTime := v.eventTime)
    && if v.machine in skewed then OffBy((v.eventTime - was.eventTime) as real, skewed[v.machine], max)
       else v.eventTime == was.eventTime
  }

  predicate OffBy(micros: real, logged: real, max: real)
  {
    Within(logged, max + 0.0005) && Within(micros - logged * 1000000.0, 0.1 * max * 1000000.0 + 500.5)
  }

  ghost predicate Skewed(now: seq<EventValue>, was: seq<EventValue>, skewed: map<string, real>, max: real)
  {
    |now| == |was| && forall i :: 0 <= i < |was| ==> SkewedFrom(now[i], was[i], skewed, max)
  }

  predicate Within(x: real, bound: real)
  {
    -bound <= x <= bound
  }

  function MachinesOf(events: seq<Event>): set<string>
  {
    set i | 0 <= i < |events| :: events[i].machine
  }

  function Rounded(offsets: map<string, real>): (r: map<string, real>)
    ensures r.Keys == offsets.Keys && forall m :: m in offsets ==> r[m] == PyRound3(offsets[m])
  {
    map m | m in offsets :: PyRound3(offsets[m])
  }

  /** How many clocks go wrong in a plant of n machines. */
  function SkewCount(cfg: DisorderConfig, n: nat): nat
    requires cfg.Valid()
  {
    if cfg.skewMaxSeconds == 0.0 then 0 else if cfg.skewedMachines < n then cfg.skewedMachines else n
  }

  lemma NoSkew(vals: seq<EventValue>, max: real)
    requires max >= 0.0
    ensures Skewed(vals, vals, map[], max)
  {
  }

  method ChooseOffsets(machines: set<string>, cfg: DisorderConfig) returns (offsets: map<string, real>)
    requires cfg.Valid()
    ensures offsets.Keys <= machines && |offsets.Keys| == SkewCount(cfg, |machines|)
    ensures forall m :: m in offsets ==> Within(offsets[m], cfg.skewMaxSeconds)
  {
    var chosen := Sample(machines, SkewCount(cfg, |machines|));
    offsets := DrawOffsets(chosen, cfg.skewMaxSeconds);
  }

  /** Give a few machines a wrong clock: a constant offset each and a small wander per event. */
  method ApplyClockSkew(events: seq<Event>, cfg: DisorderConfig, log: InjectionLog)
    requires cfg.Valid() && Separate(events) && log.skewed == map[]
    modifies events, log`skewed
    ensures Skewed(Vals(events), old(Vals(events)), log.skewed, cfg.skewMaxSeconds)
    ensures log.skewed.Keys <= MachinesOf(events)
    ensures |log.skewed.Keys| == SkewCount(cfg, |MachinesOf(events)|)
  {
    if cfg.skewedMachines <= 0 || cfg.skewMaxSeconds <= 0.0 {
      NoSkew(Vals(events), cfg.skewMaxSeconds);
      return;
    }
    var offsets := ChooseOffsets(MachinesOf(events), cfg);
    log.skewed := Rounded(offsets);
    SkewEvents(events, offsets, cfg.skewMaxSeconds);
  }

  method SkewEvents(events: seq<Event>, offsets: map<string, real>, max: real)
    requires Separate(events) && max >= 0.0 && forall m :: m in offsets ==> Within(offsets[m], max)
    modifies events
    ensures Skewed(Vals(events), old(Vals(events)), Rounded(offsets), max)
  {
    for i := 0 to |events|
      invariant forall j :: 0 <= j < i ==> SkewedFrom(events[j].V(), old(events[j].V()), Rounded(offsets), max)
      invariant forall j :: i <= j < |events| ==> events[j].V() == old(events[j].V())
    {
      if events[i].machine in offsets {
        var base := offsets[events[i].machine];
        var wander, t := Uniform(-0.1, 0.1);
        AtIsBetween(-0.1, 0.1, t);
        SkewBound(base, wander, max);
        events[i].eventTime := events[i].eventTime + Micros(base + wander * max);
      }
    }
  }

  lemma WanderBound(wander: real, max: real)
    requires max >= 0.0 && Within(wander, 0.1)
    ensures Within(wander * max, 0.1 * max)
  {
    Scaled(max, (wander + 0.1) * 5.0);
    assert max * ((wander + 0.1) * 5.0) == 5.0 * (wander * max) + 0.5 * max;
  }

  lemma OffsetBound(base: real, drift: real, max: real)
    requires max >= 0.0 && Within(base, max) && Within(drift, 0.1 * max)
    ensures OffBy(Micros(base + drift) as real, PyRound3(base), max)
  {
    RoundingErrors(base);
  }

  lemma SkewBound(base: real, wander: real, max: real)
    requires max >= 0.0 && Within(base, max) && Within(wander, 0.1)
    ensures OffBy(Micros(base + wander * max) as real, PyRound3(base), max)
  {
    WanderBound(wander, max);
    OffsetBound(base, wander * max, max);
  }

  method DrawOffsets(chosen: set<string>, max: real) returns (offsets: map<string, real>)
    requires max >= 0.0
    ensures offsets.Keys == chosen && forall m :: m in offsets ==> Within(offsets[m], max)
  {
    offsets := map[];
    var left := chosen;
    while left != {}
      invariant left <= chosen && offsets.Keys == chosen - left
      invariant forall m :: m in offsets ==> Within(offsets[m], max)
    {
      var m := Choose(left);
      var offset, t := Uniform(-max, max);
      AtIsBetween(-max, max, t);
      offsets := offsets[m := offset];
      left := left - {m};
    }
  }

  // ---- schema drift ----

  function CutAt(n: nat, at: real): (cut: int)
    requires 0.0 <= at <= 1.0
    ensures 0 <= cut <= n
  {
    assert 0.0 <= n as real * at <= n as real;
    (n as real * at).Floor
  }

  /** The ranks from which events are migrated to v2 and to v3; n when the cutover is off. v3 needs v2 configured. */
  function CutV2(n: nat, cfg: DisorderConfig): (cut: int)
    requires cfg.Valid()
    ensures 0 <= cut <= n
  {
    if cfg.schemaDriftAt.None? then n else CutAt(n, cfg.schemaDriftAt.value)
  }

  function CutV3(n: nat, cfg: DisorderConfig): (cut: int)
    requires cfg.Valid()
    ensures 0 <= cut <= n
  {
    if cfg.schemaDriftAt.None? || cfg.schemaV3At.None? then n else CutAt(n, cfg.schemaV3At.value)
  }

  /** The event of a given rank in event-time order, after both cutovers. */
  function Drifted(v: EventValue, rank: int, cut2: int, cut3: int): EventValue
  {
    if rank >= cut3 && Convertible(v.payload, v.kind) then v.(version := SCHEMA_V3, payload := ToV3(v.payload, v.kind))
    else if rank >= cut2 then v.(version := SCHEMA_V2, payload := ToV2(v.payload, v.kind))
    else v
  }

  ghost predicate AllConvertible(vals: seq<EventValue>)
  {
    forall i :: 0 <= i < |vals| ==> Convertible(vals[i].payload, vals[i].kind)
  }

  lemma RankIsPermutation(vals: seq<EventValue>)
    ensures Permutation(Rank(TimeLe, vals), |vals|)
  {
    RankPermutes(TimeLe, vals);
  }

  ghost predicate TailConvertible(vals: seq<EventValue>, rank: seq<nat>, cut: int)
    requires Permutation(rank, |vals|)
  {
    forall r :: 0 <= r < |vals| && cut <= r ==> Convertible(vals[rank[r]].payload, vals[rank[r]].kind)
  }

  /** The v3 cutover raises on a duration that `float` does not read; before that cut, or without it, nobody looks. */
  ghost predicate Migratable(vals: seq<EventValue>, cfg: DisorderConfig)
    requires cfg.Valid()
  {
    RankIsPermutation(vals);
    cfg.schemaDriftAt.Some? && cfg.schemaV3At.Some? ==> TailConvertible(vals, Rank(TimeLe, vals), CutV3(|vals|, cfg))
  }

  /** What keeps it from raising wherever the skew moves the cut. */
  ghost predicate AlwaysMigratable(vals: seq<EventValue>, cfg: DisorderConfig)
  {
    cfg.schemaDriftAt.Some? && cfg.schemaV3At.Some? ==> AllConvertible(vals)
  }

  /** An event as a deployment of `version` emits it; 0 is no deployment. */
  function Migrated(v: EventValue, version: int): EventValue
  {
    if version == SCHEMA_V3 && Convertible(v.payload, v.kind) then v.(version := SCHEMA_V3, payload := ToV3(v.payload, v.kind))
    else if version == SCHEMA_V2 then v.(version := SCHEMA_V2, payload := ToV2(v.payload, v.kind))
    else v
  }

  /** The events ranked from `cut` on were migrated, the others kept. */
  ghost predicate TailMigrated(now: seq<EventValue>, was: seq<EventValue>, rank: seq<nat>, cut: int, version: int)
  {
    && |now| == |was| && Permutation(rank, |was|)
    && forall r :: 0 <= r < |was| ==> now[rank[r]] == Migrated(was[rank[r]], if r < cut then 0 else version)
  }

  /** Both cutovers: each event is what its rank in event-time order says. */
  ghost predicate DriftedBy(now: seq<EventValue>, was: seq<EventValue>, rank: seq<nat>, cut2: int, cut3: int)
  {
    && |now| == |was| && Permutation(rank, |was|)
    && forall r :: 0 <= r < |was| ==> now[rank[r]] == Drifted(was[rank[r]], r, cut2, cut3)
  }

  lemma TailStaysConvertible(mid: seq<EventValue>, was: seq<EventValue>, rank: seq<nat>, cut: int, tail: int)
    requires TailMigrated(mid, was, rank, cut, SCHEMA_V2)
    ensures TailConvertible(mid, rank, tail) <==> TailConvertible(was, rank, tail)
  {
    forall r | 0 <= r < |was|
      ensures Convertible(mid[rank[r]].payload, mid[rank[r]].kind) <==> Convertible(was[rank[r]].payload, was[rank[r]].kind)
    {
      ToV2KeepsConvertible(was[rank[r]].payload, was[rank[r]].kind);
    }
  }

  /** The ids of the events ranked from `cut` on. */
  function IdsFrom(vals: seq<EventValue>, rank: seq<nat>, cut: int): set<string>
    requires cut >= 0 && |rank| == |vals| && forall r :: 0 <= r < |rank| ==> rank[r] < |vals|
  {
    set r | cut <= r < |vals| :: vals[rank[r]].id
  }

  /** A stream after its cutovers, with the ids the log names for each. */
  ghost predicate SchemaDrift(
    now: seq<EventValue>, was: seq<EventValue>, cfg: DisorderConfig, v2: set<string>, v3: set<string>)
  {
    && cfg.Valid()
    && var n, rank := |was|, Rank(TimeLe, was);
       && DriftedBy(now, was, rank, CutV2(n, cfg), CutV3(n, cfg))
       && v2 == IdsFrom(was, rank, CutV2(n, cfg))
       && v3 == IdsFrom(was, rank, CutV3(n, cfg))
  }

  lemma NoCutover(was: seq<EventValue>, cfg: DisorderConfig)
    requires cfg.Valid() && (cfg.schemaDriftAt.None? || was == [])
    ensures SchemaDrift(was, was, cfg, {}, {})
  {
    RankIsPermutation(was);
  }

  lemma OneCutover(now: seq<EventValue>, was: seq<EventValue>, cfg: DisorderConfig)
    requires cfg.Valid() && cfg.schemaV3At.None?
    requires TailMigrated(now, was, Rank(TimeLe, was), CutV2(|was|, cfg), SCHEMA_V2)
    ensures SchemaDrift(now, was, cfg, IdsFrom(was, Rank(TimeLe, was), CutV2(|was|, cfg)), {})
  {
  }

  /** Migrating a tail to v2 and then a tail to v3 is the two cutovers, whichever tail is longer. */
  lemma TwoCutovers(now: seq<EventValue>, mid: seq<EventValue>, was: seq<EventValue>, rank: seq<nat>, cut2: int, cut3: int)
    requires TailMigrated(mid, was, rank, cut2, SCHEMA_V2) && TailMigrated(now, mid, rank, cut3, SCHEMA_V3)
    requires TailConvertible(was, rank, cut3) && TailConvertible(mid, rank, cut3)
    ensures DriftedBy(now, was, rank, cut2, cut3)
  {
    forall r | 0 <= r < |was| ensures now[rank[r]] == Drifted(was[rank[r]], r, cut2, cut3) {
      if r >= cut3 { MigrationAlgebra(was[rank[r]].payload, was[rank[r]].kind); }
    }
  }

  lemma MigrationKeepsIds(now: seq<EventValue>, was: seq<EventValue>, rank: seq<nat>, cut: int, version: int, from: nat)
    requires TailMigrated(now, was, rank, cut, version)
    ensures IdsFrom(now, rank, from) == IdsFrom(was, rank, from)
  {
    assert forall r :: 0 <= r < |was| ==> now[rank[r]].id == was[rank[r]].id;
  }

  /** Migrate the events ranked from `cut` on, in place; false is `to_v3` raising at the first duration it cannot convert. */
  method MigrateTail(events: seq<Event>, rank: seq<nat>, cut: nat, version: int) returns (ok: bool, ids: set<string>)
    requires Separate(events) && Permutation(rank, |events|) && cut <= |events|
    requires version == SCHEMA_V2 || version == SCHEMA_V3
    modifies events
    ensures ok <==> (version == SCHEMA_V3 ==> TailConvertible(old(Vals(events)), rank, cut))
    ensures ok ==> TailMigrated(Vals(events), old(Vals(events)), rank, cut, version)
    ensures ok ==> ids == IdsFrom(old(Vals(events)), rank, cut)
  {
    ok, ids := true, {};
    for k := cut to |events|
      invariant version == SCHEMA_V3 ==>
                  forall r :: cut <= r < k ==> Convertible(old(events[rank[r]].payload), events[rank[r]].kind)
      invariant forall r :: 0 <= r < |events| ==>
              events[rank[r]].V() == Migrated(old(events[rank[r]].V()), if cut <= r < k then version else 0)
      invariant ids == set r | cut <= r < k :: events[rank[r]].id
    {
      var event := events[rank[k]];
      assert event.V() == old(event.V());
      if version == SCHEMA_V2 {
        event.payload := ToV2(event.payload, event.kind);
      } else {
        if !Convertible(event.payload, event.kind) {
          assert !Convertible(old(Vals(events))[rank[k]].payload, old(Vals(events))[rank[k]].kind);
          return false, ids;
        }
        event.payload := ToV3(event.payload, event.kind);
      }
      event.version := version;
      ids := ids + {event.id};
    }
  }

  /**
   * One cutover to v2 at a fraction of the history, and maybe one to v3, each a contiguous tail in event-time order; false
   * is the second one raising.
   */
  method ApplySchemaDrift(events: seq<Event>, cfg: DisorderConfig, log: InjectionLog) returns (ok: bool)
    requires cfg.Valid() && Separate(events)
    requires log.schemaV2 == {} && log.schemaV3 == {}
    modifies events, log`schemaV2, log`schemaV3
    ensures ok <==> Migratable(old(Vals(events)), cfg)
    ensures ok ==> SchemaDrift(Vals(events), old(Vals(events)), cfg, log.schemaV2, log.schemaV3)
  {
    ghost var was := Vals(events);
    RankIsPermutation(was);
    if cfg.schemaDriftAt.None? || |events| == 0 {
      NoCutover(was, cfg);
      return true;
    }
    var rank := Rank(TimeLe, Vals(events));
    var ids;
    ok, ids := MigrateTail(events, rank, CutV2(|events|, cfg), SCHEMA_V2);
    log.schemaV2 := ids;
    if cfg.schemaV3At.Some? {
      ok, ids := SecondCutover(events, rank, CutV2(|events|, cfg), CutV3(|events|, cfg), was);
      if ok { log.schemaV3 := ids; }
    } else {
      OneCutover(Vals(events), was, cfg);
    }
  }

  method SecondCutover(events: seq<Event>, rank: seq<nat>, cut2: nat, cut3: nat, ghost was: seq<EventValue>)
    returns (ok: bool, ids: set<string>)
    requires Separate(events) && Permutation(rank, |events|) && cut3 <= |events|
    requires TailMigrated(Vals(events), was, rank, cut2, SCHEMA_V2)
    modifies events
    ensures ok <==> TailConvertible(was, rank, cut3)
    ensures ok ==> DriftedBy(Vals(events), was, rank, cut2, cut3) && ids == IdsFrom(was, rank, cut3)
  {
    ghost var mid := Vals(events);
    TailStaysConvertible(mid, was, rank, cut2, cut3);
    MigrationKeepsIds(mid, was, rank, cut2, SCHEMA_V2, cut3);
    ok, ids := MigrateTail(events, rank, cut3, SCHEMA_V3);
    if ok { TwoCutovers(Vals(events), mid, was, rank, cut2, cut3); }
  }

  /** A cutover, not a scatter: on a v1 history versions never decrease from an earlier to a later time, even with the v3 cut first. */
  lemma VersionsFollowTime(was: seq<EventValue>, cfg: DisorderConfig, r: nat, q: nat)
    requires cfg.Valid() && Migratable(was, cfg) && r < |was| && q < |was|
    requires forall i :: 0 <= i < |was| ==> was[i].version == SCHEMA_V1
    ensures var n, rank := |was|, Rank(TimeLe, was);
            |rank| == n && rank[r] < n && rank[q] < n
            && (was[rank[r]].eventTime < was[rank[q]].eventTime ==>
                  Drifted(was[rank[r]], r, CutV2(n, cfg), CutV3(n, cfg)).version
                    <= Drifted(was[rank[q]], q, CutV2(n, cfg), CutV3(n, cfg)).version)
  {
    KeysAreTotalPreorders();
    RankPermutes(TimeLe, was);
    RankSorts(TimeLe, was);
    var rank := Rank(TimeLe, was);
    assert q < r ==> TimeLe(was[rank[q]], was[rank[r]]);
  }
}
