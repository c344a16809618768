/**
 * `inject`: the passes in their order, as a trace of every stage that each pass reads and leaves behind, and what the
 * records then are of the canonical stream.
 */
module Injector {
  import opened Events
  import opened Ranking
  import opened Draws
  import opened Disorder
  import opened Publishing

  // ---- corruption ----

  const TRUNCATIONS := {
    "{\"event_id\": \"", "{\"event_id\": \"abc\", \"event_type\": \"cyc", "{\"machine_id\": ", "{", ""
  }

  /** The records, some with their payload replaced; the partition key stays. */
  ghost predicate Garbled(out: seq<PublishRecord>, records: seq<PublishRecord>, hits: seq<bool>)
  {
    && |out| == |records| == |hits|
    && forall i :: 0 <= i < |records| ==>
         if hits[i] then out[i].Corrupted? && out[i].machine == records[i].machine && out[i].raw in TRUNCATIONS
         else out[i] == records[i]
  }

  /** The ids of the copies hit. */
  function HitIds(copies: seq<EventValue>, hits: seq<bool>): set<string>
    requires |hits| <= |copies|
  {
    set i | 0 <= i < |hits| && hits[i] :: copies[i].id
  }

  /** Replace some payloads with unparseable bytes, and name the events they were copies of. */
  method ApplyCorruption(records: seq<PublishRecord>, cfg: DisorderConfig, log: InjectionLog, ghost copies: seq<EventValue>)
    returns (out: seq<PublishRecord>, ghost hits: seq<bool>)
    requires cfg.Valid() && Carry(records, copies) && log.corrupt == {}
    modifies log`corrupt
    ensures Garbled(out, records, hits) && log.corrupt == HitIds(copies, hits)
    ensures cfg.corruptRate == 0.0 ==> out == records
  {
    out, hits := [], [];
    if cfg.corruptRate <= 0.0 {
      out, hits := records, seq(|records|, i => false);
      return;
    }
    var corrupt := {};
    for k := 0 to |records|
      invariant Garbled(out, records[..k], hits) && corrupt == HitIds(copies, hits)
    {
      var record := records[k];
      var r := Random();
      ghost var before := hits;
      if r < cfg.corruptRate {
        corrupt := corrupt + {record.event.id};
        var raw := Choose(TRUNCATIONS);
        out, hits := out + [Corrupted(record.machine, raw)], hits + [true];
      } else {
        out, hits := out + [record], hits + [false];
      }
      HitSnoc(copies, before, hits[k]);
    }
    log.corrupt := corrupt;
  }

  lemma HitSnoc(copies: seq<EventValue>, hits: seq<bool>, hit: bool)
    requires |hits| < |copies|
    ensures HitIds(copies, hits + [hit]) == HitIds(copies, hits) + (if hit then {copies[|hits|].id} else {})
  {
    var longer := hits + [hit];
    assert forall i :: 0 <= i < |hits| ==> longer[i] == hits[i];
    assert longer[|hits|] == hit;
    forall i | 0 <= i < |hits| && hits[i] ensures copies[i].id in HitIds(copies, longer) {
      assert longer[i];
    }
  }

  // ---- the pipeline ----

  /** The record-level stages of one injection: these belong in the manifest. */
  datatype Truth = Truth(skewed: seq<EventValue>, drifted: seq<EventValue>, canonical: seq<EventValue>)

  /** The transport stages: what the broker sees differently from the machine's report. */
  datatype Transit = Transit(
    delayed: seq<EventValue>, pushed: set<nat>, ordered: seq<EventValue>,
    shuffled: seq<EventValue>, origin: seq<nat>, backs: map<string, seq<nat>>,
    copies: seq<EventValue>, extras: seq<nat>, hits: seq<bool>)

  ghost predicate RecordLevel(
    t: Truth, input: seq<EventValue>, cfg: DisorderConfig, skewed: map<string, real>, v2: set<string>, v3: set<string>)
  {
    && Skewed(t.skewed, input, skewed, cfg.skewMaxSeconds)
    && SchemaDrift(t.drifted, t.skewed, cfg, v2, v3)
    && ReadThrough(t.canonical, t.drifted, Rank(EventKeyLe, t.drifted))
  }

  ghost predicate TransportLevel(
    t: Transit, drifted: seq<EventValue>, cfg: DisorderConfig,
    late: set<string>, outOfOrder: set<string>, duplicated: map<string, nat>, corrupt: set<string>)
  {
    && cfg.Valid() && Late(t.delayed, drifted, t.pushed, cfg.lateMaxHours, late)
    && ReadThrough(t.ordered, t.delayed, Rank(PublishKeyLe, t.delayed))
    && Reordered(t.shuffled, t.ordered, t.origin, t.backs, cfg, outOfOrder)
    && Bursts(t.copies, t.shuffled, t.extras, duplicated, cfg)
    && |t.hits| == |t.copies| && corrupt == HitIds(t.copies, t.hits)
  }

  ghost predicate Reordered(
    now: seq<EventValue>, was: seq<EventValue>, origin: seq<nat>, backs: map<string, seq<nat>>, cfg: DisorderConfig, ids: set<string>)
  {
    && ReadThrough(now, was, origin)
    && (cfg.outOfOrderRate == 0.0 ==> now == was && ids == {})
    && OutOfOrder(origin, MachineKeys(was), backs, cfg.outOfOrderMaxShift) && MovedExactly(ids, was, backs)
  }

  /** `sorted(events, key=…)`, on the objects themselves. */
  method SortEvents(events: seq<Event>, le: Order) returns (sorted: seq<Event>)
    requires Separate(events)
    ensures ReadThrough(Vals(sorted), Vals(events), Rank(le, Vals(events)))
    ensures Separate(sorted) && forall e :: e in sorted ==> e in events
  {
    var rank := Rank(le, Vals(events));
    RankPermutes(le, Vals(events));
    sorted := seq(|events|, i requires 0 <= i < |events| => events[rank[i]]);
  }

  /** The clocks and the deployments, in place; false is the migration raising. */
  method RecordPasses(working: seq<Event>, cfg: DisorderConfig, log: InjectionLog) returns (ok: bool, ghost skewed: seq<EventValue>)
    requires cfg.Valid() && Separate(working)
    requires log.skewed == map[] && log.schemaV2 == {} && log.schemaV3 == {}
    modifies working, log`skewed, log`schemaV2, log`schemaV3
    ensures Skewed(skewed, old(Vals(working)), log.skewed, cfg.skewMaxSeconds)
    ensures ok <==> Migratable(skewed, cfg)
    ensures ok ==> SchemaDrift(Vals(working), skewed, cfg, log.schemaV2, log.schemaV3)
  {
    ApplyClockSkew(working, cfg, log);
    skewed := Vals(working);
    ok := ApplySchemaDrift(working, cfg, log);
  }

  /** The canonical stream: fresh copies in event-time order. */
  method Snapshot(working: seq<Event>) returns (canonical: seq<Event>)
    requires Separate(working)
    ensures fresh(canonical) && ReadThrough(Vals(canonical), Vals(working), Rank(EventKeyLe, Vals(working)))
  {
    var sorted := SortEvents(working, EventKeyLe);
    canonical := CopyAll(sorted);
  }

  /** Lateness in place, then the publish list, its reordering and its retries. */
  method PublishPasses(working: seq<Event>, cfg: DisorderConfig, log: InjectionLog)
    returns (records: seq<PublishRecord>, ghost t: Transit)
    requires cfg.Valid() && Separate(working)
    requires log.late == {} && log.outOfOrder == {} && log.duplicated == map[]
    modifies working, log`late, log`outOfOrder, log`duplicated
    ensures Late(t.delayed, old(Vals(working)), t.pushed, cfg.lateMaxHours, log.late)
    ensures ReadThrough(t.ordered, t.delayed, Rank(PublishKeyLe, t.delayed))
    ensures Reordered(t.shuffled, t.ordered, t.origin, t.backs, cfg, log.outOfOrder)
    ensures Bursts(t.copies, t.shuffled, t.extras, log.duplicated, cfg)
    ensures Carry(records, t.copies)
  {
    ghost var pushed := ApplyLateArrival(working, cfg, log);
    ghost var delayed := Vals(working);
    var sorted := SortEvents(working, PublishKeyLe);
    ghost var ordered := Vals(sorted);
    var reordered;
    ghost var origin, backs;
    reordered, origin, backs := ApplyOutOfOrder(sorted, cfg, log);
    ghost var copies, extras;
    records, copies, extras := ApplyDuplicates(reordered, cfg, log);
    t := Transit(delayed, pushed, ordered, Vals(reordered), origin, backs, copies, extras, []);
  }

  ghost predicate AllPublish(records: seq<PublishRecord>, t: Transit)
    reads set i | 0 <= i < |records| && records[i].Clean? :: records[i].event
  {
    && |records| == |t.copies| == |t.hits|
    && forall i :: 0 <= i < |records| ==> Publishes(records[i], t.copies[i], t.hits[i])
  }

  /** All transport disorder; none of it reaches the canonical stream. */
  method TransportPasses(working: seq<Event>, cfg: DisorderConfig, log: InjectionLog)
    returns (records: seq<PublishRecord>, ghost t: Transit)
    requires cfg.Valid() && Separate(working)
    requires log.late == {} && log.outOfOrder == {} && log.duplicated == map[] && log.corrupt == {}
    modifies working, log`late, log`outOfOrder, log`duplicated, log`corrupt
    ensures TransportLevel(t, old(Vals(working)), cfg, log.late, log.outOfOrder, log.duplicated, log.corrupt)
    ensures AllPublish(records, t)
  {
    ghost var before;
    var clean;
    clean, before := PublishPasses(working, cfg, log);
    ghost var hits;
    records, hits := ApplyCorruption(clean, cfg, log, before.copies);
    t := before.(hits := hits);
  }

  /** A record carries this copy, or garbage under the copy's partition key. */
  ghost predicate Publishes(record: PublishRecord, copy: EventValue, hit: bool)
    reads if record.Clean? then {record.event} else {}
  {
    && record.machine == copy.machine
    && if hit then record.Corrupted? && record.raw in TRUNCATIONS else record.Clean? && record.event.V() == copy
  }

  /** Skew touches no payload. */
  lemma SkewStaysMigratable(now: seq<EventValue>, was: seq<EventValue>, skewed: map<string, real>, cfg: DisorderConfig)
    requires Skewed(now, was, skewed, cfg.skewMaxSeconds) && cfg.Valid()
    ensures AlwaysMigratable(was, cfg) ==> Migratable(now, cfg)
  {
    RankIsPermutation(now);
    if AllConvertible(was) {
      forall i | 0 <= i < |now| ensures Convertible(now[i].payload, now[i].kind) {
        assert SkewedFrom(now[i], was[i], skewed, cfg.skewMaxSeconds);
      }
    }
  }

  ghost predicate Apart(a: seq<Event>, b: seq<Event>)
  {
    forall i :: 0 <= i < |a| ==> a[i] !in b
  }

  /** Copy the input, apply the record-level disorder, and take the canonical snapshot. */
  method Report(events: seq<Event>, cfg: DisorderConfig, log: InjectionLog)
    returns (ok: bool, working: seq<Event>, canonical: seq<Event>, ghost truth: Truth)
    requires cfg.Valid()
    requires log.skewed == map[] && log.schemaV2 == {} && log.schemaV3 == {}
    modifies log`skewed, log`schemaV2, log`schemaV3
    ensures Separate(working) && fresh(working) && fresh(canonical) && Apart(canonical, working)
    ensures Skewed(truth.skewed, Vals(events), log.skewed, cfg.skewMaxSeconds) && (ok <==> Migratable(truth.skewed, cfg))
    ensures Vals(working) == truth.drifted
    ensures |canonical| == |truth.canonical| && forall i :: 0 <= i < |canonical| ==> canonical[i].V() == truth.canonical[i]
    ensures ok ==> RecordLevel(truth, Vals(events), cfg, log.skewed, log.schemaV2, log.schemaV3)
  {
    working := CopyAll(events);
    ghost var skewed;
    ok, skewed := RecordPasses(working, cfg, log);
    if !ok {
      canonical, truth := [], Truth(skewed, Vals(working), []);
      return;
    }
    canonical := Snapshot(working);
    truth := Truth(skewed, Vals(working), Vals(canonical));
  }

  const NO_TRANSIT := Transit([], {}, [], [], [], map[], [], [], [])

  /**
   * The whole injection; false is the v3 migration raising, and then it returns nothing. It raises exactly when some event
   * ranked from the v3 cut on, in the order of the skewed times, has a duration that cannot be converted; never, then,
   * when all can. Nothing the caller passes in is written: the input events stay as they were.
   */
  method Inject(events: seq<Event>, cfg: DisorderConfig)
    returns (ok: bool, records: seq<PublishRecord>, log: InjectionLog, canonical: seq<Event>, ghost truth: Truth, ghost transit: Transit)
    requires cfg.Valid()
    ensures fresh(log) && fresh(canonical)
    ensures Skewed(truth.skewed, Vals(events), log.skewed, cfg.skewMaxSeconds) && (ok <==> Migratable(truth.skewed, cfg))
    ensures AlwaysMigratable(Vals(events), cfg) ==> ok
    ensures |canonical| == |truth.canonical| && forall i :: 0 <= i < |canonical| ==> canonical[i].V() == truth.canonical[i]
    ensures ok ==> RecordLevel(truth, Vals(events), cfg, log.skewed, log.schemaV2, log.schemaV3)
    ensures ok ==> TransportLevel(transit, truth.drifted, cfg, log.late, log.outOfOrder, log.duplicated, log.corrupt)
    ensures ok ==> AllPublish(records, transit)
  {
    log := new InjectionLog();
    var working;
    ok, working, canonical, truth := Report(events, cfg, log);
    SkewStaysMigratable(truth.skewed, Vals(events), log.skewed, cfg);
    if ok {
      records, transit := TransportPasses(working, cfg, log);
    } else {
      records, transit := [], NO_TRANSIT;
    }
  }
}
