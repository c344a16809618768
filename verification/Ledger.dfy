/** Gold's window aggregate, the manifest's rows, and the completeness ledger that joins them. */
module Ledger {
  import opened Events
  import opened Windows
  import opened Measures

  // ---- rounding to three places ----

  function RoundHalfAway(x: real): (n: int)
    ensures -0.5 <= x - n as real <= 0.5
  {
    if x >= 0.0 then (x + 0.5).Floor else -((0.5 - x).Floor)
  }

  /** Python's `round(x, 3)`, on exact reals. */
  function PyRound3(x: real): real
  {
    RoundHalfEven(x * 1000.0) as real / 1000.0
  }

  /** SQL's `round(x, 3)`, on exact reals. */
  function SqlRound3(x: real): real
  {
    RoundHalfAway(x * 1000.0) as real / 1000.0
  }

  function Abs(x: real): real
  {
    if x < 0.0 then -x else x
  }

  lemma RoundingErrors(x: real)
    ensures Abs(PyRound3(x) - x) <= 0.0005 && Abs(SqlRound3(x) - x) <= 0.0005
  {
    var n, m := RoundHalfEven(x * 1000.0) as real, RoundHalfAway(x * 1000.0) as real;
    assert (n / 1000.0) * 1000.0 == n && (m / 1000.0) * 1000.0 == m;
  }

  /**
   * Three independent roundings move a window's duration delta by at most 0.0015, whatever gold observed; so 0.01 never
   * fails a window with no true difference, and never passes one with a difference of 0.0115 or more.
   */
  lemma ToleranceSuffices(observed: real, total: real, corrupt: real)
    ensures var delta := SqlRound3(observed) - (PyRound3(total) - PyRound3(corrupt));
            && Abs(delta - (observed - (total - corrupt))) <= 0.0015
            && (observed == total - corrupt ==> Abs(delta) < 0.01)
            && (Abs(observed - (total - corrupt)) >= 0.0115 ==> Abs(delta) >= 0.01)
  {
    RoundingErrors(total);
    RoundingErrors(corrupt);
    RoundingErrors(observed);
  }

  // ---- the two sides ----

  /** What the injector logged of the transport. */
  datatype Injections = Injections(corrupt: set<string>, late: set<string>, duplicated: map<string, nat>)

  /** One manifest row's counts, before rounding. */
  datatype WindowRow = WindowRow(
    eventCount: int, cycleCount: int, defectCount: int, stateChangeCount: int, operatorScanCount: int, unitCount: int,
    cycleDurationSum: real, corruptCount: int, duplicateExtraCount: int, lateCount: int,
    corruptCycleCount: int, corruptDefectCount: int, corruptDurationSum: real)

  function RowOf(all: Totals, corrupt: Totals, extra: int, late: int): WindowRow
  {
    WindowRow(all.events, all.cycles, all.defects, all.stateChanges, all.scans, all.units, all.duration,
              corrupt.events, extra, late, corrupt.cycles, corrupt.defects, corrupt.duration)
  }

  /** The declarative manifest: each row is filters and sums over the canonical stream. */
  function ManifestRow(facts: seq<Fact>, inj: Injections, k: Bucket): WindowRow
  {
    RowOf(Sum(facts, k, Ids(facts)), Sum(facts, k, inj.corrupt),
          ExtraCopies(facts, k, inj.duplicated), Sum(facts, k, inj.late).events)
  }

  function Buckets(facts: seq<Fact>): set<Bucket>
  {
    set i | 0 <= i < |facts| :: facts[i].bucket
  }

  /** The rows as the generator publishes them: durations rounded. */
  function Manifest(facts: seq<Fact>, inj: Injections): map<Bucket, WindowRow>
  {
    map k | k in Buckets(facts) ::
      var r := ManifestRow(facts, inj, k);
      r.(cycleDurationSum := PyRound3(r.cycleDurationSum), corruptDurationSum := PyRound3(r.corruptDurationSum))
  }

  /** What gold adds up for one silver row: SQL's window, and the staged duration of cycles (null adds nothing). */
  function GoldFact(e: EventValue, engine: Engine): Fact
  {
    var d := StagedDuration(e.payload, engine);
    Fact(e.id, Bucket(SqlWindowStart(e.eventTime, WINDOW_MINUTES), e.machine),
      match e.kind
      case Cycle => Totals(1, 1, 0, 0, 0, 1, if d.Some? then d.value else 0.0)
      case Defect => Totals(1, 0, 1, 0, 0, 0, 0.0)
      case StateChange => Totals(1, 0, 0, 1, 0, 0, 0.0)
      case OperatorScan => Totals(1, 0, 0, 0, 1, 0, 0.0))
  }

  function GoldFacts(table: seq<EventValue>, engine: Engine): (r: seq<Fact>)
    ensures |r| == |table| && forall i :: 0 <= i < |table| ==> r[i] == GoldFact(table[i], engine)
  {
    seq(|table|, i requires 0 <= i < |table| => GoldFact(table[i], engine))
  }

  /** `agg_window_machine`: one row for each bucket that any silver row falls in. */
  function Gold(facts: seq<Fact>): map<Bucket, Totals>
  {
    map k | k in Buckets(facts) ::
      var t := Sum(facts, k, Ids(facts));
      t.(duration := SqlRound3(t.duration))
  }

  // ---- the ledger ----

  datatype Status = Reconciled | Pending | Broken

  datatype LedgerRow = LedgerRow(
    eventDelta: int, unitDelta: int, defectDelta: int, durationDelta: real,
    missingFromManifest: bool, missingFromGold: bool, status: Status)

  /** One row of the full outer join, nulls coalesced to zero. */
  function Compare(m: Option<WindowRow>, o: Option<Totals>, ageHours: int, watermarkHours: int): LedgerRow
  {
    var r := if m.Some? then m.value else RowOf(ZERO, ZERO, 0, 0);
    var g := if o.Some? then o.value else ZERO;
    var eventDelta := g.events - (r.eventCount - r.corruptCount);
    var unitDelta := g.units - (r.unitCount - r.corruptCycleCount);
    var defectDelta := g.defects - (r.defectCount - r.corruptDefectCount);
    var durationDelta := g.duration - (r.cycleDurationSum - r.corruptDurationSum);
    LedgerRow(eventDelta, unitDelta, defectDelta, durationDelta, m.None?, o.None?,
      if m.None? then Broken
      else if o.None? then Broken
      else if eventDelta == 0 && unitDelta == 0 && defectDelta == 0 && Abs(durationDelta) < 0.01 then Reconciled
      else if ageHours < watermarkHours then Pending
      else Broken)
  }

  function Lookup<V>(rows: map<Bucket, V>, k: Bucket): Option<V>
  {
    if k in rows then Some(rows[k]) else None
  }

  /** The completeness ledger; a window's age is whatever the clock says. */
  function CompletenessLedger(
    manifest: map<Bucket, WindowRow>, gold: map<Bucket, Totals>, ageHours: Bucket -> int, watermarkHours: int)
    : map<Bucket, LedgerRow>
  {
    map k | k in manifest.Keys + gold.Keys :: Compare(Lookup(manifest, k), Lookup(gold, k), ageHours(k), watermarkHours)
  }

  // ---- the exact ledger theorem ----

  /** The deduplicated stream against the truth: each row is a canonical event up to publish time, no id twice, and an id is missing only if it was corrupted. */
  ghost predicate Delivered(canonical: seq<EventValue>, corrupt: set<string>, table: seq<EventValue>)
  {
    && UniqueIds(Facts(canonical))
    && (forall i, j :: 0 <= i < |table| && 0 <= j < |table| && table[i].id == table[j].id ==> i == j)
    && (forall i :: 0 <= i < |table| ==> CopyOfSome(canonical, table[i]))
    && (forall i :: 0 <= i < |canonical| && canonical[i].id !in corrupt ==> exists j :: 0 <= j < |table| && table[j].id == canonical[i].id)
  }

  /** A copy is staged as its event is: publish time is read by nobody here. */
  lemma CopyIsStagedAlike(row: EventValue, c: EventValue, engine: Engine)
    requires SameButPublish(row, c)
    ensures GoldFact(row, engine) == GoldFact(c, engine)
  {
  }

  /** Two lists of facts that agree on all but durations. */
  ghost predicate SameButDuration(all: seq<Fact>, staged: seq<Fact>)
  {
    && |all| == |staged|
    && forall i :: 0 <= i < |all| ==> staged[i] == all[i].(measure := all[i].measure.(duration := staged[i].measure.duration))
  }

  /** The warehouse sees an event as the manifest does, whichever window function and schema version it went through, but for its duration. */
  lemma StagedButDuration(c: EventValue, engine: Engine)
    ensures GoldFact(c, engine) == FactOf(c).(measure := Measure(c).(duration := GoldFact(c, engine).measure.duration))
    ensures NumericDuration(c.payload) ==> GoldFact(c, engine) == FactOf(c)
  {
    AgreeWhenDividing(c.eventTime, WINDOW_MINUTES);
    if NumericDuration(c.payload) { StagingAgreesWithManifest(c.payload, engine); }
  }

  ghost predicate NumericAll(canonical: seq<EventValue>)
  {
    forall i :: 0 <= i < |canonical| ==> NumericDuration(canonical[i].payload)
  }

  lemma StagedFacts(canonical: seq<EventValue>, engine: Engine)
    ensures SameButDuration(Facts(canonical), GoldFacts(canonical, engine))
    ensures NumericAll(canonical) ==> GoldFacts(canonical, engine) == Facts(canonical)
  {
    forall i | 0 <= i < |canonical|
      ensures GoldFacts(canonical, engine)[i] == Facts(canonical)[i]
                .(measure := Facts(canonical)[i].measure.(duration := GoldFacts(canonical, engine)[i].measure.duration))
      ensures NumericAll(canonical) ==> GoldFacts(canonical, engine)[i] == Facts(canonical)[i]
    {
      StagedButDuration(canonical[i], engine);
    }
  }

  lemma GoldFactsAreStaged(canonical: seq<EventValue>, corrupt: set<string>, table: seq<EventValue>, engine: Engine)
    requires Delivered(canonical, corrupt, table)
    ensures AllIn(GoldFacts(table, engine), GoldFacts(canonical, engine)) && UniqueIds(GoldFacts(table, engine))
    ensures forall i :: 0 <= i < |canonical| && canonical[i].id !in corrupt ==> canonical[i].id in Ids(GoldFacts(table, engine))
  {
    var all, gold := GoldFacts(canonical, engine), GoldFacts(table, engine);
    forall i | 0 <= i < |gold| ensures gold[i] in all {
      assert CopyOfSome(canonical, table[i]);
      var c :| c in canonical && SameButPublish(table[i], c);
      var j :| 0 <= j < |canonical| && canonical[j] == c;
      CopyIsStagedAlike(table[i], c, engine);
      assert all[j] == gold[i];
    }
    forall i, j | 0 <= i < |gold| && 0 <= j < |gold| && gold[i].id == gold[j].id ensures i == j {
      assert table[i].id == table[j].id;
    }
    forall i | 0 <= i < |canonical| && canonical[i].id !in corrupt ensures canonical[i].id in Ids(gold) {
      var j :| 0 <= j < |table| && table[j].id == canonical[i].id;
      assert gold[j].id == canonical[i].id;
    }
  }

  ghost predicate SameCounts(a: Totals, b: Totals)
  {
    b == a.(duration := b.duration)
  }

  /** Sums over such lists agree on all but durations. */
  lemma {:induction false} SumSameCounts(all: seq<Fact>, staged: seq<Fact>, k: Bucket, ids: set<string>)
    requires SameButDuration(all, staged)
    ensures SameCounts(Sum(all, k, ids), Sum(staged, k, ids))
    decreases |all|
  {
    if all != [] {
      var n := |all| - 1;
      SumSameCounts(all[..n], staged[..n], k, ids);
      assert all == all[..n] + [all[n]] && staged == staged[..n] + [staged[n]];
      SumSnoc(all[..n], all[n], k, ids);
      SumSnoc(staged[..n], staged[n], k, ids);
    }
  }

  lemma SameIds(all: seq<Fact>, staged: seq<Fact>)
    requires SameButDuration(all, staged)
    ensures Ids(staged) == Ids(all) && Buckets(staged) == Buckets(all)
    ensures UniqueIds(all) ==> UniqueIds(staged)
    ensures Proper(all) ==> Proper(staged)
  {
    assert forall i :: 0 <= i < |all| ==> staged[i].id == all[i].id && staged[i].bucket == all[i].bucket;
  }

  /** In every bucket gold exceeds the expected totals by exactly the measure of the ids that are both corrupted and surviving. */
  lemma GoldExcess(all: seq<Fact>, gold: seq<Fact>, corrupt: set<string>, k: Bucket)
    requires UniqueIds(all) && UniqueIds(gold) && AllIn(gold, all)
    requires forall i :: 0 <= i < |all| ==> all[i].id in corrupt || all[i].id in Ids(gold)
    ensures Sum(gold, k, Ids(gold)).Plus(Sum(all, k, corrupt))
         == Sum(all, k, Ids(all)).Plus(Sum(all, k, corrupt * Ids(gold)))
  {
    SumOfSelection(all, gold, k);
    InclusionExclusion(all, k, corrupt, Ids(gold));
    EveryIdIsIn(all, k, corrupt, Ids(gold));
    PlusCommutes(Sum(all, k, corrupt), Sum(all, k, Ids(gold)));
  }

  lemma EveryIdIsIn(all: seq<Fact>, k: Bucket, a: set<string>, b: set<string>)
    requires forall i :: 0 <= i < |all| ==> all[i].id in a || all[i].id in b
    ensures Sum(all, k, a + b) == Sum(all, k, Ids(all))
  {
    forall i | 0 <= i < |all| ensures all[i].id in a + b <==> all[i].id in Ids(all) {}
    SumDependsOnOccurring(all, k, a + b, Ids(all));
  }

  lemma PlusCommutes(a: Totals, b: Totals)
    ensures a.Plus(b) == b.Plus(a)
  {
  }

  /** Some event of the bucket has an uncorrupted copy. */
  ghost predicate HasSurvivor(all: seq<Fact>, k: Bucket, survivors: set<string>)
  {
    exists i :: 0 <= i < |all| && Counts(all[i], k, survivors)
  }

  lemma GoldBucketIffSurvivor(all: seq<Fact>, gold: seq<Fact>, k: Bucket)
    requires UniqueIds(all) && AllIn(gold, all)
    ensures k in Buckets(gold) <==> HasSurvivor(all, k, Ids(gold))
    ensures Buckets(gold) <= Buckets(all)
  {
    forall b | b in Buckets(gold) ensures b in Buckets(all) && HasSurvivor(all, b, Ids(gold)) {
      var i :| 0 <= i < |gold| && gold[i].bucket == b;
      var j :| 0 <= j < |all| && all[j] == gold[i];
      assert Counts(all[j], b, Ids(gold));
    }
    if HasSurvivor(all, k, Ids(gold)) {
      var j :| 0 <= j < |all| && Counts(all[j], k, Ids(gold));
      var i :| 0 <= i < |gold| && gold[i].id == all[j].id;
      var j' :| 0 <= j' < |all| && all[j'] == gold[i];
      assert j' == j;
    }
  }

  /** Facts as events produce them: one event each, of one type. */
  ghost predicate Proper(all: seq<Fact>)
  {
    OneEventEach(all) && forall i :: 0 <= i < |all| ==> WellTyped(all[i].measure)
  }

  lemma FactsAreProper(s: seq<EventValue>)
    ensures Proper(Facts(s))
  {
    forall i | 0 <= i < |s| ensures Facts(s)[i].measure.events == 1 && WellTyped(Facts(s)[i].measure) { MeasureWellTyped(s[i]); }
  }

  /** A row's count deltas are these totals'. */
  ghost predicate CountsAre(row: LedgerRow, t: Totals)
  {
    row.eventDelta == t.events && row.unitDelta == t.units && row.defectDelta == t.defects
  }

  /** Gold's row for these totals: none when no silver row fell in the window. */
  function GoldRow(g: Totals, present: bool): Option<Totals>
  {
    if present then Some(g.(duration := SqlRound3(g.duration))) else None
  }

  /** A row's status, from its counts and its duration delta. */
  function StatusOf(partly: Totals, durationDelta: real, age: int, mark: int): Status
  {
    if partly.events == 0 && Abs(durationDelta) < 0.01 then Reconciled else if age < mark then Pending else Broken
  }

  /** A row's flags, deltas and status, from what its window's sums are. */
  ghost predicate RowFits(row: LedgerRow, partly: Totals, drift: real, present: bool, age: int, mark: int)
  {
    && !row.missingFromManifest && row.missingFromGold == !present
    && CountsAre(row, partly) && Abs(row.durationDelta - drift) <= 0.0015
    && row.status == if present then StatusOf(partly, row.durationDelta, age, mark) else Broken
  }

  /**
   * The deltas of a row. The manifest adds up `all` and `corrupt`; staged the same events add up to `all2` and `corrupt2`,
   * which differ in durations at most; and gold exceeds what it is to hold of those by `partly2`.
   */
  lemma DeltasCountPartly(
    all: Totals, corrupt: Totals, partly: Totals, all2: Totals, corrupt2: Totals, partly2: Totals, g: Totals, present: bool,
    extra: int, late: int, age: int, mark: int)
    requires g.Plus(corrupt2) == all2.Plus(partly2) && WellTyped(corrupt) && partly.events >= 0
    requires SameCounts(all, all2) && SameCounts(corrupt, corrupt2) && SameCounts(partly, partly2)
    requires partly.events == 0 ==> SameCounts(ZERO, partly)
    requires !present ==> g == ZERO
    ensures var m := RowOf(all, corrupt, extra, late)
                     .(cycleDurationSum := PyRound3(all.duration), corruptDurationSum := PyRound3(corrupt.duration));
            var row := Compare(Some(m), GoldRow(g, present), age, mark);
            && RowFits(row, partly, Drift(all, corrupt, all2, corrupt2, partly2), present, age, mark)
            && row.durationDelta == SqlRound3(g.duration) - (PyRound3(all.duration) - PyRound3(corrupt.duration))
  {
    ToleranceSuffices(g.duration, all.duration, corrupt.duration);
    ZeroRounds();
  }

  /** The staged durations of what is both corrupted and surviving, and what staging misreads of the rest. */
  function Drift(all: Totals, corrupt: Totals, all2: Totals, corrupt2: Totals, partly2: Totals): real
  {
    partly2.duration + ((all2.duration - all.duration) - (corrupt2.duration - corrupt.duration))
  }

  lemma ZeroRounds()
    ensures SqlRound3(0.0) == 0.0
  {
    assert RoundHalfAway(0.0) == 0;
  }

  lemma NoFactNoSum(facts: seq<Fact>, k: Bucket, ids: set<string>)
    requires OneEventEach(facts) && k !in Buckets(facts)
    ensures Sum(facts, k, ids) == ZERO
  {
    SumZeroIff(facts, k, ids);
    forall i | 0 <= i < |facts| ensures facts[i].bucket in Buckets(facts) {}
  }

  lemma LookedUp(all: seq<Fact>, gold: seq<Fact>, inj: Injections, k: Bucket)
    requires k in Buckets(all)
    ensures var a, c := Sum(all, k, Ids(all)), Sum(all, k, inj.corrupt);
            Lookup(Manifest(all, inj), k)
            == Some(RowOf(a, c, ExtraCopies(all, k, inj.duplicated), Sum(all, k, inj.late).events)
                    .(cycleDurationSum := PyRound3(a.duration), corruptDurationSum := PyRound3(c.duration)))
    ensures Lookup(Gold(gold), k) == GoldRow(Sum(gold, k, Ids(gold)), k in Buckets(gold))
  {
  }

  function DriftOf(all: seq<Fact>, staged: seq<Fact>, k: Bucket, corrupt: set<string>, both: set<string>): real
  {
    Drift(Sum(all, k, Ids(all)), Sum(all, k, corrupt), Sum(staged, k, Ids(all)), Sum(staged, k, corrupt), Sum(staged, k, both))
  }

  /** What the two sides of the join hold of one stream: gold, of what staging makes of it, at least what was never corrupted. */
  ghost predicate Joined(all: seq<Fact>, staged: seq<Fact>, gold: seq<Fact>, corrupt: set<string>)
  {
    && SameButDuration(all, staged) && UniqueIds(all) && UniqueIds(gold) && AllIn(gold, staged) && Proper(all)
    && forall i :: 0 <= i < |all| ==> all[i].id in corrupt || all[i].id in Ids(gold)
  }

  /** One row of the ledger: its count deltas are the partly corrupted events', its duration delta drifts by what staging reads. */
  lemma LedgerRowExact(
    all: seq<Fact>, staged: seq<Fact>, gold: seq<Fact>, inj: Injections, k: Bucket, ageHours: int, watermarkHours: int)
    requires Joined(all, staged, gold, inj.corrupt)
    requires k in Buckets(all)
    ensures var row := Compare(Lookup(Manifest(all, inj), k), Lookup(Gold(gold), k), ageHours, watermarkHours);
            var both := inj.corrupt * Ids(gold);
            && RowFits(row, Sum(all, k, both), DriftOf(all, staged, k, inj.corrupt, both), k in Buckets(gold), ageHours, watermarkHours)
            && row.durationDelta == SqlRound3(Sum(gold, k, Ids(gold)).duration)
                 - (PyRound3(Sum(all, k, Ids(all)).duration) - PyRound3(Sum(all, k, inj.corrupt).duration))
  {
    var both := inj.corrupt * Ids(gold);
    StagedTotals(all, staged, gold, inj.corrupt, k);
    LookedUp(all, gold, inj, k);
    DeltasCountPartly(Sum(all, k, Ids(all)), Sum(all, k, inj.corrupt), Sum(all, k, both),
      Sum(staged, k, Ids(all)), Sum(staged, k, inj.corrupt), Sum(staged, k, both), Sum(gold, k, Ids(gold)), k in Buckets(gold),
      ExtraCopies(all, k, inj.duplicated), Sum(all, k, inj.late).events, ageHours, watermarkHours);
  }

  /** What the sums of a window have to do with one another. */
  lemma StagedTotals(all: seq<Fact>, staged: seq<Fact>, gold: seq<Fact>, corrupt: set<string>, k: Bucket)
    requires Joined(all, staged, gold, corrupt)
    ensures var both := corrupt * Ids(gold);
            && Sum(gold, k, Ids(gold)).Plus(Sum(staged, k, corrupt)) == Sum(staged, k, Ids(all)).Plus(Sum(staged, k, both))
            && SameCounts(Sum(all, k, Ids(all)), Sum(staged, k, Ids(all)))
            && SameCounts(Sum(all, k, corrupt), Sum(staged, k, corrupt)) && SameCounts(Sum(all, k, both), Sum(staged, k, both))
            && Sum(all, k, both).events >= 0 && (Sum(all, k, both).events == 0 ==> Sum(all, k, both) == ZERO)
            && WellTyped(Sum(all, k, corrupt)) && (k !in Buckets(gold) ==> Sum(gold, k, Ids(gold)) == ZERO)
  {
    SameIds(all, staged);
    SumZeroIff(all, k, corrupt * Ids(gold));
    GoldExcess(staged, gold, corrupt, k);
    TypesPartitionEvents(all, k, corrupt);
    SumSameCounts(all, staged, k, Ids(all));
    SumSameCounts(all, staged, k, corrupt);
    SumSameCounts(all, staged, k, corrupt * Ids(gold));
    if k !in Buckets(gold) { GoldIsProper(staged, gold); NoFactNoSum(gold, k, Ids(gold)); }
  }

  lemma GoldIsProper(all: seq<Fact>, gold: seq<Fact>)
    requires Proper(all) && AllIn(gold, all)
    ensures OneEventEach(gold)
  {
    forall i | 0 <= i < |gold| ensures gold[i].measure.events == 1 {
      var j :| 0 <= j < |all| && all[j] == gold[i];
    }
  }

  /** An event of the bucket whose id was corrupted in one copy and survives in another. */
  ghost predicate PartlyCorrupted(canonical: seq<EventValue>, k: Bucket, corrupt: set<string>, table: seq<EventValue>, i: int)
  {
    && 0 <= i < |canonical| && BucketOf(canonical[i]) == k && canonical[i].id in corrupt
    && exists j :: 0 <= j < |table| && table[j].id == canonical[i].id
  }

  ghost predicate Survives(canonical: seq<EventValue>, k: Bucket, table: seq<EventValue>, i: int)
  {
    && 0 <= i < |canonical| && BucketOf(canonical[i]) == k
    && exists j :: 0 <= j < |table| && table[j].id == canonical[i].id
  }

  lemma IdsOfGold(table: seq<EventValue>, engine: Engine, id: string)
    ensures id in Ids(GoldFacts(table, engine)) <==> exists j :: 0 <= j < |table| && table[j].id == id
  {
    var gold := GoldFacts(table, engine);
    if id in Ids(gold) {
      var j :| 0 <= j < |gold| && gold[j].id == id;
      assert table[j].id == id;
    }
    if exists j :: 0 <= j < |table| && table[j].id == id {
      var j :| 0 <= j < |table| && table[j].id == id;
      assert gold[j].id == id;
    }
  }

  /** What a row says of its window, given whether anything of it survives and whether anything is partly corrupted. */
  ghost predicate Says(row: LedgerRow, partly: Totals, drift: real, survives: bool, split: bool, age: int, mark: int)
  {
    && !row.missingFromManifest && (row.missingFromGold <==> !survives)
    && CountsAre(row, partly) && Abs(row.durationDelta - drift) <= 0.0015
    && (row.status == Reconciled <==> survives && !split && Abs(row.durationDelta) < 0.01)
    && (row.status == Pending <==> survives && (split || Abs(row.durationDelta) >= 0.01) && age < mark)
  }

  lemma FittingSays(row: LedgerRow, partly: Totals, drift: real, survives: bool, split: bool, age: int, mark: int)
    requires RowFits(row, partly, drift, survives, age, mark) && (partly.events == 0 <==> !split)
    ensures Says(row, partly, drift, survives, split, age, mark)
  {
  }

  ghost predicate AnySurvives(canonical: seq<EventValue>, k: Bucket, table: seq<EventValue>)
  {
    exists i :: Survives(canonical, k, table, i)
  }

  ghost predicate AnyPartlyCorrupted(canonical: seq<EventValue>, k: Bucket, corrupt: set<string>, table: seq<EventValue>)
  {
    exists i :: PartlyCorrupted(canonical, k, corrupt, table, i)
  }

  /** The ids corrupted in one copy and surviving in another. */
  function Both(inj: Injections, table: seq<EventValue>, engine: Engine): set<string>
  {
    inj.corrupt * Ids(GoldFacts(table, engine))
  }

  /** The same of the events and copies of a window, whatever its durations are. */
  ghost predicate RowMeans(
    row: LedgerRow, canonical: seq<EventValue>, inj: Injections, table: seq<EventValue>, engine: Engine, k: Bucket, age: int, mark: int)
  {
    && row.durationDelta == Compared(canonical, inj, table, engine, k)
    && Says(row, Sum(Facts(canonical), k, Both(inj, table, engine)),
         DriftOf(Facts(canonical), GoldFacts(canonical, engine), k, inj.corrupt, Both(inj, table, engine)),
         AnySurvives(canonical, k, table), AnyPartlyCorrupted(canonical, k, inj.corrupt, table), age, mark)
  }

  /** The durations staged of what survives, against those the manifest leaves of all: each side rounded where the source rounds. */
  function Compared(canonical: seq<EventValue>, inj: Injections, table: seq<EventValue>, engine: Engine, k: Bucket): real
  {
    var all, staged := Facts(canonical), GoldFacts(canonical, engine);
    SqlRound3(Sum(staged, k, Ids(GoldFacts(table, engine))).duration)
    - (PyRound3(Sum(all, k, Ids(all)).duration) - PyRound3(Sum(all, k, inj.corrupt).duration))
  }

  /** A duration delta of about this much, and no reason not to reconcile unless something is split. */
  ghost predicate About(row: LedgerRow, duration: real, split: bool)
  {
    Abs(row.durationDelta - duration) <= 0.0015 && (!split ==> Abs(row.durationDelta) < 0.01)
  }

  /** With numbers for durations there is no drift but the partly corrupted durations, and no other reason not to reconcile. */
  ghost predicate Undrifted(
    row: LedgerRow, canonical: seq<EventValue>, inj: Injections, table: seq<EventValue>, engine: Engine, k: Bucket)
  {
    About(row, Sum(Facts(canonical), k, Both(inj, table, engine)).duration, AnyPartlyCorrupted(canonical, k, inj.corrupt, table))
  }

  /**
   * The exact ledger. One row per manifest window and none besides. A row's count deltas are the totals of the events that
   * are partly corrupted; its duration delta is their staged durations and what staging misreads of the others, up to
   * three roundings. It is reconciled iff something survives, nothing is partly corrupted and the duration delta is within
   * tolerance, at any age. When every duration is a number the tolerance always holds, and the delta is just the partly
   * corrupted durations.
   */
  lemma LedgerIsExact(
    canonical: seq<EventValue>, inj: Injections, table: seq<EventValue>, engine: Engine,
    ageHours: Bucket -> int, watermarkHours: int, k: Bucket)
    requires Delivered(canonical, inj.corrupt, table)
    ensures var ledger := CompletenessLedger(
              Manifest(Facts(canonical), inj), Gold(GoldFacts(table, engine)), ageHours, watermarkHours);
            && (k in ledger <==> exists i :: 0 <= i < |canonical| && BucketOf(canonical[i]) == k)
            && (k in ledger ==>
                  && RowMeans(ledger[k], canonical, inj, table, engine, k, ageHours(k), watermarkHours)
                  && (NumericAll(canonical) ==> Undrifted(ledger[k], canonical, inj, table, engine, k)))
  {
    var all, gold := Facts(canonical), GoldFacts(table, engine);
    BucketsOfFacts(canonical, k);
    StagedFacts(canonical, engine);
    SameIds(all, GoldFacts(canonical, engine));
    GoldFactsAreStaged(canonical, inj.corrupt, table, engine);
    GoldInManifest(all, GoldFacts(canonical, engine), gold);
    if k in Buckets(all) {
      var row := Compare(Lookup(Manifest(all, inj), k), Lookup(Gold(gold), k), ageHours(k), watermarkHours);
      RowMeansExactly(row, canonical, inj, table, engine, ageHours, watermarkHours, k);
      if NumericAll(canonical) { RowWithNumbers(row, canonical, inj, table, engine, k, ageHours(k), watermarkHours); }
    }
  }

  lemma GoldInManifest(all: seq<Fact>, staged: seq<Fact>, gold: seq<Fact>)
    requires SameButDuration(all, staged) && AllIn(gold, staged)
    ensures Buckets(gold) <= Buckets(all)
  {
    SameIds(all, staged);
    forall b | b in Buckets(gold) ensures b in Buckets(staged) {
      var i :| 0 <= i < |gold| && gold[i].bucket == b;
      var j :| 0 <= j < |staged| && staged[j] == gold[i];
    }
  }

  lemma DeliveredIsJoined(canonical: seq<EventValue>, corrupt: set<string>, table: seq<EventValue>, engine: Engine)
    requires Delivered(canonical, corrupt, table)
    ensures Joined(Facts(canonical), GoldFacts(canonical, engine), GoldFacts(table, engine), corrupt)
  {
    GoldFactsAreStaged(canonical, corrupt, table, engine);
    StagedFacts(canonical, engine);
    FactsAreProper(canonical);
  }

  lemma GoldIsSelection(all: seq<Fact>, staged: seq<Fact>, gold: seq<Fact>, corrupt: set<string>, k: Bucket)
    requires Joined(all, staged, gold, corrupt)
    ensures Sum(gold, k, Ids(gold)) == Sum(staged, k, Ids(gold))
  {
    SameIds(all, staged);
    SumOfSelection(staged, gold, k);
  }

  /** A row's flags and status, in terms of events instead of sums. */
  lemma RowSays(
    row: LedgerRow, canonical: seq<EventValue>, inj: Injections, table: seq<EventValue>, engine: Engine,
    ageHours: Bucket -> int, watermarkHours: int, k: Bucket)
    requires Delivered(canonical, inj.corrupt, table) && k in Buckets(Facts(canonical))
    requires row == Compare(
               Lookup(Manifest(Facts(canonical), inj), k), Lookup(Gold(GoldFacts(table, engine)), k), ageHours(k), watermarkHours)
    ensures Says(row, Sum(Facts(canonical), k, Both(inj, table, engine)),
              DriftOf(Facts(canonical), GoldFacts(canonical, engine), k, inj.corrupt, Both(inj, table, engine)),
              AnySurvives(canonical, k, table), AnyPartlyCorrupted(canonical, k, inj.corrupt, table), ageHours(k), watermarkHours)
  {
    var all, staged, gold := Facts(canonical), GoldFacts(canonical, engine), GoldFacts(table, engine);
    DeliveredIsJoined(canonical, inj.corrupt, table, engine);
    LedgerRowExact(all, staged, gold, inj, k, ageHours(k), watermarkHours);
    PresentMeans(canonical, table, engine, k, inj.corrupt);
    SplitMeans(canonical, k, inj, table, engine);
    FittingSays(row, Sum(all, k, Both(inj, table, engine)), DriftOf(all, staged, k, inj.corrupt, Both(inj, table, engine)),
      AnySurvives(canonical, k, table), AnyPartlyCorrupted(canonical, k, inj.corrupt, table), ageHours(k), watermarkHours);
  }

  lemma RowCompares(
    row: LedgerRow, canonical: seq<EventValue>, inj: Injections, table: seq<EventValue>, engine: Engine,
    ageHours: Bucket -> int, watermarkHours: int, k: Bucket)
    requires Delivered(canonical, inj.corrupt, table) && k in Buckets(Facts(canonical))
    requires row == Compare(
               Lookup(Manifest(Facts(canonical), inj), k), Lookup(Gold(GoldFacts(table, engine)), k), ageHours(k), watermarkHours)
    ensures row.durationDelta == Compared(canonical, inj, table, engine, k)
  {
    var all, staged, gold := Facts(canonical), GoldFacts(canonical, engine), GoldFacts(table, engine);
    DeliveredIsJoined(canonical, inj.corrupt, table, engine);
    LedgerRowExact(all, staged, gold, inj, k, ageHours(k), watermarkHours);
    GoldIsSelection(all, staged, gold, inj.corrupt, k);
  }

  lemma RowMeansExactly(
    row: LedgerRow, canonical: seq<EventValue>, inj: Injections, table: seq<EventValue>, engine: Engine,
    ageHours: Bucket -> int, watermarkHours: int, k: Bucket)
    requires Delivered(canonical, inj.corrupt, table) && k in Buckets(Facts(canonical))
    requires row == Compare(
               Lookup(Manifest(Facts(canonical), inj), k), Lookup(Gold(GoldFacts(table, engine)), k), ageHours(k), watermarkHours)
    ensures RowMeans(row, canonical, inj, table, engine, k, ageHours(k), watermarkHours)
  {
    RowSays(row, canonical, inj, table, engine, ageHours, watermarkHours, k);
    RowCompares(row, canonical, inj, table, engine, ageHours, watermarkHours, k);
  }

  lemma SplitMeans(canonical: seq<EventValue>, k: Bucket, inj: Injections, table: seq<EventValue>, engine: Engine)
    ensures Sum(Facts(canonical), k, Both(inj, table, engine)).events == 0 <==> !AnyPartlyCorrupted(canonical, k, inj.corrupt, table)
    ensures Sum(Facts(canonical), k, Both(inj, table, engine)).events == 0 ==> Sum(Facts(canonical), k, Both(inj, table, engine)) == ZERO
  {
    FactsAreProper(canonical);
    PartlyMeans(canonical, k, inj.corrupt, table, engine);
    SumZeroIff(Facts(canonical), k, Both(inj, table, engine));
  }

  lemma PresentMeans(canonical: seq<EventValue>, table: seq<EventValue>, engine: Engine, k: Bucket, corrupt: set<string>)
    requires Delivered(canonical, corrupt, table)
    ensures k in Buckets(GoldFacts(table, engine)) <==> AnySurvives(canonical, k, table)
    ensures AnyPartlyCorrupted(canonical, k, corrupt, table) ==> AnySurvives(canonical, k, table)
  {
    var all, staged, gold := Facts(canonical), GoldFacts(canonical, engine), GoldFacts(table, engine);
    GoldFactsAreStaged(canonical, corrupt, table, engine);
    StagedFacts(canonical, engine);
    SameIds(all, staged);
    GoldBucketIffSurvivor(staged, gold, k);
    SurvivorByCounts(all, staged, k, Ids(gold));
    SurvivorMeans(canonical, k, table, engine);
    if i :| PartlyCorrupted(canonical, k, corrupt, table, i) { assert Survives(canonical, k, table, i); }
  }

  lemma RowWithNumbers(
    row: LedgerRow, canonical: seq<EventValue>, inj: Injections, table: seq<EventValue>, engine: Engine, k: Bucket, age: int, mark: int)
    requires RowMeans(row, canonical, inj, table, engine, k, age, mark) && NumericAll(canonical)
    ensures Undrifted(row, canonical, inj, table, engine, k)
  {
    StagedFacts(canonical, engine);
    SplitMeans(canonical, k, inj, table, engine);
  }

  lemma SurvivorByCounts(all: seq<Fact>, staged: seq<Fact>, k: Bucket, survivors: set<string>)
    requires SameButDuration(all, staged)
    ensures HasSurvivor(staged, k, survivors) <==> HasSurvivor(all, k, survivors)
  {
    assert forall i :: 0 <= i < |all| ==> (Counts(staged[i], k, survivors) <==> Counts(all[i], k, survivors));
  }

  lemma BucketsOfFacts(canonical: seq<EventValue>, k: Bucket)
    ensures k in Buckets(Facts(canonical)) <==> exists i :: 0 <= i < |canonical| && BucketOf(canonical[i]) == k
  {
    var all := Facts(canonical);
    if k in Buckets(all) {
      var i :| 0 <= i < |all| && all[i].bucket == k;
      assert BucketOf(canonical[i]) == k;
    }
    if exists i :: 0 <= i < |canonical| && BucketOf(canonical[i]) == k {
      var i :| 0 <= i < |canonical| && BucketOf(canonical[i]) == k;
      assert all[i].bucket == k;
    }
  }

  lemma SurvivorMeans(canonical: seq<EventValue>, k: Bucket, table: seq<EventValue>, engine: Engine)
    ensures HasSurvivor(Facts(canonical), k, Ids(GoldFacts(table, engine))) <==> exists i :: Survives(canonical, k, table, i)
  {
    var all, survivors := Facts(canonical), Ids(GoldFacts(table, engine));
    forall i | 0 <= i < |canonical| ensures Counts(all[i], k, survivors) <==> Survives(canonical, k, table, i) {
      IdsOfGold(table, engine, canonical[i].id);
    }
    if HasSurvivor(all, k, survivors) {
      var i :| 0 <= i < |all| && Counts(all[i], k, survivors);
      assert Survives(canonical, k, table, i);
    }
    if exists i :: Survives(canonical, k, table, i) {
      var i :| Survives(canonical, k, table, i);
      assert Counts(all[i], k, survivors);
    }
  }

  lemma PartlyMeans(canonical: seq<EventValue>, k: Bucket, corrupt: set<string>, table: seq<EventValue>, engine: Engine)
    ensures NothingCounts(Facts(canonical), k, corrupt * Ids(GoldFacts(table, engine)))
            <==> !exists i :: PartlyCorrupted(canonical, k, corrupt, table, i)
  {
    var all, both := Facts(canonical), corrupt * Ids(GoldFacts(table, engine));
    forall i | 0 <= i < |canonical| ensures Counts(all[i], k, both) <==> PartlyCorrupted(canonical, k, corrupt, table, i) {
      IdsOfGold(table, engine, canonical[i].id);
    }
    if !NothingCounts(all, k, both) {
      var i :| 0 <= i < |all| && Counts(all[i], k, both);
      assert PartlyCorrupted(canonical, k, corrupt, table, i);
    }
    if exists i :: PartlyCorrupted(canonical, k, corrupt, table, i) {
      var i :| PartlyCorrupted(canonical, k, corrupt, table, i);
      assert Counts(all[i], k, both);
    }
  }
}
