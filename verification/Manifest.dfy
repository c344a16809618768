/** `build_manifest`: two passes that accumulate into bucket objects, refining the declarative rows of the ledger. */
module Manifest {
  import opened Events
  import opened Ordering
  import opened Measures
  import opened Ledger
  import opened Checksum

  function AddMeasure(row: WindowRow, m: Totals): WindowRow
  {
    row.(eventCount := row.eventCount + m.events, cycleCount := row.cycleCount + m.cycles,
         defectCount := row.defectCount + m.defects, stateChangeCount := row.stateChangeCount + m.stateChanges,
         operatorScanCount := row.operatorScanCount + m.scans, unitCount := row.unitCount + m.units,
         cycleDurationSum := row.cycleDurationSum + m.duration)
  }

  function AddInjections(row: WindowRow, f: Fact, inj: Injections): WindowRow
  {
    var m := if f.id in inj.corrupt then f.measure else ZERO;
    row.(corruptCount := row.corruptCount + m.events, corruptCycleCount := row.corruptCycleCount + m.cycles,
         corruptDefectCount := row.corruptDefectCount + m.defects, corruptDurationSum := row.corruptDurationSum + m.duration,
         lateCount := row.lateCount + (if f.id in inj.late then 1 else 0),
         duplicateExtraCount := row.duplicateExtraCount + (if f.id in inj.duplicated then inj.duplicated[f.id] else 0))
  }

  /** Exact truth for one machine in one window, under construction. */
  class WindowManifest {
    const window: int
    const machine: string
    var eventCount: int
    var cycleCount: int
    var defectCount: int
    var stateChangeCount: int
    var operatorScanCount: int
    var unitCount: int
    var cycleDurationSum: real
    var eventIdChecksum: string
    var corruptCount: int
    var duplicateExtraCount: int
    var lateCount: int
    var corruptCycleCount: int
    var corruptDefectCount: int
    var corruptDurationSum: real

    constructor (key: Bucket)
      ensures Key() == key && Row() == RowOf(ZERO, ZERO, 0, 0)
    {
      window, machine := key.window, key.machine;
      eventCount, cycleCount, defectCount, stateChangeCount, operatorScanCount, unitCount := 0, 0, 0, 0, 0, 0;
      cycleDurationSum, eventIdChecksum := 0.0, "";
      corruptCount, duplicateExtraCount, lateCount, corruptCycleCount, corruptDefectCount := 0, 0, 0, 0, 0;
      corruptDurationSum := 0.0;
    }

    function Key(): Bucket
    {
      Bucket(window, machine)
    }

    function Row(): WindowRow
      reads this
    {
      WindowRow(eventCount, cycleCount, defectCount, stateChangeCount, operatorScanCount, unitCount, cycleDurationSum,
                corruptCount, duplicateExtraCount, lateCount, corruptCycleCount, corruptDefectCount, corruptDurationSum)
    }

    /** The first pass, on one event of this window. */
    method Count(e: EventValue)
      modifies this
      ensures Row() == AddMeasure(old(Row()), Measure(e)) && eventIdChecksum == old(eventIdChecksum)
    {
      eventCount := eventCount + 1;
      match e.kind {
        case Cycle =>
          cycleCount := cycleCount + 1;
          unitCount := unitCount + 1;
          var duration := CycleDurationSeconds(e.payload);
          if duration.Some? {
            cycleDurationSum := cycleDurationSum + duration.value;
          }
        case Defect =>
          defectCount := defectCount + 1;
        case StateChange =>
          stateChangeCount := stateChangeCount + 1;
        case OperatorScan =>
          operatorScanCount := operatorScanCount + 1;
      }
    }

    /** The second pass: what the transport did to one event of this window. */
    method Attribute(e: EventValue, inj: Injections)
      modifies this
      ensures Row() == AddInjections(old(Row()), FactOf(e), inj) && eventIdChecksum == old(eventIdChecksum)
    {
      if e.id in inj.corrupt {
        corruptCount := corruptCount + 1;
        if e.kind.Cycle? {
          corruptCycleCount := corruptCycleCount + 1;
          var duration := CycleDurationSeconds(e.payload);
          if duration.Some? {
            corruptDurationSum := corruptDurationSum + duration.value;
          }
        } else if e.kind.Defect? {
          corruptDefectCount := corruptDefectCount + 1;
        }
      }
      if e.id in inj.late {
        lateCount := lateCount + 1;
      }
      duplicateExtraCount := duplicateExtraCount + if e.id in inj.duplicated then inj.duplicated[e.id] else 0;
    }
  }

  // ---- the passes on values ----

  /** A bucket's running totals: everything, what was corrupted, extra copies, late events. */
  datatype Account = Account(all: Totals, corrupt: Totals, extra: nat, late: int)
  {
    function Row(): WindowRow
    {
      RowOf(all, corrupt, extra, late)
    }

    function Plus(f: Fact): Account
    {
      this.(all := all.Plus(f.measure))
    }

    function Hit(f: Fact, inj: Injections): Account
    {
      Account(all,
        corrupt.Plus(if f.id in inj.corrupt then f.measure else ZERO),
        extra + (if f.id in inj.duplicated then inj.duplicated[f.id] else 0),
        late + (if f.id in inj.late then 1 else 0))
    }
  }

  const NO_ACCOUNT := Account(ZERO, ZERO, 0, 0)

  lemma RowPlus(a: Account, f: Fact)
    ensures a.Plus(f).Row() == AddMeasure(a.Row(), f.measure)
  {
  }

  lemma RowHit(a: Account, f: Fact, inj: Injections)
    ensures a.Hit(f, inj).Row() == AddInjections(a.Row(), f, inj)
  {
  }

  type Accounts = map<Bucket, Account>

  function Counted(accounts: Accounts, f: Fact): Accounts
  {
    accounts[f.bucket := (if f.bucket in accounts then accounts[f.bucket] else NO_ACCOUNT).Plus(f)]
  }

  function CountAll(facts: seq<Fact>): Accounts
  {
    if facts == [] then map[] else Counted(CountAll(facts[..|facts| - 1]), facts[|facts| - 1])
  }

  function Attributed(accounts: Accounts, f: Fact, inj: Injections): Accounts
  {
    if f.bucket in accounts then accounts[f.bucket := accounts[f.bucket].Hit(f, inj)] else accounts
  }

  function AttributeAll(accounts: Accounts, facts: seq<Fact>, inj: Injections): Accounts
  {
    if facts == [] then accounts
    else Attributed(AttributeAll(accounts, facts[..|facts| - 1], inj), facts[|facts| - 1], inj)
  }

  lemma BucketsSnoc(facts: seq<Fact>, f: Fact)
    ensures Buckets(facts + [f]) == Buckets(facts) + {f.bucket}
  {
    var longer := facts + [f];
    forall k ensures k in Buckets(longer) <==> k in Buckets(facts) + {f.bucket} {
      if k in Buckets(facts) {
        var i :| 0 <= i < |facts| && facts[i].bucket == k;
        assert longer[i].bucket == k;
      }
      assert longer[|facts|] == f;
    }
  }

  lemma SumAllSnoc(facts: seq<Fact>, f: Fact, k: Bucket)
    ensures Sum(facts + [f], k, Ids(facts + [f]))
         == Sum(facts, k, Ids(facts)).Plus(if f.bucket == k then f.measure else ZERO)
  {
    var longer := facts + [f];
    IdsSnoc(facts, f);
    SumSnoc(facts, f, k, Ids(longer));
    SumDependsOnOccurring(facts, k, Ids(facts), Ids(longer));
  }

  /** Bucket k has an account just when some event falls in it; the account is the bucket's total. */
  ghost predicate Totalled(accounts: Accounts, k: Bucket, some: bool, total: Totals)
  {
    && (k in accounts <==> some)
    && if k in accounts then accounts[k] == Account(total, ZERO, 0, 0) else total == ZERO
  }

  lemma CountedStep(accounts: Accounts, f: Fact, k: Bucket, some: bool, total: Totals)
    requires Totalled(accounts, k, some, total)
    ensures Totalled(Counted(accounts, f), k, some || f.bucket == k, total.Plus(if f.bucket == k then f.measure else ZERO))
  {
    PlusZero(total);
  }

  lemma CountAllSnoc(facts: seq<Fact>, f: Fact)
    ensures CountAll(facts + [f]) == Counted(CountAll(facts), f)
  {
    assert (facts + [f])[..|facts|] == facts;
  }

  lemma CountAllStep(facts: seq<Fact>, f: Fact, k: Bucket)
    requires Totalled(CountAll(facts), k, k in Buckets(facts), Sum(facts, k, Ids(facts)))
    ensures Totalled(CountAll(facts + [f]), k, k in Buckets(facts + [f]), Sum(facts + [f], k, Ids(facts + [f])))
  {
    CountedStep(CountAll(facts), f, k, k in Buckets(facts), Sum(facts, k, Ids(facts)));
    CountAllSnoc(facts, f);
    BucketsSnoc(facts, f);
    SumAllSnoc(facts, f, k);
  }

  /** The first pass is a filter and a sum for every key. */
  lemma {:induction false} CountAllIsSums(facts: seq<Fact>, k: Bucket)
    ensures Totalled(CountAll(facts), k, k in Buckets(facts), Sum(facts, k, Ids(facts)))
    decreases |facts|
  {
    if facts != [] {
      var n := |facts| - 1;
      CountAllIsSums(facts[..n], k);
      CountAllStep(facts[..n], facts[n], k);
      assert facts == facts[..n] + [facts[n]];
    }
  }

  ghost predicate Covered(accounts: Accounts, facts: seq<Fact>)
  {
    forall i :: 0 <= i < |facts| ==> facts[i].bucket in accounts
  }

  lemma {:induction false} AttributeKeepsKeys(accounts: Accounts, facts: seq<Fact>, inj: Injections)
    ensures AttributeAll(accounts, facts, inj).Keys == accounts.Keys
    decreases |facts|
  {
    if facts != [] { AttributeKeepsKeys(accounts, facts[..|facts| - 1], inj); }
  }

  lemma HitStep(a: Account, all: Totals, c: Totals, extra: nat, late: Totals, f: Fact, inj: Injections, k: Bucket)
    requires a == Account(all, c, extra, late.events) && f.measure.events == 1
    ensures (if f.bucket == k then a.Hit(f, inj) else a)
         == Account(all, c.Plus(Term(f, k, inj.corrupt)),
              extra + (if f.bucket == k && f.id in inj.duplicated then inj.duplicated[f.id] else 0),
              late.Plus(Term(f, k, inj.late)).events)
  {
    PlusZero(c);
    PlusZero(late);
  }

  /** The second pass adds each measure of what was corrupted, and the late events and extra copies. */
  lemma {:induction false} AttributeAllIsSums(accounts: Accounts, facts: seq<Fact>, inj: Injections, k: Bucket)
    requires Covered(accounts, facts) && OneEventEach(facts)
    requires k in accounts && accounts[k] == Account(accounts[k].all, ZERO, 0, 0)
    ensures k in AttributeAll(accounts, facts, inj)
    ensures AttributeAll(accounts, facts, inj)[k]
         == Account(accounts[k].all, Sum(facts, k, inj.corrupt), ExtraCopies(facts, k, inj.duplicated), Sum(facts, k, inj.late).events)
    decreases |facts|
  {
    if facts != [] {
      var n := |facts| - 1;
      var before, f := facts[..n], facts[n];
      AttributeAllIsSums(accounts, before, inj, k);
      AttributeKeepsKeys(accounts, before, inj);
      assert f.bucket in accounts && f.measure.events == 1;
      HitStep(AttributeAll(accounts, before, inj)[k], accounts[k].all, Sum(before, k, inj.corrupt),
        ExtraCopies(before, k, inj.duplicated), Sum(before, k, inj.late), f, inj, k);
    }
  }

  /** Both passes together give the declarative manifest: per key, filters and sums over the stream. */
  lemma PassesAreManifest(s: seq<EventValue>, inj: Injections, k: Bucket)
    ensures var facts := Facts(s);
            var accounts := AttributeAll(CountAll(facts), facts, inj);
            && (k in accounts <==> k in Buckets(facts))
            && (k in accounts ==> accounts[k].Row() == ManifestRow(facts, inj, k))
  {
    var facts := Facts(s);
    CountAllCovers(facts);
    FactsAreProper(s);
    CountAllIsSums(facts, k);
    AttributeKeepsKeys(CountAll(facts), facts, inj);
    if k in CountAll(facts) {
      AttributeAllIsSums(CountAll(facts), facts, inj, k);
    }
  }

  lemma CountAllCovers(facts: seq<Fact>)
    ensures Covered(CountAll(facts), facts)
  {
    forall i | 0 <= i < |facts| ensures facts[i].bucket in CountAll(facts) {
      CountAllIsSums(facts, facts[i].bucket);
    }
  }

  // ---- the passes on objects ----

  type Dictionary = map<Bucket, WindowManifest>

  /** The bucket objects hold these accounts. Keys are fixed, so no object serves two keys. */
  ghost predicate Matches(buckets: Dictionary, accounts: Accounts)
    reads buckets.Values
  {
    && buckets.Keys == accounts.Keys
    && forall k :: k in buckets ==> buckets[k].Key() == k && buckets[k].Row() == accounts[k].Row()
  }

  /** The ids of the events in bucket k, in stream order. */
  function IdsIn(facts: seq<Fact>, k: Bucket): seq<string>
  {
    if facts == [] then []
    else
      var f := facts[|facts| - 1];
      IdsIn(facts[..|facts| - 1], k) + if f.bucket == k then [f.id] else []
  }

  method BucketFor(buckets: Dictionary, key: Bucket, ghost accounts: Accounts)
    returns (next: Dictionary, manifest: WindowManifest, ghost grown: Accounts)
    requires Matches(buckets, accounts)
    ensures grown == (if key in accounts then accounts else accounts[key := NO_ACCOUNT])
    ensures Matches(next, grown) && key in next && next[key] == manifest
    ensures next == buckets[key := manifest] && if key in buckets then manifest == buckets[key] else fresh(manifest)
  {
    if key in buckets {
      manifest := buckets[key];
      grown := accounts;
    } else {
      manifest := new WindowManifest(key);
      grown := accounts[key := NO_ACCOUNT];
    }
    next := buckets[key := manifest];
  }

  lemma CountedRows(accounts: Accounts, grown: Accounts, f: Fact)
    requires grown == if f.bucket in accounts then accounts else accounts[f.bucket := NO_ACCOUNT]
    ensures Counted(accounts, f).Keys == grown.Keys
    ensures Counted(accounts, f)[f.bucket].Row() == AddMeasure(grown[f.bucket].Row(), f.measure)
    ensures forall k :: k in grown && k != f.bucket ==> Counted(accounts, f)[k] == grown[k]
  {
    RowPlus(grown[f.bucket], f);
  }

  /** The event is counted in its bucket, which is there by now. */
  method CountInto(buckets: Dictionary, manifest: WindowManifest, e: EventValue, ghost accounts: Accounts, ghost grown: Accounts)
    requires grown == if BucketOf(e) in accounts then accounts else accounts[BucketOf(e) := NO_ACCOUNT]
    requires Matches(buckets, grown) && BucketOf(e) in buckets && buckets[BucketOf(e)] == manifest
    modifies manifest
    ensures Matches(buckets, Counted(accounts, FactOf(e)))
  {
    CountedRows(accounts, grown, FactOf(e));
    manifest.Count(e);
  }

  method CountEvent(buckets: Dictionary, e: EventValue, ghost accounts: Accounts) returns (next: Dictionary)
    requires Matches(buckets, accounts)
    modifies buckets.Values
    ensures Matches(next, Counted(accounts, FactOf(e)))
    ensures forall b :: b in next.Values ==> b in buckets.Values || fresh(b)
  {
    var manifest;
    ghost var grown;
    next, manifest, grown := BucketFor(buckets, BucketOf(e), accounts);
    assert BucketOf(e) in buckets ==> manifest in buckets.Values;
    CountInto(next, manifest, e, accounts, grown);
  }

  /** The ids seen so far by bucket, and the buckets in order of appearance. */
  ghost predicate Indexed(order: seq<Bucket>, ids: map<Bucket, seq<string>>, facts: seq<Fact>)
  {
    Listed(order, ids, facts) && IdsAre(ids, facts)
  }

  ghost predicate Listed(order: seq<Bucket>, ids: map<Bucket, seq<string>>, facts: seq<Fact>)
  {
    Lists(order, ids.Keys) && ids.Keys == CountAll(facts).Keys
  }

  ghost predicate IdsAre(ids: map<Bucket, seq<string>>, facts: seq<Fact>)
  {
    forall k :: IdsIn(facts, k) == if k in ids then ids[k] else []
  }

  lemma IdsStep(ids: map<Bucket, seq<string>>, facts: seq<Fact>, f: Fact)
    requires IdsAre(ids, facts)
    ensures IdsAre(ids[f.bucket := (if f.bucket in ids then ids[f.bucket] else []) + [f.id]], facts + [f])
  {
    var next := ids[f.bucket := (if f.bucket in ids then ids[f.bucket] else []) + [f.id]];
    forall k ensures IdsIn(facts + [f], k) == if k in next then next[k] else [] {
      IdsInSnoc(facts, f, k);
    }
  }

  lemma IdsInSnoc(facts: seq<Fact>, f: Fact, k: Bucket)
    ensures IdsIn(facts + [f], k) == IdsIn(facts, k) + if f.bucket == k then [f.id] else []
  {
    assert (facts + [f])[..|facts|] == facts;
  }

  lemma KeysStep(facts: seq<Fact>, f: Fact)
    ensures CountAll(facts + [f]).Keys == CountAll(facts).Keys + {f.bucket}
  {
    CountAllSnoc(facts, f);
  }

  lemma ListsStep<T(!new)>(order: seq<T>, keys: set<T>, x: T)
    requires Lists(order, keys)
    ensures Lists(if x in keys then order else order + [x], keys + {x})
  {
    if x in keys {
      assert keys + {x} == keys;
    } else {
      var longer := order + [x];
      forall y ensures y in longer <==> y in keys + {x} {}
    }
  }

  lemma IndexedStep(order: seq<Bucket>, ids: map<Bucket, seq<string>>, facts: seq<Fact>, f: Fact)
    requires Indexed(order, ids, facts)
    ensures Indexed(if f.bucket in ids then order else order + [f.bucket],
              ids[f.bucket := (if f.bucket in ids then ids[f.bucket] else []) + [f.id]], facts + [f])
  {
    var next := ids[f.bucket := (if f.bucket in ids then ids[f.bucket] else []) + [f.id]];
    ListedStep(order, ids, facts, f, next);
    IdsStep(ids, facts, f);
  }

  lemma ListedStep(order: seq<Bucket>, ids: map<Bucket, seq<string>>, facts: seq<Fact>, f: Fact, next: map<Bucket, seq<string>>)
    requires Listed(order, ids, facts) && next.Keys == ids.Keys + {f.bucket}
    ensures Listed(if f.bucket in ids then order else order + [f.bucket], next, facts + [f])
  {
    KeysStep(facts, f);
    ListsStep(order, ids.Keys, f.bucket);
  }

  lemma TakeSnoc<T>(s: seq<T>, i: nat)
    requires i < |s|
    ensures s[..i + 1] == s[..i] + [s[i]]
  {
  }

  /** One turn of the first loop. */
  method CountStep(buckets: Dictionary, order: seq<Bucket>, ids: map<Bucket, seq<string>>, e: EventValue, ghost done: seq<Fact>)
    returns (next: Dictionary, order': seq<Bucket>, ids': map<Bucket, seq<string>>)
    requires Matches(buckets, CountAll(done)) && Indexed(order, ids, done)
    modifies buckets.Values
    ensures Matches(next, CountAll(done + [FactOf(e)])) && Indexed(order', ids', done + [FactOf(e)])
    ensures forall b :: b in next.Values ==> b in buckets.Values || fresh(b)
  {
    IndexedStep(order, ids, done, FactOf(e));
    CountAllSnoc(done, FactOf(e));
    var key := BucketOf(e);
    next := CountEvent(buckets, e, CountAll(done));
    order' := if key in ids then order else order + [key];
    ids' := ids[key := (if key in ids then ids[key] else []) + [e.id]];
  }

  /** The first loop: every event counted in its bucket, its id remembered there. */
  method CountPass(events: seq<EventValue>)
    returns (buckets: Dictionary, order: seq<Bucket>, ids: map<Bucket, seq<string>>)
    ensures Matches(buckets, CountAll(Facts(events))) && fresh(buckets.Values)
    ensures Indexed(order, ids, Facts(events))
  {
    buckets, order, ids := map[], [], map[];
    ghost var facts, done := Facts(events), [];
    for i := 0 to |events|
      invariant done == facts[..i] && Matches(buckets, CountAll(done)) && fresh(buckets.Values)
      invariant Indexed(order, ids, done)
    {
      TakeSnoc(facts, i);
      buckets, order, ids := CountStep(buckets, order, ids, events[i], done);
      done := done + [facts[i]];
    }
    assert facts[..|events|] == facts;
  }

  /** One turn of the second loop. */
  method ChecksumStep(buckets: Dictionary, key: Bucket, manifest: WindowManifest, ids: seq<string>, hash: string -> string,
                      ghost accounts: Accounts)
    requires Matches(buckets, accounts) && key in buckets && buckets[key] == manifest
    modifies manifest`eventIdChecksum
    ensures Matches(buckets, accounts) && manifest.eventIdChecksum == hash(Preimage(ids))
    ensures forall k :: k in buckets && k != key ==> buckets[k].eventIdChecksum == old(buckets[k].eventIdChecksum)
  {
    var checksum := ChecksumEventIds(ids, hash);
    manifest.eventIdChecksum := checksum;
  }

  lemma LeftShrinks(order: seq<Bucket>, i: nat, left: set<Bucket>)
    requires i < |order| && Distinct(order) && forall k :: k in left <==> k in order[i..]
    ensures order[i] in order && forall k :: k in left - {order[i]} <==> k in order[i + 1..]
  {
    var rest := order[i + 1..];
    assert order[i..] == [order[i]] + rest;
    assert forall j :: 0 <= j < |rest| ==> rest[j] == order[i + 1 + j];
  }

  /** The second loop: a checksum for every bucket. */
  method ChecksumPass(buckets: Dictionary, order: seq<Bucket>, ids: map<Bucket, seq<string>>, hash: string -> string,
                      ghost accounts: Accounts)
    requires Matches(buckets, accounts) && Lists(order, buckets.Keys) && ids.Keys == buckets.Keys
    modifies buckets.Values
    ensures Matches(buckets, accounts)
    ensures forall k :: k in buckets ==> buckets[k].eventIdChecksum == hash(Preimage(ids[k]))
  {
    ghost var left := buckets.Keys;
    for i := 0 to |order|
      invariant Matches(buckets, accounts)
      invariant left <= buckets.Keys && forall k :: k in left <==> k in order[i..]
      invariant forall k :: k in buckets && k !in left ==> buckets[k].eventIdChecksum == hash(Preimage(ids[k]))
    {
      var key := order[i];
      LeftShrinks(order, i, left);
      assert buckets[key] in buckets.Values;
      ChecksumStep(buckets, key, buckets[key], ids[key], hash, accounts);
      left := left - {key};
    }
  }

  /** One turn of the third loop. */
  method AttributeStep(buckets: Dictionary, e: EventValue, inj: Injections, ghost now: Accounts)
    requires Matches(buckets, now) && BucketOf(e) in now
    modifies buckets.Values
    ensures Matches(buckets, Attributed(now, FactOf(e), inj))
    ensures forall k :: k in buckets ==> buckets[k].eventIdChecksum == old(buckets[k].eventIdChecksum)
  {
    var key := BucketOf(e);
    if key in buckets {
      assert buckets[key] in buckets.Values;
      RowHit(now[key], FactOf(e), inj);
      buckets[key].Attribute(e, inj);
    }
  }

  /** The third loop: each injected disorder attributed to the window of the event it hit. */
  method AttributePass(buckets: Dictionary, events: seq<EventValue>, inj: Injections, ghost accounts: Accounts)
    requires Matches(buckets, accounts) && Covered(accounts, Facts(events))
    modifies buckets.Values
    ensures Matches(buckets, AttributeAll(accounts, Facts(events), inj))
    ensures forall k :: k in buckets ==> buckets[k].eventIdChecksum == old(buckets[k].eventIdChecksum)
  {
    ghost var facts, done := Facts(events), [];
    for i := 0 to |events|
      invariant done == facts[..i] && Matches(buckets, AttributeAll(accounts, done, inj))
      invariant forall k :: k in buckets ==> buckets[k].eventIdChecksum == old(buckets[k].eventIdChecksum)
    {
      TakeSnoc(facts, i);
      AttributeKeepsKeys(accounts, done, inj);
      AttributeAllSnoc(accounts, done, facts[i], inj);
      AttributeStep(buckets, events[i], inj, AttributeAll(accounts, done, inj));
      done := done + [facts[i]];
    }
    assert facts[..|events|] == facts;
  }

  lemma AttributeAllSnoc(accounts: Accounts, facts: seq<Fact>, f: Fact, inj: Injections)
    ensures AttributeAll(accounts, facts + [f], inj) == Attributed(AttributeAll(accounts, facts, inj), f, inj)
  {
    assert (facts + [f])[..|facts|] == facts;
  }

  const NO_INJECTIONS := Injections({}, {}, map[])

  lemma {:induction false} NothingInjected(facts: seq<Fact>, k: Bucket)
    ensures ExtraCopies(facts, k, map[]) == 0
    decreases |facts|
  {
    if facts != [] { NothingInjected(facts[..|facts| - 1], k); }
  }

  /** Without injections the counting pass alone is the manifest. */
  lemma CountsAreManifest(facts: seq<Fact>, k: Bucket)
    requires k in CountAll(facts)
    ensures CountAll(facts)[k].Row() == ManifestRow(facts, NO_INJECTIONS, k)
  {
    CountAllIsSums(facts, k);
    SumOfNoIds(facts, k);
    NothingInjected(facts, k);
  }

  /** The finished rows, whether or not injections are attributed. */
  ghost predicate Truthful(buckets: Dictionary, facts: seq<Fact>, inj: Injections)
    reads buckets.Values
  {
    && buckets.Keys == Buckets(facts)
    && forall k :: k in buckets ==> buckets[k].Key() == k && buckets[k].Row() == ManifestRow(facts, inj, k)
  }

  lemma CountedIsTruthful(buckets: Dictionary, facts: seq<Fact>)
    requires Matches(buckets, CountAll(facts))
    ensures Truthful(buckets, facts, NO_INJECTIONS)
  {
    forall k ensures k in buckets <==> k in Buckets(facts) {
      CountAllIsSums(facts, k);
    }
    forall k | k in buckets ensures buckets[k].Row() == ManifestRow(facts, NO_INJECTIONS, k) {
      CountsAreManifest(facts, k);
    }
  }

  lemma AttributedIsTruthful(buckets: Dictionary, s: seq<EventValue>, inj: Injections)
    requires Matches(buckets, AttributeAll(CountAll(Facts(s)), Facts(s), inj))
    ensures Truthful(buckets, Facts(s), inj)
  {
    forall k ensures (k in buckets <==> k in Buckets(Facts(s)))
                  && (k in buckets ==> buckets[k].Row() == ManifestRow(Facts(s), inj, k)) {
      PassesAreManifest(s, inj, k);
    }
  }

  /** A finished bucket: the declarative row of its key, and the checksum of its ids. */
  ghost predicate Sealed(m: WindowManifest, k: Bucket, facts: seq<Fact>, inj: Injections, hash: string -> string)
    reads m
  {
    m.Key() == k && m.Row() == ManifestRow(facts, inj, k) && m.eventIdChecksum == hash(Preimage(IdsIn(facts, k)))
  }

  /** No injections at all, when none are given. */
  function InjectionsOf(injections: Option<Injections>): Injections
  {
    if injections.Some? then injections.value else NO_INJECTIONS
  }

  /** The three loops. */
  method FillBuckets(events: seq<EventValue>, injections: Option<Injections>, hash: string -> string)
    returns (buckets: Dictionary, order: seq<Bucket>)
    ensures Lists(order, buckets.Keys) && buckets.Keys == Buckets(Facts(events))
    ensures forall k :: k in buckets ==> Sealed(buckets[k], k, Facts(events), InjectionsOf(injections), hash)
  {
    var ids;
    buckets, order, ids := CountPass(events);
    ghost var facts := Facts(events);
    ChecksumPass(buckets, order, ids, hash, CountAll(facts));
    if injections.Some? {
      CountAllCovers(facts);
      AttributePass(buckets, events, injections.value, CountAll(facts));
      AttributedIsTruthful(buckets, events, injections.value);
    } else {
      CountedIsTruthful(buckets, facts);
    }
  }

  function KeysOf(manifests: seq<WindowManifest>): (r: seq<Bucket>)
    ensures |r| == |manifests| && forall i :: 0 <= i < |r| ==> r[i] == manifests[i].Key()
  {
    seq(|manifests|, i requires 0 <= i < |manifests| => manifests[i].Key())
  }

  /** The dictionary's values in the order of these keys. */
  method Collect(buckets: Dictionary, keys: seq<Bucket>) returns (manifests: seq<WindowManifest>)
    requires Lists(keys, buckets.Keys) && forall k :: k in buckets ==> buckets[k].Key() == k
    ensures KeysOf(manifests) == keys && forall i :: 0 <= i < |keys| ==> keys[i] in buckets && manifests[i] == buckets[keys[i]]
  {
    assert forall i :: 0 <= i < |keys| ==> keys[i] in keys && keys[i] in buckets;
    manifests := seq(|keys|, i requires 0 <= i < |keys| => buckets[keys[i]]);
  }

  lemma SortedKeys(order: seq<Bucket>, keys: set<Bucket>)
    requires Lists(order, keys)
    ensures Sorted(BucketLe, Sort(BucketLe, order)) && Lists(Sort(BucketLe, order), keys)
  {
    BucketLeIsTotalOrder();
    SortSorts(BucketLe, order);
    SortLists(BucketLe, order, keys);
  }

  /**
   * `build_manifest`: one object for each window and machine with any event, strictly in key order, holding exactly the
   * declarative row and the checksum of that bucket's ids.
   */
  method BuildManifest(events: seq<EventValue>, injections: Option<Injections>, hash: string -> string)
    returns (manifests: seq<WindowManifest>)
    ensures Sorted(BucketLe, KeysOf(manifests)) && Lists(KeysOf(manifests), Buckets(Facts(events)))
    ensures forall i :: 0 <= i < |manifests| ==>
              Sealed(manifests[i], KeysOf(manifests)[i], Facts(events), InjectionsOf(injections), hash)
  {
    var buckets, order := FillBuckets(events, injections, hash);
    SortedKeys(order, buckets.Keys);
    manifests := Collect(buckets, Sort(BucketLe, order));
  }
}
