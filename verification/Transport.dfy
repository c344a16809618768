/** What reaches the broker, against the canonical stream: conservation of copies, and raw bronze per window. */
module Transport {
  import opened Events
  import opened Measures

  /** One broker record: the copy it was made from, and whether its payload was then replaced by garbage. */
  datatype Published = Published(copy: EventValue, corrupted: bool)

  /** The records made from event `id` in the given condition. */
  function Copies(records: seq<Published>, id: string, corrupted: bool): nat
  {
    if records == [] then 0
    else
      var r := records[|records| - 1];
      Copies(records[..|records| - 1], id, corrupted) + (if r.copy.id == id && r.corrupted == corrupted then 1 else 0)
  }

  function Extra(duplicated: map<string, nat>, id: string): nat
  {
    if id in duplicated then duplicated[id] else 0
  }

  /** Every record is a copy of a canonical event, each event has one copy and its logged extras, and the log names exactly the ids with a corrupted copy. */
  ghost predicate Transported(canonical: seq<EventValue>, records: seq<Published>, duplicated: map<string, nat>, corrupt: set<string>)
  {
    && FromCanonical(canonical, records)
    && (forall i :: 0 <= i < |canonical| ==>
          Copies(records, canonical[i].id, true) + Copies(records, canonical[i].id, false) == 1 + Extra(duplicated, canonical[i].id))
    && (forall id :: id in corrupt <==> Copies(records, id, true) > 0)
  }

  /** Records of one condition whose event falls in bucket k: raw bronze rows when clean, quarantined rows when corrupted. */
  function Landed(records: seq<Published>, k: Bucket, corrupted: bool): nat
  {
    if records == [] then 0
    else
      var r := records[|records| - 1];
      Landed(records[..|records| - 1], k, corrupted)
      + (if BucketOf(r.copy) == k && r.corrupted == corrupted then 1 else 0)
  }

  /** The same rows counted the other way: for each event of the bucket, its copies. */
  function CopiesIn(facts: seq<Fact>, k: Bucket, records: seq<Published>, corrupted: bool): nat
  {
    if facts == [] then 0
    else
      var f := facts[|facts| - 1];
      CopiesIn(facts[..|facts| - 1], k, records, corrupted) + (if f.bucket == k then Copies(records, f.id, corrupted) else 0)
  }

  ghost predicate HasFact(facts: seq<Fact>, id: string, k: Bucket)
  {
    exists i :: 0 <= i < |facts| && facts[i].id == id && facts[i].bucket == k
  }

  lemma CopiesSnoc(records: seq<Published>, r: Published, id: string, corrupted: bool)
    ensures Copies(records + [r], id, corrupted)
         == Copies(records, id, corrupted) + (if r.copy.id == id && r.corrupted == corrupted then 1 else 0)
  {
    assert (records + [r])[..|records|] == records;
  }

  lemma CopiesInSnoc(facts: seq<Fact>, f: Fact, k: Bucket, records: seq<Published>, corrupted: bool)
    ensures CopiesIn(facts + [f], k, records, corrupted)
         == CopiesIn(facts, k, records, corrupted) + (if f.bucket == k then Copies(records, f.id, corrupted) else 0)
  {
    assert (facts + [f])[..|facts|] == facts;
  }

  lemma HasFactSnoc(facts: seq<Fact>, f: Fact, id: string, k: Bucket)
    ensures HasFact(facts + [f], id, k) <==> HasFact(facts, id, k) || (f.id == id && f.bucket == k)
  {
    var s := facts + [f];
    if HasFact(facts, id, k) {
      var i :| 0 <= i < |facts| && facts[i].id == id && facts[i].bucket == k;
      assert s[i] == facts[i];
    }
    assert s[|facts|] == f;
  }

  lemma {:induction false} NoCopiesWithoutRecords(facts: seq<Fact>, k: Bucket, corrupted: bool)
    ensures CopiesIn(facts, k, [], corrupted) == 0
    decreases |facts|
  {
    if facts != [] { NoCopiesWithoutRecords(facts[..|facts| - 1], k, corrupted); }
  }

  /** One more record is one more copy of the one event that bears its id. */
  lemma {:induction false} OneMoreRecord(facts: seq<Fact>, k: Bucket, records: seq<Published>, r: Published, corrupted: bool)
    requires UniqueIds(facts)
    ensures CopiesIn(facts, k, records + [r], corrupted)
         == CopiesIn(facts, k, records, corrupted) + (if r.corrupted == corrupted && HasFact(facts, r.copy.id, k) then 1 else 0)
    decreases |facts|
  {
    if facts != [] {
      var n := |facts| - 1;
      UniquePrefix(facts, n);
      OneMoreRecord(facts[..n], k, records, r, corrupted);
      LastFactOnly(facts, r.copy.id, k);
      assert facts == facts[..n] + [facts[n]];
      OneMoreRecordStep(facts[..n], facts[n], k, records, r, corrupted);
    }
  }

  lemma LastFactOnly(facts: seq<Fact>, id: string, k: Bucket)
    requires UniqueIds(facts) && facts != []
    ensures facts[|facts| - 1].id == id ==> !HasFact(facts[..|facts| - 1], id, k)
  {
  }

  lemma OneMoreRecordStep(rest: seq<Fact>, f: Fact, k: Bucket, records: seq<Published>, r: Published, corrupted: bool)
    requires f.id == r.copy.id ==> !HasFact(rest, r.copy.id, k)
    requires CopiesIn(rest, k, records + [r], corrupted)
          == CopiesIn(rest, k, records, corrupted) + (if r.corrupted == corrupted && HasFact(rest, r.copy.id, k) then 1 else 0)
    ensures CopiesIn(rest + [f], k, records + [r], corrupted)
         == CopiesIn(rest + [f], k, records, corrupted)
            + (if r.corrupted == corrupted && HasFact(rest + [f], r.copy.id, k) then 1 else 0)
  {
    CopiesInSnoc(rest, f, k, records, corrupted);
    CopiesInSnoc(rest, f, k, records + [r], corrupted);
    CopiesSnoc(records, r, f.id, corrupted);
    HasFactSnoc(rest, f, r.copy.id, k);
  }

  /** A copy falls where its event falls. */
  lemma CopyHasItsFact(canonical: seq<EventValue>, r: Published, k: Bucket)
    requires UniqueIds(Facts(canonical)) && CopyOfSome(canonical, r.copy)
    ensures HasFact(Facts(canonical), r.copy.id, k) <==> BucketOf(r.copy) == k
  {
    var c :| c in canonical && SameButPublish(r.copy, c);
    var j :| 0 <= j < |canonical| && canonical[j] == c;
    var facts := Facts(canonical);
    assert facts[j].id == r.copy.id && facts[j].bucket == BucketOf(r.copy);
  }

  ghost predicate FromCanonical(canonical: seq<EventValue>, records: seq<Published>)
  {
    forall i :: 0 <= i < |records| ==> CopyOfSome(canonical, records[i].copy)
  }

  /** Counting the records of a window is counting, event by event, the copies of its events. */
  lemma {:induction false} LandedIsCopies(canonical: seq<EventValue>, records: seq<Published>, k: Bucket, corrupted: bool)
    requires UniqueIds(Facts(canonical)) && FromCanonical(canonical, records)
    ensures Landed(records, k, corrupted) == CopiesIn(Facts(canonical), k, records, corrupted)
    decreases |records|
  {
    if records == [] {
      NoCopiesWithoutRecords(Facts(canonical), k, corrupted);
    } else {
      var n := |records| - 1;
      LandedIsCopies(canonical, records[..n], k, corrupted);
      CopyHasItsFact(canonical, records[n], k);
      OneMoreRecord(Facts(canonical), k, records[..n], records[n], corrupted);
      assert records == records[..n] + [records[n]];
    }
  }

  /** Corrupted copies beyond the first of each event of the bucket. */
  function RepeatCorruptions(facts: seq<Fact>, k: Bucket, records: seq<Published>): nat
  {
    if facts == [] then 0
    else
      var f := facts[|facts| - 1];
      var c := Copies(records, f.id, true);
      RepeatCorruptions(facts[..|facts| - 1], k, records) + (if f.bucket == k && c > 0 then c - 1 else 0)
  }

  ghost predicate CopiesAddUp(facts: seq<Fact>, records: seq<Published>, duplicated: map<string, nat>, corrupt: set<string>)
  {
    && OneEventEach(facts)
    && (forall i :: 0 <= i < |facts| ==>
          Copies(records, facts[i].id, true) + Copies(records, facts[i].id, false) == 1 + Extra(duplicated, facts[i].id))
    && (forall i :: 0 <= i < |facts| ==> (facts[i].id in corrupt <==> Copies(records, facts[i].id, true) > 0))
  }

  lemma {:induction false} WindowAccounting(
    facts: seq<Fact>, k: Bucket, records: seq<Published>, duplicated: map<string, nat>, corrupt: set<string>, ids: set<string>)
    requires CopiesAddUp(facts, records, duplicated, corrupt)
    requires forall i :: 0 <= i < |facts| ==> facts[i].id in ids
    ensures CopiesIn(facts, k, records, true) + CopiesIn(facts, k, records, false)
         == Sum(facts, k, ids).events + ExtraCopies(facts, k, duplicated)
    ensures CopiesIn(facts, k, records, true) == Sum(facts, k, corrupt).events + RepeatCorruptions(facts, k, records)
    decreases |facts|
  {
    if facts != [] {
      var n := |facts| - 1;
      WindowAccounting(facts[..n], k, records, duplicated, corrupt, ids);
      assert facts[n].measure.events == 1;
    }
  }

  lemma {:induction false} RepeatsIff(facts: seq<Fact>, k: Bucket, records: seq<Published>)
    ensures RepeatCorruptions(facts, k, records) == 0 <==>
            (forall i :: 0 <= i < |facts| && facts[i].bucket == k ==> Copies(records, facts[i].id, true) <= 1)
    decreases |facts|
  {
    if facts != [] {
      var n := |facts| - 1;
      RepeatsIff(facts[..n], k, records);
      assert forall i :: 0 <= i < n ==> facts[..n][i] == facts[i];
    }
  }

  lemma TransportedFacts(canonical: seq<EventValue>, records: seq<Published>, duplicated: map<string, nat>, corrupt: set<string>)
    requires Transported(canonical, records, duplicated, corrupt)
    ensures CopiesAddUp(Facts(canonical), records, duplicated, corrupt)
  {
    var facts := Facts(canonical);
    forall i | 0 <= i < |facts|
      ensures facts[i].measure.events == 1 && facts[i].id == canonical[i].id
    {
      MeasureWellTyped(canonical[i]);
    }
  }

  /** Conservation, window by window: rows that parse plus rows quarantined are the window's events plus their extra copies. */
  lemma CopiesConserved(
    canonical: seq<EventValue>, records: seq<Published>, duplicated: map<string, nat>, corrupt: set<string>, k: Bucket)
    requires UniqueIds(Facts(canonical)) && Transported(canonical, records, duplicated, corrupt)
    ensures var facts := Facts(canonical);
            Landed(records, k, false) + Landed(records, k, true)
            == Sum(facts, k, Ids(facts)).events + ExtraCopies(facts, k, duplicated)
  {
    TransportedFacts(canonical, records, duplicated, corrupt);
    LandedIsCopies(canonical, records, k, false);
    LandedIsCopies(canonical, records, k, true);
    WindowAccounting(Facts(canonical), k, records, duplicated, corrupt, Ids(Facts(canonical)));
  }

  function DocumentedOf(facts: seq<Fact>, duplicated: map<string, nat>, corrupt: set<string>, k: Bucket): int
  {
    Sum(facts, k, Ids(facts)).events - Sum(facts, k, corrupt).events + ExtraCopies(facts, k, duplicated)
  }

  /** What the documentation says raw bronze holds of the window. */
  function Documented(canonical: seq<EventValue>, duplicated: map<string, nat>, corrupt: set<string>, k: Bucket): int
  {
    DocumentedOf(Facts(canonical), duplicated, corrupt, k)
  }

  /**
   * The documented identity `raw bronze = event_count - corrupt_count + duplicate_extra_count` holds in a window exactly
   * when no event of the window had two copies corrupted; otherwise raw bronze falls short by the repeats.
   */
  lemma RawBronzeIdentityIff(
    canonical: seq<EventValue>, records: seq<Published>, duplicated: map<string, nat>, corrupt: set<string>, k: Bucket)
    requires UniqueIds(Facts(canonical)) && Transported(canonical, records, duplicated, corrupt)
    ensures var facts := Facts(canonical);
            var documented := Documented(canonical, duplicated, corrupt, k);
            && Landed(records, k, false) == documented - RepeatCorruptions(facts, k, records)
            && (Landed(records, k, false) == documented <==>
                  forall i :: 0 <= i < |canonical| && BucketOf(canonical[i]) == k ==> Copies(records, canonical[i].id, true) <= 1)
  {
    var facts := Facts(canonical);
    TransportedFacts(canonical, records, duplicated, corrupt);
    LandedIsCopies(canonical, records, k, false);
    LandedIsCopies(canonical, records, k, true);
    WindowAccounting(facts, k, records, duplicated, corrupt, Ids(facts));
    RepeatsIff(facts, k, records);
    assert forall i :: 0 <= i < |canonical| ==> facts[i].id == canonical[i].id && facts[i].bucket == BucketOf(canonical[i]);
  }

  // ---- one event and its copies ----

  /** One event, published once for each flag; the flag says whether that copy was hit. */
  function CopiesOf(event: EventValue, hits: seq<bool>): (r: seq<Published>)
    ensures |r| == |hits| && forall i :: 0 <= i < |hits| ==> r[i] == Published(event, hits[i])
  {
    seq(|hits|, i requires 0 <= i < |hits| => Published(event, hits[i]))
  }

  function RetriesOf(event: EventValue, hits: seq<bool>): map<string, nat>
  {
    if |hits| < 2 then map[] else map[event.id := |hits| - 1]
  }

  function HitIdsOf(event: EventValue, hits: seq<bool>): set<string>
  {
    if true in hits then {event.id} else {}
  }

  lemma {:induction false} CopiesAreFlags(event: EventValue, hits: seq<bool>)
    ensures var records := CopiesOf(event, hits);
            && Copies(records, event.id, true) + Copies(records, event.id, false) == |hits|
            && (Copies(records, event.id, true) > 0 <==> true in hits)
            && (forall id, corrupted: bool :: id != event.id ==> Copies(records, id, corrupted) == 0)
    decreases |hits|
  {
    if hits != [] {
      var n := |hits| - 1;
      CopiesAreFlags(event, hits[..n]);
      assert hits == hits[..n] + [hits[n]];
      assert CopiesOf(event, hits)[..n] == CopiesOf(event, hits[..n]);
    }
  }

  /** Any event, with any number of copies and any of them hit, is a stream that may reach the broker. */
  lemma OneEventTransported(event: EventValue, hits: seq<bool>)
    requires hits != []
    ensures UniqueIds(Facts([event])) && Transported([event], CopiesOf(event, hits), RetriesOf(event, hits), HitIdsOf(event, hits))
  {
    var records := CopiesOf(event, hits);
    CopiesAreFlags(event, hits);
    forall i | 0 <= i < |records| ensures CopyOfSome([event], records[i].copy) {
      assert event in [event] && SameButPublish(records[i].copy, event);
    }
  }

  lemma OneFactSum(f: Fact, k: Bucket, ids: set<string>)
    ensures Sum([f], k, ids) == ZERO.Plus(Term(f, k, ids))
  {
    var s := [f];
    assert s[..|s| - 1] == [];
    assert s[|s| - 1] == f;
  }

  lemma OneFactExtra(f: Fact, duplicated: map<string, nat>)
    ensures ExtraCopies([f], f.bucket, duplicated) == Extra(duplicated, f.id)
  {
    var s := [f];
    assert s[..0] == [];
    assert ExtraCopies(s[..0], f.bucket, duplicated) == 0;
  }

  lemma OneFactDocumented(f: Fact, duplicated: map<string, nat>, corrupt: set<string>)
    ensures DocumentedOf([f], duplicated, corrupt, f.bucket)
         == f.measure.events - (if f.id in corrupt then f.measure.events else 0) + Extra(duplicated, f.id)
  {
    assert [f][0].id in Ids([f]);
    OneFactSum(f, f.bucket, Ids([f]));
    OneFactSum(f, f.bucket, corrupt);
    OneFactExtra(f, duplicated);
  }

  lemma OneEventDocumented(event: EventValue, duplicated: map<string, nat>, corrupt: set<string>)
    ensures Documented([event], duplicated, corrupt, BucketOf(event))
         == 1 - (if event.id in corrupt then 1 else 0) + Extra(duplicated, event.id)
  {
    assert Facts([event]) == [FactOf(event)];
    MeasureWellTyped(event);
    OneFactDocumented(FactOf(event), duplicated, corrupt);
  }

  /** The identity fails on any event retried once with both copies hit: raw bronze holds no row where it counts one. */
  lemma TwoHitsBreakIdentity(event: EventValue)
    ensures var canonical, records, k := [event], CopiesOf(event, [true, true]), BucketOf(event);
            var duplicated, corrupt := map[event.id := 1], {event.id};
            && UniqueIds(Facts(canonical)) && Transported(canonical, records, duplicated, corrupt)
            && Landed(records, k, false) == 0 && Documented(canonical, duplicated, corrupt, k) == 1
  {
    var hits := [true, true];
    OneEventTransported(event, hits);
    OneEventDocumented(event, map[event.id := 1], {event.id});
    assert Landed(CopiesOf(event, hits)[..1], BucketOf(event), false) == 0;
  }
}
