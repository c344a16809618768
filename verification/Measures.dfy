/**
 * Per-window, per-machine totals as one vector, and the algebra of adding them up over a stream: by bucket, by event
 * type, and over sets of ids.
 */
module Measures {
  import opened Events
  import opened Ordering
  import opened Windows

  /** The ledger's grain: an event-time window of one machine. */
  datatype Bucket = Bucket(window: int, machine: string)

  function BucketOf(e: EventValue): Bucket
  {
    Bucket(WindowStart(e.eventTime, WINDOW_MINUTES), e.machine)
  }

  datatype Totals = Totals(
    events: int, cycles: int, defects: int, stateChanges: int, scans: int, units: int, duration: real)
  {
    function Plus(t: Totals): Totals
    {
      Totals(events + t.events, cycles + t.cycles, defects + t.defects, stateChanges + t.stateChanges,
             scans + t.scans, units + t.units, duration + t.duration)
    }
  }

  const ZERO := Totals(0, 0, 0, 0, 0, 0, 0.0)

  /** What one event adds to its bucket. */
  function Measure(e: EventValue): Totals
  {
    match e.kind
    case Cycle =>
      var d := CycleDurationSeconds(e.payload);
      Totals(1, 1, 0, 0, 0, 1, if d.Some? then d.value else 0.0)
    case Defect => Totals(1, 0, 1, 0, 0, 0, 0.0)
    case StateChange => Totals(1, 0, 0, 1, 0, 0, 0.0)
    case OperatorScan => Totals(1, 0, 0, 0, 1, 0, 0.0)
  }

  /** What an aggregation sees of an event: its id, its bucket, and what it adds there. */
  datatype Fact = Fact(id: string, bucket: Bucket, measure: Totals)

  function FactOf(e: EventValue): Fact
  {
    Fact(e.id, BucketOf(e), Measure(e))
  }

  function Facts(s: seq<EventValue>): (r: seq<Fact>)
    ensures |r| == |s| && forall i :: 0 <= i < |s| ==> r[i] == FactOf(s[i])
  {
    seq(|s|, i requires 0 <= i < |s| => FactOf(s[i]))
  }

  predicate Counts(f: Fact, k: Bucket, ids: set<string>)
  {
    f.bucket == k && f.id in ids
  }

  function Term(f: Fact, k: Bucket, ids: set<string>): Totals
  {
    if Counts(f, k, ids) then f.measure else ZERO
  }

  /** The total measure of the facts that fall in bucket k and whose id is in ids. */
  function Sum(s: seq<Fact>, k: Bucket, ids: set<string>): Totals
  {
    if s == [] then ZERO else Sum(s[..|s| - 1], k, ids).Plus(Term(s[|s| - 1], k, ids))
  }

  function Ids(s: seq<Fact>): set<string>
  {
    set i | 0 <= i < |s| :: s[i].id
  }

  ghost predicate UniqueIds(s: seq<Fact>)
  {
    forall i, j :: 0 <= i < |s| && 0 <= j < |s| && s[i].id == s[j].id ==> i == j
  }

  /** Extra copies published of the events in bucket k. */
  function ExtraCopies(s: seq<Fact>, k: Bucket, duplicated: map<string, nat>): nat
  {
    if s == [] then 0
    else
      var f := s[|s| - 1];
      ExtraCopies(s[..|s| - 1], k, duplicated) + (if f.bucket == k && f.id in duplicated then duplicated[f.id] else 0)
  }

  lemma PlusSwap(a: Totals, b: Totals, c: Totals, d: Totals)
    ensures a.Plus(b).Plus(c.Plus(d)) == a.Plus(c).Plus(b.Plus(d))
  {
  }

  lemma PlusZero(a: Totals)
    ensures a.Plus(ZERO) == a && ZERO.Plus(a) == a
  {
  }

  lemma PlusComm(a: Totals, b: Totals, c: Totals)
    ensures a.Plus(b).Plus(c) == a.Plus(c).Plus(b)
  {
  }

  lemma SumSnoc(s: seq<Fact>, f: Fact, k: Bucket, ids: set<string>)
    ensures Sum(s + [f], k, ids) == Sum(s, k, ids).Plus(Term(f, k, ids))
  {
    assert (s + [f])[..|s|] == s;
  }

  lemma TermInclusionExclusion(f: Fact, k: Bucket, a: set<string>, b: set<string>)
    ensures Term(f, k, a).Plus(Term(f, k, b)) == Term(f, k, a + b).Plus(Term(f, k, a * b))
  {
  }

  /** Counting over two sets of ids is counting over their union and over their intersection. */
  lemma {:induction false} InclusionExclusion(s: seq<Fact>, k: Bucket, a: set<string>, b: set<string>)
    ensures Sum(s, k, a).Plus(Sum(s, k, b)) == Sum(s, k, a + b).Plus(Sum(s, k, a * b))
  {
    if s != [] {
      var rest, f := s[..|s| - 1], s[|s| - 1];
      InclusionExclusion(rest, k, a, b);
      TermInclusionExclusion(f, k, a, b);
      PlusSwap(Sum(rest, k, a), Term(f, k, a), Sum(rest, k, b), Term(f, k, b));
      PlusSwap(Sum(rest, k, a + b), Term(f, k, a + b), Sum(rest, k, a * b), Term(f, k, a * b));
    }
  }

  /** Only ids that occur matter. */
  lemma {:induction false} SumDependsOnOccurring(s: seq<Fact>, k: Bucket, a: set<string>, b: set<string>)
    requires forall i :: 0 <= i < |s| ==> (s[i].id in a <==> s[i].id in b)
    ensures Sum(s, k, a) == Sum(s, k, b)
  {
    if s != [] {
      SumDependsOnOccurring(s[..|s| - 1], k, a, b);
    }
  }

  lemma TermOneMore(f: Fact, g: Fact, k: Bucket, ids: set<string>)
    requires g.id !in ids
    ensures f.id != g.id ==> Term(f, k, ids + {g.id}) == Term(f, k, ids)
    ensures Term(g, k, ids) == ZERO && Term(g, k, ids + {g.id}) == Term(g, k, {g.id})
  {
  }

  lemma UniquePrefix(s: seq<Fact>, n: nat)
    requires UniqueIds(s) && n <= |s|
    ensures UniqueIds(s[..n])
  {
  }

  lemma LastIdAdds(rest: seq<Fact>, f: Fact, k: Bucket, ids: set<string>)
    requires f.id !in ids && forall i :: 0 <= i < |rest| ==> rest[i].id != f.id
    ensures Sum(rest + [f], k, ids + {f.id}) == Sum(rest + [f], k, ids).Plus(Term(f, k, {f.id}))
  {
    SumSnoc(rest, f, k, ids);
    SumSnoc(rest, f, k, ids + {f.id});
    SumDependsOnOccurring(rest, k, ids, ids + {f.id});
    TermOneMore(f, f, k, ids);
    PlusZero(Sum(rest, k, ids));
  }

  lemma EarlierIdAdds(rest: seq<Fact>, f: Fact, g: Fact, k: Bucket, ids: set<string>)
    requires g.id !in ids && f.id != g.id
    requires Sum(rest, k, ids + {g.id}) == Sum(rest, k, ids).Plus(Term(g, k, {g.id}))
    ensures Sum(rest + [f], k, ids + {g.id}) == Sum(rest + [f], k, ids).Plus(Term(g, k, {g.id}))
  {
    SumSnoc(rest, f, k, ids);
    SumSnoc(rest, f, k, ids + {g.id});
    TermOneMore(f, g, k, ids);
    PlusComm(Sum(rest, k, ids), Term(g, k, {g.id}), Term(f, k, ids));
  }

  /** One more id adds the measure of the one event that bears it. */
  lemma {:induction false} SumOneMore(s: seq<Fact>, k: Bucket, ids: set<string>, at: nat)
    requires UniqueIds(s) && at < |s| && s[at].id !in ids
    ensures Sum(s, k, ids + {s[at].id}) == Sum(s, k, ids).Plus(Term(s[at], k, {s[at].id}))
  {
    var n := |s| - 1;
    var rest, f := s[..n], s[n];
    assert s == rest + [f];
    UniquePrefix(s, n);
    if at == n {
      LastIdAdds(rest, f, k, ids);
    } else {
      SumOneMore(rest, k, ids, at);
      EarlierIdAdds(rest, f, s[at], k, ids);
    }
  }

  ghost predicate OneEventEach(s: seq<Fact>)
  {
    forall i :: 0 <= i < |s| ==> s[i].measure.events == 1
  }

  ghost predicate NothingCounts(s: seq<Fact>, k: Bucket, ids: set<string>)
  {
    forall i :: 0 <= i < |s| ==> !Counts(s[i], k, ids)
  }

  lemma NothingCountsSnoc(rest: seq<Fact>, f: Fact, k: Bucket, ids: set<string>)
    ensures NothingCounts(rest + [f], k, ids) <==> NothingCounts(rest, k, ids) && !Counts(f, k, ids)
  {
    var s := rest + [f];
    assert s[|rest|] == f;
    assert forall i | 0 <= i < |rest| :: s[i] == rest[i];
  }

  lemma TermEvents(t: Totals, f: Fact, k: Bucket, ids: set<string>)
    requires f.measure.events == 1
    ensures t.Plus(Term(f, k, ids)).events == t.events + (if Counts(f, k, ids) then 1 else 0)
    ensures !Counts(f, k, ids) ==> t.Plus(Term(f, k, ids)) == t
  {
  }

  /** A zero event count means that nothing counted; then every measure is zero. */
  lemma {:induction false} SumZeroIff(s: seq<Fact>, k: Bucket, ids: set<string>)
    requires OneEventEach(s)
    ensures Sum(s, k, ids).events >= 0
    ensures Sum(s, k, ids).events == 0 <==> NothingCounts(s, k, ids)
    ensures NothingCounts(s, k, ids) ==> Sum(s, k, ids) == ZERO
  {
    if s != [] {
      var n := |s| - 1;
      var rest, f := s[..n], s[n];
      assert s == rest + [f];
      assert f.measure.events == 1;
      SumZeroIff(rest, k, ids);
      SumSnoc(rest, f, k, ids);
      NothingCountsSnoc(rest, f, k, ids);
      TermEvents(Sum(rest, k, ids), f, k, ids);
    }
  }

  predicate WellTyped(t: Totals)
  {
    t.cycles + t.defects + t.stateChanges + t.scans == t.events && t.units == t.cycles
  }

  lemma MeasureWellTyped(e: EventValue)
    ensures WellTyped(Measure(e)) && Measure(e).events == 1
  {
  }

  /** Every event is of one of the four types, and units are cycles. */
  lemma {:induction false} TypesPartitionEvents(s: seq<Fact>, k: Bucket, ids: set<string>)
    requires forall i :: 0 <= i < |s| ==> WellTyped(s[i].measure)
    ensures WellTyped(Sum(s, k, ids))
  {
    if s != [] {
      TypesPartitionEvents(s[..|s| - 1], k, ids);
    }
  }

  /** The event counts of a list of buckets, added up. */
  function EventsIn(s: seq<Fact>, keys: seq<Bucket>, ids: set<string>): int
  {
    if keys == [] then 0 else EventsIn(s, keys[..|keys| - 1], ids) + Sum(s, keys[|keys| - 1], ids).events
  }

  lemma EventsInSnoc(s: seq<Fact>, rest: seq<Bucket>, k: Bucket, ids: set<string>)
    ensures EventsIn(s, rest + [k], ids) == EventsIn(s, rest, ids) + Sum(s, k, ids).events
  {
    assert (rest + [k])[..|rest|] == rest;
  }

  lemma OneMoreEventStep(s: seq<Fact>, f: Fact, rest: seq<Bucket>, k: Bucket, ids: set<string>)
    requires f.id in ids && f.measure.events == 1 && k !in rest
    requires EventsIn(s + [f], rest, ids) == EventsIn(s, rest, ids) + (if f.bucket in rest then 1 else 0)
    ensures EventsIn(s + [f], rest + [k], ids)
         == EventsIn(s, rest + [k], ids) + (if f.bucket in rest + [k] then 1 else 0)
  {
    EventsInSnoc(s, rest, k, ids);
    EventsInSnoc(s + [f], rest, k, ids);
    SumSnoc(s, f, k, ids);
    TermEvents(Sum(s, k, ids), f, k, ids);
  }

  lemma DistinctPrefix(keys: seq<Bucket>)
    requires Distinct(keys) && keys != []
    ensures var n := |keys| - 1;
            Distinct(keys[..n]) && keys[n] !in keys[..n] && keys == keys[..n] + [keys[n]]
  {
  }

  lemma {:induction false} OneMoreEvent(s: seq<Fact>, f: Fact, keys: seq<Bucket>, ids: set<string>)
    requires Distinct(keys) && f.id in ids && f.measure.events == 1
    ensures EventsIn(s + [f], keys, ids) == EventsIn(s, keys, ids) + (if f.bucket in keys then 1 else 0)
    decreases |keys|
  {
    if keys != [] {
      DistinctPrefix(keys);
      var rest, k := keys[..|keys| - 1], keys[|keys| - 1];
      OneMoreEvent(s, f, rest, ids);
      OneMoreEventStep(s, f, rest, k, ids);
    }
  }

  lemma {:induction false} EmptyStream(keys: seq<Bucket>, ids: set<string>)
    ensures EventsIn([], keys, ids) == 0
  {
    if keys != [] { EmptyStream(keys[..|keys| - 1], ids); }
  }

  /** The buckets partition the stream: over distinct keys that cover it, the event counts add up to its length. */
  lemma {:induction false} BucketsPartitionStream(s: seq<Fact>, keys: seq<Bucket>, ids: set<string>)
    requires Distinct(keys) && OneEventEach(s)
    requires forall i :: 0 <= i < |s| ==> s[i].bucket in keys && s[i].id in ids
    ensures EventsIn(s, keys, ids) == |s|
  {
    if s == [] {
      EmptyStream(keys, ids);
    } else {
      var n := |s| - 1;
      assert s == s[..n] + [s[n]];
      BucketsPartitionStream(s[..n], keys, ids);
      OneMoreEvent(s[..n], s[n], keys, ids);
    }
  }

  lemma IdsSnoc(s: seq<Fact>, f: Fact)
    ensures Ids(s + [f]) == Ids(s) + {f.id}
  {
    forall x ensures x in Ids(s + [f]) <==> x in Ids(s) + {f.id} {
      if x in Ids(s) {
        var i :| 0 <= i < |s| && s[i].id == x;
        assert (s + [f])[i].id == x;
      }
      if x == f.id { assert (s + [f])[|s|].id == x; }
    }
  }

  ghost predicate AllIn(some: seq<Fact>, all: seq<Fact>)
  {
    forall i :: 0 <= i < |some| ==> some[i] in all
  }

  lemma SelectionStep(all: seq<Fact>, rest: seq<Fact>, f: Fact, k: Bucket)
    requires UniqueIds(all) && f in all && f.id !in Ids(rest)
    requires Sum(rest, k, Ids(rest)) == Sum(all, k, Ids(rest))
    ensures Sum(rest + [f], k, Ids(rest + [f])) == Sum(all, k, Ids(rest + [f]))
  {
    IdsSnoc(rest, f);
    var at :| 0 <= at < |all| && all[at] == f;
    SumOneMore(all, k, Ids(rest), at);
    forall i | 0 <= i < |rest| ensures rest[i].id in Ids(rest) {}
    LastIdAdds(rest, f, k, Ids(rest));
    SumSnoc(rest, f, k, Ids(rest));
    TermOneMore(f, f, k, Ids(rest));
    PlusZero(Sum(rest, k, Ids(rest)));
  }

  lemma SelectionPrefix(all: seq<Fact>, some: seq<Fact>)
    requires UniqueIds(some) && AllIn(some, all) && some != []
    ensures var n := |some| - 1;
            UniqueIds(some[..n]) && AllIn(some[..n], all) && some[n].id !in Ids(some[..n]) && some == some[..n] + [some[n]]
  {
  }

  /** A fact list of distinct ids drawn from another's facts sums, for any bucket, to what those ids sum to there. */
  lemma {:induction false} SumOfSelection(all: seq<Fact>, some: seq<Fact>, k: Bucket)
    requires UniqueIds(all) && UniqueIds(some) && AllIn(some, all)
    ensures Sum(some, k, Ids(some)) == Sum(all, k, Ids(some))
    decreases |some|
  {
    if some == [] {
      assert Ids(some) == {};
      SumOfNoIds(all, k);
    } else {
      var n := |some| - 1;
      SelectionPrefix(all, some);
      SumOfSelection(all, some[..n], k);
      SelectionStep(all, some[..n], some[n], k);
    }
  }

  lemma {:induction false} SumOfNoIds(s: seq<Fact>, k: Bucket)
    ensures Sum(s, k, {}) == ZERO
  {
    if s != [] { SumOfNoIds(s[..|s| - 1], k); }
  }

  // ---- the order of the manifest ----

  predicate BucketLe(a: Bucket, b: Bucket)
  {
    a.window < b.window || (a.window == b.window && StrLe(a.machine, b.machine))
  }

  lemma BucketLeIsTotalOrder()
    ensures TotalPreorder(BucketLe)
    ensures forall a, b :: BucketLe(a, b) && BucketLe(b, a) ==> a == b
  {
    StrLeIsTotalPreorder();
    forall a, b, c: Bucket
      ensures BucketLe(a, b) || BucketLe(b, a)
      ensures BucketLe(a, b) && BucketLe(b, c) ==> BucketLe(a, c)
      ensures BucketLe(a, b) && BucketLe(b, a) ==> a == b
    {
      assert StrLe(a.machine, b.machine) || StrLe(b.machine, a.machine);
      if StrLe(a.machine, b.machine) && StrLe(b.machine, c.machine) { StrLeTransitive(a.machine, b.machine, c.machine); }
      if StrLe(a.machine, b.machine) && StrLe(b.machine, a.machine) { StrLeAntisymmetric(a.machine, b.machine); }
    }
  }
}
