/** What every injection guarantees about the published records, whatever was drawn. */
module InjectionFacts {
  import opened Events
  import opened Measures
  import opened Ranking
  import opened Transport
  import opened Disorder
  import opened Publishing
  import opened Injector

  /** The log's content. */
  datatype Logged = Logged(
    late: set<string>, duplicated: map<string, nat>, outOfOrder: set<string>, skewed: map<string, real>,
    schemaV2: set<string>, schemaV3: set<string>, corrupt: set<string>)

  /** One run of the injector, with what it logged. */
  ghost predicate Injection(truth: Truth, t: Transit, input: seq<EventValue>, cfg: DisorderConfig, log: Logged)
  {
    && RecordLevel(truth, input, cfg, log.skewed, log.schemaV2, log.schemaV3)
    && TransportLevel(t, truth.drifted, cfg, log.late, log.outOfOrder, log.duplicated, log.corrupt)
  }

  ghost predicate DistinctIds(vals: seq<EventValue>)
  {
    forall i, j :: 0 <= i < |vals| && 0 <= j < |vals| && vals[i].id == vals[j].id ==> i == j
  }

  /** Event by event, nothing but the reported time, the version and the payload may differ. */
  ghost predicate SameIdentities(now: seq<EventValue>, was: seq<EventValue>)
  {
    && |now| == |was|
    && forall i :: 0 <= i < |was| ==>
         now[i] == was[i].(eventTime := now[i].eventTime, version := now[i].version, payload := now[i].payload)
  }

  /** The record-level passes keep each event's id, type, machine and publish time. */
  lemma RecordLevelKeepsIdentities(
    t: Truth, input: seq<EventValue>, cfg: DisorderConfig, skewed: map<string, real>, v2: set<string>, v3: set<string>)
    requires RecordLevel(t, input, cfg, skewed, v2, v3)
    ensures SameIdentities(t.drifted, input)
  {
    var n, rank := |t.skewed|, Rank(TimeLe, t.skewed);
    forall i | 0 <= i < |input|
      ensures t.drifted[i] == input[i].(eventTime := t.drifted[i].eventTime, version := t.drifted[i].version,
                                        payload := t.drifted[i].payload)
    {
      assert SkewedFrom(t.skewed[i], input[i], skewed, cfg.skewMaxSeconds);
      assert i in rank;
      var r :| 0 <= r < n && rank[r] == i;
      assert t.drifted[rank[r]] == Drifted(t.skewed[rank[r]], r, CutV2(n, cfg), CutV3(n, cfg));
    }
  }

  /** Durations are numbers in every version. */
  lemma RecordLevelKeepsNumbers(
    t: Truth, input: seq<EventValue>, cfg: DisorderConfig, skewed: map<string, real>, v2: set<string>, v3: set<string>)
    requires RecordLevel(t, input, cfg, skewed, v2, v3)
    requires forall i :: 0 <= i < |input| ==> NumericDuration(input[i].payload)
    ensures forall i :: 0 <= i < |t.canonical| ==> NumericDuration(t.canonical[i].payload)
  {
    var n, rank := |t.skewed|, Rank(TimeLe, t.skewed);
    forall i | 0 <= i < |input| ensures NumericDuration(t.drifted[i].payload) {
      assert SkewedFrom(t.skewed[i], input[i], skewed, cfg.skewMaxSeconds);
      assert i in rank;
      var r :| 0 <= r < n && rank[r] == i;
      assert t.drifted[rank[r]] == Drifted(t.skewed[rank[r]], r, CutV2(n, cfg), CutV3(n, cfg));
      MigrationsKeepNumericDuration(t.skewed[i].payload, t.skewed[i].kind);
    }
  }

  lemma ReadThroughKeepsIds(now: seq<EventValue>, was: seq<EventValue>, origin: seq<nat>)
    requires ReadThrough(now, was, origin) && DistinctIds(was)
    ensures DistinctIds(now)
  {
    forall i, j | 0 <= i < |now| && 0 <= j < |now| && now[i].id == now[j].id ensures i == j {
      assert origin[i] == origin[j];
    }
  }

  /** No event is lost or added by a reading-through. */
  lemma ReadThroughCovers(now: seq<EventValue>, was: seq<EventValue>, origin: seq<nat>, j: nat) returns (i: nat)
    requires ReadThrough(now, was, origin) && j < |was|
    ensures i < |now| && now[i] == was[j]
  {
    assert j in origin;
    i :| 0 <= i < |origin| && origin[i] == j;
  }

  /** Each list shares its ids with the one it came from. */
  lemma LateKeepsIds(now: seq<EventValue>, was: seq<EventValue>, pushed: set<nat>, maxHours: real, late: set<string>)
    requires Late(now, was, pushed, maxHours, late)
    ensures |now| == |was| && forall i :: 0 <= i < |was| ==> SameButPublish(now[i], was[i])
  {
  }

  /** What is in the publish list is, up to publish time, in the canonical stream; and conversely. */
  lemma PublishListIsCanonical(
    truth: Truth, t: Transit, input: seq<EventValue>, cfg: DisorderConfig, log: Logged)
    requires Injection(truth, t, input, cfg, log)
    ensures forall i :: 0 <= i < |t.shuffled| ==> CopyOfSome(truth.canonical, t.shuffled[i])
    ensures forall c :: 0 <= c < |truth.canonical| ==> CarriedBy(t.shuffled, truth.canonical[c])
    ensures DistinctIds(input) ==> DistinctIds(truth.canonical) && DistinctIds(t.shuffled)
  {
    var order := Rank(PublishKeyLe, t.delayed);
    forall i | 0 <= i < |t.shuffled| ensures CopyOfSome(truth.canonical, t.shuffled[i]) {
      var r := order[t.origin[i]];
      assert t.shuffled[i] == t.delayed[r];
      var c := ReadThroughCovers(truth.canonical, truth.drifted, Rank(EventKeyLe, truth.drifted), r);
      assert truth.canonical[c] in truth.canonical && SameButPublish(t.shuffled[i], truth.canonical[c]);
    }
    forall c | 0 <= c < |truth.canonical| ensures CarriedBy(t.shuffled, truth.canonical[c]) {
      var r := Rank(EventKeyLe, truth.drifted)[c];
      var o := ReadThroughCovers(t.ordered, t.delayed, order, r);
      var i := ReadThroughCovers(t.shuffled, t.ordered, t.origin, o);
      assert SameButPublish(t.shuffled[i], truth.canonical[c]);
    }
    if DistinctIds(input) {
      RecordLevelKeepsIdentities(truth, input, cfg, log.skewed, log.schemaV2, log.schemaV3);
      IdsStayDistinct(truth, t, input, cfg, log.late);
    }
  }

  /** Some event of s is this one up to publish time. */
  ghost predicate CarriedBy(s: seq<EventValue>, v: EventValue)
  {
    exists i :: 0 <= i < |s| && SameButPublish(s[i], v)
  }

  lemma IdsStayDistinct(truth: Truth, t: Transit, input: seq<EventValue>, cfg: DisorderConfig, late: set<string>)
    requires DistinctIds(input) && SameIdentities(truth.drifted, input)
    requires ReadThrough(truth.canonical, truth.drifted, Rank(EventKeyLe, truth.drifted))
    requires Late(t.delayed, truth.drifted, t.pushed, cfg.lateMaxHours, late)
    requires ReadThrough(t.ordered, t.delayed, Rank(PublishKeyLe, t.delayed)) && ReadThrough(t.shuffled, t.ordered, t.origin)
    ensures DistinctIds(truth.canonical) && DistinctIds(t.shuffled)
  {
    assert forall i :: 0 <= i < |input| ==> truth.drifted[i].id == input[i].id;
    assert DistinctIds(truth.drifted);
    ReadThroughKeepsIds(truth.canonical, truth.drifted, Rank(EventKeyLe, truth.drifted));
    LateKeepsIds(t.delayed, truth.drifted, t.pushed, cfg.lateMaxHours, late);
    assert forall i :: 0 <= i < |input| ==> t.delayed[i].id == truth.drifted[i].id;
    assert DistinctIds(t.delayed);
    ReadThroughKeepsIds(t.ordered, t.delayed, Rank(PublishKeyLe, t.delayed));
    ReadThroughKeepsIds(t.shuffled, t.ordered, t.origin);
  }

  // ---- counting copies ----

  function CountId(copies: seq<EventValue>, id: string): nat
  {
    if copies == [] then 0
    else CountId(copies[..|copies| - 1], id) + (if copies[|copies| - 1].id == id then 1 else 0)
  }

  lemma {:induction false} CountConcat(a: seq<EventValue>, b: seq<EventValue>, id: string)
    ensures CountId(a + b, id) == CountId(a, id) + CountId(b, id)
    decreases |b|
  {
    if b == [] {
      assert a + b == a;
    } else {
      CountConcat(a, b[..|b| - 1], id);
      assert (a + b)[..|a + b| - 1] == a + b[..|b| - 1];
    }
  }

  lemma {:induction false} CountUniform(b: seq<EventValue>, owner: string, id: string)
    requires forall i :: 0 <= i < |b| ==> b[i].id == owner
    ensures CountId(b, id) == if id == owner then |b| else 0
    decreases |b|
  {
    if b != [] { CountUniform(b[..|b| - 1], owner, id); }
  }

  function ExtrasOf(vals: seq<EventValue>, extras: seq<nat>, id: string): nat
    requires |vals| == |extras|
  {
    if vals == [] then 0
    else
      var n := |vals| - 1;
      ExtrasOf(vals[..n], extras[..n], id) + (if vals[n].id == id then 1 + extras[n] else 0)
  }

  /** Each event is published once, and once more for each of its extras. */
  lemma {:induction false} CountRepublished(copies: seq<EventValue>, vals: seq<EventValue>, extras: seq<nat>, id: string)
    requires Republished(copies, vals, extras)
    ensures CountId(copies, id) == ExtrasOf(vals, extras, id)
    decreases |vals|
  {
    if vals != [] {
      var n := |vals| - 1;
      var at := |copies| - 1 - extras[n];
      CountRepublished(copies[..at], vals[..n], extras[..n], id);
      CountUniform(copies[at..], vals[n].id, id);
      CountConcat(copies[..at], copies[at..], id);
      assert copies == copies[..at] + copies[at..];
    }
  }

  /** Every copy is an event of the list up to publish time. */
  lemma {:induction false} CopiesComeFrom(copies: seq<EventValue>, vals: seq<EventValue>, extras: seq<nat>, i: nat) returns (j: nat)
    requires Republished(copies, vals, extras) && i < |copies|
    ensures j < |vals| && SameButPublish(copies[i], vals[j])
    decreases |vals|
  {
    var n := |vals| - 1;
    var at := |copies| - 1 - extras[n];
    if i < at {
      j := CopiesComeFrom(copies[..at], vals[..n], extras[..n], i);
    } else {
      j := n;
    }
  }

  lemma {:induction false} NoExtras(vals: seq<EventValue>, extras: seq<nat>, id: string)
    requires |vals| == |extras| && forall i :: 0 <= i < |vals| ==> vals[i].id != id
    ensures ExtrasOf(vals, extras, id) == 0 && id !in LoggedExtras(vals, extras)
    decreases |vals|
  {
    if vals != [] {
      var n := |vals| - 1;
      NoExtras(vals[..n], extras[..n], id);
    }
  }

  /** With distinct ids the dictionary is exact: it holds each event's own number of extras. */
  lemma {:induction false} ExtrasLogged(vals: seq<EventValue>, extras: seq<nat>, j: nat)
    requires |vals| == |extras| && DistinctIds(vals) && j < |vals|
    ensures ExtrasOf(vals, extras, vals[j].id) == 1 + extras[j]
    ensures Extra(LoggedExtras(vals, extras), vals[j].id) == extras[j]
    decreases |vals|
  {
    var n := |vals| - 1;
    if j == n {
      NoExtras(vals[..n], extras[..n], vals[n].id);
    } else {
      ExtrasLogged(vals[..n], extras[..n], j);
    }
  }

  // ---- the published records ----

  function PublishedOf(copies: seq<EventValue>, hits: seq<bool>): (r: seq<Published>)
    requires |copies| == |hits|
    ensures |r| == |copies| && forall i :: 0 <= i < |r| ==> r[i] == Published(copies[i], hits[i])
  {
    seq(|copies|, i requires 0 <= i < |copies| => Published(copies[i], hits[i]))
  }

  lemma {:induction false} CopiesByCondition(copies: seq<EventValue>, hits: seq<bool>, id: string)
    requires |copies| == |hits|
    ensures Copies(PublishedOf(copies, hits), id, true) + Copies(PublishedOf(copies, hits), id, false) == CountId(copies, id)
    ensures id in HitIds(copies, hits) <==> Copies(PublishedOf(copies, hits), id, true) > 0
    decreases |copies|
  {
    if copies != [] {
      var n := |copies| - 1;
      CopiesByCondition(copies[..n], hits[..n], id);
      assert PublishedOf(copies, hits)[..n] == PublishedOf(copies[..n], hits[..n]);
      HitSnoc(copies, hits[..n], hits[n]);
      assert hits == hits[..n] + [hits[n]];
      assert HitIds(copies, hits[..n]) == HitIds(copies[..n], hits[..n]);
    }
  }

  /**
   * For every unique-id stream, every configuration and every draw: the records are a transport of the canonical stream,
   * so conservation and the ledger theorems apply to them.
   */
  lemma InjectionTransports(
    truth: Truth, t: Transit, input: seq<EventValue>, cfg: DisorderConfig, log: Logged)
    requires DistinctIds(input)
    requires Injection(truth, t, input, cfg, log)
    ensures UniqueIds(Facts(truth.canonical))
    ensures Transported(truth.canonical, PublishedOf(t.copies, t.hits), log.duplicated, log.corrupt)
  {
    PublishListIsCanonical(truth, t, input, cfg, log);
    var records := PublishedOf(t.copies, t.hits);
    forall i | 0 <= i < |records| ensures CopyOfSome(truth.canonical, records[i].copy) {
      var j := CopiesComeFrom(t.copies, t.shuffled, t.extras, i);
      var c :| c in truth.canonical && SameButPublish(t.shuffled[j], c);
      assert SameButPublish(records[i].copy, c);
    }
    forall c | 0 <= c < |truth.canonical|
      ensures Copies(records, truth.canonical[c].id, true) + Copies(records, truth.canonical[c].id, false)
           == 1 + Extra(log.duplicated, truth.canonical[c].id)
    {
      assert CarriedBy(t.shuffled, truth.canonical[c]);
      var j :| 0 <= j < |t.shuffled| && SameButPublish(t.shuffled[j], truth.canonical[c]);
      CopiesByCondition(t.copies, t.hits, truth.canonical[c].id);
      CountRepublished(t.copies, t.shuffled, t.extras, truth.canonical[c].id);
      ExtrasLogged(t.shuffled, t.extras, j);
    }
    forall id ensures id in log.corrupt <==> Copies(records, id, true) > 0 {
      CopiesByCondition(t.copies, t.hits, id);
    }
  }

  function Total(extras: seq<nat>): nat
  {
    if extras == [] then 0 else Total(extras[..|extras| - 1]) + extras[|extras| - 1]
  }

  lemma {:induction false} RepublishedLength(copies: seq<EventValue>, vals: seq<EventValue>, extras: seq<nat>)
    requires Republished(copies, vals, extras)
    ensures |copies| == |vals| + Total(extras)
    decreases |vals|
  {
    if vals != [] {
      var n := |vals| - 1;
      RepublishedLength(copies[..|copies| - 1 - extras[n]], vals[..n], extras[..n]);
    }
  }

  /** Nothing is dropped: records on the broker are the input's events and their extra copies, for any ids. */
  lemma RecordsConserved(
    truth: Truth, t: Transit, input: seq<EventValue>, cfg: DisorderConfig, log: Logged)
    requires Injection(truth, t, input, cfg, log)
    ensures |truth.canonical| == |input| && |t.copies| == |truth.canonical| + Total(t.extras)
    ensures AtMost(t.extras, cfg.duplicateMaxExtra)
  {
    RepublishedLength(t.copies, t.shuffled, t.extras);
  }

  /** The canonical stream is in `(event_time, machine_id, event_id)` order. */
  lemma CanonicalIsOrdered(
    truth: Truth, input: seq<EventValue>, cfg: DisorderConfig, skewed: map<string, real>, v2: set<string>, v3: set<string>, i: nat, j: nat)
    requires RecordLevel(truth, input, cfg, skewed, v2, v3) && i < j < |truth.canonical|
    ensures EventKeyLe(truth.canonical[i], truth.canonical[j])
  {
    KeysAreTotalPreorders();
    RankSorts(EventKeyLe, truth.drifted);
  }
}
