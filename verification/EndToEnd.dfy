/** From the injector to the ledger, through a broker, a consumer that may have crashed, and silver. */
module EndToEnd {
  import opened Events
  import opened Measures
  import opened Transport
  import opened Ledger
  import opened BronzeLog
  import opened ConsumerModel
  import opened Silver
  import opened Disorder
  import opened Injector
  import opened InjectionFacts
  import opened Progress

  /** What the producer sends: keyed by machine, and garbage keeps its key. */
  function MessageOf(r: Published, raw: string): Message
  {
    Message(Option.Some(r.copy.machine), if r.corrupted then Garbage(raw) else Valid(r.copy))
  }

  /** One partition's log: the records whose key is assigned there, in publish order. */
  function LogOf(records: seq<Published>, raw: nat -> string, assign: string -> int, p: int): Log
  {
    if records == [] then []
    else
      var n := |records| - 1;
      LogOf(records[..n], raw, assign, p)
      + (if assign(records[n].copy.machine) == p then [MessageOf(records[n], raw(n))] else [])
  }

  /** The broker holds the published records and nothing else; the hash that assigns keys to partitions is arbitrary. */
  ghost predicate Sent(logs: Logs, records: seq<Published>, raw: nat -> string, assign: string -> int)
  {
    && (forall p :: p in logs ==> logs[p] == LogOf(records, raw, assign, p))
    && (forall i :: 0 <= i < |records| ==> assign(records[i].copy.machine) in logs)
  }

  lemma {:induction false} MessagesAreRecords(records: seq<Published>, raw: nat -> string, assign: string -> int, p: int, o: nat)
    returns (i: nat)
    requires o < |LogOf(records, raw, assign, p)|
    ensures i < |records| && LogOf(records, raw, assign, p)[o] == MessageOf(records[i], raw(i))
    ensures assign(records[i].copy.machine) == p
    decreases |records|
  {
    var n := |records| - 1;
    if o < |LogOf(records[..n], raw, assign, p)| {
      i := MessagesAreRecords(records[..n], raw, assign, p, o);
    } else {
      i := n;
    }
  }

  lemma {:induction false} RecordsAreMessages(records: seq<Published>, raw: nat -> string, assign: string -> int, i: nat)
    returns (o: nat)
    requires i < |records|
    ensures var log := LogOf(records, raw, assign, assign(records[i].copy.machine));
            o < |log| && log[o] == MessageOf(records[i], raw(i))
    decreases |records|
  {
    var n := |records| - 1;
    if i < n {
      o := RecordsAreMessages(records[..n], raw, assign, i);
    } else {
      o := |LogOf(records[..n], raw, assign, assign(records[n].copy.machine))|;
    }
  }

  ghost predicate AllParse(table: seq<BronzeRow>)
  {
    forall i :: 0 <= i < |table| ==> table[i].entry.IsRow()
  }

  function RowsOf(table: seq<BronzeRow>): (r: seq<EventValue>)
    requires AllParse(table)
    ensures |r| == |table| && forall i :: 0 <= i < |table| ==> r[i] == table[i].entry.message.value.row
  {
    seq(|table|, i requires 0 <= i < |table| => table[i].entry.message.value.row)
  }

  lemma {:induction false} SomeCopy(records: seq<Published>, id: string, corrupted: bool)
    ensures Copies(records, id, corrupted) > 0 <==> HasCopy(records, id, corrupted)
    decreases |records|
  {
    if records != [] {
      var n := |records| - 1;
      SomeCopy(records[..n], id, corrupted);
      if HasCopy(records, id, corrupted) {
        var i :| 0 <= i < |records| && records[i].copy.id == id && records[i].corrupted == corrupted;
        if i < n { assert records[..n][i] == records[i]; }
      }
      if HasCopy(records[..n], id, corrupted) {
        var i :| 0 <= i < n && records[..n][i].copy.id == id && records[..n][i].corrupted == corrupted;
        assert records[i] == records[..n][i];
      }
      assert records[n] in records;
    }
  }

  ghost predicate HasCopy(records: seq<Published>, id: string, corrupted: bool)
  {
    exists i :: 0 <= i < |records| && records[i].copy.id == id && records[i].corrupted == corrupted
  }

  /** A silver row is an uncorrupted published copy. */
  lemma SilverRowIsCopy(
    s: State, table: seq<BronzeRow>, records: seq<Published>, raw: nat -> string, assign: string -> int, i: nat)
    returns (j: nat)
    requires Reachable(s) && IsSilver(BronzeRows(s.bronze), table) && Sent(s.logs, records, raw, assign) && i < |table|
    ensures table[i].entry.IsRow()
    ensures j < |records| && !records[j].corrupted && records[j].copy == table[i].entry.message.value.row
  {
    ReachableInv(s);
    var e := table[i].entry;
    assert table[i] in BronzeRows(s.bronze);
    BronzeHoldsLanded(s, e);
    LandedIsGenuine(s);
    j := MessagesAreRecords(records, raw, assign, e.partition, e.offset);
  }

  /** Every uncorrupted copy that landed is represented by id. */
  lemma CopyHasSilverRow(
    s: State, table: seq<BronzeRow>, records: seq<Published>, raw: nat -> string, assign: string -> int, j: nat)
    returns (i: nat)
    requires Reachable(s) && Complete(s) && IsSilver(BronzeRows(s.bronze), table) && Sent(s.logs, records, raw, assign)
    requires j < |records| && !records[j].corrupted
    ensures i < |table| && table[i].entry.IsRow() && table[i].entry.message.value.row.id == records[j].copy.id
  {
    ReachableInv(s);
    var p := assign(records[j].copy.machine);
    var o := RecordsAreMessages(records, raw, assign, j);
    var e := EntryAt(s, p, o);
    assert e in LandedRecords(s);
    BronzeHoldsLanded(s, e);
    var r :| r in BronzeRows(s.bronze) && r.entry == e;
    assert Covers(Strip(table), e);
    i :| 0 <= i < |table| && Id(Strip(table)[i]) == Id(e) && NoLater(Strip(table)[i], e);
  }

  /** What silver holds of a drained lake, however it was consumed, is the canonical stream short of what was corrupted away. */
  lemma SilverIsDelivered(
    s: State, table: seq<BronzeRow>, canonical: seq<EventValue>, records: seq<Published>, raw: nat -> string,
    assign: string -> int, duplicated: map<string, nat>, corrupt: set<string>)
    requires UniqueIds(Facts(canonical)) && Transported(canonical, records, duplicated, corrupt)
    requires Reachable(s) && Complete(s) && IsSilver(BronzeRows(s.bronze), table) && Sent(s.logs, records, raw, assign)
    ensures AllParse(table) && Delivered(canonical, corrupt, RowsOf(table))
  {
    forall i | 0 <= i < |table|
      ensures table[i].entry.IsRow() && CopyOfSome(canonical, table[i].entry.message.value.row)
    {
      var j := SilverRowIsCopy(s, table, records, raw, assign, i);
      assert CopyOfSome(canonical, records[j].copy);
    }
    var rows := RowsOf(table);
    forall i, j | 0 <= i < |rows| && 0 <= j < |rows| && rows[i].id == rows[j].id ensures i == j {
      assert Id(Strip(table)[i]) == Id(Strip(table)[j]);
    }
    forall c | 0 <= c < |canonical| && canonical[c].id !in corrupt
      ensures exists i :: 0 <= i < |rows| && rows[i].id == canonical[c].id
    {
      SomeCopy(records, canonical[c].id, false);
      assert Copies(records, canonical[c].id, true) == 0;
      var j :| 0 <= j < |records| && records[j].copy.id == canonical[c].id && records[j].corrupted == false;
      var i := CopyHasSilverRow(s, table, records, raw, assign, j);
      assert rows[i].id == canonical[c].id;
    }
  }

  /** An id is in silver exactly when the broker got an uncorrupted copy of it: no crash and no replay decides it. */
  lemma SurvivesIffCleanCopy(
    s: State, table: seq<BronzeRow>, records: seq<Published>, raw: nat -> string, assign: string -> int, id: string)
    requires Reachable(s) && Complete(s) && IsSilver(BronzeRows(s.bronze), table) && Sent(s.logs, records, raw, assign)
    requires AllParse(table)
    ensures (exists i :: 0 <= i < |table| && RowsOf(table)[i].id == id) <==> HasCopy(records, id, false)
  {
    if exists i :: 0 <= i < |table| && RowsOf(table)[i].id == id {
      var i :| 0 <= i < |table| && RowsOf(table)[i].id == id;
      var j := SilverRowIsCopy(s, table, records, raw, assign, i);
      assert records[j].copy.id == id && records[j].corrupted == false;
    }
    if HasCopy(records, id, false) {
      var j :| 0 <= j < |records| && records[j].copy.id == id && records[j].corrupted == false;
      var i := CopyHasSilverRow(s, table, records, raw, assign, j);
      assert RowsOf(table)[i].id == id;
    }
  }

  /** An event of the window with an uncorrupted copy. */
  ghost predicate Clean(canonical: seq<EventValue>, records: seq<Published>, k: Bucket, i: int)
  {
    0 <= i < |canonical| && BucketOf(canonical[i]) == k && HasCopy(records, canonical[i].id, false)
  }

  /** An event of the window with a corrupted copy and an uncorrupted one. */
  ghost predicate Split(canonical: seq<EventValue>, records: seq<Published>, k: Bucket, i: int)
  {
    Clean(canonical, records, k, i) && HasCopy(records, canonical[i].id, true)
  }

  /** The ledger's compared counts: events, units (cycles), defects. */
  datatype Column = EventColumn | UnitColumn | DefectColumn

  function Of(t: Totals, c: Column): int
  {
    match c
    case EventColumn => t.events
    case UnitColumn => t.units
    case DefectColumn => t.defects
  }

  /** The events of the window, of the column's type, with a corrupted copy and an uncorrupted one. */
  function SplitEvents(canonical: seq<EventValue>, records: seq<Published>, k: Bucket, c: Column): set<int>
  {
    set i | 0 <= i < |canonical| && BucketOf(canonical[i]) == k && Of(Measure(canonical[i]), c) == 1
          && Copies(records, canonical[i].id, false) > 0 && Copies(records, canonical[i].id, true) > 0
  }

  function CountedAt(facts: seq<Fact>, k: Bucket, ids: set<string>, c: Column): set<int>
  {
    set i | 0 <= i < |facts| && Counts(facts[i], k, ids) && Of(facts[i].measure, c) == 1
  }

  ghost predicate ZeroOrOne(facts: seq<Fact>, c: Column)
  {
    forall i :: 0 <= i < |facts| ==> Of(facts[i].measure, c) == 0 || Of(facts[i].measure, c) == 1
  }

  lemma CountedAtSnoc(facts: seq<Fact>, f: Fact, k: Bucket, ids: set<string>, c: Column)
    ensures CountedAt(facts + [f], k, ids, c)
         == CountedAt(facts, k, ids, c) + if Counts(f, k, ids) && Of(f.measure, c) == 1 then {|facts|} else {}
  {
    var longer, n := facts + [f], |facts|;
    assert longer[n] == f;
    assert forall i :: 0 <= i < n ==> longer[i] == facts[i];
  }

  lemma CountedSnoc(facts: seq<Fact>, f: Fact, k: Bucket, ids: set<string>, c: Column)
    requires Of(f.measure, c) == 0 || Of(f.measure, c) == 1
    ensures |CountedAt(facts + [f], k, ids, c)| == |CountedAt(facts, k, ids, c)| + Of(Term(f, k, ids), c)
  {
    CountedAtSnoc(facts, f, k, ids, c);
    assert |facts| !in CountedAt(facts, k, ids, c);
  }

  /** A sum of zeros and ones is a number of events. */
  lemma {:induction false} SumCounts(facts: seq<Fact>, k: Bucket, ids: set<string>, c: Column)
    requires ZeroOrOne(facts, c)
    ensures Of(Sum(facts, k, ids), c) == |CountedAt(facts, k, ids, c)|
    decreases |facts|
  {
    if facts == [] {
      assert CountedAt(facts, k, ids, c) == {};
    } else {
      var n := |facts| - 1;
      SumCounts(facts[..n], k, ids, c);
      CountedSnoc(facts[..n], facts[n], k, ids, c);
      assert facts == facts[..n] + [facts[n]];
      SumSnoc(facts[..n], facts[n], k, ids);
    }
  }

  ghost predicate AnyClean(canonical: seq<EventValue>, records: seq<Published>, k: Bucket)
  {
    exists i :: Clean(canonical, records, k, i)
  }

  ghost predicate AnySplit(canonical: seq<EventValue>, records: seq<Published>, k: Bucket)
  {
    exists i :: Split(canonical, records, k, i)
  }

  /** Which events a sum takes: all, those with a corrupted copy, those with an uncorrupted one, or those with both. */
  datatype Share = Everything | Hit | Whole | HitAndWhole

  predicate Takes(records: seq<Published>, share: Share, id: string)
  {
    match share
    case Everything => true
    case Hit => Copies(records, id, true) > 0
    case Whole => Copies(records, id, false) > 0
    case HitAndWhole => Copies(records, id, true) > 0 && Copies(records, id, false) > 0
  }

  /** The durations of the window's events of that share, as the given facts have them. */
  function Durations(facts: seq<Fact>, records: seq<Published>, k: Bucket, share: Share): real
  {
    if facts == [] then 0.0
    else
      var f := facts[|facts| - 1];
      Durations(facts[..|facts| - 1], records, k, share)
      + if f.bucket == k && Takes(records, share, f.id) then f.measure.duration else 0.0
  }

  /** The ids are those of the window's events of that share. */
  ghost predicate AreTaken(facts: seq<Fact>, records: seq<Published>, k: Bucket, share: Share, ids: set<string>)
  {
    forall i :: 0 <= i < |facts| && facts[i].bucket == k ==> (facts[i].id in ids <==> Takes(records, share, facts[i].id))
  }

  lemma {:induction false} SumIsDurations(facts: seq<Fact>, records: seq<Published>, k: Bucket, share: Share, ids: set<string>)
    requires AreTaken(facts, records, k, share, ids)
    ensures Sum(facts, k, ids).duration == Durations(facts, records, k, share)
    decreases |facts|
  {
    if facts != [] {
      var n := |facts| - 1;
      SumIsDurations(facts[..n], records, k, share, ids);
      assert facts == facts[..n] + [facts[n]];
      SumSnoc(facts[..n], facts[n], k, ids);
    }
  }

  /** A drained lake of these records, and a silver table of it. */
  ghost predicate IsLake(s: State, table: seq<BronzeRow>, records: seq<Published>, raw: nat -> string, assign: string -> int)
  {
    Reachable(s) && Complete(s) && IsSilver(BronzeRows(s.bronze), table) && Sent(s.logs, records, raw, assign)
  }

  /** What the ledger counts by is decided by the copies the broker got. */
  lemma IdsMeanCopies(
    s: State, table: seq<BronzeRow>, records: seq<Published>, raw: nat -> string, assign: string -> int,
    canonical: seq<EventValue>, inj: Injections, engine: Engine, id: string)
    requires Transported(canonical, records, inj.duplicated, inj.corrupt) && AllParse(table) && IsLake(s, table, records, raw, assign)
    ensures id in Ids(GoldFacts(RowsOf(table), engine)) <==> Takes(records, Whole, id)
    ensures id in inj.corrupt <==> Takes(records, Hit, id)
    ensures id in Both(inj, RowsOf(table), engine) <==> Takes(records, HitAndWhole, id)
  {
    SurvivesIffCleanCopy(s, table, records, raw, assign, id);
    IdsOfGold(RowsOf(table), engine, id);
    SomeCopy(records, id, false);
  }

  lemma LedgerMeansCopies(
    s: State, table: seq<BronzeRow>, records: seq<Published>, raw: nat -> string, assign: string -> int,
    canonical: seq<EventValue>, inj: Injections, k: Bucket, i: int)
    requires Transported(canonical, records, inj.duplicated, inj.corrupt) && AllParse(table) && IsLake(s, table, records, raw, assign)
    ensures Survives(canonical, k, RowsOf(table), i) <==> Clean(canonical, records, k, i)
    ensures PartlyCorrupted(canonical, k, inj.corrupt, RowsOf(table), i) <==> Split(canonical, records, k, i)
  {
    if 0 <= i < |canonical| {
      SurvivesIffCleanCopy(s, table, records, raw, assign, canonical[i].id);
      SomeCopy(records, canonical[i].id, true);
    }
  }

  lemma AnyMeansCopies(
    s: State, table: seq<BronzeRow>, records: seq<Published>, raw: nat -> string, assign: string -> int,
    canonical: seq<EventValue>, inj: Injections, k: Bucket)
    requires Transported(canonical, records, inj.duplicated, inj.corrupt) && AllParse(table) && IsLake(s, table, records, raw, assign)
    ensures AnySurvives(canonical, k, RowsOf(table)) <==> AnyClean(canonical, records, k)
    ensures AnyPartlyCorrupted(canonical, k, inj.corrupt, RowsOf(table)) <==> AnySplit(canonical, records, k)
  {
    forall i
      ensures Survives(canonical, k, RowsOf(table), i) <==> Clean(canonical, records, k, i)
      ensures PartlyCorrupted(canonical, k, inj.corrupt, RowsOf(table), i) <==> Split(canonical, records, k, i)
    {
      LedgerMeansCopies(s, table, records, raw, assign, canonical, inj, k, i);
    }
  }

  /** Counting the facts of such ids is counting the split events. */
  lemma PartlyIsSplitEvents(canonical: seq<EventValue>, records: seq<Published>, k: Bucket, both: set<string>, c: Column)
    requires AreTaken(Facts(canonical), records, k, HitAndWhole, both)
    ensures Of(Sum(Facts(canonical), k, both), c) == |SplitEvents(canonical, records, k, c)|
  {
    SumCounts(Facts(canonical), k, both, c);
    forall i ensures i in CountedAt(Facts(canonical), k, both, c) <==> i in SplitEvents(canonical, records, k, c) {
      SplitOne(canonical, records, k, both, c, i);
    }
    assert CountedAt(Facts(canonical), k, both, c) == SplitEvents(canonical, records, k, c);
  }

  lemma SplitOne(canonical: seq<EventValue>, records: seq<Published>, k: Bucket, both: set<string>, c: Column, i: int)
    requires AreTaken(Facts(canonical), records, k, HitAndWhole, both)
    ensures i in CountedAt(Facts(canonical), k, both, c) <==> i in SplitEvents(canonical, records, k, c)
  {
    if 0 <= i < |canonical| {
      assert Facts(canonical)[i] == FactOf(canonical[i]);
    }
  }

  /** What a row's count deltas say. */
  ghost predicate ExactCounts(row: LedgerRow, canonical: seq<EventValue>, records: seq<Published>, k: Bucket)
  {
    && row.eventDelta == |SplitEvents(canonical, records, k, EventColumn)|
    && row.unitDelta == |SplitEvents(canonical, records, k, UnitColumn)|
    && row.defectDelta == |SplitEvents(canonical, records, k, DefectColumn)|
  }

  /** A row's duration delta: what the warehouse stages of the events delivered, against what the manifest leaves of all. */
  function ExactDuration(canonical: seq<EventValue>, records: seq<Published>, engine: Engine, k: Bucket): real
  {
    SqlRound3(Durations(GoldFacts(canonical, engine), records, k, Whole))
    - (PyRound3(Durations(Facts(canonical), records, k, Everything)) - PyRound3(Durations(Facts(canonical), records, k, Hit)))
  }

  /** What a row says of the copies the broker got, whatever the payloads hold. */
  ghost predicate ExactRow(
    row: LedgerRow, canonical: seq<EventValue>, records: seq<Published>, engine: Engine, k: Bucket, age: int, mark: int)
  {
    && !row.missingFromManifest && (row.missingFromGold <==> !AnyClean(canonical, records, k))
    && ExactCounts(row, canonical, records, k)
    && row.durationDelta == ExactDuration(canonical, records, engine, k)
    && (row.status == Reconciled <==>
          AnyClean(canonical, records, k) && !AnySplit(canonical, records, k) && Abs(row.durationDelta) < 0.01)
    && (row.status == Pending <==>
          AnyClean(canonical, records, k) && (AnySplit(canonical, records, k) || Abs(row.durationDelta) >= 0.01) && age < mark)
  }

  /** What it says when durations are numbers: they do not decide the status, and their delta is the split cycles'. */
  ghost predicate ExactWithNumbers(row: LedgerRow, canonical: seq<EventValue>, records: seq<Published>, k: Bucket, age: int, mark: int)
  {
    && Abs(row.durationDelta - Durations(Facts(canonical), records, k, HitAndWhole)) <= 0.0015
    && (row.status == Reconciled <==> AnyClean(canonical, records, k) && !AnySplit(canonical, records, k))
    && (row.status == Pending <==> AnySplit(canonical, records, k) && age < mark)
  }

  ghost predicate ExactLedger(
    ledger: map<Bucket, LedgerRow>, canonical: seq<EventValue>, records: seq<Published>, engine: Engine, k: Bucket, age: int, mark: int)
  {
    && (k in ledger <==> exists i :: 0 <= i < |canonical| && BucketOf(canonical[i]) == k)
    && (k in ledger ==> ExactRow(ledger[k], canonical, records, engine, k, age, mark))
    && (k in ledger && NumericAll(canonical) ==> ExactWithNumbers(ledger[k], canonical, records, k, age, mark))
  }

  function TheLedger(
    canonical: seq<EventValue>, inj: Injections, rows: seq<EventValue>, engine: Engine, ageHours: Bucket -> int,
    watermarkHours: int): map<Bucket, LedgerRow>
  {
    CompletenessLedger(Manifest(Facts(canonical), inj), Gold(GoldFacts(rows, engine)), ageHours, watermarkHours)
  }

  lemma CountsAreExact(row: LedgerRow, canonical: seq<EventValue>, records: seq<Published>, k: Bucket, both: set<string>)
    requires AreTaken(Facts(canonical), records, k, HitAndWhole, both) && CountsAre(row, Sum(Facts(canonical), k, both))
    ensures ExactCounts(row, canonical, records, k)
  {
    PartlyIsSplitEvents(canonical, records, k, both, EventColumn);
    PartlyIsSplitEvents(canonical, records, k, both, UnitColumn);
    PartlyIsSplitEvents(canonical, records, k, both, DefectColumn);
  }

  lemma TakenByCopies(
    s: State, table: seq<BronzeRow>, records: seq<Published>, raw: nat -> string, assign: string -> int,
    canonical: seq<EventValue>, inj: Injections, engine: Engine, facts: seq<Fact>, k: Bucket)
    requires Transported(canonical, records, inj.duplicated, inj.corrupt) && AllParse(table) && IsLake(s, table, records, raw, assign)
    ensures AreTaken(facts, records, k, Everything, Ids(facts))
    ensures AreTaken(facts, records, k, Hit, inj.corrupt)
    ensures AreTaken(facts, records, k, Whole, Ids(GoldFacts(RowsOf(table), engine)))
    ensures AreTaken(facts, records, k, HitAndWhole, Both(inj, RowsOf(table), engine))
  {
    forall i | 0 <= i < |facts|
      ensures facts[i].id in Ids(facts)
      ensures facts[i].id in inj.corrupt <==> Takes(records, Hit, facts[i].id)
      ensures facts[i].id in Ids(GoldFacts(RowsOf(table), engine)) <==> Takes(records, Whole, facts[i].id)
      ensures facts[i].id in Both(inj, RowsOf(table), engine) <==> Takes(records, HitAndWhole, facts[i].id)
    {
      IdsMeanCopies(s, table, records, raw, assign, canonical, inj, engine, facts[i].id);
    }
  }

  lemma DurationsAreExact(
    s: State, table: seq<BronzeRow>, records: seq<Published>, raw: nat -> string, assign: string -> int,
    canonical: seq<EventValue>, inj: Injections, engine: Engine, k: Bucket)
    requires Transported(canonical, records, inj.duplicated, inj.corrupt) && AllParse(table) && IsLake(s, table, records, raw, assign)
    ensures Compared(canonical, inj, RowsOf(table), engine, k) == ExactDuration(canonical, records, engine, k)
    ensures Sum(Facts(canonical), k, Both(inj, RowsOf(table), engine)).duration == Durations(Facts(canonical), records, k, HitAndWhole)
  {
    var facts, staged, rows := Facts(canonical), GoldFacts(canonical, engine), RowsOf(table);
    TakenByCopies(s, table, records, raw, assign, canonical, inj, engine, facts, k);
    TakenByCopies(s, table, records, raw, assign, canonical, inj, engine, staged, k);
    SumIsDurations(facts, records, k, Everything, Ids(facts));
    SumIsDurations(facts, records, k, Hit, inj.corrupt);
    SumIsDurations(facts, records, k, HitAndWhole, Both(inj, rows, engine));
    SumIsDurations(staged, records, k, Whole, Ids(GoldFacts(rows, engine)));
  }

  lemma SaysExactly(
    row: LedgerRow, partly: Totals, drift: real, canonical: seq<EventValue>, records: seq<Published>, engine: Engine, k: Bucket,
    age: int, mark: int)
    requires Says(row, partly, drift, AnyClean(canonical, records, k), AnySplit(canonical, records, k), age, mark)
    requires ExactCounts(row, canonical, records, k) && row.durationDelta == ExactDuration(canonical, records, engine, k)
    ensures ExactRow(row, canonical, records, engine, k, age, mark)
  {
  }

  /** One row, from sums over ids to copies. */
  lemma RowIsExact(
    s: State, table: seq<BronzeRow>, records: seq<Published>, raw: nat -> string, assign: string -> int,
    canonical: seq<EventValue>, inj: Injections, engine: Engine, k: Bucket, row: LedgerRow, age: int, mark: int)
    requires Transported(canonical, records, inj.duplicated, inj.corrupt) && AllParse(table) && IsLake(s, table, records, raw, assign)
    requires RowMeans(row, canonical, inj, RowsOf(table), engine, k, age, mark)
    ensures ExactRow(row, canonical, records, engine, k, age, mark)
  {
    var both := Both(inj, RowsOf(table), engine);
    TakenByCopies(s, table, records, raw, assign, canonical, inj, engine, Facts(canonical), k);
    DurationsAreExact(s, table, records, raw, assign, canonical, inj, engine, k);
    AnyMeansCopies(s, table, records, raw, assign, canonical, inj, k);
    CountsAreExact(row, canonical, records, k, both);
    SaysExactly(row, Sum(Facts(canonical), k, both), DriftOf(Facts(canonical), GoldFacts(canonical, engine), k, inj.corrupt, both),
      canonical, records, engine, k, age, mark);
  }

  lemma NumbersSay(
    row: LedgerRow, canonical: seq<EventValue>, records: seq<Published>, engine: Engine, k: Bucket, age: int, mark: int)
    requires ExactRow(row, canonical, records, engine, k, age, mark)
    requires About(row, Durations(Facts(canonical), records, k, HitAndWhole), AnySplit(canonical, records, k))
    ensures ExactWithNumbers(row, canonical, records, k, age, mark)
  {
    SplitIsClean(canonical, records, k);
  }

  lemma NumbersAreExact(
    s: State, table: seq<BronzeRow>, records: seq<Published>, raw: nat -> string, assign: string -> int,
    canonical: seq<EventValue>, inj: Injections, engine: Engine, k: Bucket, row: LedgerRow, age: int, mark: int)
    requires Transported(canonical, records, inj.duplicated, inj.corrupt) && AllParse(table) && IsLake(s, table, records, raw, assign)
    requires ExactRow(row, canonical, records, engine, k, age, mark) && Undrifted(row, canonical, inj, RowsOf(table), engine, k)
    ensures ExactWithNumbers(row, canonical, records, k, age, mark)
  {
    DurationsAreExact(s, table, records, raw, assign, canonical, inj, engine, k);
    AnyMeansCopies(s, table, records, raw, assign, canonical, inj, k);
    NumbersSay(row, canonical, records, engine, k, age, mark);
  }

  lemma SplitIsClean(canonical: seq<EventValue>, records: seq<Published>, k: Bucket)
    ensures AnySplit(canonical, records, k) ==> AnyClean(canonical, records, k)
  {
    if i :| Split(canonical, records, k, i) { assert Clean(canonical, records, k, i); }
  }

  /**
   * The whole promise, with its exact conditions. For any records the injector may publish, any assignment of keys to
   * partitions, any run of the consumer that drained the broker, and any choice silver made among ties: the ledger has
   * one row for each window of the manifest and no other; a row is missing from gold iff every copy of every event of
   * its window was corrupted; its event, unit and defect deltas count the events, cycles and defects that have both a
   * clean and a corrupted copy; and it is reconciled, at any age, iff some event has a clean copy, none has both, and the
   * durations staged of what was delivered differ by less than 0.01 from what the manifest leaves. That last condition
   * holds by itself when durations are numbers, and then the duration delta is the split cycles' durations.
   */
  lemma LakeReconcilesExactly(
    s: State, table: seq<BronzeRow>, canonical: seq<EventValue>, records: seq<Published>, raw: nat -> string,
    assign: string -> int, inj: Injections, engine: Engine, ageHours: Bucket -> int, watermarkHours: int, k: Bucket)
    requires UniqueIds(Facts(canonical)) && Transported(canonical, records, inj.duplicated, inj.corrupt)
    requires Reachable(s) && Complete(s) && IsSilver(BronzeRows(s.bronze), table) && Sent(s.logs, records, raw, assign)
    ensures AllParse(table)
    ensures ExactLedger(
              TheLedger(canonical, inj, RowsOf(table), engine, ageHours, watermarkHours), canonical, records, engine, k,
              ageHours(k), watermarkHours)
  {
    SilverIsDelivered(s, table, canonical, records, raw, assign, inj.duplicated, inj.corrupt);
    LedgerIsExact(canonical, inj, RowsOf(table), engine, ageHours, watermarkHours, k);
    var ledger := TheLedger(canonical, inj, RowsOf(table), engine, ageHours, watermarkHours);
    if k in ledger {
      RowIsExact(s, table, records, raw, assign, canonical, inj, engine, k, ledger[k], ageHours(k), watermarkHours);
      if NumericAll(canonical) {
        NumbersAreExact(s, table, records, raw, assign, canonical, inj, engine, k, ledger[k], ageHours(k), watermarkHours);
      }
    }
  }

  /** The same for every run of the injector: any unique-id input, any configuration, any draws. */
  lemma EveryInjectionReconcilesExactly(
    truth: Truth, transit: Transit, input: seq<EventValue>, cfg: DisorderConfig, log: Logged,
    s: State, table: seq<BronzeRow>, raw: nat -> string, assign: string -> int,
    engine: Engine, ageHours: Bucket -> int, watermarkHours: int, k: Bucket)
    requires InjectionFacts.DistinctIds(input) && Injection(truth, transit, input, cfg, log)
    requires Reachable(s) && Complete(s) && IsSilver(BronzeRows(s.bronze), table)
    requires Sent(s.logs, PublishedOf(transit.copies, transit.hits), raw, assign)
    ensures AllParse(table)
    ensures var inj := Injections(log.corrupt, log.late, log.duplicated);
            ExactLedger(
              TheLedger(truth.canonical, inj, RowsOf(table), engine, ageHours, watermarkHours),
              truth.canonical, PublishedOf(transit.copies, transit.hits), engine, k, ageHours(k), watermarkHours)
    ensures NumericAll(input) ==> NumericAll(truth.canonical)
  {
    InjectionTransports(truth, transit, input, cfg, log);
    if NumericAll(input) { RecordLevelKeepsNumbers(truth, input, cfg, log.skewed, log.schemaV2, log.schemaV3); }
    LakeReconcilesExactly(s, table, truth.canonical, PublishedOf(transit.copies, transit.hits), raw, assign,
      Injections(log.corrupt, log.late, log.duplicated), engine, ageHours, watermarkHours, k);
  }

  /** Every record published whole has a row that bronze can hold; the contract's versions are far below 32 bits. */
  ghost predicate WholeFit(records: seq<Published>)
  {
    forall i :: 0 <= i < |records| && !records[i].corrupted ==> Valid(records[i].copy).Storable()
  }

  /** None of this is empty: whatever storable was published, and however keys are assigned, there are a drained run and a silver table. */
  lemma SomeLakeExists(records: seq<Published>, raw: nat -> string, assign: string -> int, partitions: set<int>)
    returns (s: State, table: seq<BronzeRow>)
    requires WholeFit(records) && forall i :: 0 <= i < |records| ==> assign(records[i].copy.machine) in partitions
    ensures Reachable(s) && Complete(s) && Sent(s.logs, records, raw, assign) && IsSilver(BronzeRows(s.bronze), table)
  {
    var logs: Logs := map p | p in partitions :: LogOf(records, raw, assign, p);
    forall p, o | p in logs && 0 <= o < |logs[p]| ensures logs[p][o].value.Storable() {
      var i := MessagesAreRecords(records, raw, assign, p, o);
    }
    s := AnyLogsCanLand(logs);
    StoredRowsParse(s);
    table := SilverExists(BronzeRows(s.bronze));
  }

  /** And otherwise there are none. */
  lemma LakeNeedsFit(s: State, records: seq<Published>, raw: nat -> string, assign: string -> int)
    requires Reachable(s) && Complete(s) && Sent(s.logs, records, raw, assign)
    ensures WholeFit(records)
  {
    CompleteIsStorable(s);
    forall i | 0 <= i < |records| && !records[i].corrupted ensures Valid(records[i].copy).Storable() {
      var o := RecordsAreMessages(records, raw, assign, i);
      assert s.logs[assign(records[i].copy.machine)][o].value == Valid(records[i].copy);
    }
  }

  /**
   * Healthy runs can be broken for good. Take any storable event, retried once, one of its two copies
   * hit: once its window is past the watermark, every lake of that stream has a broken row, one event too many.
   */
  lemma PartlyHitIsBroken(
    event: EventValue, hits: seq<bool>, raw: nat -> string, late: set<string>, engine: Engine,
    ageHours: Bucket -> int, watermarkHours: int) returns (s: State, table: seq<BronzeRow>)
    requires Valid(event).Storable() && (hits == [true, false] || hits == [false, true])
    requires ageHours(BucketOf(event)) >= watermarkHours
    ensures UniqueIds(Facts([event])) && Transported([event], CopiesOf(event, hits), map[event.id := 1], {event.id})
    ensures Reachable(s) && Complete(s) && Sent(s.logs, CopiesOf(event, hits), raw, (machine: string) => 0)
    ensures IsSilver(BronzeRows(s.bronze), table) && AllParse(table)
    ensures var inj := Injections({event.id}, late, map[event.id := 1]);
            var ledger := TheLedger([event], inj, RowsOf(table), engine, ageHours, watermarkHours);
            BucketOf(event) in ledger && ledger[BucketOf(event)].status == Broken && ledger[BucketOf(event)].eventDelta == 1
  {
    var records, k, assign := CopiesOf(event, hits), BucketOf(event), (machine: string) => 0;
    var inj := Injections({event.id}, late, map[event.id := 1]);
    OneEventTransported(event, hits);
    s, table := SomeLakeExists(records, raw, assign, {0});
    LakeReconcilesExactly(s, table, [event], records, raw, assign, inj, engine, ageHours, watermarkHours, k);
    OneSplitRow(TheLedger([event], inj, RowsOf(table), engine, ageHours, watermarkHours), event, hits, engine, ageHours(k), watermarkHours);
  }

  lemma OneSplitRow(
    ledger: map<Bucket, LedgerRow>, event: EventValue, hits: seq<bool>, engine: Engine, age: int, watermark: int)
    requires hits == [true, false] || hits == [false, true]
    requires ExactLedger(ledger, [event], CopiesOf(event, hits), engine, BucketOf(event), age, watermark) && age >= watermark
    ensures BucketOf(event) in ledger && ledger[BucketOf(event)].status == Broken && ledger[BucketOf(event)].eventDelta == 1
  {
    OneSplitEvent(event, hits);
    assert [event][0] == event;
    assert exists i :: 0 <= i < |[event]| && BucketOf([event][i]) == BucketOf(event);
  }

  lemma OneSplitEvent(event: EventValue, hits: seq<bool>)
    requires hits == [true, false] || hits == [false, true]
    ensures Split([event], CopiesOf(event, hits), BucketOf(event), 0)
    ensures SplitEvents([event], CopiesOf(event, hits), BucketOf(event), EventColumn) == {0}
  {
    var records := CopiesOf(event, hits);
    assert records[0].copy == event && records[1].copy == event;
    assert records[0].corrupted == hits[0] && records[1].corrupted == hits[1];
    SomeCopy(records, event.id, true);
    SomeCopy(records, event.id, false);
    assert Split([event], records, BucketOf(event), 0);
    MeasureWellTyped(event);
    assert forall i :: i in SplitEvents([event], records, BucketOf(event), EventColumn) <==> i == 0;
  }

  lemma OneDuration(f: Fact, records: seq<Published>, k: Bucket, share: Share)
    ensures Durations([f], records, k, share) == if f.bucket == k && Takes(records, share, f.id) then f.measure.duration else 0.0
  {
    var s := [f];
    assert s[..|s| - 1] == [];
    assert s[|s| - 1] == f;
  }

  /** A cycle whose duration is a number in quotes: the manifest reads none, the warehouse casts it. */
  lemma QuotedDuration(event: EventValue, text: string, seconds: real, engine: Engine)
    requires event.kind.Cycle? && event.payload == map[DurationS := Numeral(text, seconds)]
    requires engine.cast(Numeral(text, seconds)) == seconds
    ensures Measure(event).duration == 0.0 && GoldFact(event, engine).measure.duration == seconds
  {
  }

  lemma OneWholeDuration(event: EventValue, engine: Engine)
    ensures ExactDuration([event], CopiesOf(event, [false]), engine, BucketOf(event))
         == SqlRound3(GoldFact(event, engine).measure.duration) - (PyRound3(Measure(event).duration) - PyRound3(0.0))
  {
    var records, k := CopiesOf(event, [false]), BucketOf(event);
    CopiesAreFlags(event, [false]);
    StagedButDuration(event, engine);
    assert Facts([event]) == [FactOf(event)] && GoldFacts([event], engine) == [GoldFact(event, engine)];
    OneDuration(GoldFact(event, engine), records, k, Whole);
    OneDuration(FactOf(event), records, k, Everything);
    OneDuration(FactOf(event), records, k, Hit);
  }

  lemma OneWholeRow(ledger: map<Bucket, LedgerRow>, event: EventValue, engine: Engine, age: int, watermark: int)
    requires ExactLedger(ledger, [event], CopiesOf(event, [false]), engine, BucketOf(event), age, watermark) && age >= watermark
    requires Abs(ExactDuration([event], CopiesOf(event, [false]), engine, BucketOf(event))) >= 0.01
    ensures BucketOf(event) in ledger && ledger[BucketOf(event)].status == Broken && ledger[BucketOf(event)].eventDelta == 0
  {
    CopiesAreFlags(event, [false]);
    assert [event][0] == event;
    assert exists i :: 0 <= i < |[event]| && BucketOf([event][i]) == BucketOf(event);
    assert SplitEvents([event], CopiesOf(event, [false]), BucketOf(event), EventColumn) == {};
  }

  lemma QuotedDelta(event: EventValue, text: string, seconds: real, engine: Engine)
    requires event.kind.Cycle? && event.payload == map[DurationS := Numeral(text, seconds)]
    requires engine.cast(Numeral(text, seconds)) == seconds && Abs(seconds) >= 0.0115
    ensures Abs(ExactDuration([event], CopiesOf(event, [false]), engine, BucketOf(event))) >= 0.01
  {
    QuotedDuration(event, text, seconds, engine);
    OneWholeDuration(event, engine);
    ToleranceSuffices(seconds, 0.0, 0.0);
  }

  /** So quotes alone can break a window for good: any such cycle, published once and whole, nothing corrupted. */
  lemma QuotedDurationIsBroken(
    event: EventValue, text: string, seconds: real, raw: nat -> string, late: set<string>, engine: Engine,
    ageHours: Bucket -> int, watermarkHours: int) returns (s: State, table: seq<BronzeRow>)
    requires event.kind.Cycle? && event.payload == map[DurationS := Numeral(text, seconds)] && Valid(event).Storable()
    requires engine.cast(Numeral(text, seconds)) == seconds && Abs(seconds) >= 0.0115
    requires ageHours(BucketOf(event)) >= watermarkHours
    ensures UniqueIds(Facts([event])) && Transported([event], CopiesOf(event, [false]), map[], {})
    ensures Reachable(s) && Complete(s) && Sent(s.logs, CopiesOf(event, [false]), raw, (machine: string) => 0)
    ensures IsSilver(BronzeRows(s.bronze), table) && AllParse(table)
    ensures var ledger := TheLedger([event], Injections({}, late, map[]), RowsOf(table), engine, ageHours, watermarkHours);
            BucketOf(event) in ledger && ledger[BucketOf(event)].status == Broken && ledger[BucketOf(event)].eventDelta == 0
  {
    var records, k, assign := CopiesOf(event, [false]), BucketOf(event), (machine: string) => 0;
    var inj := Injections({}, late, map[]);
    OneEventTransported(event, [false]);
    s, table := SomeLakeExists(records, raw, assign, {0});
    LakeReconcilesExactly(s, table, [event], records, raw, assign, inj, engine, ageHours, watermarkHours, k);
    QuotedDelta(event, text, seconds, engine);
    OneWholeRow(TheLedger([event], inj, RowsOf(table), engine, ageHours, watermarkHours), event, engine, ageHours(k), watermarkHours);
  }
}
