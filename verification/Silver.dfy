/** Silver: one row per event id, the earliest publish, whatever bronze holds and however often it landed. */
module Silver {
  import opened BronzeLog
  import opened ConsumerModel

  /** A bronze row: a record and the ingest time its object carries. */
  datatype BronzeRow = BronzeRow(entry: Entry, ingest: int)

  ghost function BronzeRows(area: Area): set<BronzeRow>
  {
    set k, e | k in area && e in area[k].entries :: BronzeRow(e, area[k].ingest)
  }

  function Strip(table: seq<BronzeRow>): (r: seq<Entry>)
    ensures |r| == |table| && forall i :: 0 <= i < |table| ==> r[i] == table[i].entry
  {
    seq(|table|, i requires 0 <= i < |table| => table[i].entry)
  }

  function Id(e: Entry): string
  {
    if e.IsRow() then e.message.value.row.id else ""
  }

  /** `order by publish_time, kafka_offset`. */
  predicate NoLater(a: Entry, b: Entry)
  {
    && a.IsRow() && b.IsRow()
    && var pa, pb := a.message.value.row.publishTime, b.message.value.row.publishTime;
       (pa < pb || (pa == pb && a.offset <= b.offset))
  }

  /** The table's row for e's id is ranked no later than e. */
  ghost predicate Covers(table: seq<Entry>, e: Entry)
  {
    exists i :: 0 <= i < |table| && Id(table[i]) == Id(e) && NoLater(table[i], e)
  }

  ghost predicate DistinctIds(table: seq<Entry>)
  {
    forall i, j :: 0 <= i < j < |table| ==> Id(table[i]) != Id(table[j])
  }

  /** `row_number() … = 1`: one row for each id, none ranked before it. The engine may choose among ties. */
  ghost predicate IsDedupe(rows: set<Entry>, table: seq<Entry>)
  {
    && (forall i :: 0 <= i < |table| ==> table[i] in rows)
    && DistinctIds(table)
    && (forall e :: e in rows ==> Covers(table, e))
  }

  /** The same rule over bronze rows: rows that differ only in ingest time are ranked alike. */
  ghost predicate IsSilver(rows: set<BronzeRow>, table: seq<BronzeRow>)
  {
    && (forall i :: 0 <= i < |table| ==> table[i] in rows)
    && DistinctIds(Strip(table))
    && (forall r :: r in rows ==> Covers(Strip(table), r.entry))
  }

  ghost function LandedRecords(s: State): set<Entry>
  {
    set e | e in s.landed && e.Parses()
  }

  lemma BronzeHoldsLanded(s: State, e: Entry)
    requires StorageExact(s)
    ensures e in LandedRecords(s) <==> exists r :: r in BronzeRows(s.bronze) && r.entry == e
  {
    if e in LandedRecords(s) {
      var k :| k in s.bronze && e in s.bronze[k].entries;
      assert BronzeRow(e, s.bronze[k].ingest) in BronzeRows(s.bronze);
    }
    if exists r :: r in BronzeRows(s.bronze) && r.entry == e {
      var r :| r in BronzeRows(s.bronze) && r.entry == e;
      assert Holds(s.bronze, e);
      WellNamedClass(s.logs, true, s.bronze, e);
    }
  }

  /**
   * Effectively once: whatever crashes, replays, batch cuts and clocks produced the stored objects, deduplicating them
   * gives, apart from the ingest time, a deduplication of the distinct messages that landed.
   */
  lemma EffectivelyOnce(s: State, table: seq<BronzeRow>)
    requires Reachable(s) && IsSilver(BronzeRows(s.bronze), table)
    ensures IsDedupe(LandedRecords(s), Strip(table))
  {
    ReachableInv(s);
    forall i | 0 <= i < |table| ensures Strip(table)[i] in LandedRecords(s) {
      assert table[i] in BronzeRows(s.bronze);
      BronzeHoldsLanded(s, table[i].entry);
    }
    forall e | e in LandedRecords(s) ensures Covers(Strip(table), e) {
      BronzeHoldsLanded(s, e);
    }
  }

  /** A stored row for a landed entry. */
  ghost function Pick(s: State, e: Entry): (r: BronzeRow)
    requires StorageExact(s) && e in LandedRecords(s)
    ensures r in BronzeRows(s.bronze) && r.entry == e
  {
    BronzeHoldsLanded(s, e);
    var r :| r in BronzeRows(s.bronze) && r.entry == e;
    r
  }

  /** And every deduplication of what landed is one the stored objects can give. */
  lemma EffectivelyOnceConverse(s: State, wanted: seq<Entry>) returns (table: seq<BronzeRow>)
    requires Reachable(s) && IsDedupe(LandedRecords(s), wanted)
    ensures IsSilver(BronzeRows(s.bronze), table) && Strip(table) == wanted
  {
    ReachableInv(s);
    table := seq(|wanted|, i requires 0 <= i < |wanted| => Pick(s, wanted[i]));
    assert Strip(table) == wanted;
    forall r | r in BronzeRows(s.bronze) ensures Covers(wanted, r.entry) {
      BronzeHoldsLanded(s, r.entry);
    }
  }

  /** All copies of an event go to one partition: the producer keys by machine. */
  ghost predicate Keyed(rows: set<Entry>)
  {
    forall a, b :: a in rows && b in rows && Id(a) == Id(b) ==> a.partition == b.partition
  }

  ghost predicate Genuine(logs: Logs, rows: set<Entry>)
  {
    forall e :: e in rows ==>
      e.partition in logs && e.offset < |logs[e.partition]| && e.message == logs[e.partition][e.offset]
  }

  /** Ranked alike, in one log, under one id: the same entry. */
  lemma TiesAreEqual(logs: Logs, rows: set<Entry>, a: Entry, b: Entry)
    requires Genuine(logs, rows) && Keyed(rows) && a in rows && b in rows
    requires Id(a) == Id(b) && NoLater(a, b) && NoLater(b, a)
    ensures a == b
  {
    assert a.partition == b.partition && a.offset == b.offset;
  }

  /** A table covers each of its own rows by that row alone. */
  lemma OwnRowCovers(rows: set<Entry>, table: seq<Entry>, e: Entry, other: Entry)
    requires IsDedupe(rows, table) && e in table && other in rows && Id(other) == Id(e)
    ensures NoLater(e, other)
  {
    assert Covers(table, other);
    var j :| 0 <= j < |table| && Id(table[j]) == Id(other) && NoLater(table[j], other);
    var k :| 0 <= k < |table| && table[k] == e;
    assert j == k;
  }

  lemma DedupeSubset(logs: Logs, rows: set<Entry>, a: seq<Entry>, b: seq<Entry>, e: Entry)
    requires Genuine(logs, rows) && Keyed(rows) && IsDedupe(rows, a) && IsDedupe(rows, b) && e in a
    ensures e in b
  {
    assert e in rows && Covers(b, e);
    var i :| 0 <= i < |b| && Id(b[i]) == Id(e) && NoLater(b[i], e);
    OwnRowCovers(rows, a, e, b[i]);
    TiesAreEqual(logs, rows, e, b[i]);
  }

  lemma LandedIsGenuine(s: State)
    requires StorageExact(s)
    ensures Genuine(s.logs, LandedRecords(s))
  {
    forall e | e in LandedRecords(s)
      ensures e.partition in s.logs && e.offset < |s.logs[e.partition]| && e.message == s.logs[e.partition][e.offset]
    {
      WellNamedClass(s.logs, true, s.bronze, e);
    }
  }

  lemma CompleteLandsTheLog(s: State, e: Entry)
    requires StorageExact(s) && Complete(s)
    ensures e in LandedRecords(s) <==>
            e.partition in s.logs && e.offset < |s.logs[e.partition]| && e.message == s.logs[e.partition][e.offset]
            && e.Parses()
  {
    LandedIsGenuine(s);
    if e.partition in s.logs && e.offset < |s.logs[e.partition]| && e.message == s.logs[e.partition][e.offset] {
      assert EntryAt(s, e.partition, e.offset) == e;
    }
  }

  /** Two runs over the same log that both landed all of it, crashed or clean, give the same silver rows. */
  lemma CrashedRunEqualsCleanRun(crashed: State, clean: State, a: seq<Entry>, b: seq<Entry>)
    requires Reachable(crashed) && Reachable(clean) && crashed.logs == clean.logs
    requires Complete(crashed) && Complete(clean)
    requires Keyed(LandedRecords(clean))
    requires IsDedupe(LandedRecords(crashed), a) && IsDedupe(LandedRecords(clean), b)
    ensures forall e :: e in a <==> e in b
  {
    ReachableInv(crashed);
    ReachableInv(clean);
    forall e ensures e in LandedRecords(crashed) <==> e in LandedRecords(clean) {
      CompleteLandsTheLog(crashed, e);
      CompleteLandsTheLog(clean, e);
    }
    assert LandedRecords(crashed) == LandedRecords(clean);
    LandedIsGenuine(clean);
    forall e ensures e in a <==> e in b {
      if e in a { DedupeSubset(clean.logs, LandedRecords(clean), a, b, e); }
      if e in b { DedupeSubset(clean.logs, LandedRecords(clean), b, a, e); }
    }
  }
}
