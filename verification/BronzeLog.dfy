/** A partition's append-only log, the batches cut from it, and the objects they land in. */
module BronzeLog {
  import opened Events

  /**
   * What the broker carries, already classified: a record of the contract's fields; bytes that become a record, or a
   * reject, some field of which is of another type than its column, or holds text with no UTF-8 form; bytes that do not
   * parse; null; or bytes on which the parser raises something it does not catch (a `schema_version` of Infinity
   * overflows `int`).
   */
  datatype Wire =
    | Valid(row: EventValue)
    | Misfit(raw: string, record: bool)
    | Garbage(raw: string)
    | Tombstone
    | Poison(raw: string)
  {
    /** `parse_message` makes a record of it. */
    predicate Parses() { Valid? || (Misfit? && record) }

    /** A table can be built from it: every field is what its column takes, the version of 32 bits among them. */
    predicate Storable()
    {
      match this
      case Valid(row) => -0x8000_0000 <= row.version < 0x8000_0000
      case Garbage(_) => true
      case Tombstone => true
      case _ => false
    }
  }

  datatype Message = Message(key: Option<string>, value: Wire)

  /** A message with its provenance: a bronze record when it parses, a quarantine reject when it does not. */
  datatype Entry = Entry(partition: int, offset: nat, message: Message)
  {
    predicate Parses() { message.value.Parses() }

    /** A record of the contract's fields, which is all that bronze can hold. */
    predicate IsRow() { message.value.Valid? }
  }

  type Log = seq<Message>

  /** The records (`parses`) or the rejects (`!parses`) of the slice [lo, hi), in offset order. */
  function Entries(log: Log, partition: int, lo: nat, hi: nat, parses: bool): (r: seq<Entry>)
    requires lo <= hi <= |log|
  {
    if lo == hi then []
    else
      var e := Entry(partition, hi - 1, log[hi - 1]);
      Entries(log, partition, lo, hi - 1, parses) + (if e.Parses() == parses then [e] else [])
  }

  /** Membership in a cut is exactly: in the slice, from this log, of this class. */
  lemma {:induction false} EntriesMembers(log: Log, partition: int, lo: nat, hi: nat, parses: bool, e: Entry)
    requires lo <= hi <= |log|
    ensures e in Entries(log, partition, lo, hi, parses) <==>
            e.partition == partition && lo <= e.offset < hi && e.message == log[e.offset] && e.Parses() == parses
  {
    if lo < hi {
      EntriesMembers(log, partition, lo, hi - 1, parses, e);
    }
  }

  lemma {:induction false} EntriesAppend(log: Log, more: Log, partition: int, lo: nat, hi: nat, parses: bool)
    requires lo <= hi <= |log|
    ensures Entries(log + more, partition, lo, hi, parses) == Entries(log, partition, lo, hi, parses)
  {
    if lo < hi {
      EntriesAppend(log, more, partition, lo, hi - 1, parses);
    }
  }

  lemma {:induction false} EntriesSplit(log: Log, partition: int, lo: nat, mid: nat, hi: nat, parses: bool)
    requires lo <= mid <= hi <= |log|
    ensures Entries(log, partition, lo, hi, parses) ==
            Entries(log, partition, lo, mid, parses) + Entries(log, partition, mid, hi, parses)
  {
    if mid < hi {
      EntriesSplit(log, partition, lo, mid, hi - 1, parses);
    }
  }

  /** One message belongs to exactly one of the two classes, so the two cuts of a slice have its length together. */
  lemma {:induction false} EntriesPartitionSlice(log: Log, partition: int, lo: nat, hi: nat)
    requires lo <= hi <= |log|
    ensures |Entries(log, partition, lo, hi, true)| + |Entries(log, partition, lo, hi, false)| == hi - lo
  {
    if lo < hi {
      EntriesPartitionSlice(log, partition, lo, hi - 1);
    }
  }

  // ---- offset ranges ----

  function MinOffset(batch: seq<Entry>): nat
    requires batch != []
  {
    if |batch| == 1 then batch[0].offset
    else
      var rest := MinOffset(batch[1..]);
      if batch[0].offset < rest then batch[0].offset else rest
  }

  function MaxOffset(batch: seq<Entry>): nat
    requires batch != []
  {
    if |batch| == 1 then batch[0].offset
    else
      var rest := MaxOffset(batch[1..]);
      if batch[0].offset > rest then batch[0].offset else rest
  }

  lemma {:induction false} OffsetBounds(batch: seq<Entry>)
    requires batch != []
    ensures forall e :: e in batch ==> MinOffset(batch) <= e.offset <= MaxOffset(batch)
    ensures exists e :: e in batch && e.offset == MinOffset(batch)
    ensures exists e :: e in batch && e.offset == MaxOffset(batch)
  {
    if |batch| == 1 {
      assert batch[0] in batch;
    } else {
      OffsetBounds(batch[1..]);
      assert batch == [batch[0]] + batch[1..];
      assert batch[0] in batch;
      forall e | e in batch[1..] ensures e in batch {}
    }
  }

  /** Nothing of the class lies in an empty cut, so cutting around it changes nothing. */
  lemma {:induction false} EmptyCut(log: Log, partition: int, lo: nat, hi: nat, parses: bool)
    requires lo <= hi <= |log|
    requires forall o :: lo <= o < hi ==> log[o].value.Parses() != parses
    ensures Entries(log, partition, lo, hi, parses) == []
  {
    if lo < hi {
      EmptyCut(log, partition, lo, hi - 1, parses);
    }
  }

  /** The smallest and largest offsets of a cut are offsets of its class inside the slice. */
  lemma RangeBounds(log: Log, partition: int, lo: nat, hi: nat, parses: bool)
    requires lo <= hi <= |log| && Entries(log, partition, lo, hi, parses) != []
    ensures var batch := Entries(log, partition, lo, hi, parses);
            lo <= MinOffset(batch) <= MaxOffset(batch) < hi && log[MinOffset(batch)].value.Parses() == parses
  {
    var batch := Entries(log, partition, lo, hi, parses);
    OffsetBounds(batch);
    var first :| first in batch && first.offset == MinOffset(batch);
    var last :| last in batch && last.offset == MaxOffset(batch);
    EntriesMembers(log, partition, lo, hi, parses, first);
    EntriesMembers(log, partition, lo, hi, parses, last);
  }

  lemma ClassIsWithinRange(log: Log, partition: int, lo: nat, hi: nat, parses: bool, o: nat)
    requires lo <= o < hi <= |log| && log[o].value.Parses() == parses
    ensures var batch := Entries(log, partition, lo, hi, parses);
            batch != [] && MinOffset(batch) <= o <= MaxOffset(batch)
  {
    var batch := Entries(log, partition, lo, hi, parses);
    var e := Entry(partition, o, log[o]);
    EntriesMembers(log, partition, lo, hi, parses, e);
    assert e in batch;
    OffsetBounds(batch);
  }

  /** A batch's own smallest and largest offset determine it: cutting the log again at that range gives the batch back. */
  lemma RangeDeterminesBatch(log: Log, partition: int, lo: nat, hi: nat, parses: bool)
    requires lo <= hi <= |log| && Entries(log, partition, lo, hi, parses) != []
    ensures var batch := Entries(log, partition, lo, hi, parses);
            lo <= MinOffset(batch) <= MaxOffset(batch) < hi
            && Entries(log, partition, MinOffset(batch), MaxOffset(batch) + 1, parses) == batch
  {
    var batch := Entries(log, partition, lo, hi, parses);
    RangeBounds(log, partition, lo, hi, parses);
    var first, last := MinOffset(batch), MaxOffset(batch);
    forall o | lo <= o < hi && log[o].value.Parses() == parses
      ensures first <= o <= last
    {
      ClassIsWithinRange(log, partition, lo, hi, parses, o);
    }
    EmptyCut(log, partition, lo, first, parses);
    EmptyCut(log, partition, last + 1, hi, parses);
    EntriesSplit(log, partition, lo, first, hi, parses);
    EntriesSplit(log, partition, first, last + 1, hi, parses);
  }

  // ---- storage ----

  /** What an object's name encodes: the ingest hour (bronze) or day (quarantine), the partition, the offset range. */
  datatype Key = Key(slot: int, partition: int, first: nat, last: nat)

  datatype Object = Object(ingest: int, entries: seq<Entry>)

  /** A key-to-object store; writing a key again replaces the object. */
  type Area = map<Key, Object>

  /** Building the table of a batch raises on any row that does not fit, whatever else the batch holds. */
  predicate Fits(batch: seq<Entry>)
  {
    forall i :: 0 <= i < |batch| ==> batch[i].message.value.Storable()
  }

  const HOUR := 3_600_000_000
  const DAY := 24 * HOUR

  function Slot(ingest: int, parses: bool): int
  {
    ingest / (if parses then HOUR else DAY)
  }

  /** `bronze_key` and `quarantine_key` of a batch. */
  function KeyOf(ingest: int, parses: bool, batch: seq<Entry>): Key
    requires batch != []
  {
    Key(Slot(ingest, parses), batch[0].partition, MinOffset(batch), MaxOffset(batch))
  }

  /** `write_bronze` and `write_quarantine`: an empty batch writes nothing. */
  function Put(area: Area, ingest: int, parses: bool, batch: seq<Entry>): Area
  {
    if batch == [] then area else area[KeyOf(ingest, parses, batch) := Object(ingest, batch)]
  }

  type Logs = map<int, Log>

  /** The name says what is inside: an object holds the cut of the log that its key describes. */
  ghost predicate Named(logs: Logs, parses: bool, k: Key, o: Object)
  {
    && k.partition in logs
    && k.first <= k.last < |logs[k.partition]|
    && o.entries == Entries(logs[k.partition], k.partition, k.first, k.last + 1, parses)
    && k.slot == Slot(o.ingest, parses)
  }

  ghost predicate WellNamed(logs: Logs, parses: bool, area: Area)
  {
    forall k :: k in area ==> Named(logs, parses, k, area[k])
  }

  /** Some object of the area holds exactly this entry. */
  ghost predicate Holds(area: Area, e: Entry)
  {
    exists k :: k in area && e in area[k].entries
  }

  /** Every object of the earlier area is still there under its key, with the same entries. */
  ghost predicate Preserves(before: Area, after: Area)
  {
    forall k :: k in before ==> k in after && after[k].entries == before[k].entries
  }

  /** A cut's object deserves its name. */
  lemma CutIsNamed(logs: Logs, parses: bool, ingest: int, partition: int, lo: nat, hi: nat)
    requires partition in logs && lo <= hi <= |logs[partition]|
    ensures var batch := Entries(logs[partition], partition, lo, hi, parses);
            batch != [] ==> Named(logs, parses, KeyOf(ingest, parses, batch), Object(ingest, batch))
  {
    var batch := Entries(logs[partition], partition, lo, hi, parses);
    if batch != [] {
      RangeDeterminesBatch(logs[partition], partition, lo, hi, parses);
      EntriesMembers(logs[partition], partition, lo, hi, parses, batch[0]);
    }
  }

  /** Two objects that deserve one name hold the same entries. */
  lemma NameDeterminesEntries(logs: Logs, parses: bool, k: Key, a: Object, b: Object)
    requires Named(logs, parses, k, a) && Named(logs, parses, k, b)
    ensures a.entries == b.entries
  {
  }

  /** Overwriting is harmless: a fresh cut replaces an object of its name only by an object with the same entries. */
  lemma OverwriteIsSafe(logs: Logs, parses: bool, area: Area, ingest: int, partition: int, lo: nat, hi: nat)
    requires partition in logs && lo <= hi <= |logs[partition]|
    requires WellNamed(logs, parses, area)
    ensures var after := Put(area, ingest, parses, Entries(logs[partition], partition, lo, hi, parses));
            WellNamed(logs, parses, after) && Preserves(area, after)
  {
    var batch := Entries(logs[partition], partition, lo, hi, parses);
    CutIsNamed(logs, parses, ingest, partition, lo, hi);
    if batch != [] {
      var k0, o := KeyOf(ingest, parses, batch), Object(ingest, batch);
      if k0 in area { NameDeterminesEntries(logs, parses, k0, area[k0], o); }
    }
  }

  /**
   * When a re-landed cut replaces an object: the names agree exactly when the clock is in the same slot and the offset
   * ranges agree, and then the cuts are the same rows. Any other overlap leaves both objects, and the shared rows twice.
   */
  lemma ReplacesIff(log: Log, partition: int, parses: bool, lo: nat, hi: nat, ingest: int, lo': nat, hi': nat, ingest': int)
    requires lo <= hi <= |log| && lo' <= hi' <= |log|
    requires Entries(log, partition, lo, hi, parses) != [] && Entries(log, partition, lo', hi', parses) != []
    ensures var a, b := Entries(log, partition, lo, hi, parses), Entries(log, partition, lo', hi', parses);
            var same := KeyOf(ingest, parses, a) == KeyOf(ingest', parses, b);
            && (same <==> Slot(ingest, parses) == Slot(ingest', parses)
                          && MinOffset(a) == MinOffset(b) && MaxOffset(a) == MaxOffset(b))
            && (same <==> Slot(ingest, parses) == Slot(ingest', parses) && a == b)
  {
    var a, b := Entries(log, partition, lo, hi, parses), Entries(log, partition, lo', hi', parses);
    RangeDeterminesBatch(log, partition, lo, hi, parses);
    RangeDeterminesBatch(log, partition, lo', hi', parses);
    EntriesMembers(log, partition, lo, hi, parses, a[0]);
    EntriesMembers(log, partition, lo', hi', parses, b[0]);
  }

  lemma PreservedIsHeld(before: Area, after: Area, e: Entry)
    requires Preserves(before, after) && Holds(before, e)
    ensures Holds(after, e)
  {
    var k :| k in before && e in before[k].entries;
    assert k in after && e in after[k].entries;
  }

  /** A write lands exactly its batch: an entry is held afterwards iff it was held before or is in the batch. */
  lemma PutLandsBatch(area: Area, ingest: int, parses: bool, batch: seq<Entry>, e: Entry)
    requires Preserves(area, Put(area, ingest, parses, batch))
    ensures Holds(Put(area, ingest, parses, batch), e) <==> Holds(area, e) || e in batch
  {
    var after := Put(area, ingest, parses, batch);
    if batch != [] {
      var k0 := KeyOf(ingest, parses, batch);
      assert after[k0].entries == batch;
      if e in batch { assert k0 in after && e in after[k0].entries; }
    }
    if Holds(area, e) { PreservedIsHeld(area, after, e); }
  }

  /** Logs only grow, so names stay honest. */
  lemma AppendKeepsNames(logs: Logs, partition: int, more: Log, parses: bool, area: Area)
    requires partition in logs && WellNamed(logs, parses, area)
    ensures WellNamed(logs[partition := logs[partition] + more], parses, area)
  {
    var logs' := logs[partition := logs[partition] + more];
    forall k | k in area ensures Named(logs', parses, k, area[k]) {
      assert Named(logs, parses, k, area[k]);
      if k.partition == partition {
        EntriesAppend(logs[partition], more, partition, k.first, k.last + 1, parses);
      }
    }
  }
}
