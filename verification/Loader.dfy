/** The direct loader: the consumer's twin without a broker, and without crashes. */
module Loader {
  import opened Events
  import opened BronzeLog
  import opened ConsumerModel
  import opened StoredRows
  import opened Replays

  const PARTITIONS := 6
  const BATCH_ROWS := 5000

  /**
   * `peek.get("machine_id") or peek.get("_key") or ""`: nothing, a text, or a value that is true and that `.encode()`
   * refuses, for it is no text or holds half a surrogate pair.
   */
  datatype Peek = NoKey | TextKey(text: string) | OtherKey

  /** A line of the generator's file, as `json.loads` and the classifier see it. */
  datatype Line =
    | Blank
    | Unreadable(text: string)        // JSONDecodeError
    | Undecodable(text: string)       // any other error of the decoder, say for a number of too many digits
    | NotObject(text: string)
    | Obj(key: Peek, value: Wire)

  type Checksum32 = string -> nat

  function PartitionFor(key: string, crc32: Checksum32): (p: int)
    ensures 0 <= p < PARTITIONS
  {
    crc32(key) % PARTITIONS
  }

  /** Where reading a line raises: the decoder or `.get` on no object, `.encode()` on its key, or the parser itself. */
  predicate Raises(line: Line)
  {
    match line
    case Blank => false
    case Unreadable(_) => false
    case Undecodable(_) => true
    case NotObject(_) => true
    case Obj(key, value) => key.OtherKey? || value.Poison?
  }

  /** The key, where there is a text that is not empty. */
  function KeyText(line: Line): Option<string>
  {
    if line.Obj? && line.key.TextKey? && line.key.text != "" then Option.Some(line.key.text) else Option.None
  }

  /** Partition by key where there is one; an unreadable line goes to partition 0. */
  function PartitionOf(line: Line, crc32: Checksum32): (p: int)
    ensures 0 <= p < PARTITIONS
  {
    var key := KeyText(line);
    if key.Some? then PartitionFor(key.value, crc32) else 0
  }

  /** What the line is to a broker: `parse_line`, with the class already in the value. */
  function MessageOf(line: Line): Message
    requires !line.Blank?
  {
    var key := if line.Obj? && line.key.TextKey? then Option.Some(line.key.text) else Option.None;
    Message(key, if line.Obj? then line.value else Garbage(line.text))
  }

  /** The line's row can be written; one that cannot ends the load at its flush. */
  predicate Stores(line: Line)
  {
    line.Blank? || MessageOf(line).value.Storable()
  }

  ghost predicate StoresAll(lines: seq<Line>)
  {
    forall i :: 0 <= i < |lines| ==> Stores(lines[i])
  }

  /** The log a broker would hold for partition p after these lines. */
  function LogOf(lines: seq<Line>, crc32: Checksum32, p: int): Log
  {
    if lines == [] then []
    else
      var line := lines[|lines| - 1];
      LogOf(lines[..|lines| - 1], crc32, p)
      + (if !line.Blank? && PartitionOf(line, crc32) == p then [MessageOf(line)] else [])
  }

  function NonBlank(lines: seq<Line>): nat
  {
    if lines == [] then 0 else NonBlank(lines[..|lines| - 1]) + (if lines[|lines| - 1].Blank? then 0 else 1)
  }

  // ---- what has been flushed ----

  /** The lake so far, over the logs so far; records and rejects are flushed by turns, so each class has its own mark. */
  datatype Shelf = Shelf(
    logs: Logs, recordsDone: map<int, nat>, rejectsDone: map<int, nat>, bronze: Area, quarantine: Area,
    written: nat, quarantined: nat, objects: nat)
  {
    function Side(parses: bool): Area { if parses then bronze else quarantine }
    function Done(parses: bool): map<int, nat> { if parses then recordsDone else rejectsDone }
    function Count(parses: bool): nat { if parses then written else quarantined }
  }

  predicate IsPartition(p: int)
  {
    0 <= p < PARTITIONS
  }

  ghost predicate Framed(logs: Logs, flushed: map<int, nat>)
  {
    forall p :: IsPartition(p) ==> p in logs && p in flushed && flushed[p] <= |logs[p]|
  }

  /** Rows of one class in the flushed prefixes of the first n partitions. */
  function Rows(logs: Logs, flushed: map<int, nat>, parses: bool, n: nat): nat
    requires n <= PARTITIONS && forall p :: 0 <= p < n ==> p in logs && p in flushed && flushed[p] <= |logs[p]|
  {
    if n == 0 then 0
    else Rows(logs, flushed, parses, n - 1) + |Entries(logs[n - 1], n - 1, 0, flushed[n - 1], parses)|
  }

  /** Keys name flushed offsets only, so a new batch's key is new. */
  ghost predicate Behind(area: Area, flushed: map<int, nat>)
  {
    forall k :: k in area ==> k.partition in flushed && k.last < flushed[k.partition]
  }

  /** An area holds exactly the flushed entries of its class. */
  ghost predicate HoldsFlushed(area: Area, logs: Logs, flushed: map<int, nat>, parses: bool)
  {
    && WellNamed(logs, parses, area) && Behind(area, flushed)
    && forall p, o: nat :: p in logs && p in flushed && o < flushed[p] && o < |logs[p]| && At(logs, p, o).Parses() == parses
         ==> Holds(area, At(logs, p, o))
  }

  function At(logs: Logs, p: int, o: nat): Entry
    requires p in logs && o < |logs[p]|
  {
    Entry(p, o, logs[p][o])
  }

  ghost predicate StoredArea(logs: Logs, flushed: map<int, nat>, area: Area, parses: bool)
  {
    Framed(logs, flushed) && logs.Keys == flushed.Keys && HoldsFlushed(area, logs, flushed, parses)
  }

  ghost predicate StoredSide(x: Shelf, parses: bool)
  {
    StoredArea(x.logs, x.Done(parses), x.Side(parses), parses)
  }

  ghost predicate Stored(x: Shelf)
  {
    && (forall p :: p in x.logs ==> IsPartition(p)) && StoredSide(x, true) && StoredSide(x, false)
    && x.objects == |x.bronze| + |x.quarantine|
  }

  ghost predicate CountedSide(x: Shelf, parses: bool)
  {
    Framed(x.logs, x.Done(parses)) && x.Count(parses) == Rows(x.logs, x.Done(parses), parses, PARTITIONS)
  }

  ghost predicate Counted(x: Shelf)
  {
    CountedSide(x, true) && CountedSide(x, false)
  }

  /** No row lies twice, and the counters count stored rows. */
  ghost predicate Single(x: Shelf)
  {
    && Apart(x.bronze) && Apart(x.quarantine)
    && x.written == |Spots(x.bronze)| && x.quarantined == |Spots(x.quarantine)|
  }

  ghost predicate IsFlushed(x: Shelf, parses: bool, p: int, o: nat)
  {
    p in x.logs && p in x.Done(parses) && o < x.Done(parses)[p] && o < |x.logs[p]| && At(x.logs, p, o).Parses() == parses
  }

  /** What was flushed could be stored. */
  ghost predicate FlushedFit(x: Shelf, parses: bool)
  {
    forall p, o: nat :: IsFlushed(x, parses, p, o) ==> x.logs[p][o].value.Storable()
  }

  /** Storage holds what was flushed, each row once, in objects no flush replaced, and the counters say how much. */
  ghost predicate Sound(x: Shelf)
  {
    Stored(x) && Counted(x) && Single(x) && FlushedFit(x, true) && FlushedFit(x, false)
  }

  // ---- appending ----

  lemma {:induction false} RowsIgnoreAppend(logs: Logs, flushed: map<int, nat>, p: int, m: Message, parses: bool, n: nat)
    requires Framed(logs, flushed) && n <= PARTITIONS && p in logs
    ensures Rows(logs[p := logs[p] + [m]], flushed, parses, n) == Rows(logs, flushed, parses, n)
    decreases n
  {
    if n > 0 {
      RowsIgnoreAppend(logs, flushed, p, m, parses, n - 1);
      if p == n - 1 { EntriesAppend(logs[p], [m], p, 0, flushed[p], parses); }
    }
  }

  lemma HoldsFlushedAfterAppend(area: Area, logs: Logs, flushed: map<int, nat>, p: int, m: Message, parses: bool)
    requires p in logs && HoldsFlushed(area, logs, flushed, parses)
    requires p in flushed && flushed[p] <= |logs[p]|
    ensures HoldsFlushed(area, logs[p := logs[p] + [m]], flushed, parses)
  {
    AppendKeepsNames(logs, p, [m], parses, area);
    var longer := logs[p := logs[p] + [m]];
    forall q, o: nat | q in longer && q in flushed && o < flushed[q] && o < |longer[q]| && At(longer, q, o).Parses() == parses
      ensures Holds(area, At(longer, q, o))
    {
      assert At(longer, q, o) == At(logs, q, o);
    }
  }

  lemma AppendKeepsStored(x: Shelf, p: int, m: Message)
    requires Stored(x) && IsPartition(p)
    ensures Stored(x.(logs := x.logs[p := x.logs[p] + [m]]))
  {
    HoldsFlushedAfterAppend(x.bronze, x.logs, x.recordsDone, p, m, true);
    HoldsFlushedAfterAppend(x.quarantine, x.logs, x.rejectsDone, p, m, false);
  }

  lemma AppendKeepsCounted(x: Shelf, p: int, m: Message)
    requires Counted(x) && p in x.logs
    ensures Counted(x.(logs := x.logs[p := x.logs[p] + [m]]))
  {
    RowsIgnoreAppend(x.logs, x.recordsDone, p, m, true, PARTITIONS);
    RowsIgnoreAppend(x.logs, x.rejectsDone, p, m, false, PARTITIONS);
  }

  lemma AppendKeepsSound(x: Shelf, p: int, m: Message)
    requires Sound(x) && IsPartition(p)
    ensures Sound(x.(logs := x.logs[p := x.logs[p] + [m]]))
  {
    AppendKeepsStored(x, p, m);
    AppendKeepsCounted(x, p, m);
    AppendKeepsFit(x, p, m, true);
    AppendKeepsFit(x, p, m, false);
  }

  lemma AppendKeepsFit(x: Shelf, p: int, m: Message, parses: bool)
    requires Stored(x) && FlushedFit(x, parses) && p in x.logs
    ensures FlushedFit(x.(logs := x.logs[p := x.logs[p] + [m]]), parses)
  {
    var y := x.(logs := x.logs[p := x.logs[p] + [m]]);
    forall q, o: nat | IsFlushed(y, parses, q, o) ensures y.logs[q][o].value.Storable() {
      assert IsPartition(q);
      assert StoredSide(x, parses);
      assert y.logs[q][o] == x.logs[q][o];
      assert IsFlushed(x, parses, q, o);
    }
  }

  // ---- flushing ----

  /** What is buffered of one class: the unflushed tail of the partition. */
  function Tail(x: Shelf, p: int, parses: bool): seq<Entry>
    requires p in x.logs && p in x.Done(parses) && x.Done(parses)[p] <= |x.logs[p]|
  {
    Entries(x.logs[p], p, x.Done(parses)[p], |x.logs[p]|, parses)
  }

  /** One half of the nested `flush`: write the class if there is any of it, count rows and objects. */
  function AfterHalf(x: Shelf, p: int, parses: bool, ingest: int): Shelf
    requires p in x.logs && p in x.Done(parses) && x.Done(parses)[p] <= |x.logs[p]|
  {
    var batch, done := Tail(x, p, parses), x.Done(parses)[p := |x.logs[p]|];
    var y := x.(objects := x.objects + if batch == [] then 0 else 1);
    if parses then y.(recordsDone := done, bronze := Put(x.bronze, ingest, true, batch), written := x.written + |batch|)
    else y.(rejectsDone := done, quarantine := Put(x.quarantine, ingest, false, batch), quarantined := x.quarantined + |batch|)
  }

  /** Both halves of the partition can be written. */
  predicate Flushable(x: Shelf, p: int)
    requires Framed(x.logs, x.recordsDone) && Framed(x.logs, x.rejectsDone) && IsPartition(p)
  {
    Fits(Tail(x, p, true)) && Fits(Tail(x, p, false))
  }

  /** The nested `flush`, as far as it gets: records, then rejects, up to the first batch that cannot be written. */
  function AfterFlush(x: Shelf, p: int, bronzeAt: int, quarantineAt: int): Shelf
    requires Framed(x.logs, x.recordsDone) && Framed(x.logs, x.rejectsDone) && IsPartition(p)
  {
    if !Fits(Tail(x, p, true)) then x
    else
      var half := AfterHalf(x, p, true, bronzeAt);
      if !Fits(Tail(x, p, false)) then half else AfterHalf(half, p, false, quarantineAt)
  }

  lemma {:induction false} RowsGrow(logs: Logs, flushed: map<int, nat>, p: int, parses: bool, n: nat)
    requires Framed(logs, flushed) && n <= PARTITIONS && IsPartition(p)
    ensures Rows(logs, flushed[p := |logs[p]|], parses, n)
         == Rows(logs, flushed, parses, n) + if p < n then |Entries(logs[p], p, flushed[p], |logs[p]|, parses)| else 0
    decreases n
  {
    if n > 0 {
      RowsGrow(logs, flushed, p, parses, n - 1);
      if p == n - 1 { EntriesSplit(logs[p], p, 0, flushed[p], |logs[p]|, parses); }
    }
  }

  /** A flush's object is new: its offsets start where the last flush ended. */
  lemma FlushKeyIsNew(logs: Logs, flushed: map<int, nat>, area: Area, p: int, ingest: int, parses: bool)
    requires p in logs && p in flushed && flushed[p] <= |logs[p]| && HoldsFlushed(area, logs, flushed, parses)
    ensures var batch := Entries(logs[p], p, flushed[p], |logs[p]|, parses);
            batch != [] ==> KeyOf(ingest, parses, batch) !in area
                            && KeyOf(ingest, parses, batch).partition == p
                            && flushed[p] <= KeyOf(ingest, parses, batch).first
                            && KeyOf(ingest, parses, batch).last < |logs[p]|
  {
    var batch := Entries(logs[p], p, flushed[p], |logs[p]|, parses);
    if batch != [] {
      RangeBounds(logs[p], p, flushed[p], |logs[p]|, parses);
      EntriesMembers(logs[p], p, flushed[p], |logs[p]|, parses, batch[0]);
      assert forall k :: k in area ==> Named(logs, parses, k, area[k]) && k.first <= k.last;
    }
  }

  /** What was flushed is still held, and the batch with it. */
  lemma FlushedIsHeld(logs: Logs, flushed: map<int, nat>, area: Area, p: int, ingest: int, parses: bool, q: int, o: nat)
    requires p in logs && p in flushed && flushed[p] <= |logs[p]| && HoldsFlushed(area, logs, flushed, parses)
    requires q in logs && q in flushed && o < |logs[q]| && At(logs, q, o).Parses() == parses
    requires o < flushed[q] || q == p
    ensures var batch := Entries(logs[p], p, flushed[p], |logs[p]|, parses);
            Holds(Put(area, ingest, parses, batch), At(logs, q, o))
  {
    var batch, e := Entries(logs[p], p, flushed[p], |logs[p]|, parses), At(logs, q, o);
    OverwriteIsSafe(logs, parses, area, ingest, p, flushed[p], |logs[p]|);
    PutLandsBatch(area, ingest, parses, batch, e);
    EntriesMembers(logs[p], p, flushed[p], |logs[p]|, parses, e);
  }

  lemma KeysAfterFlush(logs: Logs, flushed: map<int, nat>, area: Area, p: int, ingest: int, parses: bool)
    requires p in logs && p in flushed && flushed[p] <= |logs[p]| && HoldsFlushed(area, logs, flushed, parses)
    ensures var batch := Entries(logs[p], p, flushed[p], |logs[p]|, parses);
            var after := Put(area, ingest, parses, batch);
            && WellNamed(logs, parses, after) && Behind(after, flushed[p := |logs[p]|])
            && |after| == |area| + if batch == [] then 0 else 1
  {
    FlushKeyIsNew(logs, flushed, area, p, ingest, parses);
    OverwriteIsSafe(logs, parses, area, ingest, p, flushed[p], |logs[p]|);
  }

  lemma AreaAfterFlush(logs: Logs, flushed: map<int, nat>, area: Area, p: int, ingest: int, parses: bool)
    requires p in logs && p in flushed && flushed[p] <= |logs[p]| && HoldsFlushed(area, logs, flushed, parses)
    ensures var batch := Entries(logs[p], p, flushed[p], |logs[p]|, parses);
            var after := Put(area, ingest, parses, batch);
            && HoldsFlushed(after, logs, flushed[p := |logs[p]|], parses)
            && |after| == |area| + if batch == [] then 0 else 1
  {
    var batch := Entries(logs[p], p, flushed[p], |logs[p]|, parses);
    var after, further := Put(area, ingest, parses, batch), flushed[p := |logs[p]|];
    KeysAfterFlush(logs, flushed, area, p, ingest, parses);
    forall q, o: nat | q in logs && q in further && o < further[q] && o < |logs[q]| && At(logs, q, o).Parses() == parses
      ensures Holds(after, At(logs, q, o))
    {
      FlushedIsHeld(logs, flushed, area, p, ingest, parses, q, o);
    }
  }

  /** The new object's range lies past every range of its partition, so no row comes to lie twice. */
  lemma FlushAddsRows(logs: Logs, flushed: map<int, nat>, area: Area, p: int, ingest: int, parses: bool)
    requires p in logs && p in flushed && flushed[p] <= |logs[p]| && HoldsFlushed(area, logs, flushed, parses) && Apart(area)
    ensures var batch := Entries(logs[p], p, flushed[p], |logs[p]|, parses);
            var after := Put(area, ingest, parses, batch);
            Apart(after) && |Spots(after)| == |Spots(area)| + |batch|
  {
    var batch := Entries(logs[p], p, flushed[p], |logs[p]|, parses);
    FlushKeyIsNew(logs, flushed, area, p, ingest, parses);
    if batch != [] {
      NewObjectAddsRows(area, KeyOf(ingest, parses, batch), Object(ingest, batch));
    }
  }

  lemma AreaStaysApart(logs: Logs, flushed: map<int, nat>, area: Area, p: int, ingest: int, parses: bool)
    requires StoredArea(logs, flushed, area, parses) && IsPartition(p) && Apart(area)
    ensures var batch := Entries(logs[p], p, flushed[p], |logs[p]|, parses);
            Apart(Put(area, ingest, parses, batch)) && |Spots(Put(area, ingest, parses, batch))| == |Spots(area)| + |batch|
  {
    FlushAddsRows(logs, flushed, area, p, ingest, parses);
  }

  lemma HalfKeepsSingle(x: Shelf, p: int, parses: bool, ingest: int)
    requires StoredSide(x, parses) && Single(x) && IsPartition(p)
    ensures Single(AfterHalf(x, p, parses, ingest))
  {
    AreaStaysApart(x.logs, x.Done(parses), x.Side(parses), p, ingest, parses);
  }

  lemma HalfKeepsCounted(x: Shelf, p: int, parses: bool, ingest: int)
    requires Counted(x) && IsPartition(p)
    ensures Counted(AfterHalf(x, p, parses, ingest))
  {
    assert CountedSide(x, parses);
    RowsGrow(x.logs, x.Done(parses), p, parses, PARTITIONS);
    assert CountedSide(AfterHalf(x, p, parses, ingest), !parses);
  }

  lemma AreaStaysStored(logs: Logs, flushed: map<int, nat>, area: Area, p: int, ingest: int, parses: bool)
    requires StoredArea(logs, flushed, area, parses) && IsPartition(p)
    ensures var batch := Entries(logs[p], p, flushed[p], |logs[p]|, parses);
            && StoredArea(logs, flushed[p := |logs[p]|], Put(area, ingest, parses, batch), parses)
            && |Put(area, ingest, parses, batch)| == |area| + if batch == [] then 0 else 1
  {
    AreaAfterFlush(logs, flushed, area, p, ingest, parses);
  }

  lemma HalfKeepsStored(x: Shelf, p: int, parses: bool, ingest: int)
    requires Stored(x) && IsPartition(p)
    ensures Stored(AfterHalf(x, p, parses, ingest))
  {
    AreaStaysStored(x.logs, x.Done(parses), x.Side(parses), p, ingest, parses);
  }

  lemma HalfKeepsFit(x: Shelf, p: int, parses: bool, ingest: int)
    requires StoredSide(x, parses) && FlushedFit(x, parses) && IsPartition(p) && Fits(Tail(x, p, parses))
    ensures FlushedFit(AfterHalf(x, p, parses, ingest), parses)
  {
    var y, batch := AfterHalf(x, p, parses, ingest), Tail(x, p, parses);
    forall q, o: nat | IsFlushed(y, parses, q, o) ensures y.logs[q][o].value.Storable() {
      if q == p && o >= x.Done(parses)[p] {
        EntriesMembers(x.logs[p], p, x.Done(parses)[p], |x.logs[p]|, parses, At(x.logs, p, o));
        assert At(x.logs, p, o) in batch;
      } else {
        assert IsFlushed(x, parses, q, o);
      }
    }
  }

  lemma HalfKeepsSound(x: Shelf, p: int, parses: bool, ingest: int)
    requires Sound(x) && IsPartition(p) && Fits(Tail(x, p, parses))
    ensures Sound(AfterHalf(x, p, parses, ingest))
  {
    HalfKeepsCounted(x, p, parses, ingest);
    HalfKeepsStored(x, p, parses, ingest);
    HalfKeepsSingle(x, p, parses, ingest);
    HalfKeepsFit(x, p, parses, ingest);
    assert FlushedFit(AfterHalf(x, p, parses, ingest), !parses);
  }

  lemma FlushKeepsSound(x: Shelf, p: int, bronzeAt: int, quarantineAt: int)
    requires Sound(x) && IsPartition(p)
    ensures Sound(AfterFlush(x, p, bronzeAt, quarantineAt))
  {
    if Fits(Tail(x, p, true)) {
      HalfKeepsSound(x, p, true, bronzeAt);
      var half := AfterHalf(x, p, true, bronzeAt);
      assert Tail(half, p, false) == Tail(x, p, false);
      if Fits(Tail(x, p, false)) { HalfKeepsSound(half, p, false, quarantineAt); }
    }
  }

  // ---- the loader ----

  /** The loader's buffers are the unflushed tails, and its offsets the lengths, of the logs so far. */
  ghost predicate Buffers(x: Shelf, offsets: map<int, nat>, batches: map<int, seq<Entry>>, rejects: map<int, seq<Entry>>)
  {
    && Framed(x.logs, x.recordsDone) && Framed(x.logs, x.rejectsDone)
    && forall p :: IsPartition(p) ==>
         && p in offsets && p in batches && p in rejects
         && offsets[p] == |x.logs[p]| && batches[p] == Tail(x, p, true) && rejects[p] == Tail(x, p, false)
  }

  /** `dict.fromkeys(range(PARTITIONS), v)`. */
  function ForEach<T>(v: T): (r: map<int, T>)
    ensures forall p :: p in r <==> IsPartition(p)
    ensures forall p :: p in r ==> r[p] == v
  {
    map[0 := v, 1 := v, 2 := v, 3 := v, 4 := v, 5 := v]
  }

  const NOTHING_READ: Logs := ForEach([])
  const NOTHING_FLUSHED: map<int, nat> := ForEach(0)
  const EMPTY_SHELF := Shelf(NOTHING_READ, NOTHING_FLUSHED, NOTHING_FLUSHED, map[], map[], 0, 0, 0)

  lemma {:induction false} NoRows(parses: bool, n: nat)
    requires n <= PARTITIONS
    ensures Rows(NOTHING_READ, NOTHING_FLUSHED, parses, n) == 0
    decreases n
  {
    if n > 0 { NoRows(parses, n - 1); }
  }

  lemma EmptyShelfIsSound()
    ensures Sound(EMPTY_SHELF)
  {
    NoRows(true, PARTITIONS);
    NoRows(false, PARTITIONS);
    assert Spots(map[]) == {};
  }

  lemma HalfEmptiesBuffers(
    x: Shelf, offsets: map<int, nat>, batches: map<int, seq<Entry>>, rejects: map<int, seq<Entry>>, p: int, parses: bool, ingest: int)
    requires Buffers(x, offsets, batches, rejects) && IsPartition(p)
    ensures Buffers(AfterHalf(x, p, parses, ingest), offsets,
              if parses then batches[p := []] else batches, if parses then rejects else rejects[p := []])
  {
  }

  lemma AppendExtendsBuffers(
    x: Shelf, offsets: map<int, nat>, batches: map<int, seq<Entry>>, rejects: map<int, seq<Entry>>, p: int, m: Message)
    requires Buffers(x, offsets, batches, rejects) && IsPartition(p)
    ensures var e := Entry(p, offsets[p], m);
            Buffers(x.(logs := x.logs[p := x.logs[p] + [m]]), offsets[p := offsets[p] + 1],
              if e.Parses() then batches[p := batches[p] + [e]] else batches,
              if e.Parses() then rejects else rejects[p := rejects[p] + [e]])
  {
    EntriesAppend(x.logs[p], [m], p, x.recordsDone[p], |x.logs[p]|, true);
    EntriesAppend(x.logs[p], [m], p, x.rejectsDone[p], |x.logs[p]|, false);
  }

  /** The shelf after one more line. */
  function AfterLine(x: Shelf, line: Line, crc32: Checksum32): Shelf
    requires Framed(x.logs, x.recordsDone)
  {
    if line.Blank? then x
    else
      var p := PartitionOf(line, crc32);
      x.(logs := x.logs[p := x.logs[p] + [MessageOf(line)]])
  }

  /** The lake is sound, and its logs are what the lines so far put in each partition. */
  ghost predicate Faithful(x: Shelf, seen: seq<Line>, crc32: Checksum32)
  {
    Sound(x) && LogsAre(x.logs, seen, crc32)
  }

  ghost predicate LogsAre(logs: Logs, seen: seq<Line>, crc32: Checksum32)
  {
    forall p :: p in logs ==> logs[p] == LogOf(seen, crc32, p)
  }

  lemma BeginsFaithful(crc32: Checksum32)
    ensures Faithful(EMPTY_SHELF, [], crc32)
  {
    EmptyShelfIsSound();
  }

  lemma LineKeepsLogs(logs: Logs, seen: seq<Line>, line: Line, crc32: Checksum32)
    requires PartitionOf(line, crc32) in logs && LogsAre(logs, seen, crc32)
    ensures var at := PartitionOf(line, crc32);
            LogsAre(if line.Blank? then logs else logs[at := logs[at] + [MessageOf(line)]], seen + [line], crc32)
  {
    assert (seen + [line])[..|seen|] == seen;
  }

  lemma LineKeepsFaithful(x: Shelf, seen: seq<Line>, line: Line, crc32: Checksum32)
    requires Faithful(x, seen, crc32)
    ensures Faithful(AfterLine(x, line, crc32), seen + [line], crc32)
  {
    var p := PartitionOf(line, crc32);
    PartitionsStay(x, p);
    LineKeepsLogs(x.logs, seen, line, crc32);
    if !line.Blank? { AppendKeepsSound(x, p, MessageOf(line)); }
  }

  lemma PartitionsStay(x: Shelf, p: int)
    requires Sound(x) && IsPartition(p)
    ensures p in x.logs
  {
  }

  lemma FlushKeepsLogs(x: Shelf, p: int, bronzeAt: int, quarantineAt: int)
    requires Framed(x.logs, x.recordsDone) && Framed(x.logs, x.rejectsDone) && IsPartition(p)
    ensures AfterFlush(x, p, bronzeAt, quarantineAt).logs == x.logs
  {
  }

  lemma FlushKeepsFaithful(x: Shelf, seen: seq<Line>, crc32: Checksum32, p: int, bronzeAt: int, quarantineAt: int)
    requires Faithful(x, seen, crc32) && IsPartition(p)
    ensures Faithful(AfterFlush(x, p, bronzeAt, quarantineAt), seen, crc32)
  {
    FlushKeepsSound(x, p, bronzeAt, quarantineAt);
    FlushKeepsLogs(x, p, bronzeAt, quarantineAt);
    SameLogsFaithful(x, AfterFlush(x, p, bronzeAt, quarantineAt), seen, crc32);
  }

  lemma SameLogsFaithful(x: Shelf, y: Shelf, seen: seq<Line>, crc32: Checksum32)
    requires Faithful(x, seen, crc32) && Sound(y) && y.logs == x.logs
    ensures Faithful(y, seen, crc32)
  {
  }

  /** The first line, from here on, that raises; the end if none does. */
  function FirstError(lines: seq<Line>, from: nat): (n: nat)
    requires from <= |lines|
    ensures from <= n <= |lines| && (n < |lines| ==> Raises(lines[n]))
    ensures forall j :: from <= j < n ==> !Raises(lines[j])
    decreases |lines| - from
  {
    if from == |lines| || Raises(lines[from]) then from else FirstError(lines, from + 1)
  }

  lemma PrefixGrows(lines: seq<Line>, n: nat)
    requires n < |lines|
    ensures lines[..n + 1] == lines[..n] + [lines[n]]
  {
  }

  method Now() returns (instant: int)
  {
    instant := *;
  }

  ghost predicate AllSmall(batches: map<int, seq<Entry>>)
  {
    forall p :: IsPartition(p) ==> p in batches && |batches[p]| < BATCH_ROWS
  }

  lemma StillSmall(before: map<int, seq<Entry>>, accepted: map<int, seq<Entry>>, after: map<int, seq<Entry>>, p: int)
    requires AllSmall(before) && p in accepted && accepted == before[p := accepted[p]]
    requires after == if |accepted[p]| < BATCH_ROWS then accepted else accepted[p := []]
    ensures AllSmall(after)
  {
  }

  class DirectLoader {
    const crc32: Checksum32
    var offsets: map<int, nat>
    var batches: map<int, seq<Entry>>
    var rejects: map<int, seq<Entry>>
    var written: nat
    var quarantined: nat
    var objects: nat
    var bronze: Area
    var quarantine: Area

    /** The fields are this shelf's buffers, counters and storage. */
    ghost predicate Represents(x: Shelf)
      reads this
    {
      && Buffers(x, offsets, batches, rejects)
      && x.bronze == bronze && x.quarantine == quarantine
      && x.written == written && x.quarantined == quarantined && x.objects == objects
    }

    /** No full batch waits: a flush takes it as soon as it is full. */
    ghost predicate SmallBatches()
      reads this
    {
      AllSmall(batches)
    }

    constructor (crc32: Checksum32)
      ensures SmallBatches()
      ensures Represents(EMPTY_SHELF) && this.crc32 == crc32
    {
      this.crc32 := crc32;
      offsets, batches, rejects := ForEach(0), ForEach([]), ForEach([]);
      written, quarantined, objects := 0, 0, 0;
      bronze, quarantine := map[], map[];
    }

    /** False is `write_bronze` raising while it builds the table: nothing has changed then. */
    method WriteBatch(p: int, ghost x: Shelf) returns (ok: bool, ghost ingest: int)
      requires Represents(x) && IsPartition(p)
      modifies `batches, `bronze, `written, `objects
      ensures ok == Fits(Tail(x, p, true))
      ensures Represents(if ok then AfterHalf(x, p, true, ingest) else x)
      ensures batches == if ok then old(batches)[p := []] else old(batches)
    {
      ghost var was := batches;
      ok, ingest := true, 0;
      if batches[p] != [] {
        if !Fits(batches[p]) { return false, 0; }
        var instant := Now();
        ingest := instant;
        bronze := Put(bronze, instant, true, batches[p]);
        written, objects := written + |batches[p]|, objects + 1;
        batches := batches[p := []];
      }
      assert batches == was[p := []];
      HalfEmptiesBuffers(x, offsets, was, rejects, p, true, ingest);
    }

    method WriteRejects(p: int, ghost x: Shelf) returns (ok: bool, ghost ingest: int)
      requires Represents(x) && IsPartition(p)
      modifies `rejects, `quarantine, `quarantined, `objects
      ensures ok == Fits(Tail(x, p, false))
      ensures Represents(if ok then AfterHalf(x, p, false, ingest) else x)
    {
      ghost var was := rejects;
      ok, ingest := true, 0;
      if rejects[p] != [] {
        if !Fits(rejects[p]) { return false, 0; }
        var instant := Now();
        ingest := instant;
        quarantine := Put(quarantine, instant, false, rejects[p]);
        quarantined, objects := quarantined + |rejects[p]|, objects + 1;
        rejects := rejects[p := []];
      }
      assert rejects == was[p := []];
      HalfEmptiesBuffers(x, offsets, batches, was, p, false, ingest);
    }

    /** The nested `flush`; false is the exception of the write that was refused. */
    method Flush(p: int, ghost x: Shelf) returns (ok: bool, ghost bronzeAt: int, ghost quarantineAt: int)
      requires Represents(x) && IsPartition(p)
      modifies `batches, `rejects, `written, `quarantined, `objects, `bronze, `quarantine
      ensures Represents(AfterFlush(x, p, bronzeAt, quarantineAt)) && ok == Flushable(x, p)
      ensures ok ==> batches == old(batches)[p := []]
    {
      quarantineAt := 0;
      ok, bronzeAt := WriteBatch(p, x);
      if ok {
        ok, quarantineAt := WriteRejects(p, AfterHalf(x, p, true, bronzeAt));
      }
    }

    /** One parsed message takes the next offset of its partition. */
    method Accept(p: int, m: Message, ghost x: Shelf)
      requires Represents(x) && IsPartition(p)
      modifies this`offsets, this`batches, this`rejects
      ensures Represents(x.(logs := x.logs[p := x.logs[p] + [m]]))
      ensures p in batches && batches == old(batches)[p := batches[p]]
    {
      var e := Entry(p, offsets[p], m);
      AppendExtendsBuffers(x, offsets, batches, rejects, p, m);
      offsets := offsets[p := offsets[p] + 1];
      if e.Parses() {
        batches := batches[p := batches[p] + [e]];
      } else {
        rejects := rejects[p := rejects[p] + [e]];
      }
    }

    /** One line that does not raise: blanks are skipped, a full batch is flushed; false is that flush raising. */
    method Read(line: Line, ghost x: Shelf, ghost seen: seq<Line>) returns (ok: bool, ghost y: Shelf)
      requires Represents(x) && Faithful(x, seen, crc32) && !Raises(line) && SmallBatches()
      modifies this
      ensures Represents(y) && Faithful(y, seen + [line], crc32)
      ensures ok ==> SmallBatches()
      ensures !ok ==> !StoresAll(seen + [line])
    {
      ok, y := true, AfterLine(x, line, crc32);
      LineKeepsFaithful(x, seen, line, crc32);
      if !line.Blank? { ok, y := Take(PartitionOf(line, crc32), MessageOf(line), x, y, seen + [line]); }
    }

    /** A message joins its partition, and the partition is flushed when that fills its batch. */
    method Take(p: int, m: Message, ghost x: Shelf, ghost taken: Shelf, ghost seen: seq<Line>) returns (ok: bool, ghost y: Shelf)
      requires Represents(x) && IsPartition(p) && taken == x.(logs := x.logs[p := x.logs[p] + [m]])
      requires Faithful(taken, seen, crc32) && SmallBatches()
      modifies this
      ensures Represents(y) && Faithful(y, seen, crc32)
      ensures ok ==> SmallBatches()
      ensures !ok ==> !StoresAll(seen)
    {
      ghost var before := batches;
      Accept(p, m, x);
      ghost var accepted := batches;
      ok, y := FlushIfFull(p, taken, seen);
      if ok { StillSmall(before, accepted, batches, p); }
    }

    method FlushIfFull(p: int, ghost x: Shelf, ghost seen: seq<Line>) returns (ok: bool, ghost y: Shelf)
      requires Represents(x) && Faithful(x, seen, crc32) && IsPartition(p)
      modifies this
      ensures Represents(y) && Faithful(y, seen, crc32)
      ensures p in old(batches)
      ensures ok ==> batches == if |old(batches)[p]| < BATCH_ROWS then old(batches) else old(batches)[p := []]
      ensures !ok ==> !StoresAll(seen)
    {
      if |batches[p]| < BATCH_ROWS { return true, x; }
      ok, y := TryFlush(p, x, seen);
    }

    /** A flush, of the lines so far. */
    method TryFlush(p: int, ghost x: Shelf, ghost seen: seq<Line>) returns (ok: bool, ghost y: Shelf)
      requires Represents(x) && Faithful(x, seen, crc32) && IsPartition(p)
      modifies `batches, `rejects, `written, `quarantined, `objects, `bronze, `quarantine
      ensures Represents(y) && Faithful(y, seen, crc32)
      ensures ok ==> FlushedThrough(x, y, p) && batches == old(batches)[p := []]
      ensures !ok ==> !StoresAll(seen)
    {
      ghost var bronzeAt, quarantineAt;
      ok, bronzeAt, quarantineAt := Flush(p, x);
      y := AfterFlush(x, p, bronzeAt, quarantineAt);
      FlushKeepsFaithful(x, seen, crc32, p, bronzeAt, quarantineAt);
      if ok { FlushIsThrough(x, p, bronzeAt, quarantineAt); }
      if !ok { UnflushableHasUnstorable(x, seen, crc32, p); }
    }

    /** The final flushes, in partition order, up to the first that raises. */
    method FlushAll(ghost x: Shelf, ghost seen: seq<Line>) returns (ok: bool, ghost y: Shelf)
      requires Represents(x) && Faithful(x, seen, crc32)
      modifies this
      ensures Represents(y) && Faithful(y, seen, crc32)
      ensures ok ==> AllFlushed(y, PARTITIONS)
      ensures !ok ==> !StoresAll(seen)
    {
      ok, y := true, x;
      for p := 0 to PARTITIONS
        invariant Represents(y) && Faithful(y, seen, crc32) && AllFlushed(y, p)
      {
        ghost var before := y;
        ok, y := TryFlush(p, y, seen);
        if !ok { return; }
        OneMoreFlushed(before, y, p);
      }
    }

    /** The line loop: it ends early at the first line that raises, or at a flush that does. */
    method ReadLines(lines: seq<Line>) returns (ok: bool, n: nat, ghost y: Shelf)
      requires Represents(EMPTY_SHELF) && SmallBatches()
      modifies this
      ensures n <= FirstError(lines, 0) && Represents(y) && Faithful(y, lines[..n], crc32)
      ensures ok ==> n == FirstError(lines, 0)
      ensures !ok ==> !StoresAll(lines[..n])
    {
      ok, n, y := true, 0, EMPTY_SHELF;
      BeginsFaithful(crc32);
      while ok && n < |lines| && !Raises(lines[n])
        invariant n <= |lines| && n <= FirstError(lines, 0)
        invariant Represents(y) && Faithful(y, lines[..n], crc32) && (ok ==> SmallBatches()) && (!ok ==> !StoresAll(lines[..n]))
        invariant FirstError(lines, n) == FirstError(lines, 0)
      {
        var line := lines[n];
        PrefixGrows(lines, n);
        ok, y := Read(line, y, lines[..n]);
        n := n + 1;
      }
    }

    /**
     * `load`: false is an exception, of the first line that raises or of a flush whose rows cannot all be written; what
     * was flushed until then stays, sound for the lines before. Otherwise every line is read and everything is flushed.
     */
    method Load(lines: seq<Line>) returns (ok: bool, ghost n: nat, ghost y: Shelf)
      requires Represents(EMPTY_SHELF) && SmallBatches()
      modifies this
      ensures n <= FirstError(lines, 0) && Represents(y) && Faithful(y, lines[..n], crc32)
      ensures StoresAll(lines[..FirstError(lines, 0)]) ==> n == FirstError(lines, 0)
      ensures ok <==> Loadable(lines)
      ensures ok ==> n == |lines| && AllFlushed(y, PARTITIONS)
    {
      var read;
      ok, read, y := ReadLines(lines);
      n := read;
      VerdictOfPrefix(lines, n);
      if !ok || read < |lines| {
        ok := false;
        return;
      }
      WholePrefix(lines, n);
      ok, y := FlushAll(y, lines);
      if ok { FinishedStoresAll(y, lines, crc32); }
    }
  }

  /** Every line is read, and its row can be written. */
  ghost predicate Loadable(lines: seq<Line>)
  {
    forall i :: 0 <= i < |lines| ==> !Raises(lines[i]) && Stores(lines[i])
  }

  lemma VerdictOfPrefix(lines: seq<Line>, n: nat)
    requires n <= FirstError(lines, 0)
    ensures StoresAll(lines[..FirstError(lines, 0)]) ==> StoresAll(lines[..n])
    ensures StoresAll(lines) ==> StoresAll(lines[..n])
    ensures Loadable(lines) <==> StoresAll(lines) && FirstError(lines, 0) == |lines|
  {
    var m := FirstError(lines, 0);
    assert forall i :: 0 <= i < n ==> lines[..m][i] == lines[i] == lines[..n][i];
  }

  lemma WholePrefix(lines: seq<Line>, n: nat)
    requires n == |lines|
    ensures lines[..n] == lines
  {
  }

  ghost predicate AllFlushed(x: Shelf, n: int)
  {
    forall p :: 0 <= p < n && IsPartition(p) ==> DoneWith(x, p)
  }

  ghost predicate DoneWith(x: Shelf, p: int)
  {
    p in x.logs && p in x.recordsDone && p in x.rejectsDone && x.recordsDone[p] == |x.logs[p]| == x.rejectsDone[p]
  }

  /** One partition is done, and those done before stay so. */
  ghost predicate FlushedThrough(x: Shelf, y: Shelf, p: int)
  {
    DoneWith(y, p) && forall q :: DoneWith(x, q) ==> DoneWith(y, q)
  }

  lemma FlushIsThrough(x: Shelf, p: int, bronzeAt: int, quarantineAt: int)
    requires Framed(x.logs, x.recordsDone) && Framed(x.logs, x.rejectsDone) && IsPartition(p) && Flushable(x, p)
    ensures FlushedThrough(x, AfterFlush(x, p, bronzeAt, quarantineAt), p)
  {
  }

  lemma OneMoreFlushed(x: Shelf, y: Shelf, p: int)
    requires IsPartition(p) && AllFlushed(x, p) && FlushedThrough(x, y, p)
    ensures AllFlushed(y, p + 1)
  {
  }

  // ---- which loads finish ----

  /** Each message of a partition is some line's. */
  lemma {:induction false} MessageHasLine(lines: seq<Line>, crc32: Checksum32, p: int, o: nat) returns (i: nat)
    requires o < |LogOf(lines, crc32, p)|
    ensures i < |lines| && !lines[i].Blank? && MessageOf(lines[i]) == LogOf(lines, crc32, p)[o]
    decreases |lines|
  {
    var n := |lines| - 1;
    if o < |LogOf(lines[..n], crc32, p)| {
      i := MessageHasLine(lines[..n], crc32, p, o);
    } else {
      i := n;
    }
  }

  /** Each line that is not blank is some message of its partition. */
  lemma {:induction false} LineHasMessage(lines: seq<Line>, crc32: Checksum32, i: nat) returns (o: nat)
    requires i < |lines| && !lines[i].Blank?
    ensures var log := LogOf(lines, crc32, PartitionOf(lines[i], crc32)); o < |log| && log[o] == MessageOf(lines[i])
    decreases |lines|
  {
    var n := |lines| - 1;
    if i < n {
      o := LineHasMessage(lines[..n], crc32, i);
    } else {
      o := |LogOf(lines[..n], crc32, PartitionOf(lines[n], crc32))|;
    }
  }

  lemma UnfitTailHasUnstorable(x: Shelf, seen: seq<Line>, crc32: Checksum32, p: int, parses: bool)
    requires Faithful(x, seen, crc32) && IsPartition(p) && !Fits(Tail(x, p, parses))
    ensures !StoresAll(seen)
  {
    var batch := Tail(x, p, parses);
    var k :| 0 <= k < |batch| && !batch[k].message.value.Storable();
    assert batch[k] in batch;
    EntriesMembers(x.logs[p], p, x.Done(parses)[p], |x.logs[p]|, parses, batch[k]);
    var i := MessageHasLine(seen, crc32, p, batch[k].offset);
    assert !Stores(seen[i]);
  }

  lemma UnflushableHasUnstorable(x: Shelf, seen: seq<Line>, crc32: Checksum32, p: int)
    requires Faithful(x, seen, crc32) && IsPartition(p) && !Flushable(x, p)
    ensures !StoresAll(seen)
  {
    UnfitTailHasUnstorable(x, seen, crc32, p, !Fits(Tail(x, p, true)));
  }

  /** A load that flushed everything met no line that cannot be stored. */
  lemma FinishedStoresAll(x: Shelf, lines: seq<Line>, crc32: Checksum32)
    requires Faithful(x, lines, crc32) && AllFlushed(x, PARTITIONS)
    ensures StoresAll(lines)
  {
    forall i | 0 <= i < |lines| ensures Stores(lines[i]) {
      if !lines[i].Blank? {
        var p := PartitionOf(lines[i], crc32);
        var o := LineHasMessage(lines, crc32, i);
        assert DoneWith(x, p);
        assert FlushedFit(x, At(x.logs, p, o).Parses());
      }
    }
  }

  // ---- what a finished load means ----

  /** Lines of the first n partitions. */
  function Lengths(logs: Logs, n: nat): nat
    requires n <= PARTITIONS && forall p :: 0 <= p < n ==> p in logs
  {
    if n == 0 then 0 else Lengths(logs, n - 1) + |logs[n - 1]|
  }

  ghost predicate Through(logs: Logs, done: map<int, nat>, n: nat)
  {
    forall p :: 0 <= p < n ==> p in logs && p in done && done[p] == |logs[p]|
  }

  lemma {:induction false} RowsAddUp(logs: Logs, records: map<int, nat>, rejects: map<int, nat>, n: nat)
    requires n <= PARTITIONS && Through(logs, records, n) && Through(logs, rejects, n)
    ensures Rows(logs, records, true, n) + Rows(logs, rejects, false, n) == Lengths(logs, n)
    decreases n
  {
    if n > 0 {
      RowsAddUp(logs, records, rejects, n - 1);
      EntriesPartitionSlice(logs[n - 1], n - 1, 0, |logs[n - 1]|);
    }
  }

  function LogsOf(lines: seq<Line>, crc32: Checksum32): (r: Logs)
    ensures forall p :: p in r <==> IsPartition(p)
    ensures forall p :: p in r ==> r[p] == LogOf(lines, crc32, p)
  {
    map[0 := LogOf(lines, crc32, 0), 1 := LogOf(lines, crc32, 1), 2 := LogOf(lines, crc32, 2),
        3 := LogOf(lines, crc32, 3), 4 := LogOf(lines, crc32, 4), 5 := LogOf(lines, crc32, 5)]
  }

  lemma OneLogMore(lines: seq<Line>, line: Line, crc32: Checksum32, p: int)
    requires IsPartition(p)
    ensures |LogsOf(lines + [line], crc32)[p]|
         == |LogsOf(lines, crc32)[p]| + if !line.Blank? && PartitionOf(line, crc32) == p then 1 else 0
  {
    assert (lines + [line])[..|lines|] == lines;
  }

  lemma {:induction false} OneLongerLog(longer: Logs, shorter: Logs, at: int, n: nat)
    requires n <= PARTITIONS && forall p :: 0 <= p < n ==> p in longer && p in shorter
    requires forall p :: 0 <= p < n ==> |longer[p]| == |shorter[p]| + if p == at then 1 else 0
    ensures Lengths(longer, n) == Lengths(shorter, n) + if 0 <= at < n then 1 else 0
    decreases n
  {
    if n > 0 { OneLongerLog(longer, shorter, at, n - 1); }
  }

  lemma OneLineMore(lines: seq<Line>, line: Line, crc32: Checksum32)
    ensures Lengths(LogsOf(lines + [line], crc32), PARTITIONS)
         == Lengths(LogsOf(lines, crc32), PARTITIONS) + if line.Blank? then 0 else 1
  {
    var longer, shorter := LogsOf(lines + [line], crc32), LogsOf(lines, crc32);
    var at := if line.Blank? then -1 else PartitionOf(line, crc32);
    forall p | 0 <= p < PARTITIONS ensures |longer[p]| == |shorter[p]| + if p == at then 1 else 0 {
      OneLogMore(lines, line, crc32, p);
    }
    OneLongerLog(longer, shorter, at, PARTITIONS);
  }

  lemma {:induction false} NoLines(crc32: Checksum32, n: nat)
    requires n <= PARTITIONS
    ensures Lengths(LogsOf([], crc32), n) == 0
    decreases n
  {
    if n > 0 { NoLines(crc32, n - 1); }
  }

  /** Every line that is not blank gets one offset of one partition. */
  lemma {:induction false} LinesBecomeMessages(lines: seq<Line>, crc32: Checksum32)
    ensures Lengths(LogsOf(lines, crc32), PARTITIONS) == NonBlank(lines)
    decreases |lines|
  {
    if lines == [] {
      NoLines(crc32, PARTITIONS);
    } else {
      var n := |lines| - 1;
      LinesBecomeMessages(lines[..n], crc32);
      OneLineMore(lines[..n], lines[n], crc32);
      assert lines == lines[..n] + [lines[n]];
    }
  }

  lemma {:induction false} LengthsAgree(a: Logs, b: Logs, n: nat)
    requires n <= PARTITIONS && forall p :: 0 <= p < n ==> p in a && p in b && a[p] == b[p]
    ensures Lengths(a, n) == Lengths(b, n)
    decreases n
  {
    if n > 0 { LengthsAgree(a, b, n - 1); }
  }

  /** One row is stored for this entry, in its own area. */
  ghost predicate StoredOnce(x: Shelf, e: Entry)
  {
    && |SpotsOf(x.Side(e.Parses()), {e})| == 1
    && |SpotsOf(x.Side(!e.Parses()), {e})| == 0
  }

  lemma OneRowOwnArea(logs: Logs, parses: bool, area: Area, e: Entry)
    requires WellNamed(logs, parses, area) && Apart(area) && Holds(area, e)
    ensures |SpotsOf(area, {e})| == 1
  {
    ApartMeansOnce(logs, parses, area, {e});
    RowsOfEntries(logs, parses, area, {e});
  }

  lemma NoRowOtherArea(logs: Logs, parses: bool, area: Area, e: Entry)
    requires WellNamed(logs, parses, area) && e.Parses() != parses
    ensures SpotsOf(area, {e}) == {}
  {
    if s :| s in SpotsOf(area, {e}) {
      assert Holds(area, e);
      WellNamedClass(logs, parses, area, e);
    }
  }

  lemma FlushedIsStoredOnce(x: Shelf, p: int, o: nat)
    requires Stored(x) && Single(x) && AllFlushed(x, PARTITIONS) && p in x.logs && o < |x.logs[p]|
    ensures StoredOnce(x, At(x.logs, p, o))
  {
    var e := At(x.logs, p, o);
    assert DoneWith(x, p);
    assert StoredSide(x, e.Parses());
    assert Holds(x.Side(e.Parses()), e);
    OneRowOwnArea(x.logs, e.Parses(), x.Side(e.Parses()), e);
    NoRowOtherArea(x.logs, !e.Parses(), x.Side(!e.Parses()), e);
  }

  lemma CountsAreLines(x: Shelf, lines: seq<Line>, crc32: Checksum32)
    requires Faithful(x, lines, crc32) && AllFlushed(x, PARTITIONS)
    ensures |Spots(x.bronze)| + |Spots(x.quarantine)| == NonBlank(lines)
  {
    CountsAreRows(x);
    AllThrough(x);
    RowsAddUp(x.logs, x.recordsDone, x.rejectsDone, PARTITIONS);
    LogsHaveLines(x.logs, lines, crc32);
  }

  ghost predicate RowsAre(x: Shelf, parses: bool, n: nat)
  {
    Framed(x.logs, x.Done(parses)) && n == Rows(x.logs, x.Done(parses), parses, PARTITIONS)
  }

  lemma CountsAreRows(x: Shelf)
    requires Sound(x)
    ensures RowsAre(x, true, |Spots(x.bronze)|) && RowsAre(x, false, |Spots(x.quarantine)|)
  {
    assert CountedSide(x, true) && CountedSide(x, false);
  }

  lemma AllThrough(x: Shelf)
    requires AllFlushed(x, PARTITIONS)
    ensures Through(x.logs, x.recordsDone, PARTITIONS) && Through(x.logs, x.rejectsDone, PARTITIONS)
  {
    forall p | 0 <= p < PARTITIONS
      ensures p in x.logs && p in x.recordsDone && p in x.rejectsDone && x.recordsDone[p] == |x.logs[p]| == x.rejectsDone[p]
    {
      assert IsPartition(p) && DoneWith(x, p);
    }
  }

  lemma LogsHaveLines(logs: Logs, lines: seq<Line>, crc32: Checksum32)
    requires LogsAre(logs, lines, crc32) && forall p :: 0 <= p < PARTITIONS ==> p in logs
    ensures Lengths(logs, PARTITIONS) == NonBlank(lines)
  {
    LinesBecomeMessages(lines, crc32);
    assert forall p :: 0 <= p < PARTITIONS ==> IsPartition(p);
    LengthsAgree(logs, LogsOf(lines, crc32), PARTITIONS);
  }

  /**
   * Exactly once: every line that is not blank became one message of one partition, every message is one stored row, and
   * the rows stored in bronze and in quarantine are as many as the counters say and together as many as the lines.
   */
  lemma LoadedExactlyOnce(x: Shelf, lines: seq<Line>, crc32: Checksum32)
    requires Faithful(x, lines, crc32) && AllFlushed(x, PARTITIONS)
    ensures forall p, o: nat :: p in x.logs && o < |x.logs[p]| ==> StoredOnce(x, At(x.logs, p, o))
    ensures x.written == |Spots(x.bronze)| && x.quarantined == |Spots(x.quarantine)|
    ensures |Spots(x.bronze)| + |Spots(x.quarantine)| == NonBlank(lines)
    ensures x.objects == |x.bronze| + |x.quarantine|
  {
    CountsAreLines(x, lines, crc32);
    forall p, o: nat | p in x.logs && o < |x.logs[p]| ensures StoredOnce(x, At(x.logs, p, o)) {
      FlushedIsStoredOnce(x, p, o);
    }
  }

  /** A line stops the load exactly when it raises; JSON that is no object, a key that is no text, and a poisoned object do. */
  lemma FailingLineStops(before: seq<Line>, line: Line, after: seq<Line>)
    requires forall i :: 0 <= i < |before| ==> !Raises(before[i])
    ensures FirstError(before + [line] + after, 0) == |before| <==> Raises(line)
    ensures forall text :: Raises(NotObject(text)) && Raises(Undecodable(text))
    ensures forall value :: Raises(Obj(OtherKey, value))
    ensures forall key, raw :: Raises(Obj(key, Poison(raw)))
  {
    var lines := before + [line] + after;
    assert lines[|before|] == line;
    assert forall i :: 0 <= i < |before| ==> lines[i] == before[i];
  }

  /** Lines that are read and then cannot be written: a version beyond 32 bits, and any field of a wrong type. */
  lemma UnstorableLines(key: Peek, row: EventValue, raw: string, record: bool)
    requires !key.OtherKey?
    ensures var line := Obj(key, Valid(row.(version := 3_000_000_000))); !Raises(line) && !Stores(line)
    ensures var line := Obj(key, Misfit(raw, record)); !Raises(line) && !Stores(line)
  {
  }

  /** The entry is what the log holds at its offset, and of this class. */
  ghost predicate InLog(logs: Logs, parses: bool, e: Entry)
  {
    e.partition in logs && e.offset < |logs[e.partition]| && e.message == logs[e.partition][e.offset] && e.Parses() == parses
  }

  lemma AreaHoldsLog(area: Area, logs: Logs, flushed: map<int, nat>, parses: bool, e: Entry)
    requires HoldsFlushed(area, logs, flushed, parses)
    requires logs.Keys == flushed.Keys && forall p :: p in logs ==> flushed[p] == |logs[p]|
    ensures Holds(area, e) <==> InLog(logs, parses, e)
  {
    if Holds(area, e) { WellNamedClass(logs, parses, area, e); }
    if InLog(logs, parses, e) { assert At(logs, e.partition, e.offset) == e; }
  }

  lemma ShelfHoldsLog(x: Shelf, parses: bool, e: Entry)
    requires Sound(x) && AllFlushed(x, PARTITIONS)
    ensures Holds(x.Side(parses), e) <==> InLog(x.logs, parses, e)
  {
    AllDone(x, parses);
    assert StoredSide(x, parses);
    AreaHoldsLog(x.Side(parses), x.logs, x.Done(parses), parses, e);
  }

  lemma AllDone(x: Shelf, parses: bool)
    requires Sound(x) && AllFlushed(x, PARTITIONS)
    ensures forall p :: p in x.logs ==> p in x.Done(parses) && x.Done(parses)[p] == |x.logs[p]|
  {
    forall p | p in x.logs ensures p in x.Done(parses) && x.Done(parses)[p] == |x.logs[p]| {
      assert DoneWith(x, p);
    }
  }

  lemma LoaderHoldsSame(x: Shelf, lines: seq<Line>, crc32: Checksum32, s: State, parses: bool, e: Entry)
    requires Faithful(x, lines, crc32) && AllFlushed(x, PARTITIONS)
    requires Reachable(s) && Complete(s) && s.logs == x.logs
    ensures Holds(x.Side(parses), e) <==> Holds(s.Side(parses), e)
  {
    ReachableInv(s);
    ShelfHoldsLog(x, parses, e);
    ConsumerHoldsLog(s, parses, e);
  }

  lemma LoaderRows(x: Shelf, lines: seq<Line>, crc32: Checksum32, s: State, parses: bool)
    requires Faithful(x, lines, crc32) && AllFlushed(x, PARTITIONS)
    requires Reachable(s) && Complete(s) && s.logs == x.logs
    ensures |Spots(x.Side(parses))| == |LandedOf(s, parses)|
  {
    ReachableInv(s);
    var es := LandedOf(s, parses);
    forall e ensures Holds(x.Side(parses), e) <==> e in es {
      LoaderHoldsSame(x, lines, crc32, s, parses, e);
      WellNamedClass(s.logs, parses, s.Side(parses), e);
    }
    AllRowsOf(x.Side(parses), es);
    ApartMeansOnce(x.logs, parses, x.Side(parses), es);
    RowsOfEntries(x.logs, parses, x.Side(parses), es);
  }

  /**
   * The loader and any consumer run that drained the same logs hold the same entries in the same areas. The consumer
   * stores at least as many rows, and as many exactly when none of its rows lies twice; a consumer that never crashed,
   * and whose calls never raised, stores as many.
   */
  lemma LoaderMatchesConsumer(x: Shelf, lines: seq<Line>, crc32: Checksum32, s: State, parses: bool)
    requires Faithful(x, lines, crc32) && AllFlushed(x, PARTITIONS)
    requires Reachable(s) && Complete(s) && s.logs == x.logs
    ensures forall e :: Holds(x.Side(parses), e) <==> Holds(s.Side(parses), e)
    ensures |Spots(s.Side(parses))| >= |Spots(x.Side(parses))|
    ensures |Spots(s.Side(parses))| == |Spots(x.Side(parses))| <==> Once(s.Side(parses), Every())
    ensures SmoothlyReached(s) ==> |Spots(s.Side(parses))| == |Spots(x.Side(parses))|
  {
    forall e ensures Holds(x.Side(parses), e) <==> Holds(s.Side(parses), e) {
      LoaderHoldsSame(x, lines, crc32, s, parses, e);
    }
    LoaderRows(x, lines, crc32, s, parses);
    RowsOfArea(s, parses);
    if SmoothlyReached(s) { SmoothStoresOnce(s, parses); }
  }

  lemma ConsumerHoldsLog(s: State, parses: bool, e: Entry)
    requires StorageExact(s) && Complete(s)
    ensures Holds(s.Side(parses), e) <==> InLog(s.logs, parses, e)
  {
    if Holds(s.Side(parses), e) { WellNamedClass(s.logs, parses, s.Side(parses), e); }
    if InLog(s.logs, parses, e) { assert EntryAt(s, e.partition, e.offset) == e; }
  }
}
