/** The documented identity of raw bronze, on the rows that lie in storage. */
module RawBronze {
  import opened Events
  import opened Measures
  import opened Transport
  import opened BronzeLog
  import opened ConsumerModel
  import opened Silver
  import opened StoredRows
  import opened Replays
  import opened EndToEnd
  import Loader

  // ---- where a record lies in the broker ----

  /** The message that record j became: in its key's partition, after the earlier records there. */
  function Locate(records: seq<Published>, raw: nat -> string, assign: string -> int, j: nat): Entry
    requires j < |records|
  {
    var p := assign(records[j].copy.machine);
    Entry(p, |LogOf(records[..j], raw, assign, p)|, MessageOf(records[j], raw(j)))
  }

  lemma {:induction false} LogGrows(records: seq<Published>, raw: nat -> string, assign: string -> int, p: int, j: nat)
    requires j <= |records|
    ensures var short, long := LogOf(records[..j], raw, assign, p), LogOf(records, raw, assign, p);
            |short| <= |long| && long[..|short|] == short
    decreases |records|
  {
    if j == |records| {
      assert records[..j] == records;
    } else {
      var n := |records| - 1;
      LogGrows(records[..n], raw, assign, p, j);
      assert records[..n][..j] == records[..j];
    }
  }

  /** Record j is read at the place where `Locate` says, and takes it up. */
  lemma LocatedInLog(records: seq<Published>, raw: nat -> string, assign: string -> int, j: nat)
    requires j < |records|
    ensures var e := Locate(records, raw, assign, j);
            var log := LogOf(records, raw, assign, e.partition);
            && e.offset < |log| && log[e.offset] == e.message
            && |LogOf(records[..j + 1], raw, assign, e.partition)| == e.offset + 1
  {
    var e := Locate(records, raw, assign, j);
    assert records[..j + 1][..j] == records[..j];
    LogGrows(records, raw, assign, e.partition, j + 1);
  }

  lemma LocationsDiffer(records: seq<Published>, raw: nat -> string, assign: string -> int, i: nat, j: nat)
    requires i < j < |records|
    ensures Locate(records, raw, assign, i) != Locate(records, raw, assign, j)
  {
    var e := Locate(records, raw, assign, i);
    LocatedInLog(records, raw, assign, i);
    LogGrows(records[..j], raw, assign, e.partition, i + 1);
    assert records[..j][..i + 1] == records[..i + 1];
  }

  /** And every message of the broker is some record's. */
  lemma {:induction false} MessageIsLocated(records: seq<Published>, raw: nat -> string, assign: string -> int, p: int, o: nat)
    returns (j: nat)
    requires o < |LogOf(records, raw, assign, p)|
    ensures j < |records| && Locate(records, raw, assign, j) == Entry(p, o, LogOf(records, raw, assign, p)[o])
    decreases |records|
  {
    var n := |records| - 1;
    if o < |LogOf(records[..n], raw, assign, p)| {
      j := MessageIsLocated(records[..n], raw, assign, p, o);
      assert records[..n][..j] == records[..j];
    } else {
      j := n;
    }
  }

  // ---- the records of a window ----

  /** Where a sequence has elements of a kind. */
  function Where<T>(s: seq<T>, kind: T -> bool): set<nat>
  {
    set j: nat | j < |s| && kind(s[j])
  }

  lemma WhereSnoc<T>(s: seq<T>, x: T, kind: T -> bool)
    ensures Where(s + [x], kind) == Where(s, kind) + (if kind(x) then {|s|} else {})
    ensures |s| !in Where(s, kind)
  {
    var longer := s + [x];
    assert longer[|s|] == x && forall j :: 0 <= j < |s| ==> longer[j] == s[j];
  }

  function OfWindow(k: Bucket, corrupted: bool): Published -> bool
  {
    (r: Published) => BucketOf(r.copy) == k && r.corrupted == corrupted
  }

  function Chosen(records: seq<Published>, k: Bucket, corrupted: bool): set<nat>
  {
    Where(records, OfWindow(k, corrupted))
  }

  lemma {:induction false} ChosenSize(records: seq<Published>, k: Bucket, corrupted: bool)
    ensures |Chosen(records, k, corrupted)| == Landed(records, k, corrupted)
    decreases |records|
  {
    if records == [] {
      assert Chosen(records, k, corrupted) == {};
    } else {
      var n := |records| - 1;
      ChosenSize(records[..n], k, corrupted);
      WhereSnoc(records[..n], records[n], OfWindow(k, corrupted));
      assert records == records[..n] + [records[n]];
    }
  }

  function Locator(records: seq<Published>, raw: nat -> string, assign: string -> int): nat -> Entry
  {
    (j: nat) => if j < |records| then Locate(records, raw, assign, j) else Entry(0, 0, Message(Option.None, Tombstone))
  }

  /** The messages that the window's records of one condition became. */
  function MessagesOf(records: seq<Published>, raw: nat -> string, assign: string -> int, k: Bucket, corrupted: bool): set<Entry>
  {
    Image<nat, Entry>(Chosen(records, k, corrupted), Locator(records, raw, assign))
  }

  /** One message for each record. */
  lemma MessagesOfSize(records: seq<Published>, raw: nat -> string, assign: string -> int, k: Bucket, corrupted: bool)
    ensures |MessagesOf(records, raw, assign, k, corrupted)| == Landed(records, k, corrupted)
  {
    var chosen: set<nat>, f: nat -> Entry := Chosen(records, k, corrupted), Locator(records, raw, assign);
    ChosenSize(records, k, corrupted);
    forall i, j | i in chosen && j in chosen && f(i) == f(j) ensures i == j {
      if i < j { LocationsDiffer(records, raw, assign, i, j); }
      if j < i { LocationsDiffer(records, raw, assign, j, i); }
    }
    ImageSize<nat, Entry>(chosen, f);
  }

  // ---- a drained consumer ----

  /** A record row of the window. */
  predicate InBucket(e: Entry, k: Bucket)
  {
    e.IsRow() && BucketOf(e.message.value.row) == k
  }

  /** The distinct record messages of the window that landed. */
  ghost function DistinctRows(s: State, k: Bucket): set<Entry>
  {
    set e | e in s.landed && InBucket(e, k)
  }

  /** Raw bronze of the window: its stored rows, each as often as it lies there. */
  function RawRows(area: Area, k: Bucket): set<Spot>
  {
    set s | s in Spots(area) && InBucket(EntryIn(area, s), k)
  }

  ghost predicate Shipped(s: State, records: seq<Published>, raw: nat -> string, assign: string -> int)
  {
    Reachable(s) && Complete(s) && Sent(s.logs, records, raw, assign)
  }

  /** The message of such a record is in the log, and parses iff the record was whole. */
  lemma RecordMessage(
    records: seq<Published>, raw: nat -> string, assign: string -> int, k: Bucket, corrupted: bool, e: Entry) returns (j: nat)
    requires e in MessagesOf(records, raw, assign, k, corrupted)
    ensures j < |records| && e.partition == assign(records[j].copy.machine)
    ensures var log := LogOf(records, raw, assign, e.partition); e.offset < |log| && log[e.offset] == e.message
    ensures e.Parses() == !corrupted && (!corrupted ==> InBucket(e, k))
  {
    j :| j in Chosen(records, k, corrupted) && Locator(records, raw, assign)(j) == e;
    LocatedInLog(records, raw, assign, j);
  }

  /** And a row of the window in the log is the message of such a record. */
  lemma RowIsRecord(records: seq<Published>, raw: nat -> string, assign: string -> int, k: Bucket, e: Entry)
    requires InBucket(e, k)
    requires var log := LogOf(records, raw, assign, e.partition); e.offset < |log| && log[e.offset] == e.message
    ensures e in MessagesOf(records, raw, assign, k, false)
  {
    var j := MessageIsLocated(records, raw, assign, e.partition, e.offset);
    assert j in Chosen(records, k, false) && Locator(records, raw, assign)(j) == e;
  }

  /** The window's records of either condition landed, in the area of their class. */
  lemma RecordsLanded(s: State, records: seq<Published>, raw: nat -> string, assign: string -> int, k: Bucket, corrupted: bool, e: Entry)
    requires Shipped(s, records, raw, assign) && e in MessagesOf(records, raw, assign, k, corrupted)
    ensures e in s.landed && Holds(s.Side(!corrupted), e) && e.Parses() == !corrupted
  {
    ReachableInv(s);
    var j := RecordMessage(records, raw, assign, k, corrupted, e);
    assert EntryAt(s, e.partition, e.offset) == e;
  }

  lemma DistinctRowsAreRecords(s: State, records: seq<Published>, raw: nat -> string, assign: string -> int, k: Bucket)
    requires Shipped(s, records, raw, assign)
    ensures DistinctRows(s, k) == MessagesOf(records, raw, assign, k, false)
  {
    ReachableInv(s);
    forall e | e in DistinctRows(s, k) ensures e in MessagesOf(records, raw, assign, k, false) {
      assert e in LandedRecords(s);
      LandedIsGenuine(s);
      RowIsRecord(records, raw, assign, k, e);
    }
    forall e | e in MessagesOf(records, raw, assign, k, false) ensures e in DistinctRows(s, k) {
      RecordsLanded(s, records, raw, assign, k, false, e);
      var j := RecordMessage(records, raw, assign, k, false, e);
    }
  }

  lemma RawRowsAreSpots(s: State, k: Bucket)
    requires StorageExact(s)
    ensures RawRows(s.bronze, k) == SpotsOf(s.bronze, DistinctRows(s, k))
    ensures forall e :: e in DistinctRows(s, k) ==> Holds(s.bronze, e)
  {
    forall spot | spot in RawRows(s.bronze, k) ensures EntryIn(s.bronze, spot) in DistinctRows(s, k) {
      assert Holds(s.bronze, EntryIn(s.bronze, spot));
    }
  }

  /**
   * Raw bronze of a drained group, whatever crashed. The distinct rows of a window are the documented figure less the
   * repeated corruptions of its events. The rows stored are at least as many, and as many exactly when no two objects
   * share one of them; so without repeated corruption the documented identity holds exactly then.
   */
  lemma StoredRawBronze(
    s: State, canonical: seq<EventValue>, records: seq<Published>, raw: nat -> string, assign: string -> int,
    duplicated: map<string, nat>, corrupt: set<string>, k: Bucket)
    requires UniqueIds(Facts(canonical)) && Transported(canonical, records, duplicated, corrupt)
    requires Shipped(s, records, raw, assign)
    ensures var documented, repeats := Documented(canonical, duplicated, corrupt, k), RepeatCorruptions(Facts(canonical), k, records);
            && |DistinctRows(s, k)| == documented - repeats
            && |RawRows(s.bronze, k)| >= documented - repeats
            && (|RawRows(s.bronze, k)| == documented - repeats <==> OnceOf(s.bronze, DistinctRows(s, k)))
  {
    ReachableInv(s);
    RawBronzeIdentityIff(canonical, records, duplicated, corrupt, k);
    DistinctRowsAreRecords(s, records, raw, assign, k);
    MessagesOfSize(records, raw, assign, k, false);
    RawRowsAreSpots(s, k);
    RowsOfEntries(s.logs, true, s.bronze, DistinctRows(s, k));
  }

  function OfBucket(k: Bucket): Kind
  {
    (e: Entry) => InBucket(e, k)
  }

  lemma WindowIsKind(s: State, k: Bucket)
    requires Reachable(s)
    ensures OnceOf(s.bronze, DistinctRows(s, k)) <==> Once(s.bronze, OfBucket(k))
  {
    ReachableInv(s);
    forall e ensures Holds(s.bronze, e) ==> (e in DistinctRows(s, k) <==> OfBucket(k)(e)) {
      WellNamedClass(s.logs, true, s.bronze, e);
    }
    OnceOfKind(s.bronze, DistinctRows(s, k), OfBucket(k));
  }

  /**
   * Which runs store the documented rows, less the repeats: exactly those in which every bronze write found none of its
   * rows of the window landed before, or found its very object there, or had nothing to write.
   */
  lemma RunStoresDocumentedIff(
    logs: Logs, fromBeginning: bool, actions: seq<Action>, canonical: seq<EventValue>, records: seq<Published>,
    raw: nat -> string, assign: string -> int, duplicated: map<string, nat>, corrupt: set<string>, k: Bucket)
    requires UniqueIds(Facts(canonical)) && Transported(canonical, records, duplicated, corrupt)
    requires Shipped(Run(Init(logs, fromBeginning), actions), records, raw, assign)
    ensures var s, repeats := Run(Init(logs, fromBeginning), actions), RepeatCorruptions(Facts(canonical), k, records);
            |RawRows(s.bronze, k)| == Documented(canonical, duplicated, corrupt, k) - repeats
            <==> AllLandAnew(Init(logs, fromBeginning), actions, true, OfBucket(k))
  {
    var s := Run(Init(logs, fromBeginning), actions);
    StoredRawBronze(s, canonical, records, raw, assign, duplicated, corrupt, k);
    WindowIsKind(s, k);
    InitInv(logs, fromBeginning);
    RunStoresOnceIff(Init(logs, fromBeginning), actions, true, OfBucket(k));
  }

  /**
   * Without a crash or a raised call that is every run: the consumer's raw bronze is then the documented figure less the
   * repeats, and meets the documented identity exactly when no event of the window had two copies corrupted.
   */
  lemma SmoothRawBronze(
    s: State, canonical: seq<EventValue>, records: seq<Published>, raw: nat -> string, assign: string -> int,
    duplicated: map<string, nat>, corrupt: set<string>, k: Bucket)
    requires UniqueIds(Facts(canonical)) && Transported(canonical, records, duplicated, corrupt)
    requires SmoothlyReached(s) && Shipped(s, records, raw, assign)
    ensures var documented, repeats := Documented(canonical, duplicated, corrupt, k), RepeatCorruptions(Facts(canonical), k, records);
            && |RawRows(s.bronze, k)| == documented - repeats
            && (|RawRows(s.bronze, k)| == documented <==>
                  forall i :: 0 <= i < |canonical| && BucketOf(canonical[i]) == k ==> Copies(records, canonical[i].id, true) <= 1)
  {
    StoredRawBronze(s, canonical, records, raw, assign, duplicated, corrupt, k);
    RawBronzeIdentityIff(canonical, records, duplicated, corrupt, k);
    SmoothStoresOnce(s, true);
    EveryCoversKind(s.bronze, OfBucket(k));
    WindowIsKind(s, k);
  }

  lemma EveryCoversKind(area: Area, kind: Kind)
    requires Once(area, Every())
    ensures Once(area, kind)
  {
    forall a, b, e | a in area && b in area && e in area[a].entries && e in area[b].entries && kind(e) ensures a == b {
      assert Every()(e);
    }
  }

  /** Conservation in storage: the distinct rows of a window in bronze and in quarantine are its events and their extra copies. */
  lemma StoredCopiesConserved(
    s: State, canonical: seq<EventValue>, records: seq<Published>, raw: nat -> string, assign: string -> int,
    duplicated: map<string, nat>, corrupt: set<string>, k: Bucket)
    requires UniqueIds(Facts(canonical)) && Transported(canonical, records, duplicated, corrupt)
    requires Shipped(s, records, raw, assign)
    ensures var clean, garbage := MessagesOf(records, raw, assign, k, false), MessagesOf(records, raw, assign, k, true);
            && (forall e :: e in clean ==> Holds(s.bronze, e)) && (forall e :: e in garbage ==> Holds(s.quarantine, e))
            && |clean| + |garbage| == Sum(Facts(canonical), k, Ids(Facts(canonical))).events + ExtraCopies(Facts(canonical), k, duplicated)
  {
    CopiesConserved(canonical, records, duplicated, corrupt, k);
    MessagesOfSize(records, raw, assign, k, false);
    MessagesOfSize(records, raw, assign, k, true);
    forall e | e in MessagesOf(records, raw, assign, k, false) ensures Holds(s.bronze, e) {
      RecordsLanded(s, records, raw, assign, k, false, e);
    }
    forall e | e in MessagesOf(records, raw, assign, k, true) ensures Holds(s.quarantine, e) {
      RecordsLanded(s, records, raw, assign, k, true, e);
    }
  }

  // ---- a finished load ----

  /** The generator's file: one line for each record, garbage under its key. */
  function LinesOf(records: seq<Published>, raw: nat -> string): (r: seq<Loader.Line>)
    ensures |r| == |records|
    ensures forall j :: 0 <= j < |r| ==> r[j] == LineOf(records[j], raw(j))
  {
    seq(|records|, j requires 0 <= j < |records| => LineOf(records[j], raw(j)))
  }

  function LineOf(r: Published, raw: string): Loader.Line
  {
    Loader.Obj(Loader.TextKey(r.copy.machine), if r.corrupted then Garbage(raw) else Valid(r.copy))
  }

  /** The loader's own assignment of keys. */
  function Assigned(crc32: Loader.Checksum32): string -> int
  {
    (machine: string) => if machine == "" then 0 else Loader.PartitionFor(machine, crc32)
  }

  lemma {:induction false} LinesGiveLogs(records: seq<Published>, raw: nat -> string, crc32: Loader.Checksum32, p: int)
    ensures Loader.LogOf(LinesOf(records, raw), crc32, p) == LogOf(records, raw, Assigned(crc32), p)
    decreases |records|
  {
    if records != [] {
      var n := |records| - 1;
      LinesGiveLogs(records[..n], raw, crc32, p);
      assert LinesOf(records, raw)[..n] == LinesOf(records[..n], raw);
      assert LinesOf(records, raw)[n] == LineOf(records[n], raw(n));
    }
  }

  ghost predicate Loaded(x: Loader.Shelf, records: seq<Published>, raw: nat -> string, crc32: Loader.Checksum32)
  {
    Loader.Faithful(x, LinesOf(records, raw), crc32) && Loader.AllFlushed(x, Loader.PARTITIONS)
  }

  lemma LoadedHoldsLog(x: Loader.Shelf, records: seq<Published>, raw: nat -> string, crc32: Loader.Checksum32, parses: bool, e: Entry)
    requires Loaded(x, records, raw, crc32)
    ensures Holds(x.Side(parses), e) <==>
            var log := LogOf(records, raw, Assigned(crc32), e.partition);
            Loader.IsPartition(e.partition) && e.offset < |log| && e.message == log[e.offset] && e.Parses() == parses
  {
    LinesGiveLogs(records, raw, crc32, e.partition);
    assert Loader.IsPartition(e.partition) ==> e.partition in x.logs;
    Loader.ShelfHoldsLog(x, parses, e);
  }

  lemma RecordsLoaded(
    x: Loader.Shelf, records: seq<Published>, raw: nat -> string, crc32: Loader.Checksum32, k: Bucket, corrupted: bool, e: Entry)
    requires Loaded(x, records, raw, crc32) && e in MessagesOf(records, raw, Assigned(crc32), k, corrupted)
    ensures Holds(x.Side(!corrupted), e) && e.Parses() == !corrupted && (!corrupted ==> InBucket(e, k))
  {
    var j := RecordMessage(records, raw, Assigned(crc32), k, corrupted, e);
    LoadedHoldsLog(x, records, raw, crc32, !corrupted, e);
  }

  lemma LoadedRowIsRecord(x: Loader.Shelf, records: seq<Published>, raw: nat -> string, crc32: Loader.Checksum32, k: Bucket, e: Entry)
    requires Loaded(x, records, raw, crc32) && Holds(x.bronze, e) && InBucket(e, k)
    ensures e in MessagesOf(records, raw, Assigned(crc32), k, false)
  {
    LoadedHoldsLog(x, records, raw, crc32, true, e);
    RowIsRecord(records, raw, Assigned(crc32), k, e);
  }

  lemma SameSpots(area: Area, k: Bucket, es: set<Entry>)
    requires forall s :: s in Spots(area) ==> (InBucket(EntryIn(area, s), k) <==> EntryIn(area, s) in es)
    ensures RawRows(area, k) == SpotsOf(area, es)
  {
  }

  lemma LoadedSpot(x: Loader.Shelf, records: seq<Published>, raw: nat -> string, crc32: Loader.Checksum32, k: Bucket, s: Spot)
    requires Loaded(x, records, raw, crc32) && s in Spots(x.bronze)
    ensures var e := EntryIn(x.bronze, s); InBucket(e, k) <==> e in MessagesOf(records, raw, Assigned(crc32), k, false)
  {
    var e := EntryIn(x.bronze, s);
    assert Holds(x.bronze, e);
    if InBucket(e, k) { LoadedRowIsRecord(x, records, raw, crc32, k, e); }
    if e in MessagesOf(records, raw, Assigned(crc32), k, false) { RecordsLoaded(x, records, raw, crc32, k, false, e); }
  }

  lemma LoadedRawRows(x: Loader.Shelf, records: seq<Published>, raw: nat -> string, crc32: Loader.Checksum32, k: Bucket)
    requires Loaded(x, records, raw, crc32)
    ensures RawRows(x.bronze, k) == SpotsOf(x.bronze, MessagesOf(records, raw, Assigned(crc32), k, false))
  {
    var es := MessagesOf(records, raw, Assigned(crc32), k, false);
    forall s | s in Spots(x.bronze) ensures InBucket(EntryIn(x.bronze, s), k) <==> EntryIn(x.bronze, s) in es {
      LoadedSpot(x, records, raw, crc32, k, s);
    }
    SameSpots(x.bronze, k, es);
  }

  lemma LoadedRowsOnce(x: Loader.Shelf, records: seq<Published>, raw: nat -> string, crc32: Loader.Checksum32, k: Bucket, corrupted: bool)
    requires Loaded(x, records, raw, crc32)
    ensures |SpotsOf(x.Side(!corrupted), MessagesOf(records, raw, Assigned(crc32), k, corrupted))| == Landed(records, k, corrupted)
  {
    var es := MessagesOf(records, raw, Assigned(crc32), k, corrupted);
    MessagesOfSize(records, raw, Assigned(crc32), k, corrupted);
    forall e | e in es ensures Holds(x.Side(!corrupted), e) {
      RecordsLoaded(x, records, raw, crc32, k, corrupted, e);
    }
    ApartMeansOnce(x.logs, !corrupted, x.Side(!corrupted), es);
    RowsOfEntries(x.logs, !corrupted, x.Side(!corrupted), es);
  }

  /**
   * Raw bronze of a finished load. Its rows of a window are the documented figure less the repeated corruptions, so the
   * documented identity holds exactly when no event of the window had two copies corrupted; and with the quarantined
   * rows of the window they are its events and their extra copies.
   */
  lemma LoadedRawBronzeIff(
    x: Loader.Shelf, canonical: seq<EventValue>, records: seq<Published>, raw: nat -> string, crc32: Loader.Checksum32,
    duplicated: map<string, nat>, corrupt: set<string>, k: Bucket)
    requires UniqueIds(Facts(canonical)) && Transported(canonical, records, duplicated, corrupt)
    requires Loaded(x, records, raw, crc32)
    ensures var documented, repeats := Documented(canonical, duplicated, corrupt, k), RepeatCorruptions(Facts(canonical), k, records);
            && |RawRows(x.bronze, k)| == documented - repeats
            && (|RawRows(x.bronze, k)| == documented <==>
                  forall i :: 0 <= i < |canonical| && BucketOf(canonical[i]) == k ==> Copies(records, canonical[i].id, true) <= 1)
    ensures |RawRows(x.bronze, k)| + |SpotsOf(x.quarantine, MessagesOf(records, raw, Assigned(crc32), k, true))|
         == Sum(Facts(canonical), k, Ids(Facts(canonical))).events + ExtraCopies(Facts(canonical), k, duplicated)
  {
    RawBronzeIdentityIff(canonical, records, duplicated, corrupt, k);
    CopiesConserved(canonical, records, duplicated, corrupt, k);
    LoadedRawRows(x, records, raw, crc32, k);
    LoadedRowsOnce(x, records, raw, crc32, k, false);
    LoadedRowsOnce(x, records, raw, crc32, k, true);
  }

  // ---- a replay across an hour ----

  /** A process about to read the one message of the log, in a group that has not committed. */
  predicate AboutToRead(s: State, m: Message)
  {
    && s.logs == map[0 := [m]] && s.committed == map[] && s.buffers == map[] && s.phase.Polling?
    && 0 in s.start && s.start[0] == 0 && 0 in s.position && s.position[0] == 0 && s.quarantine == map[]
  }

  /** Where a bronze object of the log's first message goes. */
  function FirstKey(ingest: int): Key
  {
    Key(Slot(ingest, true), 0, 0, 0)
  }

  function FirstObject(m: Message, ingest: int): Object
  {
    Object(ingest, [Entry(0, 0, m)])
  }

  predicate Wrote(s: State, m: Message, bronze: Area, landed: set<Entry>)
  {
    && s.logs == map[0 := [m]] && s.committed == map[] && s.quarantine == map[] && s.phase == BronzeDone(0)
    && s.buffers == map[0 := Buffer([Entry(0, 0, m)], [])] && 0 in s.start && s.start[0] == 0 && 0 in s.position && s.position[0] == 1
    && s.bronze == bronze && s.landed == landed
  }

  lemma OneObjectMore(s: State, m: Message, ingest: int)
    requires AboutToRead(s, m) && m.value.Valid? && m.value.Storable()
    ensures Wrote(Step(Step(s, Poll(0)), WriteBronze(0, ingest)), m, s.bronze[FirstKey(ingest) := FirstObject(m, ingest)],
              s.landed + {Entry(0, 0, m)})
  {
    assert Enabled(s, Poll(0));
    var polled := Step(s, Poll(0));
    assert s.BufferOf(0) == EMPTY && Buffered(EMPTY, Entry(0, 0, m)) == Buffer([Entry(0, 0, m)], []);
    assert polled.buffers == map[0 := Buffer([Entry(0, 0, m)], [])];
    assert Enabled(polled, WriteBronze(0, ingest));
    assert KeyOf(ingest, true, [Entry(0, 0, m)]) == FirstKey(ingest);
  }

  lemma DeathForgets(s: State, m: Message, bronze: Area, landed: set<Entry>)
    requires Wrote(s, m, bronze, landed)
    ensures var s' := Step(s, Restart(true)); AboutToRead(s', m) && s'.bronze == bronze && s'.landed == landed
  {
  }

  lemma CommitFinishes(s: State, m: Message, again: int, bronze: Area, landed: set<Entry>)
    requires Wrote(s, m, bronze, landed)
    ensures var s' := Step(Step(s, WriteQuarantine(again)), Commit);
            s'.logs == map[0 := [m]] && s'.landed == landed && s'.committed == map[0 := 1] && Drained(s') && s'.bronze == bronze
  {
    var written := Step(s, WriteQuarantine(again));
    assert written.landed == landed && written.BufferOf(0).Pending() && Enabled(written, Commit);
    assert [Entry(0, 0, m)] + [] == [Entry(0, 0, m)];
    assert NextOffset(written, 0) == 1;
  }

  /** The first process dies after its bronze write; the second reads the message again, and commits. */
  function Replay(ingest: int, again: int): seq<Action>
  {
    [Poll(0), WriteBronze(0, ingest), Restart(true)] + [Poll(0), WriteBronze(0, again), WriteQuarantine(again)] + [Commit]
  }

  lemma RunSeven(s: State, a: Action, b: Action, c: Action, d: Action, e: Action, f: Action, g: Action)
    ensures Run(s, [a, b, c] + [d, e, f] + [g]) == Step(Step(Step(Step(Step(Step(Step(s, a), b), c), d), e), f), g)
  {
    RunShort(s, a, b, c);
    RunShort(Run(s, [a, b, c]), d, e, f);
    RunAppend(s, [a, b, c], [d, e, f]);
    RunSnoc(s, [a, b, c] + [d, e, f], g);
  }

  /** The state it leaves, from any process about to read. */
  lemma ReplayLeaves(s: State, m: Message, ingest: int, again: int)
    requires AboutToRead(s, m) && m.value.Valid? && m.value.Storable()
    ensures var s', e := Run(s, Replay(ingest, again)), Entry(0, 0, m);
            && s'.logs == map[0 := [m]] && s'.landed == s.landed + {e} && s'.committed == map[0 := 1] && Drained(s')
            && s'.bronze == s.bronze[FirstKey(ingest) := FirstObject(m, ingest)][FirstKey(again) := FirstObject(m, again)]
  {
    RunSeven(s, Poll(0), WriteBronze(0, ingest), Restart(true), Poll(0), WriteBronze(0, again), WriteQuarantine(again), Commit);
    OneObjectMore(s, m, ingest);
    var died := Step(Step(s, Poll(0)), WriteBronze(0, ingest));
    DeathForgets(died, m, died.bronze, died.landed);
    OneObjectMore(Step(died, Restart(true)), m, again);
    var wrote := Step(Step(Step(died, Restart(true)), Poll(0)), WriteBronze(0, again));
    CommitFinishes(wrote, m, again, wrote.bronze, wrote.landed);
  }

  /** Both objects hold the message, so it lies there twice when they are two. */
  lemma TwoObjectsTwoRows(m: Message, ingest: int, again: int, k: Bucket)
    requires m.value.Valid? && BucketOf(m.value.row) == k && Slot(ingest, true) != Slot(again, true)
    ensures |RawRows(map[FirstKey(ingest) := FirstObject(m, ingest)][FirstKey(again) := FirstObject(m, again)], k)| == 2
  {
    var area := map[FirstKey(ingest) := FirstObject(m, ingest)][FirstKey(again) := FirstObject(m, again)];
    var one, other := Spot(FirstKey(ingest), 0), Spot(FirstKey(again), 0);
    assert RawRows(area, k) == {one, other} && one != other;
  }

  /** A broker with one partition. */
  function ToFirst(): string -> int
  {
    (machine: string) => 0
  }

  lemma OneRecordSent(m: Message, event: EventValue, raw: nat -> string)
    requires m == MessageOf(Published(event, false), raw(0))
    ensures Sent(map[0 := [m]], CopiesOf(event, [false]), raw, ToFirst())
  {
    var records := CopiesOf(event, [false]);
    assert records[..0] == [];
    assert LogOf(records, raw, ToFirst(), 0) == [m];
  }

  /**
   * And it happens, to any storable event published once and not corrupted: a bronze write in one hour whose commit is lost with
   * its process, and again in another hour. The drained group stores two rows where the documentation counts one.
   */
  lemma ReplayStoresTwice(event: EventValue, raw: nat -> string, ingest: int, again: int)
    requires Slot(ingest, true) != Slot(again, true) && Valid(event).Storable()
    ensures var canonical, records, k := [event], CopiesOf(event, [false]), BucketOf(event);
            var s := Run(Init(map[0 := [MessageOf(records[0], raw(0))]], true), Replay(ingest, again));
            && UniqueIds(Facts(canonical)) && Transported(canonical, records, map[], {})
            && Shipped(s, records, raw, ToFirst()) && Drained(s)
            && Documented(canonical, map[], {}, k) == 1 && |RawRows(s.bronze, k)| == 2
  {
    var m, k := MessageOf(Published(event, false), raw(0)), BucketOf(event);
    var s := Init(map[0 := [m]], true);
    assert AboutToRead(s, m);
    ReplayLeaves(s, m, ingest, again);
    TwoObjectsTwoRows(m, ingest, again, k);
    OneEventTransported(event, [false]);
    OneEventDocumented(event, map[], {});
    OneRecordSent(m, event, raw);
  }
}
