/** The bronze consumer as a step machine that may die anywhere. */
module ConsumerModel {
  import opened BronzeLog

  datatype Buffer = Buffer(records: seq<Entry>, rejects: seq<Entry>)
  {
    predicate Pending() { records != [] || rejects != [] }
  }

  const EMPTY := Buffer([], [])

  /** How far a flush has got. */
  datatype Phase = Polling | BronzeDone(partition: int) | BothDone(partition: int)

  datatype State = State(
    logs: Logs,
    committed: map<int, nat>,      // the group's committed offsets; absent until the first commit
    start: map<int, nat>,          // history: where the group's coverage of each partition began
    since: map<int, nat>,          // history: where the slice in each buffer began
    position: map<int, nat>,       // the next offset the client reads
    buffers: map<int, Buffer>,     // absent until a partition's first message
    bronze: Area,
    quarantine: Area,
    phase: Phase,
    landed: set<Entry>)            // history: every entry of every successful write
  {
    function BufferOf(p: int): Buffer { if p in buffers then buffers[p] else EMPTY }
    function Side(parses: bool): Area { if parses then bronze else quarantine }
    function Base(p: int): nat
      requires p in start
    {
      if p in committed then committed[p] else start[p]
    }
  }

  datatype Action =
    | Append(partition: int, message: Message)   // a producer
    | Poll(partition: int)                       // one message delivered: buffered, or the parser raises
    | WriteBronze(partition: int, ingest: int)   // a flush begins; the clock may say anything
    | WriteQuarantine(ingest: int)
    | Commit
    | UnackedCommit                              // the broker applies the commit and the call still raises
    | Abort                                      // a write or the commit raised
    | Restart(fromBeginning: bool)               // process death, then a new process in the group
    | NewGroup(fromBeginning: bool)              // a group that has never committed

  /** Where the client starts reading: the committed offset, else what `auto.offset.reset` says. */
  function ResetPosition(logs: Logs, committed: map<int, nat>, fromBeginning: bool): map<int, nat>
  {
    map p | p in logs :: if p in committed then committed[p] else if fromBeginning then 0 else |logs[p]|
  }

  function Init(logs: Logs, fromBeginning: bool): State
  {
    var at := ResetPosition(logs, map[], fromBeginning);
    State(logs, map[], at, at, at, map[], map[], map[], Polling, {})
  }

  predicate Enabled(s: State, a: Action)
  {
    match a
    case Append(p, _) => p in s.logs
    case Poll(p) => s.phase.Polling? && p in s.logs && p in s.position && s.position[p] < |s.logs[p]|
    case WriteBronze(p, _) => s.phase.Polling? && s.BufferOf(p).Pending() && Fits(s.BufferOf(p).records)
    case WriteQuarantine(_) => s.phase.BronzeDone? && Fits(s.BufferOf(s.phase.partition).rejects)
    case Commit => s.phase.BothDone? && s.BufferOf(s.phase.partition).Pending()
    case UnackedCommit => s.phase.BothDone? && s.BufferOf(s.phase.partition).Pending()
    case _ => true
  }

  function Buffered(b: Buffer, e: Entry): Buffer
  {
    if e.Parses() then b.(records := b.records + [e]) else b.(rejects := b.rejects + [e])
  }

  function AfterRestart(s: State, committed: map<int, nat>, fromBeginning: bool): State
  {
    var at := ResetPosition(s.logs, committed, fromBeginning);
    s.(committed := committed,
       start := map p | p in s.logs :: if p in committed && p in s.start then s.start[p] else at[p],
       since := at, position := at, buffers := map[], phase := Polling)
  }

  /** The offset after the highest in the buffer: Kafka commits the next one to read. */
  function NextOffset(s: State, p: int): nat
    requires s.BufferOf(p).Pending()
  {
    MaxOffset(s.BufferOf(p).records + s.BufferOf(p).rejects) + 1
  }

  function Step(s: State, a: Action): State
  {
    if !Enabled(s, a) then s
    else match a
      case Append(p, m) => s.(logs := s.logs[p := s.logs[p] + [m]])
      case Poll(p) =>
        var e := Entry(p, s.position[p], s.logs[p][s.position[p]]);
        if e.message.value.Poison? then s.(buffers := s.buffers[p := s.BufferOf(p)])
        else s.(buffers := s.buffers[p := Buffered(s.BufferOf(p), e)], position := s.position[p := s.position[p] + 1])
      case WriteBronze(p, ts) =>
        var batch := s.BufferOf(p).records;
        s.(bronze := Put(s.bronze, ts, true, batch), landed := s.landed + (set e | e in batch), phase := BronzeDone(p))
      case WriteQuarantine(ts) =>
        var p := s.phase.partition;
        var batch := s.BufferOf(p).rejects;
        s.(quarantine := Put(s.quarantine, ts, false, batch), landed := s.landed + (set e | e in batch), phase := BothDone(p))
      case Commit =>
        var p := s.phase.partition;
        var next := NextOffset(s, p);
        s.(committed := s.committed[p := next], since := s.since[p := next], buffers := s.buffers[p := EMPTY], phase := Polling)
      case UnackedCommit =>
        var p := s.phase.partition;
        s.(committed := s.committed[p := NextOffset(s, p)], phase := Polling)
      case Abort => s.(phase := Polling)
      case Restart(fromBeginning) => AfterRestart(s, s.committed, fromBeginning)
      case NewGroup(fromBeginning) => AfterRestart(s, map[], fromBeginning)
  }

  /** A run is any sequence of actions: an action that is not enabled leaves the state alone. */
  function Run(s: State, actions: seq<Action>): State
  {
    if actions == [] then s else Step(Run(s, actions[..|actions| - 1]), actions[|actions| - 1])
  }

  lemma {:induction false} RunAppend(s: State, first: seq<Action>, second: seq<Action>)
    ensures Run(s, first + second) == Run(Run(s, first), second)
  {
    if second == [] {
      assert first + second == first;
    } else {
      var n := |second| - 1;
      assert (first + second)[..|first| + n] == first + second[..n];
      RunAppend(s, first, second[..n]);
    }
  }

  lemma RunSnoc(s: State, actions: seq<Action>, a: Action)
    ensures Run(s, actions + [a]) == Step(Run(s, actions), a)
  {
    assert (actions + [a])[..|actions|] == actions;
  }

  lemma RunShort(s: State, a: Action, b: Action, c: Action)
    ensures Run(s, []) == s
    ensures Run(s, [a]) == Step(s, a)
    ensures Run(s, [a, b]) == Step(Step(s, a), b)
    ensures Run(s, [a, b, c]) == Step(Step(Step(s, a), b), c)
  {
    assert [a] == [] + [a] && [a, b] == [a] + [b] && [a, b, c] == [a, b] + [c];
    RunSnoc(s, [], a);
    RunSnoc(s, [a], b);
    RunSnoc(s, [a, b], c);
  }

  // ---- the invariant ----

  function EntryAt(s: State, p: int, o: nat): Entry
    requires p in s.logs && o < |s.logs[p]|
  {
    Entry(p, o, s.logs[p][o])
  }

  /**
   * The offsets line up, and the buffer is a classified slice of the log up to the read position. It begins at the
   * committed offset, or before it when a commit was applied and not acknowledged.
   */
  ghost predicate Aligned(s: State, p: int)
    requires p in s.logs
  {
    && p in s.start && p in s.since && p in s.position
    && s.start[p] <= s.since[p] <= s.Base(p) <= s.position[p] <= |s.logs[p]|
    && s.BufferOf(p).records == Entries(s.logs[p], p, s.since[p], s.position[p], true)
    && s.BufferOf(p).rejects == Entries(s.logs[p], p, s.since[p], s.position[p], false)
  }

  ghost predicate Shape(s: State)
  {
    && s.committed.Keys <= s.logs.Keys && s.buffers.Keys <= s.logs.Keys
    && (forall p :: p in s.logs ==> Aligned(s, p))
  }

  /** Storage is well named, and holds exactly what has landed. */
  ghost predicate StorageExact(s: State)
  {
    && WellNamed(s.logs, true, s.bronze) && WellNamed(s.logs, false, s.quarantine)
    && (forall e :: e in s.landed <==> Holds(s.Side(e.Parses()), e))
  }

  /** Everything before the committed offset is durable. */
  ghost predicate BehindIsLanded(s: State)
    requires Shape(s)
  {
    forall p, o: nat :: p in s.logs && s.start[p] <= o < s.Base(p) ==> EntryAt(s, p, o) in s.landed
  }

  /** So it is, and a flush under way has landed what its phase says. */
  ghost predicate CommitSafe(s: State)
    requires Shape(s)
  {
    && BehindIsLanded(s)
    && (!s.phase.Polling? ==> s.phase.partition in s.logs)
    && (!s.phase.Polling? ==> forall e :: e in s.BufferOf(s.phase.partition).records ==> e in s.landed)
    && (s.phase.BothDone? ==> forall e :: e in s.BufferOf(s.phase.partition).rejects ==> e in s.landed)
  }

  ghost predicate Inv(s: State)
  {
    Shape(s) && StorageExact(s) && CommitSafe(s)
  }

  lemma InitInv(logs: Logs, fromBeginning: bool)
    ensures Inv(Init(logs, fromBeginning))
  {
  }

  /** What commits nothing, forgets nothing and only lengthens logs keeps it so. */
  lemma BehindCarries(s: State, s': State)
    requires Shape(s) && BehindIsLanded(s) && Shape(s')
    requires s'.logs.Keys == s.logs.Keys && forall p :: p in s.logs ==> s.logs[p] <= s'.logs[p]
    requires s'.start == s.start && s'.committed == s.committed && s.landed <= s'.landed
    ensures BehindIsLanded(s')
  {
    forall p, o: nat | p in s'.logs && s'.start[p] <= o < s'.Base(p) ensures EntryAt(s', p, o) in s'.landed {
      assert Aligned(s, p);
      assert EntryAt(s', p, o) == EntryAt(s, p, o);
    }
  }

  lemma AppendKeepsAligned(s: State, p: int, m: Message, q: int)
    requires p in s.logs && q in s.logs && Aligned(s, q)
    ensures Aligned(Step(s, Append(p, m)), q)
  {
    if q == p {
      EntriesAppend(s.logs[p], [m], p, s.since[p], s.position[p], true);
      EntriesAppend(s.logs[p], [m], p, s.since[p], s.position[p], false);
    }
  }

  lemma AppendKeepsStorage(s: State, p: int, m: Message)
    requires StorageExact(s) && p in s.logs
    ensures StorageExact(Step(s, Append(p, m)))
  {
    AppendKeepsNames(s.logs, p, [m], true, s.bronze);
    AppendKeepsNames(s.logs, p, [m], false, s.quarantine);
  }

  lemma AppendInv(s: State, p: int, m: Message)
    requires Inv(s) && p in s.logs
    ensures Inv(Step(s, Append(p, m)))
  {
    var s' := Step(s, Append(p, m));
    AppendKeepsStorage(s, p, m);
    forall q | q in s'.logs ensures Aligned(s', q) {
      AppendKeepsAligned(s, p, m, q);
    }
    BehindCarries(s, s');
  }

  lemma BufferedIsNextCut(s: State, p: int, parses: bool)
    requires p in s.logs && Aligned(s, p) && s.position[p] < |s.logs[p]|
    ensures var b := Buffered(s.BufferOf(p), EntryAt(s, p, s.position[p]));
            (if parses then b.records else b.rejects) == Entries(s.logs[p], p, s.since[p], s.position[p] + 1, parses)
  {
  }

  lemma PollKeepsAligned(s: State, p: int, q: int)
    requires Enabled(s, Poll(p)) && q in s.logs && Aligned(s, q)
    ensures Aligned(Step(s, Poll(p)), q)
  {
    if q == p { PollAligns(s, p); }
  }

  lemma PollAligns(s: State, p: int)
    requires Enabled(s, Poll(p)) && Aligned(s, p)
    ensures Aligned(Step(s, Poll(p)), p)
  {
    if PoisonAhead(s, p) {
      PollStays(s, p);
    } else {
      PollMoves(s, p);
      BufferedIsNextCut(s, p, true);
      BufferedIsNextCut(s, p, false);
    }
  }

  /** The parser raises on the message at the read position. */
  predicate PoisonAhead(s: State, p: int)
    requires p in s.logs && p in s.position && s.position[p] < |s.logs[p]|
  {
    s.logs[p][s.position[p]].value.Poison?
  }

  lemma PollStays(s: State, p: int)
    requires Enabled(s, Poll(p)) && PoisonAhead(s, p)
    ensures Step(s, Poll(p)) == s.(buffers := s.buffers[p := s.BufferOf(p)])
  {
  }

  lemma PollMoves(s: State, p: int)
    requires Enabled(s, Poll(p)) && !PoisonAhead(s, p)
    ensures Step(s, Poll(p))
         == s.(buffers := s.buffers[p := Buffered(s.BufferOf(p), Entry(p, s.position[p], s.logs[p][s.position[p]]))],
               position := s.position[p := s.position[p] + 1])
  {
  }

  /** A poll moves one buffer and one position, and nothing else. */
  lemma PollLeaves(s: State, p: int)
    requires Enabled(s, Poll(p))
    ensures var s' := Step(s, Poll(p));
            && s'.logs == s.logs && s'.start == s.start && s'.committed == s.committed && s'.landed == s.landed
            && s'.bronze == s.bronze && s'.quarantine == s.quarantine && s'.phase == s.phase && s'.since == s.since
            && s'.buffers.Keys == s.buffers.Keys + {p}
  {
    if PoisonAhead(s, p) { PollStays(s, p); } else { PollMoves(s, p); }
  }

  lemma StorageCarries(s: State, s': State)
    requires StorageExact(s) && s'.logs == s.logs && s'.landed == s.landed && s'.bronze == s.bronze && s'.quarantine == s.quarantine
    ensures StorageExact(s')
  {
  }

  lemma PollInv(s: State, p: int)
    requires Inv(s) && Enabled(s, Poll(p))
    ensures Inv(Step(s, Poll(p)))
  {
    var s' := Step(s, Poll(p));
    PollLeaves(s, p);
    PollKeepsShape(s, p);
    StorageCarries(s, s');
    BehindCarries(s, s');
  }

  lemma PollKeepsShape(s: State, p: int)
    requires Shape(s) && Enabled(s, Poll(p))
    ensures Shape(Step(s, Poll(p)))
  {
    var s' := Step(s, Poll(p));
    PollLeaves(s, p);
    forall q | q in s'.logs ensures Aligned(s', q) {
      PollKeepsAligned(s, p, q);
    }
  }

  /** Landing a cut of the log through `Put` keeps storage exactly what has landed. */
  lemma LandingKeepsStorageExact(s: State, s': State, parses: bool, p: int, ingest: int)
    requires Shape(s) && StorageExact(s) && p in s.logs
    requires var batch := if parses then s.BufferOf(p).records else s.BufferOf(p).rejects;
             && s'.logs == s.logs && s'.landed == s.landed + (set e | e in batch)
             && s'.Side(parses) == Put(s.Side(parses), ingest, parses, batch)
             && s'.Side(!parses) == s.Side(!parses)
    ensures StorageExact(s')
  {
    assert Aligned(s, p);
    var lo, hi := s.since[p], s.position[p];
    var batch := Entries(s.logs[p], p, lo, hi, parses);
    OverwriteIsSafe(s.logs, parses, s.Side(parses), ingest, p, lo, hi);
    assert WellNamed(s'.logs, parses, s'.Side(parses));
    assert WellNamed(s'.logs, !parses, s'.Side(!parses));
    forall e ensures e in s'.landed <==> Holds(s'.Side(e.Parses()), e) {
      PutLandsBatch(s.Side(parses), ingest, parses, batch, e);
      EntriesMembers(s.logs[p], p, lo, hi, parses, e);
      WellNamedClass(s.logs, parses, s.Side(parses), e);
    }
  }

  /** What an area holds is genuine: that very message of that very partition, and of the area's class. */
  lemma WellNamedClass(logs: Logs, parses: bool, area: Area, e: Entry)
    requires WellNamed(logs, parses, area)
    ensures Holds(area, e) ==>
      e.Parses() == parses && e.partition in logs && e.offset < |logs[e.partition]| && e.message == logs[e.partition][e.offset]
  {
    if Holds(area, e) {
      var k :| k in area && e in area[k].entries;
      assert Named(logs, parses, k, area[k]);
      EntriesMembers(logs[k.partition], k.partition, k.first, k.last + 1, parses, e);
    }
  }

  lemma WriteBronzeInv(s: State, p: int, ts: int)
    requires Inv(s) && Enabled(s, WriteBronze(p, ts))
    ensures Inv(Step(s, WriteBronze(p, ts)))
  {
    var s' := Step(s, WriteBronze(p, ts));
    LandingKeepsStorageExact(s, s', true, p, ts);
    forall q | q in s'.logs ensures Aligned(s', q) { assert Aligned(s, q); }
    BehindCarries(s, s');
  }

  lemma WriteQuarantineInv(s: State, ts: int)
    requires Inv(s) && Enabled(s, WriteQuarantine(ts))
    ensures Inv(Step(s, WriteQuarantine(ts)))
  {
    var s' := Step(s, WriteQuarantine(ts));
    LandingKeepsStorageExact(s, s', false, s.phase.partition, ts);
    forall q | q in s'.logs ensures Aligned(s', q) { assert Aligned(s, q); }
    BehindCarries(s, s');
  }

  /** The commit's `max` over both lists is the last offset read, so `highest + 1` is the read position. */
  lemma HighestIsLastRead(s: State, p: int)
    requires Shape(s) && p in s.logs && s.BufferOf(p).Pending()
    ensures p in s.position && NextOffset(s, p) == s.position[p]
  {
    assert Aligned(s, p);
    var lo, hi := s.since[p], s.position[p];
    var all := s.BufferOf(p).records + s.BufferOf(p).rejects;
    OffsetBounds(all);
    EntriesPartitionSlice(s.logs[p], p, lo, hi);
    assert lo < hi;
    var last := EntryAt(s, p, hi - 1);
    EntriesMembers(s.logs[p], p, lo, hi, last.Parses(), last);
    assert last in all;
    var top :| top in all && top.offset == MaxOffset(all);
    EntriesMembers(s.logs[p], p, lo, hi, true, top);
    EntriesMembers(s.logs[p], p, lo, hi, false, top);
  }

  /** What the commit moves past has landed: both halves of the buffer were written. */
  lemma CommitIsDurable(s: State, o: nat)
    requires Inv(s) && s.phase.BothDone? && s.phase.partition in s.logs
    requires s.phase.partition in s.since && s.phase.partition in s.position
    requires s.since[s.phase.partition] <= o < s.position[s.phase.partition] <= |s.logs[s.phase.partition]|
    ensures EntryAt(s, s.phase.partition, o) in s.landed
  {
    var p := s.phase.partition;
    assert Aligned(s, p);
    var e := EntryAt(s, p, o);
    EntriesMembers(s.logs[p], p, s.since[p], s.position[p], e.Parses(), e);
  }

  function CommitAction(acknowledged: bool): Action
  {
    if acknowledged then Commit else UnackedCommit
  }

  lemma CommitKeepsAligned(s: State, acknowledged: bool, q: int)
    requires Shape(s) && Enabled(s, Commit) && s.phase.partition in s.logs && q in s.logs
    ensures Aligned(Step(s, CommitAction(acknowledged)), q)
    ensures Step(s, CommitAction(acknowledged)).Base(q) == if q == s.phase.partition then s.position[q] else s.Base(q)
  {
    HighestIsLastRead(s, s.phase.partition);
    assert Aligned(s, q);
  }

  lemma CommittedStaysDurable(s: State, q: int, o: nat)
    requires Inv(s) && Enabled(s, Commit) && q in s.logs
    requires s.start[q] <= o < if q == s.phase.partition then s.position[q] else s.Base(q)
    ensures o < |s.logs[q]| && EntryAt(s, q, o) in s.landed
  {
    assert Aligned(s, q);
    if o < s.Base(q) {
      assert EntryAt(s, q, o) in s.landed;
    } else {
      CommitIsDurable(s, o);
    }
  }

  /** The commit moves exactly to the read position; acknowledged or not, it moves past durable messages only. */
  lemma CommitInv(s: State, acknowledged: bool)
    requires Inv(s) && Enabled(s, Commit)
    ensures Inv(Step(s, CommitAction(acknowledged)))
  {
    var s' := Step(s, CommitAction(acknowledged));
    CommitLeaves(s, acknowledged);
    forall q | q in s'.logs ensures Aligned(s', q) { CommitKeepsAligned(s, acknowledged, q); }
    forall q, o: nat | q in s'.logs && s'.start[q] <= o < s'.Base(q) ensures EntryAt(s', q, o) in s'.landed {
      CommitKeepsAligned(s, acknowledged, q);
      CommittedStaysDurable(s, q, o);
    }
  }

  lemma CommitLeaves(s: State, acknowledged: bool)
    requires Inv(s) && Enabled(s, Commit)
    ensures var s' := Step(s, CommitAction(acknowledged));
            && s'.logs == s.logs && s'.start == s.start && s'.landed == s.landed && s'.phase.Polling?
            && s'.bronze == s.bronze && s'.quarantine == s.quarantine
            && s'.committed.Keys <= s.logs.Keys && s'.buffers.Keys <= s.logs.Keys
  {
  }

  lemma RestartInv(s: State, committed: map<int, nat>, fromBeginning: bool)
    requires Inv(s) && (committed == s.committed || committed == map[])
    ensures Inv(AfterRestart(s, committed, fromBeginning))
  {
    var s' := AfterRestart(s, committed, fromBeginning);
    forall q | q in s'.logs ensures Aligned(s', q) { assert Aligned(s, q); }
    forall q, o: nat | q in s'.logs && s'.start[q] <= o < s'.Base(q) ensures EntryAt(s', q, o) in s'.landed {
      assert Aligned(s, q);
      assert EntryAt(s, q, o) in s.landed;
    }
  }

  lemma AbortInv(s: State)
    requires Inv(s)
    ensures Inv(Step(s, Abort))
  {
    var s' := Step(s, Abort);
    forall q | q in s'.logs ensures Aligned(s', q) { assert Aligned(s, q); }
    BehindCarries(s, s');
  }

  lemma StepInv(s: State, a: Action)
    requires Inv(s)
    ensures Inv(Step(s, a))
  {
    if Enabled(s, a) {
      match a
      case Append(p, m) => AppendInv(s, p, m);
      case Poll(p) => PollInv(s, p);
      case WriteBronze(p, ts) => WriteBronzeInv(s, p, ts);
      case WriteQuarantine(ts) => WriteQuarantineInv(s, ts);
      case Commit => CommitInv(s, true);
      case UnackedCommit => CommitInv(s, false);
      case Abort => AbortInv(s);
      case Restart(fromBeginning) => RestartInv(s, s.committed, fromBeginning);
      case NewGroup(fromBeginning) => RestartInv(s, map[], fromBeginning);
    }
  }

  /** Every state of every run, whatever crashes, failed writes, clocks and batch cuts it contains, keeps the invariant. */
  lemma {:induction false} RunInv(s: State, actions: seq<Action>)
    requires Inv(s)
    ensures Inv(Run(s, actions))
  {
    if actions != [] {
      RunInv(s, actions[..|actions| - 1]);
      StepInv(Run(s, actions[..|actions| - 1]), actions[|actions| - 1]);
    }
  }

  ghost predicate Reachable(s: State)
  {
    exists logs, fromBeginning, actions :: s == Run(Init(logs, fromBeginning), actions)
  }

  lemma ReachableInv(s: State)
    requires Reachable(s)
    ensures Inv(s)
  {
    var logs, fromBeginning, actions :| s == Run(Init(logs, fromBeginning), actions);
    InitInv(logs, fromBeginning);
    RunInv(Init(logs, fromBeginning), actions);
  }

  // ---- nothing lands that does not fit ----

  ghost predicate OnlyStorable(s: State)
  {
    forall e :: e in s.landed ==> e.message.value.Storable()
  }

  lemma StepKeepsStorable(s: State, a: Action)
    requires OnlyStorable(s)
    ensures OnlyStorable(Step(s, a))
  {
  }

  lemma {:induction false} RunKeepsStorable(s: State, actions: seq<Action>)
    requires OnlyStorable(s)
    ensures OnlyStorable(Run(s, actions))
    decreases |actions|
  {
    if actions != [] {
      RunKeepsStorable(s, actions[..|actions| - 1]);
      StepKeepsStorable(Run(s, actions[..|actions| - 1]), actions[|actions| - 1]);
    }
  }

  lemma LandedIsStorable(s: State)
    requires Reachable(s)
    ensures OnlyStorable(s)
  {
    var logs, fromBeginning, actions :| s == Run(Init(logs, fromBeginning), actions);
    RunKeepsStorable(Init(logs, fromBeginning), actions);
  }

  // ---- what the invariant buys ----

  /** Commit safety: an offset the group has committed past is in storage, in the area its class belongs to. */
  lemma CommittedIsDurable(s: State, p: int, o: nat)
    requires Reachable(s) && p in s.committed && p in s.logs && p in s.start
    requires s.start[p] <= o < s.committed[p]
    ensures o < |s.logs[p]| && Holds(s.Side(EntryAt(s, p, o).Parses()), EntryAt(s, p, o))
  {
    ReachableInv(s);
    assert Aligned(s, p);
    assert EntryAt(s, p, o) in s.landed;
  }

  /** What a buffer holds: each message from `since` to the read position once, and nothing else. */
  ghost predicate HoldsSlice(s: State, p: int, since: nat)
    requires p in s.logs && p in s.position && s.position[p] <= |s.logs[p]|
  {
    && |s.BufferOf(p).records| + |s.BufferOf(p).rejects| == s.position[p] - since
    && (forall e :: e in s.BufferOf(p).records + s.BufferOf(p).rejects <==>
          e.partition == p && since <= e.offset < s.position[p] && e.message == s.logs[p][e.offset])
    && (!s.BufferOf(p).Pending() <==> since == s.position[p])
  }

  /** In every reachable state the buffer is a slice up to the read position that reaches back at least to the commit. */
  lemma BufferIsSlice(s: State, p: int)
    requires Reachable(s) && p in s.logs
    ensures p in s.start && p in s.since && p in s.position
    ensures s.start[p] <= s.since[p] <= s.Base(p) <= s.position[p] <= |s.logs[p]|
    ensures HoldsSlice(s, p, s.since[p])
  {
    ReachableInv(s);
    assert Aligned(s, p);
    EntriesPartitionSlice(s.logs[p], p, s.since[p], s.position[p]);
    forall e ensures e in s.BufferOf(p).records + s.BufferOf(p).rejects <==>
              e.partition == p && s.since[p] <= e.offset < s.position[p] && e.message == s.logs[p][e.offset] {
      EntriesMembers(s.logs[p], p, s.since[p], s.position[p], true, e);
      EntriesMembers(s.logs[p], p, s.since[p], s.position[p], false, e);
    }
  }

  ghost predicate SinceCommit(s: State)
  {
    forall p :: p in s.logs && p in s.start && p in s.since ==> s.since[p] == s.Base(p)
  }

  lemma AckedStep(s: State, a: Action)
    requires Inv(s) && SinceCommit(s) && !a.UnackedCommit?
    ensures SinceCommit(Step(s, a))
  {
    if s.phase.BothDone? && s.BufferOf(s.phase.partition).Pending() {
      HighestIsLastRead(s, s.phase.partition);
    }
    forall p | p in s.logs ensures Aligned(s, p) {}
  }

  lemma {:induction false} AckedRun(s: State, actions: seq<Action>)
    requires Inv(s) && SinceCommit(s) && forall i :: 0 <= i < |actions| ==> !actions[i].UnackedCommit?
    ensures SinceCommit(Run(s, actions))
    decreases |actions|
  {
    if actions != [] {
      var shorter := actions[..|actions| - 1];
      AckedRun(s, shorter);
      RunInv(s, shorter);
      AckedStep(Run(s, shorter), actions[|actions| - 1]);
    }
  }

  /**
   * Buffered and committed work meet exactly: unless a commit went unacknowledged, the buffer is the slice from the
   * committed offset to the read position, with nothing twice and nothing missing.
   */
  lemma BufferIsUncommittedSlice(logs: Logs, fromBeginning: bool, actions: seq<Action>, p: int)
    requires forall i :: 0 <= i < |actions| ==> !actions[i].UnackedCommit?
    requires p in Run(Init(logs, fromBeginning), actions).logs
    ensures var s := Run(Init(logs, fromBeginning), actions);
            && p in s.start && p in s.position && s.start[p] <= s.Base(p) <= s.position[p] <= |s.logs[p]|
            && HoldsSlice(s, p, s.Base(p))
  {
    var s := Run(Init(logs, fromBeginning), actions);
    InitInv(logs, fromBeginning);
    AckedRun(Init(logs, fromBeginning), actions);
    BufferIsSlice(s, p);
  }

  lemma WritePreserves(s: State, parses: bool, p: int, ts: int)
    requires Inv(s) && p in s.logs
    ensures Preserves(s.Side(parses), Put(s.Side(parses), ts, parses, if parses then s.BufferOf(p).records else s.BufferOf(p).rejects))
  {
    assert Aligned(s, p);
    OverwriteIsSafe(s.logs, parses, s.Side(parses), ts, p, s.since[p], s.position[p]);
  }

  lemma OnlyWritesChangeAreas(s: State, a: Action)
    ensures !(Enabled(s, a) && a.WriteBronze?) ==> Step(s, a).bronze == s.bronze
    ensures !(Enabled(s, a) && a.WriteQuarantine?) ==> Step(s, a).quarantine == s.quarantine
  {
  }

  /** One step never deletes an object and rewrites one only with the entries it already had. */
  lemma StepPreservesObjects(s: State, a: Action)
    requires Inv(s)
    ensures Preserves(s.bronze, Step(s, a).bronze) && Preserves(s.quarantine, Step(s, a).quarantine)
  {
    OnlyWritesChangeAreas(s, a);
    if Enabled(s, a) && a.WriteBronze? {
      WritePreserves(s, true, a.partition, a.ingest);
    } else if Enabled(s, a) && a.WriteQuarantine? {
      WritePreserves(s, false, s.phase.partition, a.ingest);
    }
  }

  /** Overwriting never loses data: across any stretch of a run, every object ever written keeps its entries under its key. */
  lemma {:induction false} RunPreservesObjects(s: State, actions: seq<Action>)
    requires Inv(s)
    ensures Preserves(s.bronze, Run(s, actions).bronze) && Preserves(s.quarantine, Run(s, actions).quarantine)
  {
    if actions != [] {
      var shorter := actions[..|actions| - 1];
      RunPreservesObjects(s, shorter);
      RunInv(s, shorter);
      StepPreservesObjects(Run(s, shorter), actions[|actions| - 1]);
    }
  }

  /** Every offset of [from, to) has landed. */
  ghost predicate AllLanded(s: State, p: int, from: nat, to: nat)
    requires p in s.logs && to <= |s.logs[p]|
  {
    forall o: nat :: from <= o < to ==> EntryAt(s, p, o) in s.landed
  }

  /**
   * What a restart may lose. The new process reads on from its reset position, so what it will not read again must have
   * landed. That is so exactly when the group has committed on the partition, or reads it from the beginning, or happens
   * to have landed everything the log holds since its coverage began.
   */
  lemma RestartLosesNothingIff(s: State, fromBeginning: bool, p: int)
    requires Reachable(s) && p in s.logs
    ensures var s' := Step(s, Restart(fromBeginning));
            && p in s.start && p in s'.position && s'.position[p] <= |s.logs[p]|
            && (AllLanded(s, p, s.start[p], s'.position[p]) <==>
                  p in s.committed || fromBeginning || AllLanded(s, p, s.start[p], |s.logs[p]|))
  {
    ReachableInv(s);
    assert Aligned(s, p);
    if p in s.committed {
      forall o: nat | s.start[p] <= o < s.committed[p] ensures EntryAt(s, p, o) in s.landed {
        assert o < s.Base(p);
      }
    }
  }

  /** A message behind the group's commit that has not landed. */
  ghost predicate Skipped(s: State, p: int, o: nat)
  {
    && p in s.logs && o < |s.logs[p]| && p in s.committed && o < s.committed[p] && p in s.since && o < s.since[p]
    && EntryAt(s, p, o) !in s.landed
  }

  lemma SkippedStep(s: State, a: Action, p: int, o: nat)
    requires Inv(s) && Skipped(s, p, o) && !a.NewGroup?
    ensures Skipped(Step(s, a), p, o)
  {
    assert Aligned(s, p);
    var e := EntryAt(s, p, o);
    if Enabled(s, a) {
      match a
      case Append(q, m) => assert EntryAt(Step(s, a), p, o) == e;
      case Poll(q) => PollLeaves(s, q);
      case WriteBronze(q, ts) => OldEntryIsNotBuffered(s, q, p, o);
      case WriteQuarantine(ts) => OldEntryIsNotBuffered(s, s.phase.partition, p, o);
      case Commit => HighestIsLastRead(s, s.phase.partition);
      case UnackedCommit => HighestIsLastRead(s, s.phase.partition);
      case _ =>
    }
  }

  lemma OldEntryIsNotBuffered(s: State, q: int, p: int, o: nat)
    requires Inv(s) && p in s.logs && o < |s.logs[p]| && p in s.since && o < s.since[p]
    ensures EntryAt(s, p, o) !in s.BufferOf(q).records && EntryAt(s, p, o) !in s.BufferOf(q).rejects
  {
    if q in s.logs {
      assert Aligned(s, q);
      EntriesMembers(s.logs[q], q, s.since[q], s.position[q], true, EntryAt(s, p, o));
      EntriesMembers(s.logs[q], q, s.since[q], s.position[q], false, EntryAt(s, p, o));
    }
  }

  /** Skipped is lost: no continuation of the group ever lands the message. */
  lemma {:induction false} SkippedIsLost(s: State, actions: seq<Action>, p: int, o: nat)
    requires Inv(s) && Skipped(s, p, o) && forall i :: 0 <= i < |actions| ==> !actions[i].NewGroup?
    ensures Skipped(Run(s, actions), p, o)
    decreases |actions|
  {
    if actions != [] {
      var shorter := actions[..|actions| - 1];
      SkippedIsLost(s, shorter, p, o);
      RunInv(s, shorter);
      SkippedStep(Run(s, shorter), actions[|actions| - 1], p, o);
    }
  }

  /** And it happens: under `auto.offset.reset: latest` a message read and not committed is skipped by a restart. */
  lemma LatestCanSkip(m: Message)
    ensures var s := Run(Init(map[0 := []], false), [Append(0, m), Poll(0), Restart(false)]);
            0 in s.logs && s.logs[0] == [m] && s.position[0] == 1 && s.buffers == map[] && s.landed == {}
  {
    var s0 := Init(map[0 := []], false);
    RunShort(s0, Append(0, m), Poll(0), Restart(false));
    var s1 := Step(s0, Append(0, m));
    assert s1.logs[0] == [m] && s1.phase.Polling? && s1.landed == {} && s1.committed == map[];
    var s2 := Step(s1, Poll(0));
    assert s2.logs == s1.logs && s2.landed == {} && s2.committed == map[];
  }

  predicate FromBeginning(a: Action)
  {
    match a
    case Restart(fromBeginning) => fromBeginning
    case NewGroup(fromBeginning) => fromBeginning
    case _ => true
  }

  /** When every process starts with `--from-beginning`, coverage begins at offset 0 in every state of every run. */
  lemma {:induction false} FromBeginningCoversAll(logs: Logs, actions: seq<Action>, p: int)
    requires forall i :: 0 <= i < |actions| ==> FromBeginning(actions[i])
    ensures var s := Run(Init(logs, true), actions); p in logs <==> p in s.logs
    ensures var s := Run(Init(logs, true), actions); p in s.logs ==> p in s.start && s.start[p] == 0
  {
    InitInv(logs, true);
    RunInv(Init(logs, true), actions);
    if actions != [] {
      FromBeginningCoversAll(logs, actions[..|actions| - 1], p);
      var before := Run(Init(logs, true), actions[..|actions| - 1]);
      assert FromBeginning(actions[|actions| - 1]);
    }
  }

  /** Nothing is buffered and nothing is left to read. */
  ghost predicate Drained(s: State)
  {
    && (forall p :: p in s.buffers ==> !s.buffers[p].Pending())
    && (forall p :: p in s.logs ==> p in s.position && s.position[p] == |s.logs[p]|)
  }

  /** Every message of every partition has landed. */
  ghost predicate Complete(s: State)
  {
    forall p, o: nat :: p in s.logs && o < |s.logs[p]| ==> EntryAt(s, p, o) in s.landed
  }

  lemma DrainedIsComplete(s: State)
    requires Reachable(s) && Drained(s)
    requires forall p :: p in s.logs && p in s.start ==> s.start[p] == 0
    ensures Complete(s)
  {
    ReachableInv(s);
    forall p, o: nat | p in s.logs && o < |s.logs[p]| ensures EntryAt(s, p, o) in s.landed {
      BufferIsSlice(s, p);
      assert s.start[p] <= o < s.Base(p);
    }
  }
}
