/** When the group can drain the broker; that silver exists. */
module Progress {
  import opened Events
  import opened BronzeLog
  import opened ConsumerModel
  import opened BronzeConsumer
  import opened Silver

  // ---- continuations of one group ----

  /** Every action but a new group, and a restart that would skip to the end of the log. */
  ghost predicate Loyal(actions: seq<Action>)
  {
    forall i :: 0 <= i < |actions| ==> FromBeginning(actions[i]) && !actions[i].NewGroup?
  }

  /** The group can get from s to t. */
  ghost predicate Continues(s: State, t: State)
  {
    exists actions :: Loyal(actions) && t == Run(s, actions)
  }

  lemma ContinuesByRun(s: State, actions: seq<Action>)
    requires Reachable(s) && Loyal(actions)
    ensures Continues(s, Run(s, actions)) && Reachable(Run(s, actions))
  {
    RunStaysReachable(s, actions);
  }

  lemma ContinuesTransitive(s: State, t: State, u: State)
    requires Continues(s, t) && Continues(t, u)
    ensures Continues(s, u)
  {
    var first :| Loyal(first) && t == Run(s, first);
    var second :| Loyal(second) && u == Run(t, second);
    RunAppend(s, first, second);
    assert Loyal(first + second);
  }

  /** Partition p is read to its end and nothing of it is buffered. */
  ghost predicate Settled(s: State, p: int)
  {
    p in s.logs && p in s.position && s.position[p] == |s.logs[p]| && !s.BufferOf(p).Pending()
  }

  /** From the commit on, partition p holds nothing that cannot be stored; what the parser raises on cannot. */
  ghost predicate Palatable(s: State, p: int)
  {
    p in s.logs && p in s.start && forall o: nat :: s.Base(p) <= o < |s.logs[p]| ==> s.logs[p][o].value.Storable()
  }

  /** A run that works on partition p alone. */
  ghost predicate WorksOn(s: State, t: State, p: int)
  {
    && Continues(s, t) && Reachable(t) && t.phase.Polling? && t.logs == s.logs && t.start == s.start
    && t.position.Keys == s.position.Keys
    && (forall q :: q != p && q in s.position ==> t.position[q] == s.position[q])
    && (forall q :: q != p ==> t.BufferOf(q) == s.BufferOf(q))
    && (forall q :: q != p && q in s.start ==> t.Base(q) == s.Base(q))
    && (p in s.start ==> t.Base(p) >= s.Base(p))
  }

  lemma WorksOnTransitive(s: State, t: State, u: State, p: int)
    requires WorksOn(s, t, p) && WorksOn(t, u, p)
    ensures WorksOn(s, u, p)
  {
    ContinuesTransitive(s, t, u);
  }

  lemma StandingStill(s: State, p: int)
    requires Reachable(s) && s.phase.Polling?
    ensures WorksOn(s, s, p)
  {
    ContinuesByRun(s, []);
    assert Run(s, []) == s;
  }

  lemma PollWorksOn(s: State, p: int)
    requires Reachable(s) && Enabled(s, Poll(p))
    ensures WorksOn(s, Step(s, Poll(p)), p)
  {
    RunShort(s, Poll(p), Abort, Abort);
    ContinuesByRun(s, [Poll(p)]);
    PollTouchesOne(s, p);
  }

  lemma OneBuffer(s: State, t: State, p: int, b: Buffer, q: int)
    requires t.buffers == s.buffers[p := b] && q != p
    ensures t.BufferOf(q) == s.BufferOf(q)
  {
  }

  lemma PollTouchesOne(s: State, p: int)
    requires Enabled(s, Poll(p))
    ensures var t := Step(s, Poll(p));
            && t.phase.Polling? && t.logs == s.logs && t.start == s.start && t.position.Keys == s.position.Keys
            && (forall q :: q != p && q in s.position ==> t.position[q] == s.position[q])
            && (forall q :: q != p ==> t.BufferOf(q) == s.BufferOf(q))
            && t.committed == s.committed
  {
    var t, e := Step(s, Poll(p)), EntryAt(s, p, s.position[p]);
    var b := if PoisonAhead(s, p) then s.BufferOf(p) else Buffered(s.BufferOf(p), e);
    assert t.buffers == s.buffers[p := b];
    forall q | q != p ensures t.BufferOf(q) == s.BufferOf(q) {
      OneBuffer(s, t, p, b, q);
    }
  }

  /** Read a partition to its end. */
  lemma {:induction false} ReadToEnd(s: State, p: int) returns (t: State)
    requires Reachable(s) && s.phase.Polling? && Palatable(s, p) && p in s.position && s.Base(p) <= s.position[p] <= |s.logs[p]|
    ensures WorksOn(s, t, p) && p in t.position && t.position[p] == |t.logs[p]|
    decreases |s.logs[p]| - s.position[p]
  {
    if s.position[p] == |s.logs[p]| {
      StandingStill(s, p);
      t := s;
    } else {
      var next := Step(s, Poll(p));
      PollWorksOn(s, p);
      t := ReadToEnd(next, p);
      WorksOnTransitive(s, next, t, p);
    }
  }

  /** What is buffered landed before, or lies ahead of the commit; so it fits. */
  lemma PalatableFits(s: State, p: int)
    requires Reachable(s) && Palatable(s, p)
    ensures BufferFits(s.BufferOf(p))
  {
    ReachableInv(s);
    LandedIsStorable(s);
    BufferIsSlice(s, p);
    var b := s.BufferOf(p);
    forall e | e in b.records + b.rejects ensures e.message.value.Storable() {
      assert s.since[p] <= e.offset < s.position[p];
      if e.offset < s.Base(p) { assert EntryAt(s, p, e.offset) in s.landed; }
    }
    assert forall i :: 0 <= i < |b.records| ==> b.records[i] in b.records + b.rejects;
    assert forall i :: 0 <= i < |b.rejects| ==> b.rejects[i] in b.records + b.rejects;
  }

  /** Flush what a partition has buffered, with no fault. */
  lemma FlushAway(s: State, p: int) returns (t: State)
    requires Reachable(s) && s.phase.Polling? && Palatable(s, p)
    ensures WorksOn(s, t, p) && t.position == s.position && !t.BufferOf(p).Pending()
  {
    if !s.BufferOf(p).Pending() {
      StandingStill(s, p);
      t := s;
    } else {
      var actions := [WriteBronze(p, 0), WriteQuarantine(0), Commit];
      PalatableFits(s, p);
      FlushMovesBase(s, p);
      FlushSteps(s, p, 0, 0);
      CommitStep(s, Step(Step(s, WriteBronze(p, 0)), WriteQuarantine(0)), p);
      RunShort(s, WriteBronze(p, 0), WriteQuarantine(0), Commit);
      t := Run(s, actions);
      ContinuesByRun(s, actions);
    }
  }

  lemma FlushMovesBase(s: State, p: int)
    requires Reachable(s) && p in s.logs && s.BufferOf(p).Pending()
    ensures p in s.start && NextOffset(s, p) >= s.Base(p)
  {
    ReachableInv(s);
    HighestIsLastRead(s, p);
    BufferIsSlice(s, p);
  }

  lemma Settle(s: State, p: int) returns (t: State)
    requires Reachable(s) && s.phase.Polling? && Palatable(s, p)
    ensures WorksOn(s, t, p) && Settled(t, p)
  {
    BufferIsSlice(s, p);
    var read := ReadToEnd(s, p);
    t := FlushAway(read, p);
    WorksOnTransitive(s, read, t, p);
  }

  lemma OthersStay(s: State, t: State, p: int, q: int)
    requires WorksOn(s, t, p) && q != p
    ensures Settled(s, q) ==> Settled(t, q)
    ensures Palatable(s, q) ==> Palatable(t, q)
  {
  }

  lemma SomeOf<T>(s: set<T>) returns (x: T)
    requires s != {}
    ensures x in s
  {
    x :| x in s;
  }

  /** Settle the partitions of a set, one by one. */
  lemma {:induction false} SettleAll(s: State, todo: set<int>) returns (t: State)
    requires Reachable(s) && s.phase.Polling? && forall p :: p in todo ==> Palatable(s, p)
    ensures Continues(s, t) && Reachable(t) && t.logs == s.logs && t.start == s.start
    ensures forall p :: p in todo || Settled(s, p) ==> Settled(t, p)
    decreases todo
  {
    if todo == {} {
      StandingStill(s, 0);
      t := s;
    } else {
      var p := SomeOf(todo);
      var one := Settle(s, p);
      forall q | q in todo - {p} ensures Palatable(one, q) {
        OthersStay(s, one, p, q);
      }
      t := SettleAll(one, todo - {p});
      ContinuesTransitive(s, one, t);
      forall q | q in todo || Settled(s, q) ensures Settled(t, q) {
        if q != p && q !in todo { OthersStay(s, one, p, q); }
      }
    }
  }

  lemma AbandonFlush(s: State)
    requires Reachable(s)
    ensures var t := Step(s, Abort);
            && Continues(s, t) && Reachable(t) && t.phase.Polling?
            && t.logs == s.logs && t.start == s.start && t.position == s.position && t.committed == s.committed
  {
    RunShort(s, Abort, Abort, Abort);
    ContinuesByRun(s, [Abort]);
  }

  ghost predicate AllPalatable(s: State)
  {
    forall p :: p in s.logs ==> Palatable(s, p)
  }

  /** Wherever crashes and faults have brought the group, some continuation drains the broker, if all ahead can be stored. */
  lemma CanAlwaysDrain(s: State) returns (t: State)
    requires Reachable(s) && AllPalatable(s)
    ensures Continues(s, t) && Reachable(t) && Drained(t) && t.logs == s.logs && t.start == s.start
  {
    AbandonFlush(s);
    var polling := Step(s, Abort);
    forall p | p in s.logs ensures Palatable(polling, p) {
      assert Palatable(s, p);
    }
    t := SettleAll(polling, s.logs.Keys);
    ContinuesTransitive(s, polling, t);
    ReachableInv(t);
    forall p | p in t.buffers ensures !t.buffers[p].Pending() {
      assert Settled(t, p);
    }
    forall p | p in t.logs ensures p in t.position && t.position[p] == |t.logs[p]| {
      assert Settled(t, p);
    }
  }

  // ---- what no run gets past ----

  /** A message ahead on which the parser raises. */
  ghost predicate Blocked(s: State, p: int, o: nat)
  {
    && p in s.logs && o < |s.logs[p]| && s.logs[p][o].value.Poison?
    && p in s.position && s.position[p] <= o
  }

  lemma BlockedStep(s: State, a: Action, p: int, o: nat)
    requires Inv(s) && Blocked(s, p, o) && FromBeginning(a) && !a.NewGroup?
    ensures Blocked(Step(s, a), p, o)
  {
    assert Aligned(s, p);
    if Enabled(s, a) {
      match a
      case Poll(q) => BlockedPoll(s, q, p, o);
      case Restart(fromBeginning) =>
      case _ =>
    }
  }

  lemma BlockedPoll(s: State, q: int, p: int, o: nat)
    requires Blocked(s, p, o) && Enabled(s, Poll(q))
    ensures Blocked(Step(s, Poll(q)), p, o)
  {
    if PoisonAhead(s, q) { PollStays(s, q); } else { PollMoves(s, q); }
  }

  /** Nothing gets the group past such a message: every process that reads on dies there, commits or not. */
  lemma {:induction false} PoisonBlocks(s: State, actions: seq<Action>, p: int, o: nat)
    requires Inv(s) && Blocked(s, p, o) && Loyal(actions)
    ensures Blocked(Run(s, actions), p, o)
    decreases |actions|
  {
    if actions != [] {
      var shorter := actions[..|actions| - 1];
      assert forall i :: 0 <= i < |shorter| ==> shorter[i] == actions[i];
      PoisonBlocks(s, shorter, p, o);
      RunInv(s, shorter);
      BlockedStep(Run(s, shorter), actions[|actions| - 1], p, o);
    }
  }

  /** A message that cannot be stored, at the commit or ahead of it. */
  ghost predicate Stuck(s: State, p: int, o: nat)
  {
    && p in s.logs && o < |s.logs[p]| && !s.logs[p][o].value.Storable()
    && p in s.start && s.Base(p) <= o
  }

  /** A flush that reaches its commit wrote all it moves past, so no such message is among it. */
  lemma StuckIsNotWritten(s: State, p: int, o: nat)
    requires Inv(s) && OnlyStorable(s) && Stuck(s, p, o) && s.phase.BothDone? && s.phase.partition == p
    ensures p in s.position && s.position[p] <= o
  {
    assert Aligned(s, p);
    if o < s.position[p] {
      CommitIsDurable(s, o);
      assert false;
    }
  }

  lemma StuckStep(s: State, a: Action, p: int, o: nat)
    requires Inv(s) && OnlyStorable(s) && Stuck(s, p, o) && FromBeginning(a) && !a.NewGroup?
    ensures Stuck(Step(s, a), p, o)
  {
    if Enabled(s, a) && (a.Commit? || a.UnackedCommit?) {
      HighestIsLastRead(s, s.phase.partition);
      if s.phase.partition == p { StuckIsNotWritten(s, p, o); }
    } else if Enabled(s, a) && a.Poll? {
      StuckPoll(s, a.partition, p, o);
    }
  }

  lemma StuckPoll(s: State, q: int, p: int, o: nat)
    requires Stuck(s, p, o) && Enabled(s, Poll(q))
    ensures Stuck(Step(s, Poll(q)), p, o)
  {
    if PoisonAhead(s, q) { PollStays(s, q); } else { PollMoves(s, q); }
  }

  /** No process ever commits past it: its batch is refused every time, and a restart begins before it. */
  lemma {:induction false} MisfitBlocks(s: State, actions: seq<Action>, p: int, o: nat)
    requires Inv(s) && OnlyStorable(s) && Stuck(s, p, o) && Loyal(actions)
    ensures Stuck(Run(s, actions), p, o)
    decreases |actions|
  {
    if actions != [] {
      var shorter := actions[..|actions| - 1];
      assert forall i :: 0 <= i < |shorter| ==> shorter[i] == actions[i];
      MisfitBlocks(s, shorter, p, o);
      RunInv(s, shorter);
      RunKeepsStorable(s, shorter);
      StuckStep(Run(s, shorter), actions[|actions| - 1], p, o);
    }
  }

  lemma StuckIsNotDrained(s: State, p: int, o: nat)
    requires Inv(s) && Stuck(s, p, o)
    ensures !Drained(s)
  {
    assert Aligned(s, p);
    EntriesPartitionSlice(s.logs[p], p, s.since[p], s.position[p]);
  }

  /**
   * The group can drain the broker as it stands, crashes and faults notwithstanding, exactly when every message from its
   * commits on can be stored: the parser raises on none, and the fields of each are what their columns take.
   */
  lemma CanDrainIff(s: State)
    requires Reachable(s)
    ensures (exists t :: Continues(s, t) && t.logs == s.logs && Drained(t)) <==> AllPalatable(s)
  {
    ReachableInv(s);
    LandedIsStorable(s);
    if AllPalatable(s) {
      var t := CanAlwaysDrain(s);
    }
    if t :| Continues(s, t) && t.logs == s.logs && Drained(t) {
      var actions :| Loyal(actions) && t == Run(s, actions);
      forall p, o: nat | p in s.logs && p in s.start && s.Base(p) <= o < |s.logs[p]| ensures s.logs[p][o].value.Storable() {
        if !s.logs[p][o].value.Storable() {
          MisfitBlocks(s, actions, p, o);
          RunInv(s, actions);
          StuckIsNotDrained(t, p, o);
        }
      }
      forall p | p in s.logs ensures Palatable(s, p) { assert Aligned(s, p); }
    }
  }

  /** A record of the contract whose version no 32-bit column holds, and a record or a reject with a field of a wrong type. */
  lemma SomeMisfits(row: EventValue, raw: string, record: bool)
    ensures !Valid(row.(version := 3_000_000_000)).Storable() && Valid(row.(version := 3_000_000_000)).Parses()
    ensures !Misfit(raw, record).Storable() && Misfit(raw, record).Parses() == record
  {
  }

  /** A log of one such message is never committed past, whatever its group does. */
  lemma OneMisfitStops(m: Message, actions: seq<Action>)
    requires !m.value.Storable() && Loyal(actions)
    ensures var s := Run(Init(map[0 := [m]], true), actions); Stuck(s, 0, 0) && !Drained(s)
  {
    var s := Init(map[0 := [m]], true);
    InitInv(map[0 := [m]], true);
    MisfitBlocks(s, actions, 0, 0);
    RunInv(s, actions);
    StuckIsNotDrained(Run(s, actions), 0, 0);
  }

  ghost predicate AllStorable(logs: Logs)
  {
    forall p, o :: p in logs && 0 <= o < |logs[p]| ==> logs[p][o].value.Storable()
  }

  /** Broker content can be landed in full exactly when all of it can be stored; a group that reads from the beginning does it. */
  lemma AnyLogsCanLand(logs: Logs) returns (t: State)
    requires AllStorable(logs)
    ensures Reachable(t) && Complete(t) && t.logs == logs
  {
    var s := Init(logs, true);
    assert s == Run(Init(logs, true), []);
    t := CanAlwaysDrain(s);
    DrainedIsComplete(t);
  }

  lemma CompleteIsStorable(s: State)
    requires Reachable(s) && Complete(s)
    ensures AllStorable(s.logs)
  {
    LandedIsStorable(s);
    forall p, o | p in s.logs && 0 <= o < |s.logs[p]| ensures s.logs[p][o].value.Storable() {
      assert EntryAt(s, p, o) in s.landed;
    }
  }

  // ---- silver can be built ----

  lemma RankIsTotal(a: Entry, b: Entry, c: Entry)
    requires a.IsRow() && b.IsRow() && c.IsRow()
    ensures NoLater(a, b) || NoLater(b, a)
    ensures NoLater(a, b) && NoLater(b, c) ==> NoLater(a, c)
  {
  }

  ghost predicate AllRecords(rows: set<BronzeRow>)
  {
    forall r :: r in rows ==> r.entry.IsRow()
  }

  /** Where the table already has the row's id, or its end. */
  function Place(table: seq<BronzeRow>, id: string): (i: nat)
    ensures i <= |table| && (i < |table| ==> Id(table[i].entry) == id)
    ensures forall j :: 0 <= j < i ==> Id(table[j].entry) != id
  {
    if table == [] || Id(table[0].entry) == id then 0 else 1 + Place(table[1..], id)
  }

  /** One more row: a new id joins, an earlier copy replaces, a later one is dropped. */
  function Admit(table: seq<BronzeRow>, r: BronzeRow): seq<BronzeRow>
  {
    var i := Place(table, Id(r.entry));
    if i == |table| then table + [r]
    else if NoLater(table[i].entry, r.entry) then table
    else table[i := r]
  }

  lemma AdmitCovers(table: seq<BronzeRow>, r: BronzeRow, e: Entry)
    requires r.entry.IsRow() && e.IsRow() && (forall i :: 0 <= i < |table| ==> table[i].entry.IsRow())
    requires DistinctIds(Strip(table)) && (Covers(Strip(table), e) || e == r.entry)
    ensures Covers(Strip(Admit(table, r)), e)
  {
    var at, after := Place(table, Id(r.entry)), Admit(table, r);
    if Covers(Strip(table), e) {
      var i :| 0 <= i < |table| && Id(Strip(table)[i]) == Id(e) && NoLater(Strip(table)[i], e);
      if at < |table| { RankIsTotal(r.entry, table[at].entry, e); }
      assert Id(Strip(after)[i]) == Id(e) && NoLater(Strip(after)[i], e);
    } else {
      if at < |table| { RankIsTotal(table[at].entry, r.entry, e); }
      assert Id(Strip(after)[at]) == Id(e) && NoLater(Strip(after)[at], e);
    }
  }

  lemma AdmitKeepsIdsDistinct(table: seq<BronzeRow>, r: BronzeRow)
    requires DistinctIds(Strip(table))
    ensures DistinctIds(Strip(Admit(table, r)))
  {
    var after := Admit(table, r);
    var ids := Strip(table);
    forall i, j | 0 <= i < j < |after| ensures Id(after[i].entry) != Id(after[j].entry) {
      assert i < |table| && j < |table| ==> Id(ids[i]) != Id(ids[j]);
    }
  }

  lemma AdmitTakesFromBoth(rows: set<BronzeRow>, table: seq<BronzeRow>, r: BronzeRow)
    requires forall i :: 0 <= i < |table| ==> table[i] in rows
    ensures var after := Admit(table, r);
            forall i :: 0 <= i < |after| ==> after[i] in rows + {r}
  {
  }

  lemma AdmitCoversAll(rows: set<BronzeRow>, table: seq<BronzeRow>, r: BronzeRow, x: BronzeRow)
    requires AllRecords(rows + {r}) && IsSilver(rows, table) && x in rows + {r}
    ensures Covers(Strip(Admit(table, r)), x.entry)
  {
    forall i | 0 <= i < |table| ensures table[i].entry.IsRow() {
      assert table[i] in rows + {r};
    }
    assert r in rows + {r};
    AdmitCovers(table, r, x.entry);
  }

  lemma AdmitKeepsSilver(rows: set<BronzeRow>, table: seq<BronzeRow>, r: BronzeRow)
    requires AllRecords(rows + {r}) && IsSilver(rows, table)
    ensures IsSilver(rows + {r}, Admit(table, r))
  {
    AdmitKeepsIdsDistinct(table, r);
    AdmitTakesFromBoth(rows, table, r);
    forall x | x in rows + {r} ensures Covers(Strip(Admit(table, r)), x.entry) {
      AdmitCoversAll(rows, table, r, x);
    }
  }

  /** A dedupe exists for any stored rows. */
  lemma {:induction false} SilverExists(rows: set<BronzeRow>) returns (table: seq<BronzeRow>)
    requires AllRecords(rows)
    ensures IsSilver(rows, table)
    decreases rows
  {
    if rows == {} {
      table := [];
    } else {
      var r :| r in rows;
      var rest := SilverExists(rows - {r});
      AdmitKeepsSilver(rows - {r}, rest, r);
      assert rows - {r} + {r} == rows;
      table := Admit(rest, r);
    }
  }

  lemma StoredRowsParse(s: State)
    requires Reachable(s)
    ensures AllRecords(BronzeRows(s.bronze))
  {
    ReachableInv(s);
    LandedIsStorable(s);
    forall r | r in BronzeRows(s.bronze) ensures r.entry.IsRow() {
      BronzeHoldsLanded(s, r.entry);
    }
  }
}
