/** Which writes and which runs store a row twice, exactly. */
module Replays {
  import opened BronzeLog
  import opened ConsumerModel
  import opened StoredRows

  // ---- one write ----

  /** The rows one may ask about: those of a window, say. */
  type Kind = Entry -> bool

  /** All rows. */
  function Every(): Kind
  {
    (e: Entry) => true
  }

  /** No two objects share a row of this kind. */
  ghost predicate Once(area: Area, kind: Kind)
  {
    forall k, l, e :: k in area && l in area && e in area[k].entries && e in area[l].entries && kind(e) ==> k == l
  }

  /** A batch whose object is there under its very name, or of whose rows of the kind none is stored yet. */
  ghost predicate Harmless(area: Area, ingest: int, parses: bool, batch: seq<Entry>, kind: Kind)
  {
    batch == [] || KeyOf(ingest, parses, batch) in area || forall i :: 0 <= i < |batch| && kind(batch[i]) ==> !Holds(area, batch[i])
  }

  lemma NewKeyKeepsOnceIff(area: Area, key: Key, o: Object, kind: Kind)
    requires Once(area, kind) && key !in area
    ensures Once(area[key := o], kind) <==> forall i :: 0 <= i < |o.entries| && kind(o.entries[i]) ==> !Holds(area, o.entries[i])
  {
    var after := area[key := o];
    if i :| 0 <= i < |o.entries| && kind(o.entries[i]) && Holds(area, o.entries[i]) {
      var e := o.entries[i];
      var k :| k in area && e in area[k].entries;
      assert k in after && e in after[k].entries && e in after[key].entries && k != key;
    } else {
      assert forall e :: e in o.entries && kind(e) ==> !Holds(area, e);
      forall k, l, e | k in after && l in after && e in after[k].entries && e in after[l].entries && kind(e) ensures k == l {
      }
    }
  }

  lemma SameEntriesSameOnce(area: Area, after: Area, kind: Kind)
    requires after.Keys == area.Keys && Preserves(area, after)
    ensures Once(after, kind) <==> Once(area, kind)
  {
  }

  /** A write of a cut of the log keeps rows single exactly when it is harmless. */
  lemma PutKeepsOnceIff(logs: Logs, parses: bool, area: Area, ingest: int, p: int, lo: nat, hi: nat, kind: Kind)
    requires p in logs && lo <= hi <= |logs[p]| && WellNamed(logs, parses, area) && Once(area, kind)
    ensures var batch := Entries(logs[p], p, lo, hi, parses);
            Once(Put(area, ingest, parses, batch), kind) <==> Harmless(area, ingest, parses, batch, kind)
  {
    var batch := Entries(logs[p], p, lo, hi, parses);
    if batch != [] {
      var key := KeyOf(ingest, parses, batch);
      OverwriteIsSafe(logs, parses, area, ingest, p, lo, hi);
      if key in area {
        SameEntriesSameOnce(area, Put(area, ingest, parses, batch), kind);
      } else {
        NewKeyKeepsOnceIff(area, key, Object(ingest, batch), kind);
      }
    }
  }

  function Half(b: Buffer, parses: bool): seq<Entry>
  {
    if parses then b.records else b.rejects
  }

  /** What a step writes, to either area. */
  predicate Writes(s: State, a: Action, parses: bool)
  {
    Enabled(s, a) && if parses then a.WriteBronze? else a.WriteQuarantine?
  }

  function Target(s: State, a: Action, parses: bool): int
    requires Writes(s, a, parses)
  {
    if parses then a.partition else s.phase.partition
  }

  /** A step that writes nothing, or an object that is there already, or no row of the kind that has landed. */
  ghost predicate LandsAnew(s: State, a: Action, parses: bool, kind: Kind)
  {
    Writes(s, a, parses) ==>
      var batch := Half(s.BufferOf(Target(s, a, parses)), parses);
      || batch == [] || KeyOf(a.ingest, parses, batch) in s.Side(parses)
      || forall i :: 0 <= i < |batch| && kind(batch[i]) ==> batch[i] !in s.landed
  }

  /** Rows stay single across a step exactly when it lands anew. */
  lemma StepKeepsOnceIff(s: State, a: Action, parses: bool, kind: Kind)
    requires Inv(s) && Once(s.Side(parses), kind)
    ensures Once(Step(s, a).Side(parses), kind) <==> LandsAnew(s, a, parses, kind)
  {
    OnlyWritesChangeAreas(s, a);
    if Writes(s, a, parses) {
      var p := Target(s, a, parses);
      assert Aligned(s, p);
      var batch := Half(s.BufferOf(p), parses);
      PutKeepsOnceIff(s.logs, parses, s.Side(parses), a.ingest, p, s.since[p], s.position[p], kind);
      forall i | 0 <= i < |batch| ensures batch[i] in s.landed <==> Holds(s.Side(parses), batch[i]) {
        EntriesMembers(s.logs[p], p, s.since[p], s.position[p], parses, batch[i]);
      }
      WriteIsPut(s, a, parses);
    }
  }

  lemma WriteIsPut(s: State, a: Action, parses: bool)
    requires Writes(s, a, parses)
    ensures Step(s, a).Side(parses) == Put(s.Side(parses), a.ingest, parses, Half(s.BufferOf(Target(s, a, parses)), parses))
  {
  }

  /** A row that lies twice goes on lying twice. */
  lemma TwiceStaysTwice(s: State, a: Action, parses: bool, kind: Kind)
    requires Inv(s) && !Once(s.Side(parses), kind)
    ensures !Once(Step(s, a).Side(parses), kind)
  {
    StepPreservesObjects(s, a);
    var before, after := s.Side(parses), Step(s, a).Side(parses);
    var k, l, e :| k in before && l in before && e in before[k].entries && e in before[l].entries && kind(e) && k != l;
    assert k in after && l in after && e in after[k].entries && e in after[l].entries;
  }

  /** Every write of the run landed anew. */
  ghost predicate AllLandAnew(s: State, actions: seq<Action>, parses: bool, kind: Kind)
  {
    actions == [] ||
    var n := |actions| - 1;
    AllLandAnew(s, actions[..n], parses, kind) && LandsAnew(Run(s, actions[..n]), actions[n], parses, kind)
  }

  /**
   * Over any run, whatever crashes in it: no row of the kind lies twice at its end exactly when every write on the way
   * landed anew.
   */
  lemma {:induction false} RunStoresOnceIff(s: State, actions: seq<Action>, parses: bool, kind: Kind)
    requires Inv(s) && Once(s.Side(parses), kind)
    ensures Once(Run(s, actions).Side(parses), kind) <==> AllLandAnew(s, actions, parses, kind)
    decreases |actions|
  {
    if actions != [] {
      var n := |actions| - 1;
      var before := Run(s, actions[..n]);
      RunStoresOnceIff(s, actions[..n], parses, kind);
      RunInv(s, actions[..n]);
      if Once(before.Side(parses), kind) {
        StepKeepsOnceIff(before, actions[n], parses, kind);
      } else {
        TwiceStaysTwice(before, actions[n], parses, kind);
      }
    }
  }

  // ---- runs without a crash or a raised call ----

  predicate Smooth(a: Action)
  {
    !a.Abort? && !a.UnackedCommit? && !a.Restart? && !a.NewGroup?
  }

  ghost predicate AllSmooth(actions: seq<Action>)
  {
    forall i :: 0 <= i < |actions| ==> Smooth(actions[i])
  }

  /** The class has been written by the flush under way. */
  predicate Written(s: State, p: int, parses: bool)
  {
    (if parses then !s.phase.Polling? else s.phase.BothDone?) && s.phase.partition == p
  }

  /** Up to where a partition's objects of one class may reach. */
  function Mark(s: State, p: int, parses: bool): nat
    requires p in s.since && p in s.position
  {
    if Written(s, p, parses) then s.position[p] else s.since[p]
  }

  ghost predicate KeysBehind(s: State, parses: bool)
  {
    forall k :: k in s.Side(parses) ==> k.partition in s.since && k.partition in s.position && k.last < Mark(s, k.partition, parses)
  }

  /** Every object lies behind what is buffered, so the next one cannot overlap any. */
  ghost predicate InOrder(s: State, parses: bool)
  {
    Apart(s.Side(parses)) && KeysBehind(s, parses)
  }

  lemma LaterKeyStaysApart(area: Area, key: Key, o: Object)
    requires Apart(area) && forall k :: k in area && k.partition == key.partition ==> k.last < key.first
    ensures Apart(area[key := o])
  {
  }

  /** The batch's range, against the marks before and after its write. */
  lemma BatchRange(s: State, p: int, parses: bool, ingest: int)
    requires Inv(s) && p in s.logs && Half(s.BufferOf(p), parses) != []
    ensures p in s.since && p in s.position
    ensures var key := KeyOf(ingest, parses, Half(s.BufferOf(p), parses));
            key.partition == p && s.since[p] <= key.first && key.last < s.position[p]
  {
    assert Aligned(s, p);
    var batch := Half(s.BufferOf(p), parses);
    RangeBounds(s.logs[p], p, s.since[p], s.position[p], parses);
    EntriesMembers(s.logs[p], p, s.since[p], s.position[p], parses, batch[0]);
  }

  lemma WriteMovesMark(s: State, a: Action, parses: bool)
    requires Inv(s) && Writes(s, a, parses)
    ensures var p, s' := Target(s, a, parses), Step(s, a);
            && p in s.since && p in s.position && s'.since == s.since && s'.position == s.position
            && Mark(s, p, parses) == s.since[p] && Mark(s', p, parses) == s.position[p] >= s.since[p]
            && forall q :: q != p && q in s.since && q in s.position ==> Mark(s', q, parses) == Mark(s, q, parses)
  {
    assert Aligned(s, Target(s, a, parses));
  }

  lemma WriteStaysInOrder(s: State, a: Action, parses: bool)
    requires Inv(s) && InOrder(s, parses) && Writes(s, a, parses)
    ensures InOrder(Step(s, a), parses)
  {
    WriteStaysApart(s, a, parses);
    WriteStaysBehind(s, a, parses);
  }

  lemma WriteStaysApart(s: State, a: Action, parses: bool)
    requires Inv(s) && InOrder(s, parses) && Writes(s, a, parses)
    ensures Apart(Step(s, a).Side(parses))
  {
    var p := Target(s, a, parses);
    var batch := Half(s.BufferOf(p), parses);
    WriteIsPut(s, a, parses);
    WriteMovesMark(s, a, parses);
    if batch != [] {
      BatchRange(s, p, parses, a.ingest);
      LaterKeyStaysApart(s.Side(parses), KeyOf(a.ingest, parses, batch), Object(a.ingest, batch));
    }
  }

  lemma WriteStaysBehind(s: State, a: Action, parses: bool)
    requires Inv(s) && KeysBehind(s, parses) && Writes(s, a, parses)
    ensures KeysBehind(Step(s, a), parses)
  {
    var p := Target(s, a, parses);
    WriteIsPut(s, a, parses);
    WriteMovesMark(s, a, parses);
    if Half(s.BufferOf(p), parses) != [] { BatchRange(s, p, parses, a.ingest); }
  }

  lemma OtherStepStaysInOrder(s: State, a: Action, parses: bool)
    requires Inv(s) && InOrder(s, parses) && Smooth(a) && !Writes(s, a, parses)
    ensures InOrder(Step(s, a), parses)
  {
    OnlyWritesChangeAreas(s, a);
    var s' := Step(s, a);
    forall k | k in s'.Side(parses)
      ensures k.partition in s'.since && k.partition in s'.position && k.last < Mark(s', k.partition, parses)
    {
      MarkGrows(s, a, k.partition, parses);
    }
  }

  lemma MarkGrows(s: State, a: Action, p: int, parses: bool)
    requires Inv(s) && Smooth(a) && !Writes(s, a, parses) && p in s.since && p in s.position && p in s.logs
    ensures var s' := Step(s, a); p in s'.since && p in s'.position && Mark(s', p, parses) >= Mark(s, p, parses)
  {
    if Enabled(s, a) && a.Commit? {
      MarkGrowsAtCommit(s, a, p, parses);
    } else {
      assert Aligned(s, p);
    }
  }

  lemma MarkGrowsAtCommit(s: State, a: Action, p: int, parses: bool)
    requires Inv(s) && Enabled(s, a) && a.Commit? && p in s.since && p in s.position && p in s.logs
    ensures var s' := Step(s, a); p in s'.since && p in s'.position && Mark(s', p, parses) >= Mark(s, p, parses)
  {
    assert Aligned(s, p);
    HighestIsLastRead(s, s.phase.partition);
  }

  lemma {:induction false} SmoothRunInOrder(s: State, actions: seq<Action>, parses: bool)
    requires Inv(s) && InOrder(s, parses) && AllSmooth(actions)
    ensures InOrder(Run(s, actions), parses)
    decreases |actions|
  {
    if actions != [] {
      var n := |actions| - 1;
      var before := Run(s, actions[..n]);
      SmoothRunInOrder(s, actions[..n], parses);
      RunInv(s, actions[..n]);
      if Writes(before, actions[n], parses) {
        WriteStaysInOrder(before, actions[n], parses);
      } else {
        OtherStepStaysInOrder(before, actions[n], parses);
      }
    }
  }

  ghost predicate SmoothlyReached(s: State)
  {
    exists logs, fromBeginning, actions :: AllSmooth(actions) && s == Run(Init(logs, fromBeginning), actions)
  }

  /** A consumer that never crashed, and whose calls never raised, stores every row in one object. */
  lemma SmoothStoresOnce(s: State, parses: bool)
    requires SmoothlyReached(s)
    ensures Reachable(s) && Once(s.Side(parses), Every())
  {
    var logs, fromBeginning, actions :| AllSmooth(actions) && s == Run(Init(logs, fromBeginning), actions);
    InitInv(logs, fromBeginning);
    SmoothRunInOrder(Init(logs, fromBeginning), actions, parses);
    ReachableInv(s);
    ApartIsOnce(s.logs, parses, s.Side(parses));
  }

  lemma ApartIsOnce(logs: Logs, parses: bool, area: Area)
    requires WellNamed(logs, parses, area) && Apart(area)
    ensures Once(area, Every())
  {
    forall k, l, e | k in area && l in area && e in area[k].entries && e in area[l].entries ensures k == l {
      RowIsInRange(logs, parses, area, k, e);
      RowIsInRange(logs, parses, area, l, e);
    }
  }

  // ---- how many rows there are ----

  function LandedOf(s: State, parses: bool): set<Entry>
  {
    set e | e in s.landed && e.Parses() == parses
  }

  lemma AllRowsOf(area: Area, es: set<Entry>)
    requires forall e :: Holds(area, e) ==> e in es
    ensures SpotsOf(area, es) == Spots(area)
  {
    forall s | s in Spots(area) ensures EntryIn(area, s) in es { assert Holds(area, EntryIn(area, s)); }
  }

  /** The rows of an area are at least as many as the messages of its class that landed, and as many iff none lies twice. */
  lemma RowsOfArea(s: State, parses: bool)
    requires Reachable(s)
    ensures |Spots(s.Side(parses))| >= |LandedOf(s, parses)|
    ensures |Spots(s.Side(parses))| == |LandedOf(s, parses)| <==> Once(s.Side(parses), Every())
  {
    ReachableInv(s);
    var area, es := s.Side(parses), LandedOf(s, parses);
    forall e ensures Holds(area, e) <==> e in es { WellNamedClass(s.logs, parses, area, e); }
    AllRowsOf(area, es);
    RowsOfEntries(s.logs, parses, area, es);
    OnceOfKind(area, es, Every());
  }

  lemma OnceOfKind(area: Area, es: set<Entry>, kind: Kind)
    requires forall e :: Holds(area, e) ==> (e in es <==> kind(e))
    ensures OnceOf(area, es) <==> Once(area, kind)
  {
    if OnceOf(area, es) {
      forall k, l, e | k in area && l in area && e in area[k].entries && e in area[l].entries && kind(e) ensures k == l {
        assert Holds(area, e);
      }
    }
    if Once(area, kind) {
      forall k, l, e | k in area && l in area && e in es && e in area[k].entries && e in area[l].entries ensures k == l {
        assert Holds(area, e);
      }
    }
  }
}
