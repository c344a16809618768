/** The consumer process itself: buffers, poll loop, flush and commit, each effect one action of the step machine. */
module BronzeConsumer {
  import opened Events
  import opened BronzeLog
  import opened ConsumerModel
  import opened Draws

  const BATCH_ROWS := 5000
  const BATCH_MILLIS := 30_000

  /** A batch is due when it is large, or when it holds anything and has waited long enough. */
  predicate DueAt(b: Buffer, firstSeen: int, now: int)
  {
    |b.records| + |b.rejects| >= BATCH_ROWS
    || (|b.records| + |b.rejects| > 0 && now - firstSeen >= BATCH_MILLIS)
  }

  class PartitionBuffer {
    var records: seq<Entry>
    var rejects: seq<Entry>
    var firstSeen: int   // monotonic clock, milliseconds

    constructor (now: int)
      ensures Value() == EMPTY && firstSeen == now
    {
      records, rejects, firstSeen := [], [], now;
    }

    function Value(): Buffer
      reads this
    {
      Buffer(records, rejects)
    }

    predicate Due(now: int)
      reads this
    {
      DueAt(Value(), firstSeen, now)
    }

    method Append(e: Entry)
      modifies this
      ensures Value() == Buffered(old(Value()), e) && firstSeen == old(firstSeen)
    {
      if e.Parses() {
        records := records + [e];
      } else {
        rejects := rejects + [e];
      }
    }

    method Reset(now: int)
      modifies this
      ensures Value() == EMPTY && firstSeen == now
    {
      records, rejects, firstSeen := [], [], now;
    }
  }

  /** Which of a flush's calls to the outside raises, if any; `AckLost` is a commit that was applied before it raised. */
  datatype Fault = NoFault | BronzeFails | QuarantineFails | CommitFails | AckLost

  /** What a flush meets outside: the ingest clock at each write, the monotonic clock at the end, a fault. */
  datatype FlushEnv = FlushEnv(bronzeAt: int, quarantineAt: int, doneAt: int, fault: Fault)

  predicate WritesBronze(b: Buffer, env: FlushEnv)
  {
    b.records == [] || (Fits(b.records) && !env.fault.BronzeFails?)
  }

  predicate WritesQuarantine(b: Buffer, env: FlushEnv)
  {
    WritesBronze(b, env) && (b.rejects == [] || (Fits(b.rejects) && !env.fault.QuarantineFails?))
  }

  predicate Commits(b: Buffer, env: FlushEnv)
  {
    WritesQuarantine(b, env) && !env.fault.CommitFails? && !env.fault.AckLost?
  }

  /** Everything is written, the broker applies the commit, and the call raises. */
  predicate Unacked(b: Buffer, env: FlushEnv)
  {
    WritesQuarantine(b, env) && env.fault.AckLost?
  }

  /** Both halves of a buffer can be written. */
  predicate BufferFits(b: Buffer)
  {
    Fits(b.records) && Fits(b.rejects)
  }

  /** A flush as actions. A write that has nothing to write cannot fail; one of rows that do not fit does, every time. */
  function FlushActions(b: Buffer, p: int, env: FlushEnv): seq<Action>
  {
    if !WritesBronze(b, env) then [Abort]
    else if !WritesQuarantine(b, env) then [WriteBronze(p, env.bronzeAt), Abort]
    else if env.fault.CommitFails? then [WriteBronze(p, env.bronzeAt), WriteQuarantine(env.quarantineAt), Abort]
    else if env.fault.AckLost? then [WriteBronze(p, env.bronzeAt), WriteQuarantine(env.quarantineAt), UnackedCommit]
    else [WriteBronze(p, env.bronzeAt), WriteQuarantine(env.quarantineAt), Commit]
  }

  lemma RunStaysReachable(s: State, actions: seq<Action>)
    requires Reachable(s)
    ensures Reachable(Run(s, actions))
  {
    var logs, fromBeginning, before :| s == Run(Init(logs, fromBeginning), before);
    RunAppend(Init(logs, fromBeginning), before, actions);
  }

  lemma PollStaysReachable(s: State, p: int)
    requires Reachable(s)
    ensures Reachable(Step(s, Poll(p)))
  {
    RunShort(s, Poll(p), Abort, Abort);
    RunStaysReachable(s, [Poll(p)]);
  }

  /** `setdefault`: the partition has a buffer from now on. */
  function WithBuffer(s: State, p: int): State
  {
    s.(buffers := s.buffers[p := s.BufferOf(p)])
  }

  lemma BufferFirst(s: State, p: int)
    requires p in s.logs && p in s.position && s.position[p] < |s.logs[p]|
    ensures Polled(WithBuffer(s, p), p) == Polled(s, p)
  {
    var e := Entry(p, s.position[p], s.logs[p][s.position[p]]);
    assert s.buffers[p := s.BufferOf(p)][p := Buffered(s.BufferOf(p), e)] == s.buffers[p := Buffered(s.BufferOf(p), e)];
  }

  /** What a poll of a partition with something to read does: nothing but a buffer to hold it, when the parser raises. */
  function Polled(s: State, p: int): State
    requires p in s.logs && p in s.position && s.position[p] < |s.logs[p]|
  {
    var e := Entry(p, s.position[p], s.logs[p][s.position[p]]);
    if PoisonAhead(s, p) then WithBuffer(s, p)
    else s.(buffers := s.buffers[p := Buffered(s.BufferOf(p), e)], position := s.position[p := s.position[p] + 1])
  }

  /** Some run leads from s to t. */
  ghost predicate Leads(s: State, t: State)
  {
    exists actions :: t == Run(s, actions)
  }

  lemma LeadsReflexive(s: State)
    ensures Leads(s, s)
  {
    assert s == Run(s, []);
  }

  lemma LeadsByStep(s: State, a: Action)
    ensures Leads(s, Step(s, a))
  {
    RunShort(s, a, Abort, Abort);
  }

  /** A partition with nothing buffered is committed, or untouched, up to its read position. */
  lemma EmptyMeansCommitted(s: State)
    requires Reachable(s)
    ensures forall p :: p in s.logs ==> p in s.start && p in s.position
    ensures forall p :: p in s.logs && !s.BufferOf(p).Pending() ==> s.Base(p) == s.position[p]
  {
    forall p | p in s.logs ensures p in s.start && p in s.position && (!s.BufferOf(p).Pending() ==> s.Base(p) == s.position[p]) {
      BufferIsSlice(s, p);
    }
  }

  lemma LeadsTransitive(s: State, t: State, u: State)
    requires Leads(s, t) && Leads(t, u)
    ensures Leads(s, u)
  {
    var first :| t == Run(s, first);
    var second :| u == Run(t, second);
    RunAppend(s, first, second);
  }

  lemma BronzeStep(s: State, p: int, bronzeAt: int)
    requires s.phase.Polling? && s.BufferOf(p).Pending() && Fits(s.BufferOf(p).records)
    ensures var s1 := Step(s, WriteBronze(p, bronzeAt));
            s1 == s.(bronze := Put(s.bronze, bronzeAt, true, s.BufferOf(p).records), landed := s1.landed, phase := BronzeDone(p))
  {
  }

  /** What the two writes of a flush do to the state, one after the other. */
  lemma FlushSteps(s: State, p: int, bronzeAt: int, quarantineAt: int)
    requires s.phase.Polling? && s.BufferOf(p).Pending() && BufferFits(s.BufferOf(p))
    ensures var b := s.BufferOf(p);
            var s1 := Step(s, WriteBronze(p, bronzeAt));
            var s2 := Step(s1, WriteQuarantine(quarantineAt));
            && s1 == s.(bronze := Put(s.bronze, bronzeAt, true, b.records), landed := s1.landed, phase := BronzeDone(p))
            && s2 == s1.(quarantine := Put(s.quarantine, quarantineAt, false, b.rejects), landed := s2.landed, phase := BothDone(p))
  {
  }

  /** The writes of a flush, as far as the fault allows. */
  function Written(s: State, b: Buffer, env: FlushEnv): State
  {
    s.(bronze := if WritesBronze(b, env) then Put(s.bronze, env.bronzeAt, true, b.records) else s.bronze,
       quarantine := if WritesQuarantine(b, env)
                     then Put(s.quarantine, env.quarantineAt, false, b.rejects) else s.quarantine)
  }

  /** What a flush leaves: both areas written as far as the fault allows, the commit only after both. */
  function Flushed(s: State, p: int, b: Buffer, env: FlushEnv): State
    requires b.Pending()
  {
    var w, next := Written(s, b, env), MaxOffset(b.records + b.rejects) + 1;
    if Commits(b, env)
    then w.(committed := s.committed[p := next], since := s.since[p := next], buffers := s.buffers[p := EMPTY])
    else if Unacked(b, env) then w.(committed := s.committed[p := next])
    else w
  }

  lemma NothingWritten(s: State, p: int, env: FlushEnv)
    requires s.phase.Polling? && s.BufferOf(p).Pending() && !WritesBronze(s.BufferOf(p), env)
    ensures Run(s, FlushActions(s.BufferOf(p), p, env)) == s
  {
    RunShort(s, Abort, Abort, Abort);
  }

  lemma BronzeWritten(s: State, p: int, env: FlushEnv)
    requires s.phase.Polling? && s.BufferOf(p).Pending() && WritesBronze(s.BufferOf(p), env) && !WritesQuarantine(s.BufferOf(p), env)
    ensures var b := s.BufferOf(p);
            var t := Run(s, FlushActions(b, p, env));
            t == s.(bronze := Put(s.bronze, env.bronzeAt, true, b.records), landed := t.landed)
  {
    BronzeStep(s, p, env.bronzeAt);
    RunShort(s, WriteBronze(p, env.bronzeAt), Abort, Abort);
  }

  lemma NotCommitted(s: State, p: int, env: FlushEnv)
    requires s.phase.Polling? && s.BufferOf(p).Pending() && WritesQuarantine(s.BufferOf(p), env) && env.fault.CommitFails?
    ensures var t := Run(s, FlushActions(s.BufferOf(p), p, env));
            t == Written(s, s.BufferOf(p), env).(landed := t.landed)
  {
    WrittenSteps(s, p, env);
    WritesThenLast(s, s.BufferOf(p), p, env);
  }

  /** How a flush that wrote both areas ends. */
  function LastAction(env: FlushEnv): Action
  {
    if env.fault.CommitFails? then Abort else if env.fault.AckLost? then UnackedCommit else Commit
  }

  lemma WritesThenLast(s: State, b: Buffer, p: int, env: FlushEnv)
    requires WritesQuarantine(b, env)
    ensures Run(s, FlushActions(b, p, env)) == Step(AfterWrites(s, p, env), LastAction(env))
  {
    RunShort(s, WriteBronze(p, env.bronzeAt), WriteQuarantine(env.quarantineAt), LastAction(env));
  }

  /** The state after both writes. */
  function AfterWrites(s: State, p: int, env: FlushEnv): State
  {
    Step(Step(s, WriteBronze(p, env.bronzeAt)), WriteQuarantine(env.quarantineAt))
  }

  lemma WrittenSteps(s: State, p: int, env: FlushEnv)
    requires s.phase.Polling? && s.BufferOf(p).Pending() && WritesQuarantine(s.BufferOf(p), env)
    ensures AfterWrites(s, p, env)
         == Written(s, s.BufferOf(p), env).(landed := AfterWrites(s, p, env).landed, phase := BothDone(p))
  {
    FlushSteps(s, p, env.bronzeAt, env.quarantineAt);
  }

  /** The commit of what both writes wrote, acknowledged or not. */
  lemma CommitStep(s: State, w: State, p: int)
    requires s.BufferOf(p).Pending()
    requires w == s.(bronze := w.bronze, quarantine := w.quarantine, landed := w.landed, phase := BothDone(p))
    ensures Step(w, Commit) == w.(committed := s.committed[p := NextOffset(s, p)], since := s.since[p := NextOffset(s, p)],
                                  buffers := s.buffers[p := EMPTY], phase := Polling)
    ensures Step(w, UnackedCommit) == w.(committed := s.committed[p := NextOffset(s, p)], phase := Polling)
  {
  }

  lemma FailedFlushEffect(s: State, p: int, env: FlushEnv)
    requires s.phase.Polling? && s.BufferOf(p).Pending() && !Commits(s.BufferOf(p), env) && !Unacked(s.BufferOf(p), env)
    ensures var t := Run(s, FlushActions(s.BufferOf(p), p, env));
            t == Written(s, s.BufferOf(p), env).(landed := t.landed)
  {
    if !WritesBronze(s.BufferOf(p), env) {
      NothingWritten(s, p, env);
    } else if !WritesQuarantine(s.BufferOf(p), env) {
      BronzeWritten(s, p, env);
    } else {
      NotCommitted(s, p, env);
    }
  }

  lemma CommittedLeaves(s: State, p: int, b: Buffer, env: FlushEnv, w: State, t: State)
    requires s.phase.Polling? && b == s.BufferOf(p) && b.Pending() && (Commits(b, env) || Unacked(b, env))
    requires w == Written(s, b, env).(landed := w.landed, phase := BothDone(p))
    requires Commits(b, env) ==>
               t == w.(committed := s.committed[p := NextOffset(s, p)], since := s.since[p := NextOffset(s, p)],
                       buffers := s.buffers[p := EMPTY], phase := Polling)
    requires Unacked(b, env) ==> t == w.(committed := s.committed[p := NextOffset(s, p)], phase := Polling)
    ensures t == Flushed(s, p, b, env).(landed := t.landed)
  {
  }

  lemma CommittedFlushEffect(s: State, p: int, env: FlushEnv)
    requires s.phase.Polling? && s.BufferOf(p).Pending() && (Commits(s.BufferOf(p), env) || Unacked(s.BufferOf(p), env))
    ensures var b := s.BufferOf(p);
            var t := Run(s, FlushActions(b, p, env));
            t == Flushed(s, p, b, env).(landed := t.landed)
  {
    var b, w := s.BufferOf(p), AfterWrites(s, p, env);
    WrittenSteps(s, p, env);
    CommitStep(s, w, p);
    WritesThenLast(s, b, p, env);
    CommittedLeaves(s, p, b, env, w, Step(w, LastAction(env)));
  }

  /** The machine's actions for a flush do exactly that, and record what landed. */
  lemma FlushEffect(s: State, p: int, env: FlushEnv)
    requires s.phase.Polling? && s.BufferOf(p).Pending()
    ensures var b := s.BufferOf(p);
            var t := Run(s, FlushActions(b, p, env));
            t == Flushed(s, p, b, env).(landed := t.landed)
  {
    if Commits(s.BufferOf(p), env) || Unacked(s.BufferOf(p), env) {
      CommittedFlushEffect(s, p, env);
    } else {
      FailedFlushEffect(s, p, env);
    }
  }

  /** For a reachable state the flush stays reachable, and what it commits is the read position. */
  lemma FlushFacts(s: State, p: int, env: FlushEnv)
    requires Reachable(s) && p in s.buffers
    ensures p in s.position && Run(s, []) == s
    ensures s.buffers[p].Pending() ==>
              Reachable(Run(s, FlushActions(s.buffers[p], p, env)))
              && NextOffset(s, p) == s.position[p]
  {
    ReachableInv(s);
    assert Aligned(s, p);
    if s.buffers[p].Pending() {
      HighestIsLastRead(s, p);
      RunStaysReachable(s, FlushActions(s.buffers[p], p, env));
    }
  }

  /** What a commit call leaves of the state: nothing, the offset, or, when it is acknowledged, the mark of a new buffer too. */
  function Marked(s: State, p: int, next: nat, fault: Fault): State
  {
    if fault.CommitFails? then s
    else s.(committed := s.committed[p := next], since := if fault.AckLost? then s.since else s.since[p := next])
  }

  lemma FlushedIs(s: State, p: int, b: Buffer, env: FlushEnv)
    requires b.Pending()
    ensures var w := Written(s, b, env);
            var marked := Marked(w, p, MaxOffset(b.records + b.rejects) + 1, env.fault);
            Flushed(s, p, b, env)
            == if !WritesQuarantine(b, env) then w
               else if Commits(b, env) then marked.(buffers := marked.buffers[p := EMPTY]) else marked
  {
  }

  lemma NothingToFlush(s: State, p: int)
    requires Reachable(s) && p in s.buffers && !s.buffers[p].Pending()
    ensures Run(s, []) == s && Leads(s, s) && s.buffers == s.buffers[p := EMPTY] && p in s.position && BufferFits(s.buffers[p])
  {
    ReachableInv(s);
    assert Aligned(s, p);
    LeadsReflexive(s);
  }

  /** What the machine's state is after a flush with something to flush. */
  lemma FlushOutcome(s: State, p: int, env: FlushEnv)
    requires Reachable(s) && s.phase.Polling? && p in s.buffers && s.buffers[p].Pending()
    ensures var b := s.buffers[p];
            var t := Run(s, FlushActions(b, p, env));
            && Reachable(t) && Leads(s, t) && t == Flushed(s, p, b, env).(landed := t.landed) && p in s.position
            && t.buffers == (if Commits(b, env) then s.buffers[p := EMPTY] else s.buffers)
            && (!Commits(b, env) ==> t.committed == if Unacked(b, env) then s.committed[p := s.position[p]] else s.committed)
  {
    FlushFacts(s, p, env);
    FlushEffect(s, p, env);
  }

  lemma FaultlessCommits(b: Buffer, env: FlushEnv)
    requires env.fault.NoFault?
    ensures Commits(b, env) <==> BufferFits(b)
  {
  }

  /** A round of flushes under way: those done are empty, those not chosen untouched. */
  ghost predicate Round(s: State, t: State, chosen: set<int>, todo: set<int>)
  {
    && Leads(s, t) && t.buffers.Keys == s.buffers.Keys && chosen <= s.buffers.Keys
    && (forall p :: p in chosen && p !in todo ==> t.buffers[p] == EMPTY && BufferFits(s.buffers[p]))
    && (forall p :: p in s.buffers && (p !in chosen || p in todo) ==> t.buffers[p] == s.buffers[p])
  }

  lemma RoundBegins(s: State, chosen: set<int>)
    requires chosen <= s.buffers.Keys
    ensures Round(s, s, chosen, chosen)
  {
    LeadsReflexive(s);
  }

  lemma RoundGoesOn(s: State, t: State, u: State, chosen: set<int>, todo: set<int>, p: int, ok: bool)
    requires Round(s, t, chosen, todo) && p in todo && todo <= chosen && Leads(t, u)
    requires u.buffers == if ok then t.buffers[p := EMPTY] else t.buffers
    requires ok ==> BufferFits(t.buffers[p])
    ensures Round(s, u, chosen, if ok then todo - {p} else todo)
  {
    LeadsTransitive(s, t, u);
  }

  /** What one turn of the poll loop meets. */
  datatype PollEvent =
    | Produced(partition: int, message: Message)                               // a producer appends; no poll
    | Nothing(assignment: bool, clocks: int -> int, envs: int -> FlushEnv)        // poll timed out
    | BrokerError(assignment: bool)
    | Delivered(partition: int, clock: int, env: FlushEnv)
    | Stop                                                                     // a signal

  class BronzeConsumer {
    // the broker and the object store, as this process sees them
    var logs: Logs
    var committed: map<int, nat>
    var position: map<int, nat>
    var bronze: Area
    var quarantine: Area
    // the process
    var buffers: map<int, PartitionBuffer>
    var running: bool
    // the abstract state these fields represent
    ghost var model: State

    /** The fields are the machine's state m, between two flushes. */
    ghost predicate Represents(m: State)
      reads this, buffers.Values
    {
      && m.phase.Polling?
      && m.logs == logs && m.committed == committed && m.position == position
      && m.bronze == bronze && m.quarantine == quarantine
      && m.buffers.Keys == buffers.Keys
      && (forall p :: p in buffers ==> m.buffers[p] == buffers[p].Value())
      && (forall p, q :: p in buffers && q in buffers && p != q ==> buffers[p] != buffers[q])
    }

    ghost predicate Valid()
      reads this, buffers.Values
    {
      Represents(model) && Reachable(model)
    }

    /** A new process of a group that has left `s` behind: it owns nothing but what the broker and the store remember. */
    constructor (ghost s: State, logs: Logs, committed: map<int, nat>, bronze: Area, quarantine: Area, fromBeginning: bool)
      requires Reachable(s)
      requires s.logs == logs && s.committed == committed && s.bronze == bronze && s.quarantine == quarantine
      ensures Valid() && model == Step(s, Restart(fromBeginning)) && running && buffers == map[]
    {
      this.logs, this.committed, this.bronze, this.quarantine := logs, committed, bronze, quarantine;
      position := ResetPosition(logs, committed, fromBeginning);
      buffers := map[];
      running := true;
      model := Step(s, Restart(fromBeginning));
      new;
      RunShort(s, Restart(fromBeginning), Abort, Abort);
      RunStaysReachable(s, [Restart(fromBeginning)]);
    }

    /** The broker has a message for this partition past the read position. */
    predicate Readable(p: int)
      reads this
    {
      p in logs && p in position && position[p] < |logs[p]|
    }

    /** The two writes of a flush, bronze first. Returning false is the exception leaving the second half undone. */
    method WriteBatches(records: seq<Entry>, rejects: seq<Entry>, env: FlushEnv) returns (ok: bool)
      modifies this`bronze, this`quarantine
      ensures var b := Buffer(records, rejects);
              && ok == WritesQuarantine(b, env)
              && bronze == (if WritesBronze(b, env) then Put(old(bronze), env.bronzeAt, true, records) else old(bronze))
              && quarantine == (if ok then Put(old(quarantine), env.quarantineAt, false, rejects) else old(quarantine))
    {
      if records != [] {
        if !Fits(records) || env.fault.BronzeFails? { return false; }
        bronze := Put(bronze, env.bronzeAt, true, records);
      }
      if rejects != [] {
        if !Fits(rejects) || env.fault.QuarantineFails? { return false; }
        quarantine := Put(quarantine, env.quarantineAt, false, rejects);
      }
      return true;
    }

    /** The writes, against the machine's state. */
    method WriteOut(p: int, env: FlushEnv, ghost b: Buffer, ghost s: State) returns (ok: bool)
      requires Represents(s) && p in buffers && buffers[p].Value() == b
      modifies this`bronze, this`quarantine
      ensures Represents(Written(s, b, env)) && ok == WritesQuarantine(b, env)
    {
      ok := WriteBatches(buffers[p].records, buffers[p].rejects, env);
    }

    /** `_commit`: the offset after the highest of the batch. It may raise before the broker applies it, or after. */
    method CommitOffset(p: int, highest: nat, fault: Fault, ghost s: State) returns (ok: bool)
      requires Represents(s)
      modifies this`committed
      ensures Represents(Marked(s, p, highest + 1, fault))
      ensures ok <==> !fault.CommitFails? && !fault.AckLost?
    {
      if fault.CommitFails? { return false; }
      committed := committed[p := highest + 1];
      ok := !fault.AckLost?;
    }

    method ResetBuffer(p: int, now: int, ghost s: State)
      requires Represents(s) && p in buffers
      modifies buffers[p]
      ensures Represents(s.(buffers := s.buffers[p := EMPTY])) && buffers[p].firstSeen == now
    {
      buffers[p].Reset(now);
    }

    /** A flush with something to flush: write durably, and only then commit. */
    method FlushPending(p: int, env: FlushEnv, ghost b: Buffer, ghost s: State) returns (ok: bool)
      requires Represents(s) && p in buffers && buffers[p].Value() == b && b.Pending()
      modifies this`committed, this`bronze, this`quarantine, buffers[p]
      ensures Represents(Flushed(s, p, b, env))
      ensures ok == Commits(b, env)
      ensures !ok ==> buffers[p].firstSeen == old(buffers[p].firstSeen)
    {
      var highest := MaxOffset(buffers[p].records + buffers[p].rejects);
      ghost var w := Written(s, b, env);
      ok := WriteOut(p, env, b, s);
      if ok {
        ok := CommitOffset(p, highest, env.fault, w);
        if ok { ResetBuffer(p, env.doneAt, Marked(w, p, highest + 1, env.fault)); }
      }
      FlushedIs(s, p, b, env);
    }

    /** That, and the machine's steps for it. */
    method FlushSome(p: int, env: FlushEnv) returns (ok: bool)
      requires Valid() && p in buffers && buffers[p].Value().Pending()
      modifies this`committed, this`bronze, this`quarantine, this`model, buffers[p]
      ensures Valid() && p in position && Leads(old(model), model)
      ensures model == Run(old(model), FlushActions(old(buffers[p].Value()), p, env))
      ensures ok == Commits(old(buffers[p].Value()), env)
      ensures model.buffers == if ok then old(model).buffers[p := EMPTY] else old(model).buffers
      ensures !ok ==> buffers[p].firstSeen == old(buffers[p].firstSeen)
      ensures !ok ==> committed == if Unacked(old(buffers[p].Value()), env) then old(committed)[p := position[p]] else old(committed)
    {
      ghost var s, b := model, buffers[p].Value();
      FlushOutcome(s, p, env);
      ok := FlushPending(p, env, b, s);
      model := Run(s, FlushActions(b, p, env));
    }

    /** `_flush_partition`. Returning false is the exception leaving the method. */
    method FlushPartition(p: int, env: FlushEnv) returns (ok: bool)
      requires Valid() && p in buffers
      modifies this`committed, this`bronze, this`quarantine, this`model, buffers[p]
      ensures Valid()
      ensures model == Run(old(model),
                if old(buffers[p].Value()).Pending() then FlushActions(old(buffers[p].Value()), p, env) else [])
      ensures ok <==> !old(buffers[p].Value()).Pending() || Commits(old(buffers[p].Value()), env)
      ensures Leads(old(model), model)
      ensures model.buffers.Keys == old(model).buffers.Keys
      ensures model.buffers == if ok then old(model).buffers[p := EMPTY] else old(model).buffers
      ensures env.fault.NoFault? ==> (ok <==> BufferFits(old(buffers[p].Value())))
      ensures p in position
      ensures !ok ==> buffers[p].Value() == old(buffers[p].Value()) && buffers[p].firstSeen == old(buffers[p].firstSeen)
      ensures !ok ==> committed == if Unacked(old(buffers[p].Value()), env) then old(committed)[p := position[p]] else old(committed)
    {
      if buffers[p].records == [] && buffers[p].rejects == [] {
        NothingToFlush(model, p);
        return true;
      }
      if env.fault.NoFault? { FaultlessCommits(buffers[p].Value(), env); }
      ok := FlushSome(p, env);
    }

    /** Flush the chosen partitions one after the other; the first exception ends the round. */
    method FlushEach(chosen: set<int>, envs: int -> FlushEnv) returns (ok: bool)
      requires Valid() && chosen <= buffers.Keys
      modifies this`committed, this`bronze, this`quarantine, this`model, buffers.Values
      ensures Valid() && Leads(old(model), model)
      ensures ok ==> forall p :: p in chosen ==> model.buffers[p] == EMPTY
      ensures forall p :: p in buffers && p !in chosen ==> model.buffers[p] == old(model).buffers[p]
      ensures ok ==> forall p :: p in chosen ==> BufferFits(old(model).buffers[p])
      ensures (forall p :: p in chosen ==> envs(p).fault.NoFault? && BufferFits(old(model).buffers[p])) ==> ok
    {
      var todo := chosen;
      ghost var s := model;
      RoundBegins(s, chosen);
      ok := true;
      while ok && todo != {}
        invariant Valid() && todo <= chosen && Round(s, model, chosen, todo)
        invariant !ok ==> exists p :: p in chosen && !(envs(p).fault.NoFault? && BufferFits(s.buffers[p]))
        decreases todo, ok
      {
        var p := Choose(todo);
        ghost var before := model;
        ok := FlushPartition(p, envs(p));
        RoundGoesOn(s, before, model, chosen, todo, p, ok);
        if ok {
          todo := todo - {p};
        }
      }
    }

    /** `_flush_due`. */
    method FlushDue(clocks: int -> int, envs: int -> FlushEnv) returns (ok: bool)
      requires Valid()
      modifies this`committed, this`bronze, this`quarantine, this`model, buffers.Values
      ensures Valid() && Leads(old(model), model)
      ensures forall p :: p in buffers && !old(buffers[p].Due(clocks(p))) ==> model.buffers[p] == old(model).buffers[p]
      ensures ok ==> forall p :: p in buffers && old(buffers[p].Due(clocks(p))) ==> model.buffers[p] == EMPTY
    {
      var due := set p | p in buffers && buffers[p].Due(clocks(p));
      ok := FlushEach(due, envs);
    }

    /** `_flush_all`. */
    method FlushAll(envs: int -> FlushEnv) returns (ok: bool)
      requires Valid()
      modifies this`committed, this`bronze, this`quarantine, this`model, buffers.Values
      ensures Valid() && Leads(old(model), model)
      ensures ok ==> forall p :: p in buffers ==> model.buffers[p] == EMPTY
      ensures ok ==> forall p :: p in buffers ==> BufferFits(old(model).buffers[p])
      ensures (forall p :: p in buffers ==> envs(p).fault.NoFault? && BufferFits(old(model).buffers[p])) ==> ok
    {
      var pending := set p | p in buffers && buffers[p].Value().Pending();
      ok := FlushEach(pending, envs);
    }

    /** A producer appends to a partition. */
    method Produce(p: int, m: Message)
      requires Valid() && p in logs
      modifies this`logs, this`model
      ensures Valid() && model == Step(old(model), Append(p, m))
      ensures logs == old(logs)[p := old(logs)[p] + [m]]
    {
      RunShort(model, Append(p, m), Abort, Abort);
      RunStaysReachable(model, [Append(p, m)]);
      logs := logs[p := logs[p] + [m]];
      model := Step(model, Append(p, m));
    }

    /** `setdefault`: the partition's buffer, created empty on its first message. */
    method BufferFor(p: int, now: int) returns (buffer: PartitionBuffer)
      modifies this`buffers
      ensures p in old(buffers) ==> buffer == old(buffers)[p]
      ensures p !in old(buffers) ==> fresh(buffer) && buffer.Value() == EMPTY
      ensures buffers == old(buffers)[p := buffer]
    {
      if p in buffers {
        buffer := buffers[p];
      } else {
        buffer := new PartitionBuffer(now);
      }
      buffers := buffers[p := buffer];
    }

    /** The next message is one the parser raises on. */
    predicate Poisoned(p: int)
      requires Readable(p)
      reads this
    {
      logs[p][position[p]].value.Poison?
    }

    /** The partition has a buffer, empty if it is new. */
    method OwnBuffer(p: int, now: int, ghost s: State)
      requires Represents(s)
      modifies this`buffers
      ensures p in buffers && Represents(WithBuffer(s, p))
      ensures forall b :: b in buffers.Values ==> fresh(b) || b in old(buffers.Values)
    {
      var buffer := BufferFor(p, now);
    }

    /** The message at the read position joins the partition's buffer, and the position moves on. */
    method TakeMessage(p: int, ghost s: State)
      requires Represents(s) && Readable(p) && p in buffers && !PoisonAhead(s, p)
      modifies this`position, buffers[p]
      ensures Represents(Polled(s, p)) && position == old(position)[p := old(position)[p] + 1]
    {
      buffers[p].Append(Entry(p, position[p], logs[p][position[p]]));
      position := position[p := position[p] + 1];
    }

    /** The effects of one delivered message: it is buffered on its side, and the read position moves on; or the parser raises. */
    method BufferMessage(p: int, now: int, ghost s: State) returns (ok: bool)
      requires Represents(s) && Readable(p)
      modifies this`buffers, this`position, buffers.Values
      ensures Represents(Polled(s, p))
      ensures ok == !old(Poisoned(p))
      ensures p in buffers && position == if ok then old(position)[p := old(position)[p] + 1] else old(position)
      ensures forall b :: b in buffers.Values ==> fresh(b) || b in old(buffers.Values)
    {
      OwnBuffer(p, now, s);
      ok := !Poisoned(p);
      if ok {
        assert buffers[p] in buffers.Values;
        TakeMessage(p, WithBuffer(s, p));
        BufferFirst(s, p);
      }
    }

    /** One delivered message is classified and buffered: the machine's poll. False is the parser's exception. */
    method Receive(p: int, now: int) returns (ok: bool)
      requires Valid() && Readable(p)
      modifies this`buffers, this`position, this`model, buffers.Values
      ensures Valid() && model == Step(old(model), Poll(p)) && Leads(old(model), model)
      ensures ok == !old(Poisoned(p))
      ensures p in buffers && position == if ok then old(position)[p := old(position)[p] + 1] else old(position)
      ensures forall b :: b in buffers.Values ==> fresh(b) || b in old(buffers.Values)
    {
      ghost var s := model;
      PollStaysReachable(s, p);
      LeadsByStep(s, Poll(p));
      ok := BufferMessage(p, now, s);
      model := Step(s, Poll(p));
    }

    /** `if buffer.due()`: flush the partition then, and only then. */
    method FlushIfDue(p: int, clock: int, env: FlushEnv) returns (ok: bool)
      requires Valid() && p in buffers
      modifies this`committed, this`bronze, this`quarantine, this`model, buffers[p]
      ensures Valid() && Leads(old(model), model)
      ensures ok ==> !buffers[p].Due(clock)
      ensures !ok && env.fault.NoFault? ==> buffers[p].Due(clock) && !BufferFits(buffers[p].Value())
    {
      LeadsReflexive(model);
      ok := true;
      if buffers[p].Due(clock) {
        ok := FlushPartition(p, env);
      }
    }

    /** A delivered message: buffer it, then flush its partition if that made it due. */
    method Deliver(p: int, clock: int, env: FlushEnv) returns (ok: bool)
      requires Valid() && Readable(p)
      modifies this`buffers, this`position, this`committed, this`bronze, this`quarantine, this`model, buffers.Values
      ensures Valid() && Leads(old(model), model)
      ensures forall b :: b in buffers.Values ==> fresh(b) || b in old(buffers.Values)
      ensures position == if old(Poisoned(p)) then old(position) else old(position)[p := old(position)[p] + 1]
      ensures p in buffers && (ok ==> !old(Poisoned(p)) && !buffers[p].Due(clock))
      ensures env.fault.NoFault? ==> (ok <==> !old(Poisoned(p)) && (buffers[p].Due(clock) ==> BufferFits(buffers[p].Value())))
    {
      ghost var s := model;
      ok := Receive(p, clock);
      if ok {
        ghost var t := model;
        ok := FlushIfDue(p, clock, env);
        LeadsTransitive(s, t, model);
      }
    }

    /** A client that reports a message has one past the position; with none there is nothing to do. */
    method DeliverIfAny(p: int, clock: int, env: FlushEnv) returns (ok: bool)
      requires Valid()
      modifies this`buffers, this`position, this`committed, this`bronze, this`quarantine, this`model, buffers.Values
      ensures Valid() && Leads(old(model), model)
      ensures forall b :: b in buffers.Values ==> fresh(b) || b in old(buffers.Values)
      ensures ok && old(Readable(p)) ==>
                !old(Poisoned(p)) && p in buffers && !buffers[p].Due(clock)
                && position == old(position)[p := old(position)[p] + 1]
    {
      LeadsReflexive(model);
      ok := true;
      if Readable(p) {
        ok := Deliver(p, clock, env);
      }
    }

    /** The broker refuses what is for no partition of the topic. */
    method ProduceIfAny(p: int, m: Message)
      requires Valid()
      modifies this`logs, this`model
      ensures Valid() && Leads(old(model), model) && model == Step(old(model), Append(p, m))
    {
      LeadsByStep(model, Append(p, m));
      if p in logs {
        Produce(p, m);
      }
    }

    /** The outcomes of a poll that bring no message. */
    method TurnIdle(event: PollEvent) returns (ok: bool)
      requires Valid() && !event.Delivered?
      modifies this`logs, this`committed, this`bronze, this`quarantine, this`model, this`running, buffers.Values
      ensures Valid() && Leads(old(model), model)
      ensures event.Produced? ==> ok && model == Step(old(model), Append(event.partition, event.message))
      ensures event.Nothing? && ok ==>
                forall p :: p in buffers && old(buffers[p].Due(event.clocks(p))) ==> p in model.buffers && model.buffers[p] == EMPTY
      ensures event.BrokerError? || event.Stop? ==> ok && model == old(model)
      ensures running == (old(running) && !event.Stop?)
    {
      LeadsReflexive(model);
      ok := true;
      match event {
        case Produced(p, m) =>
          ProduceIfAny(p, m);
        case Nothing(assignment, clocks, envs) =>
          ok := FlushDue(clocks, envs);
        case BrokerError(_) =>
        case Stop =>
          running := false;
      }
    }

    /** One turn of the loop: what arrived is handled; false is an exception on its way to the `finally`. */
    method Turn(event: PollEvent) returns (ok: bool)
      requires Valid()
      modifies this, buffers.Values
      ensures Valid() && Leads(old(model), model)
      ensures forall b :: b in buffers.Values ==> fresh(b) || b in old(buffers.Values)
      ensures event.Produced? ==> ok && model == Step(old(model), Append(event.partition, event.message))
      ensures event.Nothing? && ok ==>
                forall p :: p in old(buffers) && old(buffers[p].Due(event.clocks(p))) ==> p in model.buffers && model.buffers[p] == EMPTY
      ensures event.Delivered? && ok && old(Readable(event.partition)) ==>
                !old(Poisoned(event.partition))
                && event.partition in buffers && !buffers[event.partition].Due(event.clock)
                && position == old(position)[event.partition := old(position)[event.partition] + 1]
      ensures event.BrokerError? || event.Stop? ==> ok && model == old(model)
      ensures running == (old(running) && !event.Stop?)
    {
      match event {
        case Delivered(p, clock, env) =>
          ok := DeliverIfAny(p, clock, env);
        case _ =>
          ok := TurnIdle(event);
      }
    }

    /**
     * `run`: the poll loop over any script of events, then the `finally` flush. `clean` is a normal return: no exception
     * in the loop and none in the flush. Then nothing is left buffered and every partition is committed up to its read
     * position; whatever the outcome, the process has only taken steps of the machine.
     */
    method Loop(script: seq<PollEvent>, maxIdlePolls: Option<nat>, finalEnvs: int -> FlushEnv) returns (clean: bool)
      requires Valid()
      modifies this, buffers.Values
      ensures Valid() && Leads(old(model), model)
      ensures clean ==> forall p :: p in buffers ==> model.buffers[p] == EMPTY
      ensures clean ==> forall p :: p in logs ==> p in model.start && p in position && model.Base(p) == position[p]
    {
      ghost var s := model;
      LeadsReflexive(s);
      var i, idle, holding, ok := 0, 0, false, true;
      while i < |script| && running && ok && !IdledOut(idle, maxIdlePolls)
        invariant 0 <= i <= |script| && Valid() && Leads(s, model)
        invariant forall b :: b in buffers.Values ==> fresh(b) || b in old(buffers.Values)
      {
        ghost var t := model;
        ok := Turn(script[i]);
        LeadsTransitive(s, t, model);
        if script[i].Nothing? {
          holding := holding || script[i].assignment;
          idle := if ok && holding then idle + 1 else idle;
        } else if script[i].BrokerError? {
          holding := holding || script[i].assignment;
        } else if script[i].Delivered? {
          holding, idle := true, 0;
        }
        i := i + 1;
      }
      ghost var t := model;
      var flushed := FlushAll(finalEnvs);
      LeadsTransitive(s, t, model);
      clean := ok && flushed;
      EmptyMeansCommitted(model);
    }
  }

  /** `max_idle_polls` empty polls in a row, counted only once partitions are held. */
  predicate IdledOut(idle: nat, maxIdlePolls: Option<nat>)
  {
    maxIdlePolls.Some? && idle > 0 && idle >= maxIdlePolls.value
  }
}
