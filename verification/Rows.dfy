/**
 What stands in the rows.  A row for a block has the gas of the receipt, an end and an error that depend
 on the sender's report, the block and the receipt, the run of the context that the round began with, and
 the mark of the transaction; a dumped row has what the sender reported, and the mark.
 */
module Rows {
  import opened Options
  import opened TxActor
  import opened FlushProtocol
  import opened Matching

  // ---- Where everything in a row comes from ----

  /** What senders, the mark listener and the callers have told the actor. */
  datatype History = History(
    sent: set<SentTx>, marks: set<FlashblockMark>, contexts: set<nat>, dumps: set<nat>)

  function Record(past: History, e: Event): History {
    match e
    case Marked(m) => past.(marks := past.marks + {m})
    case Deliver(message, _) =>
      (match message
       case SentRunTx(tx) => past.(sent := past.sent + {tx})
       case InitCtx(ctx) => past.(contexts := past.contexts + {ctx.runId})
       case DumpCache(runId) => past.(dumps := past.dumps + {runId})
       case _ => past)
    case _ => past
  }

  function HistoryOf(es: seq<Event>): History
    decreases |es|
  {
    if es == [] then History({}, {}, {}, {}) else Record(HistoryOf(es[..|es| - 1]), es[|es| - 1])
  }

  predicate Within(past: History, later: History) {
    && past.sent <= later.sent && past.marks <= later.marks
    && past.contexts <= later.contexts && past.dumps <= later.dumps
  }

  ghost predicate MarkedBy(markMs: Option<nat>, markIndex: Option<nat>, h: TxHash, marks: set<FlashblockMark>) {
    || (markMs.None? && markIndex.None?)
    || exists m | m in marks :: m.hash == h && markMs == Some(m.timestampMs) && markIndex == Some(m.index)
  }

  ghost predicate TrueEntry(h: TxHash, p: PendingRunTx, past: History) {
    p.sent in past.sent && p.sent.hash == h && MarkedBy(p.markMs, p.markIndex, h, past.marks)
  }

  ghost predicate TrueSnapshot(snapshot: Snapshot, past: History) {
    forall h | h in snapshot :: TrueEntry(h, snapshot[h], past)
  }

  predicate TrueContext(ctx: Option<ActorContext>, past: History) {
    ctx.Some? ==> ctx.value.runId in past.contexts
  }

  ghost predicate TrueActor(a: State, past: History) {
    && TrueSnapshot(a.cache, past) && TrueContext(a.ctx, past)
    && forall h | h in a.marks :: MarkedBy(Some(a.marks[h].0), Some(a.marks[h].1), h, past.marks)
  }

  ghost predicate TrueLoop(l: Loop, past: History) {
    && (l.reply.Some? ==> TrueSnapshot(l.reply.value.snapshot, past) && TrueContext(l.reply.value.ctx, past))
    && (MidRound(l.pc) ==> TrueSnapshot(l.pc.round.snapshot, past) && l.pc.round.runId in past.contexts)
  }

  // ---- The fields of a row ----

  /** The timestamps of the blocks of the chain, in seconds. */
  type Times = nat -> nat

  predicate RowFields(row: RunTx, tx: SentTx, past: History, chain: Receipts, time: Times) {
    && row.hash == tx.hash && row.startMs == tx.startMs && row.kind == tx.kind
    && match row.blockNumber
       case None =>
         row.gasUsed == None && row.endMs == tx.endMs && row.error == tx.error && row.runId in past.dumps
       case Some(b) =>
         && tx.hash in chain(b) && row.gasUsed == Some(chain(b)[tx.hash].gasUsed)
         && row.endMs == (if tx.endMs.Some? then tx.endMs else Some(1000 * time(b)))
         && row.error == (if chain(b)[tx.hash].success then tx.error else Some("execution reverted"))
         && row.runId in past.contexts
  }

  /** The latency of a row is the time from the start to a mark for its hash, and not below zero. */
  ghost predicate RowMark(row: RunTx, marks: set<FlashblockMark>) {
    || (row.flashblockLatencyMs.None? && row.flashblockIndex.None?)
    || exists m | m in marks ::
         && m.hash == row.hash && row.flashblockIndex == Some(m.index)
         && row.flashblockLatencyMs == Some(if m.timestampMs < row.startMs then 0 else m.timestampMs - row.startMs)
  }

  ghost predicate TrueRow(h: TxHash, row: RunTx, past: History, chain: Receipts, time: Times) {
    && row.hash == h && RowMark(row, past.marks)
    && exists tx | tx in past.sent :: RowFields(row, tx, past, chain, time)
  }

  ghost predicate TrueTable(db: Table, past: History, chain: Receipts, time: Times) {
    forall h, row | h in db && row in db[h] :: TrueRow(h, row, past, chain, time)
  }

  ghost predicate TrueRows(rows: map<TxHash, RunTx>, past: History, chain: Receipts, time: Times) {
    forall h | h in rows :: TrueRow(h, rows[h], past, chain, time)
  }

  ghost predicate TrueSystem(s: System, past: History, chain: Receipts, time: Times) {
    && TrueActor(s.actor, past) && (forall c | c in s.loops :: TrueLoop(s.loops[c], past))
    && TrueTable(s.db, past, chain, time)
  }

  // ---- A later history ----

  lemma MarkWiden(markMs: Option<nat>, markIndex: Option<nat>, h: TxHash, marks: set<FlashblockMark>, more: set<FlashblockMark>)
    requires MarkedBy(markMs, markIndex, h, marks) && marks <= more
    ensures MarkedBy(markMs, markIndex, h, more)
  {
  }

  lemma SnapshotWiden(snapshot: Snapshot, past: History, later: History)
    requires TrueSnapshot(snapshot, past) && Within(past, later)
    ensures TrueSnapshot(snapshot, later)
  {
    forall h | h in snapshot ensures TrueEntry(h, snapshot[h], later) {
      MarkWiden(snapshot[h].markMs, snapshot[h].markIndex, h, past.marks, later.marks);
    }
  }

  lemma ActorWiden(a: State, past: History, later: History)
    requires TrueActor(a, past) && Within(past, later)
    ensures TrueActor(a, later)
  {
    SnapshotWiden(a.cache, past, later);
    forall h | h in a.marks ensures MarkedBy(Some(a.marks[h].0), Some(a.marks[h].1), h, later.marks) {
      MarkWiden(Some(a.marks[h].0), Some(a.marks[h].1), h, past.marks, later.marks);
    }
  }

  lemma LoopWiden(l: Loop, past: History, later: History)
    requires TrueLoop(l, past) && Within(past, later)
    ensures TrueLoop(l, later)
  {
    if l.reply.Some? {
      SnapshotWiden(l.reply.value.snapshot, past, later);
    }
    if MidRound(l.pc) {
      SnapshotWiden(l.pc.round.snapshot, past, later);
    }
  }

  lemma RowWiden(h: TxHash, row: RunTx, past: History, later: History, chain: Receipts, time: Times)
    requires TrueRow(h, row, past, chain, time) && Within(past, later)
    ensures TrueRow(h, row, later, chain, time)
  {
    var tx :| tx in past.sent && RowFields(row, tx, past, chain, time);
    assert RowFields(row, tx, later, chain, time);
  }

  lemma SystemWiden(s: System, past: History, later: History, chain: Receipts, time: Times)
    requires TrueSystem(s, past, chain, time) && Within(past, later)
    ensures TrueSystem(s, later, chain, time)
  {
    ActorWiden(s.actor, past, later);
    forall c | c in s.loops ensures TrueLoop(s.loops[c], later) {
      LoopWiden(s.loops[c], past, later);
    }
    forall h, row | h in s.db && row in s.db[h] ensures TrueRow(h, row, later, chain, time) {
      RowWiden(h, row, past, later, chain, time);
    }
  }

  // ---- The rows of one step ----

  lemma InsertTrue(db: Table, rows: map<TxHash, RunTx>, past: History, chain: Receipts, time: Times)
    requires TrueTable(db, past, chain, time) && TrueRows(rows, past, chain, time)
    ensures TrueTable(Insert(db, rows), past, chain, time)
  {
    var db' := Insert(db, rows);
    forall h, row | h in db' && row in db'[h]
      ensures TrueRow(h, row, past, chain, time)
    {
      if h in db && row in db[h] {
        assert TrueRow(h, row, past, chain, time);
      } else {
        assert h in rows && row == rows[h];
      }
    }
  }

  lemma MarkInRow(p: PendingRunTx, row: RunTx, h: TxHash, marks: set<FlashblockMark>)
    requires MarkedBy(p.markMs, p.markIndex, h, marks) && row.hash == h && row.startMs == p.sent.startMs
    requires row.flashblockLatencyMs == FlashblockLatencyMs(p) && row.flashblockIndex == p.markIndex
    ensures RowMark(row, marks)
  {
    if p.markMs.Some? {
      var m :| m in marks && m.hash == h && p.markMs == Some(m.timestampMs) && p.markIndex == Some(m.index);
    }
  }

  lemma DumpedIsTrue(h: TxHash, p: PendingRunTx, runId: nat, past: History, chain: Receipts, time: Times)
    requires TrueEntry(h, p, past) && runId in past.dumps
    ensures TrueRow(h, DumpedRow(p, runId), past, chain, time)
  {
    MarkInRow(p, DumpedRow(p, runId), h, past.marks);
    assert RowFields(DumpedRow(p, runId), p.sent, past, chain, time);
  }

  lemma LandedIsTrue(h: TxHash, p: PendingRunTx, receipt: Receipt, block: Block, runId: nat, past: History,
                     chain: Receipts, time: Times)
    requires TrueEntry(h, p, past) && runId in past.contexts
    requires h in chain(block.number) && chain(block.number)[h] == receipt && time(block.number) == block.timestamp
    ensures TrueRow(h, LandedRow(p, receipt, block, runId), past, chain, time)
  {
    MarkInRow(p, LandedRow(p, receipt, block, runId), h, past.marks);
    assert RowFields(LandedRow(p, receipt, block, runId), p.sent, past, chain, time);
  }

  /** A loop that processes a block meets the receipts and the timestamp of the chain. */
  predicate Meets(s: System, e: Event, chain: Receipts, time: Times) {
    e.LoopStep? && e.channel in s.loops && Processes(s.loops[e.channel]) ==>
      var bn := s.loops[e.channel].pc.bn;
      e.input.receipts == chain(bn) && e.input.timestamp == time(bn)
  }

  predicate AllMeet(es: seq<Event>, chain: Receipts, time: Times) {
    es != [] ==>
      && AllMeet(es[..|es| - 1], chain, time) && Meets(After(BOOT, es[..|es| - 1]), es[|es| - 1], chain, time)
  }

  lemma RecordingIsTrue(l: Loop, input: Input, past: History, chain: Receipts, time: Times)
    requires TrueLoop(l, past)
    requires Processes(l) ==> input.receipts == chain(l.pc.bn) && input.timestamp == time(l.pc.bn)
    ensures TrueRows(Recording(l, input), past, chain, time)
  {
    forall h | h in Recording(l, input) ensures TrueRow(h, Recording(l, input)[h], past, chain, time) {
      LandedIsTrue(h, l.pc.round.snapshot[h], input.receipts[h], Block(l.pc.bn, input.timestamp), l.pc.round.runId,
                   past, chain, time);
    }
  }

  lemma WrittenIsTrue(a: State, m: Message, io: Io, past: History, chain: Receipts, time: Times)
    requires TrueActor(a, past) && (m.DumpCache? ==> m.runId in past.dumps)
    ensures TrueRows(Written(a, m, io), past, chain, time)
  {
    forall h | h in Written(a, m, io) ensures TrueRow(h, Written(a, m, io)[h], past, chain, time) {
      DumpedIsTrue(h, a.cache[h], m.runId, past, chain, time);
    }
  }

  // ---- The actor and the loops ----

  lemma SendIsTrue(a: State, tx: SentTx, past: History)
    requires TrueActor(a, past) && tx in past.sent
    ensures TrueActor(Send(a, tx), past)
  {
    var cache := Send(a, tx).cache;
    forall h | h in cache ensures TrueEntry(h, cache[h], past) {
      if h != tx.hash {
        assert h in a.cache && cache[h] == a.cache[h];
      }
    }
  }

  lemma HandleIsTrue(a: State, m: Message, io: Io, past: History)
    requires TrueActor(a, past)
    requires m.SentRunTx? ==> m.tx in past.sent
    requires m.InitCtx? ==> m.ctx.runId in past.contexts
    ensures TrueActor(Handle(a, m, io), past)
  {
    if m.SentRunTx? {
      SendIsTrue(a, m.tx, past);
    } else {
      var a' := Handle(a, m, io);
      assert a'.marks == a.marks && forall h | h in a'.cache :: h in a.cache && a'.cache[h] == a.cache[h];
    }
  }

  lemma MarkIsTrue(a: State, m: FlashblockMark, past: History)
    requires TrueActor(a, past) && m in past.marks
    ensures TrueActor(ReceiveMark(a, m), past)
  {
    var a' := ReceiveMark(a, m);
    forall h | h in a'.cache ensures TrueEntry(h, a'.cache[h], past) {
      assert h in a.cache && (h != m.hash ==> a'.cache[h] == a.cache[h]);
    }
    forall h | h in a'.marks ensures MarkedBy(Some(a'.marks[h].0), Some(a'.marks[h].1), h, past.marks) {
      if h in a.marks {
        assert a'.marks[h] == a.marks[h];
      }
    }
  }

  lemma ConfirmIsTrue(a: State, confirmed: set<TxHash>, newTarget: nat, nowMs: nat, past: History)
    requires TrueActor(a, past)
    ensures TrueActor(Confirm(a, confirmed, newTarget, nowMs), past)
  {
  }

  lemma ResumeIsTrue(l: Loop, a: Reply, past: History)
    requires TrueLoop(l, past) && TrueSnapshot(a.snapshot, past) && TrueContext(a.ctx, past)
    ensures TrueLoop(Resume(l, a), past)
  {
  }

  lemma AdvanceIsTrue(l: Loop, input: Input, past: History)
    requires TrueLoop(l, past)
    ensures TrueLoop(Advance(l, input), past)
  {
    if Awaits(l.pc) {
      if l.reply.Some? {
        ResumeIsTrue(l.(reply := None), l.reply.value, past);
      }
    } else {
      KeepsRound(l, input);
    }
  }

  lemma KeepsRound(l: Loop, input: Input)
    requires !Awaits(l.pc)
    ensures var l' := Advance(l, input);
            l'.reply == l.reply && (MidRound(l'.pc) ==> MidRound(l.pc) && l'.pc.round == l.pc.round)
  {
  }

  lemma TouchedIsTrue(l: Loop, l': Loop, past: History)
    requires TrueLoop(l, past) && Touched(l, l')
    ensures TrueLoop(l', past)
  {
  }

  lemma LoopsAreTrue(s: System, e: Event, past: History, c: nat)
    requires TrueActor(s.actor, past) && (forall k | k in s.loops :: TrueLoop(s.loops[k], past))
    requires c in Apply(s, e).loops
    ensures TrueLoop(Apply(s, e).loops[c], past)
  {
    if c !in s.loops {
      assert Apply(s, e).loops[c] == NewLoop(InFlight);
    } else if e.LoopStep? && e.channel == c {
      AdvanceIsTrue(s.loops[c], e.input, past);
    } else if !(e.Flush? && e.channel == c && Receives(s, c)) {
      Frame(s, e, c);
      TouchedIsTrue(s.loops[c], Apply(s, e).loops[c], past);
    }
  }

  lemma ActorIsTrue(s: System, e: Event, past: History)
    requires TrueActor(s.actor, past)
    requires Within(Record(past, e), past)
    ensures TrueActor(Apply(s, e).actor, past)
  {
    match e {
      case Deliver(m, io) => HandleIsTrue(s.actor, m, io, past);
      case Marked(m) => MarkIsTrue(s.actor, m, past);
      case Flush(c, now) =>
        if Receives(s, c) && s.loops[c].queue[0].RemoveConfirmed? {
          ConfirmIsTrue(s.actor, s.loops[c].queue[0].confirmed, s.loops[c].queue[0].newTarget, now, past);
        }
      case _ =>
    }
  }

  lemma TableIsTrue(s: System, e: Event, past: History, chain: Receipts, time: Times)
    requires TrueSystem(s, past, chain, time) && Meets(s, e, chain, time)
    requires Within(Record(past, e), past)
    ensures TrueTable(Apply(s, e).db, past, chain, time)
  {
    match e {
      case Deliver(m, io) =>
        WrittenIsTrue(s.actor, m, io, past, chain, time);
        InsertTrue(s.db, Written(s.actor, m, io), past, chain, time);
      case LoopStep(c, input) =>
        if c in s.loops {
          RecordingIsTrue(s.loops[c], input, past, chain, time);
          InsertTrue(s.db, Recording(s.loops[c], input), past, chain, time);
        }
      case _ =>
    }
  }

  lemma {:induction false} RunIsTrue(es: seq<Event>, chain: Receipts, time: Times)
    requires AllMeet(es, chain, time)
    ensures TrueSystem(After(BOOT, es), HistoryOf(es), chain, time)
    decreases |es|
  {
    if es != [] {
      var s, e, past := After(BOOT, es[..|es| - 1]), es[|es| - 1], HistoryOf(es);
      RunIsTrue(es[..|es| - 1], chain, time);
      SystemWiden(s, HistoryOf(es[..|es| - 1]), past, chain, time);
      ActorIsTrue(s, e, past);
      TableIsTrue(s, e, past, chain, time);
      forall c | c in Apply(s, e).loops ensures TrueLoop(Apply(s, e).loops[c], past) {
        LoopsAreTrue(s, e, past, c);
      }
    }
  }

  /**
   In every run whose loops meet the receipts and timestamps of a chain, every row is about a transaction
   that was sent, with exactly the fields that its receipt, its block and its mark determine.
   */
  lemma RowsAreTrue(es: seq<Event>, chain: Receipts, time: Times, h: TxHash, row: RunTx)
    requires AllMeet(es, chain, time) && h in After(BOOT, es).db && row in After(BOOT, es).db[h]
    ensures row.hash == h && RowMark(row, HistoryOf(es).marks)
    ensures exists tx | tx in HistoryOf(es).sent :: RowFields(row, tx, HistoryOf(es), chain, time)
  {
    RunIsTrue(es, chain, time);
    assert TrueRow(h, row, HistoryOf(es), chain, time);
  }

  // ---- The row of one transaction, exactly ----

  /** The context at the last answer to a request with which loop `c` began a round. */
  function LastRound(es: seq<Event>, c: nat): Option<ActorContext>
    decreases |es|
  {
    if es == [] then None
    else
      var s := After(BOOT, es[..|es| - 1]);
      if Answers(s, es[|es| - 1], c) && s.loops[c].pc.AwaitRound? then s.actor.ctx else LastRound(es[..|es| - 1], c)
  }

  predicate InContext(l: Loop, ctx: Option<ActorContext>) {
    && (l.pc.AwaitRound? && l.reply.Some? ==> l.reply.value.ctx == ctx)
    && (MidRound(l.pc) ==> ctx.Some? && l.pc.round.runId == ctx.value.runId)
  }

  lemma ContextAdvance(l: Loop, input: Input, ctx: Option<ActorContext>)
    requires Shape(l) && InContext(l, ctx)
    ensures InContext(Advance(l, input), ctx)
  {
  }

  lemma ContextStep(s: System, e: Event, c: nat, ctx: Option<ActorContext>)
    requires c in s.loops && Shape(s.loops[c]) && InContext(s.loops[c], ctx)
    ensures c in Apply(s, e).loops
    ensures InContext(Apply(s, e).loops[c], if Answers(s, e, c) && s.loops[c].pc.AwaitRound? then s.actor.ctx else ctx)
  {
    if e.LoopStep? && e.channel == c {
      ContextAdvance(s.loops[c], e.input, ctx);
    } else if !(e.Flush? && e.channel == c && Receives(s, c)) {
      Frame(s, e, c);
    }
  }

  lemma {:induction false} RoundIsInContext(es: seq<Event>, c: nat)
    requires c in After(BOOT, es).loops
    ensures InContext(After(BOOT, es).loops[c], LastRound(es, c))
    decreases |es|
  {
    if es != [] {
      var prefix, e := es[..|es| - 1], es[|es| - 1];
      if c in After(BOOT, prefix).loops {
        RoundIsInContext(prefix, c);
        ShapesHold(prefix);
        ContextStep(After(BOOT, prefix), e, c, LastRound(prefix, c));
      }
    }
  }

  /** What the mark of a cached transaction says about its latency. */
  predicate LatencyOf(p: PendingRunTx, row: RunTx) {
    && row.flashblockIndex == p.markIndex
    && row.flashblockLatencyMs ==
       if p.markMs.None? then None
       else if p.markMs.value < p.sent.startMs then Some(0)
       else Some(p.markMs.value - p.sent.startMs)
  }

  /** What landing in a block makes of a cached transaction. */
  predicate LandedFields(row: RunTx, p: PendingRunTx, receipt: Receipt, block: nat, timestamp: nat, runId: nat) {
    && row.runId == runId && row.blockNumber == Some(block)
    && row.hash == p.sent.hash && row.startMs == p.sent.startMs && row.kind == p.sent.kind
    && row.gasUsed == Some(receipt.gasUsed)
    && row.endMs == (if p.sent.endMs.Some? then p.sent.endMs else Some(1000 * timestamp))
    && row.error == (if receipt.success then p.sent.error else Some("execution reverted"))
    && LatencyOf(p, row)
  }

  predicate DumpedFields(row: RunTx, p: PendingRunTx, runId: nat) {
    && row.runId == runId && row.blockNumber == None && row.gasUsed == None
    && row.hash == p.sent.hash && row.startMs == p.sent.startMs && row.kind == p.sent.kind
    && row.endMs == p.sent.endMs && row.error == p.sent.error && LatencyOf(p, row)
  }

  /** One row is added behind those that were there. */
  predicate Added(before: seq<RunTx>, after: seq<RunTx>) {
    |after| == |before| + 1 && after[..|before|] == before
  }

  lemma InsertAdds(db: Table, rows: map<TxHash, RunTx>, h: TxHash)
    requires h in rows
    ensures Added(RowsOf(db, h), RowsOf(Insert(db, rows), h))
    ensures RowsOf(Insert(db, rows), h)[|RowsOf(db, h)|] == rows[h]
  {
  }

  /** The row that a block adds: from the cached transaction, the receipt, the block and the round's context. */
  lemma LandedRowExactly(es: seq<Event>, c: nat, input: Input, h: TxHash)
    requires c in After(BOOT, es).loops && Processes(After(BOOT, es).loops[c]) && input.dbOk
    requires h in LastAnswer(es, c) && h in input.receipts
    ensures LastRound(es, c).Some?
    ensures var s := After(BOOT, es);
            var (before, after) := (RowsOf(s.db, h), RowsOf(Apply(s, LoopStep(c, input)).db, h));
            Added(before, after) &&
            LandedFields(after[|before|], LastAnswer(es, c)[h], input.receipts[h], s.loops[c].pc.bn, input.timestamp,
                         LastRound(es, c).value.runId)
  {
    var s := After(BOOT, es);
    RoundInUse(es, c);
    RecordingFields(s.loops[c], input, h);
    StepAdds(s, c, input, h);
  }

  lemma RoundInUse(es: seq<Event>, c: nat)
    requires c in After(BOOT, es).loops && Processes(After(BOOT, es).loops[c])
    ensures var r := After(BOOT, es).loops[c].pc.round;
            r.snapshot == LastAnswer(es, c) && LastRound(es, c).Some? && r.runId == LastRound(es, c).value.runId
  {
    RoundIsInContext(es, c);
    SnapshotIsLastAnswer(es, c);
    ShapesHold(es);
    assert Shape(After(BOOT, es).loops[c]);
  }

  lemma RecordingFields(l: Loop, input: Input, h: TxHash)
    requires Processes(l) && input.dbOk && h in l.pc.round.snapshot && h in input.receipts
    ensures h in Recording(l, input)
    ensures LandedFields(Recording(l, input)[h], l.pc.round.snapshot[h], input.receipts[h], l.pc.bn, input.timestamp,
                         l.pc.round.runId)
  {
  }

  lemma StepAdds(s: System, c: nat, input: Input, h: TxHash)
    requires c in s.loops && h in Recording(s.loops[c], input)
    ensures var (before, after) := (RowsOf(s.db, h), RowsOf(Apply(s, LoopStep(c, input)).db, h));
            Added(before, after) && after[|before|] == Recording(s.loops[c], input)[h]
  {
    InsertAdds(s.db, Recording(s.loops[c], input), h);
  }

  /** The row that a dump adds. */
  lemma DumpedRowExactly(s: System, runId: nat, io: Io, h: TxHash)
    requires s.actor.status.Running? && io.dbOk && h in s.actor.cache
    ensures var (before, after) := (RowsOf(s.db, h), RowsOf(Apply(s, Deliver(DumpCache(runId), io)).db, h));
            Added(before, after) && DumpedFields(after[|before|], s.actor.cache[h], runId)
  {
    var e := Deliver(DumpCache(runId), io);
    InsertAdds(s.db, Written(s.actor, e.message, io), h);
  }
}
