/**
 What every run of the protocol keeps: the actor's own invariant, marks that stick, no acknowledged
 transaction lost while the actor runs, and no row that was never sent.  All results hold for any number
 of flush loops and replaced receivers, and for failed inserts of the loops.  A failed dump, an unheard
 reply and an unknown hash end the actor, and its cache is gone with its task; the state keeps the last
 value of the cache, which then counts for nothing.
 */
module Delivery {
  import opened Options
  import opened TxActor
  import opened FlushProtocol

  // ---- The actor's invariant ----

  ghost predicate WellKept(a: State) {
    && (forall h | h in a.cache ::
          && a.cache[h].sent.hash == h
          && (a.cache[h].markMs.Some? <==> a.cache[h].markIndex.Some?))
    && a.cache.Keys !! a.marks.Keys
    && |a.marks| <= MAX_PENDING_FLASHBLOCK_MARKS
  }

  lemma SubsetCard<T>(a: set<T>, b: set<T>)
    requires a <= b
    ensures |a| <= |b|
  {
    assert b == a + (b - a);
  }

  lemma Fewer<K, V>(m: map<K, V>, k: K)
    ensures |m - {k}| <= |m|
  {
    SubsetCard((m - {k}).Keys, m.Keys);
  }

  lemma WellKeptSend(a: State, tx: SentTx)
    requires WellKept(a)
    ensures WellKept(Send(a, tx))
  {
    Fewer(a.marks, tx.hash);
  }

  lemma WellKeptHandle(a: State, m: Message, io: Io)
    requires WellKept(a)
    ensures WellKept(Handle(a, m, io))
  {
    if m.SentRunTx? {
      WellKeptSend(a, m.tx);
    } else {
      assert Handle(a, m, io).marks == a.marks;
    }
  }

  lemma WellKeptConfirm(a: State, confirmed: set<TxHash>, newTarget: nat, nowMs: nat)
    requires WellKept(a)
    ensures WellKept(Confirm(a, confirmed, newTarget, nowMs))
  {
    SubsetCard(Confirm(a, confirmed, newTarget, nowMs).marks.Keys, a.marks.Keys);
  }

  lemma WellKeptMark(a: State, m: FlashblockMark)
    requires WellKept(a)
    ensures WellKept(ReceiveMark(a, m))
  {
  }

  lemma WellKeptStep(s: System, e: Event)
    requires WellKept(s.actor)
    ensures WellKept(Apply(s, e).actor)
  {
    match e {
      case Deliver(m, io) => WellKeptHandle(s.actor, m, io);
      case Flush(c, now) =>
        if Receives(s, c) && s.loops[c].queue[0].RemoveConfirmed? {
          WellKeptConfirm(s.actor, s.loops[c].queue[0].confirmed, s.loops[c].queue[0].newTarget, now);
        }
      case Marked(m) => WellKeptMark(s.actor, m);
      case _ =>
    }
  }

  /** Every reachable actor state is well kept. */
  lemma {:induction false} ReachableStates(es: seq<Event>)
    ensures WellKept(After(BOOT, es).actor)
    decreases |es|
  {
    if es != [] {
      ReachableStates(es[..|es| - 1]);
      WellKeptStep(After(BOOT, es[..|es| - 1]), es[|es| - 1]);
    }
  }

  /** The hashes in some order. */
  ghost function AsSeq(hashes: set<TxHash>): (list: seq<TxHash>)
    ensures forall h :: h in list <==> h in hashes
    decreases hashes
  {
    if hashes == {} then []
    else
      var h :| h in hashes;
      [h] + AsSeq(hashes - {h})
  }

  /** The requests that an event makes the actor take, at most one. */
  ghost function TakenBy(s: System, e: Event): seq<Request> {
    if !s.actor.status.Running? then []
    else
      match e
      case Deliver(m, io) => [External(m, io)]
      case Marked(m) => [Mark(m)]
      case Flush(c, now) =>
        if !Receives(s, c) then []
        else if s.loops[c].queue[0].GetSnapshot? then [SnapshotRequest]
        else [Confirmed(AsSeq(s.loops[c].queue[0].confirmed), s.loops[c].queue[0].newTarget, now)]
      case _ => []
  }

  /** The requests that the actor takes during a run, in order. */
  ghost function RequestsOf(es: seq<Event>): seq<Request>
    decreases |es|
  {
    if es == [] then []
    else RequestsOf(es[..|es| - 1]) + TakenBy(After(BOOT, es[..|es| - 1]), es[|es| - 1])
  }

  lemma TakenStep(s: System, e: Event, before: seq<Request>)
    requires s.actor == Served(INITIAL, before)
    ensures Apply(s, e).actor == Served(INITIAL, before + TakenBy(s, e))
  {
    var taken := TakenBy(s, e);
    TakenServes(s, e);
    if taken == [] {
      assert before + taken == before;
    } else {
      assert (before + taken)[..|before|] == before;
    }
  }

  lemma TakenServes(s: System, e: Event)
    ensures var taken := TakenBy(s, e);
            |taken| <= 1 && Apply(s, e).actor == if taken == [] then s.actor else Serve(s.actor, taken[0])
  {
    if e.Flush? && Receives(s, e.channel) && s.loops[e.channel].queue[0].RemoveConfirmed? {
      var confirmed := s.loops[e.channel].queue[0].confirmed;
      assert (set h | h in AsSeq(confirmed)) == confirmed;
    }
  }

  /** The actor's part in every run of the system is a run of the actor on the requests it takes. */
  lemma {:induction false} ActorPart(es: seq<Event>)
    ensures After(BOOT, es).actor == Served(INITIAL, RequestsOf(es))
    decreases |es|
  {
    if es != [] {
      ActorPart(es[..|es| - 1]);
      TakenStep(After(BOOT, es[..|es| - 1]), es[|es| - 1], RequestsOf(es[..|es| - 1]));
    }
  }

  predicate Sends(e: Event, h: TxHash) {
    e.Deliver? && e.message.SentRunTx? && e.message.tx.hash == h
  }

  /** A cached entry was there before, unless it is sent; and its mark, once set, stays. */
  ghost predicate Sticks(cache: Snapshot, cache': Snapshot, h: TxHash) {
    h in cache' ==> h in cache && (cache[h].markMs.Some? ==> cache'[h] == cache[h])
  }

  lemma HandleSticks(a: State, m: Message, io: Io, h: TxHash)
    requires !(m.SentRunTx? && m.tx.hash == h)
    ensures Sticks(a.cache, Handle(a, m, io).cache, h)
  {
  }

  lemma MarkSticksStep(s: System, e: Event, h: TxHash)
    requires !Sends(e, h)
    ensures Sticks(s.actor.cache, Apply(s, e).actor.cache, h)
  {
    match e {
      case Deliver(m, io) => HandleSticks(s.actor, m, io, h);
      case _ =>
    }
  }

  /** A marked entry does not change as long as it stays cached and is not sent again. */
  lemma {:induction false} MarkSticks(s: System, es: seq<Event>, h: TxHash)
    requires h in s.actor.cache && s.actor.cache[h].markMs.Some?
    requires forall i | 0 <= i < |es| :: !Sends(es[i], h)
    requires h in After(s, es).actor.cache
    ensures After(s, es).actor.cache[h] == s.actor.cache[h]
    decreases |es|
  {
    if es != [] {
      var prefix := es[..|es| - 1];
      MarkSticksStep(After(s, prefix), es[|es| - 1], h);
      MarkSticks(s, prefix, h);
    }
  }

  // ---- No loss ----

  /** The hashes a loop has recorded and the actor has not been told about yet. */
  function Unreported(l: Loop): set<TxHash> {
    (if l.pc.Recorded? then l.pc.confirmed else {}) +
    if l.queue != [] && l.queue[0].RemoveConfirmed? then l.queue[0].confirmed else {}
  }

  /** Every removal that is queued, or about to be, names only hashes that have a row. */
  ghost predicate Backed(s: System) {
    && Shapes(s)
    && forall c | c in s.loops :: Unreported(s.loops[c]) <= s.db.Keys
  }

  /** A loop step reports nothing that it has not recorded. */
  lemma BackedAdvance(l: Loop, input: Input)
    requires Shape(l)
    ensures Unreported(Advance(l, input)) <= Unreported(l) + Recording(l, input).Keys
  {
    if Processes(l) {
      BlockReports(l, input);
    } else if Awaits(l.pc) {
      AwaitReportsNothing(l, input);
    } else {
      SendReportsNothing(l, input);
    }
  }

  lemma BlockReports(l: Loop, input: Input)
    requires Shape(l) && Processes(l)
    ensures Unreported(Advance(l, input)) <= Recording(l, input).Keys
  {
    LandedKeys(l.pc.round, l.pc.bn, input);
  }

  lemma AwaitReportsNothing(l: Loop, input: Input)
    requires Shape(l) && Awaits(l.pc)
    ensures Unreported(Advance(l, input)) <= Unreported(l)
  {
  }

  lemma SendReportsNothing(l: Loop, input: Input)
    requires Shape(l) && !Awaits(l.pc) && !Processes(l)
    ensures Unreported(Advance(l, input)) <= Unreported(l)
  {
  }

  lemma LandedKeys(r: Round, bn: nat, input: Input)
    ensures LandedRows(r, bn, input).Keys == r.snapshot.Keys * input.receipts.Keys
    ensures LandedRows(r, bn, input) == map[] ==> r.snapshot.Keys * input.receipts.Keys == {}
  {
  }

  lemma TableGrows(s: System, e: Event)
    ensures s.db.Keys <= Apply(s, e).db.Keys
  {
  }

  lemma UnreportedShrinks(s: System, e: Event, c: nat)
    requires Shapes(s) && c in Apply(s, e).loops
    requires !(e.LoopStep? && e.channel == c)
    ensures c in s.loops ==> Unreported(Apply(s, e).loops[c]) <= Unreported(s.loops[c])
    ensures c !in s.loops ==> Unreported(Apply(s, e).loops[c]) == {}
  {
    if c in s.loops {
      assert Shape(s.loops[c]);
    }
  }

  lemma BackedStep(s: System, e: Event)
    requires Backed(s)
    ensures Backed(Apply(s, e))
  {
    ShapeStep(s, e);
    TableGrows(s, e);
    var s' := Apply(s, e);
    forall c | c in s'.loops
      ensures Unreported(s'.loops[c]) <= s'.db.Keys
    {
      if e.LoopStep? && e.channel == c {
        BackedAdvance(s.loops[c], e.input);
        assert s'.db.Keys == s.db.Keys + Recording(s.loops[c], e.input).Keys;
      } else {
        UnreportedShrinks(s, e, c);
      }
    }
  }

  lemma {:induction false} RemovalsAreBacked(es: seq<Event>)
    ensures Backed(After(BOOT, es))
    decreases |es|
  {
    if es != [] {
      RemovalsAreBacked(es[..|es| - 1]);
      BackedStep(After(BOOT, es[..|es| - 1]), es[|es| - 1]);
    }
  }

  /** The messages that throw a pending transaction away. */
  predicate Discards(e: Event, h: TxHash) {
    e.Deliver? && (e.message == RemovedRunTx(h) || e.message.ClearCache?)
  }

  /** The running actor has the transaction, or the table does. */
  predicate Kept(s: System, h: TxHash) {
    (s.actor.status.Running? && h in s.actor.cache) || h in s.db
  }

  lemma KeptDeliver(s: System, m: Message, io: Io, h: TxHash)
    requires Kept(s, h) && !Discards(Deliver(m, io), h) && DeliverTo(s, m, io).actor.status.Running?
    ensures Kept(DeliverTo(s, m, io), h)
  {
  }

  lemma KeptFlush(s: System, c: nat, nowMs: nat, h: TxHash)
    requires Backed(s) && Kept(s, h) && Receives(s, c)
    ensures Kept(FlushTo(s, c, nowMs), h)
  {
    assert Unreported(s.loops[c]) <= s.db.Keys;
  }

  lemma KeptElsewhere(s: System, e: Event, h: TxHash)
    requires Kept(s, h) && !e.Deliver? && !e.Flush?
    ensures Kept(Apply(s, e), h)
  {
    TableGrows(s, e);
    assert s.actor.cache.Keys <= Apply(s, e).actor.cache.Keys;
  }

  lemma KeptStep(s: System, e: Event, h: TxHash)
    requires Backed(s) && Kept(s, h) && !Discards(e, h) && Apply(s, e).actor.status.Running?
    ensures Kept(Apply(s, e), h)
  {
    match e {
      case Deliver(m, io) =>
        if s.actor.status.Running? {
          KeptDeliver(s, m, io, h);
        }
      case Flush(c, now) =>
        if Receives(s, c) {
          KeptFlush(s, c, now, h);
        }
      case _ => KeptElsewhere(s, e, h);
    }
  }

  /** An actor that has ended stays so. */
  lemma StaysEnded(s: System, e: Event)
    requires !s.actor.status.Running?
    ensures Apply(s, e).actor == s.actor
  {
  }

  /**
   While the actor runs, a hash that was sent, and that no later RemovedRunTx or ClearCache hits, is in
   the cache or has a row.
   */
  lemma {:induction false} NoLoss(es: seq<Event>, i: nat, h: TxHash)
    requires After(BOOT, es).actor.status.Running?
    requires i < |es| && Sends(es[i], h) && forall j | i < j < |es| :: !Discards(es[j], h)
    ensures Kept(After(BOOT, es), h)
    decreases |es|
  {
    var prefix := es[..|es| - 1];
    if !After(BOOT, prefix).actor.status.Running? {
      StaysEnded(After(BOOT, prefix), es[|es| - 1]);
    } else if i < |prefix| {
      NoLoss(prefix, i, h);
      RemovalsAreBacked(prefix);
      assert !Discards(es[|es| - 1], h);
      KeptStep(After(BOOT, prefix), es[|es| - 1], h);
    }
  }

  // ---- No invention ----

  function SentIn(es: seq<Event>): set<SentTx> {
    set i | 0 <= i < |es| && es[i].Deliver? && es[i].message.SentRunTx? :: es[i].message.tx
  }

  /** The part of a row that only the sender knows. */
  predicate Reports(tx: SentTx, row: RunTx) {
    && row.hash == tx.hash && row.startMs == tx.startMs && row.kind == tx.kind
    && (tx.endMs.Some? ==> row.endMs == tx.endMs)
    && (row.error == tx.error || row.error == Some("execution reverted"))
  }

  ghost predicate TracedSnapshot(snapshot: Snapshot, sent: set<SentTx>) {
    forall h | h in snapshot :: snapshot[h].sent in sent && snapshot[h].sent.hash == h
  }

  ghost predicate TracedLoop(l: Loop, sent: set<SentTx>) {
    && (l.reply.Some? ==> TracedSnapshot(l.reply.value.snapshot, sent))
    && (l.pc.AtBlock? || l.pc.Recorded? || l.pc.Removing? || l.pc.AwaitRefresh? || l.pc.Closing? ==>
          TracedSnapshot(l.pc.round.snapshot, sent))
  }

  ghost predicate TracedRow(h: TxHash, row: RunTx, sent: set<SentTx>) {
    row.hash == h && exists tx | tx in sent :: Reports(tx, row)
  }

  ghost predicate TracedTable(db: Table, sent: set<SentTx>) {
    forall h, row | h in db && row in db[h] :: TracedRow(h, row, sent)
  }

  ghost predicate Traced(s: System, sent: set<SentTx>) {
    && TracedSnapshot(s.actor.cache, sent)
    && (forall c | c in s.loops :: TracedLoop(s.loops[c], sent))
    && TracedTable(s.db, sent)
  }

  lemma TracedInsert(db: Table, rows: map<TxHash, RunTx>, sent: set<SentTx>)
    requires TracedTable(db, sent)
    requires forall h | h in rows :: TracedRow(h, rows[h], sent)
    ensures TracedTable(Insert(db, rows), sent)
  {
    var db' := Insert(db, rows);
    forall h, row | h in db' && row in db'[h]
      ensures TracedRow(h, row, sent)
    {
      if h in db && row in db[h] {
        assert TracedRow(h, row, sent);
      } else {
        assert h in rows && row == rows[h];
      }
    }
  }

  lemma TracedDump(cache: Snapshot, runId: nat, a: State, sent: set<SentTx>)
    requires a.cache == cache && TracedSnapshot(cache, sent)
    ensures forall h | h in DumpRows(a, runId) :: TracedRow(h, DumpRows(a, runId)[h], sent)
  {
    forall h | h in DumpRows(a, runId)
      ensures TracedRow(h, DumpRows(a, runId)[h], sent)
    {
      assert Reports(cache[h].sent, DumpRows(a, runId)[h]);
    }
  }

  lemma TracedRecording(l: Loop, input: Input, sent: set<SentTx>)
    requires TracedLoop(l, sent)
    ensures forall h | h in Recording(l, input) :: TracedRow(h, Recording(l, input)[h], sent)
  {
    forall h | h in Recording(l, input)
      ensures TracedRow(h, Recording(l, input)[h], sent)
    {
      assert Reports(l.pc.round.snapshot[h].sent, Recording(l, input)[h]);
    }
  }

  lemma TracedWiden(s: System, sent: set<SentTx>, more: set<SentTx>)
    requires Traced(s, sent) && sent <= more
    ensures Traced(s, more)
  {
    forall h, row | h in s.db && row in s.db[h]
      ensures TracedRow(h, row, more)
    {
      assert TracedRow(h, row, sent);
    }
  }

  lemma TracedResume(l: Loop, a: Reply, sent: set<SentTx>)
    requires TracedLoop(l, sent) && TracedSnapshot(a.snapshot, sent)
    ensures TracedLoop(Resume(l, a), sent)
  {
  }

  lemma TracedAdvance(l: Loop, input: Input, sent: set<SentTx>)
    requires TracedLoop(l, sent)
    ensures TracedLoop(Advance(l, input), sent)
  {
    if Awaits(l.pc) {
      if l.reply.Some? {
        TracedResume(l.(reply := None), l.reply.value, sent);
      }
    } else {
      assert Advance(l, input).reply == l.reply;
    }
  }

  lemma TracedLoops(s: System, e: Event, sent: set<SentTx>)
    requires Traced(s, sent)
    ensures forall c | c in Apply(s, e).loops :: TracedLoop(Apply(s, e).loops[c], sent)
  {
    if e.LoopStep? && e.channel in s.loops {
      TracedAdvance(s.loops[e.channel], e.input, sent);
    }
  }

  lemma TracedHandle(a: State, m: Message, io: Io, sent: set<SentTx>)
    requires TracedSnapshot(a.cache, sent)
    requires m.SentRunTx? ==> m.tx in sent
    ensures TracedSnapshot(Handle(a, m, io).cache, sent)
  {
  }

  lemma TracedCache(s: System, e: Event, sent: set<SentTx>)
    requires Traced(s, sent)
    requires e.Deliver? && e.message.SentRunTx? ==> e.message.tx in sent
    ensures TracedSnapshot(Apply(s, e).actor.cache, sent)
  {
    match e {
      case Deliver(m, io) => TracedHandle(s.actor, m, io, sent);
      case Flush(c, now) =>
      case Marked(m) => assert TracedSnapshot(ReceiveMark(s.actor, m).cache, sent);
      case _ =>
    }
  }

  lemma TracedStep(s: System, e: Event, sent: set<SentTx>)
    requires Traced(s, sent)
    requires e.Deliver? && e.message.SentRunTx? ==> e.message.tx in sent
    ensures Traced(Apply(s, e), sent)
  {
    TracedLoops(s, e, sent);
    TracedCache(s, e, sent);
    match e {
      case Deliver(m, io) =>
        if m.DumpCache? {
          TracedDump(s.actor.cache, m.runId, s.actor, sent);
        }
        TracedInsert(s.db, Written(s.actor, m, io), sent);
      case LoopStep(c, input) =>
        if c in s.loops {
          TracedRecording(s.loops[c], input, sent);
          TracedInsert(s.db, Recording(s.loops[c], input), sent);
        }
      case _ =>
    }
  }

  lemma {:induction false} RunIsTraced(es: seq<Event>)
    ensures Traced(After(BOOT, es), SentIn(es))
    decreases |es|
  {
    if es != [] {
      var prefix, e := es[..|es| - 1], es[|es| - 1];
      RunIsTraced(prefix);
      assert SentIn(prefix) <= SentIn(es) by {
        forall tx | tx in SentIn(prefix) ensures tx in SentIn(es) {
          var i :| 0 <= i < |prefix| && prefix[i].Deliver? && prefix[i].message.SentRunTx? && prefix[i].message.tx == tx;
          assert es[i] == prefix[i];
        }
      }
      TracedWiden(After(BOOT, prefix), SentIn(prefix), SentIn(es));
      TracedStep(After(BOOT, prefix), e, SentIn(es));
    }
  }

  /** Every row in the table is the row of a transaction that some sender reported. */
  lemma NoInvention(es: seq<Event>, h: TxHash, row: RunTx)
    requires h in After(BOOT, es).db && row in After(BOOT, es).db[h]
    ensures row.hash == h
    ensures exists tx | tx in SentIn(es) :: Reports(tx, row)
  {
    RunIsTraced(es);
    assert TracedRow(h, row, SentIn(es));
  }
}
