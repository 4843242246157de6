/**
 What single events do to the actor: exactly which of them put a transaction into the cache or take it
 out, let a mark wait or end its wait, and end the actor; and exactly when a block counts as processed.
 */
module Effects {
  import opened TxActor
  import opened FlushProtocol
  import opened BlockCoverage

  /** The actor takes a removal from channel `c`. */
  predicate Removes(s: System, e: Event) {
    e.Flush? && Receives(s, e.channel) && s.loops[e.channel].queue[0].RemoveConfirmed?
  }

  /** Only a send puts a transaction into the cache. */
  lemma EntersCacheExactly(s: System, e: Event, h: TxHash)
    requires s.actor.status.Running? && h !in s.actor.cache
    ensures h in Apply(s, e).actor.cache <==> e.Deliver? && e.message.SentRunTx? && e.message.tx.hash == h
  {
    match e {
      case Deliver(m, io) => assert h in Handle(s.actor, m, io).cache <==> m.SentRunTx? && m.tx.hash == h;
      case _ =>
    }
  }

  /** A transaction leaves the cache of a running actor by a removal, a clear, a dump or a confirmation. */
  lemma LeavesCacheExactly(s: System, e: Event, h: TxHash)
    requires s.actor.status.Running? && Apply(s, e).actor.status.Running? && h in s.actor.cache
    ensures h !in Apply(s, e).actor.cache <==>
              || (e.Deliver? && (e.message == RemovedRunTx(h) || e.message.ClearCache? || e.message.DumpCache?))
              || (Removes(s, e) && h in s.loops[e.channel].queue[0].confirmed)
  {
    match e {
      case Deliver(m, io) => HandleDrops(s.actor, m, io, h);
      case _ =>
    }
  }

  lemma HandleDrops(a: State, m: Message, io: Io, h: TxHash)
    requires Handle(a, m, io).status.Running? && h in a.cache
    ensures h !in Handle(a, m, io).cache <==> m == RemovedRunTx(h) || m.ClearCache? || m.DumpCache?
  {
  }

  /** A mark waits if its transaction is unknown and fewer than 1024 marks wait. */
  lemma MarkWaitsExactly(s: System, e: Event, h: TxHash)
    requires s.actor.status.Running? && h !in s.actor.marks
    ensures h in Apply(s, e).actor.marks <==>
              e.Marked? && e.mark.hash == h && h !in s.actor.cache && |s.actor.marks| < 1024
    ensures h in Apply(s, e).actor.marks ==> Apply(s, e).actor.marks[h] == (e.mark.timestampMs, e.mark.index)
  {
    match e {
      case Deliver(m, io) => assert h !in Handle(s.actor, m, io).marks;
      case _ =>
    }
  }

  /** A waiting mark leaves with the send or the confirmation of its transaction, or 20 seconds old. */
  lemma MarkLeavesExactly(s: System, e: Event, h: TxHash)
    requires s.actor.status.Running? && h in s.actor.marks
    ensures h !in Apply(s, e).actor.marks <==>
              || (e.Deliver? && e.message.SentRunTx? && e.message.tx.hash == h)
              || (Removes(s, e) && (h in s.loops[e.channel].queue[0].confirmed ||
                                    e.nowMs >= s.actor.marks[h].0 + 20_000))
    ensures h in Apply(s, e).actor.marks ==> Apply(s, e).actor.marks[h] == s.actor.marks[h]
  {
    match e {
      case Deliver(m, io) =>
        assert h !in Handle(s.actor, m, io).marks <==> m.SentRunTx? && m.tx.hash == h;
      case _ =>
    }
  }

  /** The actor ends by a stop, an unknown hash to remove, a failed dump, or a caller that has gone. */
  lemma EndsExactly(s: System, e: Event)
    requires s.actor.status.Running?
    ensures !Apply(s, e).actor.status.Running? <==>
              e.Deliver? &&
              (|| e.message.Stop?
               || (e.message.RemovedRunTx? && e.message.hash !in s.actor.cache)
               || (e.message.DumpCache? && !e.io.dbOk)
               || (!e.io.heard && !e.message.InitCtx? && !e.message.ReplaceFlushReceiver?))
  {
    match e {
      case Deliver(m, io) => assert Apply(s, e).actor == Handle(s.actor, m, io);
      case _ =>
    }
  }

  /** A block is processed unless one of the pending transactions has a receipt in it and the insert fails. */
  lemma LandsExactly(s: System, c: nat, input: Input)
    requires c in s.loops && s.loops[c].pc.AtBlock?
    ensures Lands(s, LoopStep(c, input), c) <==>
              && s.loops[c].pc.bn < s.loops[c].pc.round.newBlock
              && (input.dbOk || s.loops[c].pc.round.snapshot.Keys !! input.receipts.Keys)
  {
    var rows := LandedRows(s.loops[c].pc.round, s.loops[c].pc.bn, input);
    if rows == map[] {
      forall h | h in s.loops[c].pc.round.snapshot ensures h !in input.receipts {
        assert h !in rows;
      }
    } else {
      var h :| h in rows;
      assert h in s.loops[c].pc.round.snapshot.Keys && h in input.receipts.Keys;
    }
  }
}
