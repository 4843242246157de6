/**
 Once sending is over and the loop is cancelled, receipt collection gives up: with N transactions
 pending, a flush loop begins at most 6N + 1 further rounds that see a new block, and one more if it is
 just about to enter a round with a snapshot of other transactions than those pending.
 */
module Shutdown {
  import opened Options
  import opened TxActor
  import opened FlushProtocol
  import opened Delivery

  /** Sending is over and the context stays. */
  predicate Winding(e: Event) {
    !(e.Deliver? && (e.message.SentRunTx? || e.message.InitCtx?))
  }

  /** A loop that is not done gives up as soon as the stale counter reaches its limit. */
  predicate Patient(l: Loop) {
    l.pc.Exited? || l.stale < STALE_BLOCK_LIMIT
  }

  predicate BeginsRound(s: System, e: Event, c: nat) {
    e.LoopStep? && e.channel == c && c in s.loops && Enters(s.loops[c])
  }

  function Rounds(s: System, es: seq<Event>, c: nat): nat
    decreases |es|
  {
    if es == [] then 0
    else Rounds(s, es[..|es| - 1], c) +
         if BeginsRound(After(s, es[..|es| - 1]), es[|es| - 1], c) then 1 else 0
  }

  /** Rounds that may still follow a round over a snapshot of size `n`. */
  function AfterRound(n: nat, l: Loop): int {
    if n == 0 then 0
    else if l.lastPending == Some(n) then 6 * n - 1 - l.stale
    else 6 * n
  }

  /** Rounds that may still follow when `n` transactions are pending and no round is under way. */
  function FromTop(n: nat, l: Loop): int {
    AfterRound(n, l) + 1
  }

  /** Whether a delivered reply replaces the round's snapshot. */
  predicate Refreshed(l: Loop) {
    l.reply.Some? && l.reply.value.ctx.Some?
  }

  function Budget(cache: Snapshot, l: Loop): int {
    if l.pc.Exited? then 0
    else if MidRound(l.pc) then
      AfterRound(if l.pc.AwaitRefresh? && Refreshed(l) then |l.reply.value.snapshot| else |l.pc.round.snapshot|, l)
    else
      FromTop(if l.pc.AwaitRound? && l.reply.Some? then |l.reply.value.snapshot| else |cache|, l)
  }

  /** The pending set only shrinks, so every snapshot covers the cache and every older snapshot a newer one. */
  ghost predicate Covered(cache: Snapshot, l: Loop) {
    && Shape(l) && l.cancelled && Patient(l)
    && (MidRound(l.pc) ==> l.pc.round.snapshot != map[] && cache.Keys <= l.pc.round.snapshot.Keys)
    && ((l.pc.AwaitRound? || l.pc.AwaitRefresh?) && l.reply.Some? ==>
          cache.Keys <= l.reply.value.snapshot.Keys)
    && (l.pc.AwaitRefresh? && l.reply.Some? ==>
          l.reply.value.snapshot.Keys <= l.pc.round.snapshot.Keys)
  }

  lemma AfterRoundMonotone(n: nat, k: nat, l: Loop)
    requires n <= k && l.stale < STALE_BLOCK_LIMIT
    ensures 0 <= AfterRound(n, l) <= AfterRound(k, l)
    ensures 0 <= FromTop(n, l) <= FromTop(k, l)
  {
  }

  lemma CloseBudget(cache: Snapshot, l: Loop, r: Round)
    requires l.cancelled && l.stale < STALE_BLOCK_LIMIT
    requires cache.Keys <= r.snapshot.Keys && r.snapshot != map[]
    ensures Budget(cache, Close(l, r)) <= AfterRound(|r.snapshot|, l)
  {
    SubsetCard(cache.Keys, r.snapshot.Keys);
    var l' := Close(l, r);
    if !l'.pc.Exited? && |cache| < |r.snapshot| {
      AfterRoundMonotone(|cache|, |r.snapshot| - 1, l');
    }
  }

  lemma ResumeBudget(cache: Snapshot, l: Loop)
    requires Covered(cache, l) && Awaits(l.pc) && l.reply.Some?
    ensures Covered(cache, Resume(l.(reply := None), l.reply.value))
    ensures Budget(cache, Resume(l.(reply := None), l.reply.value)) +
            (if Enters(l) then 1 else 0)
            <= Budget(cache, l)
  {
    if l.pc.AwaitRound? {
      SubsetCard(cache.Keys, l.reply.value.snapshot.Keys);
      AfterRoundMonotone(|cache|, |l.reply.value.snapshot|, l);
    } else if !l.pc.AwaitRefresh? {
      AfterRoundMonotone(0, |cache|, l);
    } else {
      AfterRoundMonotone(0, |l.reply.value.snapshot|, l);
    }
  }

  lemma AdvanceBudget(cache: Snapshot, l: Loop, input: Input)
    requires Covered(cache, l)
    ensures Covered(cache, Advance(l, input))
    ensures Budget(cache, Advance(l, input)) +
            (if Enters(l) then 1 else 0) <= Budget(cache, l)
  {
    if Awaits(l.pc) {
      if l.reply.Some? {
        ResumeBudget(cache, l);
      } else {
        WaitBudget(cache, l, input);
      }
    } else if l.pc.Closing? {
      CloseBudget(cache, l, l.pc.round);
    } else {
      SendBudget(cache, l, input);
    }
  }

  lemma WaitBudget(cache: Snapshot, l: Loop, input: Input)
    requires Covered(cache, l) && Awaits(l.pc) && l.reply.None?
    ensures Covered(cache, Advance(l, input))
    ensures Budget(cache, Advance(l, input)) <= Budget(cache, l)
  {
    AfterRoundMonotone(0, |cache|, l);
    if l.pc.AwaitRefresh? {
      AfterRoundMonotone(0, |l.pc.round.snapshot|, l);
    }
  }

  lemma SendBudget(cache: Snapshot, l: Loop, input: Input)
    requires Covered(cache, l) && !Awaits(l.pc) && !l.pc.Closing?
    ensures Covered(cache, Advance(l, input))
    ensures Budget(cache, Advance(l, input)) <= Budget(cache, l)
  {
    ShapeAdvance(l, input);
    if !l.pc.Exited? {
      AfterRoundMonotone(0, |cache|, l);
      if MidRound(l.pc) {
        AfterRoundMonotone(0, |l.pc.round.snapshot|, l);
      }
    }
  }

  /** A smaller cache leaves a smaller budget. */
  lemma ShrinkBudget(cache: Snapshot, less: Snapshot, l: Loop)
    requires Covered(cache, l) && less.Keys <= cache.Keys
    ensures Covered(less, l) && Budget(less, l) <= Budget(cache, l)
  {
    SubsetCard(less.Keys, cache.Keys);
    if !l.pc.Exited? {
      AfterRoundMonotone(|less|, |cache|, l);
    }
  }

  /** The actor answers a snapshot request. */
  lemma AnswerBudget(cache: Snapshot, ctx: Option<ActorContext>, l: Loop)
    requires Covered(cache, l) && l.queue != [] && l.queue[0].GetSnapshot?
    ensures var l' := l.(queue := l.queue[1..], reply := Some(Reply(cache, ctx)));
            Covered(cache, l') && Budget(cache, l') <= Budget(cache, l)
  {
    if l.pc.AwaitRefresh? {
      SubsetCard(cache.Keys, l.pc.round.snapshot.Keys);
      AfterRoundMonotone(|cache|, |l.pc.round.snapshot|, l);
    }
  }

  lemma HandleShrinks(a: State, m: Message, io: Io)
    requires !m.SentRunTx?
    ensures Handle(a, m, io).cache.Keys <= a.cache.Keys
  {
  }

  lemma CacheShrinks(s: System, e: Event)
    requires Winding(e)
    ensures Apply(s, e).actor.cache.Keys <= s.actor.cache.Keys
  {
    match e {
      case Deliver(m, io) => HandleShrinks(s.actor, m, io);
      case _ =>
    }
  }

  lemma TouchedBudget(cache: Snapshot, l: Loop, l': Loop)
    requires Covered(cache, l) && Touched(l, l')
    ensures Covered(cache, l') && Budget(cache, l') == Budget(cache, l)
  {
  }

  /** The actor takes a request from loop `c`. */
  lemma FlushBudget(s: System, c: nat, nowMs: nat)
    requires Receives(s, c) && Covered(s.actor.cache, s.loops[c])
    ensures var s' := FlushTo(s, c, nowMs);
            Covered(s'.actor.cache, s'.loops[c]) &&
            Budget(s'.actor.cache, s'.loops[c]) <= Budget(s.actor.cache, s.loops[c])
  {
    var l, s' := s.loops[c], FlushTo(s, c, nowMs);
    if l.queue[0].GetSnapshot? {
      AnswerBudget(s.actor.cache, s.actor.ctx, l);
    } else {
      ShrinkBudget(s.actor.cache, s'.actor.cache, l);
    }
  }

  lemma BudgetOthers(s: System, e: Event, c: nat)
    requires c in s.loops && Covered(s.actor.cache, s.loops[c]) && Winding(e)
    requires !(e.LoopStep? && e.channel == c)
    ensures c in Apply(s, e).loops && Covered(Apply(s, e).actor.cache, Apply(s, e).loops[c])
    ensures Budget(Apply(s, e).actor.cache, Apply(s, e).loops[c]) <= Budget(s.actor.cache, s.loops[c])
  {
    if e.Flush? && e.channel == c && Receives(s, c) {
      FlushBudget(s, c, e.nowMs);
    } else {
      CacheShrinks(s, e);
      ShrinkBudget(s.actor.cache, Apply(s, e).actor.cache, s.loops[c]);
      Frame(s, e, c);
      TouchedBudget(Apply(s, e).actor.cache, s.loops[c], Apply(s, e).loops[c]);
    }
  }

  lemma BudgetStep(s: System, e: Event, c: nat)
    requires c in s.loops && Covered(s.actor.cache, s.loops[c]) && Winding(e)
    ensures c in Apply(s, e).loops && Covered(Apply(s, e).actor.cache, Apply(s, e).loops[c])
    ensures Budget(Apply(s, e).actor.cache, Apply(s, e).loops[c]) + (if BeginsRound(s, e, c) then 1 else 0)
            <= Budget(s.actor.cache, s.loops[c])
  {
    if e.LoopStep? && e.channel == c {
      AdvanceBudget(s.actor.cache, s.loops[c], e.input);
    } else {
      BudgetOthers(s, e, c);
    }
  }

  lemma BudgetIsNatural(cache: Snapshot, l: Loop)
    requires Covered(cache, l)
    ensures Budget(cache, l) >= 0
  {
    if !l.pc.Exited? {
      AfterRoundMonotone(0, |cache|, l);
      if MidRound(l.pc) {
        AfterRoundMonotone(0, |l.pc.round.snapshot|, l);
      }
      if l.reply.Some? {
        AfterRoundMonotone(0, |l.reply.value.snapshot|, l);
      }
    }
  }

  lemma PatientAdvance(l: Loop, input: Input)
    requires Patient(l)
    ensures Patient(Advance(l, input))
  {
  }

  lemma PatientStep(s: System, e: Event, c: nat)
    requires c in Apply(s, e).loops && (c in s.loops ==> Patient(s.loops[c]))
    ensures Patient(Apply(s, e).loops[c])
  {
    if e.LoopStep? && e.channel == c {
      PatientAdvance(s.loops[c], e.input);
    } else if c in s.loops && !(e.Flush? && e.channel == c && Receives(s, c)) {
      Frame(s, e, c);
    }
  }

  // ---- A round that was under way before the cancellation ----

  /** A loop after its cancellation, in any position. */
  predicate Finishing(l: Loop) {
    Shape(l) && l.cancelled && Patient(l)
  }

  function EntersNow(l: Loop): nat {
    if Enters(l) then 1 else 0
  }

  /** The loop's next step is to enter a round with a snapshot of other transactions than those cached. */
  predicate EntersOutdated(cache: Snapshot, l: Loop) {
    Enters(l) && l.reply.value.snapshot != map[] && l.reply.value.snapshot.Keys != cache.Keys
  }

  function Extra(cache: Snapshot, l: Loop): nat {
    if EntersOutdated(cache, l) then 1 else 0
  }

  /**
   The loop still works on a snapshot from before the start and has begun at most `extra` rounds, or is
   about to exit on an empty one, or every snapshot it holds covers the cache and the budget counts.
   */
  ghost predicate Bounded(cache: Snapshot, l: Loop, begun: nat, n: nat, extra: nat) {
    && Finishing(l) && |cache| <= n
    && (|| (HoldsSnapshot(l) && begun + EntersNow(l) <= extra)
        || (Enters(l) && l.reply.value.snapshot == map[] && begun == 0)
        || (Covered(cache, l) && begun + Budget(cache, l) <= 6 * n + 1 + extra))
  }

  /** An old round stays one, or it ends and the budget starts. */
  lemma OldAdvance(cache: Snapshot, l: Loop, input: Input)
    requires Finishing(l) && HoldsSnapshot(l)
    ensures var l' := Advance(l, input);
            Finishing(l') &&
            (|| (HoldsSnapshot(l') && !Enters(l'))
             || (Covered(cache, l') && Budget(cache, l') <= 6 * |cache| + 1))
  {
    ShapeAdvance(l, input);
    PatientAdvance(l, input);
  }

  lemma OldTouched(l: Loop, l': Loop)
    requires Finishing(l) && HoldsSnapshot(l) && Touched(l, l')
    ensures Finishing(l') && HoldsSnapshot(l') && Enters(l') == Enters(l)
    ensures Enters(l) ==> l'.reply == l.reply
  {
  }

  lemma OldFlush(s: System, c: nat, nowMs: nat)
    requires Receives(s, c) && Finishing(s.loops[c]) && HoldsSnapshot(s.loops[c])
    ensures var l := FlushTo(s, c, nowMs).loops[c];
            && Finishing(l) && HoldsSnapshot(l) && Enters(l) == Enters(s.loops[c])
            && (Enters(l) ==> l.reply == s.loops[c].reply)
  {
  }

  lemma OldStep(s: System, e: Event, c: nat)
    requires c in s.loops && Finishing(s.loops[c]) && HoldsSnapshot(s.loops[c])
    requires !(e.LoopStep? && e.channel == c)
    ensures c in Apply(s, e).loops
    ensures var l := Apply(s, e).loops[c];
            && Finishing(l) && HoldsSnapshot(l) && Enters(l) == Enters(s.loops[c])
            && (Enters(l) ==> l.reply == s.loops[c].reply)
  {
    if e.Flush? && e.channel == c && Receives(s, c) {
      OldFlush(s, c, e.nowMs);
    } else {
      Frame(s, e, c);
      OldTouched(s.loops[c], Apply(s, e).loops[c]);
    }
  }

  lemma BoundedStep(s: System, e: Event, c: nat, begun: nat, n: nat, extra: nat)
    requires c in s.loops && Winding(e) && Bounded(s.actor.cache, s.loops[c], begun, n, extra)
    ensures c in Apply(s, e).loops
    ensures Bounded(Apply(s, e).actor.cache, Apply(s, e).loops[c],
                    begun + (if BeginsRound(s, e, c) then 1 else 0), n, extra)
  {
    CacheShrinks(s, e);
    SubsetCard(Apply(s, e).actor.cache.Keys, s.actor.cache.Keys);
    if HoldsSnapshot(s.loops[c]) && begun + EntersNow(s.loops[c]) <= extra {
      if e.LoopStep? && e.channel == c {
        OldAdvance(s.actor.cache, s.loops[c], e.input);
      } else {
        OldStep(s, e, c);
      }
    } else if Enters(s.loops[c]) && s.loops[c].reply.value.snapshot == map[] && begun == 0 {
      if e.LoopStep? && e.channel == c {
        ExitsOnEmpty(s.actor.cache, s.loops[c], e.input);
      } else {
        OldStep(s, e, c);
      }
    } else {
      BudgetStep(s, e, c);
    }
  }

  lemma ExitsOnEmpty(cache: Snapshot, l: Loop, input: Input)
    requires Finishing(l) && Enters(l) && l.reply.value.snapshot == map[]
    ensures var l' := Advance(l, input);
            Finishing(l') && Covered(cache, l') && Budget(cache, l') == 0
  {
    ShapeAdvance(l, input);
  }

  lemma BoundedStart(cache: Snapshot, l: Loop)
    requires Finishing(l)
    ensures Bounded(cache, l, 0, |cache|, Extra(cache, l))
  {
    if Enters(l) && l.reply.value.snapshot.Keys == cache.Keys {
      SubsetCard(l.reply.value.snapshot.Keys, cache.Keys);
      SubsetCard(cache.Keys, l.reply.value.snapshot.Keys);
    }
  }

  lemma {:induction false} BoundedRun(s: System, es: seq<Event>, c: nat)
    requires c in s.loops && Finishing(s.loops[c])
    requires forall i | 0 <= i < |es| :: Winding(es[i])
    ensures c in After(s, es).loops
    ensures Bounded(After(s, es).actor.cache, After(s, es).loops[c], Rounds(s, es, c), |s.actor.cache|,
                    Extra(s.actor.cache, s.loops[c]))
    decreases |es|
  {
    if es == [] {
      BoundedStart(s.actor.cache, s.loops[c]);
    } else {
      BoundedRun(s, es[..|es| - 1], c);
      BoundedStep(After(s, es[..|es| - 1]), es[|es| - 1], c, Rounds(s, es[..|es| - 1], c), |s.actor.cache|,
                  Extra(s.actor.cache, s.loops[c]));
    }
  }

  /**
   A cancelled loop in any position, N transactions pending, no further sends and no new context: at
   most 6N + 1 rounds in any run, and one more if the loop is just about to enter a round with an outdated
   snapshot.  A loop that has used them up has exited or is in its last round, from which it does not
   come back.
   */
  lemma ExitsWithin(s: System, es: seq<Event>, c: nat)
    requires c in s.loops && Shape(s.loops[c]) && s.loops[c].cancelled && Patient(s.loops[c])
    requires forall i | 0 <= i < |es| :: Winding(es[i])
    ensures Rounds(s, es, c) <= 6 * |s.actor.cache| + 1 + Extra(s.actor.cache, s.loops[c])
    ensures c in After(s, es).loops
    ensures Rounds(s, es, c) == 6 * |s.actor.cache| + 1 + Extra(s.actor.cache, s.loops[c]) ==>
              After(s, es).loops[c].pc.Exited? || MidRound(After(s, es).loops[c].pc)
  {
    BoundedRun(s, es, c);
    if Covered(After(s, es).actor.cache, After(s, es).loops[c]) {
      BudgetIsNatural(After(s, es).actor.cache, After(s, es).loops[c]);
    }
  }

  /** The bound on the stale counter that `ExitsWithin` asks for holds in every run. */
  lemma {:induction false} StaleIsBounded(es: seq<Event>, c: nat)
    requires c in After(BOOT, es).loops
    ensures Patient(After(BOOT, es).loops[c])
    decreases |es|
  {
    if es != [] {
      var prefix := es[..|es| - 1];
      if c in After(BOOT, prefix).loops {
        StaleIsBounded(prefix, c);
      }
      PatientStep(After(BOOT, prefix), es[|es| - 1], c);
    }
  }
}
