/**
 When a flush loop exits.  A loop whose receiver is in place exits only after it is cancelled, and then
 exactly on an empty snapshot at one of its checks, or when the blocks of successive rounds over an
 unchanged, positive pending count add up to six; a loop whose receiver is dropped exits at its next
 request as well.
 */
module Exits {
  import opened Options
  import opened FlushProtocol
  import opened Scenes

  // ---- Only cancelled or dropped loops exit ----

  /** The check for an empty cache is for cancelled loops, and so is every exit with a receiver in place. */
  predicate Entitled(l: Loop) {
    && (l.pc.AwaitEmpty? ==> l.cancelled)
    && (l.pc.Exited? ==> l.cancelled || l.link.Dropped?)
  }

  lemma EntitledAdvance(l: Loop, input: Input)
    requires Entitled(l)
    ensures Entitled(Advance(l, input))
  {
  }

  lemma EntitledStep(s: System, e: Event, c: nat)
    requires c in Apply(s, e).loops && (c in s.loops ==> Entitled(s.loops[c]))
    ensures Entitled(Apply(s, e).loops[c])
  {
    if e.LoopStep? && e.channel == c {
      EntitledAdvance(s.loops[c], e.input);
    } else if c in s.loops && !(e.Flush? && e.channel == c && Receives(s, c)) {
      Frame(s, e, c);
    }
  }

  /** In every run a loop that has exited was cancelled, or its receiver was dropped. */
  lemma {:induction false} ExitedIsEntitled(es: seq<Event>, c: nat)
    requires c in After(BOOT, es).loops
    ensures Entitled(After(BOOT, es).loops[c])
    ensures After(BOOT, es).loops[c].pc.Exited? ==>
              After(BOOT, es).loops[c].cancelled || After(BOOT, es).loops[c].link.Dropped?
    decreases |es|
  {
    if es != [] {
      var prefix := es[..|es| - 1];
      if c in After(BOOT, prefix).loops {
        ExitedIsEntitled(prefix, c);
      }
      EntitledStep(After(BOOT, prefix), es[|es| - 1], c);
    }
  }

  // ---- Exactly when a step exits ----

  /** The actor has answered one of the checks with an empty snapshot. */
  predicate EmptyAtCheck(l: Loop) {
    && l.reply.Some? && l.reply.value.snapshot == map[]
    && (|| l.pc.AwaitEmpty?
        || (&& l.pc.AwaitRound? && l.reply.value.ctx.Some?
            && l.reply.value.ctx.value.targetBlock < l.pc.newBlock)
        || (l.pc.AwaitRefresh? && l.reply.value.ctx.Some?))
  }

  /** The loop is at the end of a round over pending transactions, and has been stale for long enough. */
  predicate StaleAtEnd(l: Loop) {
    && l.pc.Closing? && l.pc.round.snapshot != map[]
    && var blocks := if l.pc.round.newBlock > l.pc.round.start then l.pc.round.newBlock - l.pc.round.start else 1;
    && l.lastPending == Some(|l.pc.round.snapshot|) && l.stale + blocks >= 6
  }

  /** The step sends a request for a snapshot. */
  predicate Requests(l: Loop, input: Input) {
    || l.pc.Starting? || l.pc.Removing?
    || (l.pc.Top? && input.head.Some? && (l.target < input.head.value || l.cancelled))
  }

  /** Exactly when a loop that still runs exits at a step. */
  lemma ExitsExactly(l: Loop, input: Input)
    requires Shape(l) && Entitled(l) && !l.pc.Exited? && l.stale < 6
    ensures !l.link.Dropped? ==>
              (Advance(l, input).pc.Exited? <==> l.cancelled && (EmptyAtCheck(l) || StaleAtEnd(l)))
    ensures l.link.Dropped? ==>
              (Advance(l, input).pc.Exited? <==>
                || (l.cancelled && (EmptyAtCheck(l) || StaleAtEnd(l)))
                || Requests(l, input)
                || (l.reply.None? && (l.pc.AwaitContext? || l.pc.AwaitRound?)))
  {
    if l.pc.Closing? {
      ClosesExactly(l, l.pc.round);
    } else if Awaits(l.pc) {
      AwaitsExactly(l, input);
    }
  }

  lemma ClosesExactly(l: Loop, r: Round)
    requires l.pc == Closing(r) && l.stale < 6
    ensures Close(l, r).pc.Exited? <==> l.cancelled && StaleAtEnd(l)
  {
  }

  lemma AwaitsExactly(l: Loop, input: Input)
    requires Shape(l) && Entitled(l) && Awaits(l.pc)
    ensures Advance(l, input).pc.Exited? <==>
              || (l.cancelled && EmptyAtCheck(l))
              || (l.link.Dropped? && l.reply.None? && (l.pc.AwaitContext? || l.pc.AwaitRound?))
  {
  }

  /** With nothing pending, a cancelled loop at the top exits with its next request, whatever block it sees. */
  lemma NothingPendingExits(s: System, c: nat, head: nat) returns (es: seq<Event>)
    requires c in s.loops && s.actor.status.Running? && s.actor.cache == map[]
    requires s.loops[c].pc.Top? && s.loops[c].cancelled && s.loops[c].link.Installed? && Shape(s.loops[c])
    requires head <= s.loops[c].target || (s.actor.ctx.Some? && s.actor.ctx.value.targetBlock < head)
    ensures Internal(es) && es != [] && es[0] == LoopStep(c, Input(Some(head), map[], 0, true)) && |es| == 3
    ensures c in After(s, es).loops && After(s, es).loops[c].pc.Exited?
  {
    var l, input := s.loops[c], Input(Some(head), map[], 0, true);
    var pc := if head <= l.target then AwaitEmpty else AwaitRound(head);
    assert l.queue + [GetSnapshot] == [GetSnapshot];
    StepPut(s, c, input);
    var l1 := l.(pc := pc, queue := [GetSnapshot]);
    AnswerPut(Put(s, c, l1), c);
    var l2 := l.(pc := pc, queue := [], reply := Some(Reply(s.actor.cache, s.actor.ctx)));
    PutPut(s, c, l1, l2);
    StepPut(Put(s, c, l2), c, Idle(c).input);
    es := [LoopStep(c, input), Flush(c, 0)] + [Idle(c)];
    AfterTwo(s, LoopStep(c, input), Flush(c, 0));
    AfterSnoc(s, [LoopStep(c, input), Flush(c, 0)], Idle(c));
  }

  // ---- The stale counter, from the rounds of the run ----

  /** A round of a cancelled loop over pending transactions: how many, and over how many blocks. */
  datatype StaleRound = StaleRound(pending: nat, blocks: nat)

  predicate ClosesPending(s: System, e: Event, c: nat) {
    && e.LoopStep? && e.channel == c && c in s.loops
    && s.loops[c].pc.Closing? && s.loops[c].cancelled && s.loops[c].pc.round.snapshot != map[]
  }

  function RoundOf(r: Round): StaleRound {
    StaleRound(|r.snapshot|, if r.newBlock > r.start then r.newBlock - r.start else 1)
  }

  /** The rounds that loop `c` has closed over pending transactions since it was cancelled. */
  function ClosedRounds(es: seq<Event>, c: nat): seq<StaleRound>
    decreases |es|
  {
    if es == [] then []
    else
      var s, e := After(BOOT, es[..|es| - 1]), es[|es| - 1];
      ClosedRounds(es[..|es| - 1], c) + if ClosesPending(s, e, c) then [RoundOf(s.loops[c].pc.round)] else []
  }

  /** The blocks of the latest rounds whose pending count is that of the round before. */
  function UnchangedBlocks(rounds: seq<StaleRound>): nat
    decreases |rounds|
  {
    var n := |rounds| - 1;
    if n <= 0 || rounds[n].pending != rounds[n - 1].pending then 0
    else UnchangedBlocks(rounds[..n]) + rounds[n].blocks
  }

  predicate Counts(l: Loop, rounds: seq<StaleRound>) {
    && l.stale == UnchangedBlocks(rounds)
    && l.lastPending == if rounds == [] then None else Some(rounds[|rounds| - 1].pending)
  }

  lemma UnchangedSnoc(rounds: seq<StaleRound>, r: StaleRound)
    ensures UnchangedBlocks(rounds + [r]) ==
            if rounds != [] && rounds[|rounds| - 1].pending == r.pending then UnchangedBlocks(rounds) + r.blocks else 0
  {
    assert (rounds + [r])[..|rounds|] == rounds;
  }

  lemma CountsClose(l: Loop, r: Round, rounds: seq<StaleRound>)
    requires l.pc == Closing(r) && Counts(l, rounds)
    ensures l.cancelled && r.snapshot != map[] ==> Counts(Close(l, r), rounds + [RoundOf(r)])
    ensures !(l.cancelled && r.snapshot != map[]) ==> Counts(Close(l, r), rounds)
  {
    UnchangedSnoc(rounds, RoundOf(r));
  }

  lemma CountsAdvance(l: Loop, input: Input)
    requires !l.pc.Closing?
    ensures Advance(l, input).stale == l.stale && Advance(l, input).lastPending == l.lastPending
  {
  }

  lemma CountsStep(s: System, e: Event, c: nat, rounds: seq<StaleRound>)
    requires c in s.loops && Counts(s.loops[c], rounds)
    ensures c in Apply(s, e).loops
    ensures Counts(Apply(s, e).loops[c],
                   rounds + if ClosesPending(s, e, c) then [RoundOf(s.loops[c].pc.round)] else [])
  {
    if ClosesPending(s, e, c) {
      CountsClose(s.loops[c], s.loops[c].pc.round, rounds);
    } else {
      assert rounds + [] == rounds;
      if e.LoopStep? && e.channel == c {
        if s.loops[c].pc.Closing? {
          CountsClose(s.loops[c], s.loops[c].pc.round, rounds);
        } else {
          CountsAdvance(s.loops[c], e.input);
        }
      } else if !(e.Flush? && e.channel == c && Receives(s, c)) {
        Frame(s, e, c);
      }
    }
  }

  /** In every run the stale counter is what the closed rounds say. */
  lemma {:induction false} CountsHold(es: seq<Event>, c: nat)
    requires c in After(BOOT, es).loops
    ensures Counts(After(BOOT, es).loops[c], ClosedRounds(es, c))
    decreases |es|
  {
    if es != [] {
      var prefix, e := es[..|es| - 1], es[|es| - 1];
      if c in After(BOOT, prefix).loops {
        CountsHold(prefix, c);
        CountsStep(After(BOOT, prefix), e, c, ClosedRounds(prefix, c));
      } else {
        NoRounds(prefix, c);
      }
    }
  }

  lemma {:induction false} NoRounds(es: seq<Event>, c: nat)
    requires c !in After(BOOT, es).loops
    ensures ClosedRounds(es, c) == []
    decreases |es|
  {
    if es != [] {
      LoopsStay(After(BOOT, es[..|es| - 1]), es[|es| - 1], c);
      NoRounds(es[..|es| - 1], c);
    }
  }

  lemma LoopsStay(s: System, e: Event, c: nat)
    requires c !in Apply(s, e).loops
    ensures c !in s.loops
  {
  }

  /**
   In every run, the end of a round exits exactly if the loop is cancelled, transactions are pending, and
   the blocks of the latest rounds over an unchanged pending count come to at least six.
   */
  lemma StaleExitExactly(es: seq<Event>, c: nat, input: Input)
    requires c in After(BOOT, es).loops && After(BOOT, es).loops[c].pc.Closing?
    ensures var (s, e) := (After(BOOT, es), LoopStep(c, input));
            var l := s.loops[c];
            Apply(s, e).loops[c].pc.Exited? <==>
              l.cancelled && l.pc.round.snapshot != map[] && UnchangedBlocks(ClosedRounds(es + [e], c)) >= 6
  {
    var e := LoopStep(c, input);
    assert (es + [e])[..|es|] == es;
    AfterSnoc(BOOT, es, e);
    CountsHold(es + [e], c);
    ExitsIfStale(After(BOOT, es).loops[c], After(BOOT, es).loops[c].pc.round);
  }

  lemma ExitsIfStale(l: Loop, r: Round)
    requires l.pc == Closing(r)
    ensures Close(l, r).pc.Exited? <==> l.cancelled && r.snapshot != map[] && Close(l, r).stale >= 6
  {
  }

  // ---- When a loop at the top asks ----

  predicate Asks(l: Loop, head: nat) {
    !Advance(l, Input(Some(head), map[], 0, true)).pc.Top?
  }

  /** After a round the loop asks again for a block beyond the round and its target, or when it is cancelled. */
  lemma AsksAfterRound(l: Loop, r: Round, input: Input, head: nat)
    requires l.pc == Closing(r) && Advance(l, input).pc.Top?
    ensures Asks(Advance(l, input), head) <==> (head > r.newBlock && head > l.target) || l.cancelled
  {
  }

  /** After an answer without a round the loop asks again for a block beyond the answered target, or when cancelled. */
  lemma AsksAfterAnswer(l: Loop, input: Input, head: nat)
    requires (l.pc.AwaitContext? || l.pc.AwaitRound?) && l.reply.Some? && l.reply.value.ctx.Some?
    requires Advance(l, input).pc.Top?
    ensures Asks(Advance(l, input), head) <==> head > l.reply.value.ctx.value.targetBlock || l.cancelled
  {
  }

  /** A refreshed snapshot brings the actor's target with it, which the end of the round does not forget. */
  lemma AsksAfterRefresh(l: Loop, r: Round, bn: nat, input: Input, head: nat)
    requires l.pc == AwaitRefresh(r, bn) && l.reply.Some? && l.reply.value.ctx.Some?
    requires var closing := Advance(l, input); closing.pc.Closing? && Advance(closing, input).pc.Top?
    ensures Asks(Advance(Advance(l, input), input), head) <==>
              (head > r.newBlock && head > l.reply.value.ctx.value.targetBlock) || l.cancelled
  {
    assert Advance(l, input).pc.round.newBlock == r.newBlock;
  }
}
