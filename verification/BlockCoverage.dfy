/**
 Which blocks the flush loops of a session process.  Between context initialisations the actor's target
 block never decreases, and the blocks that all loops together process are strictly increasing; if none
 fails they are exactly the target, the next one, and so on, although rounds may break off early and a
 loop's own target jumps to the chain head.  Loops may be spawned, cancelled and replaced, as long as a
 replacement finds the installed loop without a block it can still process and without a removal on its
 way.
 */
module BlockCoverage {
  import opened Options
  import opened TxActor
  import opened FlushProtocol

  predicate KeepsContext(e: Event) {
    !(e.Deliver? && e.message.InitCtx?)
  }

  /** The event is a step of loop `c` that processes a block without error. */
  predicate Lands(s: System, e: Event, c: nat) {
    e.LoopStep? && e.channel == c && c in s.loops && Processes(s.loops[c]) && Succeeds(s.loops[c], e.input)
  }

  /** The blocks that loop `c` processes successfully during `es`, in order. */
  function Blocks(s: System, es: seq<Event>, c: nat): seq<nat>
    decreases |es|
  {
    if es == [] then []
    else
      var before, e := After(s, es[..|es| - 1]), es[|es| - 1];
      Blocks(s, es[..|es| - 1], c) + if Lands(before, e, c) then [before.loops[c].pc.bn] else []
  }

  // ---- The target never decreases ----

  predicate Grows(ctx: Option<ActorContext>, ctx': Option<ActorContext>) {
    && (ctx.Some? <==> ctx'.Some?)
    && (ctx.Some? ==> ctx'.value.targetBlock >= ctx.value.targetBlock)
  }

  lemma HandleGrows(a: State, m: Message, io: Io)
    requires !m.InitCtx?
    ensures Handle(a, m, io).ctx == a.ctx
  {
  }

  lemma TargetStep(s: System, e: Event)
    requires KeepsContext(e)
    ensures Grows(s.actor.ctx, Apply(s, e).actor.ctx)
    ensures !e.Flush? ==> Apply(s, e).actor.ctx == s.actor.ctx
  {
    match e {
      case Deliver(m, io) => HandleGrows(s.actor, m, io);
      case _ =>
    }
  }

  lemma {:induction false} TargetNeverDecreases(s: System, es: seq<Event>)
    requires s.actor.ctx.Some?
    requires forall i | 0 <= i < |es| :: KeepsContext(es[i])
    ensures After(s, es).actor.ctx.Some?
    ensures After(s, es).actor.ctx.value.targetBlock >= s.actor.ctx.value.targetBlock
    decreases |es|
  {
    if es != [] {
      TargetNeverDecreases(s, es[..|es| - 1]);
      TargetStep(After(s, es[..|es| - 1]), es[|es| - 1]);
    }
  }

  // ---- No block twice ----

  /** A removal on its way to the actor that will lift the target to at least `floor`. */
  predicate Lifts(l: Loop, floor: nat) {
    || (l.pc.Recorded? && l.pc.bn + 1 >= floor)
    || (l.queue != [] && l.queue[0].RemoveConfirmed? && l.queue[0].newTarget >= floor)
  }

  /** Whatever the loop processes next has a number of at least `floor`. */
  predicate Above(l: Loop, ctx: Option<ActorContext>, floor: nat) {
    && Shape(l)
    && (l.pc.AtBlock? ==> l.pc.bn >= floor)
    && (InRound(l.pc) ==> l.pc.bn + 1 >= floor)
    && (l.pc.AwaitRound? && l.reply.Some? && l.reply.value.ctx.Some? ==>
          l.reply.value.ctx.value.targetBlock >= floor)
    && (l.link.Dropped? || Lifts(l, floor) || (ctx.Some? ==> ctx.value.targetBlock >= floor))
  }

  /** The block that a step processes without error, if any, raises the floor. */
  function Raise(l: Loop, input: Input, floor: nat): nat {
    if Processes(l) && Succeeds(l, input) then l.pc.bn + 1 else floor
  }

  lemma AboveResume(l: Loop, ctx: Option<ActorContext>, floor: nat)
    requires Above(l, ctx, floor) && Awaits(l.pc) && l.reply.Some?
    ensures Above(Resume(l.(reply := None), l.reply.value), ctx, floor)
  {
  }

  lemma AboveAdvance(l: Loop, ctx: Option<ActorContext>, input: Input, floor: nat)
    requires Above(l, ctx, floor)
    ensures Above(Advance(l, input), ctx, Raise(l, input, floor))
  {
    ShapeAdvance(l, input);
    if Awaits(l.pc) && l.reply.Some? {
      AboveResume(l, ctx, floor);
    }
  }

  lemma AboveTouched(l: Loop, l': Loop, ctx: Option<ActorContext>, ctx': Option<ActorContext>, floor: nat)
    requires Above(l, ctx, floor) && Touched(l, l') && Grows(ctx, ctx')
    ensures Above(l', ctx', floor)
  {
  }

  lemma AboveFlush(s: System, c: nat, nowMs: nat, floor: nat)
    requires Receives(s, c) && Above(s.loops[c], s.actor.ctx, floor)
    ensures Above(FlushTo(s, c, nowMs).loops[c], FlushTo(s, c, nowMs).actor.ctx, floor)
  {
  }

  lemma AboveStep(s: System, e: Event, c: nat, floor: nat)
    requires c in s.loops && Above(s.loops[c], s.actor.ctx, floor) && KeepsContext(e)
    ensures c in Apply(s, e).loops
    ensures Above(Apply(s, e).loops[c], Apply(s, e).actor.ctx,
                  if Lands(s, e, c) then s.loops[c].pc.bn + 1 else floor)
  {
    if e.LoopStep? && e.channel == c {
      AboveAdvance(s.loops[c], s.actor.ctx, e.input, floor);
    } else if e.Flush? && e.channel == c && Receives(s, c) {
      AboveFlush(s, c, e.nowMs, floor);
    } else {
      TargetStep(s, e);
      Frame(s, e, c);
      AboveTouched(s.loops[c], Apply(s, e).loops[c], s.actor.ctx, Apply(s, e).actor.ctx, floor);
    }
  }

  predicate Increasing(bs: seq<nat>, floor: nat) {
    && (forall i, j | 0 <= i < j < |bs| :: bs[i] < bs[j])
    && (forall i | 0 <= i < |bs| :: bs[i] < floor)
  }

  lemma {:induction false} BlocksIncrease(s: System, es: seq<Event>, c: nat) returns (floor: nat)
    requires c in s.loops && Shape(s.loops[c])
    requires forall i | 0 <= i < |es| :: KeepsContext(es[i])
    ensures c in After(s, es).loops && Above(After(s, es).loops[c], After(s, es).actor.ctx, floor)
    ensures Increasing(Blocks(s, es, c), floor)
    decreases |es|
  {
    if es == [] {
      floor := 0;
    } else {
      var prefix, e := es[..|es| - 1], es[|es| - 1];
      var before := BlocksIncrease(s, prefix, c);
      AboveStep(After(s, prefix), e, c, before);
      floor := if Lands(After(s, prefix), e, c) then After(s, prefix).loops[c].pc.bn + 1 else before;
    }
  }

  /** Whatever else happens, as long as the context is kept no loop itself processes a block twice. */
  lemma OwnBlocksIncrease(s: System, es: seq<Event>, c: nat)
    requires c in s.loops && Shape(s.loops[c])
    requires forall i | 0 <= i < |es| :: KeepsContext(es[i])
    ensures forall i, j | 0 <= i < j < |Blocks(s, es, c)| :: Blocks(s, es, c)[i] < Blocks(s, es, c)[j]
  {
    var floor := BlocksIncrease(s, es, c);
  }

  // ---- The loops of a session ----

  /** The loop can process a block without asking the actor again. */
  predicate CanProcess(l: Loop) {
    || Processes(l)
    || (Enters(l) && !(l.cancelled && l.reply.value.snapshot == map[]))
    || (&& l.pc.AwaitRefresh? && l.reply.Some? && l.reply.value.ctx.Some? && l.reply.value.snapshot != map[]
        && l.pc.bn + 1 < l.pc.round.newBlock)
  }

  /** A block is processed and the actor's target does not know it yet. */
  predicate Lifting(l: Loop) {
    l.pc.Recorded? || (l.queue != [] && l.queue[0].RemoveConfirmed?)
  }

  predicate Busy(l: Loop) {
    CanProcess(l) || Lifting(l)
  }

  /** A replacement finds no installed loop busy. */
  predicate Orderly(s: System, e: Event) {
    Replaces(s, e) ==> forall c | c in s.loops && s.loops[c].link.Installed? :: !Busy(s.loops[c])
  }

  predicate AllOrderly(s: System, es: seq<Event>) {
    es != [] ==> AllOrderly(s, es[..|es| - 1]) && Orderly(After(s, es[..|es| - 1]), es[|es| - 1])
  }

  /** A loop that is not served and never processes a block, unless its receiver is installed. */
  predicate Waiting(l: Loop) {
    Shape(l) && Unserved(l) && !l.link.Installed? && !CanProcess(l)
  }

  /** Only the loop `active` can be served. */
  ghost predicate Session(s: System, active: nat) {
    && active in s.loops && Shape(s.loops[active]) && Unserved(s.loops[active])
    && (s.actor.status.Running? ==> s.loops[active].link.Installed?)
    && forall c | c in s.loops && c != active :: Waiting(s.loops[c])
  }

  lemma WaitingAdvance(l: Loop, input: Input)
    requires Waiting(l)
    ensures Waiting(Advance(l, input))
  {
    ShapeAdvance(l, input);
  }

  lemma WaitingTouched(l: Loop, l': Loop)
    requires Waiting(l) && Touched(l, l') && !l'.link.Installed?
    ensures Waiting(l')
  {
  }

  lemma ServedAdvance(l: Loop, input: Input)
    requires Shape(l) && Unserved(l)
    ensures Shape(Advance(l, input)) && Unserved(Advance(l, input)) && Advance(l, input).link == l.link
  {
    ShapeAdvance(l, input);
  }

  /** The loop that is active after the event. */
  function NextActive(s: System, e: Event, active: nat): nat {
    if Replaces(s, e) then e.message.channel else active
  }

  lemma WaitingStep(s: System, e: Event, active: nat, c: nat)
    requires Session(s, active) && Orderly(s, e)
    requires c in Apply(s, e).loops && c != NextActive(s, e, active)
    ensures Waiting(Apply(s, e).loops[c])
  {
    if c !in s.loops {
      assert Apply(s, e).loops[c] == NewLoop(InFlight);
    } else if c == active {
      assert Apply(s, e).loops[c] == DropReceiver(s.loops[c]);
    } else if e.LoopStep? && e.channel == c {
      WaitingAdvance(s.loops[c], e.input);
    } else {
      Frame(s, e, c);
      WaitingTouched(s.loops[c], Apply(s, e).loops[c]);
    }
  }

  lemma ActiveStep(s: System, e: Event, active: nat)
    requires Session(s, active)
    ensures var a, s' := NextActive(s, e, active), Apply(s, e);
            && a in s'.loops && Shape(s'.loops[a]) && Unserved(s'.loops[a])
            && (s'.actor.status.Running? ==> s'.loops[a].link.Installed?)
  {
    if e.LoopStep? && e.channel == active {
      ServedAdvance(s.loops[active], e.input);
    } else if !Replaces(s, e) && !(e.Flush? && e.channel == active && Receives(s, active)) {
      Frame(s, e, active);
    }
  }

  lemma SessionStep(s: System, e: Event, active: nat)
    requires Session(s, active) && Orderly(s, e)
    ensures Session(Apply(s, e), NextActive(s, e, active))
  {
    ActiveStep(s, e, active);
    forall c | c in Apply(s, e).loops && c != NextActive(s, e, active) ensures Waiting(Apply(s, e).loops[c]) {
      WaitingStep(s, e, active, c);
    }
  }

  /** Every run with orderly replacements has one active loop at a time. */
  lemma {:induction false} SessionHolds(es: seq<Event>) returns (active: nat)
    requires AllOrderly(BOOT, es)
    ensures Session(After(BOOT, es), active)
    decreases |es|
  {
    active := 0;
    if es != [] {
      var s, e := After(BOOT, es[..|es| - 1]), es[|es| - 1];
      active := SessionHolds(es[..|es| - 1]);
      SessionStep(s, e, active);
      active := NextActive(s, e, active);
    }
  }

  // ---- The blocks of all loops ----

  /** Some loop processes a block without error. */
  predicate LandsAny(s: System, e: Event) {
    e.LoopStep? && Lands(s, e, e.channel)
  }

  /** The blocks that all loops process successfully during `es`, in order. */
  function AllBlocks(s: System, es: seq<Event>): seq<nat>
    decreases |es|
  {
    if es == [] then []
    else
      var before, e := After(s, es[..|es| - 1]), es[|es| - 1];
      AllBlocks(s, es[..|es| - 1]) + if LandsAny(before, e) then [before.loops[e.channel].pc.bn] else []
  }

  lemma OnlyActiveLands(s: System, e: Event, active: nat)
    requires Session(s, active)
    ensures LandsAny(s, e) <==> Lands(s, e, active)
  {
    if e.LoopStep? && e.channel in s.loops && e.channel != active {
      assert Waiting(s.loops[e.channel]);
    }
  }

  ghost predicate SessionAbove(s: System, active: nat, floor: nat) {
    Session(s, active) && Above(s.loops[active], s.actor.ctx, floor)
  }

  function NextFloor(s: System, e: Event, floor: nat): nat {
    if LandsAny(s, e) then s.loops[e.channel].pc.bn + 1 else floor
  }

  lemma AboveReplaced(s: System, e: Event, active: nat, floor: nat)
    requires SessionAbove(s, active, floor) && Replaces(s, e) && Orderly(s, e)
    ensures Above(Apply(s, e).loops[e.message.channel], Apply(s, e).actor.ctx, floor)
  {
    assert s.loops[active].link.Installed? && !Lifts(s.loops[active], floor);
    assert Apply(s, e).actor.ctx == s.actor.ctx;
  }

  lemma SessionAboveStep(s: System, e: Event, active: nat, floor: nat)
    requires SessionAbove(s, active, floor) && Orderly(s, e) && KeepsContext(e)
    ensures SessionAbove(Apply(s, e), NextActive(s, e, active), NextFloor(s, e, floor))
    ensures LandsAny(s, e) ==> s.loops[e.channel].pc.bn >= floor
  {
    SessionStep(s, e, active);
    OnlyActiveLands(s, e, active);
    if Replaces(s, e) {
      AboveReplaced(s, e, active, floor);
    } else {
      AboveStep(s, e, active, floor);
    }
  }

  lemma {:induction false} AllBlocksIncrease(s: System, es: seq<Event>, active: nat) returns (active': nat, floor: nat)
    requires Session(s, active) && AllOrderly(s, es)
    requires forall i | 0 <= i < |es| :: KeepsContext(es[i])
    ensures SessionAbove(After(s, es), active', floor)
    ensures Increasing(AllBlocks(s, es), floor)
    decreases |es|
  {
    active', floor := active, 0;
    if es != [] {
      var t, e := After(s, es[..|es| - 1]), es[|es| - 1];
      active', floor := AllBlocksIncrease(s, es[..|es| - 1], active);
      SessionAboveStep(t, e, active', floor);
      active', floor := NextActive(t, e, active'), NextFloor(t, e, floor);
    }
  }

  ghost predicate Rising(bs: seq<nat>) {
    forall i, j | 0 <= i < j < |bs| :: bs[i] < bs[j]
  }

  /**
   From any state of a session on, as long as the context is kept and replacements are orderly, the
   blocks that all loops process without error are strictly increasing: none is processed twice.
   */
  lemma NoBlockTwice(s: System, es: seq<Event>, active: nat)
    requires Session(s, active) && AllOrderly(s, es)
    requires forall i | 0 <= i < |es| :: KeepsContext(es[i])
    ensures Rising(AllBlocks(s, es))
  {
    var active', floor := AllBlocksIncrease(s, es, active);
  }

  // ---- Contiguous blocks ----

  /** The next block the loop will process is `next`, wherever the loop stands. */
  predicate Due(l: Loop, target: nat, next: nat) {
    && Shape(l)
    && (Processes(l) ==> l.pc.bn == next)
    && (InRound(l.pc) ==> l.pc.bn + 1 == next)
    && (Enters(l) ==> l.reply.value.ctx.value.targetBlock == next)
    && target <= next
    && (l.link.Dropped? || Lifts(l, next) || target == next)
  }

  /** A step of the loop in which no block fails. */
  predicate SmoothInput(l: Loop, input: Input) {
    Processes(l) ==> Succeeds(l, input)
  }

  lemma DueResume(l: Loop, target: nat, next: nat)
    requires Due(l, target, next) && Awaits(l.pc) && l.reply.Some?
    ensures Due(Resume(l.(reply := None), l.reply.value), target, next)
  {
  }

  lemma DueAdvance(l: Loop, target: nat, input: Input, next: nat)
    requires Due(l, target, next) && SmoothInput(l, input)
    ensures Due(Advance(l, input), target, if Processes(l) then next + 1 else next)
  {
    ShapeAdvance(l, input);
    if Awaits(l.pc) && l.reply.Some? {
      DueResume(l, target, next);
    }
  }

  lemma DueTouched(l: Loop, l': Loop, target: nat, next: nat)
    requires Due(l, target, next) && Touched(l, l')
    ensures Due(l', target, next)
  {
  }

  lemma DueFlush(s: System, c: nat, nowMs: nat, next: nat)
    requires Receives(s, c) && s.actor.ctx.Some? && Due(s.loops[c], s.actor.ctx.value.targetBlock, next)
    ensures var s' := FlushTo(s, c, nowMs);
            s'.actor.ctx.Some? && Due(s'.loops[c], s'.actor.ctx.value.targetBlock, next)
  {
  }

  /** A session with a context and a block that is due. */
  ghost predicate SessionDue(s: System, active: nat, next: nat) {
    Session(s, active) && s.actor.ctx.Some? && Due(s.loops[active], s.actor.ctx.value.targetBlock, next)
  }

  /** Neither a new context, nor a block that fails. */
  predicate Smooth(s: System, e: Event) {
    && KeepsContext(e)
    && (e.LoopStep? && e.channel in s.loops ==> SmoothInput(s.loops[e.channel], e.input))
  }

  predicate AllSmooth(s: System, es: seq<Event>) {
    es != [] ==> AllSmooth(s, es[..|es| - 1]) && Smooth(After(s, es[..|es| - 1]), es[|es| - 1])
  }

  lemma DueReplaced(s: System, e: Event, active: nat, next: nat)
    requires SessionDue(s, active, next) && Replaces(s, e) && Orderly(s, e)
    ensures var s' := Apply(s, e);
            s'.actor.ctx == s.actor.ctx && Due(s'.loops[e.message.channel], s.actor.ctx.value.targetBlock, next)
  {
    assert s.loops[active].link.Installed? && !Lifts(s.loops[active], next);
  }

  /** The block that is due moves on exactly when it is processed. */
  lemma DueStep(s: System, e: Event, active: nat, next: nat)
    requires SessionDue(s, active, next) && Smooth(s, e) && Orderly(s, e)
    ensures SessionDue(Apply(s, e), NextActive(s, e, active), if LandsAny(s, e) then next + 1 else next)
    ensures LandsAny(s, e) ==> s.loops[e.channel].pc.bn == next
  {
    SessionStep(s, e, active);
    OnlyActiveLands(s, e, active);
    TargetStep(s, e);
    if Replaces(s, e) {
      DueReplaced(s, e, active, next);
    } else {
      ActiveDue(s, e, active, next);
    }
  }

  lemma ActiveDue(s: System, e: Event, active: nat, next: nat)
    requires SessionDue(s, active, next) && Smooth(s, e) && !Replaces(s, e)
    ensures var s' := Apply(s, e);
            && active in s'.loops && s'.actor.ctx.Some?
            && Due(s'.loops[active], s'.actor.ctx.value.targetBlock, if Lands(s, e, active) then next + 1 else next)
  {
    TargetStep(s, e);
    if e.LoopStep? && e.channel == active {
      DueAdvance(s.loops[active], s.actor.ctx.value.targetBlock, e.input, next);
    } else if e.Flush? && e.channel == active && Receives(s, active) {
      DueFlush(s, active, e.nowMs, next);
    } else {
      Frame(s, e, active);
      DueTouched(s.loops[active], Apply(s, e).loops[active], s.actor.ctx.value.targetBlock, next);
      assert e.Flush? ==> Apply(s, e) == s;
    }
  }

  ghost predicate Contiguous(bs: seq<nat>, first: nat) {
    forall i | 0 <= i < |bs| :: bs[i] == first + i
  }

  /** From wherever the active loop stands, the processed blocks are contiguous from the one that is due. */
  lemma {:induction false} ContiguousFrom(s: System, es: seq<Event>, active: nat, first: nat) returns (active': nat)
    requires SessionDue(s, active, first) && AllSmooth(s, es) && AllOrderly(s, es)
    ensures SessionDue(After(s, es), active', first + |AllBlocks(s, es)|)
    ensures Contiguous(AllBlocks(s, es), first)
    decreases |es|
  {
    active' := active;
    if es != [] {
      var t, e := After(s, es[..|es| - 1]), es[|es| - 1];
      active' := ContiguousFrom(s, es[..|es| - 1], active, first);
      DueStep(t, e, active', first + |AllBlocks(s, es[..|es| - 1])|);
      active' := NextActive(t, e, active');
    }
  }

  /** The loop has taken no target from an earlier context into a round. */
  predicate Between(l: Loop) {
    !Processes(l) && !InRound(l.pc) && !Enters(l)
  }

  lemma TargetIsDue(s: System, active: nat)
    requires Session(s, active) && s.actor.ctx.Some? && Between(s.loops[active])
    ensures SessionDue(s, active, s.actor.ctx.value.targetBlock)
  {
  }

  /**
   For a context that arrives while the active loop is between rounds, wherever it waits, and a run
   without a failed block: the blocks that all loops process are contiguous from the actor's target.
   */
  lemma BlocksAreContiguous(s: System, es: seq<Event>, active: nat)
    requires Session(s, active) && s.actor.ctx.Some? && Between(s.loops[active])
    requires AllSmooth(s, es) && AllOrderly(s, es)
    ensures Contiguous(AllBlocks(s, es), s.actor.ctx.value.targetBlock)
  {
    TargetIsDue(s, active);
    var active' := ContiguousFrom(s, es, active, s.actor.ctx.value.targetBlock);
  }

  /** A loop that has exited is not busy, so a restart after the flush is complete is orderly. */
  lemma RestartIsOrderly(s: System, e: Event)
    requires Shapes(s)
    requires forall c | c in s.loops && s.loops[c].link.Installed? :: s.loops[c].pc.Exited?
    ensures Orderly(s, e)
  {
  }
}
