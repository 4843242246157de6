/**
 The other half of block coverage: whenever a replacement of the flush receiver finds the installed loop
 busy, the loops can go on to process a block that is not larger than one processed before, without any
 failure.  So the blocks of a run keep increasing, and without failures stay contiguous, exactly if all
 its replacements are orderly.
 */
module BlockRaces {
  import opened TxActor
  import opened FlushProtocol
  import opened BlockCoverage
  import opened Scenes

  // ---- Blocks of a run in two parts ----

  lemma AllBlocksSnoc(s: System, es: seq<Event>, e: Event)
    ensures AllBlocks(s, es + [e]) ==
            AllBlocks(s, es) +
            if LandsAny(After(s, es), e) then [After(s, es).loops[e.channel].pc.bn] else []
  {
    assert (es + [e])[..|es|] == es;
  }

  lemma {:induction false} AllBlocksAppend(s: System, es: seq<Event>, fs: seq<Event>)
    ensures AllBlocks(s, es + fs) == AllBlocks(s, es) + AllBlocks(After(s, es), fs)
    decreases |fs|
  {
    if fs == [] {
      assert es + fs == es;
    } else {
      var n := |fs| - 1;
      assert es + fs == es + fs[..n] + [fs[n]] && fs == fs[..n] + [fs[n]];
      AllBlocksAppend(s, es, fs[..n]);
      AfterAppend(s, es, fs[..n]);
      AllBlocksSnoc(s, es + fs[..n], fs[n]);
      AllBlocksSnoc(After(s, es), fs[..n], fs[n]);
    }
  }

  predicate EndsWith(bs: seq<nat>, b: nat) {
    bs != [] && bs[|bs| - 1] == b
  }

  // ---- What a loop can process, it can be made to process ----

  /** The block that the loop processes next, if it needs no further answer for it. */
  function NextBlock(l: Loop): nat
    requires CanProcess(l)
  {
    if Processes(l) then l.pc.bn
    else if l.pc.AwaitRound? then l.reply.value.ctx.value.targetBlock
    else l.pc.bn + 1
  }

  lemma ComesToNextBlock(l: Loop, input: Input)
    requires CanProcess(l) && !Processes(l)
    ensures var l' := Advance(l, input);
            Processes(l') && l'.pc.bn == NextBlock(l)
  {
  }

  /** A block without receipts of interest is processed. */
  lemma LandsIdle(s: System, c: nat)
    requires c in s.loops && Processes(s.loops[c])
    ensures LandsAny(s, Idle(c))
    ensures Apply(s, Idle(c)) == Put(s, c, Advance(s.loops[c], Idle(c).input))
  {
    assert LandedRows(s.loops[c].pc.round, s.loops[c].pc.bn, Idle(c).input) == map[];
    InsertNothing(s.db);
  }

  lemma LandsNext(s: System, c: nat) returns (es: seq<Event>)
    requires c in s.loops && CanProcess(s.loops[c])
    ensures Calm(es) && EndsWith(AllBlocks(s, es), NextBlock(s.loops[c]))
    ensures var s' := After(s, es);
            && s'.actor == s.actor
            && forall k | k in s.loops && k != c :: k in s'.loops && s'.loops[k] == s.loops[k]
    decreases if Processes(s.loops[c]) then 0 else 1
  {
    if Processes(s.loops[c]) {
      es := [Idle(c)];
      LandsIdle(s, c);
      AfterOne(s, Idle(c));
      AllBlocksSnoc(s, [], Idle(c));
      assert [] + es == es;
    } else {
      var first := Steps(s, c, Idle(c).input);
      ComesToNextBlock(s.loops[c], Idle(c).input);
      var t := Put(s, c, Advance(s.loops[c], Idle(c).input));
      var second := LandsNext(t, c);
      es := first + second;
      AfterAppend(s, first, second);
      BlocksEnd(s, first, second, NextBlock(s.loops[c]));
    }
  }

  /** No new context and no replacement. */
  predicate Undisturbed(es: seq<Event>) {
    forall i | 0 <= i < |es| :: KeepsContext(es[i]) && !(es[i].Deliver? && es[i].message.ReplaceFlushReceiver?)
  }

  /** Undisturbed, and every insert of a loop succeeds. */
  predicate Untroubled(es: seq<Event>) {
    Undisturbed(es) && forall i | 0 <= i < |es| && es[i].LoopStep? :: es[i].input.dbOk
  }

  lemma UntroubledAppend(es: seq<Event>, fs: seq<Event>)
    requires Untroubled(es) && Untroubled(fs)
    ensures Untroubled(es + fs)
  {
  }

  lemma BlocksEnd(s: System, es: seq<Event>, fs: seq<Event>, b: nat)
    requires EndsWith(AllBlocks(After(s, es), fs), b)
    ensures EndsWith(AllBlocks(s, es + fs), b)
  {
    AllBlocksAppend(s, es, fs);
  }

  lemma SendReady(s: System, c: nat)
    requires Ready(s, c)
    ensures var s' := Apply(s, SEND);
            && Ready(s', c) && s'.actor.ctx == s.actor.ctx && s'.actor.cache != map[] && s'.loops == s.loops
  {
    assert 7 in Apply(s, SEND).actor.cache;
  }

  /** A loop that has seen nothing yet can be made to process the actor's target. */
  lemma CatchesTarget(s: System, c: nat) returns (es: seq<Event>)
    requires Ready(s, c)
    ensures Untroubled(es) && EndsWith(AllBlocks(s, es), s.actor.ctx.value.targetBlock)
  {
    var t := Apply(s, SEND);
    SendReady(s, c);
    AfterOne(s, SEND);
    var asked := GetsSnapshot(t, c);
    var u := Put(t, c, Answered(t.loops[c], t.actor));
    var landed := LandsNext(u, c);
    UntroubledAppend(asked, landed);
    UntroubledAppend([SEND], asked + landed);
    es := [SEND] + (asked + landed);
    BlocksEnd(t, asked, landed, s.actor.ctx.value.targetBlock);
    BlocksEnd(s, [SEND], asked + landed, s.actor.ctx.value.targetBlock);
  }

  // ---- The actor's target is not ahead of the active loop ----

  predicate Below(l: Loop, target: nat) {
    && (Processes(l) ==> target <= l.pc.bn)
    && (InRound(l.pc) ==> target <= l.pc.bn + 1)
    && (Lifting(l) ==> InRound(l.pc) && target <= l.pc.bn)
    && (Enters(l) ==> target <= l.reply.value.ctx.value.targetBlock)
  }

  lemma BelowAdvance(l: Loop, input: Input, target: nat)
    requires Shape(l) && Below(l, target)
    ensures Below(Advance(l, input), target)
    ensures Lifting(Advance(l, input)) ==>
              if Processes(l) then Succeeds(l, input) && Advance(l, input).pc.bn == l.pc.bn
              else Lifting(l) && Advance(l, input).pc.bn == l.pc.bn
  {
  }

  lemma BelowTouched(l: Loop, l': Loop, target: nat)
    requires Shape(l) && Below(l, target) && Touched(l, l')
    ensures Below(l', target) && (Lifting(l') ==> Lifting(l) && l'.pc == l.pc)
  {
  }

  lemma BelowFlush(s: System, c: nat, nowMs: nat)
    requires Receives(s, c) && Shape(s.loops[c]) && s.actor.ctx.Some?
    requires Below(s.loops[c], s.actor.ctx.value.targetBlock)
    ensures var s' := FlushTo(s, c, nowMs);
            && s'.actor.ctx.Some? && Below(s'.loops[c], s'.actor.ctx.value.targetBlock)
            && (Lifting(s'.loops[c]) ==> Lifting(s.loops[c]) && s'.loops[c].pc == s.loops[c].pc)
  {
  }

  /** Whatever is on its way to the actor is about the block processed last. */
  ghost predicate Tracked(t: System, blocks: seq<nat>, active: nat) {
    && Session(t, active) && t.actor.ctx.Some? && Below(t.loops[active], t.actor.ctx.value.targetBlock)
    && (Lifting(t.loops[active]) ==> EndsWith(blocks, t.loops[active].pc.bn))
  }

  function Landed(t: System, e: Event): seq<nat> {
    if LandsAny(t, e) then [t.loops[e.channel].pc.bn] else []
  }

  lemma TrackActive(t: System, e: Event, blocks: seq<nat>, active: nat)
    requires Tracked(t, blocks, active) && KeepsContext(e) && !Replaces(t, e)
    ensures var t' := Apply(t, e);
            && active in t'.loops && t'.actor.ctx.Some? && Below(t'.loops[active], t'.actor.ctx.value.targetBlock)
            && (Lifting(t'.loops[active]) ==>
                  if Lands(t, e, active) then t'.loops[active].pc.bn == t.loops[active].pc.bn
                  else Lifting(t.loops[active]) && t'.loops[active].pc.bn == t.loops[active].pc.bn)
  {
    TargetStep(t, e);
    if e.LoopStep? && e.channel == active {
      BelowAdvance(t.loops[active], e.input, t.actor.ctx.value.targetBlock);
    } else if e.Flush? && e.channel == active && Receives(t, active) {
      BelowFlush(t, active, e.nowMs);
    } else {
      Frame(t, e, active);
      BelowTouched(t.loops[active], Apply(t, e).loops[active], t.actor.ctx.value.targetBlock);
      assert e.Flush? ==> Apply(t, e) == t;
    }
  }

  lemma TrackStep(t: System, e: Event, blocks: seq<nat>, active: nat)
    requires Tracked(t, blocks, active) && KeepsContext(e) && Orderly(t, e)
    ensures Tracked(Apply(t, e), blocks + Landed(t, e), NextActive(t, e, active))
  {
    SessionStep(t, e, active);
    OnlyActiveLands(t, e, active);
    if Replaces(t, e) {
      TargetStep(t, e);
      assert !Busy(Apply(t, e).loops[e.message.channel]);
    } else {
      TrackActive(t, e, blocks, active);
    }
  }

  /** A run with a context that arrived while the active loop was between rounds. */
  ghost predicate Fresh(s: System, active: nat) {
    Session(s, active) && s.actor.ctx.Some? && Between(s.loops[active])
  }

  lemma {:induction false} RunIsTracked(s: System, es: seq<Event>, active: nat) returns (active': nat)
    requires Fresh(s, active) && AllOrderly(s, es) && forall i | 0 <= i < |es| :: KeepsContext(es[i])
    ensures Tracked(After(s, es), AllBlocks(s, es), active')
    decreases |es|
  {
    active' := active;
    if es != [] {
      var t, e := After(s, es[..|es| - 1]), es[|es| - 1];
      active' := RunIsTracked(s, es[..|es| - 1], active);
      TrackStep(t, e, AllBlocks(s, es[..|es| - 1]), active');
      active' := NextActive(t, e, active');
    }
  }

  // ---- A busy loop is replaced ----

  lemma Dismissed(t: System, e: Event, active: nat)
    requires Session(t, active) && t.actor.ctx.Some? && Replaces(t, e)
    ensures var t', k := Apply(t, e), e.message.channel;
            && t'.actor == t.actor && Ready(t', k) && k != active && !LandsAny(t, e)
            && active in t'.loops && CanProcess(t'.loops[active]) == CanProcess(t.loops[active])
            && (CanProcess(t.loops[active]) ==> NextBlock(t'.loops[active]) == NextBlock(t.loops[active]))
  {
    assert Apply(t, e).loops[active] == DropReceiver(t.loops[active]);
  }

  lemma NotRising(a: seq<nat>, b: seq<nat>)
    requires a != [] && b != [] && b[|b| - 1] <= a[|a| - 1]
    ensures !Rising(a + b)
  {
    var all := a + b;
    assert all[|a| - 1] == a[|a| - 1] && all[|all| - 1] == b[|b| - 1];
  }

  /** The removal on its way is lost, so the next loop starts with the block processed last, or before it. */
  lemma LiftingBreaks(t: System, e: Event, blocks: seq<nat>, active: nat) returns (fs: seq<Event>)
    requires Tracked(t, blocks, active) && Replaces(t, e) && Lifting(t.loops[active])
    ensures Untroubled(fs) && !Rising(blocks + AllBlocks(Apply(t, e), fs))
  {
    Dismissed(t, e, active);
    fs := CatchesTarget(Apply(t, e), e.message.channel);
    NotRising(blocks, AllBlocks(Apply(t, e), fs));
  }

  /** The old loop processes its next block, and the next loop that block again, or one before it. */
  lemma ProcessingBreaks(t: System, e: Event, active: nat) returns (fs: seq<Event>)
    requires Session(t, active) && t.actor.ctx.Some? && Below(t.loops[active], t.actor.ctx.value.targetBlock)
    requires Replaces(t, e) && CanProcess(t.loops[active])
    ensures Untroubled(fs) && !Rising(AllBlocks(Apply(t, e), fs))
  {
    Dismissed(t, e, active);
    fs := BothLand(Apply(t, e), active, e.message.channel);
  }

  lemma BothLand(t: System, c: nat, k: nat) returns (fs: seq<Event>)
    requires c in t.loops && CanProcess(t.loops[c]) && Ready(t, k) && k != c
    requires t.actor.ctx.value.targetBlock <= NextBlock(t.loops[c])
    ensures Untroubled(fs) && !Rising(AllBlocks(t, fs))
  {
    var landed := LandsNext(t, c);
    assert Ready(After(t, landed), k);
    var caught := CatchesTarget(After(t, landed), k);
    fs := landed + caught;
    UntroubledAppend(landed, caught);
    AllBlocksAppend(t, landed, caught);
    NotRising(AllBlocks(t, landed), AllBlocks(After(t, landed), caught));
  }

  lemma DisorderBreaks(t: System, e: Event, blocks: seq<nat>, active: nat) returns (fs: seq<Event>)
    requires Tracked(t, blocks, active) && !Orderly(t, e)
    ensures Untroubled(fs) && !Rising(blocks + AllBlocks(Apply(t, e), fs))
  {
    assert Busy(t.loops[active]);
    if Lifting(t.loops[active]) {
      fs := LiftingBreaks(t, e, blocks, active);
    } else {
      fs := ProcessingBreaks(t, e, active);
      RisingSuffix(blocks, AllBlocks(Apply(t, e), fs));
    }
  }

  lemma RisingSuffix(a: seq<nat>, b: seq<nat>)
    requires !Rising(b)
    ensures !Rising(a + b)
  {
    var i, j :| 0 <= i < j < |b| && b[i] >= b[j];
    assert (a + b)[|a| + i] == b[i] && (a + b)[|a| + j] == b[j];
  }

  // ---- Exactly the orderly runs ----

  /** Whatever happens next, without a new context or replacement, no block is processed twice. */
  ghost predicate Steady(s: System, es: seq<Event>) {
    forall fs | Undisturbed(fs) :: Rising(AllBlocks(s, es + fs))
  }

  lemma OrderlySnoc(s: System, es: seq<Event>, e: Event)
    requires AllOrderly(s, es) && Orderly(After(s, es), e)
    ensures AllOrderly(s, es + [e])
  {
    assert (es + [e])[..|es|] == es;
  }

  lemma SmoothSnoc(s: System, es: seq<Event>, e: Event)
    requires AllSmooth(s, es) && Smooth(After(s, es), e)
    ensures AllSmooth(s, es + [e])
  {
    assert (es + [e])[..|es|] == es;
  }

  lemma {:induction false} UndisturbedIsOrderly(s: System, es: seq<Event>, fs: seq<Event>)
    requires AllOrderly(s, es) && Undisturbed(fs)
    ensures AllOrderly(s, es + fs)
    decreases |fs|
  {
    if fs == [] {
      assert es + fs == es;
    } else {
      var n := |fs| - 1;
      UndisturbedIsOrderly(s, es, fs[..n]);
      OrderlySnoc(s, es + fs[..n], fs[n]);
      assert es + fs == es + fs[..n] + [fs[n]];
    }
  }

  lemma OrderlyIsSteady(s: System, es: seq<Event>, active: nat)
    requires Session(s, active) && AllOrderly(s, es) && forall i | 0 <= i < |es| :: KeepsContext(es[i])
    ensures Steady(s, es)
  {
    forall fs | Undisturbed(fs) ensures Rising(AllBlocks(s, es + fs)) {
      UndisturbedIsOrderly(s, es, fs);
      NoBlockTwice(s, es + fs, active);
    }
  }

  /** The step that a disorderly replacement is the first one of. */
  lemma DisorderlyIsUnsteady(s: System, es: seq<Event>, e: Event, active: nat) returns (fs: seq<Event>)
    requires Fresh(s, active) && AllOrderly(s, es) && forall i | 0 <= i < |es| :: KeepsContext(es[i])
    requires !Orderly(After(s, es), e)
    ensures Untroubled(fs) && !Rising(AllBlocks(s, es + [e] + fs))
  {
    var active' := RunIsTracked(s, es, active);
    fs := DisorderBreaks(After(s, es), e, AllBlocks(s, es), active');
    assert AllBlocks(s, es + [e]) == AllBlocks(s, es) by {
      AllBlocksSnoc(s, es, e);
    }
    assert After(s, es + [e]) == Apply(After(s, es), e) by {
      AfterSnoc(s, es, e);
    }
    AllBlocksAppend(s, es + [e], fs);
  }

  lemma SteadyStep(s: System, es: seq<Event>, e: Event, active: nat)
    requires Fresh(s, active) && AllOrderly(s, es) && forall i | 0 <= i < |es| :: KeepsContext(es[i])
    requires KeepsContext(e)
    ensures Steady(s, es + [e]) <==> Orderly(After(s, es), e)
  {
    assert (es + [e])[..|es|] == es;
    if Orderly(After(s, es), e) {
      OrderlyIsSteady(s, es + [e], active);
    } else {
      var fs := DisorderlyIsUnsteady(s, es, e, active);
    }
  }

  lemma SteadyPrefixes(s: System, es: seq<Event>)
    requires es != []
    ensures var n := |es| - 1;
            (forall k | 0 <= k <= |es| :: Steady(s, es[..k])) <==>
            (forall k | 0 <= k <= n :: Steady(s, es[..n][..k])) && Steady(s, es)
  {
    var n := |es| - 1;
    assert es[..|es|] == es;
    forall k | 0 <= k <= n ensures es[..n][..k] == es[..k] {
    }
    if (forall k | 0 <= k <= n :: Steady(s, es[..n][..k])) && Steady(s, es) {
      forall k | 0 <= k <= |es| ensures Steady(s, es[..k]) {
        if k <= n {
          assert Steady(s, es[..n][..k]);
        }
      }
    }
  }

  /**
   For every run under one context that arrived between rounds: at no point can a block be processed
   twice or out of order if and only if every replacement finds the installed loop not busy.
   */
  lemma {:induction false} OrderlyExactly(s: System, es: seq<Event>, active: nat)
    requires Fresh(s, active) && forall i | 0 <= i < |es| :: KeepsContext(es[i])
    ensures AllOrderly(s, es) <==> forall k | 0 <= k <= |es| :: Steady(s, es[..k])
    decreases |es|
  {
    if es == [] {
      OrderlyIsSteady(s, [], active);
      assert es[..0] == [];
    } else {
      var n := |es| - 1;
      OrderlyExactly(s, es[..n], active);
      SteadyPrefixes(s, es);
      if AllOrderly(s, es[..n]) {
        assert es[..n] + [es[n]] == es;
        SteadyStep(s, es[..n], es[n], active);
      }
    }
  }

  // ---- Contiguity ----

  /** Whatever happens next without a failed block, a new context or a replacement, no block is left out. */
  ghost predicate Unbroken(s: System, es: seq<Event>)
    requires s.actor.ctx.Some?
  {
    forall fs | Undisturbed(fs) && AllSmooth(s, es + fs) ::
      Contiguous(AllBlocks(s, es + fs), s.actor.ctx.value.targetBlock)
  }

  lemma {:induction false} UntroubledIsSmooth(s: System, es: seq<Event>, fs: seq<Event>)
    requires AllSmooth(s, es) && Untroubled(fs)
    ensures AllSmooth(s, es + fs)
    decreases |fs|
  {
    if fs == [] {
      assert es + fs == es;
    } else {
      var n := |fs| - 1;
      UntroubledIsSmooth(s, es, fs[..n]);
      SmoothSnoc(s, es + fs[..n], fs[n]);
      assert es + fs == es + fs[..n] + [fs[n]];
    }
  }

  lemma {:induction false} SmoothKeepsContext(s: System, es: seq<Event>)
    requires AllSmooth(s, es)
    ensures forall i | 0 <= i < |es| :: KeepsContext(es[i])
    decreases |es|
  {
    if es != [] {
      var n := |es| - 1;
      SmoothKeepsContext(s, es[..n]);
      assert forall i | 0 <= i < n :: es[..n][i] == es[i];
    }
  }

  lemma OrderlyIsUnbroken(s: System, es: seq<Event>, active: nat)
    requires Fresh(s, active) && AllOrderly(s, es)
    ensures Unbroken(s, es)
  {
    forall fs | Undisturbed(fs) && AllSmooth(s, es + fs)
      ensures Contiguous(AllBlocks(s, es + fs), s.actor.ctx.value.targetBlock)
    {
      UndisturbedIsOrderly(s, es, fs);
      BlocksAreContiguous(s, es + fs, active);
    }
  }

  lemma UnbrokenStep(s: System, es: seq<Event>, e: Event, active: nat)
    requires Fresh(s, active) && AllOrderly(s, es) && AllSmooth(s, es + [e])
    ensures Unbroken(s, es + [e]) <==> Orderly(After(s, es), e)
  {
    assert (es + [e])[..|es|] == es;
    if Orderly(After(s, es), e) {
      OrderlyIsUnbroken(s, es + [e], active);
    } else {
      SmoothKeepsContext(s, es);
      var fs := DisorderlyIsUnsteady(s, es, e, active);
      UntroubledIsSmooth(s, es + [e], fs);
    }
  }

  lemma UnbrokenPrefixes(s: System, es: seq<Event>)
    requires es != [] && s.actor.ctx.Some?
    ensures var n := |es| - 1;
            (forall k | 0 <= k <= |es| :: Unbroken(s, es[..k])) <==>
            (forall k | 0 <= k <= n :: Unbroken(s, es[..n][..k])) && Unbroken(s, es)
  {
    var n := |es| - 1;
    assert es[..|es|] == es;
    forall k | 0 <= k <= n ensures es[..n][..k] == es[..k] {
    }
    if (forall k | 0 <= k <= n :: Unbroken(s, es[..n][..k])) && Unbroken(s, es) {
      forall k | 0 <= k <= |es| ensures Unbroken(s, es[..k]) {
        if k <= n {
          assert Unbroken(s, es[..n][..k]);
        }
      }
    }
  }

  /**
   For every run under one context that arrived between rounds, and without a failed block: the blocks
   stay contiguous from the target, whatever follows, if and only if every replacement finds the
   installed loop not busy.
   */
  lemma {:induction false} ContiguousExactly(s: System, es: seq<Event>, active: nat)
    requires Fresh(s, active) && AllSmooth(s, es)
    ensures AllOrderly(s, es) <==> forall k | 0 <= k <= |es| :: Unbroken(s, es[..k])
    decreases |es|
  {
    if es == [] {
      OrderlyIsUnbroken(s, [], active);
      assert es[..0] == [];
    } else {
      var n := |es| - 1;
      ContiguousExactly(s, es[..n], active);
      UnbrokenPrefixes(s, es);
      if AllOrderly(s, es[..n]) {
        assert es[..n] + [es[n]] == es;
        UnbrokenStep(s, es[..n], es[n], active);
      }
    }
  }

  // ---- A concrete run ----

  lemma SpawnedIsTracked(t: System)
    requires t == Apply(OPENED, Spawn(1))
    ensures Tracked(t, [], 0) && !Orderly(t, REPLACE)
  {
    assert t.loops[0] == OPENED.loops[0] && t.loops[1] == NewLoop(InFlight);
    assert CanProcess(t.loops[0]) && t.loops[0].link.Installed?;
  }

  /** A loop is replaced while it has a snapshot for block 5: both loops process a block out of order. */
  lemma BlockTwice() returns (run: seq<Event>, fs: seq<Event>)
    ensures After(BOOT, run) == OPENED && Untroubled(fs)
    ensures !Rising(AllBlocks(OPENED, [Spawn(1), REPLACE] + fs))
  {
    var es := Opens();
    run := [INIT, SEND] + es;
    var t := Apply(OPENED, Spawn(1));
    SpawnedIsTracked(t);
    fs := DisorderBreaks(t, REPLACE, [], 0);
    AfterTwo(OPENED, Spawn(1), REPLACE);
    AllBlocksAppend(OPENED, [Spawn(1), REPLACE], fs);
    RisingSuffix(AllBlocks(OPENED, [Spawn(1), REPLACE]), AllBlocks(Apply(t, REPLACE), fs));
  }
}
