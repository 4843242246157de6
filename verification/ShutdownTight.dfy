/**
 The bounds of `Shutdown` are tight.  For every N there is a reachable state with a cancelled loop and N
 pending transactions, and a run from it with exactly 6N + 1 rounds, or with 6N + 2 where the loop is
 about to enter a round with an outdated snapshot: every transaction costs one round that notices a new
 pending count and five stale ones before it disappears.
 */
module ShutdownTight {
  import opened Options
  import opened TxActor
  import opened FlushProtocol
  import opened Shutdown
  import opened Scenes
  import opened RowRaces
  import opened BlockRaces

  // ---- Rounds of a run in parts ----

  lemma RoundsSnoc(s: System, es: seq<Event>, e: Event, c: nat)
    ensures Rounds(s, es + [e], c) == Rounds(s, es, c) + if BeginsRound(After(s, es), e, c) then 1 else 0
  {
    assert (es + [e])[..|es|] == es;
  }

  lemma {:induction false} RoundsAppend(s: System, es: seq<Event>, fs: seq<Event>, c: nat)
    ensures Rounds(s, es + fs, c) == Rounds(s, es, c) + Rounds(After(s, es), fs, c)
    decreases |fs|
  {
    if fs == [] {
      assert es + fs == es;
    } else {
      var n := |fs| - 1;
      assert es + fs == es + fs[..n] + [fs[n]] && fs == fs[..n] + [fs[n]];
      RoundsAppend(s, es, fs[..n], c);
      AfterAppend(s, es, fs[..n]);
      RoundsSnoc(s, es + fs[..n], fs[n], c);
      RoundsSnoc(After(s, es), fs[..n], fs[n], c);
    }
  }

  lemma EntersRound(s: System, c: nat) returns (es: seq<Event>)
    requires c in s.loops && Enters(s.loops[c])
    ensures Internal(es) && Rounds(s, es, c) == 1
    ensures After(s, es) == Put(s, c, Advance(s.loops[c], Idle(c).input))
  {
    es := [Idle(c)];
    AfterOne(s, Idle(c));
    StepPut(s, c, Idle(c).input);
    RoundsSnoc(s, [], Idle(c), c);
    assert [] + es == es;
  }

  /** A block whose rows cannot be inserted. */
  lemma FailsBlock(s: System, c: nat, h: TxHash) returns (es: seq<Event>)
    requires c in s.loops && Processes(s.loops[c]) && h in s.loops[c].pc.round.snapshot
    ensures Internal(es)
    ensures After(s, es) == Put(s, c, s.loops[c].(pc := AtBlock(s.loops[c].pc.round, s.loops[c].pc.bn + 1)))
  {
    es := [Finds(c, h, false)];
    AfterOne(s, es[0]);
    InsertNothing(s.db);
    assert h in LandedRows(s.loops[c].pc.round, s.loops[c].pc.bn, es[0].input);
  }

  /** A loop past the last block of its round closes the round. */
  lemma ClosesRound(s: System, c: nat) returns (es: seq<Event>)
    requires c in s.loops && s.loops[c].pc.AtBlock? && s.loops[c].pc.bn >= s.loops[c].pc.round.newBlock
    ensures Internal(es) && After(s, es) == Put(s, c, Close(s.loops[c].(pc := Closing(s.loops[c].pc.round)), s.loops[c].pc.round))
  {
    var l, idle := s.loops[c], Idle(c).input;
    var past := Steps(s, c, idle);
    var closing := l.(pc := Closing(l.pc.round));
    var closed := Steps(Put(s, c, closing), c, idle);
    PutPut(s, c, closing, Close(closing, l.pc.round));
    es := past + closed;
    AfterAppend(s, past, closed);
  }

  // ---- One block without receipts of interest ----

  lemma ConfirmNothing(a: State, newTarget: nat)
    requires a.ctx.Some? && a.ctx.value.targetBlock <= newTarget
    ensures Confirm(a, {}, newTarget, 0) == a.(ctx := Some(a.ctx.value.(targetBlock := newTarget)))
  {
    var a' := Confirm(a, {}, newTarget, 0);
    assert a'.cache == a.cache;
    assert a'.marks == a.marks;
    assert a'.ctx == Some(a.ctx.value.(targetBlock := newTarget));
  }

  /** The loop is at block `bn` of a round over what is pending, with an actor that follows. */
  predicate Working(s: System, c: nat, bn: nat) {
    && c in s.loops && s.actor.status.Running? && s.actor.ctx.Some? && s.actor.ctx.value.targetBlock == bn
    && var l := s.loops[c];
    && l.pc.AtBlock? && l.pc.bn == bn && l.pc.round.snapshot == s.actor.cache && l.target == bn
    && l.link.Installed? && l.cancelled && Shape(l)
  }

  /** The step from one block to the next, for the loop and the actor. */
  function NextActor(a: State, bn: nat): State
    requires a.ctx.Some?
  {
    a.(ctx := Some(a.ctx.value.(targetBlock := bn + 1)))
  }

  function AtNext(l: Loop): Loop
    requires l.pc.AtBlock?
  {
    l.(pc := AtBlock(l.pc.round, l.pc.bn + 1), target := l.pc.bn + 1)
  }

  /** The loop records nothing and asks for the refreshed snapshot. */
  lemma AsksRefresh(s: System, c: nat, bn: nat) returns (es: seq<Event>)
    requires Working(s, c, bn) && bn < s.loops[c].pc.round.newBlock
    ensures Internal(es)
    ensures After(s, es) ==
            Put(s, c, s.loops[c].(pc := AwaitRefresh(s.loops[c].pc.round, bn),
                                  queue := [RemoveConfirmed({}, bn + 1), GetSnapshot]))
  {
    var l, idle := s.loops[c], Idle(c);
    var r := l.pc.round;
    var l1 := l.(pc := Recorded(r, bn, {}));
    LandsIdle(s, c);
    assert r.snapshot.Keys * idle.input.receipts.Keys == {};
    AfterOne(s, idle);
    var l2 := l.(pc := Removing(r, bn), queue := [RemoveConfirmed({}, bn + 1)]);
    Posts(l1, c);
    var posted := Steps(Put(s, c, l1), c, idle.input);
    PutPut(s, c, l1, l2);
    var l3 := l.(pc := AwaitRefresh(r, bn), queue := [RemoveConfirmed({}, bn + 1), GetSnapshot]);
    var asked := Steps(Put(s, c, l2), c, idle.input);
    assert l2.queue + [GetSnapshot] == l3.queue;
    PutPut(s, c, l2, l3);
    AfterAppend(Put(s, c, l1), posted, asked);
    AfterAppend(s, [idle], posted + asked);
    es := [idle] + (posted + asked);
  }

  /** The actor takes both requests, and the loop goes on. */
  lemma GetsRefresh(s: System, c: nat, r: Round, bn: nat) returns (es: seq<Event>)
    requires c in s.loops && s.actor.status.Running? && s.actor.ctx.Some? && s.actor.ctx.value.targetBlock == bn
    requires s.loops[c].pc == AwaitRefresh(r, bn) && s.loops[c].link.Installed? && s.loops[c].reply.None?
    requires s.loops[c].queue == [RemoveConfirmed({}, bn + 1), GetSnapshot]
    requires s.actor.cache != map[] && r.snapshot == s.actor.cache
    ensures Internal(es)
    ensures After(s, es) ==
            Put(s.(actor := NextActor(s.actor, bn)), c,
                s.loops[c].(pc := AtBlock(r, bn + 1), target := bn + 1, queue := []))
  {
    var l, a, flush := s.loops[c], NextActor(s.actor, bn), Flush(c, 0);
    var t := s.(actor := a);
    var l1 := l.(queue := [GetSnapshot]);
    ConfirmNothing(s.actor, bn + 1);
    assert l.queue[1..] == [GetSnapshot];
    assert Apply(s, flush) == Put(t, c, l1);
    AnswerPut(Put(t, c, l1), c);
    var l2 := l.(queue := [], reply := Some(Reply(a.cache, a.ctx)));
    PutPut(t, c, l1, l2);
    AfterTwo(s, flush, flush);
    var resumed := Steps(Put(t, c, l2), c, Idle(c).input);
    PutPut(t, c, l2, l.(pc := AtBlock(r, bn + 1), target := bn + 1, queue := []));
    AfterAppend(s, [flush, flush], resumed);
    es := [flush, flush] + resumed;
  }

  lemma OneBlock(s: System, c: nat, bn: nat) returns (es: seq<Event>)
    requires Working(s, c, bn) && bn < s.loops[c].pc.round.newBlock && s.actor.cache != map[]
    ensures Internal(es)
    ensures After(s, es) == Put(s.(actor := NextActor(s.actor, bn)), c, AtNext(s.loops[c]))
  {
    var l := s.loops[c];
    var l1 := l.(pc := AwaitRefresh(l.pc.round, bn), queue := [RemoveConfirmed({}, bn + 1), GetSnapshot]);
    var asked := AsksRefresh(s, c, bn);
    var refreshed := GetsRefresh(Put(s, c, l1), c, l.pc.round, bn);
    PutPut(s.(actor := NextActor(s.actor, bn)), c, l1, AtNext(l));
    AfterAppend(s, asked, refreshed);
    es := asked + refreshed;
  }

  /** The loop of a round is carried from block to block. */
  predicate Carries(s: System, c: nat, t: System) {
    && c in s.loops && c in t.loops && s.loops[c].pc.AtBlock? && t.loops[c].pc.AtBlock?
    && t.actor.cache == s.actor.cache && t.loops[c].pc.round == s.loops[c].pc.round
    && t.loops[c].stale == s.loops[c].stale && t.loops[c].lastPending == s.loops[c].lastPending
  }

  /** All blocks of the round. */
  lemma {:induction false} AllOfRound(s: System, c: nat, bn: nat) returns (es: seq<Event>)
    requires Working(s, c, bn) && bn <= s.loops[c].pc.round.newBlock && s.actor.cache != map[]
    ensures Internal(es)
    ensures Working(After(s, es), c, s.loops[c].pc.round.newBlock) && Carries(s, c, After(s, es))
    decreases s.loops[c].pc.round.newBlock - bn
  {
    es := [];
    if bn < s.loops[c].pc.round.newBlock {
      var first := OneBlock(s, c, bn);
      var rest := AllOfRound(After(s, first), c, bn + 1);
      AfterAppend(s, first, rest);
      es := first + rest;
    }
  }

  // ---- One round ----

  /** The loop is at the top, and the actor's target is not ahead of it. */
  predicate Resting(s: System, c: nat) {
    && c in s.loops && s.actor.status.Running? && s.actor.ctx.Some?
    && var l := s.loops[c];
    && l.pc.Top? && l.link.Installed? && l.cancelled && Shape(l) && l.stale < STALE_BLOCK_LIMIT
    && s.actor.ctx.value.targetBlock <= l.target
  }

  /** The stale counter after the next round. */
  function StaleNext(l: Loop, a: State): nat
    requires a.ctx.Some? && a.ctx.value.targetBlock <= l.target
  {
    if l.lastPending == Some(|a.cache|) then l.stale + (l.target + 1 - a.ctx.value.targetBlock) else 0
  }

  /** A round has left what is pending alone. */
  predicate LeftAlone(s: System, c: nat, t: System)
    requires Resting(s, c)
  {
    && Resting(t, c) && t.actor.cache == s.actor.cache
    && t.loops[c].target == s.loops[c].target + 1 == t.actor.ctx.value.targetBlock
    && t.loops[c].lastPending == Some(|s.actor.cache|) && t.loops[c].stale == StaleNext(s.loops[c], s.actor)
  }

  lemma Begins(s: System, c: nat) returns (es: seq<Event>)
    requires Resting(s, c) && s.actor.cache != map[]
    ensures Internal(es) && Rounds(s, es, c) >= 1
    ensures var l, t := s.loops[c], s.actor.ctx.value.targetBlock;
            After(s, es) ==
            Put(s, c, l.(pc := AtBlock(Round(l.target + 1, t, s.actor.ctx.value.runId, s.actor.cache), t), target := t))
  {
    var l, t := s.loops[c], s.actor.ctx.value.targetBlock;
    var seen := SeesBlock(s, c, l.target + 1);
    var l1 := l.(pc := AwaitRound(l.target + 1), queue := [], reply := Some(Reply(s.actor.cache, s.actor.ctx)));
    var entered := EntersRound(Put(s, c, l1), c);
    PutPut(s, c, l1, Advance(l1, Idle(c).input));
    AfterAppend(s, seen, entered);
    RoundsAppend(s, seen, entered, c);
    es := seen + entered;
  }

  lemma Ends(s: System, c: nat, h: nat) returns (es: seq<Event>)
    requires Working(s, c, h) && h == s.loops[c].pc.round.newBlock && s.loops[c].pc.round.start < h
    requires s.actor.cache != map[]
    requires var l := s.loops[c];
             l.lastPending != Some(|s.actor.cache|) || l.stale + (h - l.pc.round.start) < STALE_BLOCK_LIMIT
    ensures Internal(es)
    ensures var l, t := s.loops[c], After(s, es);
            && Resting(t, c) && t.actor == s.actor && t.loops[c].target == h
            && t.loops[c].lastPending == Some(|s.actor.cache|)
            && t.loops[c].stale == if l.lastPending == Some(|s.actor.cache|) then l.stale + (h - l.pc.round.start) else 0
  {
    es := ClosesRound(s, c);
  }

  lemma FullRound(s: System, c: nat) returns (es: seq<Event>)
    requires Resting(s, c) && s.actor.cache != map[] && StaleNext(s.loops[c], s.actor) < STALE_BLOCK_LIMIT
    ensures Internal(es) && Rounds(s, es, c) >= 1 && LeftAlone(s, c, After(s, es))
  {
    var begun := Begins(s, c);
    var s1 := After(s, begun);
    var worked := AllOfRound(s1, c, s.actor.ctx.value.targetBlock);
    var s2 := After(s1, worked);
    var ended := Ends(s2, c, s.loops[c].target + 1);
    AfterAppend(s1, worked, ended);
    AfterAppend(s, begun, worked + ended);
    RoundsAppend(s, begun, worked + ended, c);
    es := begun + (worked + ended);
  }

  // ---- Six rounds for every transaction ----

  /** Rounds over an unchanged pending count. */
  lemma {:induction false} StaleRounds(s: System, c: nat, k: nat) returns (es: seq<Event>)
    requires Resting(s, c) && s.actor.cache != map[] && s.actor.ctx.value.targetBlock == s.loops[c].target
    requires s.loops[c].lastPending == Some(|s.actor.cache|) && s.loops[c].stale + k < STALE_BLOCK_LIMIT
    ensures Internal(es) && Rounds(s, es, c) >= k
    ensures var t := After(s, es);
            && Resting(t, c) && t.actor.cache == s.actor.cache
            && t.actor.ctx.value.targetBlock == t.loops[c].target && t.loops[c].lastPending == Some(|s.actor.cache|)
    decreases k
  {
    es := [];
    if k > 0 {
      var first := FullRound(s, c);
      var rest := StaleRounds(After(s, first), c, k - 1);
      AfterAppend(s, first, rest);
      RoundsAppend(s, first, rest, c);
      es := first + rest;
    }
  }

  predicate AllWinding(es: seq<Event>) {
    forall i | 0 <= i < |es| :: Winding(es[i])
  }

  lemma InternalIsWinding(es: seq<Event>, fs: seq<Event>)
    requires Internal(es) && AllWinding(fs)
    ensures AllWinding(es + fs)
  {
  }

  lemma RemovesOne(s: System, c: nat, h: TxHash)
    requires Resting(s, c) && h in s.actor.cache && s.actor.ctx.value.targetBlock == s.loops[c].target
    ensures var t := Apply(s, Deliver(RemovedRunTx(h), Io(true, true)));
            && Resting(t, c) && |t.actor.cache| == |s.actor.cache| - 1
            && t.loops == s.loops && t.actor.ctx == s.actor.ctx
  {
    var t := Apply(s, Deliver(RemovedRunTx(h), Io(true, true)));
    assert t.actor.cache.Keys + {h} == s.actor.cache.Keys;
  }

  /** With nothing pending the next round is the last. */
  lemma LastRound(s: System, c: nat) returns (es: seq<Event>)
    requires Resting(s, c)
    ensures Internal(es) && Rounds(s, es, c) >= 1
  {
    var seen := SeesBlock(s, c, s.loops[c].target + 1);
    var entered := EntersRound(After(s, seen), c);
    RoundsAppend(s, seen, entered, c);
    es := seen + entered;
  }

  lemma {:induction false} Drains(s: System, c: nat, n: nat) returns (es: seq<Event>)
    requires Resting(s, c) && |s.actor.cache| == n && s.loops[c].lastPending != Some(n)
    ensures AllWinding(es) && Rounds(s, es, c) >= 6 * n + 1
    decreases n
  {
    if n == 0 {
      es := LastRound(s, c);
    } else {
      var six := SixRounds(s, c);
      var t := After(s, six);
      var h :| h in t.actor.cache;
      var remove := Deliver(RemovedRunTx(h), Io(true, true));
      RemovesOne(t, c, h);
      var rest := Drains(Apply(t, remove), c, n - 1);
      AfterOne(t, remove);
      RoundsAppend(t, [remove], rest, c);
      RoundsAppend(s, six, [remove] + rest, c);
      InternalIsWinding(six, [remove] + rest);
      es := six + ([remove] + rest);
    }
  }

  lemma SixRounds(s: System, c: nat) returns (es: seq<Event>)
    requires Resting(s, c) && s.actor.cache != map[] && s.loops[c].lastPending != Some(|s.actor.cache|)
    ensures Internal(es) && Rounds(s, es, c) >= 6
    ensures var t := After(s, es);
            && Resting(t, c) && t.actor.cache == s.actor.cache
            && t.actor.ctx.value.targetBlock == t.loops[c].target && t.loops[c].lastPending == Some(|s.actor.cache|)
  {
    var first := FullRound(s, c);
    var rest := StaleRounds(After(s, first), c, 5);
    AfterAppend(s, first, rest);
    RoundsAppend(s, first, rest, c);
    es := first + rest;
  }

  // ---- The reachable states ----

  /** The hashes below `n`. */
  function HashesBelow(n: nat): (hashes: set<TxHash>)
    ensures |hashes| == n && (n > 0 ==> 0 in hashes) && forall h | h in hashes :: h < n
  {
    if n == 0 then {} else HashesBelow(n - 1) + {n - 1}
  }

  /** The context is set and the transactions below `n` are sent. */
  ghost predicate Sent(s: System, n: nat) {
    && s.actor.status.Running? && s.actor.ctx == Some(CTX) && s.db == map[]
    && s.loops == map[0 := NewLoop(Installed)]
    && s.actor.cache.Keys == HashesBelow(n)
  }

  function SendOf(h: TxHash): Event {
    Deliver(SentRunTx(SentTx(h, 100, None, None, None)), Io(true, true))
  }

  lemma SendsOne(s: System, h: TxHash)
    requires s.actor.status.Running?
    ensures var t := Apply(s, SendOf(h));
            && t.actor.status.Running? && t.actor.ctx == s.actor.ctx && t.db == s.db && t.loops == s.loops
            && t.actor.cache.Keys == s.actor.cache.Keys + {h}
  {
    InsertNothing(s.db);
  }

  lemma {:induction false} SendsMany(n: nat) returns (run: seq<Event>)
    ensures Sent(After(BOOT, run), n)
    decreases n
  {
    if n == 0 {
      run := [INIT];
      AfterOne(BOOT, INIT);
      InsertNothing(map[]);
    } else {
      var before := SendsMany(n - 1);
      run := before + [SendOf(n - 1)];
      SendsOne(After(BOOT, before), n - 1);
      AfterSnoc(BOOT, before, SendOf(n - 1));
    }
  }

  /** A cancelled loop is about to enter the round over block 5 with one transaction more than is pending. */
  ghost predicate Outdated(s: System, n: nat) {
    && s.actor.status.Running? && s.actor.ctx == Some(CTX) && |s.actor.cache| == n && 0 in s.loops
    && var l := s.loops[0];
    && l.pc == AwaitRound(6) && l.link.Installed? && l.cancelled && Shape(l) && l.stale == 0
    && l.reply.Some? && l.reply.value.ctx == Some(CTX) && |l.reply.value.snapshot| == n + 1
  }

  lemma ReachesOutdated(n: nat) returns (run: seq<Event>)
    ensures Outdated(After(BOOT, run), n)
  {
    var sent := SendsMany(n + 1);
    var s := After(BOOT, sent);
    var got := GetsSnapshot(s, 0);
    var changed := RemovesAndCancels(Put(s, 0, Answered(s.loops[0], s.actor)), n);
    AfterAppend(s, got, changed);
    AfterAppend(BOOT, sent, got + changed);
    run := sent + (got + changed);
  }

  lemma RemovesAndCancels(s: System, n: nat) returns (es: seq<Event>)
    requires s.actor.status.Running? && s.actor.ctx == Some(CTX) && s.actor.cache.Keys == HashesBelow(n + 1)
    requires s.loops.Keys == {0} && s.loops[0] == Answered(NewLoop(Installed), s.actor)
    ensures Outdated(After(s, es), n)
  {
    var remove, cancel := Deliver(RemovedRunTx(0), Io(true, true)), Cancel(0);
    es := [remove, cancel];
    AfterTwo(s, remove, cancel);
    assert (s.actor.cache - {0}).Keys + {0} == s.actor.cache.Keys;
  }

  /** The outdated round fails to record, and the loop is back at the top with another pending count. */
  lemma OutdatedRound(s: System, n: nat) returns (es: seq<Event>)
    requires Outdated(s, n)
    ensures Internal(es) && Rounds(s, es, 0) >= 1
    ensures var t := After(s, es);
            Resting(t, 0) && t.actor == s.actor && t.loops[0].lastPending == Some(n + 1)
  {
    var l := s.loops[0];
    var r := Round(6, 5, 1, l.reply.value.snapshot);
    var h :| h in r.snapshot;
    var l1 := l.(pc := AtBlock(r, 5), target := 5, reply := None);
    var l2 := l1.(pc := AtBlock(r, 6));
    var entered := EntersRound(s, 0);
    assert Advance(l, Idle(0).input) == l1;
    var failed := FailsBlock(Put(s, 0, l1), 0, h);
    PutPut(s, 0, l1, l2);
    var closed := ClosesRound(Put(s, 0, l2), 0);
    AfterAppend(Put(s, 0, l1), failed, closed);
    AfterAppend(s, entered, failed + closed);
    RoundsAppend(s, entered, failed + closed, 0);
    es := entered + (failed + closed);
  }

  /** For every N: a state in which `ExitsWithin` grants the extra round, and a run that uses it. */
  lemma BoundIsTight(n: nat) returns (run: seq<Event>, es: seq<Event>)
    ensures var s := After(BOOT, run);
            && |s.actor.cache| == n && 0 in s.loops && s.loops[0].cancelled && Extra(s.actor.cache, s.loops[0]) == 1
            && AllWinding(es) && Rounds(s, es, 0) == 6 * n + 2
  {
    run := ReachesOutdated(n);
    var s := After(BOOT, run);
    var first := OutdatedRound(s, n);
    var rest := Drains(After(s, first), 0, n);
    es := first + rest;
    InternalIsWinding(first, rest);
    RoundsAppend(s, first, rest, 0);
    ExitsWithin(s, es, 0);
  }

  /** For every N: a state between rounds, and a run that uses all the 6N + 1 rounds that it grants. */
  lemma BoundIsTightBetween(n: nat) returns (run: seq<Event>, es: seq<Event>)
    ensures var s := After(BOOT, run);
            && |s.actor.cache| == n && 0 in s.loops && s.loops[0].cancelled && !HoldsSnapshot(s.loops[0])
            && AllWinding(es) && Rounds(s, es, 0) == 6 * n + 1
  {
    var reached := ReachesOutdated(n);
    var first := OutdatedRound(After(BOOT, reached), n);
    run := reached + first;
    AfterAppend(BOOT, reached, first);
    es := Drains(After(BOOT, run), 0, n);
    ExitsWithin(After(BOOT, run), es, 0);
  }
}
