/** Short runs of the protocol that the witnesses in other modules are put together from. */
module Scenes {
  import opened Options
  import opened TxActor
  import opened FlushProtocol

  /** A loop step that meets no new chain head and no receipts. */
  function Idle(c: nat): Event {
    LoopStep(c, Input(None, map[], 0, true))
  }

  /** A loop step that meets a receipt for `h`. */
  function Finds(c: nat, h: TxHash, dbOk: bool): Event {
    LoopStep(c, Input(None, map[h := Receipt(true, 21000)], 60, dbOk))
  }

  /** Only flush loops and the actor's answers to them, which nobody else controls. */
  predicate Internal(es: seq<Event>) {
    forall i | 0 <= i < |es| :: es[i].LoopStep? || es[i].Flush?
  }

  /** An internal run in which every insert succeeds. */
  predicate Calm(es: seq<Event>) {
    Internal(es) && forall i | 0 <= i < |es| && es[i].LoopStep? :: es[i].input.dbOk
  }

  function Put(s: System, c: nat, l: Loop): System {
    s.(loops := s.loops[c := l])
  }

  lemma PutPut(s: System, c: nat, l: Loop, l': Loop)
    ensures Put(Put(s, c, l), c, l') == Put(s, c, l')
  {
    assert s.loops[c := l][c := l'] == s.loops[c := l'];
  }

  /** A loop step that processes no block. */
  lemma StepPut(s: System, c: nat, input: Input)
    requires c in s.loops && !Processes(s.loops[c])
    ensures Apply(s, LoopStep(c, input)) == Put(s, c, Advance(s.loops[c], input))
  {
    InsertNothing(s.db);
  }

  lemma AnswerPut(s: System, c: nat)
    requires Receives(s, c) && s.loops[c].queue == [GetSnapshot]
    ensures Apply(s, Flush(c, 0)) ==
            Put(s, c, s.loops[c].(queue := [], reply := Some(Reply(s.actor.cache, s.actor.ctx))))
  {
    assert s.loops[c].queue[1..] == [];
  }

  lemma AfterOne(s: System, e: Event)
    ensures After(s, [e]) == Apply(s, e)
  {
    AfterSnoc(s, [], e);
    assert [] + [e] == [e];
  }

  lemma AfterTwo(s: System, a: Event, b: Event)
    ensures After(s, [a, b]) == Apply(Apply(s, a), b)
  {
    AfterOne(s, a);
    AfterSnoc(s, [a], b);
    assert [a] + [b] == [a, b];
  }

  /** A loop step that processes no block, as a run. */
  lemma Steps(s: System, c: nat, input: Input) returns (es: seq<Event>)
    requires c in s.loops && !Processes(s.loops[c]) && input.dbOk
    ensures Calm(es) && After(s, es) == Put(s, c, Advance(s.loops[c], input))
  {
    es := [LoopStep(c, input)];
    AfterOne(s, LoopStep(c, input));
    StepPut(s, c, input);
  }

  /** A loop asks, and the actor answers. */
  lemma Asks(s: System, c: nat, input: Input, pc: Pc) returns (es: seq<Event>)
    requires c in s.loops && s.actor.status.Running? && s.loops[c].link.Installed? && !Processes(s.loops[c])
    requires Advance(s.loops[c], input) == s.loops[c].(pc := pc, queue := [GetSnapshot]) && input.dbOk
    ensures Calm(es)
    ensures After(s, es) ==
            Put(s, c, s.loops[c].(pc := pc, queue := [], reply := Some(Reply(s.actor.cache, s.actor.ctx))))
  {
    var l := s.loops[c].(pc := pc, queue := [GetSnapshot]);
    StepPut(s, c, input);
    AnswerPut(Put(s, c, l), c);
    PutPut(s, c, l, l.(queue := [], reply := Some(Reply(s.actor.cache, s.actor.ctx))));
    es := [LoopStep(c, input), Flush(c, 0)];
    AfterTwo(s, es[0], es[1]);
  }

  /** The loop can be served and has not been. */
  predicate Ready(s: System, c: nat) {
    && c in s.loops && s.actor.status.Running? && s.actor.ctx.Some?
    && s.loops[c].link.Installed? && Shape(s.loops[c]) && s.loops[c].reply.None?
    && (s.loops[c].pc.Starting? || s.loops[c].pc.AwaitContext?)
  }

  /** The loop `l` once it has the snapshot for the round that starts at the actor's target. */
  function Answered(l: Loop, a: State): Loop
    requires a.ctx.Some?
  {
    var t := a.ctx.value.targetBlock;
    l.(pc := AwaitRound(t + 1), target := t, queue := [], reply := Some(Reply(a.cache, a.ctx)))
  }

  lemma LearnsTarget(s: System, c: nat) returns (es: seq<Event>)
    requires Ready(s, c)
    ensures Calm(es)
    ensures After(s, es) ==
            Put(s, c, s.loops[c].(pc := Top, target := s.actor.ctx.value.targetBlock, queue := [], reply := None))
  {
    var l, input := s.loops[c], Input(None, map[], 0, true);
    assert l.queue + [GetSnapshot] == [GetSnapshot] || l.queue == [GetSnapshot];
    var asked := Asks(s, c, input, AwaitContext);
    var l2 := l.(pc := AwaitContext, queue := [], reply := Some(Reply(s.actor.cache, s.actor.ctx)));
    var learned := Steps(Put(s, c, l2), c, input);
    PutPut(s, c, l2, Advance(l2, input));
    es := asked + learned;
    AfterAppend(s, asked, learned);
  }

  lemma SeesBlock(s: System, c: nat, head: nat) returns (es: seq<Event>)
    requires c in s.loops && s.actor.status.Running?
    requires s.loops[c].link.Installed? && Shape(s.loops[c]) && s.loops[c].pc.Top? && s.loops[c].target < head
    ensures Calm(es)
    ensures After(s, es) ==
            Put(s, c, s.loops[c].(pc := AwaitRound(head), queue := [], reply := Some(Reply(s.actor.cache, s.actor.ctx))))
  {
    assert s.loops[c].queue + [GetSnapshot] == [GetSnapshot];
    es := Asks(s, c, Input(Some(head), map[], 0, true), AwaitRound(head));
  }

  /** A new loop learns the target, sees a block there, and gets its snapshot. */
  lemma GetsSnapshot(s: System, c: nat) returns (es: seq<Event>)
    requires Ready(s, c)
    ensures Calm(es) && After(s, es) == Put(s, c, Answered(s.loops[c], s.actor))
  {
    var t := s.actor.ctx.value.targetBlock;
    var l := s.loops[c].(pc := Top, target := t, queue := [], reply := None);
    var learned := LearnsTarget(s, c);
    var seen := SeesBlock(Put(s, c, l), c, t + 1);
    PutPut(s, c, l, Answered(s.loops[c], s.actor));
    es := learned + seen;
    AfterAppend(s, learned, seen);
  }

  // ---- One transaction and one loop ----

  const TX := SentTx(7, 100, None, None, None)
  const CTX := ActorContext(1, 5)
  const PENDING: Snapshot := map[7 := PendingRunTx(TX, None, None)]

  const INIT := Deliver(InitCtx(CTX), Io(true, true))
  const SEND := Deliver(SentRunTx(TX), Io(true, true))
  const REPLACE := Deliver(ReplaceFlushReceiver(1), Io(true, true))

  /** The context is set, transaction 7 is sent, and the loop has a snapshot for block 5. */
  const OPENED := System(State(PENDING, map[], Some(CTX), Running), map[],
                         map[0 := NewLoop(Installed).(pc := AwaitRound(6), target := 5,
                                                      reply := Some(Reply(PENDING, Some(CTX))))])

  lemma Opens() returns (es: seq<Event>)
    ensures Internal(es) && After(BOOT, [INIT, SEND] + es) == OPENED
  {
    var s := System(State(PENDING, map[], Some(CTX), Running), map[], map[0 := NewLoop(Installed)]);
    assert After(BOOT, [INIT, SEND]) == s by {
      AfterTwo(BOOT, INIT, SEND);
      InsertNothing(map[]);
    }
    es := GetsSnapshot(s, 0);
    AfterAppend(BOOT, [INIT, SEND], es);
  }
}
