/**
 The actor, its flush loops and the database as one transition system.

 A flush loop is a task of its own: it asks the actor for snapshots over a FIFO channel, matches each
 snapshot against block receipts, writes rows, and asks the actor to drop what it recorded.  Every
 place where the loop awaits or touches shared state is a program counter here, and one `Event` is
 one step of the actor, of a loop, or of the environment.  Receipts, block heads, clocks and failures
 are inputs of the event.  An event that is not enabled leaves the system as it is.
 */
module FlushProtocol {
  import opened Options
  import opened Naturals
  import opened TxActor

  const STALE_BLOCK_LIMIT: nat := 6

  type Snapshot = map<TxHash, PendingRunTx>

  datatype FlushRequest =
    | GetSnapshot
    | RemoveConfirmed(confirmed: set<TxHash>, newTarget: nat)

  /** Where the receiving end of a loop's channel is. */
  datatype Link = InFlight | Installed | Dropped

  datatype Reply = Reply(snapshot: Snapshot, ctx: Option<ActorContext>)

  /** The locals of one pass over the blocks `start..newBlock`. */
  datatype Round = Round(newBlock: nat, start: nat, runId: nat, snapshot: Snapshot)

  datatype Pc =
    | Starting
    | AwaitContext
    | Top
    | AwaitEmpty
    | AwaitRound(newBlock: nat)
    | AtBlock(round: Round, bn: nat)
    | Recorded(round: Round, bn: nat, confirmed: set<TxHash>)
    | Removing(round: Round, bn: nat)
    | AwaitRefresh(round: Round, bn: nat)
    | Closing(round: Round)
    | Exited

  /** `lastPending` is None for the initial `usize::MAX`. */
  datatype Loop = Loop(
    pc: Pc, target: nat, stale: nat, lastPending: Option<nat>, cancelled: bool,
    link: Link, queue: seq<FlushRequest>, reply: Option<Reply>)

  /** The answers a loop step may meet: the chain head, a block's receipts, the insert's outcome. */
  datatype Input = Input(head: Option<nat>, receipts: map<TxHash, Receipt>, timestamp: nat, dbOk: bool)

  /** The rows of the session, by transaction hash and in insertion order. */
  type Table = map<TxHash, seq<RunTx>>

  datatype System = System(actor: State, db: Table, loops: map<nat, Loop>)

  datatype Event =
    | Deliver(message: Message, io: Io)
    | Flush(channel: nat, nowMs: nat)
    | Marked(mark: FlashblockMark)
    | Spawn(channel: nat)
    | Cancel(channel: nat)
    | LoopStep(channel: nat, input: Input)

  function NewLoop(link: Link): Loop {
    Loop(Starting, 0, 0, None, false, link, [], None)
  }

  const BOOT := System(INITIAL, map[], map[0 := NewLoop(Installed)])

  // ---- The database ----

  function RowsOf(db: Table, h: TxHash): seq<RunTx> {
    if h in db then db[h] else []
  }

  /** One committed transaction: a row for each key of `rows`. */
  function Insert(db: Table, rows: map<TxHash, RunTx>): Table {
    map h | h in db.Keys + rows.Keys :: RowsOf(db, h) + if h in rows then [rows[h]] else []
  }

  lemma InsertNothing(db: Table)
    ensures Insert(db, map[]) == db
  {
    assert forall h | h in db :: Insert(db, map[])[h] == db[h];
  }

  // ---- One flush loop ----

  function Exit(l: Loop): Loop {
    l.(pc := Exited)
  }

  function Post(l: Loop, request: FlushRequest): Loop {
    if l.link.Dropped? then l else l.(queue := l.queue + [request])
  }

  /** Sends a GetSnapshot and waits at `pc`; a dropped receiver ends the loop. */
  function Ask(l: Loop, pc: Pc): Loop {
    if l.link.Dropped? then Exit(l) else Post(l, GetSnapshot).(pc := pc)
  }

  function LandedRows(r: Round, bn: nat, input: Input): map<TxHash, RunTx> {
    map h | h in r.snapshot && h in input.receipts ::
      LandedRow(r.snapshot[h], input.receipts[h], Block(bn, input.timestamp), r.runId)
  }

  predicate Processes(l: Loop) {
    l.pc.AtBlock? && l.pc.bn < l.pc.round.newBlock
  }

  /** Block processing succeeds unless there are rows and their insert fails. */
  predicate Succeeds(l: Loop, input: Input)
    requires Processes(l)
  {
    input.dbOk || LandedRows(l.pc.round, l.pc.bn, input) == map[]
  }

  /** The rows a loop step commits. */
  function Recording(l: Loop, input: Input): map<TxHash, RunTx> {
    if Processes(l) && input.dbOk then LandedRows(l.pc.round, l.pc.bn, input) else map[]
  }

  function Resume(l: Loop, a: Reply): Loop {
    match l.pc
    case AwaitContext =>
      if a.ctx.Some? then l.(pc := Top, target := a.ctx.value.targetBlock) else l.(pc := Starting)
    case AwaitEmpty =>
      if a.snapshot == map[] then Exit(l) else l.(pc := Top)
    case AwaitRound(newBlock) =>
      if a.ctx.None? then l.(pc := Top)
      else
        var t := a.ctx.value.targetBlock;
        if t >= newBlock then l.(pc := Top, target := t)
        else if l.cancelled && a.snapshot == map[] then Exit(l.(target := t))
        else l.(pc := AtBlock(Round(newBlock, t, a.ctx.value.runId, a.snapshot), t), target := t)
    case AwaitRefresh(r, bn) =>
      if a.ctx.None? then l.(pc := Closing(r))
      else
        var l', r' := l.(target := a.ctx.value.targetBlock), r.(snapshot := a.snapshot);
        if a.snapshot != map[] then l'.(pc := AtBlock(r', bn + 1))
        else if l.cancelled then Exit(l')
        else l'.(pc := Closing(r'))
    case _ => l
  }

  /** The reply will never come. */
  function Cut(l: Loop): Loop {
    match l.pc
    case AwaitContext | AwaitRound(_) => Exit(l)
    case AwaitEmpty => l.(pc := Top)
    case AwaitRefresh(r, _) => l.(pc := Closing(r))
    case _ => l
  }

  /** The end of a round: the local target jumps, and an unchanged pending count counts as stale. */
  function Close(l: Loop, r: Round): Loop {
    var l' := l.(pc := Top, target := Max(l.target, r.newBlock));
    if !l.cancelled || r.snapshot == map[] then l'
    else
      var count := |r.snapshot|;
      var l'' := if l.lastPending == Some(count)
                 then l'.(stale := l.stale + Max(SaturatingSub(r.newBlock, r.start), 1))
                 else l'.(stale := 0, lastPending := Some(count));
      if l''.stale >= STALE_BLOCK_LIMIT then Exit(l'') else l''
  }

  function Advance(l: Loop, input: Input): Loop {
    match l.pc
    case Starting => Ask(l, AwaitContext)
    case Top =>
      if input.head.None? then l
      else if l.target < input.head.value then Ask(l, AwaitRound(input.head.value))
      else if l.cancelled then Ask(l, AwaitEmpty)
      else l
    case AwaitContext | AwaitEmpty | AwaitRound(_) | AwaitRefresh(_, _) =>
      if l.reply.Some? then Resume(l.(reply := None), l.reply.value)
      else if l.link.Dropped? then Cut(l)
      else l
    case AtBlock(r, bn) =>
      if bn >= r.newBlock then l.(pc := Closing(r))
      else if Succeeds(l, input) then l.(pc := Recorded(r, bn, r.snapshot.Keys * input.receipts.Keys))
      else l.(pc := AtBlock(r, bn + 1))
    case Recorded(r, bn, confirmed) => Post(l, RemoveConfirmed(confirmed, bn + 1)).(pc := Removing(r, bn))
    case Removing(r, bn) => Ask(l, AwaitRefresh(r, bn))
    case Closing(r) => Close(l, r)
    case Exited => l
  }

  // ---- The system ----

  function DropReceiver(l: Loop): Loop {
    l.(link := Dropped, queue := [])
  }

  function DropAll(loops: map<nat, Loop>): map<nat, Loop> {
    map c | c in loops :: DropReceiver(loops[c])
  }

  /** Channel `c` takes over; the receiver it replaces is dropped with whatever is queued in it. */
  function Install(loops: map<nat, Loop>, c: nat): map<nat, Loop> {
    map k | k in loops ::
      if k == c then loops[k].(link := Installed)
      else if loops[k].link.Installed? then DropReceiver(loops[k])
      else loops[k]
  }

  predicate Receives(s: System, c: nat) {
    c in s.loops && s.actor.status.Running? && s.loops[c].link.Installed? && s.loops[c].queue != []
  }

  function DeliverTo(s: System, m: Message, io: Io): System {
    var a := Handle(s.actor, m, io);
    System(a, Insert(s.db, Written(s.actor, m, io)),
           if !a.status.Running? then DropAll(s.loops)
           else if m.ReplaceFlushReceiver? && m.channel in s.loops && s.loops[m.channel].link.InFlight?
           then Install(s.loops, m.channel)
           else s.loops)
  }

  function FlushTo(s: System, c: nat, nowMs: nat): System
    requires Receives(s, c)
  {
    var l := s.loops[c];
    var rest := l.(queue := l.queue[1..]);
    match l.queue[0]
    case GetSnapshot =>
      s.(loops := s.loops[c := rest.(reply := Some(Reply(s.actor.cache, s.actor.ctx)))])
    case RemoveConfirmed(confirmed, newTarget) =>
      s.(actor := Confirm(s.actor, confirmed, newTarget, nowMs), loops := s.loops[c := rest])
  }

  function Apply(s: System, e: Event): System {
    match e
    case Deliver(m, io) => if s.actor.status.Running? then DeliverTo(s, m, io) else s
    case Flush(c, now) => if Receives(s, c) then FlushTo(s, c, now) else s
    case Marked(m) => if s.actor.status.Running? then s.(actor := ReceiveMark(s.actor, m)) else s
    case Spawn(c) =>
      if s.actor.status.Running? && c !in s.loops
      then s.(loops := s.loops[c := NewLoop(InFlight)]) else s
    case Cancel(c) =>
      if c in s.loops then s.(loops := s.loops[c := s.loops[c].(cancelled := true)]) else s
    case LoopStep(c, input) =>
      if c in s.loops
      then s.(db := Insert(s.db, Recording(s.loops[c], input)),
              loops := s.loops[c := Advance(s.loops[c], input)])
      else s
  }

  /** The state after a sequence of events. */
  function After(s: System, es: seq<Event>): System
    decreases |es|
  {
    if es == [] then s else Apply(After(s, es[..|es| - 1]), es[|es| - 1])
  }

  lemma AfterSnoc(s: System, es: seq<Event>, e: Event)
    ensures After(s, es + [e]) == Apply(After(s, es), e)
  {
    assert (es + [e])[..|es|] == es;
  }

  lemma {:induction false} AfterAppend(s: System, es: seq<Event>, fs: seq<Event>)
    ensures After(s, es + fs) == After(After(s, es), fs)
    decreases |fs|
  {
    if fs == [] {
      assert es + fs == es;
    } else {
      var n := |fs| - 1;
      AfterAppend(s, es, fs[..n]);
      AfterSnoc(s, es + fs[..n], fs[n]);
      assert es + fs == es + fs[..n] + [fs[n]];
    }
  }

  /** What the other parties can do to a loop, besides answering its requests. */
  predicate Touched(l: Loop, l': Loop) {
    || l' == l || l' == DropReceiver(l) || l' == l.(cancelled := true)
    || (l.link.InFlight? && l' == l.(link := Installed))
  }

  lemma Frame(s: System, e: Event, c: nat)
    requires c in s.loops
    requires !(e.LoopStep? && e.channel == c) && !(e.Flush? && e.channel == c && Receives(s, c))
    ensures c in Apply(s, e).loops && Touched(s.loops[c], Apply(s, e).loops[c])
  {
  }

  // ---- Shape of a loop's channel ----

  predicate Awaits(pc: Pc) {
    pc.AwaitContext? || pc.AwaitEmpty? || pc.AwaitRound? || pc.AwaitRefresh?
  }

  /** The loop has processed block `bn` and not yet seen the refreshed snapshot. */
  predicate InRound(pc: Pc) {
    pc.Recorded? || pc.Removing? || pc.AwaitRefresh?
  }

  predicate MidRound(pc: Pc) {
    pc.AtBlock? || InRound(pc) || pc.Closing?
  }

  /** The loop has a `cache_snapshot` in scope, or one on its way. */
  predicate HoldsSnapshot(l: Loop) {
    MidRound(l.pc) || (l.pc.AwaitRound? && l.reply.Some?)
  }

  /** The loop's next step passes both target checks: it starts on the new blocks, or exits. */
  predicate Enters(l: Loop) {
    && l.pc.AwaitRound? && l.reply.Some? && l.reply.value.ctx.Some?
    && l.reply.value.ctx.value.targetBlock < l.pc.newBlock
  }

  /** The receiver is replaced by the one of a spawned loop. */
  predicate Replaces(s: System, e: Event) {
    && s.actor.status.Running? && e.Deliver? && e.message.ReplaceFlushReceiver?
    && e.message.channel in s.loops && s.loops[e.message.channel].link.InFlight?
  }

  /** A loop whose receiver has not reached the actor has seen nothing. */
  predicate Unserved(l: Loop) {
    l.link.InFlight? ==> (l.pc.Starting? || l.pc.AwaitContext?) && l.reply.None?
  }

  /** A loop has at most one snapshot request outstanding, with at most one removal in front of it. */
  predicate Shape(l: Loop) {
    (l.link.Dropped? ==> l.queue == []) &&
    if Awaits(l.pc) then
      || (l.reply.Some? && l.queue == [])
      || (l.reply.None? && (
          || l.queue == [GetSnapshot]
          || (l.link.Dropped? && l.queue == [])
          || (l.pc.AwaitRefresh? && |l.queue| == 2 && l.queue[0].RemoveConfirmed? &&
              l.queue[0].newTarget == l.pc.bn + 1 && l.queue[1] == GetSnapshot)))
    else
      && l.reply.None?
      && (l.queue == [] ||
          (l.pc.Removing? && |l.queue| == 1 && l.queue[0].RemoveConfirmed? &&
           l.queue[0].newTarget == l.pc.bn + 1))
  }

  predicate Shapes(s: System) {
    forall c | c in s.loops :: Shape(s.loops[c])
  }

  lemma ShapeAdvance(l: Loop, input: Input)
    requires Shape(l)
    ensures Shape(Advance(l, input))
  {
  }

  lemma ShapeStep(s: System, e: Event)
    requires Shapes(s)
    ensures Shapes(Apply(s, e))
  {
    if e.LoopStep? && e.channel in s.loops {
      ShapeAdvance(s.loops[e.channel], e.input);
    }
  }

  /** In every run a channel holds at most two requests, so its bound of 64 is never reached. */
  lemma {:induction false} ShapesHold(es: seq<Event>)
    ensures Shapes(After(BOOT, es))
    ensures forall c | c in After(BOOT, es).loops :: |After(BOOT, es).loops[c].queue| <= 2
    decreases |es|
  {
    if es != [] {
      ShapesHold(es[..|es| - 1]);
      ShapeStep(After(BOOT, es[..|es| - 1]), es[|es| - 1]);
    }
  }
}
