/**
 The pending-transaction actor: a cache of sent transactions that have no receipt yet, a bounded
 buffer of flashblock marks that arrived before their transaction, and the context of the run.

 The first part gives each handler as a function on actor states.  The class at the end holds the
 same state in fields, updates it in place, and is proved against those functions.
 */
module TxActor {
  import opened Options
  import opened Naturals

  type TxHash = nat

  const MAX_PENDING_FLASHBLOCK_MARKS: nat := 1024
  const MARK_LIFETIME_MS: nat := 20_000

  /** What a sender reports about a transaction. */
  datatype SentTx = SentTx(
    hash: TxHash, startMs: nat, endMs: Option<nat>, kind: Option<string>, error: Option<string>)

  /** A cached transaction: the report, and the flashblock mark once there is one. */
  datatype PendingRunTx = PendingRunTx(sent: SentTx, markMs: Option<nat>, markIndex: Option<nat>)

  datatype FlashblockMark = FlashblockMark(hash: TxHash, timestampMs: nat, index: nat)

  datatype ActorContext = ActorContext(runId: nat, targetBlock: nat)

  datatype Receipt = Receipt(success: bool, gasUsed: nat)

  datatype Block = Block(number: nat, timestamp: nat)

  /** A row of the `run_txs` table. */
  datatype RunTx = RunTx(
    runId: nat, hash: TxHash, startMs: nat, endMs: Option<nat>, blockNumber: Option<nat>,
    gasUsed: Option<nat>, kind: Option<string>, error: Option<string>,
    flashblockLatencyMs: Option<nat>, flashblockIndex: Option<nat>)

  datatype Status = Running | ShuttingDown | Failed

  datatype State = State(
    cache: map<TxHash, PendingRunTx>,
    marks: map<TxHash, (nat, nat)>,
    ctx: Option<ActorContext>,
    status: Status)

  datatype Message =
    | InitCtx(ctx: ActorContext)
    | GetCacheLen
    | SentRunTx(tx: SentTx)
    | RemovedRunTx(hash: TxHash)
    | DumpCache(runId: nat)
    | Stop
    | ReplaceFlushReceiver(channel: nat)
    | ClearCache

  /** What the outside does to one message: whether the insert commits and the caller still listens. */
  datatype Io = Io(dbOk: bool, heard: bool)

  const INITIAL := State(map[], map[], None, Running)

  function FlashblockLatencyMs(p: PendingRunTx): Option<nat> {
    if p.markMs.Some? then Some(SaturatingSub(p.markMs.value, p.sent.startMs)) else None
  }

  /** The row of a transaction that is dumped without a receipt. */
  function DumpedRow(p: PendingRunTx, runId: nat): RunTx {
    RunTx(runId, p.sent.hash, p.sent.startMs, p.sent.endMs, None, None, p.sent.kind, p.sent.error,
          FlashblockLatencyMs(p), p.markIndex)
  }

  /** The row of a transaction whose receipt was found in `block`. */
  function LandedRow(p: PendingRunTx, receipt: Receipt, block: Block, runId: nat): RunTx {
    RunTx(runId, p.sent.hash, p.sent.startMs,
          if p.sent.endMs.Some? then p.sent.endMs else Some(block.timestamp * 1000),
          Some(block.number), Some(receipt.gasUsed), p.sent.kind,
          if receipt.success then p.sent.error else Some("execution reverted"),
          FlashblockLatencyMs(p), p.markIndex)
  }

  /** The transaction enters the cache and takes along a mark that arrived early. */
  function Send(a: State, tx: SentTx): State {
    var entry := if tx.hash in a.marks
                 then PendingRunTx(tx, Some(a.marks[tx.hash].0), Some(a.marks[tx.hash].1))
                 else PendingRunTx(tx, None, None);
    a.(cache := a.cache[tx.hash := entry], marks := a.marks - {tx.hash})
  }

  /** The first mark of a cached transaction is kept; other marks wait, while there is room. */
  function ReceiveMark(a: State, m: FlashblockMark): State {
    if m.hash in a.cache then
      if a.cache[m.hash].markMs.None? then
        a.(cache := a.cache[m.hash :=
          a.cache[m.hash].(markMs := Some(m.timestampMs), markIndex := Some(m.index))])
      else a
    else if |a.marks| >= MAX_PENDING_FLASHBLOCK_MARKS || m.hash in a.marks then a
    else a.(marks := a.marks[m.hash := (m.timestampMs, m.index)])
  }

  predicate Fresh(mark: (nat, nat), nowMs: nat) {
    SaturatingSub(nowMs, mark.0) < MARK_LIFETIME_MS
  }

  /** Transactions that are already in the database leave the cache; the target block only advances. */
  function Confirm(a: State, confirmed: set<TxHash>, newTarget: nat, nowMs: nat): State {
    a.(cache := a.cache - confirmed,
       marks := map h | h in a.marks && h !in confirmed && Fresh(a.marks[h], nowMs) :: a.marks[h],
       ctx := if a.ctx.Some? && newTarget > a.ctx.value.targetBlock
              then Some(a.ctx.value.(targetBlock := newTarget)) else a.ctx)
  }

  function DumpRows(a: State, runId: nat): map<TxHash, RunTx> {
    map h | h in a.cache :: DumpedRow(a.cache[h], runId)
  }

  /** Whether the handler returns an error, which ends the actor. */
  predicate Fails(a: State, m: Message, io: Io) {
    match m
    case RemovedRunTx(h) => h !in a.cache || !io.heard
    case DumpCache(_) => !io.dbOk || !io.heard
    case GetCacheLen | SentRunTx(_) | ClearCache => !io.heard
    case InitCtx(_) | Stop | ReplaceFlushReceiver(_) => false
  }

  /** The state after one external message.  Which channel feeds the actor is not part of it. */
  function Handle(a: State, m: Message, io: Io): State {
    var a' :=
      match m
      case InitCtx(ctx) => a.(ctx := Some(ctx))
      case SentRunTx(tx) => Send(a, tx)
      case RemovedRunTx(h) => a.(cache := a.cache - {h})
      case DumpCache(_) => if io.dbOk then a.(cache := map[]) else a
      case ClearCache => a.(cache := map[])
      case Stop => a.(status := ShuttingDown)
      case GetCacheLen | ReplaceFlushReceiver(_) => a;
    if Fails(a, m, io) then a'.(status := Failed) else a'
  }

  /** The rows that the handler commits. */
  function Written(a: State, m: Message, io: Io): map<TxHash, RunTx> {
    if m.DumpCache? && io.dbOk then DumpRows(a, m.runId) else map[]
  }

  // ---- A run of the actor on its own ----

  /** What the actor takes from its channels. */
  datatype Request =
    | External(message: Message, io: Io)
    | SnapshotRequest
    | Confirmed(hashes: seq<TxHash>, newTarget: nat, nowMs: nat)
    | Mark(mark: FlashblockMark)

  /** Taking a request; an actor that is not running takes none. */
  function Serve(a: State, r: Request): State {
    if !a.status.Running? then a
    else
      match r
      case External(m, io) => Handle(a, m, io)
      case SnapshotRequest => a
      case Confirmed(hashes, newTarget, nowMs) => Confirm(a, (set h | h in hashes), newTarget, nowMs)
      case Mark(m) => ReceiveMark(a, m)
  }

  function Served(a: State, rs: seq<Request>): State
    decreases |rs|
  {
    if rs == [] then a else Serve(Served(a, rs[..|rs| - 1]), rs[|rs| - 1])
  }

  lemma {:induction false} ServedStops(a: State, rs: seq<Request>, k: nat)
    requires k <= |rs| && !Served(a, rs[..k]).status.Running?
    ensures Served(a, rs) == Served(a, rs[..k])
    decreases |rs|
  {
    if k < |rs| {
      assert rs[..|rs| - 1][..k] == rs[..k];
      ServedStops(a, rs[..|rs| - 1], k);
    } else {
      assert rs[..k] == rs;
    }
  }

  /** The actor with its fields, one method per handler. */
  class Actor {
    var cache: map<TxHash, PendingRunTx>
    var pendingMarks: map<TxHash, (nat, nat)>
    var ctx: Option<ActorContext>
    var status: Status

    ghost function Contents(): State
      reads this
    {
      State(cache, pendingMarks, ctx, status)
    }

    constructor ()
      ensures Contents() == INITIAL
    {
      cache, pendingMarks, ctx, status := map[], map[], None, Running;
    }

    method HandleMessage(m: Message, io: Io) returns (rows: map<TxHash, RunTx>, ok: bool)
      modifies this
      ensures Contents() == Handle(old(Contents()), m, io)
      ensures rows == Written(old(Contents()), m, io)
      ensures ok <==> !Fails(old(Contents()), m, io)
    {
      rows, ok := map[], io.heard;
      match m {
        case InitCtx(c) =>
          ctx, ok := Some(c), true;
        case GetCacheLen =>
        case SentRunTx(tx) =>
          var markMs: Option<nat>, markIndex: Option<nat> := None, None;
          if tx.hash in pendingMarks {
            markMs, markIndex := Some(pendingMarks[tx.hash].0), Some(pendingMarks[tx.hash].1);
          }
          pendingMarks := pendingMarks - {tx.hash};
          cache := cache[tx.hash := PendingRunTx(tx, markMs, markIndex)];
        case RemovedRunTx(h) =>
          ok := h in cache && io.heard;
          cache := cache - {h};
        case DumpCache(runId) =>
          ok := io.dbOk && io.heard;
          if io.dbOk {
            rows := map h | h in cache :: DumpedRow(cache[h], runId);
            cache := map[];
          }
        case Stop =>
          status, ok := ShuttingDown, true;
        case ReplaceFlushReceiver(_) =>
          ok := true;
        case ClearCache =>
          cache := map[];
      }
      if !ok {
        status := Failed;
      }
    }

    method HandleFlashblockMark(m: FlashblockMark)
      modifies this
      ensures Contents() == ReceiveMark(old(Contents()), m)
    {
      if m.hash in cache {
        var entry := cache[m.hash];
        if entry.markMs.None? {
          cache := cache[m.hash := entry.(markMs := Some(m.timestampMs), markIndex := Some(m.index))];
        }
      } else if |pendingMarks| < MAX_PENDING_FLASHBLOCK_MARKS {
        if m.hash !in pendingMarks {
          pendingMarks := pendingMarks[m.hash := (m.timestampMs, m.index)];
        }
      }
    }

    /** The GetSnapshot request. */
    method Snapshot() returns (snapshot: map<TxHash, PendingRunTx>, context: Option<ActorContext>)
      ensures snapshot == cache && context == ctx
    {
      snapshot, context := cache, ctx;
    }

    /** The RemoveConfirmed request; `hashes` may list a hash more than once. */
    method RemoveConfirmed(hashes: seq<TxHash>, newTarget: nat, nowMs: nat)
      modifies this
      ensures Contents() == Confirm(old(Contents()), (set h | h in hashes), newTarget, nowMs)
    {
      ghost var confirmed := set h | h in hashes;
      for i := 0 to |hashes|
        invariant cache == old(cache) - set h | h in hashes[..i]
        invariant pendingMarks == old(pendingMarks) && ctx == old(ctx) && status == old(status)
      {
        cache := cache - {hashes[i]};
      }
      assert hashes[..|hashes|] == hashes;
      for i := 0 to |hashes|
        invariant pendingMarks == old(pendingMarks) - set h | h in hashes[..i]
        invariant cache == old(cache) - confirmed && ctx == old(ctx) && status == old(status)
      {
        pendingMarks := pendingMarks - {hashes[i]};
      }
      pendingMarks := map h | h in pendingMarks && Fresh(pendingMarks[h], nowMs) :: pendingMarks[h];
      if ctx.Some? && newTarget > ctx.value.targetBlock {
        ctx := Some(ctx.value.(targetBlock := newTarget));
      }
    }

    /** The actor's main loop over the requests that arrive, in the order in which it takes them. */
    method Run(rs: seq<Request>)
      modifies this
      ensures Contents() == Served(old(Contents()), rs)
    {
      ghost var start := Contents();
      for i := 0 to |rs|
        invariant Contents() == Served(start, rs[..i])
      {
        assert rs[..i + 1][..i] == rs[..i];
        if status != Running {
          ServedStops(start, rs, i);
          return;
        }
        match rs[i] {
          case External(m, io) =>
            var rows, ok := HandleMessage(m, io);
          case SnapshotRequest =>
            var snapshot, context := Snapshot();
          case Confirmed(hashes, newTarget, nowMs) =>
            RemoveConfirmed(hashes, newTarget, nowMs);
          case Mark(m) =>
            HandleFlashblockMark(m);
        }
      }
      assert rs[..|rs|] == rs;
    }
  }
}
