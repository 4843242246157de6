/**
 Which transactions are matched with the receipts of a block.  A loop processes a block with the cache
 as it was when the actor last answered the loop; a transaction that is sent later misses the block,
 and since no loop of the session processes the block again it is never matched.
 */
module Matching {
  import opened Options
  import opened TxActor
  import opened FlushProtocol
  import opened BlockCoverage

  // ---- The snapshot in use is the last answer ----

  predicate Answers(s: System, e: Event, c: nat) {
    e.Flush? && e.channel == c && Receives(s, c) && s.loops[c].queue[0].GetSnapshot?
  }

  /** The cache when the actor last answered loop `c`. */
  function LastAnswer(es: seq<Event>, c: nat): Snapshot
    decreases |es|
  {
    if es == [] then map[]
    else
      var s := After(BOOT, es[..|es| - 1]);
      if Answers(s, es[|es| - 1], c) then s.actor.cache else LastAnswer(es[..|es| - 1], c)
  }

  /** Whatever snapshot the loop may process a block with is `last`. */
  predicate Uses(l: Loop, last: Snapshot) {
    && (l.reply.Some? ==> l.reply.value.snapshot == last)
    && ((l.pc.AtBlock? || InRound(l.pc)) && l.reply.None? ==> l.pc.round.snapshot == last)
  }

  lemma UsesAdvance(l: Loop, input: Input, last: Snapshot)
    requires Shape(l) && Uses(l, last)
    ensures Uses(Advance(l, input), last)
  {
  }

  lemma UsesStep(s: System, e: Event, c: nat, last: Snapshot)
    requires c in s.loops && Shape(s.loops[c]) && Uses(s.loops[c], last)
    ensures c in Apply(s, e).loops
    ensures Uses(Apply(s, e).loops[c], if Answers(s, e, c) then s.actor.cache else last)
  {
    if e.LoopStep? && e.channel == c {
      UsesAdvance(s.loops[c], e.input, last);
    } else if !(e.Flush? && e.channel == c && Receives(s, c)) {
      Frame(s, e, c);
    }
  }

  lemma {:induction false} SnapshotIsLastAnswer(es: seq<Event>, c: nat)
    requires c in After(BOOT, es).loops
    ensures Uses(After(BOOT, es).loops[c], LastAnswer(es, c))
    decreases |es|
  {
    if es != [] {
      var prefix, e := es[..|es| - 1], es[|es| - 1];
      if c in After(BOOT, prefix).loops {
        SnapshotIsLastAnswer(prefix, c);
        ShapesHold(prefix);
        UsesStep(After(BOOT, prefix), e, c, LastAnswer(prefix, c));
      }
    }
  }

  // ---- Rows for a block ----

  ghost predicate HasRow(db: Table, h: TxHash, b: nat) {
    exists row | row in RowsOf(db, h) :: row.blockNumber == Some(b)
  }

  lemma InsertHasRow(db: Table, rows: map<TxHash, RunTx>, h: TxHash, b: nat)
    ensures HasRow(Insert(db, rows), h, b) <==> HasRow(db, h, b) || (h in rows && rows[h].blockNumber == Some(b))
  {
    var all := RowsOf(db, h) + if h in rows then [rows[h]] else [];
    assert RowsOf(Insert(db, rows), h) == all;
    assert forall row :: row in all <==> row in RowsOf(db, h) || (h in rows && row == rows[h]);
  }

  /** The receipts of every block of the chain. */
  type Receipts = nat -> map<TxHash, Receipt>

  /** No new context, orderly replacements, and loops that meet the receipts of the chain. */
  predicate Follows(s: System, e: Event, chain: Receipts) {
    && KeepsContext(e) && Orderly(s, e)
    && (e.LoopStep? && e.channel in s.loops && Processes(s.loops[e.channel]) ==>
          e.input.receipts == chain(s.loops[e.channel].pc.bn))
  }

  /** The step gives `h` its row for block `b`. */
  predicate Matches(s: System, e: Event, chain: Receipts, h: TxHash, b: nat) {
    LandsAny(s, e) && s.loops[e.channel].pc.bn == b && h in s.loops[e.channel].pc.round.snapshot && h in chain(b)
  }

  lemma RowStep(s: System, e: Event, chain: Receipts, h: TxHash, b: nat)
    requires Follows(s, e, chain)
    ensures HasRow(Apply(s, e).db, h, b) <==> HasRow(s.db, h, b) || Matches(s, e, chain, h, b)
  {
    match e {
      case Deliver(m, io) => InsertHasRow(s.db, Written(s.actor, m, io), h, b);
      case LoopStep(c, input) =>
        if c in s.loops {
          InsertHasRow(s.db, Recording(s.loops[c], input), h, b);
        }
      case _ =>
    }
  }

  predicate AllFollow(s: System, es: seq<Event>, chain: Receipts) {
    es != [] ==>
      && AllFollow(s, es[..|es| - 1], chain) && Follows(After(s, es[..|es| - 1]), es[|es| - 1], chain)
  }

  /** Block `b` is not processed yet, or is behind the active loop. */
  ghost predicate Ahead(s: System, active: nat, h: TxHash, b: nat, floor: nat) {
    SessionAbove(s, active, floor) && (HasRow(s.db, h, b) ==> b < floor)
  }

  lemma AheadStep(s: System, e: Event, active: nat, chain: Receipts, h: TxHash, b: nat, floor: nat)
    requires Ahead(s, active, h, b, floor) && Follows(s, e, chain)
    ensures Ahead(Apply(s, e), NextActive(s, e, active), h, b, NextFloor(s, e, floor))
    ensures LandsAny(s, e) ==> s.loops[e.channel].pc.bn >= floor
  {
    SessionAboveStep(s, e, active, floor);
    RowStep(s, e, chain, h, b);
  }

  /** Before block `b` is processed, no transaction has a row for it. */
  lemma {:induction false} AheadRun(s: System, es: seq<Event>, active: nat, chain: Receipts, h: TxHash, b: nat)
    returns (active': nat, floor: nat)
    requires Session(s, active) && !HasRow(s.db, h, b) && AllFollow(s, es, chain)
    ensures Ahead(After(s, es), active', h, b, floor)
    decreases |es|
  {
    active', floor := active, 0;
    if es != [] {
      var t, e := After(s, es[..|es| - 1]), es[|es| - 1];
      active', floor := AheadRun(s, es[..|es| - 1], active, chain, h, b);
      AheadStep(t, e, active', chain, h, b, floor);
      active', floor := NextActive(t, e, active'), NextFloor(t, e, floor);
    }
  }

  /** Behind the active loop nothing is matched any more. */
  lemma {:induction false} BehindRun(s: System, es: seq<Event>, active: nat, chain: Receipts, h: TxHash, b: nat, floor: nat)
    returns (active': nat, floor': nat)
    requires Ahead(s, active, h, b, floor) && b < floor && AllFollow(s, es, chain)
    ensures b < floor' && Ahead(After(s, es), active', h, b, floor')
    ensures HasRow(After(s, es).db, h, b) <==> HasRow(s.db, h, b)
    decreases |es|
  {
    active', floor' := active, floor;
    if es != [] {
      var t, e := After(s, es[..|es| - 1]), es[|es| - 1];
      active', floor' := BehindRun(s, es[..|es| - 1], active, chain, h, b, floor);
      AheadStep(t, e, active', chain, h, b, floor');
      RowStep(t, e, chain, h, b);
      active', floor' := NextActive(t, e, active'), NextFloor(t, e, floor');
    }
  }

  /**
   Some loop of the session processes block `b` without error at event `e`.  Whatever happens before and
   after, without a new context, a transaction has a row for block `b` in the end if and only if its
   receipt is in the block and it was cached when the actor last answered that loop before the block was
   processed.
   */
  lemma MatchedExactly(run: seq<Event>, es: seq<Event>, e: Event, fs: seq<Event>, chain: Receipts, h: TxHash, b: nat)
    requires AllOrderly(BOOT, run) && !HasRow(After(BOOT, run).db, h, b)
    requires AllFollow(After(BOOT, run), es, chain) && Follows(After(BOOT, run + es), e, chain)
    requires AllFollow(After(BOOT, run + es + [e]), fs, chain)
    requires LandsAny(After(BOOT, run + es), e) && After(BOOT, run + es).loops[e.channel].pc.bn == b
    ensures HasRow(After(BOOT, run + es + [e] + fs).db, h, b) <==>
            h in chain(b) && h in LastAnswer(run + es, e.channel)
  {
    var s, t := After(BOOT, run), After(BOOT, run + es);
    var active := SessionHolds(run);
    AfterAppend(BOOT, run, es);
    var active', floor := AheadRun(s, es, active, chain, h, b);
    AheadStep(t, e, active', chain, h, b, floor);
    RowStep(t, e, chain, h, b);
    AfterSnoc(BOOT, run + es, e);
    active', floor := BehindRun(Apply(t, e), fs, NextActive(t, e, active'), chain, h, b, b + 1);
    AfterAppend(BOOT, run + es + [e], fs);
    SnapshotIsLastAnswer(run + es, e.channel);
    ShapesHold(run + es);
    assert t.loops[e.channel].pc.round.snapshot == LastAnswer(run + es, e.channel);
  }

  lemma {:induction false} NoRowRun(s: System, es: seq<Event>, chain: Receipts, h: TxHash, b: nat)
    requires AllFollow(s, es, chain) && h !in chain(b) && !HasRow(s.db, h, b)
    ensures !HasRow(After(s, es).db, h, b)
    decreases |es|
  {
    if es != [] {
      NoRowRun(s, es[..|es| - 1], chain, h, b);
      RowStep(After(s, es[..|es| - 1]), es[|es| - 1], chain, h, b);
    }
  }

  /**
   A transaction whose receipt is in block `b` only, and whose send is handled after the actor's last
   answer before that block, never gets a row with a block number.
   */
  lemma LateSendIsNeverMatched(run: seq<Event>, es: seq<Event>, e: Event, fs: seq<Event>, chain: Receipts, h: TxHash, b: nat)
    requires AllOrderly(BOOT, run) && forall x :: !HasRow(After(BOOT, run).db, h, x)
    requires AllFollow(After(BOOT, run), es, chain) && Follows(After(BOOT, run + es), e, chain)
    requires AllFollow(After(BOOT, run + es + [e]), fs, chain)
    requires LandsAny(After(BOOT, run + es), e) && After(BOOT, run + es).loops[e.channel].pc.bn == b
    requires h !in LastAnswer(run + es, e.channel) && forall x | x != b :: h !in chain(x)
    ensures forall x :: !HasRow(After(BOOT, run + es + [e] + fs).db, h, x)
  {
    forall x ensures !HasRow(After(BOOT, run + es + [e] + fs).db, h, x) {
      if x == b {
        MatchedExactly(run, es, e, fs, chain, h, b);
      } else {
        NotInBlock(run, es, e, fs, chain, h, x);
      }
    }
  }

  lemma NotInBlock(run: seq<Event>, es: seq<Event>, e: Event, fs: seq<Event>, chain: Receipts, h: TxHash, b: nat)
    requires !HasRow(After(BOOT, run).db, h, b) && h !in chain(b)
    requires AllFollow(After(BOOT, run), es, chain) && Follows(After(BOOT, run + es), e, chain)
    requires AllFollow(After(BOOT, run + es + [e]), fs, chain)
    ensures !HasRow(After(BOOT, run + es + [e] + fs).db, h, b)
  {
    var t := After(BOOT, run + es);
    AfterAppend(BOOT, run, es);
    NoRowRun(After(BOOT, run), es, chain, h, b);
    RowStep(t, e, chain, h, b);
    AfterSnoc(BOOT, run + es, e);
    NoRowRun(Apply(t, e), fs, chain, h, b);
    AfterAppend(BOOT, run + es + [e], fs);
  }
}
