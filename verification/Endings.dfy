/**
 What becomes of the transactions once the actor has ended, by a stop or by a handler that failed.  The
 flush loops notice at their next request and exit; until then they may still write what they hold.  So
 a transaction can get a row exactly if it has one or a loop can still write it, and everything else
 that was cached is lost.
 */
module Endings {
  import opened TxActor
  import opened FlushProtocol
  import opened Delivery
  import opened SingleRow
  import opened RowRaces
  import opened Scenes

  /** The actor has ended, and with it the receivers of all channels. */
  ghost predicate Ended(s: System) {
    && !s.actor.status.Running? && Shapes(s)
    && forall c | c in s.loops :: s.loops[c].link.Dropped?
  }

  lemma EndedStep(s: System, e: Event)
    requires Shapes(s) && (!s.actor.status.Running? ==> Ended(s)) && !Apply(s, e).actor.status.Running?
    ensures Ended(Apply(s, e))
  {
    ShapeStep(s, e);
    if s.actor.status.Running? {
      assert e.Deliver? && Apply(s, e).loops == DropAll(s.loops);
    } else if e.LoopStep? && e.channel in s.loops {
      LinkStays(s.loops[e.channel], e.input);
    }
  }

  lemma LinkStays(l: Loop, input: Input)
    ensures Advance(l, input).link == l.link
  {
  }

  lemma {:induction false} EndedHolds(es: seq<Event>)
    requires !After(BOOT, es).actor.status.Running?
    ensures Ended(After(BOOT, es))
    decreases |es|
  {
    if es != [] {
      var s, e := After(BOOT, es[..|es| - 1]), es[|es| - 1];
      if !s.actor.status.Running? {
        EndedHolds(es[..|es| - 1]);
      }
      ShapesHold(es[..|es| - 1]);
      EndedStep(s, e);
    }
  }

  /** The table has a row, or a loop can still write one. */
  ghost predicate WithinReach(s: System, h: TxHash) {
    h in s.db || exists c | c in s.loops :: h in Writable(s.loops[c])
  }

  lemma LoopReach(s: System, c: nat, input: Input, h: TxHash)
    requires Ended(s) && c in s.loops && WithinReach(Apply(s, LoopStep(c, input)), h)
    ensures WithinReach(s, h)
  {
    var s' := Apply(s, LoopStep(c, input));
    AnyAdvance(s.loops[c], input);
    if h in s'.db && h !in s.db {
      assert h in Recording(s.loops[c], input);
    } else if h !in s.db {
      var k :| k in s'.loops && h in Writable(s'.loops[k]);
      assert k in s.loops && h in Writable(s.loops[k]);
    }
  }

  lemma CancelReach(s: System, c: nat, h: TxHash)
    requires Ended(s) && WithinReach(Apply(s, Cancel(c)), h)
    ensures WithinReach(s, h)
  {
    var s' := Apply(s, Cancel(c));
    if h !in s.db {
      var k :| k in s'.loops && h in Writable(s'.loops[k]);
      assert k in s.loops && Writable(s'.loops[k]) == Writable(s.loops[k]);
    }
  }

  /** Nothing comes within reach any more. */
  lemma ReachStep(s: System, e: Event, h: TxHash)
    requires Ended(s) && WithinReach(Apply(s, e), h)
    ensures WithinReach(s, h)
  {
    match e {
      case LoopStep(c, input) =>
        if c in s.loops {
          LoopReach(s, c, input, h);
        }
      case Cancel(c) => CancelReach(s, c, h);
      case _ => assert Apply(s, e) == s;
    }
  }

  lemma {:induction false} ReachRun(s: System, es: seq<Event>, h: TxHash)
    requires Ended(s) && WithinReach(After(s, es), h)
    ensures Ended(After(s, es)) && WithinReach(s, h)
    decreases |es|
  {
    if es != [] {
      var t, e := After(s, es[..|es| - 1]), es[|es| - 1];
      EndedRun(s, es[..|es| - 1]);
      ReachStep(t, e, h);
      ReachRun(s, es[..|es| - 1], h);
      EndedRun(s, es);
    }
  }

  lemma {:induction false} EndedRun(s: System, es: seq<Event>)
    requires Ended(s)
    ensures Ended(After(s, es))
    decreases |es|
  {
    if es != [] {
      EndedRun(s, es[..|es| - 1]);
      StaysEnded(After(s, es[..|es| - 1]), es[|es| - 1]);
      EndedStep(After(s, es[..|es| - 1]), es[|es| - 1]);
    }
  }

  /** Once the actor has ended, some continuation gives the hash a row if and only if it is within reach. */
  lemma RecordedExactly(run: seq<Event>, h: TxHash)
    requires !After(BOOT, run).actor.status.Running?
    ensures (exists es :: h in After(BOOT, run + es).db) <==> WithinReach(After(BOOT, run), h)
  {
    var s := After(BOOT, run);
    EndedHolds(run);
    if es :| h in After(BOOT, run + es).db {
      AfterAppend(BOOT, run, es);
      ReachRun(s, es, h);
    }
    if h in s.db {
      assert run + [] == run;
      assert h in After(BOOT, run + []).db;
    } else if c :| c in s.loops && h in Writable(s.loops[c]) {
      var es := WriteOut(s, c, h);
      AfterAppend(BOOT, run, es);
      assert RowCount(After(s, es), h) == 1;
      assert h in After(BOOT, run + es).db;
    }
  }

  const FAILED_DUMP := Deliver(DumpCache(1), Io(false, true))

  /** A dump whose insert fails ends the actor, and the transaction sent before never gets a row. */
  lemma LostOnFailedDump(es: seq<Event>)
    ensures var s := After(BOOT, [SEND, FAILED_DUMP] + es);
            s.actor.status.Failed? && 7 !in s.db && !Kept(s, 7)
  {
    var run := [SEND, FAILED_DUMP];
    var s := After(BOOT, run);
    AfterTwo(BOOT, SEND, FAILED_DUMP);
    InsertNothing(map[]);
    assert s.actor.status.Failed? && s.db == map[] && s.loops == map[0 := DropReceiver(NewLoop(Installed))];
    AfterAppend(BOOT, run, es);
    EndedHolds(run);
    EndedRun(s, es);
    EndedActor(s, es);
    if 7 in After(s, es).db {
      ReachRun(s, es, 7);
      assert false;
    }
  }

  lemma {:induction false} EndedActor(s: System, es: seq<Event>)
    requires !s.actor.status.Running?
    ensures After(s, es).actor == s.actor
    decreases |es|
  {
    if es != [] {
      EndedActor(s, es[..|es| - 1]);
      StaysEnded(After(s, es[..|es| - 1]), es[|es| - 1]);
    }
  }
}
