/**
 The other half of the at-most-one-row property: whenever a dump or a replacement of the flush
 receiver finds a cached transaction exposed, the loops alone can bring the transaction to two rows.
 So a run is safe exactly if none of its dumps and replacements exposes anything.
 */
module RowRaces {
  import opened Options
  import opened TxActor
  import opened FlushProtocol
  import opened Delivery
  import opened SingleRow
  import opened Scenes

  function RowCount(s: System, h: TxHash): nat {
    |RowsOf(s.db, h)|
  }

  // ---- What a loop can write, it can be made to write ----

  lemma FindsRow(s: System, c: nat, h: TxHash)
    requires c in s.loops && Processes(s.loops[c]) && h in s.loops[c].pc.round.snapshot
    ensures var s' := Apply(s, Finds(c, h, true));
            && RowCount(s', h) == RowCount(s, h) + 1 && s'.actor == s.actor
            && s'.loops == s.loops[c := Advance(s.loops[c], Finds(c, h, true).input)]
  {
    assert h in Recording(s.loops[c], Finds(c, h, true).input);
  }

  /** A loop that enters, or gets its refreshed snapshot, comes to a block. */
  lemma ComesToBlock(l: Loop, h: TxHash)
    requires h in Writable(l) && !Processes(l)
    ensures var l' := Advance(l, Idle(0).input);
            Processes(l') && h in l'.pc.round.snapshot
  {
  }

  lemma WriteOut(s: System, c: nat, h: TxHash) returns (es: seq<Event>)
    requires c in s.loops && h in Writable(s.loops[c])
    ensures Internal(es)
    ensures var s' := After(s, es);
            && RowCount(s', h) == RowCount(s, h) + 1 && s'.actor == s.actor
            && forall k | k in s.loops && k != c :: k in s'.loops && s'.loops[k] == s.loops[k]
    decreases if Processes(s.loops[c]) then 0 else 1
  {
    if Processes(s.loops[c]) {
      es := [Finds(c, h, true)];
      AfterOne(s, es[0]);
      FindsRow(s, c, h);
    } else {
      var input := Idle(0).input;
      var first := Steps(s, c, input);
      ComesToBlock(s.loops[c], h);
      var t := Put(s, c, Advance(s.loops[c], input));
      var second := WriteOut(t, c, h);
      es := first + second;
      AfterAppend(s, first, second);
    }
  }

  /** A loop that has seen nothing yet can be made to write whatever is cached. */
  lemma CatchUp(s: System, c: nat, h: TxHash) returns (es: seq<Event>)
    requires Ready(s, c) && h in s.actor.cache
    ensures Internal(es) && RowCount(After(s, es), h) == RowCount(s, h) + 1
  {
    var asked := GetsSnapshot(s, c);
    var written := WriteOut(Put(s, c, Answered(s.loops[c], s.actor)), c, h);
    es := asked + written;
    AfterAppend(s, asked, written);
  }

  // ---- A loop at work has seen a context ----

  predicate Seen(l: Loop) {
    !(l.pc.Starting? || l.pc.AwaitContext? || l.pc.Exited?) || (l.reply.Some? && l.reply.value.ctx.Some?)
  }

  ghost predicate ContextSeen(s: System) {
    forall c | c in s.loops && Seen(s.loops[c]) :: s.actor.ctx.Some?
  }

  lemma SeenAdvance(l: Loop, input: Input)
    requires Seen(Advance(l, input))
    ensures Seen(l)
  {
  }

  lemma ContextStays(s: System, e: Event)
    requires s.actor.ctx.Some?
    ensures Apply(s, e).actor.ctx.Some?
  {
    match e {
      case Deliver(m, io) => assert Handle(s.actor, m, io).ctx.Some?;
      case _ =>
    }
  }

  lemma SeenBefore(s: System, e: Event, c: nat)
    requires c in Apply(s, e).loops && Seen(Apply(s, e).loops[c])
    ensures s.actor.ctx.Some? || (c in s.loops && Seen(s.loops[c]))
  {
    if e.LoopStep? && e.channel == c {
      SeenAdvance(s.loops[c], e.input);
    } else if c in s.loops && !(e.Flush? && e.channel == c && Receives(s, c)) {
      Frame(s, e, c);
    }
  }

  lemma {:induction false} ContextSeenHolds(es: seq<Event>)
    ensures ContextSeen(After(BOOT, es))
    decreases |es|
  {
    if es != [] {
      var s, e := After(BOOT, es[..|es| - 1]), es[|es| - 1];
      ContextSeenHolds(es[..|es| - 1]);
      forall c | c in Apply(s, e).loops && Seen(Apply(s, e).loops[c]) ensures Apply(s, e).actor.ctx.Some? {
        SeenBefore(s, e, c);
        ContextStays(s, e);
      }
    }
  }

  // ---- An exposed transaction can get two rows ----

  lemma DumpExposes(s: System, e: Event, h: TxHash, c: nat) returns (es: seq<Event>)
    requires Dumps(s, e) && h in s.actor.cache && c in s.loops
    requires h in Writable(s.loops[c]) || RowCount(s, h) >= 1
    ensures Internal(es) && RowCount(After(Apply(s, e), es), h) >= 2
  {
    var s' := Apply(s, e);
    assert h in Written(s.actor, e.message, e.io);
    assert RowCount(s', h) == RowCount(s, h) + 1;
    if RowCount(s, h) >= 1 {
      es := [];
    } else {
      assert Writable(s'.loops[c]) == Writable(s.loops[c]);
      es := WriteOut(s', c, h);
    }
  }

  lemma ReplaceExposes(s: System, e: Event, h: TxHash, c: nat) returns (es: seq<Event>)
    requires Replaces(s, e) && h in s.actor.cache && c in s.loops && s.loops[c].link.Installed?
    requires h in Writable(s.loops[c]) || RowCount(s, h) >= 1
    requires s.actor.ctx.Some? && Shapes(s) && Unserved(s.loops[e.message.channel])
    ensures Internal(es) && RowCount(After(Apply(s, e), es), h) >= 2
  {
    var s', k := Apply(s, e), e.message.channel;
    Replaced(s, e, c);
    if RowCount(s, h) >= 1 {
      es := CatchUp(s', k, h);
    } else {
      var written := WriteOut(s', c, h);
      var caught := CatchUp(After(s', written), k, h);
      es := written + caught;
      AfterAppend(s', written, caught);
    }
  }

  lemma Replaced(s: System, e: Event, c: nat)
    requires Replaces(s, e) && c in s.loops && s.loops[c].link.Installed?
    requires s.actor.ctx.Some? && Shapes(s) && Unserved(s.loops[e.message.channel])
    ensures var s' := Apply(s, e);
            && s'.actor == s.actor && s'.db == s.db && Ready(s', e.message.channel)
            && c in s'.loops && c != e.message.channel && Writable(s'.loops[c]) == Writable(s.loops[c])
  {
    InsertNothing(s.db);
  }

  // ---- Safe runs ----

  /** Whatever the loops and the actor's answers to them do next, no hash gets two rows. */
  ghost predicate Safe(es: seq<Event>) {
    forall fs | Internal(fs) :: Clean(After(BOOT, es + fs).db)
  }

  lemma {:induction false} InternalIsAllowed(es: seq<Event>, fs: seq<Event>)
    requires SentOnce(es) && AllAllowed(es) && Internal(fs)
    ensures SentOnce(es + fs) && AllAllowed(es + fs)
    decreases |fs|
  {
    if fs == [] {
      assert es + fs == es;
    } else {
      var n := |fs| - 1;
      InternalIsAllowed(es, fs[..n]);
      assert (es + fs)[..|es + fs| - 1] == es + fs[..n] && (es + fs)[|es + fs| - 1] == fs[n];
    }
  }

  lemma AllowedIsSafe(es: seq<Event>)
    requires SentOnce(es) && AllAllowed(es)
    ensures Safe(es)
  {
    forall fs | Internal(fs) ensures Clean(After(BOOT, es + fs).db) {
      InternalIsAllowed(es, fs);
      AtMostOneRow(es + fs);
    }
  }

  lemma ExposedIsUnsafe(es: seq<Event>, e: Event) returns (fs: seq<Event>, h: TxHash)
    requires SentOnce(es) && AllAllowed(es) && !Allowed(After(BOOT, es), e)
    ensures Internal(fs) && RowCount(After(BOOT, es + [e] + fs), h) >= 2
  {
    var s := After(BOOT, es);
    var active := RunIsSingle(es);
    RemovalsAreBacked(es);
    ContextSeenHolds(es);
    h :| h in s.actor.cache && Exposed(s, h);
    var c :| c in s.loops && s.loops[c].link.Installed? && h in Writable(s.loops[c]) + Unreported(s.loops[c]);
    assert Unreported(s.loops[c]) <= s.db.Keys && (h in s.db ==> RowCount(s, h) == 1);
    AtWork(s.loops[c], h);
    if Dumps(s, e) {
      fs := DumpExposes(s, e, h, c);
    } else {
      fs := ReplaceExposes(s, e, h, c);
    }
    AfterSnoc(BOOT, es, e);
    AfterAppend(BOOT, es + [e], fs);
  }

  lemma AtWork(l: Loop, h: TxHash)
    requires Shape(l) && h in Writable(l) + Unreported(l)
    ensures Seen(l)
  {
  }

  /** After a safe run, an event keeps it safe exactly if it is allowed. */
  lemma SafeStep(es: seq<Event>, e: Event)
    requires SentOnce(es + [e]) && AllAllowed(es)
    ensures Safe(es + [e]) <==> Allowed(After(BOOT, es), e)
  {
    assert (es + [e])[..|es|] == es;
    if Allowed(After(BOOT, es), e) {
      AllowedIsSafe(es + [e]);
    } else {
      var fs, h := ExposedIsUnsafe(es, e);
      assert !Clean(After(BOOT, es + [e] + fs).db);
    }
  }

  lemma SafePrefixes(es: seq<Event>)
    requires es != []
    ensures var n := |es| - 1;
            (forall k | 0 <= k <= |es| :: Safe(es[..k])) <==> (forall k | 0 <= k <= n :: Safe(es[..n][..k])) && Safe(es)
  {
    var n := |es| - 1;
    assert es[..|es|] == es;
    forall k | 0 <= k <= n ensures es[..n][..k] == es[..k] {
    }
    if (forall k | 0 <= k <= n :: Safe(es[..n][..k])) && Safe(es) {
      forall k | 0 <= k <= |es| ensures Safe(es[..k]) {
        if k <= n {
          assert Safe(es[..n][..k]);
        }
      }
    }
  }

  /**
   For every run in which each hash is sent once: at no point can the loops bring a hash to two rows
   if and only if no dump and no replacement finds a cached transaction exposed.  The futures may
   show any receipts: a transaction may be found in a second block, as after a reorganisation.
   */
  lemma {:induction false} SafeExactly(es: seq<Event>)
    requires SentOnce(es)
    ensures AllAllowed(es) <==> forall k | 0 <= k <= |es| :: Safe(es[..k])
    decreases |es|
  {
    if es == [] {
      AllowedIsSafe([]);
      assert es[..0] == [];
    } else {
      var n := |es| - 1;
      SafeExactly(es[..n]);
      SafePrefixes(es);
      if AllAllowed(es[..n]) {
        assert es[..n] + [es[n]] == es;
        SafeStep(es[..n], es[n]);
      }
    }
  }

  // ---- Two concrete runs ----

  /** Transaction 7 is in the snapshot for block 5, the cache is dumped, and then the block is processed. */
  lemma DumpRace() returns (opening: seq<Event>)
    ensures SentOnce(opening) && After(BOOT, opening) == OPENED
    ensures RowCount(After(OPENED, [Deliver(DumpCache(1), Io(true, true)), Idle(0)] + [Finds(0, 7, true)]), 7) == 2
  {
    opening := OpeningRun();
    var dump := Deliver(DumpCache(1), Io(true, true));
    var s := Apply(OPENED, dump);
    assert RowCount(s, 7) == 1 by {
      assert 7 in DumpRows(OPENED.actor, 1);
    }
    ComesToBlock(s.loops[0], 7);
    StepPut(s, 0, Idle(0).input);
    FindsRow(Apply(s, Idle(0)), 0, 7);
    AfterTwo(OPENED, dump, Idle(0));
    AfterSnoc(OPENED, [dump, Idle(0)], Finds(0, 7, true));
  }

  lemma OpeningRun() returns (opening: seq<Event>)
    ensures SentOnce(opening) && AllAllowed(opening) && After(BOOT, opening) == OPENED
  {
    var es := Opens();
    InternalIsAllowed([INIT, SEND], es);
    opening := [INIT, SEND] + es;
  }

  lemma Records(l: Loop, c: nat, h: TxHash)
    requires Processes(l) && l.pc.round.snapshot.Keys == {h}
    ensures Advance(l, Finds(c, h, true).input) == l.(pc := Recorded(l.pc.round, l.pc.bn, {h}))
  {
    assert l.pc.round.snapshot.Keys * Finds(c, h, true).input.receipts.Keys == {h};
  }

  lemma Posts(l: Loop, c: nat)
    requires l.pc.Recorded? && l.link.Installed? && l.queue == []
    ensures Advance(l, Idle(c).input) ==
            l.(pc := Removing(l.pc.round, l.pc.bn), queue := [RemoveConfirmed(l.pc.confirmed, l.pc.bn + 1)])
  {
    assert [] + [RemoveConfirmed(l.pc.confirmed, l.pc.bn + 1)] == [RemoveConfirmed(l.pc.confirmed, l.pc.bn + 1)];
  }

  /** The loop records `h` and queues its removal. */
  lemma QueuesRemoval(s: System, c: nat, h: TxHash) returns (es: seq<Event>)
    requires c in s.loops && Processes(s.loops[c]) && Shape(s.loops[c]) && s.loops[c].link.Installed?
    requires s.loops[c].pc.round.snapshot.Keys == {h}
    ensures Internal(es)
    ensures var s' := After(s, es);
            && s'.actor == s.actor && RowCount(s', h) == RowCount(s, h) + 1 && s'.loops.Keys == s.loops.Keys
            && s'.loops[c].pc.Removing? && s'.loops[c].link.Installed?
            && s'.loops[c].queue == [RemoveConfirmed({h}, s.loops[c].pc.bn + 1)]
  {
    var recorded, s1 := RecordsRun(s, c, h);
    Posts(s1.loops[c], c);
    var posted := Steps(s1, c, Idle(c).input);
    es := recorded + posted;
    AfterAppend(s, recorded, posted);
  }

  lemma RecordsRun(s: System, c: nat, h: TxHash) returns (es: seq<Event>, s': System)
    requires c in s.loops && Processes(s.loops[c]) && s.loops[c].pc.round.snapshot.Keys == {h}
    ensures Internal(es) && After(s, es) == s'
    ensures s'.actor == s.actor && RowCount(s', h) == RowCount(s, h) + 1 && s'.loops.Keys == s.loops.Keys
    ensures s'.loops[c] == s.loops[c].(pc := Recorded(s.loops[c].pc.round, s.loops[c].pc.bn, {h}))
  {
    es := [Finds(c, h, true)];
    AfterOne(s, Finds(c, h, true));
    s' := Apply(s, Finds(c, h, true));
    FindsRow(s, c, h);
    Records(s.loops[c], c, h);
  }

  /** Loop 0 has recorded transaction 7 and its removal is queued. */
  lemma RemovalQueued() returns (run: seq<Event>)
    ensures SentOnce(run)
    ensures var s := After(BOOT, run);
            && s.actor == OPENED.actor && RowCount(s, 7) == 1
            && s.loops.Keys == {0} && s.loops[0].link.Installed? && s.loops[0].queue == [RemoveConfirmed({7}, 6)]
  {
    var opening := OpeningRun();
    var l := OPENED.loops[0].(pc := AtBlock(Round(6, 5, 1, PENDING), 5), reply := None);
    assert Advance(OPENED.loops[0], Idle(0).input) == l;
    var entered := Steps(OPENED, 0, Idle(0).input);
    var queued := QueuesRemoval(Put(OPENED, 0, l), 0, 7);
    AfterAppend(OPENED, entered, queued);
    AfterAppend(BOOT, opening, entered + queued);
    InternalIsAllowed(opening, entered + queued);
    run := opening + (entered + queued);
  }

  lemma SpawnOne(s: System)
    requires s.actor.status.Running? && s.loops.Keys == {0}
    ensures var s' := Apply(s, Spawn(1));
            && s'.actor == s.actor && s'.db == s.db && s'.loops.Keys == {0, 1}
            && s'.loops[0] == s.loops[0] && s'.loops[1] == NewLoop(InFlight)
  {
  }

  /** Replacing the receiver drops the queued removal, and the new loop writes the transaction again. */
  lemma ReplaceRace() returns (run: seq<Event>, fs: seq<Event>)
    ensures SentOnce(run) && RowCount(After(BOOT, run), 7) == 1
    ensures Internal(fs) && RowCount(After(BOOT, run + [Spawn(1)] + [REPLACE] + fs), 7) == 2
  {
    run := RemovalQueued();
    var s := After(BOOT, run);
    SpawnOne(s);
    ReplaceRaceFrom(Apply(s, Spawn(1)));
    fs := CatchUp(Apply(Apply(s, Spawn(1)), REPLACE), 1, 7);
    AfterSnoc(BOOT, run, Spawn(1));
    AfterSnoc(BOOT, run + [Spawn(1)], REPLACE);
    AfterAppend(BOOT, run + [Spawn(1)] + [REPLACE], fs);
  }

  lemma ReplaceRaceFrom(s: System)
    requires s.actor == OPENED.actor && s.loops.Keys == {0, 1} && s.loops[1] == NewLoop(InFlight)
    requires s.loops[0].link.Installed?
    ensures var s' := Apply(s, REPLACE);
            s'.actor == s.actor && s'.db == s.db && s'.loops[0].queue == [] && Ready(s', 1)
  {
    InsertNothing(s.db);
  }
}
