/**
 At most one row per transaction.  Two steps can break this: a dump, and the replacement of the flush
 receiver.  Both are harmless exactly as long as no cached transaction is exposed, that is, still
 writable by the installed loop or recorded by it without the removal having been handled.  Any number
 of loops may be spawned, cancelled and replaced.  The argument rests on the FIFO channel: a removal
 is handled before the snapshot that is requested after it.
 */
module SingleRow {
  import opened TxActor
  import opened FlushProtocol
  import opened Delivery

  /** The hashes that the loop may still write a row for without asking the actor again. */
  function Writable(l: Loop): set<TxHash> {
    if Processes(l) then l.pc.round.snapshot.Keys
    else if Enters(l) then l.reply.value.snapshot.Keys
    else if && l.pc.AwaitRefresh? && l.reply.Some? && l.reply.value.ctx.Some?
            && l.pc.bn + 1 < l.pc.round.newBlock
    then l.reply.value.snapshot.Keys
    else {}
  }

  /** A cached hash that the installed loop can still write, or has written without the actor knowing. */
  predicate Exposed(s: System, h: TxHash) {
    h in s.actor.cache &&
    exists c | c in s.loops :: s.loops[c].link.Installed? && h in Writable(s.loops[c]) + Unreported(s.loops[c])
  }

  predicate Dumps(s: System, e: Event) {
    s.actor.status.Running? && e.Deliver? && e.message.DumpCache? && e.io.dbOk
  }

  /** A dump and a replacement find no cached transaction exposed. */
  predicate Allowed(s: System, e: Event) {
    Dumps(s, e) || Replaces(s, e) ==> forall h | h in s.actor.cache :: !Exposed(s, h)
  }

  /** What each loop can still write. */
  function Writes(loops: map<nat, Loop>): map<nat, set<TxHash>> {
    map c | c in loops :: Writable(loops[c])
  }

  /** The loops write apart from each other and from what is written. */
  ghost predicate Apart(writes: map<nat, set<TxHash>>, written: set<TxHash>, known: set<TxHash>) {
    && (forall c | c in writes :: writes[c] !! written && writes[c] <= known)
    && (forall c, d | c in writes && d in writes && c != d :: writes[c] !! writes[d])
  }

  /** Only the loop `active` can be installed. */
  ghost predicate Linked(loops: map<nat, Loop>, active: nat) {
    && active in loops
    && (forall c | c in loops :: Shape(loops[c]) && Unserved(loops[c]))
    && (forall c | c in loops && c != active :: !loops[c].link.Installed?)
  }

  /** What a running actor still has to learn, the active loop has recorded; no other can write what is cached. */
  ghost predicate Informed(cache: set<TxHash>, written: set<TxHash>, writes: map<nat, set<TxHash>>, active: nat, l: Loop) {
    && l.link.Installed? && cache * written <= Unreported(l)
    && forall c | c in writes && c != active :: writes[c] !! cache
  }

  ghost predicate OneEach(db: Table) {
    forall h | h in db :: |db[h]| == 1
  }

  ghost predicate Single(s: System, active: nat, known: set<TxHash>) {
    && Linked(s.loops, active) && Apart(Writes(s.loops), s.db.Keys, known) && OneEach(s.db)
    && s.actor.cache.Keys <= known && s.db.Keys <= known
    && (s.actor.status.Running? ==>
          Informed(s.actor.cache.Keys, s.db.Keys, Writes(s.loops), active, s.loops[active]))
  }

  /** Rows for hashes that have none yet keep the table at one row each. */
  lemma InsertNew(db: Table, rows: map<TxHash, RunTx>)
    requires OneEach(db) && db.Keys !! rows.Keys
    ensures Insert(db, rows).Keys == db.Keys + rows.Keys
    ensures OneEach(Insert(db, rows))
  {
  }

  // ---- Steps of a loop ----

  /** A step that processes no block writes nothing, can write nothing new and forgets no removal. */
  lemma QuietAdvance(l: Loop, input: Input)
    requires Shape(l) && !Processes(l)
    ensures Writable(Advance(l, input)) <= Writable(l)
    ensures !l.link.Dropped? ==> Unreported(l) <= Unreported(Advance(l, input))
    ensures Advance(l, input).link == l.link && Recording(l, input) == map[]
  {
  }

  lemma RecordingAdvance(l: Loop, input: Input)
    requires Shape(l) && Processes(l)
    ensures Recording(l, input).Keys <= Writable(l)
    ensures Writable(Advance(l, input)) <= Writable(l)
    ensures Recording(l, input) != map[] ==> Writable(Advance(l, input)) == {}
    ensures Recording(l, input).Keys <= Unreported(Advance(l, input)) && Unreported(l) == {}
    ensures Advance(l, input).link == l.link
  {
    LandedKeys(l.pc.round, l.pc.bn, input);
  }

  /** Whatever a step records, the loop could write before and cannot write again. */
  lemma AnyAdvance(l: Loop, input: Input)
    requires Shape(l) && Unserved(l)
    ensures var l', rows := Advance(l, input), Recording(l, input).Keys;
            && Shape(l') && Unserved(l') && l'.link == l.link
            && rows <= Writable(l) && Writable(l') <= Writable(l) - rows
            && (!l.link.Dropped? ==> Unreported(l) + rows <= Unreported(l'))
  {
    ShapeAdvance(l, input);
    if Processes(l) {
      RecordingAdvance(l, input);
    } else {
      QuietAdvance(l, input);
    }
  }

  lemma WritesUpdate(loops: map<nat, Loop>, c: nat, l: Loop)
    ensures Writes(loops[c := l]) == Writes(loops)[c := Writable(l)]
  {
  }

  /** One loop turns some of what it can write into rows. */
  lemma ApartStep(writes: map<nat, set<TxHash>>, written: set<TxHash>, known: set<TxHash>, c: nat,
                  rows: set<TxHash>, left: set<TxHash>)
    requires Apart(writes, written, known) && c in writes && rows <= writes[c] && left <= writes[c] - rows
    ensures Apart(writes[c := left], written + rows, known)
  {
  }

  /** One loop gets a cache that is apart from everything else. */
  lemma ApartAnswer(writes: map<nat, set<TxHash>>, written: set<TxHash>, known: set<TxHash>, c: nat,
                    cache: set<TxHash>, gained: set<TxHash>)
    requires Apart(writes, written, known) && gained <= cache <= known && cache !! written
    requires forall d | d in writes && d != c :: writes[d] !! cache
    ensures Apart(writes[c := gained], written, known)
  {
  }

  lemma LinkedUpdate(loops: map<nat, Loop>, active: nat, c: nat, l: Loop)
    requires Linked(loops, active) && c in loops && Shape(l) && Unserved(l)
    requires l.link == loops[c].link
    ensures Linked(loops[c := l], active)
  {
  }

  lemma SingleLoopStep(s: System, c: nat, input: Input, active: nat, known: set<TxHash>)
    requires Single(s, active, known) && c in s.loops
    ensures Single(Apply(s, LoopStep(c, input)), active, known)
  {
    var l, rows := s.loops[c], Recording(s.loops[c], input);
    AnyAdvance(l, input);
    assert rows.Keys <= Writes(s.loops)[c];
    InsertNew(s.db, rows);
    LinkedUpdate(s.loops, active, c, Advance(l, input));
    WritesUpdate(s.loops, c, Advance(l, input));
    ApartStep(Writes(s.loops), s.db.Keys, known, c, rows.Keys, Writable(Advance(l, input)));
  }

  // ---- Steps of the actor ----

  /** The actor answers a snapshot request with a cache that nobody else can write. */
  lemma AnswerApart(s: System, nowMs: nat, active: nat, known: set<TxHash>)
    requires Single(s, active, known) && Receives(s, active) && s.loops[active].queue[0].GetSnapshot?
    ensures Single(FlushTo(s, active, nowMs), active, known)
  {
    var l := FlushTo(s, active, nowMs).loops[active];
    assert Unreported(s.loops[active]) == {} && Writable(l) <= s.actor.cache.Keys && Shape(l);
    LinkedUpdate(s.loops, active, active, l);
    WritesUpdate(s.loops, active, l);
    assert forall h :: h in s.actor.cache.Keys * s.db.Keys <==> h in s.actor.cache.Keys && h in s.db.Keys;
    ApartAnswer(Writes(s.loops), s.db.Keys, known, active, s.actor.cache.Keys, Writable(l));
  }

  lemma RemoveApart(s: System, nowMs: nat, active: nat, known: set<TxHash>)
    requires Single(s, active, known) && Receives(s, active) && s.loops[active].queue[0].RemoveConfirmed?
    ensures Single(FlushTo(s, active, nowMs), active, known)
  {
    var l := FlushTo(s, active, nowMs).loops[active];
    assert Writable(l) == Writable(s.loops[active]) && Shape(l);
    LinkedUpdate(s.loops, active, active, l);
    WritesUpdate(s.loops, active, l);
  }

  /** The actor changes on its own: what enters the cache is new. */
  lemma SingleActor(s: System, a: State, active: nat, known: set<TxHash>, added: set<TxHash>)
    requires Single(s, active, known) && s.actor.status.Running?
    requires a.cache.Keys <= s.actor.cache.Keys + added && added !! known
    ensures Single(s.(actor := a), active, known + added)
  {
  }

  lemma SingleDump(s: System, a: State, runId: nat, active: nat, known: set<TxHash>)
    requires Single(s, active, known) && s.actor.status.Running? && a.cache == map[]
    requires forall h | h in s.actor.cache :: !Exposed(s, h)
    ensures Single(s.(actor := a, db := Insert(s.db, DumpRows(s.actor, runId))), active, known)
  {
    var rows := DumpRows(s.actor, runId);
    assert s.actor.cache.Keys !! Writes(s.loops)[active] + Unreported(s.loops[active]);
    InsertNew(s.db, rows);
  }

  lemma DropLinks(loops: map<nat, Loop>, active: nat)
    requires Linked(loops, active)
    ensures Linked(DropAll(loops), active) && Writes(DropAll(loops)) == Writes(loops)
  {
    var after := DropAll(loops);
    forall k | k in loops
      ensures Shape(after[k]) && Unserved(after[k]) && Writable(after[k]) == Writable(loops[k])
    {
    }
  }

  lemma SingleDropped(s: System, active: nat, known: set<TxHash>)
    requires Single(s, active, known) && !s.actor.status.Running?
    ensures Single(s.(loops := DropAll(s.loops)), active, known)
  {
    DropLinks(s.loops, active);
  }

  lemma InstallLinks(loops: map<nat, Loop>, c: nat, active: nat)
    requires Linked(loops, active) && c in loops && loops[c].link.InFlight?
    ensures Linked(Install(loops, c), c) && Writes(Install(loops, c)) == Writes(loops)
    ensures Install(loops, c)[c] == loops[c].(link := Installed)
  {
    var after := Install(loops, c);
    forall k | k in loops
      ensures Shape(after[k]) && Unserved(after[k]) && Writable(after[k]) == Writable(loops[k])
    {
    }
  }

  lemma SingleInstall(s: System, c: nat, active: nat, known: set<TxHash>)
    requires Single(s, active, known) && s.actor.status.Running? && c in s.loops && s.loops[c].link.InFlight?
    requires forall h | h in s.actor.cache :: !Exposed(s, h)
    ensures Single(s.(loops := Install(s.loops, c)), c, known)
  {
    assert s.actor.cache.Keys !! Writes(s.loops)[active] + Unreported(s.loops[active]);
    InstallLinks(s.loops, c, active);
  }

  /** The hash that an event puts into the cache. */
  function AddedBy(e: Event): set<TxHash> {
    if e.Deliver? && e.message.SentRunTx? then {e.message.tx.hash} else {}
  }

  lemma SingleHandled(s: System, m: Message, io: Io, active: nat, known: set<TxHash>)
    requires Single(s, active, known) && s.actor.status.Running? && Allowed(s, Deliver(m, io))
    requires AddedBy(Deliver(m, io)) !! known
    ensures Single(s.(actor := Handle(s.actor, m, io), db := Insert(s.db, Written(s.actor, m, io))),
                   active, known + AddedBy(Deliver(m, io)))
  {
    if m.DumpCache? && io.dbOk {
      SingleDump(s, Handle(s.actor, m, io), m.runId, active, known);
    } else {
      InsertNothing(s.db);
      SingleActor(s, Handle(s.actor, m, io), active, known, AddedBy(Deliver(m, io)));
    }
  }

  lemma SingleDeliver(s: System, m: Message, io: Io, active: nat, known: set<TxHash>) returns (active': nat)
    requires Single(s, active, known) && s.actor.status.Running? && Allowed(s, Deliver(m, io))
    requires AddedBy(Deliver(m, io)) !! known
    ensures Single(DeliverTo(s, m, io), active', known + AddedBy(Deliver(m, io)))
  {
    SingleHandled(s, m, io, active, known);
    var t := s.(actor := Handle(s.actor, m, io), db := Insert(s.db, Written(s.actor, m, io)));
    active' := active;
    if !t.actor.status.Running? {
      SingleDropped(t, active, known + AddedBy(Deliver(m, io)));
    } else if Replaces(s, Deliver(m, io)) {
      active' := m.channel;
      InsertNothing(s.db);
      SingleInstall(s, m.channel, active, known);
    }
  }

  lemma SingleSpawn(s: System, c: nat, active: nat, known: set<TxHash>)
    requires Single(s, active, known) && c !in s.loops
    ensures Single(s.(loops := s.loops[c := NewLoop(InFlight)]), active, known)
  {
    WritesUpdate(s.loops, c, NewLoop(InFlight));
  }

  lemma SingleCancel(s: System, c: nat, active: nat, known: set<TxHash>)
    requires Single(s, active, known) && c in s.loops
    ensures Single(s.(loops := s.loops[c := s.loops[c].(cancelled := true)]), active, known)
  {
    var l := s.loops[c].(cancelled := true);
    assert Writable(l) == Writable(s.loops[c]) && Shape(l) && Unserved(l) && Unreported(l) == Unreported(s.loops[c]);
    LinkedUpdate(s.loops, active, c, l);
    WritesUpdate(s.loops, c, l);
    assert Writes(s.loops[c := l]) == Writes(s.loops);
  }

  lemma SingleStep(s: System, e: Event, active: nat, known: set<TxHash>) returns (active': nat)
    requires Single(s, active, known) && Allowed(s, e) && AddedBy(e) !! known
    ensures Single(Apply(s, e), active', known + AddedBy(e))
  {
    active' := active;
    match e {
      case Deliver(m, io) =>
        if s.actor.status.Running? {
          active' := SingleDeliver(s, m, io, active, known);
        } else {
          SingleWider(s, active, known, AddedBy(e));
        }
      case Flush(c, now) =>
        if Receives(s, c) {
          if s.loops[c].queue[0].GetSnapshot? {
            AnswerApart(s, now, active, known);
          } else {
            RemoveApart(s, now, active, known);
          }
        }
      case LoopStep(c, input) =>
        if c in s.loops {
          SingleLoopStep(s, c, input, active, known);
        }
      case Marked(m) =>
        if s.actor.status.Running? {
          SingleActor(s, ReceiveMark(s.actor, m), active, known, {});
        }
      case Spawn(c) =>
        if s.actor.status.Running? && c !in s.loops {
          SingleSpawn(s, c, active, known);
        }
      case Cancel(c) =>
        if c in s.loops {
          SingleCancel(s, c, active, known);
        }
    }
  }

  lemma SingleWider(s: System, active: nat, known: set<TxHash>, added: set<TxHash>)
    requires Single(s, active, known)
    ensures Single(s, active, known + added)
  {
  }

  // ---- Whole runs ----

  function HashesSent(es: seq<Event>): set<TxHash> {
    if es == [] then {} else HashesSent(es[..|es| - 1]) + AddedBy(es[|es| - 1])
  }

  /** No hash is sent twice. */
  predicate SentOnce(es: seq<Event>) {
    es != [] ==> SentOnce(es[..|es| - 1]) && AddedBy(es[|es| - 1]) !! HashesSent(es[..|es| - 1])
  }

  /** Every step of the run is allowed. */
  predicate AllAllowed(es: seq<Event>) {
    es != [] ==> AllAllowed(es[..|es| - 1]) && Allowed(After(BOOT, es[..|es| - 1]), es[|es| - 1])
  }

  lemma {:induction false} RunIsSingle(es: seq<Event>) returns (active: nat)
    requires SentOnce(es) && AllAllowed(es)
    ensures Single(After(BOOT, es), active, HashesSent(es))
    decreases |es|
  {
    active := 0;
    if es != [] {
      var n := |es| - 1;
      active := RunIsSingle(es[..n]);
      active := SingleStep(After(BOOT, es[..n]), es[n], active, HashesSent(es[..n]));
    }
  }

  ghost predicate Clean(db: Table) {
    forall h | h in db :: |db[h]| <= 1
  }

  /** No hash has two rows, at any point of a run in which dumps and replacements expose nothing. */
  lemma AtMostOneRow(es: seq<Event>)
    requires SentOnce(es) && AllAllowed(es)
    ensures Clean(After(BOOT, es).db)
  {
    var active := RunIsSingle(es);
  }

  /** A loop that has exited exposes nothing: a dump or a restart after the flush is complete is harmless. */
  lemma RestartIsAllowed(s: System, e: Event)
    requires Shapes(s)
    requires forall c | c in s.loops && s.loops[c].link.Installed? :: s.loops[c].pc.Exited?
    ensures Allowed(s, e)
  {
  }
}
