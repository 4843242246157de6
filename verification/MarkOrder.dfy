/**
 Flashblock marks and sends reach the actor over different channels, so they interleave freely.  The
 order does not matter: as long as no mark is dropped for lack of room, the resulting cache and buffer
 depend on the sequence of sends and the sequence of marks alone.
 */
module MarkOrder {
  import opened Options
  import opened TxActor
  import opened Delivery

  datatype Arrival = SendArrives(tx: SentTx) | MarkArrives(mark: FlashblockMark)

  function Receive(a: State, e: Arrival): State {
    match e
    case SendArrives(tx) => Send(a, tx)
    case MarkArrives(m) => ReceiveMark(a, m)
  }

  function Replay(es: seq<Arrival>): State
    decreases |es|
  {
    if es == [] then INITIAL else Receive(Replay(es[..|es| - 1]), es[|es| - 1])
  }

  function SendsOf(es: seq<Arrival>): seq<SentTx>
    decreases |es|
  {
    if es == [] then []
    else SendsOf(es[..|es| - 1]) + if es[|es| - 1].SendArrives? then [es[|es| - 1].tx] else []
  }

  function MarksOf(es: seq<Arrival>): seq<FlashblockMark>
    decreases |es|
  {
    if es == [] then []
    else MarksOf(es[..|es| - 1]) + if es[|es| - 1].MarkArrives? then [es[|es| - 1].mark] else []
  }

  /** The first mark for `h`. */
  function FirstMark(ms: seq<FlashblockMark>, h: TxHash): Option<(nat, nat)>
    decreases |ms|
  {
    if ms == [] then None
    else
      var last, earlier := ms[|ms| - 1], FirstMark(ms[..|ms| - 1], h);
      if earlier.Some? then earlier
      else if last.hash == h then Some((last.timestampMs, last.index)) else None
  }

  lemma {:induction false} FirstMarkIsFirst(ms: seq<FlashblockMark>, h: TxHash, i: nat)
    requires i < |ms| && ms[i].hash == h && forall j | 0 <= j < i :: ms[j].hash != h
    ensures FirstMark(ms, h) == Some((ms[i].timestampMs, ms[i].index))
    decreases |ms|
  {
    var n := |ms| - 1;
    if i < n {
      FirstMarkIsFirst(ms[..n], h, i);
    } else {
      NoMark(ms[..n], h);
    }
  }

  lemma {:induction false} NoMark(ms: seq<FlashblockMark>, h: TxHash)
    requires forall j | 0 <= j < |ms| :: ms[j].hash != h
    ensures FirstMark(ms, h) == None
    decreases |ms|
  {
    if ms != [] {
      NoMark(ms[..|ms| - 1], h);
    }
  }

  lemma FirstMarkSnoc(ms: seq<FlashblockMark>, m: FlashblockMark, h: TxHash)
    ensures FirstMark(ms + [m], h) ==
            if FirstMark(ms, h).Some? then FirstMark(ms, h)
            else if m.hash == h then Some((m.timestampMs, m.index)) else None
  {
    assert (ms + [m])[..|ms|] == ms;
  }

  function Hashes(ts: seq<SentTx>): set<TxHash> {
    set i | 0 <= i < |ts| :: ts[i].hash
  }

  ghost predicate Distinct(ts: seq<SentTx>) {
    forall i, j | 0 <= i < j < |ts| :: ts[i].hash != ts[j].hash
  }

  /**
   The state that the sends and marks determine: each sent transaction with the first mark for its
   hash, and the first marks of the hashes that were never sent.
   */
  ghost predicate Settled(a: State, ts: seq<SentTx>, ms: seq<FlashblockMark>) {
    && a.ctx == None && a.status == Running
    && a.cache.Keys == Hashes(ts)
    && (forall i | 0 <= i < |ts| ::
          ts[i].hash in a.cache &&
          var mark := FirstMark(ms, ts[i].hash);
          a.cache[ts[i].hash] == if mark.Some?
                                 then PendingRunTx(ts[i], Some(mark.value.0), Some(mark.value.1))
                                 else PendingRunTx(ts[i], None, None))
    && (forall h | h in a.marks :: h !in a.cache && FirstMark(ms, h) == Some(a.marks[h]))
    && (forall h | h !in a.marks && FirstMark(ms, h).Some? :: h in a.cache)
  }

  /** Sends and marks leave no freedom: two settled states are the same. */
  lemma SettledIsUnique(a: State, b: State, ts: seq<SentTx>, ms: seq<FlashblockMark>)
    requires Settled(a, ts, ms) && Settled(b, ts, ms)
    ensures a == b
  {
  }

  /** The mark is dropped: its transaction is unknown and the buffer is full. */
  predicate Drops(a: State, e: Arrival) {
    && e.MarkArrives? && e.mark.hash !in a.cache && e.mark.hash !in a.marks
    && |a.marks| >= MAX_PENDING_FLASHBLOCK_MARKS
  }

  /** No mark is dropped on the way. */
  predicate NoDrop(es: seq<Arrival>)
    decreases |es|
  {
    es == [] || (NoDrop(es[..|es| - 1]) && !Drops(Replay(es[..|es| - 1]), es[|es| - 1]))
  }

  lemma SettledSend(a: State, tx: SentTx, ts: seq<SentTx>, ms: seq<FlashblockMark>)
    requires Settled(a, ts, ms) && tx.hash !in Hashes(ts)
    ensures Settled(Send(a, tx), ts + [tx], ms)
  {
    assert Hashes(ts + [tx]) == Hashes(ts) + {tx.hash} by {
      forall h | h in Hashes(ts) ensures h in Hashes(ts + [tx]) {
        var i :| 0 <= i < |ts| && ts[i].hash == h;
        assert (ts + [tx])[i].hash == h;
      }
      assert (ts + [tx])[|ts|].hash == tx.hash;
    }
    if FirstMark(ms, tx.hash).Some? {
      assert tx.hash in a.marks;
    }
  }

  lemma SettledMark(a: State, m: FlashblockMark, ts: seq<SentTx>, ms: seq<FlashblockMark>)
    requires Settled(a, ts, ms) && !Drops(a, MarkArrives(m)) && Distinct(ts)
    ensures Settled(ReceiveMark(a, m), ts, ms + [m])
  {
    forall h
      ensures FirstMark(ms + [m], h) ==
              if FirstMark(ms, h).Some? then FirstMark(ms, h)
              else if m.hash == h then Some((m.timestampMs, m.index)) else None
    {
      FirstMarkSnoc(ms, m, h);
    }
    if m.hash in a.cache {
      var i :| 0 <= i < |ts| && ts[i].hash == m.hash;
      assert a.cache[m.hash].markMs.None? <==> FirstMark(ms, m.hash).None?;
    }
  }

  lemma SettledStep(a: State, e: Arrival, ts: seq<SentTx>, ms: seq<FlashblockMark>)
    requires Settled(a, ts, ms) && !Drops(a, e)
    requires Distinct(ts + if e.SendArrives? then [e.tx] else [])
    ensures Settled(Receive(a, e), ts + (if e.SendArrives? then [e.tx] else []),
                    ms + (if e.MarkArrives? then [e.mark] else []))
  {
    match e {
      case SendArrives(tx) =>
        assert ms + [] == ms && (ts + [tx])[|ts|] == tx;
        assert forall i | 0 <= i < |ts| :: (ts + [tx])[i] == ts[i];
        SettledSend(a, tx, ts, ms);
      case MarkArrives(m) =>
        assert ts + [] == ts;
        SettledMark(a, m, ts, ms);
    }
  }

  lemma DistinctPrefix(ts: seq<SentTx>, us: seq<SentTx>)
    requires Distinct(ts + us)
    ensures Distinct(ts)
  {
    assert forall i | 0 <= i < |ts| :: (ts + us)[i] == ts[i];
  }

  /** Every interleaving ends in the state that its sends and marks determine. */
  lemma {:induction false} ReplaySettles(es: seq<Arrival>)
    requires Distinct(SendsOf(es)) && NoDrop(es)
    ensures Settled(Replay(es), SendsOf(es), MarksOf(es))
    decreases |es|
  {
    if es != [] {
      var n := |es| - 1;
      var prefix, e := es[..n], es[n];
      var sends := if e.SendArrives? then [e.tx] else [];
      assert SendsOf(es) == SendsOf(prefix) + sends;
      DistinctPrefix(SendsOf(prefix), sends);
      ReplaySettles(prefix);
      SettledStep(Replay(prefix), e, SendsOf(prefix), MarksOf(prefix));
    }
  }

  /** Any two interleavings of the same sends and the same marks end in the same state. */
  lemma OrderDoesNotMatter(es: seq<Arrival>, fs: seq<Arrival>)
    requires SendsOf(es) == SendsOf(fs) && MarksOf(es) == MarksOf(fs)
    requires Distinct(SendsOf(es)) && NoDrop(es) && NoDrop(fs)
    ensures Replay(es) == Replay(fs)
  {
    ReplaySettles(es);
    ReplaySettles(fs);
    SettledIsUnique(Replay(es), Replay(fs), SendsOf(es), MarksOf(es));
  }

  lemma {:induction false} BufferIsBounded(es: seq<Arrival>)
    ensures |Replay(es).marks| <= |MarksOf(es)|
    decreases |es|
  {
    if es != [] {
      var prefix := es[..|es| - 1];
      BufferIsBounded(prefix);
      if es[|es| - 1].SendArrives? {
        SubsetCard(Replay(es).marks.Keys, Replay(prefix).marks.Keys);
      }
    }
  }

  /** No interleaving drops a mark when there are no more marks than the buffer has room for. */
  lemma {:induction false} RoomForAll(es: seq<Arrival>)
    requires |MarksOf(es)| <= MAX_PENDING_FLASHBLOCK_MARKS
    ensures NoDrop(es)
    decreases |es|
  {
    if es != [] {
      BufferIsBounded(es[..|es| - 1]);
      RoomForAll(es[..|es| - 1]);
    }
  }
}
