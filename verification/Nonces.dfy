/**
 Nonce assignment while a create or setup plan is loaded.  The first transaction of a sender takes the
 tracked nonce, or one fetched from the RPC provider; from then on the nonce is tracked locally.
 A create plan is a plan in which no step runs for all accounts.
 */
module Nonces {
  import opened Options

  type Address = nat

  datatype Step = Step(forAllAccounts: bool, fromPool: Option<string>, from: Option<Address>)

  datatype Tx = Tx(from: Address, nonce: nat)

  datatype Error = FromPoolNotFound | ForAllAccountsRequiresFromPool | InvalidSender | RpcFailed | Panics

  /** The signers of each pool. */
  type Agents = map<string, seq<Address>>

  /** The transaction count of a sender when so many transactions are loaded; no entry if the call fails. */
  type Rpc = map<(Address, nat), nat>

  /** How many account indices a step runs for, from 0 up. */
  function Accounts(agents: Agents, step: Step): Result<nat, Error> {
    if !step.forAllAccounts then Ok(1)
    else if step.fromPool.None? then Err(ForAllAccountsRequiresFromPool)
    else if step.fromPool.value !in agents then Err(FromPoolNotFound)
    else Ok(|agents[step.fromPool.value]|)
  }

  /** The sender for an account index; a pool takes it modulo its size, which panics if it is empty. */
  function Sender(agents: Agents, step: Step, index: nat): Result<Address, Error> {
    if step.fromPool.Some? then
      if step.fromPool.value !in agents then Err(FromPoolNotFound)
      else
        var signers := agents[step.fromPool.value];
        if signers == [] then Err(Panics) else Ok(signers[index % |signers|])
    else if step.from.Some? then Ok(step.from.value)
    else Err(InvalidSender)
  }

  function SendersTo(agents: Agents, step: Step, k: nat): Result<seq<Address>, Error> {
    if k == 0 then Ok([])
    else
      var before := SendersTo(agents, step, k - 1);
      if before.Err? then before
      else
        var next := Sender(agents, step, k - 1);
        if next.Err? then Err(next.error) else Ok(before.value + [next.value])
  }

  /** The senders of one step. */
  function Senders(agents: Agents, step: Step): Result<seq<Address>, Error> {
    var accounts := Accounts(agents, step);
    if accounts.Err? then Err(accounts.error) else SendersTo(agents, step, accounts.value)
  }

  lemma SenderAt(agents: Agents, step: Step, signers: seq<Address>, index: nat)
    requires step.fromPool.Some? && step.fromPool.value in agents && agents[step.fromPool.value] == signers
    requires index < |signers|
    ensures Sender(agents, step, index) == Ok(signers[index])
  {
  }

  lemma SendersSnoc(agents: Agents, step: Step, before: seq<Address>, k: nat, from: Address)
    requires SendersTo(agents, step, k) == Ok(before) && Sender(agents, step, k) == Ok(from)
    ensures SendersTo(agents, step, k + 1) == Ok(before + [from])
  {
  }

  lemma {:induction false} SendersToAre(agents: Agents, step: Step, signers: seq<Address>, k: nat)
    requires step.fromPool.Some? && step.fromPool.value in agents && agents[step.fromPool.value] == signers
    requires k <= |signers|
    ensures SendersTo(agents, step, k) == Ok(signers[..k])
  {
    if k > 0 {
      SendersToAre(agents, step, signers, k - 1);
      SenderAt(agents, step, signers, k - 1);
      SendersSnoc(agents, step, signers[..k - 1], k - 1, signers[k - 1]);
      assert signers[..k] == signers[..k - 1] + [signers[k - 1]];
    }
  }

  /** A step for all accounts is sent once by every signer of its pool, in the order of the pool. */
  lemma AllAccountsSend(agents: Agents, step: Step)
    requires step.forAllAccounts && step.fromPool.Some? && step.fromPool.value in agents
    ensures Senders(agents, step) == Ok(agents[step.fromPool.value])
  {
    var signers := agents[step.fromPool.value];
    SendersToAre(agents, step, signers, |signers|);
    assert signers[..|signers|] == signers;
  }

  lemma SendersOfOne(agents: Agents, step: Step, one: nat)
    requires one == 1
    ensures SendersTo(agents, step, one) ==
            if Sender(agents, step, one - 1).Err? then Err(Sender(agents, step, one - 1).error)
            else Ok([Sender(agents, step, one - 1).value])
  {
    assert SendersTo(agents, step, one - 1) == Ok([]);
    var from := Sender(agents, step, one - 1);
    if from.Ok? {
      assert [] + [from.value] == [from.value];
    }
  }

  /** Any other step is sent once, by the first signer of its pool or by the address it names. */
  lemma OneAccountSends(agents: Agents, step: Step)
    requires !step.forAllAccounts
    ensures Senders(agents, step).Ok? ==> |Senders(agents, step).value| == 1
    ensures step.fromPool.Some? && step.fromPool.value in agents && agents[step.fromPool.value] != [] ==>
              Senders(agents, step) == Ok([agents[step.fromPool.value][0]])
    ensures step.fromPool.None? && step.from.Some? ==> Senders(agents, step) == Ok([step.from.value])
  {
    SendersOfOne(agents, step, Accounts(agents, step).value);
    if step.fromPool.Some? && step.fromPool.value in agents && agents[step.fromPool.value] != [] {
      SenderAt(agents, step, agents[step.fromPool.value], 0);
    }
  }

  /** Why a step has no sender. */
  lemma SenderFaults(agents: Agents, step: Step)
    ensures step.forAllAccounts && step.fromPool.None? ==> Senders(agents, step) == Err(ForAllAccountsRequiresFromPool)
    ensures step.fromPool.Some? && step.fromPool.value !in agents ==> Senders(agents, step) == Err(FromPoolNotFound)
    ensures !step.forAllAccounts && step.fromPool.None? && step.from.None? ==> Senders(agents, step) == Err(InvalidSender)
    ensures (!step.forAllAccounts && step.fromPool.Some? && step.fromPool.value in agents &&
             agents[step.fromPool.value] == []) ==>
              Senders(agents, step) == Err(Panics)
  {
    if !step.forAllAccounts {
      SendersOfOne(agents, step, Accounts(agents, step).value);
    }
  }

  /** The senders of a whole plan, in emission order. */
  function PlanSenders(agents: Agents, steps: seq<Step>): Result<seq<Address>, Error>
    decreases |steps|
  {
    if steps == [] then Ok([])
    else
      var before := PlanSenders(agents, steps[..|steps| - 1]);
      if before.Err? then before
      else
        var last := Senders(agents, steps[|steps| - 1]);
        if last.Err? then last else Ok(before.value + last.value)
  }

  /** How many of the first `k` transactions are sent by `a`. */
  function Count(senders: seq<Address>, k: nat, a: Address): nat
    requires k <= |senders|
  {
    if k == 0 then 0 else Count(senders, k - 1, a) + if senders[k - 1] == a then 1 else 0
  }

  function Elements(senders: seq<Address>): set<Address> {
    set i | 0 <= i < |senders| :: senders[i]
  }

  /** Transaction `i` belongs to sender `i` and comes right after that sender's earlier ones. */
  ghost predicate Numbered(start: map<Address, nat>, senders: seq<Address>, txs: seq<Tx>) {
    && |txs| == |senders|
    && forall i | 0 <= i < |txs| ::
         && txs[i].from == senders[i] && senders[i] in start
         && txs[i].nonce == start[senders[i]] + Count(senders, i, senders[i])
  }

  /** The next nonce of every known address is its start plus the number of its transactions. */
  ghost predicate Advanced(start: map<Address, nat>, senders: seq<Address>, next: map<Address, nat>) {
    && start.Keys == next.Keys && Elements(senders) <= start.Keys
    && forall a | a in start :: next[a] == start[a] + Count(senders, |senders|, a)
  }

  /** The i-th sender is the first occurrence of its address. */
  predicate First(senders: seq<Address>, i: nat) {
    i < |senders| && forall k | 0 <= k < i :: senders[k] != senders[i]
  }

  /** The first occurrence of `a` among the senders is where its nonce was fetched. */
  ghost predicate Asked(rpc: Rpc, start: map<Address, nat>, senders: seq<Address>, a: Address) {
    a in start && exists i: nat | First(senders, i) :: senders[i] == a && (a, i) in rpc && rpc[(a, i)] == start[a]
  }

  /** Known addresses are the tracked ones, which keep their nonce, and those asked for once. */
  ghost predicate Begun(
    tracked: map<Address, nat>, rpc: Rpc, start: map<Address, nat>, senders: seq<Address>, fetched: seq<Address>)
  {
    && (forall a | a in tracked :: a in start && start[a] == tracked[a])
    && (forall a :: a in fetched <==> a in start && a !in tracked)
    && (forall i, j | 0 <= i < j < |fetched| :: fetched[i] != fetched[j])
    && (forall a | a in fetched :: Asked(rpc, start, senders, a))
  }

  /** The state of the plan after the given senders: `start` holds the nonce each sender began with. */
  ghost predicate Allocated(
    tracked: map<Address, nat>, rpc: Rpc, start: map<Address, nat>, senders: seq<Address>,
    txs: seq<Tx>, next: map<Address, nat>, fetched: seq<Address>)
  {
    && Numbered(start, senders, txs)
    && Advanced(start, senders, next)
    && Begun(tracked, rpc, start, senders, fetched)
  }

  lemma {:induction false} CountZero(senders: seq<Address>, k: nat, a: Address)
    requires k <= |senders| && forall i | 0 <= i < |senders| :: senders[i] != a
    ensures Count(senders, k, a) == 0
  {
    if k > 0 {
      CountZero(senders, k - 1, a);
    }
  }

  lemma {:induction false} CountSnoc(senders: seq<Address>, from: Address, k: nat, a: Address)
    requires k <= |senders|
    ensures Count(senders + [from], k, a) == Count(senders, k, a)
  {
    if k > 0 {
      CountSnoc(senders, from, k - 1, a);
    }
  }

  /** `start'` knows what `start` knows. */
  ghost predicate Extends(start: map<Address, nat>, start': map<Address, nat>) {
    forall a | a in start :: a in start' && start'[a] == start[a]
  }

  lemma NumberedSnoc(start: map<Address, nat>, start': map<Address, nat>, senders: seq<Address>, txs: seq<Tx>,
                     from: Address)
    requires Numbered(start, senders, txs) && Extends(start, start') && from in start'
    ensures Numbered(start', senders + [from], txs + [Tx(from, start'[from] + Count(senders, |senders|, from))])
  {
    var more := senders + [from];
    forall i | 0 <= i <= |senders| ensures Count(more, i, more[i]) == Count(senders, i, more[i]) {
      CountSnoc(senders, from, i, more[i]);
    }
  }

  lemma AdvancedSnoc(start: map<Address, nat>, senders: seq<Address>, next: map<Address, nat>, from: Address)
    requires Advanced(start, senders, next) && from in start
    ensures Advanced(start, senders + [from], next[from := next[from] + 1])
  {
    Extend(senders, from);
    var more := senders + [from];
    forall a | a in start ensures next[from := next[from] + 1][a] == start[a] + Count(more, |more|, a) {
      CountSnoc(senders, from, |senders|, a);
    }
  }

  lemma AdvancedFetch(start: map<Address, nat>, senders: seq<Address>, next: map<Address, nat>, from: Address, n: nat)
    requires Advanced(start, senders, next) && from !in start
    ensures Advanced(start[from := n], senders + [from], next[from := n][from := n + 1])
  {
    CountZero(senders, |senders|, from);
    AdvancedSnoc(start[from := n], senders, next[from := n], from);
  }

  lemma NumberedFetch(start: map<Address, nat>, senders: seq<Address>, txs: seq<Tx>, next: map<Address, nat>,
                      from: Address, n: nat)
    requires Numbered(start, senders, txs) && Advanced(start, senders, next) && from !in start
    ensures Numbered(start[from := n], senders + [from], txs + [Tx(from, n)])
  {
    CountZero(senders, |senders|, from);
    NumberedSnoc(start, start[from := n], senders, txs, from);
  }

  lemma AskedSnoc(rpc: Rpc, start: map<Address, nat>, start': map<Address, nat>, senders: seq<Address>,
                  from: Address, a: Address)
    requires Asked(rpc, start, senders, a) && Extends(start, start')
    ensures Asked(rpc, start', senders + [from], a)
  {
    var i: nat :| First(senders, i) && senders[i] == a && (a, i) in rpc && rpc[(a, i)] == start[a];
    assert First(senders + [from], i);
  }

  lemma BegunTracked(tracked: map<Address, nat>, rpc: Rpc, start: map<Address, nat>, senders: seq<Address>,
                     fetched: seq<Address>, from: Address)
    requires Begun(tracked, rpc, start, senders, fetched)
    ensures Begun(tracked, rpc, start, senders + [from], fetched)
  {
    forall a | a in fetched ensures Asked(rpc, start, senders + [from], a) {
      AskedSnoc(rpc, start, start, senders, from, a);
    }
  }

  lemma BegunFetch(tracked: map<Address, nat>, rpc: Rpc, start: map<Address, nat>, senders: seq<Address>,
                   fetched: seq<Address>, from: Address, n: nat)
    requires Begun(tracked, rpc, start, senders, fetched) && from !in start && Elements(senders) <= start.Keys
    requires (from, |senders|) in rpc && rpc[(from, |senders|)] == n
    ensures Begun(tracked, rpc, start[from := n], senders + [from], fetched + [from])
  {
    var start' := start[from := n];
    forall a | a in fetched + [from] ensures Asked(rpc, start', senders + [from], a) {
      if a == from {
        assert First(senders + [from], |senders|);
      } else {
        assert a in fetched;
        AskedSnoc(rpc, start, start', senders, from, a);
      }
    }
    forall a ensures a in fetched + [from] <==> a in start' && a !in tracked {
      assert a in fetched + [from] <==> a in fetched || a == from;
    }
  }

  lemma Extend(senders: seq<Address>, from: Address)
    ensures Elements(senders + [from]) ==
            Elements(senders) + {from}
  {
    var more := senders + [from];
    forall a | a in Elements(senders) + {from}
      ensures a in Elements(more)
    {
      if a == from {
        assert more[|senders|] == a;
      } else {
        var i :| 0 <= i < |senders| && senders[i] == a;
        assert more[i] == a;
      }
    }
  }

  lemma AllocatedNone(tracked: map<Address, nat>, rpc: Rpc)
    ensures Allocated(tracked, rpc, tracked, [], [], tracked, [])
  {
  }

  /** A known sender takes its next nonce. */
  lemma AllocatedTracked(tracked: map<Address, nat>, rpc: Rpc, start: map<Address, nat>, senders: seq<Address>,
                         txs: seq<Tx>, next: map<Address, nat>, fetched: seq<Address>, from: Address)
    requires Allocated(tracked, rpc, start, senders, txs, next, fetched) && from in next
    ensures Allocated(tracked, rpc, start, senders + [from], txs + [Tx(from, next[from])],
                      next[from := next[from] + 1], fetched)
  {
    BegunTracked(tracked, rpc, start, senders, fetched, from);
    NumberedSnoc(start, start, senders, txs, from);
    AdvancedSnoc(start, senders, next, from);
  }

  /** A new sender takes the nonce that was fetched for it. */
  lemma AllocatedFetch(tracked: map<Address, nat>, rpc: Rpc, start: map<Address, nat>, senders: seq<Address>,
                       txs: seq<Tx>, next: map<Address, nat>, fetched: seq<Address>, from: Address, n: nat)
    requires Allocated(tracked, rpc, start, senders, txs, next, fetched) && from !in next
    requires (from, |txs|) in rpc && rpc[(from, |txs|)] == n
    ensures Allocated(tracked, rpc, start[from := n], senders + [from], txs + [Tx(from, n)],
                      next[from := n][from := n + 1], fetched + [from])
  {
    NumberedFetch(start, senders, txs, next, from, n);
    AdvancedFetch(start, senders, next, from, n);
    BegunFetch(tracked, rpc, start, senders, fetched, from, n);
  }

  /** Loads one transaction. */
  method Emit(ghost tracked: map<Address, nat>, rpc: Rpc, ghost start: map<Address, nat>, ghost senders: seq<Address>,
              txs: seq<Tx>, next: map<Address, nat>, fetched: seq<Address>, from: Address)
    returns (ok: bool, txs': seq<Tx>, next': map<Address, nat>, fetched': seq<Address>, ghost start': map<Address, nat>)
    requires Allocated(tracked, rpc, start, senders, txs, next, fetched)
    ensures ok <==> from in next || (from, |txs|) in rpc
    ensures ok ==> Allocated(tracked, rpc, start', senders + [from], txs', next', fetched')
  {
    next', fetched', start', txs' := next, fetched, start, txs;
    if from !in next' {
      if (from, |txs|) !in rpc {
        return false, txs', next', fetched', start';
      }
      var answer := rpc[(from, |txs|)];
      next' := next'[from := answer];
      fetched', start' := fetched + [from], start[from := answer];
    }
    var nonce := next'[from];
    txs' := txs + [Tx(from, nonce)];
    next' := next'[from := nonce + 1];
    ok := true;
    if from in next {
      AllocatedTracked(tracked, rpc, start, senders, txs, next, fetched, from);
    } else {
      AllocatedFetch(tracked, rpc, start, senders, txs, next, fetched, from, nonce);
    }
  }

  /** The provider answers wherever an untracked sender first occurs. */
  ghost predicate Answered(tracked: map<Address, nat>, rpc: Rpc, senders: seq<Address>) {
    forall k: nat | First(senders, k) :: senders[k] in tracked || (senders[k], k) in rpc
  }

  /** The k-th account is asked for, without an answer. */
  ghost predicate Refused(tracked: map<Address, nat>, rpc: Rpc, senders: seq<Address>, accounts: seq<Address>, k: nat) {
    && k < |accounts| && First(senders + accounts, |senders| + k)
    && accounts[k] !in tracked && (accounts[k], |senders| + k) !in rpc
  }

  lemma RefusedIsUnanswered(tracked: map<Address, nat>, rpc: Rpc, senders: seq<Address>, accounts: seq<Address>,
                            k: nat, all: seq<Address>)
    requires senders + accounts <= all && Refused(tracked, rpc, senders, accounts, k)
    ensures !Answered(tracked, rpc, all)
  {
    var i := |senders| + k;
    assert forall j | 0 <= j <= i :: all[j] == (senders + accounts)[j];
    assert First(all, i);
  }

  lemma RefusedHere(tracked: map<Address, nat>, rpc: Rpc, start: map<Address, nat>, senders: seq<Address>,
                    txs: seq<Tx>, next: map<Address, nat>, fetched: seq<Address>, before: seq<Address>,
                    accounts: seq<Address>, k: nat)
    requires k < |accounts| && senders == before + accounts[..k]
    requires Allocated(tracked, rpc, start, senders, txs, next, fetched)
    requires accounts[k] !in next && (accounts[k], |txs|) !in rpc
    ensures Refused(tracked, rpc, before, accounts, k)
  {
    var i := |before| + k;
    forall j | 0 <= j < i ensures (before + accounts)[j] != accounts[k] {
      assert (before + accounts)[j] == senders[j] && senders[j] in Elements(senders);
    }
  }

  /** Whoever got a start was answered at its first occurrence. */
  lemma AllocatedIsAnswered(tracked: map<Address, nat>, rpc: Rpc, start: map<Address, nat>, senders: seq<Address>,
                            txs: seq<Tx>, next: map<Address, nat>, fetched: seq<Address>)
    requires Allocated(tracked, rpc, start, senders, txs, next, fetched)
    ensures Answered(tracked, rpc, senders)
  {
    forall k: nat | First(senders, k) ensures senders[k] in tracked || (senders[k], k) in rpc {
      if senders[k] !in tracked {
        assert senders[k] in Elements(senders);
        assert Asked(rpc, start, senders, senders[k]);
        var i: nat :| First(senders, i) && senders[i] == senders[k] && (senders[k], i) in rpc;
        assert i == k;
      }
    }
  }

  /** Loads one step: a transaction for each of its accounts. */
  method EmitAll(ghost tracked: map<Address, nat>, rpc: Rpc, ghost start: map<Address, nat>, ghost senders: seq<Address>,
                 txs: seq<Tx>, next: map<Address, nat>, fetched: seq<Address>, accounts: seq<Address>)
    returns (ok: bool, txs': seq<Tx>, next': map<Address, nat>, fetched': seq<Address>, ghost start': map<Address, nat>)
    requires Allocated(tracked, rpc, start, senders, txs, next, fetched)
    ensures ok ==> Allocated(tracked, rpc, start', senders + accounts, txs', next', fetched')
    ensures !ok ==> exists k: nat :: Refused(tracked, rpc, senders, accounts, k)
  {
    ok, txs', next', fetched', start' := true, txs, next, fetched, start;
    assert senders + accounts[..0] == senders;
    for k := 0 to |accounts|
      invariant ok && Allocated(tracked, rpc, start', senders + accounts[..k], txs', next', fetched')
    {
      assert senders + accounts[..k] + [accounts[k]] == senders + accounts[..k + 1];
      if accounts[k] !in next' && (accounts[k], |txs'|) !in rpc {
        RefusedHere(tracked, rpc, start', senders + accounts[..k], txs', next', fetched', senders, accounts, k);
      }
      ok, txs', next', fetched', start' :=
        Emit(tracked, rpc, start', senders + accounts[..k], txs', next', fetched', accounts[k]);
      if !ok {
        return;
      }
    }
    assert accounts[..|accounts|] == accounts;
  }

  /**
   Loads a create or setup plan.  On success every sender's transactions have consecutive nonces from
   its start, which is the tracked nonce or the one fetched; each untracked sender is asked for once.
   */
  method LoadTxs(agents: Agents, steps: seq<Step>, tracked: map<Address, nat>, rpc: Rpc)
    returns (r: Result<(seq<Tx>, map<Address, nat>), Error>, fetched: seq<Address>, ghost start: map<Address, nat>)
    ensures r.Ok? ==> PlanSenders(agents, steps).Ok? &&
                      Allocated(tracked, rpc, start, PlanSenders(agents, steps).value, r.value.0, r.value.1, fetched)
    ensures r.Err? && r.error != RpcFailed ==> PlanSenders(agents, steps) == Err(r.error)
    ensures r.Ok? <==> PlanSenders(agents, steps).Ok? && Answered(tracked, rpc, PlanSenders(agents, steps).value)
  {
    var txs: seq<Tx>, next := [], tracked;
    fetched, start := [], tracked;
    ghost var senders: seq<Address> := [];
    AllocatedNone(tracked, rpc);
    for s := 0 to |steps|
      invariant PlanSenders(agents, steps[..s]) == Ok(senders)
      invariant Allocated(tracked, rpc, start, senders, txs, next, fetched)
    {
      assert steps[..s + 1][..s] == steps[..s];
      var accounts := Senders(agents, steps[s]);
      if accounts.Err? {
        ErrPrefix(agents, steps, s + 1);
        return Err(accounts.error), fetched, start;
      }
      var ok, txs', next', fetched', start' := EmitAll(tracked, rpc, start, senders, txs, next, fetched, accounts.value);
      if !ok {
        if PlanSenders(agents, steps).Ok? {
          PlanPrefix(agents, steps, s + 1);
          ghost var k: nat :| Refused(tracked, rpc, senders, accounts.value, k);
          RefusedIsUnanswered(tracked, rpc, senders, accounts.value, k, PlanSenders(agents, steps).value);
        }
        return Err(RpcFailed), fetched, start;
      }
      txs, next, fetched, start := txs', next', fetched', start';
      senders := senders + accounts.value;
    }
    assert steps[..|steps|] == steps;
    AllocatedIsAnswered(tracked, rpc, start, senders, txs, next, fetched);
    return Ok((txs, next)), fetched, start;
  }

  lemma {:induction false} PlanPrefix(agents: Agents, steps: seq<Step>, s: nat)
    requires s <= |steps| && PlanSenders(agents, steps).Ok?
    ensures PlanSenders(agents, steps[..s]).Ok?
    ensures PlanSenders(agents, steps[..s]).value <= PlanSenders(agents, steps).value
    decreases |steps|
  {
    if s == |steps| {
      assert steps[..s] == steps;
    } else {
      assert steps[..|steps| - 1][..s] == steps[..s];
      PlanPrefix(agents, steps[..|steps| - 1], s);
    }
  }

  lemma {:induction false} ErrPrefix(agents: Agents, steps: seq<Step>, s: nat)
    requires s <= |steps| && PlanSenders(agents, steps[..s]).Err?
    ensures PlanSenders(agents, steps) == PlanSenders(agents, steps[..s])
    decreases |steps|
  {
    if s == |steps| {
      assert steps[..s] == steps;
    } else {
      assert steps[..|steps| - 1][..s] == steps[..s];
      ErrPrefix(agents, steps[..|steps| - 1], s);
    }
  }

  lemma {:induction false} CountGrows(senders: seq<Address>, i: nat, j: nat)
    requires i < j <= |senders|
    ensures Count(senders, i, senders[i]) < Count(senders, j, senders[i])
    decreases j
  {
    if i < j - 1 {
      CountGrows(senders, i, j - 1);
    }
  }

  /** No two transactions of a plan share sender and nonce. */
  lemma NoncesAreUnique(tracked: map<Address, nat>, rpc: Rpc, start: map<Address, nat>, senders: seq<Address>,
                        txs: seq<Tx>, next: map<Address, nat>, fetched: seq<Address>, i: nat, j: nat)
    requires Allocated(tracked, rpc, start, senders, txs, next, fetched)
    requires i < j < |txs|
    ensures txs[i] != txs[j]
    ensures txs[i].from == txs[j].from ==> txs[i].nonce < txs[j].nonce < next[txs[j].from]
  {
    CountGrows(senders, i, j);
    CountGrows(senders, j, |senders|);
  }
}
