/**
 The Uniswap V2 scenario planner: for any number of tokens it plans the setup calls (deposit,
 approvals, pair creation, liquidity, transfers) and the swaps to spam.  The setup plan is executed
 against a ledger that rejects every call that would revert for lack of balance, approval or pair.
 */
module UniV2 {
  import opened Options

  /** WETH, or the contract `testToken<index>`; indices start at 1. */
  datatype Asset = Weth | Token(index: nat)

  datatype Contract = Router | Unicheat

  datatype SetupStep =
    | Deposit(value: nat)
    | Approve(asset: Asset, spender: Contract)
    | Transfer(asset: Asset, to: Contract, amount: nat)
    | CreatePair(a: Asset, b: Asset)
    | AddLiquidity(a: Asset, b: Asset, amountA: nat, amountB: nat, minA: nat, minB: nat)

  datatype SpamStep = Swap(sell: Asset, buy: Asset, amount: nat)

  datatype Args = Args(
    numTokens: nat, wethPerToken: nat, initialTokenSupply: nat, wethTradeAmount: nat, tokenTradeAmount: nat)

  function LiquidityAmount(args: Args): nat {
    args.initialTokenSupply / 2
  }

  function PoolLiquidityAmount(args: Args): nat {
    LiquidityAmount(args) / (args.numTokens + 1)
  }

  /** The amounts that a plan is made of. */
  datatype Terms = Terms(
    numTokens: nat, wethPerToken: nat, supply: nat, liquidity: nat, pool: nat,
    wethTradeAmount: nat, tokenTradeAmount: nat)

  function TermsOf(args: Args): Terms {
    Terms(args.numTokens, args.wethPerToken, args.initialTokenSupply, LiquidityAmount(args),
          PoolLiquidityAmount(args), args.wethTradeAmount, args.tokenTradeAmount)
  }

  /** `k` times `x`. */
  function Times(k: nat, x: nat): nat {
    if k == 0 then 0 else Times(k - 1, x) + x
  }

  lemma {:induction false} TimesIsProduct(k: nat, x: nat)
    ensures Times(k, x) == k * x
  {
    if k > 0 {
      TimesIsProduct(k - 1, x);
    }
  }

  lemma {:induction false} TimesMonotone(k: nat, m: nat, x: nat)
    requires k <= m
    ensures Times(k, x) <= Times(m, x)
    decreases m
  {
    if k < m {
      TimesMonotone(k, m - 1, x);
    }
  }

  /** The pools take no more than the liquidity, and the liquidity at most half of the supply. */
  predicate Sound(q: Terms) {
    Times(q.numTokens, q.pool) <= q.liquidity && 2 * q.liquidity <= q.supply
  }

  /** `liquidity` is half the supply and `pool` the share of one pool among n + 1, both rounded down. */
  predicate Shares(args: Args, liquidity: nat, pool: nat) {
    && 2 * liquidity <= args.initialTokenSupply < 2 * liquidity + 2
    && (args.numTokens + 1) * pool <= liquidity < (args.numTokens + 1) * (pool + 1)
  }

  lemma AmountsAreShares(args: Args)
    ensures Shares(args, LiquidityAmount(args), PoolLiquidityAmount(args))
  {
    var m, p := args.numTokens + 1, PoolLiquidityAmount(args);
    assert LiquidityAmount(args) == p * m + LiquidityAmount(args) % m;
    assert m * (p + 1) == p * m + m;
  }

  /** The two floor divisions leave enough. */
  lemma TermsAreSound(args: Args)
    ensures Sound(TermsOf(args))
    ensures Shares(args, TermsOf(args).liquidity, TermsOf(args).pool)
  {
    AmountsAreShares(args);
    var n, p := args.numTokens, PoolLiquidityAmount(args);
    assert p * (n + 1) <= LiquidityAmount(args);
    assert p * (n + 1) == n * p + p;
    TimesIsProduct(n, p);
  }

  // ---- The ledger of the setup sender ----

  /** A pool between its creation and its first deposit, or with its reserves. */
  datatype Pool = Created | Funded(a: nat, b: nat)

  /** Balances are natural numbers, so no ledger is ever overdrawn. */
  datatype Ledger = Ledger(
    balance: map<Asset, nat>, approved: set<Asset>,
    pools: map<(Asset, Asset), Pool>, unicheat: map<Asset, nat>)

  function Get(m: map<Asset, nat>, a: Asset): nat {
    if a in m then m[a] else 0
  }

  /** One call; None if it reverts for lack of balance, approval or pair.  Only first deposits are covered. */
  function Exec(l: Ledger, step: SetupStep): Option<Ledger> {
    match step
    case Deposit(value) => Some(l.(balance := l.balance[Weth := Get(l.balance, Weth) + value]))
    case Approve(asset, spender) =>
      Some(if spender.Router? then l.(approved := l.approved + {asset}) else l)
    case Transfer(asset, to, amount) =>
      if Get(l.balance, asset) < amount then None
      else
        var paid := l.(balance := l.balance[asset := Get(l.balance, asset) - amount]);
        Some(if to.Unicheat?
             then paid.(unicheat := l.unicheat[asset := Get(l.unicheat, asset) + amount]) else paid)
    case CreatePair(a, b) =>
      if a == b || (a, b) in l.pools || (b, a) in l.pools then None
      else Some(l.(pools := l.pools[(a, b) := Created]))
    case AddLiquidity(a, b, amountA, amountB, minA, minB) =>
      if || a == b || (a, b) !in l.pools || l.pools[(a, b)] != Created
         || a !in l.approved || b !in l.approved
         || Get(l.balance, a) < amountA || Get(l.balance, b) < amountB
         || amountA < minA || amountB < minB
      then None
      else Some(l.(balance := l.balance[a := Get(l.balance, a) - amountA][b := Get(l.balance, b) - amountB],
                   pools := l.pools[(a, b) := Funded(amountA, amountB)]))
  }

  function Execute(l: Ledger, steps: seq<SetupStep>): Option<Ledger>
    decreases |steps|
  {
    if steps == [] then Some(l)
    else
      var before := Execute(l, steps[..|steps| - 1]);
      if before.None? then None else Exec(before.value, steps[|steps| - 1])
  }

  lemma ExecuteSnoc(l: Ledger, steps: seq<SetupStep>, step: SetupStep)
    ensures Execute(l, steps + [step]) ==
            if Execute(l, steps).None? then None else Exec(Execute(l, steps).value, step)
  {
    assert (steps + [step])[..|steps|] == steps;
  }

  /** A plan that executes does so at every prefix. */
  lemma {:induction false} EveryPrefixExecutes(l: Ledger, steps: seq<SetupStep>, k: nat)
    requires Execute(l, steps).Some? && k <= |steps|
    ensures Execute(l, steps[..k]).Some?
    decreases |steps|
  {
    if k < |steps| {
      assert steps[..|steps| - 1][..k] == steps[..k];
      EveryPrefixExecutes(l, steps[..|steps| - 1], k);
    } else {
      assert steps[..k] == steps;
    }
  }

  /** The sender holds the minted supply of each token and no WETH. */
  function Genesis(q: Terms): Ledger {
    Ledger(map i: nat | 1 <= i <= q.numTokens :: Token(i) := q.supply, {}, map[], map[])
  }

  // ---- What an executed plan says about its own steps ----

  predicate Joins(a: Asset, b: Asset, x: Asset, y: Asset) {
    (a == x && b == y) || (a == y && b == x)
  }

  /** How often the pair {a, b} is created, in either order. */
  function Creations(steps: seq<SetupStep>, a: Asset, b: Asset): nat
    decreases |steps|
  {
    if steps == [] then 0
    else
      var last := steps[|steps| - 1];
      Creations(steps[..|steps| - 1], a, b) + if last.CreatePair? && Joins(last.a, last.b, a, b) then 1 else 0
  }

  /** How often the pair {a, b} is funded. */
  function Fundings(steps: seq<SetupStep>, a: Asset, b: Asset): nat
    decreases |steps|
  {
    if steps == [] then 0
    else
      var last := steps[|steps| - 1];
      Fundings(steps[..|steps| - 1], a, b) + if last.AddLiquidity? && Joins(last.a, last.b, a, b) then 1 else 0
  }

  ghost predicate Exists(l: Ledger, a: Asset, b: Asset) {
    (a, b) in l.pools || (b, a) in l.pools
  }

  ghost predicate HasFunds(l: Ledger, a: Asset, b: Asset) {
    ((a, b) in l.pools && l.pools[(a, b)].Funded?) || ((b, a) in l.pools && l.pools[(b, a)].Funded?)
  }

  lemma StepCounts(l: Ledger, step: SetupStep, a: Asset, b: Asset)
    requires Exec(l, step).Some?
    ensures var after := Exec(l, step).value;
            && Exists(after, a, b) == (Exists(l, a, b) || (step.CreatePair? && Joins(step.a, step.b, a, b)))
            && (step.CreatePair? && Joins(step.a, step.b, a, b) ==> !Exists(l, a, b))
            && (a != b && !((a, b) in l.pools && (b, a) in l.pools) ==>
                  && !((a, b) in after.pools && (b, a) in after.pools)
                  && HasFunds(after, a, b) == (HasFunds(l, a, b) || (step.AddLiquidity? && Joins(step.a, step.b, a, b)))
                  && (step.AddLiquidity? && Joins(step.a, step.b, a, b) ==> !HasFunds(l, a, b)))
  {
  }

  /** In an executed plan a pair is created at most once and funded at most once. */
  lemma {:induction false} PairCounts(q: Terms, steps: seq<SetupStep>, a: Asset, b: Asset)
    requires Execute(Genesis(q), steps).Some? && a != b
    ensures var l := Execute(Genesis(q), steps).value;
            && Creations(steps, a, b) == (if Exists(l, a, b) then 1 else 0)
            && Fundings(steps, a, b) == (if HasFunds(l, a, b) then 1 else 0)
            && !((a, b) in l.pools && (b, a) in l.pools)
    decreases |steps|
  {
    if steps != [] {
      var before, last := steps[..|steps| - 1], steps[|steps| - 1];
      PairCounts(q, before, a, b);
      StepCounts(Execute(Genesis(q), before).value, last, a, b);
    }
  }

  /** The router may spend only what an earlier step approved. */
  lemma {:induction false} ApprovedEarlier(q: Terms, steps: seq<SetupStep>, a: Asset)
    requires Execute(Genesis(q), steps).Some? && a in Execute(Genesis(q), steps).value.approved
    ensures Approve(a, Router) in steps
    decreases |steps|
  {
    if steps != [] {
      var before, last := steps[..|steps| - 1], steps[|steps| - 1];
      if last == Approve(a, Router) {
        assert last in steps;
      } else {
        ApprovedEarlier(q, before, a);
        assert steps == before + [last];
      }
    }
  }

  lemma FundedAfterCreation(q: Terms, steps: seq<SetupStep>, k: nat)
    requires Execute(Genesis(q), steps).Some? && k < |steps| && steps[k].AddLiquidity?
    ensures Creations(steps[..k], steps[k].a, steps[k].b) == 1
    ensures Approve(steps[k].a, Router) in steps[..k] && Approve(steps[k].b, Router) in steps[..k]
  {
    EveryPrefixExecutes(Genesis(q), steps, k + 1);
    assert steps[..k + 1][..k] == steps[..k];
    assert steps[k].a != steps[k].b;
    PairCounts(q, steps[..k], steps[k].a, steps[k].b);
    ApprovedEarlier(q, steps[..k], steps[k].a);
    ApprovedEarlier(q, steps[..k], steps[k].b);
  }

  // ---- The plan, position by position ----

  predicate IsAsset(q: Terms, a: Asset) {
    a.Weth? || 1 <= a.index <= q.numTokens
  }

  /**
   The position (i, j): the blocks of the tokens before `i` are complete, and in the block of token
   `i` the pairs with WETH (if j > i) and with the tokens i + 1 up to j - 1 are set up.
   */
  predicate Paired(q: Terms, i: nat, j: nat, a: Asset, b: Asset) {
    && IsAsset(q, a) && IsAsset(q, b) && b.Token?
    && (a.Weth? ==> b.index < i || (b.index == i && i < j))
    && (a.Token? ==> a.index < b.index && (a.index < i || (a.index == i && b.index < j)))
  }

  /** How many pools token `k` has been deposited into. */
  function Pools(q: Terms, i: nat, j: nat, k: nat): nat
    requires 1 <= i <= j
  {
    if k < i then q.numTokens else if k == i then j - 1 else if k < j then i else i - 1
  }

  function WethPools(i: nat, j: nat): nat
    requires 1 <= i
  {
    if i < j then i else i - 1
  }

  /** What the plan deposits of the first asset of a pair; of the second it is always `pool`. */
  function Stake(q: Terms, a: Asset): nat {
    if a.Weth? then q.wethPerToken else q.pool
  }

  /** What the sender has left of each asset. */
  ghost predicate Funds(q: Terms, balance: map<Asset, nat>, i: nat, j: nat)
    requires 1 <= i <= j
  {
    && Get(balance, Weth) + Times(WethPools(i, j), q.wethPerToken) == Times(q.numTokens, q.wethPerToken)
    && forall k | 1 <= k <= q.numTokens ::
         Get(balance, Token(k)) + Times(Pools(q, i, j, k), q.pool)
         + (if k < i then q.liquidity else 0) == q.supply
  }

  /** Which pools exist, and what they hold. */
  ghost predicate PoolsAt(q: Terms, pools: map<(Asset, Asset), Pool>, i: nat, j: nat) {
    && (forall a, b :: (a, b) in pools <==> Paired(q, i, j, a, b))
    && (forall a, b | (a, b) in pools :: pools[(a, b)] == Funded(Stake(q, a), q.pool))
  }

  ghost predicate At(q: Terms, l: Ledger, i: nat, j: nat)
    requires 1 <= i <= j
  {
    && Funds(q, l.balance, i, j) && PoolsAt(q, l.pools, i, j)
    && (forall a | IsAsset(q, a) :: a in l.approved)
    && Get(l.unicheat, Weth) == q.wethPerToken
    && (forall k | 1 <= k <= q.numTokens ::
          Get(l.unicheat, Token(k)) == if k < i then q.liquidity else 0)
  }

  /** The partner of token `j` at position (i, j): WETH first, then token `i`. */
  function Partner(i: nat, j: nat): Asset {
    if i == j then Weth else Token(i)
  }

  lemma FundsPair(q: Terms, balance: map<Asset, nat>, i: nat, j: nat)
    requires Sound(q)
    requires 1 <= i <= j <= q.numTokens && Funds(q, balance, i, j)
    ensures var (x, y) := (Stake(q, Partner(i, j)), q.pool);
            && x <= Get(balance, Partner(i, j)) && y <= Get(balance, Token(j))
            && Funds(q, balance[Partner(i, j) := Get(balance, Partner(i, j)) - x]
                                  [Token(j) := Get(balance, Token(j)) - y], i, j + 1)
  {
    TimesMonotone(j, q.numTokens, q.pool);
    TimesMonotone(i, q.numTokens, q.pool);
    TimesMonotone(i, q.numTokens, q.wethPerToken);
  }

  lemma PoolsPair(q: Terms, pools: map<(Asset, Asset), Pool>, i: nat, j: nat)
    requires 1 <= i <= j <= q.numTokens && PoolsAt(q, pools, i, j)
    ensures var (a, b) := (Partner(i, j), Token(j));
            && (a, b) !in pools && (b, a) !in pools
            && PoolsAt(q, pools[(a, b) := Funded(Stake(q, a), q.pool)], i, j + 1)
  {
    assert !Paired(q, i, j, Partner(i, j), Token(j)) && !Paired(q, i, j, Token(j), Partner(i, j));
  }

  /** The ledger once the next pair is funded. */
  function Paid(q: Terms, l: Ledger, a: Asset, b: Asset): Ledger
    requires Stake(q, a) <= Get(l.balance, a) && q.pool <= Get(l.balance, b)
  {
    l.(balance := l.balance[a := Get(l.balance, a) - Stake(q, a)][b := Get(l.balance, b) - q.pool],
       pools := l.pools[(a, b) := Funded(Stake(q, a), q.pool)])
  }

  lemma PairRuns(q: Terms, l: Ledger, a: Asset, b: Asset)
    requires a != b && (a, b) !in l.pools && (b, a) !in l.pools && a in l.approved && b in l.approved
    requires Stake(q, a) <= Get(l.balance, a) && q.pool <= Get(l.balance, b)
    ensures var (x, y) := (Stake(q, a), q.pool);
            var create := Exec(l, CreatePair(a, b));
            && create.Some?
            && Exec(create.value, AddLiquidity(a, b, x, y, x / 100, y / 100)) == Some(Paid(q, l, a, b))
  {
    var funded := Funded(Stake(q, a), q.pool);
    assert l.pools[(a, b) := Created][(a, b) := funded] == l.pools[(a, b) := funded];
  }

  /** Creating and funding the next pair moves the plan from (i, j) to (i, j + 1). */
  lemma NextPair(q: Terms, l: Ledger, i: nat, j: nat)
    requires Sound(q)
    requires 1 <= i <= j <= q.numTokens && At(q, l, i, j)
    ensures var (a, b) := (Partner(i, j), Token(j));
            var (x, y) := (Stake(q, a), q.pool);
            var create := Exec(l, CreatePair(a, b));
            create.Some? &&
            var fund := Exec(create.value, AddLiquidity(a, b, x, y, x / 100, y / 100));
            fund.Some? && At(q, fund.value, i, j + 1)
  {
    PaidAt(q, l, i, j);
    PairRuns(q, l, Partner(i, j), Token(j));
  }

  lemma PaidAt(q: Terms, l: Ledger, i: nat, j: nat)
    requires Sound(q)
    requires 1 <= i <= j <= q.numTokens && At(q, l, i, j)
    ensures var (a, b) := (Partner(i, j), Token(j));
            && (a, b) !in l.pools && (b, a) !in l.pools && a in l.approved && b in l.approved
            && Stake(q, a) <= Get(l.balance, a) && q.pool <= Get(l.balance, b)
            && At(q, Paid(q, l, a, b), i, j + 1)
  {
    FundsPair(q, l.balance, i, j);
    PoolsPair(q, l.pools, i, j);
  }

  /** Handing the rest of token `i` to unicheat moves the plan from (i, n + 1) to (i + 1, i + 1). */
  lemma TokenDone(q: Terms, l: Ledger, i: nat)
    requires Sound(q)
    requires 1 <= i <= q.numTokens && At(q, l, i, q.numTokens + 1)
    ensures var paid := Exec(l, Transfer(Token(i), Unicheat, q.liquidity));
            paid.Some? && At(q, paid.value, i + 1, i + 1)
  {
  }

  // ---- The swaps ----

  function TradeAmount(q: Terms, a: Asset, b: Asset): nat {
    if a.Weth? || b.Weth? then q.wethTradeAmount else q.tokenTradeAmount
  }

  /** Exactly one swap in each direction for every pair set up before position (i, j). */
  ghost predicate Swaps(q: Terms, spam: seq<SpamStep>, i: nat, j: nat) {
    && (forall k, m | 0 <= k < m < |spam| :: spam[k] != spam[m])
    && (forall x: SpamStep :: x in spam <==>
          (Paired(q, i, j, x.sell, x.buy) || Paired(q, i, j, x.buy, x.sell)) &&
          x.amount == TradeAmount(q, x.sell, x.buy))
  }

  lemma SwapPair(q: Terms, spam: seq<SpamStep>, i: nat, j: nat, next: nat, a: Asset, b: Asset)
    requires 1 <= i <= j <= q.numTokens && next == j + 1 && Swaps(q, spam, i, j)
    requires b == Token(j) && a == Partner(i, j)
    ensures Swaps(q, spam + [Swap(a, b, TradeAmount(q, a, b)), Swap(b, a, TradeAmount(q, b, a))], i, next)
  {
    var more := [Swap(a, b, TradeAmount(q, a, b)), Swap(b, a, TradeAmount(q, b, a))];
    forall x: SpamStep
      ensures x in spam + more <==>
              (Paired(q, i, next, x.sell, x.buy) || Paired(q, i, next, x.buy, x.sell)) &&
              x.amount == TradeAmount(q, x.sell, x.buy)
    {
      assert x in spam + more <==> x in spam || x == more[0] || x == more[1];
    }
    forall k, m | 0 <= k < m < |spam + more| ensures (spam + more)[k] != (spam + more)[m] {
      if m < |spam| {
        assert spam[k] != spam[m];
      } else if k < |spam| {
        assert spam[k] in spam;
      }
    }
  }

  /** A finished block is the start of the next one. */
  lemma SwapsTurn(q: Terms, spam: seq<SpamStep>, i: nat)
    requires Swaps(q, spam, i, q.numTokens + 1)
    ensures Swaps(q, spam, i + 1, i + 1)
  {
  }

  /** The ledger after the deposit and the first approvals, with `t` tokens approved. */
  ghost predicate Approved(q: Terms, l: Ledger, t: nat) {
    && l.pools == map[]
    && Get(l.balance, Weth) == Times(q.numTokens, q.wethPerToken)
    && (forall k | 1 <= k <= q.numTokens :: Get(l.balance, Token(k)) == q.supply)
    && Weth in l.approved && (forall k | 1 <= k <= t :: Token(k) in l.approved)
    && Get(l.unicheat, Weth) == q.wethPerToken
    && (forall k | 1 <= k <= q.numTokens :: Get(l.unicheat, Token(k)) == 0)
  }

  lemma Opening(q: Terms, setup: seq<SetupStep>)
    requires var w := q.wethPerToken;
             setup == [Deposit(Times(q.numTokens + 1, w)), Approve(Weth, Router), Transfer(Weth, Unicheat, w)]
    ensures Approves(q, setup, 0)
  {
    var w, g := q.wethPerToken, Genesis(q);
    ExecuteSnoc(g, [], setup[0]);
    ExecuteSnoc(g, [] + [setup[0]], setup[1]);
    ExecuteSnoc(g, [] + [setup[0]] + [setup[1]], setup[2]);
    assert setup == [] + [setup[0]] + [setup[1]] + [setup[2]];
  }

  lemma ApprovalsDone(q: Terms, l: Ledger)
    requires Approved(q, l, q.numTokens)
    ensures At(q, l, 1, 1)
  {
    forall a | IsAsset(q, a) ensures a in l.approved {
      assert a.Token? ==> a == Token(a.index);
    }
  }

  ghost predicate Executes(q: Terms, setup: seq<SetupStep>, i: nat, j: nat)
    requires 1 <= i <= j
  {
    match Execute(Genesis(q), setup)
    case None => false
    case Some(l) => At(q, l, i, j)
  }

  ghost predicate Approves(q: Terms, setup: seq<SetupStep>, t: nat) {
    match Execute(Genesis(q), setup)
    case None => false
    case Some(l) => Approved(q, l, t)
  }

  // ---- The plan as a sequence ----

  /** The deposit, the share of unicheat and the approvals of the first `t` tokens. */
  function OpeningSteps(q: Terms, t: nat): seq<SetupStep> {
    if t == 0 then
      [Deposit(Times(q.numTokens + 1, q.wethPerToken)), Approve(Weth, Router),
       Transfer(Weth, Unicheat, q.wethPerToken)]
    else OpeningSteps(q, t - 1) + [Approve(Token(t), Router)]
  }

  function PairSteps(q: Terms, i: nat, j: nat): seq<SetupStep> {
    var (a, b) := (Partner(i, j), Token(j));
    var (x, y) := (Stake(q, a), q.pool);
    [CreatePair(a, b), AddLiquidity(a, b, x, y, x / 100, y / 100)]
  }

  /** The setup steps before position (i, j). */
  function SetupPlan(q: Terms, i: nat, j: nat): seq<SetupStep>
    requires 1 <= i <= j <= q.numTokens + 1
  {
    if i < j then SetupPlan(q, i, j - 1) + PairSteps(q, i, j - 1)
    else if i == 1 then OpeningSteps(q, q.numTokens) + [Approve(Weth, Router)]
    else SetupPlan(q, i - 1, q.numTokens + 1) + [Transfer(Token(i - 1), Unicheat, q.liquidity)]
  }

  /** The swaps planned before position (i, j). */
  function SpamPlan(q: Terms, i: nat, j: nat): seq<SpamStep>
    requires 1 <= i <= j <= q.numTokens + 1
  {
    if i < j then
      var (a, b) := (Partner(i, j - 1), Token(j - 1));
      SpamPlan(q, i, j - 1) + [Swap(a, b, TradeAmount(q, a, b)), Swap(b, a, TradeAmount(q, b, a))]
    else if i == 1 then []
    else SpamPlan(q, i - 1, q.numTokens + 1)
  }

  lemma {:induction false} OpeningExecutes(q: Terms, t: nat)
    ensures Approves(q, OpeningSteps(q, t), t)
  {
    if t == 0 {
      Opening(q, OpeningSteps(q, 0));
    } else {
      OpeningExecutes(q, t - 1);
      ExecuteSnoc(Genesis(q), OpeningSteps(q, t - 1), Approve(Token(t), Router));
    }
  }

  lemma FirstPosition(q: Terms)
    ensures Executes(q, OpeningSteps(q, q.numTokens) + [Approve(Weth, Router)], 1, 1)
  {
    var opening := OpeningSteps(q, q.numTokens);
    OpeningExecutes(q, q.numTokens);
    ExecuteSnoc(Genesis(q), opening, Approve(Weth, Router));
    ApprovalsDone(q, Execute(Genesis(q), opening + [Approve(Weth, Router)]).value);
  }

  lemma PairExecutes(q: Terms, setup: seq<SetupStep>, i: nat, j: nat)
    requires Sound(q)
    requires 1 <= i <= j <= q.numTokens && Executes(q, setup, i, j)
    ensures Executes(q, setup + PairSteps(q, i, j), i, j + 1)
  {
    var steps := PairSteps(q, i, j);
    NextPair(q, Execute(Genesis(q), setup).value, i, j);
    ExecuteSnoc(Genesis(q), setup, steps[0]);
    ExecuteSnoc(Genesis(q), setup + [steps[0]], steps[1]);
    assert setup + steps == setup + [steps[0]] + [steps[1]];
  }

  lemma TurnExecutes(q: Terms, setup: seq<SetupStep>, i: nat)
    requires Sound(q)
    requires 1 <= i <= q.numTokens && Executes(q, setup, i, q.numTokens + 1)
    ensures Executes(q, setup + [Transfer(Token(i), Unicheat, q.liquidity)], i + 1, i + 1)
  {
    TokenDone(q, Execute(Genesis(q), setup).value, i);
    ExecuteSnoc(Genesis(q), setup, Transfer(Token(i), Unicheat, q.liquidity));
  }

  /** A property of plans and positions. */
  type Claim = (seq<SetupStep>, nat, nat) -> bool

  ghost predicate Starts(q: Terms, claim: Claim) {
    claim(OpeningSteps(q, q.numTokens) + [Approve(Weth, Router)], 1, 1)
  }

  ghost predicate KeptByPairs(q: Terms, claim: Claim) {
    forall s, i, j | 1 <= i <= j <= q.numTokens && claim(s, i, j) :: claim(s + PairSteps(q, i, j), i, j + 1)
  }

  ghost predicate KeptByTurns(q: Terms, claim: Claim) {
    forall s, i | 1 <= i <= q.numTokens && claim(s, i, q.numTokens + 1) ::
      claim(s + [Transfer(Token(i), Unicheat, q.liquidity)], i + 1, i + 1)
  }

  lemma {:induction false} PlanInduction(q: Terms, claim: Claim, i: nat, j: nat)
    requires Starts(q, claim) && KeptByPairs(q, claim) && KeptByTurns(q, claim)
    requires 1 <= i <= j <= q.numTokens + 1
    ensures claim(SetupPlan(q, i, j), i, j)
    decreases i, j
  {
    if i < j {
      PlanInduction(q, claim, i, j - 1);
    } else if i > 1 {
      PlanInduction(q, claim, i - 1, q.numTokens + 1);
    }
  }

  /** The claim that a plan executes and leaves the ledger at its position. */
  ghost function Solvent(q: Terms): Claim {
    (s: seq<SetupStep>, i: nat, j: nat) => 1 <= i <= j && Executes(q, s, i, j)
  }

  lemma PairsKeepSolvent(q: Terms)
    requires Sound(q)
    ensures KeptByPairs(q, Solvent(q))
  {
    forall s, i, j | 1 <= i <= j <= q.numTokens && Solvent(q)(s, i, j)
      ensures Solvent(q)(s + PairSteps(q, i, j), i, j + 1)
    {
      PairExecutes(q, s, i, j);
    }
  }

  lemma TurnsKeepSolvent(q: Terms)
    requires Sound(q)
    ensures KeptByTurns(q, Solvent(q))
  {
    forall s, i | 1 <= i <= q.numTokens && Solvent(q)(s, i, q.numTokens + 1)
      ensures Solvent(q)(s + [Transfer(Token(i), Unicheat, q.liquidity)], i + 1, i + 1)
    {
      TurnExecutes(q, s, i);
    }
  }

  lemma StartsSolvent(q: Terms)
    ensures Starts(q, Solvent(q))
  {
    FirstPosition(q);
  }

  /** At every position the plan executes and the ledger is where it should be. */
  lemma PlanExecutes(q: Terms, i: nat, j: nat)
    requires Sound(q) && 1 <= i <= j <= q.numTokens + 1
    ensures Executes(q, SetupPlan(q, i, j), i, j)
  {
    StartsSolvent(q);
    PairsKeepSolvent(q);
    TurnsKeepSolvent(q);
    PlanInduction(q, Solvent(q), i, j);
  }

  // ---- Deposits large enough to mint ----

  /** What a Uniswap V2 pair locks away for ever at its first deposit. */
  const MINIMUM_LIQUIDITY: nat := 1000

  /** The square root of the product of the amounts, rounded down, exceeds the minimum. */
  predicate Mints(a: nat, b: nat) {
    a * b >= (MINIMUM_LIQUIDITY + 1) * (MINIMUM_LIQUIDITY + 1)
  }

  /** A deposit mints liquidity if the root of the product exceeds what is locked away. */
  lemma MintsAboveRoot(a: nat, b: nat, root: nat)
    requires root * root <= a * b < (root + 1) * (root + 1)
    ensures Mints(a, b) <==> root > 1000
  {
    if root > 1000 {
      SquareMonotone(1001, root);
    } else {
      SquareMonotone(root + 1, 1001);
    }
  }

  lemma SquareMonotone(x: nat, y: nat)
    requires x <= y
    ensures x * x <= y * y
  {
    assert y * y == x * x + (y - x) * (y + x);
  }

  predicate StepMints(step: SetupStep) {
    step.AddLiquidity? ==> Mints(step.amountA, step.amountB)
  }

  /** As `Execute`, where a deposit that mints no liquidity reverts too. */
  function ExecuteMinting(l: Ledger, steps: seq<SetupStep>): Option<Ledger>
    decreases |steps|
  {
    if steps == [] then Some(l)
    else
      var before, last := ExecuteMinting(l, steps[..|steps| - 1]), steps[|steps| - 1];
      if before.None? || !StepMints(last) then None else Exec(before.value, last)
  }

  predicate AllMint(steps: seq<SetupStep>) {
    forall k | 0 <= k < |steps| :: StepMints(steps[k])
  }

  lemma {:induction false} MintingExecutes(l: Ledger, steps: seq<SetupStep>)
    requires Execute(l, steps).Some?
    ensures ExecuteMinting(l, steps) == if AllMint(steps) then Execute(l, steps) else None
    decreases |steps|
  {
    if steps != [] {
      MintingExecutes(l, steps[..|steps| - 1]);
      AllMintSnoc(steps[..|steps| - 1], steps[|steps| - 1]);
      assert steps[..|steps| - 1] + [steps[|steps| - 1]] == steps;
    }
  }

  lemma AllMintSnoc(steps: seq<SetupStep>, step: SetupStep)
    ensures AllMint(steps + [step]) <==> AllMint(steps) && StepMints(step)
  {
    var more := steps + [step];
    assert more[|steps|] == step && forall k | 0 <= k < |steps| :: more[k] == steps[k];
  }

  /** The pairs before position (i, j), with WETH and among the tokens, are funded well enough. */
  predicate MintsBefore(q: Terms, i: nat, j: nat) {
    && (1 < i || i < j ==> Mints(q.wethPerToken, q.pool))
    && ((1 < i && 2 <= q.numTokens) || (i == 1 && 2 < j) ==> Mints(q.pool, q.pool))
  }

  /** The claim that a plan mints at every deposit exactly if the amounts are large enough. */
  ghost function Minting(q: Terms): Claim {
    (s: seq<SetupStep>, i: nat, j: nat) => AllMint(s) <==> MintsBefore(q, i, j)
  }

  lemma {:induction false} OpeningMints(q: Terms, t: nat)
    ensures AllMint(OpeningSteps(q, t))
  {
    if t > 0 {
      OpeningMints(q, t - 1);
    }
  }

  lemma PairMints(q: Terms, s: seq<SetupStep>, i: nat, j: nat)
    requires 1 <= i <= j <= q.numTokens && (AllMint(s) <==> MintsBefore(q, i, j))
    ensures AllMint(s + PairSteps(q, i, j)) <==> MintsBefore(q, i, j + 1)
  {
    var steps := PairSteps(q, i, j);
    AllMintSnoc(s, steps[0]);
    AllMintSnoc(s + [steps[0]], steps[1]);
    assert s + steps == s + [steps[0]] + [steps[1]];
  }

  lemma PlanMints(q: Terms, i: nat, j: nat)
    requires 1 <= i <= j <= q.numTokens + 1
    ensures AllMint(SetupPlan(q, i, j)) <==> MintsBefore(q, i, j)
  {
    assert Starts(q, Minting(q)) by {
      OpeningMints(q, q.numTokens);
      AllMintSnoc(OpeningSteps(q, q.numTokens), Approve(Weth, Router));
    }
    forall s, i, j | 1 <= i <= j <= q.numTokens && Minting(q)(s, i, j)
      ensures Minting(q)(s + PairSteps(q, i, j), i, j + 1)
    {
      PairMints(q, s, i, j);
    }
    forall s, i | 1 <= i <= q.numTokens && Minting(q)(s, i, q.numTokens + 1)
      ensures Minting(q)(s + [Transfer(Token(i), Unicheat, q.liquidity)], i + 1, i + 1)
    {
      AllMintSnoc(s, Transfer(Token(i), Unicheat, q.liquidity));
    }
    PlanInduction(q, Minting(q), i, j);
  }

  /** Exactly when no deposit of the whole plan is too small. */
  predicate Mintable(args: Args) {
    && (1 <= args.numTokens ==> Mints(args.wethPerToken, PoolLiquidityAmount(args)))
    && (2 <= args.numTokens ==> Mints(PoolLiquidityAmount(args), PoolLiquidityAmount(args)))
  }

  // ---- The tolerated slippage ----

  /** Every deposit tolerates one percent less, rounded down, of both amounts. */
  predicate AllTolerant(steps: seq<SetupStep>) {
    forall k | 0 <= k < |steps| && steps[k].AddLiquidity? ::
      && 100 * steps[k].minA <= steps[k].amountA < 100 * steps[k].minA + 100
      && 100 * steps[k].minB <= steps[k].amountB < 100 * steps[k].minB + 100
  }

  lemma TolerantAppend(s: seq<SetupStep>, t: seq<SetupStep>)
    requires AllTolerant(s) && AllTolerant(t)
    ensures AllTolerant(s + t)
  {
  }

  lemma {:induction false} OpeningTolerant(q: Terms, t: nat)
    ensures AllTolerant(OpeningSteps(q, t))
  {
    if t > 0 {
      OpeningTolerant(q, t - 1);
    }
  }

  lemma {:induction false} PlanTolerant(q: Terms, i: nat, j: nat)
    requires 1 <= i <= j <= q.numTokens + 1
    ensures AllTolerant(SetupPlan(q, i, j))
    decreases i, j
  {
    if i < j {
      PlanTolerant(q, i, j - 1);
      TolerantAppend(SetupPlan(q, i, j - 1), PairSteps(q, i, j - 1));
    } else if i == 1 {
      OpeningTolerant(q, q.numTokens);
      TolerantAppend(OpeningSteps(q, q.numTokens), [Approve(Weth, Router)]);
    } else {
      PlanTolerant(q, i - 1, q.numTokens + 1);
      TolerantAppend(SetupPlan(q, i - 1, q.numTokens + 1), [Transfer(Token(i - 1), Unicheat, q.liquidity)]);
    }
  }

  // ---- The swaps of the plan ----

  lemma {:induction false} PlanSwaps(q: Terms, i: nat, j: nat)
    requires 1 <= i <= j <= q.numTokens + 1
    ensures Swaps(q, SpamPlan(q, i, j), i, j)
    decreases i, j
  {
    if i < j {
      PlanSwaps(q, i, j - 1);
      SwapPair(q, SpamPlan(q, i, j - 1), i, j - 1, j, Partner(i, j - 1), Token(j - 1));
    } else if i > 1 {
      PlanSwaps(q, i - 1, q.numTokens + 1);
      SwapsTurn(q, SpamPlan(q, i - 1, q.numTokens + 1), i - 1);
    }
  }

  lemma {:induction false} OpeningLength(q: Terms, t: nat)
    ensures |OpeningSteps(q, t)| == 3 + t
  {
    if t > 0 {
      OpeningLength(q, t - 1);
    }
  }

  lemma {:induction false} PlanLength(q: Terms, i: nat, j: nat)
    requires 1 <= i <= j <= q.numTokens + 1
    ensures |SpamPlan(q, i, j)| == (i - 1) * (2 * q.numTokens + 2 - i) + 2 * (j - i)
    ensures |SetupPlan(q, i, j)| == |SpamPlan(q, i, j)| + q.numTokens + i + 3
    decreases i, j
  {
    var n := q.numTokens;
    if i < j {
      PlanLength(q, i, j - 1);
    } else if i == 1 {
      OpeningLength(q, n);
    } else {
      PlanLength(q, i - 1, n + 1);
      assert (i - 2) * (2 * n + 3 - i) + 2 * (n + 2 - i) == (i - 1) * (2 * n + 2 - i);
    }
  }

  lemma WholePlanLength(q: Terms, setup: seq<SetupStep>, spam: seq<SpamStep>)
    requires setup == SetupPlan(q, q.numTokens + 1, q.numTokens + 1)
    requires spam == SpamPlan(q, q.numTokens + 1, q.numTokens + 1)
    ensures |spam| == q.numTokens * (q.numTokens + 1)
    ensures |setup| == |spam| + 2 * q.numTokens + 4
  {
    PlanLength(q, q.numTokens + 1, q.numTokens + 1);
  }

  // ---- The planner ----

  /**
   Where the setup leaves everything: nothing overdrawn, all pools funded, the rest with unicheat.  Half
   of each supply goes to unicheat, and the share of one of n + 1 pools to every pool.
   */
  ghost predicate Complete(args: Args, l: Ledger) {
    exists liquidity: nat, pool: nat :: Shares(args, liquidity, pool) && Distributed(args, l, liquidity, pool)
  }

  ghost predicate Distributed(args: Args, l: Ledger, liquidity: nat, pool: nat) {
    var n := args.numTokens;
    && Get(l.balance, Weth) == 0
    && (forall k | 1 <= k <= n ::
          Get(l.balance, Token(k)) == args.initialTokenSupply - liquidity - n * pool)
    && (forall a, b :: (a, b) in l.pools <==>
          b.Token? && 1 <= b.index <= n && (a.Weth? || 1 <= a.index < b.index))
    && (forall a, b | (a, b) in l.pools ::
          l.pools[(a, b)] == Funded(if a.Weth? then args.wethPerToken else pool, pool))
    && Get(l.unicheat, Weth) == args.wethPerToken
    && (forall k | 1 <= k <= n :: Get(l.unicheat, Token(k)) == liquidity)
  }

  lemma CompleteAtEnd(args: Args, l: Ledger)
    requires At(TermsOf(args), l, args.numTokens + 1, args.numTokens + 1)
    ensures Complete(args, l)
  {
    TimesIsProduct(args.numTokens, PoolLiquidityAmount(args));
    AmountsAreShares(args);
    assert Distributed(args, l, LiquidityAmount(args), PoolLiquidityAmount(args));
  }

  /**
   Every unordered pair of WETH and the tokens is created once and funded once, and every deposit
   comes after the creation of its pair and both approvals.
   */
  ghost predicate AllPairs(args: Args, setup: seq<SetupStep>) {
    var q := TermsOf(args);
    && (forall a, b | IsAsset(q, a) && IsAsset(q, b) && a != b ::
          Creations(setup, a, b) == 1 && Fundings(setup, a, b) == 1)
    && (forall k | 0 <= k < |setup| && setup[k].AddLiquidity? ::
          && Creations(setup[..k], setup[k].a, setup[k].b) == 1
          && Approve(setup[k].a, Router) in setup[..k] && Approve(setup[k].b, Router) in setup[..k])
  }

  lemma AllPairsOf(args: Args, setup: seq<SetupStep>)
    requires Execute(Genesis(TermsOf(args)), setup).Some?
    requires Complete(args, Execute(Genesis(TermsOf(args)), setup).value)
    ensures AllPairs(args, setup)
  {
    var q, l := TermsOf(args), Execute(Genesis(TermsOf(args)), setup).value;
    forall a, b | IsAsset(q, a) && IsAsset(q, b) && a != b
      ensures Creations(setup, a, b) == 1 && Fundings(setup, a, b) == 1
    {
      PairCounts(q, setup, a, b);
      assert (a, b) in l.pools || (b, a) in l.pools;
    }
    forall k | 0 <= k < |setup| && setup[k].AddLiquidity?
      ensures && Creations(setup[..k], setup[k].a, setup[k].b) == 1
              && Approve(setup[k].a, Router) in setup[..k] && Approve(setup[k].b, Router) in setup[..k]
    {
      FundedAfterCreation(q, setup, k);
    }
  }

  /** Exactly one swap in each direction for every pair of WETH and the tokens. */
  ghost predicate AllSwaps(args: Args, spam: seq<SpamStep>) {
    && (forall k, m | 0 <= k < m < |spam| :: spam[k] != spam[m])
    && (forall x: SpamStep :: x in spam <==>
          && IsAsset(TermsOf(args), x.sell) && IsAsset(TermsOf(args), x.buy) && x.sell != x.buy
          && x.amount == if x.sell.Weth? || x.buy.Weth? then args.wethTradeAmount else args.tokenTradeAmount)
  }

  lemma AllSwapsAtEnd(args: Args, spam: seq<SpamStep>)
    requires Swaps(TermsOf(args), spam, args.numTokens + 1, args.numTokens + 1)
    ensures AllSwaps(args, spam)
  {
  }

  lemma PlanCompletes(args: Args, setup: seq<SetupStep>)
    requires setup == SetupPlan(TermsOf(args), args.numTokens + 1, args.numTokens + 1)
    ensures Execute(Genesis(TermsOf(args)), setup).Some?
    ensures Complete(args, Execute(Genesis(TermsOf(args)), setup).value)
  {
    TermsAreSound(args);
    PlanExecutes(TermsOf(args), args.numTokens + 1, args.numTokens + 1);
    CompleteAtEnd(args, Execute(Genesis(TermsOf(args)), setup).value);
  }

  /** With the minimum-liquidity rule the whole setup executes exactly if the amounts are large enough. */
  lemma MintableExactly(args: Args, setup: seq<SetupStep>)
    requires setup == SetupPlan(TermsOf(args), args.numTokens + 1, args.numTokens + 1)
    ensures ExecuteMinting(Genesis(TermsOf(args)), setup) ==
            if Mintable(args) then Execute(Genesis(TermsOf(args)), setup) else None
    ensures ExecuteMinting(Genesis(TermsOf(args)), setup).Some? <==> Mintable(args)
  {
    PlanCompletes(args, setup);
    MintingExecutes(Genesis(TermsOf(args)), setup);
    PlanMints(TermsOf(args), args.numTokens + 1, args.numTokens + 1);
  }

  /** One token with the smallest supply: the pool amount is zero, and the setup reverts. */
  lemma TooSmall(args: Args, setup: seq<SetupStep>)
    requires args == Args(1, 1000, 1, 0, 0)
    requires setup == SetupPlan(TermsOf(args), args.numTokens + 1, args.numTokens + 1)
    ensures ExecuteMinting(Genesis(TermsOf(args)), setup).None?
  {
    MintableExactly(args, setup);
  }

  lemma PlanSwapsAll(args: Args, spam: seq<SpamStep>)
    requires spam == SpamPlan(TermsOf(args), args.numTokens + 1, args.numTokens + 1)
    ensures AllSwaps(args, spam)
  {
    PlanSwaps(TermsOf(args), args.numTokens + 1, args.numTokens + 1);
    AllSwapsAtEnd(args, spam);
  }

  lemma PlanIsRight(args: Args, setup: seq<SetupStep>, spam: seq<SpamStep>)
    requires setup == SetupPlan(TermsOf(args), args.numTokens + 1, args.numTokens + 1)
    requires spam == SpamPlan(TermsOf(args), args.numTokens + 1, args.numTokens + 1)
    ensures Execute(Genesis(TermsOf(args)), setup).Some?
    ensures Complete(args, Execute(Genesis(TermsOf(args)), setup).value)
    ensures AllPairs(args, setup)
    ensures AllSwaps(args, spam)
    ensures |spam| == args.numTokens * (args.numTokens + 1)
    ensures |setup| == |spam| + 2 * args.numTokens + 4
  {
    assert |spam| == args.numTokens * (args.numTokens + 1) && |setup| == |spam| + 2 * args.numTokens + 4 by {
      WholePlanLength(TermsOf(args), setup, spam);
    }
    PlanCompletes(args, setup);
    AllPairsOf(args, setup);
    PlanSwapsAll(args, spam);
  }

  method WethValue(wethPerToken: nat, numTokens: nat) returns (value: nat)
    ensures value == Times(numTokens + 1, wethPerToken)
  {
    value := wethPerToken * (numTokens + 1);
    TimesIsProduct(numTokens + 1, wethPerToken);
  }

  /** The nested loops that push the steps. */
  method PlanSteps(args: Args) returns (setup: seq<SetupStep>, spam: seq<SpamStep>)
    ensures setup == SetupPlan(TermsOf(args), args.numTokens + 1, args.numTokens + 1)
    ensures spam == SpamPlan(TermsOf(args), args.numTokens + 1, args.numTokens + 1)
  {
    var n, w := args.numTokens, args.wethPerToken;
    ghost var q := TermsOf(args);
    var wethValue := WethValue(w, n);
    setup := [Deposit(wethValue)];
    spam := [];
    setup := setup + [Approve(Weth, Router)];
    setup := setup + [Transfer(Weth, Unicheat, w)];
    for t := 0 to n
      invariant setup == OpeningSteps(q, t)
    {
      setup := setup + [Approve(Token(t + 1), Router)];
    }
    setup := setup + [Approve(Weth, Router)];
    for i := 0 to n
      invariant setup == SetupPlan(q, i + 1, i + 1) && spam == SpamPlan(q, i + 1, i + 1)
    {
      var token, p := Token(i + 1), PoolLiquidityAmount(args);
      setup := setup + [CreatePair(Weth, token), AddLiquidity(Weth, token, w, p, w / 100, p / 100)];
      spam := spam + [Swap(Weth, token, args.wethTradeAmount), Swap(token, Weth, args.wethTradeAmount)];
      for j := i + 1 to n
        invariant setup == SetupPlan(q, i + 1, j + 1) && spam == SpamPlan(q, i + 1, j + 1)
      {
        var other := Token(j + 1);
        setup := setup + [CreatePair(token, other), AddLiquidity(token, other, p, p, p / 100, p / 100)];
        spam := spam + [Swap(token, other, args.tokenTradeAmount), Swap(other, token, args.tokenTradeAmount)];
      }
      setup := setup + [Transfer(token, Unicheat, LiquidityAmount(args))];
    }
  }

  /**
   Plans the scenario.  For every token count and all amounts the setup executes from the sender's
   initial balances, no call reverts for lack of balance, approval or pair, and it ends in the complete
   ledger; no call reverts at all exactly if every deposit is large enough to mint liquidity.  The spam
   is one swap per direction of every pair.
   */
  method PlanScenario(args: Args) returns (setup: seq<SetupStep>, spam: seq<SpamStep>)
    ensures Execute(Genesis(TermsOf(args)), setup).Some?
    ensures Complete(args, Execute(Genesis(TermsOf(args)), setup).value)
    ensures AllPairs(args, setup)
    ensures AllSwaps(args, spam)
    ensures |spam| == args.numTokens * (args.numTokens + 1)
    ensures |setup| == |spam| + 2 * args.numTokens + 4
    ensures ExecuteMinting(Genesis(TermsOf(args)), setup).Some? <==> Mintable(args)
    ensures AllTolerant(setup)
  {
    setup, spam := PlanSteps(args);
    assert AllTolerant(setup) by {
      PlanTolerant(TermsOf(args), args.numTokens + 1, args.numTokens + 1);
    }
    PlanIsRight(args, setup, spam);
    assert ExecuteMinting(Genesis(TermsOf(args)), setup).Some? <==> Mintable(args) by {
      MintableExactly(args, setup);
    }
  }
}
