/**
 * The pools of the mutable ledger over whole runs: any sequence of block
 * beginnings and of order, deposit and withdrawal batches.
 */
module LedgerRuns {
  import opened Uint64
  import opened Aggregates
  import opened Bytes
  import opened DexBatch
  import opened Withdrawals
  import opened PointRemoval
  import opened RemovalLaw
  import opened RepeatedWithdrawals
  import opened SolvencyLaw

  /** The ids of the two dex pools of a chain, and the library's overflow answers. */
  datatype Config = Config(over: Overflow, holdingId: U64, liquidityId: U64)

  type Pools = map<U64, PoolVal>

  datatype Op =
    | BeginBlock(height: U64)
    | Orders(orders: seq<LimitOrder>)
    | Deposits(deposits: seq<Deposit>)
    | Withdraws(withdrawals: seq<Withdrawal>)

  const INFLATION: U64 := 1000

  function Inflate(ps: Pools): Pools {
    if 1 in ps then ps[1 := ps[1].(amount := Wrap(ps[1].amount + INFLATION))] else ps
  }

  function TakeOrders(cfg: Config, ps: Pools, os: seq<LimitOrder>): Pools {
    if cfg.holdingId in ps then ps[cfg.holdingId := PostOrders(ps[cfg.holdingId], os)] else ps
  }

  function CreditDeposits(cfg: Config, ps: Pools, ds: seq<Deposit>): Pools {
    if cfg.liquidityId in ps then ps[cfg.liquidityId := PostDeposits(ps[cfg.liquidityId], ds)] else ps
  }

  function DebitHolding(cfg: Config, ps: Pools, ds: seq<Deposit>): Pools {
    if cfg.holdingId in ps
    then ps[cfg.holdingId := ps[cfg.holdingId].(amount := HoldingLeft(ps[cfg.holdingId].amount, ds))]
    else ps
  }

  function TakeDeposits(cfg: Config, ps: Pools, ds: seq<Deposit>): Pools {
    DebitHolding(cfg, CreditDeposits(cfg, ps, ds), ds)
  }

  function PayWithdrawals(cfg: Config, ps: Pools, ws: seq<Withdrawal>): Pools {
    if cfg.liquidityId in ps
    then ps[cfg.liquidityId := PostWithdrawals(cfg.over, ps[cfg.liquidityId], ws)]
    else ps
  }

  function Step(cfg: Config, ps: Pools, op: Op): Pools {
    match op
    case BeginBlock(_) => Inflate(ps)
    case Orders(os) => TakeOrders(cfg, ps, os)
    case Deposits(ds) => TakeDeposits(cfg, ps, ds)
    case Withdraws(ws) => PayWithdrawals(cfg, ps, ws)
  }

  function Run(cfg: Config, ps: Pools, ops: seq<Op>): Pools {
    if ops == [] then ps else Step(cfg, Run(cfg, ps, ops[..|ops| - 1]), ops[|ops| - 1])
  }

  // ----------------------------------------------------------------- supply

  function PoolAmounts(ps: Pools): map<U64, int> {
    map k | k in ps :: ps[k].amount
  }

  ghost function PoolSum(ps: Pools): int {
    MapSum(PoolAmounts(ps))
  }

  lemma PoolSumUpdate(ps: Pools, k: U64, p: PoolVal)
    requires k in ps
    ensures PoolSum(ps[k := p]) == PoolSum(ps) - ps[k].amount + p.amount
  {
    assert PoolAmounts(ps[k := p]) == PoolAmounts(ps)[k := p.amount];
    MapSumUpdate(PoolAmounts(ps), k, p.amount);
  }

  /** What an operation brings into the ledger, net of what it pays out. */
  function Flow(cfg: Config, ps: Pools, op: Op): int {
    match op
    case BeginBlock(_) => if 1 in ps then INFLATION else 0
    case Orders(os) => if cfg.holdingId in ps then Sum(Sales(os)) else 0
    case Deposits(ds) =>
      (if cfg.liquidityId in ps then Sum(Amounts(ds)) else 0)
      - (if cfg.holdingId in ps then Sum(Amounts(ds)) - Sum(Uncovered(ps[cfg.holdingId].amount, ds)) else 0)
    case Withdraws(ws) =>
      if cfg.liquidityId in ps then -Sum(Paid(Results(cfg.over, ps[cfg.liquidityId], ws))) else 0
  }

  function NetFlow(cfg: Config, ps: Pools, ops: seq<Op>): int {
    if ops == [] then 0 else
      var n := |ops| - 1;
      NetFlow(cfg, ps, ops[..n]) + Flow(cfg, Run(cfg, ps, ops[..n]), ops[n])
  }

  /** All an operation could bring in, read off the operation alone. */
  function Gross(op: Op): int {
    match op
    case BeginBlock(_) => INFLATION
    case Orders(os) => Sum(Sales(os))
    case Deposits(ds) => Sum(Amounts(ds))
    case Withdraws(_) => 0
  }

  function GrossIn(ops: seq<Op>): int {
    if ops == [] then 0 else GrossIn(ops[..|ops| - 1]) + Gross(ops[|ops| - 1])
  }

  /** Points granted by the deposits of a run, read off the operations alone. */
  function GrantedIn(ops: seq<Op>): int {
    if ops == [] then 0 else
      GrantedIn(ops[..|ops| - 1]) + match ops[|ops| - 1] case Deposits(ds) => Sum(Shares(ds)) case _ => 0
  }

  // ----------------------------------------------------------- point ledger

  /** The total of the liquidity pool is the sum of its entries, as a word. */
  ghost predicate Balanced(cfg: Config, ps: Pools) {
    cfg.liquidityId in ps ==>
      Wrap(Sum(Points(ps[cfg.liquidityId].points))) == ps[cfg.liquidityId].total
  }

  ghost function EntrySum(cfg: Config, ps: Pools): int {
    if cfg.liquidityId in ps then Sum(Points(ps[cfg.liquidityId].points)) else 0
  }

  lemma DepositsKeepBalance(liq: PoolVal, ds: seq<Deposit>)
    requires Wrap(Sum(Points(liq.points))) == liq.total
    ensures var after := PostDeposits(liq, ds);
            && Wrap(Sum(Points(after.points))) == after.total
            && Sum(Points(after.points)) == Sum(Points(liq.points)) + Sum(Shares(ds))
  {
    PointsConcat(liq.points, Granted(ds));
    GrantedPoints(ds);
    WrapAdd(Sum(Points(liq.points)), Sum(Shares(ds)));
  }

  lemma WithdrawalsKeepBalance(over: Overflow, liq: PoolVal, ws: seq<Withdrawal>)
    requires Wrap(Sum(Points(liq.points))) == liq.total
    ensures var after := PostWithdrawals(over, liq, ws);
            && Wrap(Sum(Points(after.points))) == after.total
            && Sum(Points(after.points)) <= Sum(Points(liq.points))
  {
    if !Dry(liq) {
      var after := PostWithdrawals(over, liq, ws);
      var rs := Results(over, liq, ws);
      RemovalsAreEven(liq.(amount := PaidOut(liq.amount, rs)), ws, rs);
      StillBalanced(Sum(Points(liq.points)), liq.total, Sum(Points(after.points)), after.total);
    }
  }

  /** A sum and a word for it that lose the same number still agree. */
  lemma StillBalanced(sum: int, total: U64, sum': int, total': U64)
    requires Wrap(sum) == total && sum' - total' == sum - total && total' <= total
    ensures Wrap(sum') == total' && sum' <= sum
  {
    WrapDown(sum, total - total');
  }

  /** No operation ever makes the entries and the total disagree as words. */
  lemma StepKeepsBalance(cfg: Config, ps: Pools, op: Op)
    requires Balanced(cfg, ps) && cfg.holdingId != cfg.liquidityId
    ensures Balanced(cfg, Step(cfg, ps, op))
    ensures EntrySum(cfg, Step(cfg, ps, op))
         <= EntrySum(cfg, ps) + match op case Deposits(ds) => Sum(Shares(ds)) case _ => 0
  {
    if cfg.liquidityId in ps {
      match op
      case BeginBlock(_) =>
      case Orders(_) =>
      case Deposits(ds) => DepositsKeepBalance(ps[cfg.liquidityId], ds);
      case Withdraws(ws) => WithdrawalsKeepBalance(cfg.over, ps[cfg.liquidityId], ws);
    } else if op.Deposits? {
      SumNonNegative(Shares(op.deposits));
    }
  }

  lemma {:induction false} RunKeepsBalance(cfg: Config, ps: Pools, ops: seq<Op>)
    requires Balanced(cfg, ps) && cfg.holdingId != cfg.liquidityId
    ensures Balanced(cfg, Run(cfg, ps, ops))
    ensures EntrySum(cfg, Run(cfg, ps, ops)) <= EntrySum(cfg, ps) + GrantedIn(ops)
  {
    if ops != [] {
      var n := |ops| - 1;
      RunKeepsBalance(cfg, ps, ops[..n]);
      StepKeepsBalance(cfg, Run(cfg, ps, ops[..n]), ops[n]);
    }
  }

  lemma {:induction false} GrantedInMonotone(ops: seq<Op>, k: nat)
    requires k <= |ops|
    ensures 0 <= GrantedIn(ops[..k]) <= GrantedIn(ops)
  {
    if k == |ops| {
      assert ops[..k] == ops;
      if ops != [] {
        GrantedInMonotone(ops[..|ops| - 1], |ops| - 1);
        assert ops[..|ops| - 1][..|ops| - 1] == ops[..|ops| - 1];
        match ops[|ops| - 1] case Deposits(ds) => SumNonNegative(Shares(ds)); case _ =>
      }
    } else {
      GrantedInMonotone(ops[..|ops| - 1], k);
      assert ops[..|ops| - 1][..k] == ops[..k];
      match ops[|ops| - 1] case Deposits(ds) => SumNonNegative(Shares(ds)); case _ =>
    }
  }

  /** Points are conserved over whole runs: as long as the points held plus the
      points granted fit a word, the entries sum to the total at every moment of
      the run, so that every withdrawal batch finds a backed pool. */
  lemma PointsConserved(cfg: Config, ps: Pools, ops: seq<Op>, k: nat)
    requires Balanced(cfg, ps) && cfg.holdingId != cfg.liquidityId
    requires EntrySum(cfg, ps) + GrantedIn(ops) < MOD
    requires k <= |ops| && cfg.liquidityId in Run(cfg, ps, ops[..k])
    ensures var liq := Run(cfg, ps, ops[..k])[cfg.liquidityId];
            Sum(Points(liq.points)) == liq.total && Backed(liq)
  {
    RunKeepsBalance(cfg, ps, ops[..k]);
    GrantedInMonotone(ops, k);
    SumNonNegative(Points(Run(cfg, ps, ops[..k])[cfg.liquidityId].points));
  }

  /** Whatever was granted, the pool is backed exactly when its entries fit a word. */
  lemma BackedIffFits(cfg: Config, ps: Pools, ops: seq<Op>)
    requires Balanced(cfg, ps) && cfg.holdingId != cfg.liquidityId && cfg.liquidityId in Run(cfg, ps, ops)
    ensures var liq := Run(cfg, ps, ops)[cfg.liquidityId];
            Backed(liq) <==> Sum(Points(liq.points)) < MOD
  {
    RunKeepsBalance(cfg, ps, ops);
    SumNonNegative(Points(Run(cfg, ps, ops)[cfg.liquidityId].points));
  }

  /** Every withdrawal batch of such a run is paid in full out of what the pool holds. */
  lemma SolventOverRun(cfg: Config, ps: Pools, ops: seq<Op>, j: nat)
    requires Balanced(cfg, ps) && cfg.holdingId != cfg.liquidityId
    requires EntrySum(cfg, ps) + GrantedIn(ops) < MOD
    requires j < |ops| && ops[j].Withdraws? && cfg.liquidityId in Run(cfg, ps, ops[..j])
    ensures cfg.liquidityId in Run(cfg, ps, ops[..j + 1])
    ensures var liq := Run(cfg, ps, ops[..j])[cfg.liquidityId];
            var paid := Sum(Paid(Results(cfg.over, liq, ops[j].withdrawals)));
            && 0 <= paid <= liq.amount
            && Run(cfg, ps, ops[..j + 1])[cfg.liquidityId].amount == liq.amount - paid
  {
    PointsConserved(cfg, ps, ops, j);
    assert ops[..j + 1][..j] == ops[..j];
    BackedList(Run(cfg, ps, ops[..j])[cfg.liquidityId]);
    Solvency(cfg.over, Run(cfg, ps, ops[..j])[cfg.liquidityId], ops[j].withdrawals);
  }

  // ------------------------------------------------------------ supply law

  /** How many times a pool amount overflows during the operation. */
  function Wraps(cfg: Config, ps: Pools, op: Op): int {
    match op
    case BeginBlock(_) => if 1 in ps then Overflows(ps[1].amount + INFLATION) else 0
    case Orders(os) =>
      SumNonNegative(Sales(os));
      if cfg.holdingId in ps then Overflows(ps[cfg.holdingId].amount + Sum(Sales(os))) else 0
    case Deposits(ds) =>
      SumNonNegative(Amounts(ds));
      if cfg.liquidityId in ps then Overflows(ps[cfg.liquidityId].amount + Sum(Amounts(ds))) else 0
    case Withdraws(_) => 0
  }

  function WrapsIn(cfg: Config, ps: Pools, ops: seq<Op>): int {
    if ops == [] then 0 else
      var n := |ops| - 1;
      WrapsIn(cfg, ps, ops[..n]) + Wraps(cfg, Run(cfg, ps, ops[..n]), ops[n])
  }

  /** Crediting x to one pool credits x to the supply, less 2^64 for each overflow. */
  lemma AddToPool(ps: Pools, k: U64, p: PoolVal, x: nat)
    requires k in ps && p.amount == Wrap(ps[k].amount + x)
    ensures PoolSum(ps[k := p]) == PoolSum(ps) + x - MOD * Overflows(ps[k].amount + x)
  {
    PoolSumUpdate(ps, k, p);
    WrapCount(ps[k].amount + x);
  }

  lemma DepositsSupply(cfg: Config, ps: Pools, ds: seq<Deposit>)
    requires cfg.holdingId != cfg.liquidityId
    ensures var op := Deposits(ds);
            PoolSum(TakeDeposits(cfg, ps, ds)) == PoolSum(ps) + Flow(cfg, ps, op) - MOD * Wraps(cfg, ps, op)
  {
    SumNonNegative(Amounts(ds));
    if cfg.liquidityId in ps {
      AddToPool(ps, cfg.liquidityId, PostDeposits(ps[cfg.liquidityId], ds), Sum(Amounts(ds)));
    }
    if cfg.holdingId in ps {
      var held, credited := ps[cfg.holdingId], CreditDeposits(cfg, ps, ds);
      HoldingPaysForCovered(held.amount, ds);
      assert credited[cfg.holdingId] == held;
      PoolSumUpdate(credited, cfg.holdingId, held.(amount := HoldingLeft(held.amount, ds)));
    }
  }

  /** A withdrawal batch moves the supply by its flow exactly when it is paid in full. */
  lemma WithdrawalsSupply(cfg: Config, ps: Pools, ws: seq<Withdrawal>)
    requires cfg.liquidityId in ps
    ensures PoolSum(PayWithdrawals(cfg, ps, ws)) == PoolSum(ps) + Flow(cfg, ps, Withdraws(ws))
       <==> PaysInFull(cfg.over, ps[cfg.liquidityId], ws)
  {
    PoolSumUpdate(ps, cfg.liquidityId, PostWithdrawals(cfg.over, ps[cfg.liquidityId], ws));
  }

  /** Each operation changes the supply by its flow, less 2^64 for each overflow; a
      withdrawal batch exactly when the pool pays it in full. */
  lemma StepSupply(cfg: Config, ps: Pools, op: Op)
    requires cfg.holdingId != cfg.liquidityId
    ensures PoolSum(Step(cfg, ps, op)) == PoolSum(ps) + Flow(cfg, ps, op) - MOD * Wraps(cfg, ps, op)
       <==> (op.Withdraws? && cfg.liquidityId in ps
             ==> PaysInFull(cfg.over, ps[cfg.liquidityId], op.withdrawals))
  {
    match op
    case BeginBlock(_) =>
      if 1 in ps { AddToPool(ps, 1, Inflate(ps)[1], INFLATION); }
    case Orders(os) =>
      SumNonNegative(Sales(os));
      if cfg.holdingId in ps {
        AddToPool(ps, cfg.holdingId, PostOrders(ps[cfg.holdingId], os), Sum(Sales(os)));
      }
    case Deposits(ds) => DepositsSupply(cfg, ps, ds);
    case Withdraws(ws) => if cfg.liquidityId in ps { WithdrawalsSupply(cfg, ps, ws); }
  }

  /** The supply law over whole runs: the final supply is the initial one plus the
      net flow, less 2^64 for every overflow on the way. */
  lemma {:induction false} SupplyOverRun(cfg: Config, ps: Pools, ops: seq<Op>)
    requires Balanced(cfg, ps) && cfg.holdingId != cfg.liquidityId
    requires EntrySum(cfg, ps) + GrantedIn(ops) < MOD
    ensures PoolSum(Run(cfg, ps, ops)) == PoolSum(ps) + NetFlow(cfg, ps, ops) - MOD * WrapsIn(cfg, ps, ops)
  {
    if ops != [] {
      var n := |ops| - 1;
      var mid := Run(cfg, ps, ops[..n]);
      GrantedInMonotone(ops, n);
      SupplyOverRun(cfg, ps, ops[..n]);
      if cfg.liquidityId in mid {
        PointsConserved(cfg, ps, ops, n);
        BackedList(mid[cfg.liquidityId]);
        if ops[n].Withdraws? { Solvency(cfg.over, mid[cfg.liquidityId], ops[n].withdrawals); }
      }
      StepSupply(cfg, mid, ops[n]);
    }
  }

  /** The supply law as the source computes it, in words: overflows on the way do
      not show in the total. */
  lemma SupplyWordOverRun(cfg: Config, ps: Pools, ops: seq<Op>, rest: nat)
    requires Balanced(cfg, ps) && cfg.holdingId != cfg.liquidityId
    requires EntrySum(cfg, ps) + GrantedIn(ops) < MOD
    ensures Wrap(rest + PoolSum(Run(cfg, ps, ops))) == Wrap(rest + PoolSum(ps) + NetFlow(cfg, ps, ops))
  {
    SupplyOverRun(cfg, ps, ops);
    WrapShift(rest + PoolSum(ps) + NetFlow(cfg, ps, ops), -WrapsIn(cfg, ps, ops));
  }

  lemma FlowBounded(cfg: Config, ps: Pools, op: Op)
    requires cfg.holdingId != cfg.liquidityId
    requires op.Withdraws? && cfg.liquidityId in ps ==> ListBacked(ps[cfg.liquidityId])
    ensures Flow(cfg, ps, op) <= Gross(op) && 0 <= Wraps(cfg, ps, op)
  {
    match op
    case BeginBlock(_) =>
    case Orders(os) => SumNonNegative(Sales(os));
    case Deposits(ds) =>
      SumNonNegative(Amounts(ds));
      if cfg.holdingId in ps {
        HoldingPaysForCovered(ps[cfg.holdingId].amount, ds);
        HoldingOnlyShrinks(ps[cfg.holdingId].amount, ds);
      }
    case Withdraws(ws) =>
      if cfg.liquidityId in ps { Solvency(cfg.over, ps[cfg.liquidityId], ws); }
  }

  lemma {:induction false} NetFlowBounded(cfg: Config, ps: Pools, ops: seq<Op>)
    requires Balanced(cfg, ps) && cfg.holdingId != cfg.liquidityId
    requires EntrySum(cfg, ps) + GrantedIn(ops) < MOD
    ensures NetFlow(cfg, ps, ops) <= GrossIn(ops) && 0 <= WrapsIn(cfg, ps, ops)
  {
    if ops != [] {
      var n := |ops| - 1;
      var mid := Run(cfg, ps, ops[..n]);
      GrantedInMonotone(ops, n);
      NetFlowBounded(cfg, ps, ops[..n]);
      if cfg.liquidityId in mid {
        PointsConserved(cfg, ps, ops, n);
        BackedList(mid[cfg.liquidityId]);
      }
      FlowBounded(cfg, mid, ops[n]);
    }
  }

  /** The supply law in plain numbers: if the initial supply and everything the
      operations could bring in fit a word, nothing overflows and the supply
      changes by exactly the net flow. */
  lemma ExactSupplyOverRun(cfg: Config, ps: Pools, ops: seq<Op>, rest: nat)
    requires Balanced(cfg, ps) && cfg.holdingId != cfg.liquidityId
    requires EntrySum(cfg, ps) + GrantedIn(ops) < MOD
    requires rest + PoolSum(ps) + GrossIn(ops) < MOD
    ensures WrapsIn(cfg, ps, ops) == 0
    ensures Wrap(rest + PoolSum(Run(cfg, ps, ops))) == rest + PoolSum(ps) + NetFlow(cfg, ps, ops)
  {
    SupplyOverRun(cfg, ps, ops);
    NetFlowBounded(cfg, ps, ops);
    MapSumNonNegative(PoolAmounts(Run(cfg, ps, ops)));
    SmallWord(rest + PoolSum(Run(cfg, ps, ops)));
  }

  lemma {:induction false} HoldingOnlyShrinks(held: U64, ds: seq<Deposit>)
    ensures HoldingLeft(held, ds) <= held
  {
    if ds != [] { HoldingOnlyShrinks(held, ds[..|ds| - 1]); }
  }

  // ------------------------------------------------------------ run details

  function Owners(es: seq<LpEntry>): seq<Bytes> {
    seq(|es|, i requires 0 <= i < |es| => es[i].address)
  }

  /** The depositors of one operation. */
  function DepositorsOf(op: Op): seq<Bytes> {
    match op case Deposits(ds) => Owners(Granted(ds)) case _ => []
  }

  /** Addresses of the deposits of a run, in order. */
  function Depositors(ops: seq<Op>): seq<Bytes> {
    if ops == [] then [] else
      Depositors(ops[..|ops| - 1]) + DepositorsOf(ops[|ops| - 1])
  }

  lemma {:induction false} RemovalsKeepOwners(pool: PoolVal, ws: seq<Withdrawal>, rs: seq<WithdrawResult>)
    requires |ws| == |rs|
    ensures Owners(RemoveBurned(pool, ws, rs).points) == Owners(pool.points)
  {
    if ws != [] { RemovalsKeepOwners(pool, ws[..|ws| - 1], rs[..|rs| - 1]); }
  }

  /** The entries of the liquidity pool belong to whoever held one before the run
      and then to the depositors of the run, in order. */
  lemma {:induction false} OwnersOverRun(cfg: Config, ps: Pools, ops: seq<Op>)
    requires cfg.liquidityId in ps && cfg.holdingId != cfg.liquidityId
    ensures cfg.liquidityId in Run(cfg, ps, ops)
    ensures Owners(Run(cfg, ps, ops)[cfg.liquidityId].points)
         == Owners(ps[cfg.liquidityId].points) + Depositors(ops)
  {
    if ops != [] {
      var n := |ops| - 1;
      OwnersOverRun(cfg, ps, ops[..n]);
      OwnersStep(cfg, Run(cfg, ps, ops[..n]), ops[n]);
      assert forall xs: seq<Bytes>, ys: seq<Bytes>, zs: seq<Bytes> :: xs + ys + zs == xs + (ys + zs);
    }
  }

  lemma OwnersStep(cfg: Config, ps: Pools, op: Op)
    requires cfg.liquidityId in ps && cfg.holdingId != cfg.liquidityId
    ensures cfg.liquidityId in Step(cfg, ps, op)
    ensures Owners(Step(cfg, ps, op)[cfg.liquidityId].points)
         == Owners(ps[cfg.liquidityId].points) + DepositorsOf(op)
  {
    var liq := ps[cfg.liquidityId];
    match op
    case BeginBlock(_) =>
    case Orders(_) =>
    case Deposits(ds) =>
      assert Owners(liq.points + Granted(ds)) == Owners(liq.points) + Owners(Granted(ds));
    case Withdraws(ws) =>
      if !Dry(liq) {
        var rs := Results(cfg.over, liq, ws);
        RemovalsKeepOwners(liq.(amount := PaidOut(liq.amount, rs)), ws, rs);
      }
  }

  lemma {:induction false} DepositorsPrefix(ops: seq<Op>, k: nat)
    requires k <= |ops|
    ensures Depositors(ops[..k]) <= Depositors(ops)
  {
    if k == |ops| {
      assert ops[..k] == ops;
    } else {
      DepositorsPrefix(ops[..|ops| - 1], k);
      assert ops[..|ops| - 1][..k] == ops[..k];
    }
  }

  /** After every run, whether all removals of the next batch, or of all the batches to
      come, would succeed can be read off the pool; while the entries fit a word, off the
      entries alone, and so can whether the next batch could lower the price of a point. */
  lemma RemovalsAfterRun(cfg: Config, ps: Pools, ops: seq<Op>)
    requires Balanced(cfg, ps) && cfg.holdingId != cfg.liquidityId && cfg.liquidityId in Run(cfg, ps, ops)
    ensures var over, liq := cfg.over, Run(cfg, ps, ops)[cfg.liquidityId];
            && ((forall ws :: BatchRemoved(over, liq, ws))
                <==> (liq.amount == 0 || liq.total == 0 || (FirstCoversLast(liq.points) && ListBacked(liq))))
            && ((forall batches :: AllRemoved(over, liq, batches))
                <==> (liq.amount == 0 || liq.total == 0 || KeepsRemoving(liq)))
    ensures var over, liq := cfg.over, Run(cfg, ps, ops)[cfg.liquidityId];
            Sum(Points(liq.points)) < MOD ==>
              && ((forall ws :: BatchRemoved(over, liq, ws))
                  <==> (liq.amount == 0 || liq.total == 0 || FirstCoversLast(liq.points)))
              && ((forall batches :: AllRemoved(over, liq, batches))
                  <==> (liq.amount == 0 || liq.total == 0 || OneEntryEach(liq.points)))
              && ((forall ws :: KeepsPrice(over, liq, ws))
                  <==> (liq.amount == 0 || liq.total == 0
                        || forall a :: a in LastPoints(liq.points) ==> CoveredOrWorthless(liq, a)))
  {
    var liq := Run(cfg, ps, ops)[cfg.liquidityId];
    RemovalsSucceedIff(cfg.over, liq);
    AlwaysRemovedIff(cfg.over, liq);
    BackedIffFits(cfg, ps, ops);
    if Backed(liq) {
      BackedList(liq);
      BackedRemovals(cfg.over, liq);
      PriceKeptIff(cfg.over, liq);
    }
  }

  /** As long as nobody deposits who already has an entry, there is one entry each. */
  lemma OneEntryOverRun(cfg: Config, ps: Pools, ops: seq<Op>, j: nat)
    requires cfg.holdingId != cfg.liquidityId && cfg.liquidityId in ps && j <= |ops|
    requires NoDuplicates(Owners(ps[cfg.liquidityId].points) + Depositors(ops))
    ensures cfg.liquidityId in Run(cfg, ps, ops[..j])
    ensures OneEntryEach(Run(cfg, ps, ops[..j])[cfg.liquidityId].points)
  {
    OwnersOverRun(cfg, ps, ops[..j]);
    DepositorsPrefix(ops, j);
    var es := Run(cfg, ps, ops[..j])[cfg.liquidityId].points;
    var all := Owners(ps[cfg.liquidityId].points) + Depositors(ops);
    assert Owners(es) <= all;
    forall a | a in LastPoints(es) ensures OneEntryOrEmpty(es, a) {
      forall i, k | 0 <= i < |es| && 0 <= k < |es| && es[i].address == a && es[k].address == a ensures i == k {
        assert all[i] == es[i].address && all[k] == es[k].address;
      }
    }
  }

  /** So with distinct owners and depositors every removal of the run succeeds, and of
      any batches that might follow at any moment of it. */
  lemma RemovalsOverRun(cfg: Config, ps: Pools, ops: seq<Op>, j: nat, batches: seq<seq<Withdrawal>>)
    requires Balanced(cfg, ps) && cfg.holdingId != cfg.liquidityId && cfg.liquidityId in ps && j <= |ops|
    requires EntrySum(cfg, ps) + GrantedIn(ops) < MOD
    requires NoDuplicates(Owners(ps[cfg.liquidityId].points) + Depositors(ops))
    ensures cfg.liquidityId in Run(cfg, ps, ops[..j])
    ensures AllRemoved(cfg.over, Run(cfg, ps, ops[..j])[cfg.liquidityId], batches)
  {
    OneEntryOverRun(cfg, ps, ops, j);
    PointsConserved(cfg, ps, ops, j);
    BackedList(Run(cfg, ps, ops[..j])[cfg.liquidityId]);
    RemovesThrough(cfg.over, Run(cfg, ps, ops[..j])[cfg.liquidityId], batches);
  }

  // ---------------------------------------------------------------- genesis

  /** The pools a chain starts with; r0, r1 and r2 are the generator's draws. */
  function GenesisPools(cfg: Config, chainId: U64, firstAccount: Bytes, r0: nat, r1: nat, r2: nat): Pools
    requires r0 < 500_000 && r1 < 200_000 && r2 < 300_000
  {
    map[chainId := PoolVal(5_000_000 + r0, [], 0)]
       [cfg.holdingId := PoolVal(2_000_000 + r1, [], 0)]
       [cfg.liquidityId := PoolVal(3_000_000 + r2, [LpEntry(firstAccount, 100)], 100)]
  }

  /** From genesis on, every run whose deposits grant fewer than 2^64 - 100 points
      keeps the liquidity pool's entries summing to its total. */
  lemma GenesisPointsConserved(cfg: Config, chainId: U64, a: Bytes, r0: nat, r1: nat, r2: nat, ops: seq<Op>)
    requires r0 < 500_000 && r1 < 200_000 && r2 < 300_000
    requires cfg.holdingId != cfg.liquidityId && 100 + GrantedIn(ops) < MOD
    ensures var ps := Run(cfg, GenesisPools(cfg, chainId, a, r0, r1, r2), ops);
            && cfg.liquidityId in ps
            && Sum(Points(ps[cfg.liquidityId].points)) == ps[cfg.liquidityId].total <= 100 + GrantedIn(ops)
  {
    var ps := GenesisPools(cfg, chainId, a, r0, r1, r2);
    assert Points(ps[cfg.liquidityId].points) == [] + [100];
    SumSnoc([], 100);
    OwnersOverRun(cfg, ps, ops);
    RunKeepsBalance(cfg, ps, ops);
    assert ops[..|ops|] == ops;
    PointsConserved(cfg, ps, ops, |ops|);
  }

}
