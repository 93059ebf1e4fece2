/** The entities that snapshots, blocks and certificates are made of, and the pool object. */
module Genesis {
  import opened Uint64
  import opened Bytes
  import opened DexBatch
  import opened Decimal

  datatype Account = Account(address: Bytes, amount: U64)

  datatype Validator = Validator(
    address: Bytes, publicKey: Bytes, netAddress: string, stakedAmount: U64, committees: seq<U64>,
    maxPausedHeight: U64, unstakingHeight: U64, output: Bytes, delegate: bool, compound: bool)

  datatype SellOrder = SellOrder(id: Bytes, committee: U64, amountForSale: U64, requestedAmount: U64)

  datatype OrderBook = OrderBook(chainId: U64, orders: seq<SellOrder>)

  datatype NonSigner = NonSigner(address: Bytes, counter: U64)

  datatype DoubleSigner = DoubleSigner(id: Bytes, heights: seq<U64>)

  datatype Supply = Supply(
    total: U64, staked: U64, delegatedOnly: U64, committeeStaked: seq<Pool>, committeeDelegatedOnly: seq<Pool>)

  /** Parameters and committee data of a chain, which its ledger passes on unread. */
  type Params = Bytes
  type Committees = Bytes

  const RETIRED_COMMITTEES: seq<U64> := [42]

  datatype GenesisState = GenesisState(
    time: U64, pools: seq<Pool>, accounts: seq<Account>, validators: seq<Validator>,
    nonSigners: seq<NonSigner>, doubleSigners: seq<DoubleSigner>, orderBooks: seq<OrderBook>, params: Params,
    supply: Supply, committees: Committees, retiredCommittees: seq<U64>)

  // ---------------------------------------------------- blocks and certificates

  const NETWORK_ID: U64 := 1

  datatype Phase = PrecommitVote

  datatype View = View(networkId: U64, chainId: U64, height: U64, rootHeight: U64, round: U64, phase: Phase)

  /** The view all certificates of a height are made for. */
  function ViewOf(chainId: U64, height: U64): View {
    View(NETWORK_ID, chainId, height, height, 1, PrecommitVote)
  }

  datatype PaymentPercents = PaymentPercents(address: Bytes, percent: U64, chainId: U64)

  datatype Checkpoint = Checkpoint(height: U64, blockHash: Bytes)

  datatype EventMsg =
    | Reward(amount: U64)
    | Slash(amount: U64)
    | Swap(soldAmount: U64, boughtAmount: U64, localOrigin: bool, success: bool)
    | LiquidityDeposit(amount: U64, points: U64)

  /** An event, whose type is that of its message. */
  datatype Event = Event(
    msg: EventMsg, height: U64, reference: string, chainId: U64, blockHeight: U64, blockHash: Bytes, address: Bytes)

  /** The hash of the block at a height, sha being SHA-256; genesis has 32 zero bytes. */
  function BlockHash(sha: string -> Bytes, height: U64): Bytes {
    if height == 0 then seq(32, _ => 0) else sha("block" + Digits(height))
  }

  // -------------------------------------------------------------------- time

  /** Microseconds at the start of 2024, when a chain's clock starts. */
  const BASE_TIME: int := 1_704_067_200_000_000

  function BlockTime(height: U64): U64 {
    Wrap(BASE_TIME + height * 6_000_000)
  }

  // ------------------------------------------------------------------- pools

  /** A pool: an object the ledger's map points to and updates in place. */
  class Pool {
    const id: U64
    var amount: U64
    var points: seq<LpEntry>
    var totalPoolPoints: U64

    constructor (id: U64, amount: U64, points: seq<LpEntry>, totalPoolPoints: U64)
      ensures this.id == id && Value() == PoolVal(amount, points, totalPoolPoints)
    {
      this.id, this.amount, this.points, this.totalPoolPoints := id, amount, points, totalPoolPoints;
    }

    function Value(): PoolVal
      reads this
    {
      PoolVal(amount, points, totalPoolPoints)
    }

    method CreditDeposit(d: Deposit)
      modifies this
      ensures Value() == PoolVal(Wrap(old(amount) + d.amount),
                                 old(points) + [LpEntry(d.address, Share(d))],
                                 Wrap(old(totalPoolPoints) + Share(d)))
    {
      amount := Wrap(amount + d.amount);
      var share := d.amount / 10;
      totalPoolPoints := Wrap(totalPoolPoints + share);
      points := points + [LpEntry(d.address, share)];
    }

    method SetAmount(amount: U64)
      modifies this
      ensures Value() == old(Value()).(amount := amount)
    {
      this.amount := amount;
    }

    method RemovePoints(address: Bytes, n: U64)
      modifies this
      ensures Value() == DexBatch.RemovePoints(old(Value()), address, n)
    {
      var i := FirstEntry(points, address);
      if i < |points| && n <= points[i].points && n <= totalPoolPoints {
        points := points[i := LpEntry(address, points[i].points - n)];
        totalPoolPoints := totalPoolPoints - n;
      }
    }
  }

}
