/** The indexer's view: a blob per committed height, served in pairs. */
module Indexer {
  import opened Uint64
  import opened Aggregates
  import opened Bytes
  import opened Reals
  import opened Genesis
  import opened ClosedForm
  import opened Lifecycle
  import opened Chain
  import opened ChainLaws
  import opened Wrappers

  datatype Result<T> = Ok(value: T) | UnknownHeight(height: U64)

  /** The contents of a blob, before serialization. */
  datatype IndexerBlob = IndexerBlob(
    block: BlockResult, accounts: seq<Account>, pools: seq<Pool>, validators: seq<Validator>,
    params: Params, supply: Supply, orders: seq<OrderBook>, committeesData: Committees,
    subsidizedCommittees: seq<U64>, retiredCommittees: seq<U64>,
    totalActive: nat, totalPaused: nat, totalUnstaking: nat)

  datatype IndexerBlobs = IndexerBlobs(current: IndexerBlob, previous: Option<IndexerBlob>)

  const MOD32: int := 0x1_0000_0000

  /** Go's conversion of a count to uint32. */
  function Word32(x: nat): nat {
    if x < MOD32 then x else Word32(x - MOD32)
  }

  /** Converting early or late makes no difference to a sum. */
  lemma {:induction false} Word32Add(x: nat, y: nat)
    ensures Word32(Word32(x) + y) == Word32(x + y)
  {
    if x >= MOD32 { Word32Add(x - MOD32, y); }
  }

  function Addresses(vs: seq<Validator>): seq<Bytes> {
    seq(|vs|, i requires 0 <= i < |vs| => vs[i].address)
  }

  /** The blob of a height: its block and state, and the validators by their status
      one height later. */
  function BlobOf(c: MockChain, h: U64): IndexerBlob
    requires h in c.blocks && h in c.states
    reads c
  {
    var s := c.states[h];
    var vs := Addresses(s.validators);
    IndexerBlob(c.blocks[h], s.accounts, s.pools, s.validators, s.params, s.supply, s.orderBooks, s.committees,
                c.subsidizedCommittees, c.retiredCommittees,
                Word32(Count(c.o.fate, vs, Wrap(h + 1), Active)), 0,
                Word32(Count(c.o.fate, vs, Wrap(h + 1), Unstaked)))
  }

  method BuildIndexerBlob(c: MockChain, blockHeight: U64) returns (r: Result<IndexerBlob>)
    ensures r == if blockHeight in c.blocks && blockHeight in c.states
                 then Ok(BlobOf(c, blockHeight)) else UnknownHeight(blockHeight)
  {
    if blockHeight !in c.blocks {
      return UnknownHeight(blockHeight);
    }
    if blockHeight !in c.states {
      return UnknownHeight(blockHeight);
    }
    var block, state := c.blocks[blockHeight], c.states[blockHeight];
    var totalActive, totalPaused, totalUnstaking := 0, 0, 0;
    ghost var vs := Addresses(state.validators);
    for i := 0 to |state.validators|
      invariant totalActive == Count(c.o.fate, vs[..i], Wrap(blockHeight + 1), Active)
      invariant totalUnstaking == Count(c.o.fate, vs[..i], Wrap(blockHeight + 1), Unstaked)
    {
      assert vs[..i + 1][..i] == vs[..i];
      match StatusAt(c.o.fate, state.validators[i].address, 0, Wrap(blockHeight + 1))
      case Active => totalActive := totalActive + 1;
      case Unstaked => totalUnstaking := totalUnstaking + 1;
    }
    assert vs[..|vs|] == vs;
    r := Ok(IndexerBlob(block, state.accounts, state.pools, state.validators, state.params, state.supply,
                        state.orderBooks, state.committees, c.subsidizedCommittees, c.retiredCommittees,
                        Word32(totalActive), Word32(totalPaused), Word32(totalUnstaking)));
  }

  /** The pair of blobs for a query height: the block before it, and the one before that. */
  method BuildIndexerBlobs(c: MockChain, queryHeight: U64) returns (r: Result<IndexerBlobs>)
    ensures r.Ok? <==>
      && queryHeight >= 2 && queryHeight - 1 in c.blocks && queryHeight - 1 in c.states
      && (queryHeight > 2 ==> queryHeight - 2 in c.blocks && queryHeight - 2 in c.states)
    ensures r.Ok? ==> r.value.current == BlobOf(c, queryHeight - 1)
    ensures r.Ok? ==> r.value.previous == if queryHeight > 2 then Some(BlobOf(c, queryHeight - 2)) else None
    ensures r.UnknownHeight? ==> r.height == if queryHeight <= 1 then queryHeight
      else if queryHeight - 1 in c.blocks && queryHeight - 1 in c.states then queryHeight - 2 else queryHeight - 1
  {
    if queryHeight <= 1 {
      return UnknownHeight(queryHeight);
    }
    var current := BuildIndexerBlob(c, queryHeight - 1);
    if current.UnknownHeight? {
      return UnknownHeight(current.height);
    }
    var out := IndexerBlobs(current.value, None);
    if queryHeight > 2 {
      var previous := BuildIndexerBlob(c, queryHeight - 2);
      if previous.UnknownHeight? {
        return UnknownHeight(previous.height);
      }
      out := out.(previous := Some(previous.value));
    }
    r := Ok(out);
  }

  /** The blob holds the block, the state and the committees of the height. */
  ghost predicate ShowsHeight(c: MockChain, b: IndexerBlob, h: U64)
    reads c
  {
    && h in c.blocks && b.block == c.blocks[h]
    && h in c.states && b.accounts == c.states[h].accounts && b.pools == c.states[h].pools
    && b.validators == c.states[h].validators && b.params == c.states[h].params
    && b.supply == c.states[h].supply && b.orders == c.states[h].orderBooks
    && b.committeesData == c.states[h].committees
    && b.subsidizedCommittees == c.subsidizedCommittees && b.retiredCommittees == c.retiredCommittees
  }

  lemma BlobShows(c: MockChain, h: U64)
    requires h in c.blocks && h in c.states
    ensures ShowsHeight(c, BlobOf(c, h), h)
  {}

  lemma KnownHeight(c: MockChain, n: nat, h: U64)
    requires c.Built(c.Maps(), n)
    ensures h in c.blocks && h in c.states <==> 1 <= h <= n
    ensures h in c.blocks ==> c.blocks[h].header.height == h
  {
    if 1 <= h <= n { assert c.HeightBuilt(c.Maps(), h); }
  }

  /** On a chain of n blocks exactly the query heights 2 to n + 1 are answered. */
  method QueryWindow(c: MockChain, n: nat, queryHeight: U64) returns (r: Result<IndexerBlobs>)
    requires c.Built(c.Maps(), n)
    ensures r.Ok? <==> 2 <= queryHeight <= n + 1
    ensures r.UnknownHeight? ==> r.height == if queryHeight <= 1 then queryHeight else queryHeight - 1
    ensures r.Ok? ==> r.value.current.block.header.height == queryHeight - 1
    ensures r.Ok? ==> ShowsHeight(c, r.value.current, queryHeight - 1)
    ensures r.Ok? && r.value.previous.Some? ==> ShowsHeight(c, r.value.previous.value, queryHeight - 2)
    ensures r.Ok? ==> (r.value.previous.Some? <==> queryHeight > 2)
  {
    r := BuildIndexerBlobs(c, queryHeight);
    if queryHeight >= 2 { KnownHeight(c, n, queryHeight - 1); }
    if queryHeight >= 3 { KnownHeight(c, n, queryHeight - 2); }
    if r.Ok? {
      BlobShows(c, queryHeight - 1);
      if queryHeight > 2 { BlobShows(c, queryHeight - 2); }
    }
  }

  /** Consecutive queries overlap: the previous blob of one is the current blob of the
      query before it. */
  method ConsecutiveQueries(c: MockChain, n: nat, queryHeight: U64)
    returns (earlier: Result<IndexerBlobs>, later: Result<IndexerBlobs>)
    requires c.Built(c.Maps(), n) && 2 < queryHeight <= n + 1
    ensures earlier.Ok? && later.Ok? && later.value.previous == Some(earlier.value.current)
  {
    BlocksCoverHeights(c, n, queryHeight - 1);
    BlocksCoverHeights(c, n, queryHeight - 2);
    if queryHeight > 3 { BlocksCoverHeights(c, n, queryHeight - 3); }
    earlier, later := QueryTwice(c, queryHeight);
  }

  method QueryTwice(c: MockChain, queryHeight: U64)
    returns (earlier: Result<IndexerBlobs>, later: Result<IndexerBlobs>)
    requires 2 < queryHeight && queryHeight - 1 in c.blocks && queryHeight - 1 in c.states
    requires queryHeight - 2 in c.blocks && queryHeight - 2 in c.states
    requires queryHeight > 3 ==> queryHeight - 3 in c.blocks && queryHeight - 3 in c.states
    ensures earlier.Ok? && later.Ok? && later.value.previous == Some(earlier.value.current)
  {
    earlier := BuildIndexerBlobs(c, queryHeight - 1);
    later := BuildIndexerBlobs(c, queryHeight);
  }

  /** The accounts of the blob sum to its supply, short of it by fewer units than there
      are accounts, and by none exactly if the prices of the height fit the supply or
      the balances scaled down to it are whole. */
  ghost predicate Conserves(c: MockChain, b: IndexerBlob, h: U64)
  {
    var short := b.supply.total - Sum(Map((a: Account) => a.amount as int, b.accounts));
    && 0 <= short < |b.accounts|
    && (short == 0 <==> (Fallback(c.o.draws, c.accounts, c.chainId, h)
                         ==> Whole(ScaledDown(c.o.draws, c.accounts, c.chainId, h))))
  }

  /** Every answered query serves the height before it, and the one before that, each
      with accounts that account for its own supply. */
  method AnswersInPlain(c: MockChain, n: nat, queryHeight: U64) returns (r: Result<IndexerBlobs>)
    requires c.Built(c.Maps(), n)
    ensures r.Ok? <==> 2 <= queryHeight <= n + 1
    ensures r.Ok? ==> ShowsHeight(c, r.value.current, queryHeight - 1)
                      && Conserves(c, r.value.current, queryHeight - 1)
    ensures r.Ok? && queryHeight > 2 ==>
              r.value.previous.Some? && ShowsHeight(c, r.value.previous.value, queryHeight - 2)
              && Conserves(c, r.value.previous.value, queryHeight - 2)
  {
    r := QueryWindow(c, n, queryHeight);
    if r.Ok? {
      BlobConserves(c, n, r.value.current, queryHeight - 1);
      if queryHeight > 2 { BlobConserves(c, n, r.value.previous.value, queryHeight - 2); }
    }
  }

  lemma BlobConserves(c: MockChain, n: nat, b: IndexerBlob, h: U64)
    requires c.Built(c.Maps(), n) && 1 <= h <= n && ShowsHeight(c, b, h)
    ensures Conserves(c, b, h)
  {
    StatesConserveSupply(c, n, h);
    StateConservesExactly(c, n, h);
    assert AccountAmounts(c.states[h]) == Map((a: Account) => a.amount as int, b.accounts);
  }

  /** Active and unstaking validators of a blob are all its validators, none is paused:
      as 32-bit words, and as numbers while there are fewer than 2^32 of them. */
  lemma TotalsCoverValidators(c: MockChain, n: nat, h: U64)
    requires c.Built(c.Maps(), n) && 1 <= h <= n
    ensures h in c.blocks && h in c.states
    ensures var b := BlobOf(c, h);
            && |b.validators| == |c.validators| && b.totalPaused == 0
            && Word32(b.totalActive + b.totalUnstaking) == Word32(|b.validators|)
            && (|b.validators| < MOD32 ==> b.totalActive + b.totalUnstaking == |b.validators|)
  {
    SameAddresses(c, n, h, h);
    WordsAddUp(c.o.fate, Addresses(c.states[h].validators), Wrap(h + 1));
  }

  lemma WordsAddUp(f: Fate, vs: seq<Bytes>, h: U64)
    ensures var active, unstaked := Word32(Count(f, vs, h, Active)), Word32(Count(f, vs, h, Unstaked));
            && Word32(active + unstaked) == Word32(|vs|)
            && (|vs| < MOD32 ==> active + unstaked == |vs|)
  {
    var active, unstaked := Count(f, vs, h, Active), Count(f, vs, h, Unstaked);
    CountsAddUp(f, vs, h);
    Word32Add(active, Word32(unstaked));
    Word32Add(unstaked, active);
  }

  lemma SameAddresses(c: MockChain, n: nat, g: U64, h: U64)
    requires c.Built(c.Maps(), n) && 1 <= g <= n && 1 <= h <= n
    ensures g in c.states && h in c.states
    ensures Addresses(c.states[g].validators) == Addresses(c.states[h].validators)
    ensures |c.states[h].validators| == |c.validators|
  {
    AddressesOfState(c, n, g);
    AddressesOfState(c, n, h);
  }

  lemma AddressesOfState(c: MockChain, n: nat, h: U64)
    requires c.Built(c.Maps(), n) && 1 <= h <= n
    ensures h in c.states && Addresses(c.states[h].validators) == Addresses(c.validators)
  {
    assert c.HeightBuilt(c.Maps(), h);
  }

  /** Going up one height the active total drops by exactly the validators scheduled
      for the height after, and so never grows while there are fewer than 2^32. */
  lemma ActiveNeverGrows(c: MockChain, n: nat, h: U64)
    requires c.Built(c.Maps(), n) && 1 <= h < n
    ensures h in c.blocks && h in c.states && h + 1 in c.blocks && h + 1 in c.states
    ensures var now, next := BlobOf(c, h).totalActive, BlobOf(c, h + 1).totalActive;
            var scheduled := Scheduled(c.o.fate, Addresses(c.states[h].validators), h + 2);
            && now == Word32(next + scheduled)
            && (|c.validators| < MOD32 ==> now == next + scheduled)
  {
    BlocksCoverHeights(c, n, h);
    BlocksCoverHeights(c, n, h + 1);
    SameAddresses(c, n, h, h + 1);
    ActiveStep(c, h);
  }

  lemma ActiveStep(c: MockChain, h: U64)
    requires h + 2 < MOD && h in c.blocks && h in c.states && h + 1 in c.blocks && h + 1 in c.states
    requires Addresses(c.states[h].validators) == Addresses(c.states[h + 1].validators)
    ensures var now, next := BlobOf(c, h).totalActive, BlobOf(c, h + 1).totalActive;
            var scheduled := Scheduled(c.o.fate, Addresses(c.states[h].validators), h + 2);
            && now == Word32(next + scheduled)
            && (|c.states[h].validators| < MOD32 ==> now == next + scheduled)
  {
    ActivePlusScheduled(c.o.fate, Addresses(c.states[h].validators), h);
  }

  lemma ActivePlusScheduled(f: Fate, vs: seq<Bytes>, h: U64)
    requires h + 2 < MOD
    ensures var now, next := Word32(Count(f, vs, Wrap(h + 1), Active)), Word32(Count(f, vs, Wrap(h + 1 + 1), Active));
            && now == Word32(next + Scheduled(f, vs, h + 2))
            && (|vs| < MOD32 ==> now == next + Scheduled(f, vs, h + 2))
  {
    SmallWord(h + 1);
    SmallWord(h + 2);
    CountsAddUp(f, vs, h + 1);
    CountsAddUp(f, vs, h + 2);
    ActiveShrinks(f, vs, h + 1);
    Word32Add(Count(f, vs, h + 2, Active), Scheduled(f, vs, h + 2));
  }

  function ShownUnstaking(vs: seq<Validator>): nat {
    if vs == [] then 0 else
      ShownUnstaking(vs[..|vs| - 1]) + if vs[|vs| - 1].unstakingHeight != 0 then 1 else 0
  }

  lemma {:induction false} ShownAreUnstaked(f: Fate, vs: seq<Validator>, h: U64)
    requires forall i :: 0 <= i < |vs| ==> ShownAsUnstaked(f, vs[i], h)
    ensures ShownUnstaking(vs) == Count(f, Addresses(vs), h, Unstaked)
  {
    if vs != [] {
      ShownAreUnstaked(f, vs[..|vs| - 1], h);
      assert Addresses(vs)[..|vs| - 1] == Addresses(vs[..|vs| - 1]);
    }
  }

  /** A blob counts by the status one height later, so its unstaking total exceeds the
      unstaking heights it shows by exactly the validators scheduled for then. */
  lemma UnstakingTotalRunsAhead(c: MockChain, n: nat, h: U64)
    requires c.Built(c.Maps(), n) && 1 <= h <= n
    ensures h in c.blocks && h in c.states
    ensures var b := BlobOf(c, h);
            var ahead := ShownUnstaking(b.validators) + Scheduled(c.o.fate, Addresses(b.validators), h + 1);
            b.totalUnstaking == Word32(ahead) && (|c.validators| < MOD32 ==> b.totalUnstaking == ahead)
  {
    BlocksCoverHeights(c, n, h);
    SameAddresses(c, n, h, h);
    StateShowsUnstaked(c, n, h);
    UnstakingStep(c, h);
  }

  lemma StateShowsUnstaked(c: MockChain, n: nat, h: U64)
    requires c.Built(c.Maps(), n) && 1 <= h <= n
    ensures h in c.states
    ensures forall i :: 0 <= i < |c.states[h].validators| ==>
              ShownAsUnstaked(c.o.fate, c.states[h].validators[i], h)
  {
    BlocksCoverHeights(c, n, h);
    var list := c.states[h].validators;
    forall i | 0 <= i < |list| ensures ShownAsUnstaked(c.o.fate, list[i], h) {
      StatesShowLifecycle(c, n, h, i);
    }
  }

  /** The validator shows an unstaking height exactly if it is unstaked at height h. */
  ghost predicate ShownAsUnstaked(f: Fate, v: Validator, h: U64) {
    v.unstakingHeight != 0 <==> StatusAt(f, v.address, 0, h) == Unstaked
  }

  lemma UnstakingStep(c: MockChain, h: U64)
    requires h + 1 < MOD && h in c.blocks && h in c.states
    requires forall i :: 0 <= i < |c.states[h].validators| ==>
      ShownAsUnstaked(c.o.fate, c.states[h].validators[i], h)
    ensures var b := BlobOf(c, h);
            var ahead := ShownUnstaking(b.validators) + Scheduled(c.o.fate, Addresses(b.validators), h + 1);
            b.totalUnstaking == Word32(ahead) && (|b.validators| < MOD32 ==> b.totalUnstaking == ahead)
  {
    ShownPlusScheduled(c.o.fate, c.states[h].validators, h);
  }

  lemma ShownPlusScheduled(f: Fate, list: seq<Validator>, h: U64)
    requires h + 1 < MOD
    requires forall i :: 0 <= i < |list| ==> ShownAsUnstaked(f, list[i], h)
    ensures Count(f, Addresses(list), Wrap(h + 1), Unstaked)
         == ShownUnstaking(list) + Scheduled(f, Addresses(list), h + 1) <= |list|
  {
    ShownAreUnstaked(f, list, h);
    SmallWord(h + 1);
    CountsAddUp(f, Addresses(list), h);
    CountsAddUp(f, Addresses(list), h + 1);
    ActiveShrinks(f, Addresses(list), h);
  }

}
