# A verified model of the mock chain's accounting

canopy-rpc-mock prebuilds a deterministic mock blockchain and serves it over
RPC. This project models the parts of it that keep books, and proves what the
books promise for every input and every run:

- **The mutable ledger** (`mockState`): pool objects credited and debited in
  place by order, deposit and withdrawal batches, block inflation, the supply
  computation, and the snapshot that turns unordered maps into sorted lists.
  `DexBatch` says what one batch does to a pool's value. `Withdrawals`,
  `PointRemoval` and `Fairness` prove what holds of every withdrawal batch,
  `SolvencyLaw`, `RemovalLaw` and `RepeatedWithdrawals` exactly which pools pay
  every batch in full, and remove every burn of every batch and of every sequence
  of batches. `LedgerRuns` states what holds of every run, `PlainLedger` what each
  operation does in plain numbers, and `MockState` is the object itself, proved
  against those functions. `Snapshots` states what snapshots, reloads and runs of
  the object promise together, `PlainSnapshots` what a snapshot lists.
- **The closed-form ledger** (`ClosedForm`, `ClosedFormLaws`): balances computed
  from seeded weights at a fixed rate, with a residual account and a scale-down
  fallback. `PlainBalances` states every balance over the draws and two straight
  supply lines alone.
- **The chain builder and the indexer window** (`Chain`, `ChainLaws`,
  `Lifecycle`, `Indexer`): seven maps filled height by height, the certificates
  built over them, and the pairs of blobs served from them. `ChainContents` states
  what every stored block, transaction, event, certificate and state holds.
- **Small algorithms with unbounded claims**: the diurnal table (`RateTable`),
  Knuth's sampler (`Poisson`), seed and hash preimages (`Seeds`), and
  pagination (`Pagination`).

`Uint64`, `Aggregates`, `Reals`, `Bytes`, `Hex`, `Decimal`, `Sorting`,
`Wrappers` and `Genesis` hold words, sums, encodings, sorting, and the entities
shared by the rest.

## Conventions and assumptions

- `uint64` arithmetic wraps around explicitly (`Uint64.Wrap`). Where a law needs
  "no overflow" that is a hypothesis on the inputs, as in
  `LedgerRuns.ExactSupplyOverRun`, or is proved, as in `Withdrawals.Solvency`.
- `lib.SafeMulDiv` is the exact floor quotient whenever that fits a word; what
  it answers otherwise is an arbitrary function `over`. `pool.RemovePoints`
  takes the points from the first entry of the address and from the total, or
  changes nothing when either does not hold enough. Neither body is part of the
  repository; what is said below of removals rests on this reading.
- A pool is backed when its entries hold no more points than its total, and its
  price list is backed when the points listed there do not exceed the total. The
  second is weaker (`Withdrawals.BackedList`), and enough for most laws below.
- The holding and liquidity pool addends are library constants, taken as
  parameters that differ from one another. `mockState`'s maps are never
  reassigned after construction, so `pools` is a constant of the object; the
  pools it points to are mutated in place.
- A Go `range` over a map is `Sorting.Range`, which delivers the entries in an
  arbitrary order. `sort.Slice` is `Sorting.Sort`; which algorithm sorts makes
  no difference (`Sorting.SortedIsUnique`).
- Floats are reals, truncated towards zero where the source converts to
  `uint64`. Seeded draws, hashes and label choices are arbitrary functions of
  what seeds them. Weights and noise factors are positive, being exponentials.
- Parameters and committee data, which the ledger never reads, are opaque values
  handed on. The supply's two committee lists are the very slice of the pool list,
  so they are sorted with it.
- A block that begins with fewer than two validators panics in the source while
  it builds the certificate, after it has paid the inflation; `BeginBlock`
  returns `None` then. `Paginate` returns `Panic` where the slice expression
  would. `NormalizeRateTable` returns `None` for a table that sums to zero.
- `Snapshots.Replay`, `SnapshotThenReplay`, `SupplyLedger` and `Reload` are
  clients of the object: sequences of calls the repository leaves to its users.

## Where the code and its documentation part

- `SnapshotBalancesAt` is documented to land on the supply exactly even in its
  fallback (ledger.go:134-139). It does so exactly when every scaled balance is
  whole (`ClosedFormLaws.ConservedExactly`); otherwise it falls short by fewer
  than n - 1 units, as `FallbackLosesUnits` shows with four addresses.
- Each deposit appends an entry, and an address with several entries is priced at
  its last one while removals draw on its first one. The price list then lists
  fewer points than the pool holds, exactly when a hidden entry is not empty
  (`Withdrawals.PriceListTotal`, `PointRemoval.SecondDepositHidesFirst`). A burn
  that the first entry does not hold is paid for and never removed: one deposit of
  2000 by the genesis holder is enough, and its withdrawal then lowers the price of
  everybody's points (`PointRemoval.PaidButNotRemoved`). All removals of every next
  batch succeed exactly when each first entry covers the last one and the price list
  is backed (`RemovalLaw.RemovalsSucceedIff`), those of every sequence of batches
  exactly when each address with listed points has one entry and the price list is
  backed, but for a lone listed point (`RepeatedWithdrawals.AlwaysRemovedIff`). In a
  backed pool both are conditions on the entries alone (`BackedRemovals`). Where the
  price list is backed, no batch lowers the price of a point exactly when every
  address that is not covered is too small to be paid anything
  (`PointRemoval.PriceKeptIff`). A pool without points or money, which answers every
  withdrawal with nothing, meets all of these.
- A pool whose entries hold more points than its total may promise more than it
  holds and pay the difference from nowhere (`PointRemoval.UnbackedPoolOverpays`).
  It pays every batch in full exactly when the claims of its price list, each
  rounded down by itself, do not exceed its amount (`SolvencyLaw.SolventIff`). From
  genesis on pools are backed while the points granted fit a word.
- Snapshot order books are sorted by chain id read as a signed integer: the
  order is ascending exactly when ids below and above 2^63 do not occur
  together (`Snapshots.BooksInChainOrder`). Reloading works for all ids.
- README.md:20 says the dex batch rotates; it is locked once at genesis
  (`ChainLaws.BatchNeverRotates`).
- indexer_blob.go:100-101 speaks of the state at H with block H-1; the code
  pairs state and block of the same height H-1, and counts validators by their
  status at H.
- The slot salt keeps the seeds of a run apart exactly for runs of at most
  1,000,003 blocks (`Seeds.SaltSeparates`). Transaction hashes have no separators in
  their preimage: two heights share one exactly when the decimal form of one
  continues that of the other with a non-zero digit (`Seeds.CollideIff`), so that
  runs are free of collisions exactly up to ten blocks (`Seeds.TxPreimagesDifferIff`).
- The offset of a page is a product of ints and wraps around: far beyond the end of
  a list pages reappear or panic (`Pagination.HugePageNumbersWrap`).

## Model

| member | source | states |
|---|---|---|
| `DexBatch.HoldingPaysForCovered` | mockserver/internal/chain/mock_state.go:266-269 | what a deposit batch takes from the holding pool is exactly the deposits it could cover |
| `Withdrawals.LastEntryWins` | mockserver/internal/chain/mock_state.go:288-291 | the price list has exactly the addresses with an entry, each at its last entry |
| `Withdrawals.PriceListTotal` | mockserver/internal/chain/mock_state.go:288-291 | the price list lists at most the entries' points, and all of them exactly when every entry hidden by a later one of its address is empty |
| `Withdrawals.BurnIsFloor` | mockserver/internal/chain/mock_state.go:298-305 | a withdrawal burns the floor of its percentage of the points, capped at 100 |
| `Withdrawals.BurnsTelescope` | mockserver/internal/chain/mock_state.go:295-308 | over a batch an address burns what it had less what it has left |
| `Withdrawals.BurnsConserve` | mockserver/internal/chain/mock_state.go:295-308 | all burns together are the difference between the price list before and after |
| `Withdrawals.Solvency` | mockserver/internal/chain/mock_state.go:292-317 | a pool with a backed price list pays every withdrawal in full, and new amount plus payouts is the old amount |
| `Withdrawals.RoundingFavoursRemaining` | mockserver/internal/chain/mock_state.go:292-317 | of such a pool at least A(T-B)/T remains, and less than one unit more per non-zero burn |
| `Withdrawals.SplittingNeverPays` | mockserver/internal/chain/mock_state.go:295-312 | and the withdrawals of one address are paid at most what one withdrawal of the same points would be |
| `Fairness.AnsweredAsIfAlone` | mockserver/internal/chain/mock_state.go:295-312 | among distinct withdrawers each is priced as if alone |
| `Fairness.OrderDoesNotMatter` | mockserver/internal/chain/mock_state.go:295-317 | permuting a batch of distinct withdrawers permutes the answers and leaves the same amount |
| `Fairness.SamePoolInAnyOrder` | mockserver/internal/chain/mock_state.go:288-325 | every pool with a backed price list, entries and total included, ends up the same in whatever order distinct withdrawers stand |
| `PointRemoval.RemovalsAreEven` | mockserver/internal/chain/mock_state.go:318-324 | entries and total lose the same number of points over a batch, duplicates or not |
| `RemovalLaw.RemovalsSucceedIff` | mockserver/internal/chain/mock_state.go:288-324 | for every pool: all RemovePoints calls of every batch find their points exactly when each address's first entry covers its last one and the price list is backed, or the pool answers nothing |
| `RemovalLaw.EverybodyBurns` | mockserver/internal/chain/mock_state.go:292-312 | when everybody withdraws everything, all the listed points are burned |
| `PointRemoval.EntriesAfterBatch` | mockserver/internal/chain/mock_state.go:288-325 | for every pool with a backed price list, duplicates or not: first entries keep what the burns they held left them, other entries are untouched, the total loses what was taken |
| `PointRemoval.CoveredEntriesAfterBatch` | mockserver/internal/chain/mock_state.go:288-325 | where moreover first entries cover last ones, each first entry loses all its address burned and the total everything burned |
| `PointRemoval.RemovesIff` | mockserver/internal/chain/mock_state.go:318-324 | with a backed price list a burn is removed exactly when the first entry, after the removals before it, still holds it |
| `PointRemoval.PriceKeptIff` | mockserver/internal/chain/mock_state.go:292-324 | with a backed price list no batch lowers what a point is worth exactly when every address is covered by its first entry or its listed points are worth nothing |
| `PointRemoval.DepositsKeepPriceIff` | mockserver/internal/chain/mock_state.go:257-265 | a deposit batch keeps the price exactly when the points granted are worth no more than it pays, overflows counted on both sides |
| `PointRemoval.SecondDepositHidesFirst` | mockserver/internal/chain/mock_state.go:264-264 | a concrete pool where the later entry of an address hides the earlier one |
| `PointRemoval.PaidButNotRemoved` | mockserver/internal/chain/mock_state.go:257-325 | one deposit and one withdrawal by the genesis holder: 2,001,333 paid, no points removed, the price falls |
| `PointRemoval.UnbackedPoolOverpays` | mockserver/internal/chain/mock_state.go:313-317 | a concrete unbacked pool that promises more than it holds |
| `SolvencyLaw.SolventIff` | mockserver/internal/chain/mock_state.go:292-317 | a pool, backed or not, pays every batch in full exactly when all claims of its price list together do not exceed its amount |
| `SolvencyLaw.CoveredClaimsArePaid` | mockserver/internal/chain/mock_state.go:292-317 | covered claims are paid in full whatever the batch, without assuming that quotients fit a word |
| `SolvencyLaw.EverybodyWithdraws` | mockserver/internal/chain/mock_state.go:292-312 | when everybody withdraws everything the payouts are exactly the claims |
| `RepeatedWithdrawals.AlwaysRemovedIff` | mockserver/internal/chain/mock_state.go:278-326 | for every pool: all removals of every sequence of batches succeed exactly when each address with listed points has one entry and the price list is backed, or one point is listed in all by an address whose first entry holds the total, or the pool answers nothing |
| `RepeatedWithdrawals.LonePointExample` | mockserver/internal/chain/mock_state.go:288-291 | a concrete unbacked pool of that last kind |
| `RepeatedWithdrawals.BackedRemovals` | mockserver/internal/chain/mock_state.go:278-326 | for backed pools these conditions are first entries covering last ones, and one entry for each address with listed points |
| `RepeatedWithdrawals.GrantKeepsOneEntryIff` | mockserver/internal/chain/mock_state.go:261-265 | a deposit breaks that exactly when it grants points to an address with an entry |
| `LedgerRuns.StepKeepsBalance` | mockserver/internal/chain/mock_state.go:248-326 | no operation makes the entries' points and the total disagree as words |
| `LedgerRuns.PointsConserved` | mockserver/internal/chain/mock_state.go:257-326 | at every moment of a run the entries sum to the total, as long as the points granted fit a word |
| `LedgerRuns.BackedIffFits` | mockserver/internal/chain/mock_state.go:257-326 | after any run whatever the pool is backed exactly when its entries fit a word |
| `LedgerRuns.SolventOverRun` | mockserver/internal/chain/mock_state.go:278-326 | every withdrawal batch of a run whose grants fit a word is paid in full and costs the pool exactly its payouts |
| `LedgerRuns.StepSupply` | mockserver/internal/chain/mock_state.go:83-326 | each operation moves the sum of the pools by its flow, less 2^64 per overflow, a withdrawal batch exactly when it is paid in full |
| `LedgerRuns.SupplyOverRun` | mockserver/internal/chain/mock_state.go:83-326 | a run whose grants fit a word moves the sum of the pools by its net flow, less 2^64 per overflow of an amount |
| `LedgerRuns.SupplyWordOverRun` | mockserver/internal/chain/mock_state.go:211-230 | as a word the supply after a run whose grants fit a word is the initial one plus the net flow |
| `LedgerRuns.ExactSupplyOverRun` | mockserver/internal/chain/mock_state.go:211-230 | without wrap-around when the grants, and the initial supply with all the operations could bring in, fit a word |
| `LedgerRuns.OwnersOverRun` | mockserver/internal/chain/mock_state.go:257-326 | entries belong to their first owners and then to the depositors, in order |
| `LedgerRuns.RemovalsAfterRun` | mockserver/internal/chain/mock_state.go:278-326 | after every run, the exact conditions under which the removals of the next batch, or of all batches to come, succeed; while the entries fit a word, on the entries alone, together with those under which no batch lowers the price |
| `LedgerRuns.RemovalsOverRun` | mockserver/internal/chain/mock_state.go:278-326 | with distinct owners and depositors and grants that fit a word, every removal at any moment of a run, and of any batches that might follow, succeeds |
| `LedgerRuns.GenesisPointsConserved` | mockserver/internal/chain/mock_data.go:185-193 | from the genesis pools on, entries sum to the total through every run that fits |
| `PlainLedger.GenesisAmounts` | mockserver/internal/chain/mock_data.go:185-193 | the three pools of a new chain, their points, and their sum of 10 million and what was drawn |
| `PlainLedger.BlockPaysThousand` | mockserver/internal/chain/mock_state.go:83-90 | a block pays 1000 into pool 1, as a word, and changes nothing else |
| `PlainLedger.OrdersArePaidIn` | mockserver/internal/chain/mock_state.go:248-255 | orders add what they sell to the holding pool, as a word, and change nothing else |
| `PlainLedger.DepositsAreGranted` | mockserver/internal/chain/mock_state.go:257-265 | deposits add their amounts to the liquidity pool and append, in order, an entry for each depositor with a tenth of its amount rounded down, which the total gains |
| `PlainLedger.DepositsAreCovered` | mockserver/internal/chain/mock_state.go:266-269 | the holding pool loses exactly the deposits of a selection that leaves out none it could still pay for in the end |
| `PlainLedger.WithdrawalBurns` | mockserver/internal/chain/mock_state.go:285-308 | every pool with money and points burns, for every withdrawal, its percentage of what the last entry of its address and its earlier withdrawals leave, rounded down |
| `PlainLedger.WithdrawalPays` | mockserver/internal/chain/mock_state.go:285-312 | and pays amount times burn over total, rounded down, where that fits a word |
| `PlainLedger.EmptyPoolAnswersNothing` | mockserver/internal/chain/mock_state.go:285-287 | a pool without money or points answers nothing and does not change |
| `PlainLedger.WithdrawalsArePaidOut` | mockserver/internal/chain/mock_state.go:278-317 | withdrawals change only the liquidity pool, whose amount loses what is paid, down to zero |
| `MockState.State.constructor` | mockserver/internal/chain/mock_state.go:42-81 | lists are filed into maps, later elements replacing earlier ones |
| `MockState.State.ApplyBatchOrders` | mockserver/internal/chain/mock_state.go:248-255 | the holding pool is credited with the batch's sum, as a word, and nothing else changes |
| `MockState.State.ApplyBatchDeposits` | mockserver/internal/chain/mock_state.go:257-271 | the liquidity pool gains amounts, points and entries, the holding pool pays what it can cover, nothing else changes |
| `MockState.State.PriceWithdrawals` | mockserver/internal/chain/mock_state.go:288-312 | the pricing loop returns the specified results and their sum as a word |
| `MockState.State.ApplyBatchWithdrawals` | mockserver/internal/chain/mock_state.go:278-326 | results and new pools are those specified, early returns included; what these are in numbers is `PlainLedger.WithdrawalBurns` and `WithdrawalPays` |
| `MockState.State.ValidatorsOrdered` | mockserver/internal/chain/mock_state.go:232-241 | the one list of the validators ordered by hexadecimal address |
| `MockState.State.BeginBlock` | mockserver/internal/chain/mock_state.go:83-122 | inflation, non-signers, slash event, double-sign evidence and the whole certificate of a block |
| `MockState.State.ComputeSupply` | mockserver/internal/chain/mock_state.go:211-230 | total, staked and delegated supply, as words, in whatever order the maps are ranged over, and the pool list under both committee fields |
| `MockState.State.Snapshot` | mockserver/internal/chain/mock_state.go:142-209 | sorted lists of exactly the maps' contents, fresh pool clones, supply of everything held, everything else handed on |
| `Snapshots.SnapshotIsCanonical` | mockserver/internal/chain/mock_state.go:143-194 | account, validator and book lists do not depend on map order |
| `Snapshots.PoolListIsCanonical` | mockserver/internal/chain/mock_state.go:167-195 | neither do the ids and values of the pool list |
| `Snapshots.AccountsInAddressOrder` | mockserver/internal/chain/mock_state.go:148-150 | sorting by hexadecimal form sorts by the address bytes |
| `Snapshots.BooksInChainOrder` | mockserver/internal/chain/mock_state.go:181-190 | books ascend by chain id exactly when ids on both sides of 2^63 do not occur together |
| `PlainSnapshots.PoolsInPlain` | mockserver/internal/chain/mock_state.go:167-195 | every pool once, by ascending id, with its amount; points and total are kept for the liquidity pool only |
| `PlainSnapshots.AccountsInPlain` | mockserver/internal/chain/mock_state.go:143-147 | the accounts of the ledger and no others, with their amounts |
| `PlainSnapshots.ValidatorsInPlain` | mockserver/internal/chain/mock_state.go:151-166 | the validators of the ledger and no others, field by field, not paused |
| `PlainSnapshots.ValidatorsByAddress` | mockserver/internal/chain/mock_state.go:192-194 | listed in the byte order of their addresses |
| `PlainSnapshots.BooksInPlain` | mockserver/internal/chain/mock_state.go:181-190 | the order books of the ledger and no others |
| `PlainSnapshots.InfosInPlain` | mockserver/internal/chain/mock_state.go:232-241 | the ordered validators are the validators of the ledger, by ascending address bytes |
| `PlainSnapshots.SnapshotAddsUp` | mockserver/internal/chain/mock_state.go:211-230 | a snapshot's total and staked supply are the sums, as words, of the amounts, stakes and pools it lists itself, a quarter of the staked is delegated |
| `PlainSnapshots.LastIsLoaded` | mockserver/internal/chain/mock_state.go:43-69 | of several listed elements with one key the last one is loaded |
| `Snapshots.AccountsRoundTrip` | mockserver/internal/chain/mock_state.go:43-46 | loading a snapshot's accounts gives back the account map |
| `Snapshots.ValidatorsRoundTrip` | mockserver/internal/chain/mock_state.go:47-61 | loading its validators gives them back, unpaused |
| `Snapshots.BooksRoundTrip` | mockserver/internal/chain/mock_state.go:66-69 | loading its order books gives them back for all chain ids |
| `Snapshots.PoolsRoundTrip` | mockserver/internal/chain/mock_state.go:62-65 | loading its pools files every clone under its id, with its amount |
| `Snapshots.Reload` | mockserver/internal/chain/mock_state.go:42-209 | a ledger rebuilt from a snapshot holds the same accounts, stakes, books and pool amounts |
| `Snapshots.Replay` | mockserver/internal/chain/mock_state.go:83-326 | any sequence of calls does to the object's pools what the run does to their values |
| `Snapshots.SnapshotThenReplay` | mockserver/internal/chain/mock_state.go:167-180 | no later call changes the ids, amounts and totals of the pools of a snapshot already taken, nor its supply |
| `Snapshots.SupplyLedger` | mockserver/internal/chain/mock_state.go:211-230 | the supply reported after any calls whose grants fit a word is the one before plus their net flow |
| `Snapshots.SupplyOfRun` | mockserver/internal/chain/mock_state.go:211-230 | the same for the reported supply as a function of the run |
| `Snapshots.PlainSupplyOfRun` | mockserver/internal/chain/mock_state.go:211-230 | and in plain numbers when everything fits a word |
| `Hex.RoundTrip` | mockserver/internal/chain/mock_state.go:145-145 | decoding a key gives back the address it was made from |
| `Hex.PreservesOrder` | mockserver/internal/chain/mock_state.go:149-149 | hexadecimal forms are ordered as the bytes are, both ways |
| `Hex.DigitsInPlain` | mockserver/internal/chain/mock_state.go:145-145 | two lower-case digits per byte, the high one first |
| `Sorting.SortedIsUnique` | mockserver/internal/chain/mock_state.go:148-150 | elements told apart by an order can be sorted in one way only |
| `ClosedForm.FirstMax` | mockserver/internal/gen/ledger.go:109-117 | position of the first of the largest weights |
| `ClosedForm.ResidualIndex` | mockserver/internal/gen/ledger.go:109-117 | the loop finds the first of the largest weights |
| `ClosedForm.ExchangeRate` | mockserver/internal/gen/ledger.go:89-98 | genesis supply over the sum of all weights |
| `ClosedForm.SnapshotBalancesAt` | mockserver/internal/gen/ledger.go:140-187 | the loops compute the specified balances, fallback included; what these are in numbers is `PlainBalances.BalancesInPlain` and `FallbackInPlain` |
| `ClosedForm.BalanceAt` | mockserver/internal/gen/ledger.go:66-74 | the balance at the first occurrence of the address, zero without one |
| `PlainBalances.SupplyInPlain` | mockserver/internal/gen/ledger.go:47-58 | the supply is 1.4 billion and 700 a block on chain 1, 70 million and 35 a block on any other |
| `PlainBalances.FallbackIffShort` | mockserver/internal/gen/ledger.go:151-163 | the fallback is taken exactly when weight times noise factor, if active, times genesis supply over all weights, summed over all but the first largest weight, exceeds the supply |
| `PlainBalances.BalancesInPlain` | mockserver/internal/gen/ledger.go:140-187 | otherwise everybody else holds the floor of that product, and all balances sum to the supply |
| `PlainBalances.FallbackInPlain` | mockserver/internal/gen/ledger.go:163-173 | in the fallback the largest holds nothing, everybody else the floor of its product times the supply over the sum of the products |
| `PlainBalances.FewAddresses` | mockserver/internal/gen/ledger.go:141-150 | no address, and one that holds the whole supply |
| `ClosedFormLaws.ResidualBalance` | mockserver/internal/gen/ledger.go:174-186 | the residual gets the supply less the floors of all prices, without underflow |
| `ClosedFormLaws.Conservation` | mockserver/internal/gen/ledger.go:140-187 | when the prices fit, the balances sum to the supply exactly |
| `ClosedFormLaws.FallbackShortfall` | mockserver/internal/gen/ledger.go:163-173 | in the fallback they sum to at most the supply, short by less than n-1, by nothing exactly when all are whole |
| `ClosedFormLaws.ConservedExactly` | mockserver/internal/gen/ledger.go:134-173 | exact condition for exact conservation |
| `ClosedFormLaws.WithinTolerance` | mockserver/internal/gen/ledger.go:140-187 | at every height the shortfall is below the number of addresses |
| `ClosedFormLaws.FallbackLosesUnits` | mockserver/internal/gen/ledger.go:163-173 | concrete draws where the fallback loses two units |
| `ClosedFormLaws.OneByOneAgrees` | mockserver/internal/gen/ledger.go:66-74 | asking for distinct addresses one by one gives the same balances |
| `ClosedFormLaws.InactiveKeepsBalance` | mockserver/internal/gen/ledger.go:76-98 | an inactive account keeps its balance whatever the others do |
| `ClosedFormLaws.ResidualAbsorbs` | mockserver/internal/gen/ledger.go:119-132 | the residual changes by the supply growth less the net change of the active accounts |
| `ClosedFormLaws.SupplyMonotone` | mockserver/internal/gen/ledger.go:47-58 | the supply never shrinks while it fits a word |
| `ClosedFormLaws.FallbackUnreachable` | mockserver/internal/gen/ledger.go:100-108 | with noise factors m(S-max) <= S the fallback is never taken |
| `ClosedFormLaws.SmallNoiseIsBounded` | mockserver/internal/gen/ledger.go:100-108 | factors of at most n/(n-1) are small enough |
| `ClosedFormLaws.QuietHeightFits` | mockserver/internal/gen/ledger.go:151-186 | with nobody but the residual active the fallback is not taken |
| `ClosedFormLaws.QuietHeadroom` | mockserver/internal/gen/ledger.go:100-108 | with nobody else active the residual keeps an equal share of the genesis supply |
| `Chain.MockChain.constructor` | mockserver/internal/chain/mock_data.go:93-164 | for every number of blocks the seven maps are built and consistent |
| `Chain.MockChain.BuildHeight` | mockserver/internal/chain/mock_data.go:147-161 | one turn of the loop extends a consistent chain by one height |
| `Chain.MockChain.MakeBlock` | mockserver/internal/chain/mock_data.go:664-699 | the block's whole header, linked to its predecessor and with the running count, its contents and its meta data |
| `Chain.MockChain.GenerateClosedFormTxs` | mockserver/internal/chain/mock_data.go:388-487 | one transaction per slot; its label, sender, message and hash are stated by `ChainContents.TransactionInPlain` and `MessageInPlain` |
| `Chain.MockChain.GenerateClosedFormEvents` | mockserver/internal/chain/mock_data.go:510-540 | one event per slot, stated by `ChainContents.EventInPlain` |
| `Chain.MockChain.SnapshotStateAt` | mockserver/internal/chain/mock_data.go:544-598 | the specified state of a height, stated field by field by `ChainContents.StateInPlain` and `ValidatorInPlain` |
| `ChainLaws.BlocksCoverHeights` | mockserver/internal/chain/mock_data.go:146-161 | blocks exist exactly for 1 to n, states for 0 to n |
| `ChainLaws.LatestIsLast` | mockserver/internal/chain/mock_data.go:826-828 | the latest height is n |
| `ChainLaws.HashLinks` | mockserver/internal/chain/mock_data.go:664-683 | each block names its predecessor's hash, the first one zeros |
| `ChainLaws.TotalsAreCumulative` | mockserver/internal/chain/mock_data.go:665-675 | a block's total counts all transactions stored up to it |
| `ChainLaws.CertificatesMatchMaps` | mockserver/internal/chain/mock_data.go:157-160 | a stored certificate carries its height's hash, batch and double signers |
| `ChainLaws.EmbeddedCertificatesAgree` | mockserver/internal/chain/mock_data.go:763-813 | embedded certificates agree with stored ones but for the batch, and the slash recipients at multiples of 30 |
| `ChainLaws.BatchNeverRotates` | mockserver/internal/chain/mock_data.go:145-157 | every height serves the batch locked at genesis |
| `ChainLaws.StatesConserveSupply` | mockserver/internal/chain/mock_data.go:544-597 | in every stored state balances sum to the supply, within fewer units than accounts |
| `ChainLaws.StateConservesExactly` | mockserver/internal/chain/mock_data.go:544-597 | and to it exactly when the height does not fall back or its scaled balances are whole |
| `ChainLaws.StatesShowLifecycle` | mockserver/internal/chain/mock_data.go:552-557 | an unstaking height is shown exactly for unstaked validators |
| `ChainContents.TransactionInPlain` | mockserver/internal/chain/mock_data.go:388-418 | in every built chain the i-th transaction of height h is sent by the account that the seed of the first account at h + i picks, with its slot, time, fee and hash |
| `ChainContents.MessageInPlain` | mockserver/internal/chain/mock_data.go:392-482 | the slot's label makes its message, with every amount and field, from that account to the one picked at h + i + 1 |
| `ChainContents.RecipientSendsNext` | mockserver/internal/chain/mock_data.go:393-396 | whoever receives a send is the sender of the next slot |
| `ChainContents.EventInPlain` | mockserver/internal/chain/mock_data.go:510-540 | the i-th event of height h is about the account picked at h + i, with the amounts of its label and the hash of its block |
| `ChainContents.SenderOfSlot` | mockserver/internal/chain/mock_data.go:393-517 | the transaction and the event of a slot are about one account |
| `ChainContents.BlockInPlain` | mockserver/internal/chain/mock_data.go:664-699 | header, meta data and contents of every stored block |
| `ChainContents.CertificateInPlain` | mockserver/internal/chain/mock_data.go:763-813 | every stored certificate, field by field but for the batch |
| `ChainContents.BatchesInPlain` | mockserver/internal/chain/mock_data.go:705-720 | every height stores the batch of height 0 and, as the next one, that of its own height |
| `ChainContents.StateInPlain` | mockserver/internal/chain/mock_data.go:544-598 | every stored state lists each account with its balance, signers and evidence by height, and carries pools, books and committees |
| `ChainContents.ValidatorInPlain` | mockserver/internal/chain/mock_data.go:550-571 | and each validator with the stake drawn for the height, and its unstaking height once it is reached |
| `ChainContents.StakesAddUp` | mockserver/internal/chain/mock_data.go:551-591 | whose listed stakes sum to the staked supply, as a word |
| `Lifecycle.ScheduledAfterGenesis` | mockserver/internal/gen/lifecycle.go:16-22 | the schedule lies after genesis exactly when it does not overflow |
| `Lifecycle.UnstakesOnce` | mockserver/internal/gen/lifecycle.go:24-29 | the status changes once, at the scheduled height, for good |
| `Lifecycle.ActiveShrinks` | mockserver/internal/gen/lifecycle.go:24-29 | going up a height loses exactly the validators scheduled for it |
| `Lifecycle.ScheduleInPlain` | mockserver/internal/gen/lifecycle.go:16-29 | a validator unstakes a billion blocks after genesis if its roll is below 0.9, else after 100 to 9,999 blocks, and is active exactly before |
| `Indexer.BuildIndexerBlob` | mockserver/internal/chain/indexer_blob.go:25-97 | the blob of a known height, or the unknown height; what every answer holds is stated by `Indexer.AnswersInPlain` |
| `Indexer.BuildIndexerBlobs` | mockserver/internal/chain/indexer_blob.go:103-121 | current and previous blob, or the height that is unknown |
| `Indexer.QueryWindow` | mockserver/internal/chain/indexer_blob.go:103-121 | on n blocks exactly the queries 2 to n+1 are answered |
| `Indexer.AnswersInPlain` | mockserver/internal/chain/indexer_blob.go:25-121 | each answered query H serves block, accounts, pools, validators, supply and orders of H - 1, and of H - 2 as the previous ones; each blob's accounts sum to its own supply within fewer units than accounts, exactly when the height does not fall back or its scaled balances are whole |
| `Indexer.ConsecutiveQueries` | mockserver/internal/chain/indexer_blob.go:103-121 | the previous blob of a query is the current blob of the one before |
| `Indexer.TotalsCoverValidators` | mockserver/internal/chain/indexer_blob.go:72-80 | active and unstaking totals are all the validators, as 32-bit words, and as numbers below 2^32 |
| `Indexer.ActiveNeverGrows` | mockserver/internal/chain/indexer_blob.go:72-80 | the active total drops by exactly those scheduled, as 32-bit words, and as numbers below 2^32 |
| `Indexer.UnstakingTotalRunsAhead` | mockserver/internal/chain/indexer_blob.go:72-80 | the unstaking total exceeds the heights shown by those scheduled next |
| `RateTable.NormalizeRateTable` | mockserver/internal/gen/ratetable.go:33-44 | the table sums to 24 and keeps all proportions, unless the raw one sums to zero |
| `RateTable.DiurnalCalibration` | mockserver/internal/gen/ratetable.go:50-59 | over any 4320 consecutive heights the means sum to 4320 base means |
| `RateTable.MeanOfHour` | mockserver/internal/gen/ratetable.go:50-59 | the mean of a height is the base mean times the ratio of its hour, an hour being 180 heights of a day |
| `Poisson.SamplePoisson` | mockserver/internal/gen/distributions.go:74-88 | zero for non-positive means, else the count at which the product stays above the bound |
| `Poisson.SampleIsLargest` | mockserver/internal/gen/distributions.go:74-88 | the sample is the largest count whose product is above the bound |
| `Poisson.SampleIsUnique` | mockserver/internal/gen/distributions.go:74-88 | the stream and the bound determine the sample |
| `Poisson.SampleGrowsWithMean` | mockserver/internal/gen/distributions.go:74-88 | on one stream a larger mean never gives a smaller sample |
| `Poisson.SmallSamples` | mockserver/internal/gen/distributions.go:74-88 | the sample is 0 exactly if the first draw is small enough, 1 exactly if only its product with the second is |
| `Seeds.SaltSeparates` | mockserver/internal/chain/mock_data.go:392-392 | inputs of a run are distinct exactly for at most 1,000,003 blocks |
| `Seeds.SeedPreimagesDiffer` | mockserver/internal/gen/distributions.go:15-18 | and so are the strings hashed for one base seed, for exactly those runs |
| `Seeds.CollideIff` | mockserver/internal/chain/mock_data.go:397-397 | two heights have transactions that hash the same string exactly when the notation of one continues that of the other with a non-zero digit |
| `Seeds.TxPreimagesDifferIff` | mockserver/internal/chain/mock_data.go:397-397 | transactions of a run hash different strings exactly when it has at most ten blocks |
| `Decimal.DigitsInjective` | mockserver/internal/gen/distributions.go:146-152 | different numbers are printed differently |
| `Decimal.DecimalIsDigits` | mockserver/internal/gen/distributions.go:146-152 | every digit string without a leading zero is the print of a number |
| `Decimal.DigitsAreWorth` | mockserver/internal/gen/distributions.go:146-152 | read as a decimal number, the print of a number is worth the number |
| `Pagination.Paginate` | mockserver/internal/rpc/server_routes.go:472-493 | a panic exactly for negative page sizes and wrapped negative offsets, else the elements from the offset on, at most a page of them |
| `Pagination.BuildPage` | mockserver/internal/rpc/server_routes.go:495-512 | the results under their type name, counted if they have a length, and the least number of pages that holds the whole list |
| `Pagination.PageInPlain` | mockserver/internal/rpc/server_routes.go:472-493 | the k-th element of a page is the list's at (page - 1) * size + k: size 10 unless asked otherwise and 5000 at most, pages counted from 1, as long as that offset is an int |
| `Pagination.Int64IsWord` | mockserver/internal/rpc/server_routes.go:478-480 | wrapping an offset changes it by a multiple of 2^64 |
| `Pagination.LeastPages` | mockserver/internal/rpc/server_routes.go:500-503 | rounding the quotient up gives the least number of pages that holds the list |
| `Pagination.PagesPartition` | mockserver/internal/rpc/server_routes.go:472-493 | as many pages as are announced, one after the other, reproduce the list |
| `Pagination.PageSizes` | mockserver/internal/rpc/server_routes.go:472-493 | pages before the last are full, the last is not empty, later ones are while their offset is an int, and beyond that what the wrapped offset decides |
| `Pagination.HugePageNumbersWrap` | mockserver/internal/rpc/server_routes.go:472-493 | page 2^62+1 of size 4 is page 1 again, page 2^61+1 of size 5 panics |

## Left out

- HTTP handlers, JSON and protobuf encoding, server start-up, flags: plumbing.
- Key generation, keystore and SHA-256: hashes are an uninterpreted function of their preimage, keys and serialized sizes arbitrary.
- Statistical calibration and the generator's own sampling (Gamma, log-normal, categorical draws): draws are arbitrary.
- IEEE-754 rounding: reals stand for floats, so exactness is that of the algorithm.
- Static builders (params, committees, polls, proposals, prices) and dex prices: constants and one-branch facts.
- Delayed events and end-of-block processing of `mockState`: they move no value.
- Certificates leave out the empty order lists, dex batches their empty lists; message and event types are told by the message.
- Snapshots.SnapshotThenReplay: says nothing of the liquidity entries of an earlier snapshot, because the source shares them with the live pool and the library may change them in place.
- SolvencyLaw.SolventIff: for claims that fit a word, because what the library answers to a larger quotient is not known; such claims exceed every amount, and covered claims always fit.
- Poisson.SamplePoisson: takes a number of draws after which the product is small enough, because the source's loop need not stop on every stream.
- RateTable.NormalizeRateTable: a table that sums to zero gives `None` where floats give infinities.
- Indexer.BuildIndexerBlob: holds entities where the source holds their serialized bytes, and has no serialization errors.
