# amm-toolkit core, modelled in Dafny

amm-toolkit is a Rust library that discovers Uniswap-V2 pools on an Ethereum
chain, fetches their data through deploy-and-call "batch request" contracts,
and computes swap outputs and prices. This project models the logic around
those chain calls and proves properties of it:

- **pool arithmetic** (`PoolModel`): the populated check, the constant-product
  `get_amount_out` with its integer fee factor, reserve selection in
  `simulate_swap`, and the decimal normalisation and zero-reserve case of
  `calculate_price_64_x_64`;
- **result decoders** (`AmmBatchRequest`, `BatchRequest`): decoded ABI trees
  (`Common.Token`) become pools or pair-address lists. They cover the error
  paths, zero-address filtering and positional address tagging, and the two
  decimal conversions: truncating in the `amm` variant, panicking in the
  `uniswap_v2` variant;
- **pagination and merge loops** (`Windows`, `AmmFactory`, `Factory`,
  `BatchRequest`):
  - the sequential 766-pair scan with its `min(pairs_length - 1)` cap;
  - the `step_by` index and block windows of `get_all_pools` and
    `get_pools_from_logs`;
  - the WETH-value chunking with its one-address-at-a-time retry;
  - the in-order merges that abort on an error or skip `PoolDataError`;
- **configuration** (`Configs`): `ConfigError`'s messages and the
  symmetrisation of the pairs table in `load_uniswap_v2_pairs`.

Conventions:

- Every call ends in `Common.Outcome`: `Ok`, `Err(AmmError)` or `Panic`.
  `Panic` stands for Rust's `expect`, `unwrap`, out-of-bounds indexing,
  `as_u32`/`as_u64`/`as_u128`, `try_from`, `step_by(0)` and unsigned
  underflow (debug build).
- The chain is a `Common.Chain` value: one reply function per kind of call.
- `join_all` keeps input order and runs every future. So each merge is a fold
  over a sequence of outcomes, and any panicking future panics the call.
- Each imperative routine is a `method` whose loop is proved equal to a
  function. The properties are proved about that function.

## Model

| member | source | states |
|---|---|---|
| PoolModel.DataIsPopulated | src/amm/uniswap_v2/mod.rs:83-88 | true exactly when both tokens are non-zero and both reserves are non-zero |
| PoolModel.FeeFactor | src/amm/uniswap_v2/mod.rs:130 | the factor `f` satisfies `10f <= 10000 - fee/10 < 10f + 10`, so it is that value divided by 10 and rounded down; fee 300 gives 997 |
| PoolModel.GetAmountOut | src/amm/uniswap_v2/mod.rs:126-136 | zero when any input is zero; otherwise `r` is the rounded-down quotient `a·f·R_out / (R_in·1000 + a·f)`, bounded on both sides; always below a non-zero `reserveOut` |
| PoolModel.GetAmountOutMonotone | src/amm/uniswap_v2/mod.rs:131-135 | paying in more never yields less output |
| PoolModel.SwapReserves | src/amm/uniswap_v2/mod.rs:111-123 | `(reserve0, reserve1)` exactly when the token sold is token A; any other token, including one not in the pool, gets `(reserve1, reserve0)` |
| PoolModel.SimulateSwap | src/amm/uniswap_v2/mod.rs:106-124 | never an error; the output is `get_amount_out` on the selected reserves and, for a populated pool, below the reserve paid out |
| PoolModel.AsI8 | src/amm/uniswap_v2/mod.rs:139 | `d as i8`: the value itself below 128, `d - 256` from 128 up |
| PoolModel.NormalisedReserves | src/amm/uniswap_v2/mod.rs:139-152 | with both decimals on the same side of 128, each reserve is scaled by `10^(max decimals - its decimals)`: the token with fewer decimals is scaled, the other is unchanged; equal decimals change nothing; a reserve is zero after scaling exactly when it was zero before |
| PoolModel.ScaleReserve | src/amm/uniswap_v2/mod.rs:141-151 | `reserve · 10^k` fits U256 for a `u128` reserve and `k <= 38`, and is zero only for a zero reserve |
| PoolModel.Pow10FitsU128 | src/amm/uniswap_v2/mod.rs:144-150 | `10u128.pow(k)` fits `u128` for every shift up to 38 |
| PoolModel.NormalisedReservesWrapExample | src/amm/uniswap_v2/mod.rs:139-146 | decimals 230 and 0: `as i8` wraps 230 to -26, so token A's reserve is scaled by `10^26` although token A has more decimals |
| PoolModel.CalculatePrice64x64 | src/amm/uniswap_v2/mod.rs:138-165 | `2^64` exactly when the raw reserve of the base side is zero (a zero reserve stays zero after scaling); otherwise `div_uu` of the normalised reserves, other side over base side, where any base other than token A is treated as token B; a populated pool always takes the `div_uu` branch |
| Common.ReplyTokens | src/amm/uniswap_v2/batch_request/mod.rs:28-40 | deploy or call failure is a contract error, an undecodable reply an ABI error, and only a decoded reply yields tokens |
| AmmBatchRequest.FirstTuple | src/amm/uniswap_v2/batch_request/mod.rs:42-52 | present exactly when the list is non-empty, its head is an array, that array is non-empty and its first entry is a tuple; then it is that tuple's fields |
| AmmBatchRequest.AddressField | src/amm/uniswap_v2/batch_request/mod.rs:55-58 | a missing field panics; an address yields itself; any other kind is `BatchRequestError(pair)` |
| AmmBatchRequest.DecimalsField | src/amm/uniswap_v2/batch_request/mod.rs:59-63 | a uint of more than 32 bits panics in `as_u32`; otherwise the value mod 256; a non-uint is `BatchRequestError(pair)` |
| AmmBatchRequest.ReserveField | src/amm/uniswap_v2/batch_request/mod.rs:73-77 | a uint of more than 128 bits panics in `as_u128`; otherwise the value; a non-uint is `BatchRequestError(pair)` |
| AmmBatchRequest.PoolFromFields | src/amm/uniswap_v2/batch_request/mod.rs:54-85 | succeeds exactly when the six fields have kinds address, uint, address, uint, uint, uint and their values fit; then the pool carries decimals mod 256, both reserves, the requested address and the fee; every error is `BatchRequestError(pair)` |
| AmmBatchRequest.GetPoolDataBatchRequest | src/amm/uniswap_v2/batch_request/mod.rs:28-87 | reply errors pass through; a missing first tuple is `BatchRequestError(pair_address)`; otherwise the pool of the first tuple, whose address and fee are the arguments |
| AmmBatchRequest.PoolDataRoundTrip | src/amm/uniswap_v2/batch_request/mod.rs:42-87 | decoding the contract's encoding of a pool gives that pool back, whatever follows it |
| AmmBatchRequest.OnlyFirstEntryDecoded | src/amm/uniswap_v2/batch_request/mod.rs:42-52 | entries after the first, and tokens after the first array, do not change the result |
| AmmBatchRequest.NonZeroAddresses | src/amm/uniswap_v2/batch_request/mod.rs:161-171 | an address is in the result exactly when it is non-zero and its address token is among the entries |
| AmmBatchRequest.NonZeroAddressesAppend | src/amm/uniswap_v2/batch_request/mod.rs:161-171 | filtering a concatenation is the concatenation of the filtered parts: entry order is kept |
| AmmBatchRequest.NonZeroAddressesOfAddresses | src/amm/uniswap_v2/batch_request/mod.rs:161-171 | address tokens of non-zero addresses decode to exactly those addresses, in order |
| AmmBatchRequest.PairsDecode | src/amm/uniswap_v2/batch_request/mod.rs:148-173 | never panics; reply errors pass through; `BatchRequestError(factory)` exactly when the list is empty or its head is not an array; otherwise the non-zero addresses of that array |
| AmmBatchRequest.GetPairsBatchRequest | src/amm/uniswap_v2/batch_request/mod.rs:136-174 | the push loop computes `PairsDecode`; no zero address is returned |
| AmmBatchRequest.NewFromAddress | src/amm/uniswap_v2/mod.rs:91-104 | decode errors pass through; a decoded but unpopulated pool is exactly the `PoolDataError` case; a success is populated and carries the requested address and fee |
| BatchRequest.TokenToAddress | src/uniswap_v2/batch_request.rs:48-53 | never an error: an address token yields itself, anything else panics |
| BatchRequest.TokenToU | src/uniswap_v2/batch_request.rs:55-71 | never an error: succeeds exactly for a uint below the target's limit, with that value; anything else panics |
| BatchRequest.TokenToPool | src/uniswap_v2/batch_request.rs:73-85 | never an error: succeeds exactly for a tuple whose six fields have the right kinds and fit `u8`/`u128`, and builds the pool from them with the given address and fee |
| BatchRequest.StrictAgreesWithTruncating | src/uniswap_v2/batch_request.rs:73-85 | where every value fits, the strict decoder and the truncating `amm` decoder build the same pool |
| BatchRequest.StrictPanicsWhereTruncatingWraps | src/uniswap_v2/batch_request.rs:55-71 | decimals of 256 or more (within 32 bits) panic here but are cut to their low byte by the `amm` decoder |
| BatchRequest.PoolsFromEntries | src/uniswap_v2/batch_request.rs:121-129 | never an error; succeeds exactly when there are no more entries than addresses and every entry decodes; the `i`-th pool is the `i`-th entry tagged with `pair_addresses[i]` and the fee |
| BatchRequest.PoolDataDecode | src/uniswap_v2/batch_request.rs:98-132 | reply errors pass through; an empty list or a non-array head is `BatchRequestError(zero address)`; otherwise `PoolsFromEntries` of the array |
| BatchRequest.GetPoolDataBatchRequest | src/uniswap_v2/batch_request.rs:88-132 | the push loop computes `PoolDataDecode` |
| BatchRequest.PoolDataRoundTrip | src/uniswap_v2/batch_request.rs:112-131 | decoding the contract's encoding of pools tagged with the requested addresses and fee gives those pools back, in order |
| BatchRequest.GetPoolDataBatchRequestSingle | src/uniswap_v2/batch_request.rs:30-43 | errors pass through; no decoded pool is `BatchRequestError(pool_address)`; otherwise the first pool, carrying that address and the fee |
| BatchRequest.SingleWithoutEntries | src/uniswap_v2/batch_request.rs:38-42 | an empty returned array gives the batch error naming the requested address |
| BatchRequest.InsertValues | src/uniswap_v2/batch_request.rs:204-208 | panics exactly when some uint sits at an index with no address; keys stay within the old keys and the addresses |
| BatchRequest.InsertValuesBindsPositionally | src/uniswap_v2/batch_request.rs:204-208 | when every entry is a uint and the addresses are distinct, the `i`-th uint is bound to `addresses[i]` |
| BatchRequest.InsertValuesKeys | src/uniswap_v2/batch_request.rs:204-208 | without a panic, the keys are the old keys plus `addresses[idx]` for every uint entry `idx`; a non-uint entry adds no key |
| BatchRequest.InsertValuesLastWins | src/uniswap_v2/batch_request.rs:204-208 | a uint entry `idx` gives `addresses[idx]` its value, unless a later uint entry binds the same address |
| BatchRequest.InsertValuesKeepsUnbound | src/uniswap_v2/batch_request.rs:204-208 | an address that no uint entry binds keeps its old value, or stays absent, so non-uint entries change nothing |
| BatchRequest.InsertArrays | src/uniswap_v2/batch_request.rs:202-210 | never an error; every key is a requested address |
| BatchRequest.InsertArraysPanicSticks | src/uniswap_v2/batch_request.rs:202-210 | a panic in a prefix of the tokens is a panic of the whole decode |
| BatchRequest.WethValueDecode | src/uniswap_v2/batch_request.rs:190-215 | deploy failure is a contract error; a failed call is `OutOfGasError` of exactly the requested addresses; an undecodable reply is an ABI error; keys are requested addresses |
| BatchRequest.GetWethValueInPoolBatchRequest | src/uniswap_v2/batch_request.rs:174-216 | the nested insert loops compute `WethValueDecode` |
| BatchRequest.EffectiveStep | src/uniswap_v2/batch_request.rs:225-228 | the step given, or 100 |
| BatchRequest.ChunksPartition | src/uniswap_v2/batch_request.rs:236-238 | the chunks, put back together, are the addresses in order, and each holds between 1 and `step` addresses |
| BatchRequest.ChunkResults | src/uniswap_v2/batch_request.rs:235-246 | one result per chunk, in chunk order, each the request for that chunk |
| BatchRequest.RequestChunks | src/uniswap_v2/batch_request.rs:235-246 | the `step_by` loop issues exactly `ChunkResults` of the chunks |
| BatchRequest.MergeChunks | src/uniswap_v2/batch_request.rs:247-259 | succeeds exactly when every result is a map or an out-of-gas error; then the retry queue is the out-of-gas payloads in result order, and the keys are exactly the keys of the map results |
| BatchRequest.MergeChunksLastWins | src/uniswap_v2/batch_request.rs:249-253 | a key takes its value from the last map result that binds it, as `extend` overwrites |
| BatchRequest.MergeChunkResults | src/uniswap_v2/batch_request.rs:247-259 | the first merge loop computes `MergeChunks` |
| BatchRequest.MergeChunksFailureSticks | src/uniswap_v2/batch_request.rs:249-259 | the first error that is not out of gas decides the merge, whatever follows |
| BatchRequest.MergeChunksWithin | src/uniswap_v2/batch_request.rs:249-259 | merged keys and queued addresses come from the results' keys and payloads |
| BatchRequest.AllOutOfGasQueuesChunks | src/uniswap_v2/batch_request.rs:254-256 | when every chunk runs out of gas, the queue is all chunk addresses, in order, and no value is kept |
| BatchRequest.AllOutOfGasRetriesEveryAddress | src/uniswap_v2/batch_request.rs:249-270 | when every chunk call fails, the retry queue is exactly `addresses`, in order |
| BatchRequest.RetryResults | src/uniswap_v2/batch_request.rs:261-272 | one single-address request per queued address, in queue order |
| BatchRequest.RequestRetries | src/uniswap_v2/batch_request.rs:261-272 | the retry loop issues exactly `RetryResults` |
| BatchRequest.MergeRetries | src/uniswap_v2/batch_request.rs:273-280 | succeeds exactly when every retry succeeds; then the keys are exactly the earlier keys plus every retry's keys |
| BatchRequest.MergeRetriesLastWins | src/uniswap_v2/batch_request.rs:273-280 | a key takes its value from the last retry that binds it, over any earlier value |
| BatchRequest.MergeRetriesKeepsUnbound | src/uniswap_v2/batch_request.rs:273-280 | a key that no retry binds keeps its earlier value |
| BatchRequest.MergeRetryResults | src/uniswap_v2/batch_request.rs:273-282 | the second merge loop computes `MergeRetries` |
| BatchRequest.MergeRetriesWithin | src/uniswap_v2/batch_request.rs:273-280 | the keys stay within a bound that holds every earlier key and every retry key |
| BatchRequest.MergeRetriesFailureSticks | src/uniswap_v2/batch_request.rs:273-280 | the first failing retry decides the result |
| BatchRequest.WethValuesWithinAddresses | src/uniswap_v2/batch_request.rs:218-283 | every key of the final map is one of the requested addresses |
| BatchRequest.ChunksWithin | src/uniswap_v2/batch_request.rs:236-238 | every chunk holds only requested addresses |
| BatchRequest.OutOfGasAreFailedChunks | src/uniswap_v2/batch_request.rs:189-193 | the out-of-gas payloads among the chunk results are exactly the chunks whose call failed, in chunk order |
| BatchRequest.WethValuesRetryQueue | src/uniswap_v2/batch_request.rs:236-266 | when the first merge succeeds, the retry queue is the concatenation, in chunk order, of the chunks whose call failed, whatever the other chunks returned |
| BatchRequest.WethValuesKeys | src/uniswap_v2/batch_request.rs:218-283 | on success the keys of the final map are exactly the keys fetched by the successful chunk requests and the successful retries |
| BatchRequest.WethValuesRetryWins | src/uniswap_v2/batch_request.rs:261-280 | a value fetched by a retry is in the final map, unless a later retry of the same address replaces it |
| BatchRequest.WethValuesChunkKept | src/uniswap_v2/batch_request.rs:247-280 | a value fetched by a chunk is in the final map when no later chunk binds the address and the address is not queued for retry |
| BatchRequest.GetWethValueInPools | src/uniswap_v2/batch_request.rs:218-283 | the four loops compute `WethValuesInPools`, whose keys are requested addresses |
| AmmFactory.AmmWindowsFrom | src/amm/uniswap_v2/factory.rs:53-72 | `count` windows beginning with the given bounds |
| AmmFactory.AmmWindowsCount | src/amm/uniswap_v2/factory.rs:60 | `ceil(n / 766)` calls; none for zero pairs |
| AmmFactory.AmmFirstWindow | src/amm/uniswap_v2/factory.rs:53-58 | the first call asks for `(0, min(766, n))` |
| AmmFactory.AmmWindowsFromChain | src/amm/uniswap_v2/factory.rs:70-71 | each window starts at the previous `idx_to` and ends at `min(previous idx_to + 766, n - 1)` |
| AmmFactory.AmmWindowsChain | src/amm/uniswap_v2/factory.rs:70-71 | the same for the windows of an `n`-pair scan |
| AmmFactory.AmmWindowsFromEnds | src/amm/uniswap_v2/factory.rs:71 | the `k`-th later window ends at `min(766·(j + k + 1), n - 1)` |
| AmmFactory.AmmLastWindowCapped | src/amm/uniswap_v2/factory.rs:71 | with more than 766 pairs the last call ends at `n - 1`, not `n` |
| AmmFactory.PairsResults | src/amm/uniswap_v2/factory.rs:60-69 | one result per window |
| AmmFactory.PairsResultsAt | src/amm/uniswap_v2/factory.rs:60-69 | the `k`-th result is the pairs call for the `k`-th window |
| AmmFactory.PairsLength | src/amm/uniswap_v2/factory.rs:48-51 | the supplied count, or the factory's `allPairsLength`; a failed call is a contract error |
| AmmFactory.NoPairsNoCalls | src/amm/uniswap_v2/factory.rs:54-60 | a supplied count of zero yields no addresses |
| AmmFactory.SuppliedLengthWins | src/amm/uniswap_v2/factory.rs:48-51 | with a supplied count, the factory's own count does not matter |
| AmmFactory.GetAllPairsAddressesViaBatchedCalls | src/amm/uniswap_v2/factory.rs:41-74 | the method computes `AllPairsAddresses`: a panic for counts past `u64`, otherwise the in-order merge of the window replies |
| AmmFactory.ScanWindows | src/amm/uniswap_v2/factory.rs:60-73 | the loop with its running `idx_from`/`idx_to` returns the in-order merge of the replies for `AmmWindows(n)`, stopping at the first error |
| Windows.StepWindows | src/uniswap_v2/factory.rs:188-193 | the windows `[i, min(i + step, end))` of `(start..end).step_by(step)` all lie within `[0, end]` |
| Windows.StepWindowsShape | src/uniswap_v2/factory.rs:239-243 | no windows exactly when `start >= end`; otherwise they start at `start`, end at `end`, each is non-empty, ends at `min(from + step, end)` and starts where the previous one ends |
| Windows.StepWindowAt | src/uniswap_v2/batch_request.rs:236-238 | each window is non-empty, at most `step` wide and inside the range |
| Windows.StepWindowsStart | src/uniswap_v2/factory.rs:188 | the `k`-th window starts at `start + k·step` |
| Windows.StepWindowsCount | src/uniswap_v2/factory.rs:188 | there are `ceil((end - start) / step)` windows |
| Windows.StepWindowsTotalWidth | src/uniswap_v2/factory.rs:188-193 | the window widths add up to `end - start` |
| Windows.ChunksCover | src/uniswap_v2/batch_request.rs:236-238 | the slices at the windows join back to the sequence: every element lands in exactly one chunk, in order |
| Windows.MapWindowsAt | src/uniswap_v2/factory.rs:187-195 | the `k`-th pushed future is the call for the `k`-th window |
| Windows.Concat | src/uniswap_v2/factory.rs:198-204 | the merge succeeds exactly when every result does |
| Windows.ConcatFirstFailure | src/uniswap_v2/factory.rs:199-203 | the merge returns the first failing result |
| Windows.ConcatSplit | src/uniswap_v2/factory.rs:198-204 | merging two runs is merging the first, then the second, stopping at the first failure |
| Windows.ConcatOfSuccesses | src/uniswap_v2/factory.rs:198-204 | a run of successes merges to its payloads concatenated in order |
| Windows.MergeInOrder | src/uniswap_v2/factory.rs:198-204 | the `append` loop with early `return Err` computes `Concat` |
| Windows.DropPoolDataErrors | src/uniswap_v2/factory.rs:250-258 | keeps exactly the results that are not `PoolDataError` |
| Windows.DropPoolDataErrorsAppend | src/uniswap_v2/factory.rs:250-258 | dropping the `PoolDataError` results from two runs is dropping from each in turn, so the survivors keep their order |
| Windows.ConcatSkippingPoolDataErrors | src/uniswap_v2/factory.rs:250-258 | succeeds exactly when every result is a success or a `PoolDataError`; never returns `PoolDataError` |
| Windows.SkippingIsConcatOfRest | src/uniswap_v2/factory.rs:250-258 | the tolerant merge is the plain merge of the results without the `PoolDataError`s |
| Windows.SkippingWithoutPoolDataErrors | src/uniswap_v2/factory.rs:250-258 | without any `PoolDataError` the tolerant merge is the plain one |
| Windows.MergeSkippingPoolDataErrors | src/uniswap_v2/factory.rs:250-258 | the tolerant merge loop computes `ConcatSkippingPoolDataErrors` |
| Factory.PairAddressesOfLogs | src/uniswap_v2/factory.rs:86-92 | succeeds exactly when every log is a `PairCreated` event, then gives their pair addresses in log order; otherwise an ABI error |
| Factory.PoolAddressesFromLogsRangeMeaning | src/uniswap_v2/factory.rs:69-93 | never panics; a failed log query is a middleware error; a success gives one pair address per log, in order |
| Factory.GetPoolAddressesFromLogsRange | src/uniswap_v2/factory.rs:69-93 | the push loop computes `PoolAddressesFromLogsRange` |
| Factory.GetPoolsFromLogsRange | src/uniswap_v2/factory.rs:104-122 | the method computes the log addresses followed by their pool data |
| Factory.PoolsFromLogsRangeTagged | src/uniswap_v2/factory.rs:104-122 | each pool is the pair of the log at its position and carries the factory's fee |
| Factory.GetPoolsRange | src/uniswap_v2/factory.rs:139-161 | the method computes the index range's pair addresses followed by their pool data |
| Factory.PoolsRangeTagged | src/uniswap_v2/factory.rs:139-161 | every pool has a non-zero address and the factory's fee |
| Factory.BlockNumber | src/uniswap_v2/factory.rs:172-176 | the current block, or a middleware error when the query fails |
| Factory.PairsLength | src/uniswap_v2/factory.rs:177-181 | `allPairsLength`, or a contract error when the call fails |
| Factory.AllPoolsTagged | src/uniswap_v2/factory.rs:163-207 | a successful scan returns the block read at its start and pools that all carry the fee and a non-zero address |
| Factory.ConcatTagged | src/uniswap_v2/factory.rs:197-204 | merging tagged batches gives tagged pools |
| Factory.AllPoolsFirstFailure | src/uniswap_v2/factory.rs:197-204 | the scan fails with the first failing window's error, whatever later windows return |
| Factory.AllPoolsNoPairs | src/uniswap_v2/factory.rs:187-195 | no pairs means no calls, no pools and the current block |
| Factory.AllPoolsZeroStep | src/uniswap_v2/factory.rs:168-188 | a zero step panics in `step_by` |
| Factory.RequestRanges | src/uniswap_v2/factory.rs:187-195 | the loop pushes one `get_pools_range` per window `[i, min(i + step, n))`, in order |
| Factory.GetAllPools | src/uniswap_v2/factory.rs:163-207 | the method computes `AllPools` |
| Factory.LogRangeResultsNoPoolDataError | src/uniswap_v2/factory.rs:250-258 | no log window yields `PoolDataError`, so the tolerant merge equals the plain one |
| Factory.PoolsFromLogsFirstFailure | src/uniswap_v2/factory.rs:250-258 | the log scan fails with the first failing window's error |
| Factory.PoolsFromLogsTagged | src/uniswap_v2/factory.rs:209-264 | pools found from logs carry the factory's fee |
| Factory.PoolsFromLogsSuppliedEnd | src/uniswap_v2/factory.rs:220-227 | a supplied end block is used as is and the current block is not consulted |
| Factory.PoolsFromLogsEmptyRange | src/uniswap_v2/factory.rs:232-246 | an empty block range makes no query and yields no pools |
| Factory.PoolsFromLogsReversedRange | src/uniswap_v2/factory.rs:232 | a start after the end panics in `end_block - start_block` |
| Factory.OverflowAt | src/uniswap_v2/factory.rs:242 | a window start whose `i + step` passes `u64` makes the scan overflow |
| Factory.RequestLogRanges | src/uniswap_v2/factory.rs:238-246 | the loop reports an overflowing window end exactly when there is one; otherwise it pushes one `get_pools_from_logs_range` per window, in order |
| Factory.GetPoolsFromLogs | src/uniswap_v2/factory.rs:209-264 | the method computes `PoolsFromLogs`: defaults 0, current block and 100, the panics, then the tolerant in-order merge |
| Configs.Display | src/configs/mod.rs:22-35 | the message is the variant's fixed prefix followed by its text |
| Configs.DisplayInjective | src/configs/mod.rs:22-35 | different errors never print the same message |
| Configs.SymmetrisedGet | src/configs/mod.rs:97-105 | a lookup in the result is the reverse raw entry when there is one, else the raw entry |
| Configs.SymmetrisedKeys | src/configs/mod.rs:103-105 | outer keys are the raw keys plus every raw inner key: `or_default` creates missing rows |
| Configs.ReverseEntryPresent | src/configs/mod.rs:97-105 | every raw entry `raw[t1][t2] = x` appears as `result[t2][t1] = x` |
| Configs.NoKeyRemoved | src/configs/mod.rs:103-105 | every raw row survives with at least its raw inner keys |
| Configs.KeptWithoutReverse | src/configs/mod.rs:95-105 | an entry without a reverse entry keeps its value |
| Configs.SymmetricWhenConsistent | src/configs/mod.rs:97-105 | if no pair is listed both ways with different addresses, the result is symmetric and keeps every raw value |
| Configs.SwappedWhenConflicting | src/configs/mod.rs:97-105 | two conflicting entries come out swapped |
| Configs.SymmetricKeys | src/configs/mod.rs:97-105 | an entry is present in one order exactly when it is present in the other |
| Configs.CollectAdditions | src/configs/mod.rs:97-102 | the additions hold, for every `(a, b)`, the raw entry `raw[b][a]` |
| Configs.ApplyAdditions | src/configs/mod.rs:103-105 | the insert loop leaves the raw table with the additions written over it |
| Configs.AppliedIsSymmetrised | src/configs/mod.rs:97-105 | applying those additions gives `Symmetrised(raw)`, whatever the order they were collected in |
| Configs.LoadUniswapV2Pairs | src/configs/mod.rs:93-107 | the two loops return `Symmetrised(raw)` |

## Left out

- Chain I/O is not executed: contract deployment, `call_raw`, `ethers::abi::decode`, `get_logs`, `get_block_number` and `all_pairs_length().call()`. Each is a reply function of `Common.Chain`, and its decoded output is a `Common.Token` tree or a `Common.RawLog`.
- The concurrency and display of `join_all`, `Arc<Mutex<ProgressBar>>`, spinners and `println!` are left out. `join_all` keeps input order and runs every future, so each merge is a sequential fold.
- `calculate_price` and `q64_to_f64` work in floating point and are left out.
- `div_uu` lives in `large_int_maths`, which is not part of this model. It is a function parameter of `CalculatePrice64x64`, with no assumption about its rounding or overflow.
- `swap_calldata` is ABI encoding through an external library and is left out.
- `sync.rs`, `get_reserves`, `get_pair_address`, `Config::new`, `Config::pool`, `load_tokens`, file reading, YAML parsing and the `playground`, `simulate_swaps` and `main` entry points are orchestration or library calls and are left out. `LoadUniswapV2Pairs` starts from the parsed table.
- `Common.Token.IntoUint`: it yields a value only for `Uint`. The ABI library's `into_uint` also accepts an `Int` token. Every reply read through it is decoded against unsigned ABI types, so an `Int` token never reaches it, and the model treats `Int` as a non-uint.
- Panic messages are not modelled: every panic is the one `Panic` outcome.
- `errors.rs` is not part of this model. Error variants are named after their sources: `ContractError`, `MiddlewareError`, `EthAbiError`. The address carried by the `uniswap_v2` factory's `PoolDataError(addr)` is not modelled: it is only printed.
- The pairs contract's reading of its `(from, step)` / `(from, to)` arguments is not shown. `AmmFactory` states the arguments exactly and makes no claim about which pairs they select.
- `get_pools_from_addresses` and `get_pool_addresses_range` are one-line forwards. They are inlined into `Factory.PoolsFromLogsRange` and `Factory.PoolsRange`.
- The `uniswap_v2` pairs decode (src/uniswap_v2/batch_request.rs:134-172) is the same code as the `amm` one, so `AmmBatchRequest.PairsDecode` models both.
- Unsigned underflow and overflow in the scans follow the debug build and panic: `end_block - start_block` and `i + step` in the log scan. Release builds would wrap.
- U256 multiplication overflow, a decimal shift above 38 for `10u128.pow`, and the `u32` fee subtraction are `requires` clauses, not modelled traps.
- `PoolModel.NormalisedReserves`: its "fewer decimals is scaled" clause is stated only when both decimals lie on the same side of 128. Otherwise `as i8` wraps; `PoolModel.NormalisedReservesWrapExample` shows that case.
- `PoolModel.GetAmountOut`, `PoolModel.SimulateSwap`, `PoolModel.FeeFactor`: these require the U256 products and the fee subtraction not to overflow, since the source's overflow panics are out of scope.
- `Factory.LogRangeCall`: it returns `Panic` for a window bound past `u64`. Every window lies between the scan's own `u64` bounds, so that branch is never taken.
- `HashMap` iteration order is not deterministic. `CollectAdditions` picks keys in an unspecified order, and its result is proved independent of that order. The WETH merges are map unions in which the later batch wins, as `extend` does. The order in which `drain` hands over one batch's entries is not modelled: a batch has one value per key.
- `get_logs` includes both `from_block` and `to_block` (src/uniswap_v2/factory.rs:80-81), and the log scan passes `(i, min(i + step, end))` (src/uniswap_v2/factory.rs:239-243). So neighbouring windows share their boundary block, and a `PairCreated` event in that block is returned twice. `Chain.logs` places no constraint on its replies, so the model cannot show this duplication.
