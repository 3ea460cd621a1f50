/** The batch requests of the `uniswap_v2` variant: the strict token
    conversions, the multi-pool decode with positional address tagging, the
    single-pool wrapper, and the WETH-value requests with their chunking,
    merge and one-address-at-a-time retry. */
module BatchRequest {
  import opened Common
  import opened PoolModel
  import opened Windows
  import AmmBatchRequest

  // ---------------------------------------------------------------------------
  // Strict token conversions
  // ---------------------------------------------------------------------------

  /** `TokenHelper::token_to_address`: anything but an address token panics. */
  function TokenToAddress(token: Token): (r: Outcome<H160>)
    ensures !r.Err?
    ensures r.Ok? <==> token.Address?
    ensures r.Ok? ==> r.value == token.addr
  {
    if token.Address? then Ok(token.addr) else Panic
  }

  /** `TokenHelper::token_to_u` for a target type whose values lie below
      `limit`: a token that is not a uint panics, a value of more than 128 bits
      panics in `as_u128`, and a value the target type cannot hold panics in `try_from`. */
  function TokenToU(token: Token, limit: nat): (r: Outcome<nat>)
    requires limit <= U128_LIMIT
    ensures !r.Err?
    ensures r.Ok? <==> token.Uint? && token.value < limit
    ensures r.Ok? ==> r.value == token.value && r.value < limit
  {
    if !token.Uint? then Panic
    else if token.value >= U128_LIMIT then Panic
    else if token.value >= limit then Panic
    else Ok(token.value)
  }

  /** The integer fields fit `u8`, `u8`, `u128` and `u128`. */
  predicate StrictFieldsFit(fields: seq<Token>)
    requires AmmBatchRequest.FieldKindsMatch(fields)
  {
    fields[1].value < U8_LIMIT && fields[3].value < U8_LIMIT
    && fields[4].value < U128_LIMIT && fields[5].value < U128_LIMIT
  }

  /** `TokenHelper::token_to_uniswap_pool`: a token that is not a tuple, a tuple
      of fewer than six fields, a field of the wrong kind or one that does not
      fit its type all panic. */
  function TokenToPool(token: Token, address: H160, fee: U32): (r: Outcome<UniswapV2Pool>)
    ensures !r.Err?
    ensures r.Ok? <==>
      token.Tuple? && AmmBatchRequest.FieldKindsMatch(token.fields) && StrictFieldsFit(token.fields)
    ensures r.Ok? ==>
      var f := token.fields;
      r.value == UniswapV2Pool(address, f[0].addr, f[1].value, f[2].addr, f[3].value, f[4].value, f[5].value, fee)
  {
    if !token.Tuple? then Panic
    else
      var tup := token.fields;
      if |tup| < 6 then Panic
      else
        var tokenA :- TokenToAddress(tup[0]);
        var tokenADecimals :- TokenToU(tup[1], U8_LIMIT);
        var tokenB :- TokenToAddress(tup[2]);
        var tokenBDecimals :- TokenToU(tup[3], U8_LIMIT);
        var reserve0 :- TokenToU(tup[4], U128_LIMIT);
        var reserve1 :- TokenToU(tup[5], U128_LIMIT);
        Ok(UniswapV2Pool(address, tokenA, tokenADecimals, tokenB, tokenBDecimals, reserve0, reserve1, fee))
  }

  /** Where every value fits, the strict and the truncating decoders build the same pool. */
  lemma StrictAgreesWithTruncating(address: H160, fee: U32, fields: seq<Token>)
    requires AmmBatchRequest.FieldKindsMatch(fields) && StrictFieldsFit(fields)
    ensures TokenToPool(Tuple(fields), address, fee) == AmmBatchRequest.PoolFromFields(address, fee, fields)
  {
    assert fields[1].value % 256 == fields[1].value;
    assert fields[3].value % 256 == fields[3].value;
  }

  /** A decimals value above 255 (but within 32 bits) panics here and is cut
      to its low byte by the other decoder. */
  lemma StrictPanicsWhereTruncatingWraps(address: H160, fee: U32, fields: seq<Token>)
    requires AmmBatchRequest.FieldKindsMatch(fields) && AmmBatchRequest.IntegerFieldsFit(fields)
    requires fields[1].value >= U8_LIMIT
    ensures TokenToPool(Tuple(fields), address, fee) == Panic
    ensures AmmBatchRequest.PoolFromFields(address, fee, fields).Ok?
    ensures AmmBatchRequest.PoolFromFields(address, fee, fields).value.tokenADecimals == fields[1].value % 256
  {
  }

  // ---------------------------------------------------------------------------
  // Multi-pool decode
  // ---------------------------------------------------------------------------

  /** The pools of the returned tuples, the `i`-th tagged with `pairAddresses[i]`;
      a tuple without a requested address (`pair_addresses[idx]` out of bounds) panics. */
  function PoolsFromEntries(entries: seq<Token>, pairAddresses: seq<H160>, fee: U32): (r: Outcome<seq<UniswapV2Pool>>)
    ensures !r.Err?
    ensures r.Ok? <==>
      |entries| <= |pairAddresses| && forall i | 0 <= i < |entries| :: TokenToPool(entries[i], pairAddresses[i], fee).Ok?
    ensures r.Ok? ==> |r.value| == |entries|
    ensures r.Ok? ==> forall i | 0 <= i < |entries| ::
      r.value[i] == TokenToPool(entries[i], pairAddresses[i], fee).value
      && r.value[i].address == pairAddresses[i] && r.value[i].fee == fee
    decreases |entries|
  {
    if |entries| == 0 then Ok([])
    else
      var n := |entries| - 1;
      var init :- PoolsFromEntries(entries[..n], pairAddresses, fee);
      if n >= |pairAddresses| then Panic
      else
        var pool :- TokenToPool(entries[n], pairAddresses[n], fee);
        Ok(init + [pool])
  }

  /** `get_uniswap_v2_pool_data_batch_request` after the chain call. */
  function PoolDataDecode(pairAddresses: seq<H160>, fee: U32, reply: CallReply): (r: Outcome<seq<UniswapV2Pool>>)
    ensures !reply.Decoded? ==> r == Err(ReplyTokens(reply).error)
    ensures reply.Decoded? && (|reply.tokens| == 0 || reply.tokens[0].IntoArray().None?) ==>
      r == Err(BatchRequestError(ZERO_ADDRESS))
    ensures reply.Decoded? && |reply.tokens| > 0 && reply.tokens[0].IntoArray().Some? ==>
      r == PoolsFromEntries(reply.tokens[0].IntoArray().value, pairAddresses, fee)
  {
    var tokens :- ReplyTokens(reply);
    if |tokens| == 0 then Err(BatchRequestError(ZERO_ADDRESS))
    else match tokens[0].IntoArray()
      case None => Err(BatchRequestError(ZERO_ADDRESS))
      case Some(entries) => PoolsFromEntries(entries, pairAddresses, fee)
  }

  /** The multi-pool decode as the source runs it, pushing one pool per returned tuple. */
  method GetPoolDataBatchRequest(pairAddresses: seq<H160>, fee: U32, reply: CallReply)
    returns (r: Outcome<seq<UniswapV2Pool>>)
    ensures r == PoolDataDecode(pairAddresses, fee, reply)
  {
    if !reply.Decoded? {
      return Err(ReplyTokens(reply).error);
    }
    var tokens := reply.tokens;
    if |tokens| == 0 {
      return Err(BatchRequestError(ZERO_ADDRESS));
    }
    var decodedArray := tokens[0].IntoArray();
    if decodedArray.None? {
      return Err(BatchRequestError(ZERO_ADDRESS));
    }
    var entries := decodedArray.value;
    var pools: seq<UniswapV2Pool> := [];
    var idx := 0;
    while idx < |entries|
      invariant 0 <= idx <= |entries|
      invariant PoolsFromEntries(entries[..idx], pairAddresses, fee) == Ok(pools)
    {
      assert entries[..idx + 1][..idx] == entries[..idx];
      if idx >= |pairAddresses| {
        return Panic;
      }
      var pool := TokenToPool(entries[idx], pairAddresses[idx], fee);
      if !pool.Ok? {
        return Panic;
      }
      pools := pools + [pool.value];
      idx := idx + 1;
    }
    assert entries[..idx] == entries;
    r := Ok(pools);
  }

  /** The tuple token the pool-data contract returns for a pool. */
  function PoolEntry(pool: UniswapV2Pool): Token
  {
    Tuple(AmmBatchRequest.PoolFields(pool))
  }

  /** Decoding the contract's answer for pools that carry the requested
      addresses and fee gives those pools back, in order. */
  lemma PoolDataRoundTrip(pools: seq<UniswapV2Pool>, pairAddresses: seq<H160>, fee: U32)
    requires |pools| <= |pairAddresses|
    requires forall i | 0 <= i < |pools| :: pools[i].address == pairAddresses[i] && pools[i].fee == fee
    ensures PoolDataDecode(pairAddresses, fee,
      Decoded([Array(seq(|pools|, i requires 0 <= i < |pools| => PoolEntry(pools[i])))])) == Ok(pools)
  {
    var entries := seq(|pools|, i requires 0 <= i < |pools| => PoolEntry(pools[i]));
    forall i | 0 <= i < |entries|
      ensures TokenToPool(entries[i], pairAddresses[i], fee) == Ok(pools[i])
    {
      assert AmmBatchRequest.FieldKindsMatch(entries[i].fields);
    }
    var r := PoolsFromEntries(entries, pairAddresses, fee);
    assert r.Ok?;
    assert r.value == pools;
  }

  /** `get_uniswap_v2_pool_data_batch_request_single`: the first pool decoded
      for the one requested address, or a batch error naming it when none is. */
  function GetPoolDataBatchRequestSingle(poolAddress: H160, fee: U32, reply: CallReply): (r: Outcome<UniswapV2Pool>)
    ensures r.Ok? ==> r.value.address == poolAddress && r.value.fee == fee
    ensures PoolDataDecode([poolAddress], fee, reply).Ok? ==>
      if |PoolDataDecode([poolAddress], fee, reply).value| == 0 then r == Err(BatchRequestError(poolAddress))
      else r == Ok(PoolDataDecode([poolAddress], fee, reply).value[0])
    ensures !PoolDataDecode([poolAddress], fee, reply).Ok? ==>
      r == PoolDataDecode([poolAddress], fee, reply).PropagateFailure()
  {
    var pools :- PoolDataDecode([poolAddress], fee, reply);
    if |pools| > 0 then Ok(pools[0]) else Err(BatchRequestError(poolAddress))
  }

  /** A returned array with no entries gives the batch error for the requested address. */
  lemma SingleWithoutEntries(poolAddress: H160, fee: U32, laterTokens: seq<Token>)
    ensures GetPoolDataBatchRequestSingle(poolAddress, fee, Decoded([Array([])] + laterTokens))
         == Err(BatchRequestError(poolAddress))
  {
    assert ([Array([])] + laterTokens)[0] == Array([]);
  }

  // ---------------------------------------------------------------------------
  // WETH value of pools
  // ---------------------------------------------------------------------------

  /** The inner loop of `get_weth_value_in_pool_batch_request`: the `idx`-th
      uint entry is bound to `addresses[idx]`, other entries are skipped, and a
      uint entry without a matching address panics. */
  function InsertValues(values: map<H160, U256>, entries: seq<Token>, addresses: seq<H160>): (r: Outcome<map<H160, U256>>)
    ensures !r.Err?
    ensures r.Panic? <==> exists idx | 0 <= idx < |entries| :: entries[idx].Uint? && idx >= |addresses|
    ensures r.Ok? ==> forall k | k in r.value :: k in values || k in addresses
    decreases |entries|
  {
    if |entries| == 0 then Ok(values)
    else
      var n := |entries| - 1;
      var init :- InsertValues(values, entries[..n], addresses);
      match entries[n].IntoUint()
      case None => Ok(init)
      case Some(value) => if n >= |addresses| then Panic else Ok(init[addresses[n] := value])
  }

  /** The outer loop: every array of the returned tokens is inserted in turn,
      tokens that are not arrays are skipped. */
  function InsertArrays(tokens: seq<Token>, addresses: seq<H160>): (r: Outcome<map<H160, U256>>)
    ensures !r.Err?
    ensures r.Ok? ==> forall k | k in r.value :: k in addresses
    decreases |tokens|
  {
    if |tokens| == 0 then Ok(map[])
    else
      var n := |tokens| - 1;
      var init :- InsertArrays(tokens[..n], addresses);
      match tokens[n].IntoArray()
      case None => Ok(init)
      case Some(entries) => InsertValues(init, entries, addresses)
  }

  /** Once a prefix of the returned tokens panics, so does the whole decode. */
  lemma {:induction false} InsertArraysPanicSticks(tokens: seq<Token>, addresses: seq<H160>, t: nat)
    requires t <= |tokens| && InsertArrays(tokens[..t], addresses).Panic?
    ensures InsertArrays(tokens, addresses).Panic?
    decreases |tokens| - t
  {
    if t < |tokens| {
      assert tokens[..t + 1][..t] == tokens[..t];
      InsertArraysPanicSticks(tokens, addresses, t + 1);
    } else {
      assert tokens[..t] == tokens;
    }
  }

  /** `get_weth_value_in_pool_batch_request` after the chain call: a failed call
      is reported as out of gas for exactly the requested addresses. */
  function WethValueDecode(addresses: seq<H160>, reply: CallReply): (r: Outcome<map<H160, U256>>)
    ensures reply.DeployFailed? ==> r == Err(ContractError)
    ensures reply.CallFailed? ==> r == Err(OutOfGasError(addresses))
    ensures reply.DecodeFailed? ==> r == Err(EthAbiError)
    ensures reply.Decoded? ==> r == InsertArrays(reply.tokens, addresses)
    ensures r.Ok? ==> forall k | k in r.value :: k in addresses
  {
    match reply
    case DeployFailed => Err(ContractError)
    case CallFailed => Err(OutOfGasError(addresses))
    case DecodeFailed => Err(EthAbiError)
    case Decoded(tokens) => InsertArrays(tokens, addresses)
  }

  /** The WETH-value request for one chunk as the source runs it, inserting
      into the map in two nested loops. */
  method GetWethValueInPoolBatchRequest(addresses: seq<H160>, reply: CallReply)
    returns (r: Outcome<map<H160, U256>>)
    ensures r == WethValueDecode(addresses, reply)
  {
    match reply {
      case DeployFailed => return Err(ContractError);
      case CallFailed => return Err(OutOfGasError(addresses));
      case DecodeFailed => return Err(EthAbiError);
      case Decoded(tokens) =>
        var values: map<H160, U256> := map[];
        var t := 0;
        while t < |tokens|
          invariant 0 <= t <= |tokens|
          invariant InsertArrays(tokens[..t], addresses) == Ok(values)
        {
          assert tokens[..t + 1][..t] == tokens[..t];
          var decodedArray := tokens[t].IntoArray();
          if decodedArray.Some? {
            var entries := decodedArray.value;
            var before := values;
            var idx := 0;
            while idx < |entries|
              invariant 0 <= idx <= |entries|
              invariant InsertValues(before, entries[..idx], addresses) == Ok(values)
            {
              assert entries[..idx + 1][..idx] == entries[..idx];
              match entries[idx].IntoUint() {
                case Some(value) =>
                  if idx >= |addresses| {
                    assert InsertValues(before, entries, addresses).Panic?;
                    InsertArraysPanicSticks(tokens, addresses, t + 1);
                    return Panic;
                  }
                  values := values[addresses[idx] := value];
                case None =>
              }
              idx := idx + 1;
            }
            assert entries[..idx] == entries;
          }
          t := t + 1;
        }
        assert tokens[..t] == tokens;
        return Ok(values);
    }
  }

  /** With distinct addresses and one uint per address, the decode binds each
      address to the value at its position. */
  lemma {:induction false} InsertValuesBindsPositionally(values: map<H160, U256>, addresses: seq<H160>, amounts: seq<U256>)
    requires |amounts| <= |addresses|
    requires forall i, j | 0 <= i < j < |addresses| :: addresses[i] != addresses[j]
    ensures var r := InsertValues(values, seq(|amounts|, i requires 0 <= i < |amounts| => Uint(amounts[i])), addresses);
      r.Ok? && forall i | 0 <= i < |amounts| :: addresses[i] in r.value && r.value[addresses[i]] == amounts[i]
    decreases |amounts|
  {
    var entries := seq(|amounts|, i requires 0 <= i < |amounts| => Uint(amounts[i]));
    if |amounts| > 0 {
      var n := |amounts| - 1;
      var init := amounts[..n];
      assert entries[..n] == seq(|init|, i requires 0 <= i < |init| => Uint(init[i]));
      InsertValuesBindsPositionally(values, addresses, init);
      var before := InsertValues(values, entries[..n], addresses).value;
      assert InsertValues(values, entries, addresses) == Ok(before[addresses[n] := amounts[n]]);
      forall i | 0 <= i < |amounts|
        ensures addresses[i] in before[addresses[n] := amounts[n]]
        ensures before[addresses[n] := amounts[n]][addresses[i]] == amounts[i]
      {
        if i < n {
          assert init[i] == amounts[i];
          assert addresses[i] != addresses[n];
        }
      }
    }
  }

  /** The addresses bound by position: `addresses[idx]` for every uint entry
      `entries[idx]` that has an address. */
  function BoundAddresses(entries: seq<Token>, addresses: seq<H160>): set<H160>
  {
    set idx | 0 <= idx < |entries| && idx < |addresses| && entries[idx].Uint? :: addresses[idx]
  }

  /** Without a panic, the keys are the old keys and the addresses at the
      positions of the uint entries; a position holding any other entry adds nothing. */
  lemma {:induction false} InsertValuesKeys(values: map<H160, U256>, entries: seq<Token>, addresses: seq<H160>)
    ensures var r := InsertValues(values, entries, addresses);
      r.Ok? ==> r.value.Keys == values.Keys + BoundAddresses(entries, addresses)
    decreases |entries|
  {
    if |entries| > 0 {
      var n := |entries| - 1;
      InsertValuesKeys(values, entries[..n], addresses);
      var r := InsertValues(values, entries, addresses);
      if r.Ok? {
        var before := BoundAddresses(entries[..n], addresses);
        var after := BoundAddresses(entries, addresses);
        assert forall idx | 0 <= idx < n :: entries[..n][idx] == entries[idx];
        if entries[n].Uint? {
          assert after == before + {addresses[n]};
        } else {
          assert after == before;
        }
      }
    }
  }

  /** The uint entry at `idx` decides the value of `addresses[idx]` unless a
      later uint entry binds the same address. */
  lemma {:induction false} InsertValuesLastWins(values: map<H160, U256>, entries: seq<Token>, addresses: seq<H160>, idx: nat)
    requires idx < |entries| && idx < |addresses| && entries[idx].Uint?
    requires forall l | idx < l < |entries| && l < |addresses| && entries[l].Uint? :: addresses[l] != addresses[idx]
    ensures var r := InsertValues(values, entries, addresses);
      r.Ok? ==> addresses[idx] in r.value && r.value[addresses[idx]] == entries[idx].value
    decreases |entries|
  {
    var n := |entries| - 1;
    if idx < n {
      InsertValuesLastWins(values, entries[..n], addresses, idx);
    }
  }

  /** An address that no uint entry binds keeps its old value, or stays absent. */
  lemma {:induction false} InsertValuesKeepsUnbound(values: map<H160, U256>, entries: seq<Token>, addresses: seq<H160>, k: H160)
    requires forall l | 0 <= l < |entries| && l < |addresses| && entries[l].Uint? :: addresses[l] != k
    ensures var r := InsertValues(values, entries, addresses);
      r.Ok? ==> (k in r.value <==> k in values) && (k in values ==> r.value[k] == values[k])
    decreases |entries|
  {
    if |entries| > 0 {
      InsertValuesKeepsUnbound(values, entries[..|entries| - 1], addresses, k);
    }
  }

  // The chunked request over all addresses.

  /** `step.unwrap_or(100)`. */
  function EffectiveStep(step: Option<U64>): (r: U64)
    ensures step.None? ==> r == 100
    ensures step.Some? ==> r == step.value
  {
    match step
    case None => 100
    case Some(s) => s
  }

  /** The chunks `addresses[i..min(i + step, len)]` of the `step_by` loop. */
  function Chunks(addresses: seq<H160>, step: nat): (r: seq<seq<H160>>)
    requires step > 0
  {
    StepWindowsShape(0, |addresses|, step);
    Slices(addresses, StepWindows(0, |addresses|, step))
  }

  /** The chunks are consecutive, each of one to `step` addresses, and together
      they hold every address exactly once, in order. */
  lemma ChunksPartition(addresses: seq<H160>, step: nat)
    requires step > 0
    ensures Flatten(Chunks(addresses, step)) == addresses
    ensures forall k | 0 <= k < |Chunks(addresses, step)| :: 1 <= |Chunks(addresses, step)[k]| <= step
  {
    ChunksCover(addresses, 0, step);
    forall k | 0 <= k < |Chunks(addresses, step)|
      ensures 1 <= |Chunks(addresses, step)[k]| <= step
    {
      ChunkSize(addresses, step, k);
    }
  }

  lemma ChunkSize(addresses: seq<H160>, step: nat, k: nat)
    requires step > 0 && k < |Chunks(addresses, step)|
    ensures 1 <= |Chunks(addresses, step)[k]| <= step
  {
    var ws := StepWindows(0, |addresses|, step);
    StepWindowsShape(0, |addresses|, step);
    var w := ws[k];
    StepWindowAt(0, |addresses|, step, k);
    SlicesAt(addresses, ws, k);
    assert Chunks(addresses, step)[k] == addresses[w.from..w.to];
  }

  lemma {:induction false} SlicesAt<T>(s: seq<T>, ws: seq<Window>, k: nat)
    requires WindowsWithin(ws, |s|)
    requires k < |ws|
    ensures Slices(s, ws)[k] == s[ws[k].from..ws[k].to]
    decreases k
  {
    if k > 0 {
      SlicesAt(s, ws[1..], k - 1);
    }
  }

  /** The reply of every chunk request, in chunk order (what `join_all` returns). */
  function ChunkResults(chunks: seq<seq<H160>>, weth: H160, factory: H160, chain: Chain): (r: seq<Outcome<map<H160, U256>>>)
    ensures |r| == |chunks|
    ensures forall k | 0 <= k < |chunks| :: r[k] == WethValueDecode(chunks[k], chain.wethReply(chunks[k], weth, factory))
  {
    seq(|chunks|, k requires 0 <= k < |chunks| => WethValueDecode(chunks[k], chain.wethReply(chunks[k], weth, factory)))
  }

  /** The values found so far and the addresses of the chunks that ran out of gas. */
  datatype Merged = Merged(values: map<H160, U256>, failed: seq<H160>)

  /** Every key of the map results, wherever they stand. */
  function BatchKeys(results: seq<Outcome<map<H160, U256>>>): set<H160>
    decreases |results|
  {
    if |results| == 0 then {}
    else
      var last := results[|results| - 1];
      BatchKeys(results[..|results| - 1]) + (if last.Ok? then last.value.Keys else {})
  }

  /** The payloads of the out-of-gas errors among the results, in order. */
  function OutOfGasAddresses(results: seq<Outcome<map<H160, U256>>>): seq<H160>
    decreases |results|
  {
    if |results| == 0 then []
    else
      var last := results[|results| - 1];
      OutOfGasAddresses(results[..|results| - 1])
        + (if last.Err? && last.error.OutOfGasError? then last.error.addresses else [])
  }

  /** The first merge loop: a map result extends the values, an out-of-gas
      error queues its addresses for the retry, any other error aborts. */
  function MergeChunks(results: seq<Outcome<map<H160, U256>>>): (r: Outcome<Merged>)
    ensures r.Ok? <==> forall i | 0 <= i < |results| :: results[i].Ok? || (results[i].Err? && results[i].error.OutOfGasError?)
    ensures r.Ok? ==> r.value.failed == OutOfGasAddresses(results) && r.value.values.Keys == BatchKeys(results)
    decreases |results|
  {
    if |results| == 0 then Ok(Merged(map[], []))
    else
      var merged :- MergeChunks(results[..|results| - 1]);
      match results[|results| - 1]
      case Ok(batch) => Ok(Merged(merged.values + batch, merged.failed))
      case Err(error) =>
        if error.OutOfGasError? then Ok(Merged(merged.values, merged.failed + error.addresses))
        else Err(error)
      case Panic => Panic
  }

  /** Once a prefix of the results fails the merge, the whole merge fails the same way. */
  lemma {:induction false} MergeChunksFailureSticks(results: seq<Outcome<map<H160, U256>>>, j: nat)
    requires j <= |results| && !MergeChunks(results[..j]).Ok?
    ensures MergeChunks(results) == MergeChunks(results[..j])
    decreases |results| - j
  {
    if j < |results| {
      assert results[..j + 1][..j] == results[..j];
      MergeChunksFailureSticks(results, j + 1);
    } else {
      assert results[..j] == results;
    }
  }

  /** If every map result and every out-of-gas payload stays within `bound`,
      so do the merged keys and the queued addresses. */
  lemma {:induction false} MergeChunksWithin(results: seq<Outcome<map<H160, U256>>>, bound: set<H160>)
    requires forall i | 0 <= i < |results| :: results[i].Ok? ==> results[i].value.Keys <= bound
    requires forall i | 0 <= i < |results| :: results[i].Err? && results[i].error.OutOfGasError? ==>
      forall a | a in results[i].error.addresses :: a in bound
    ensures MergeChunks(results).Ok? ==>
      MergeChunks(results).value.values.Keys <= bound && forall a | a in MergeChunks(results).value.failed :: a in bound
    decreases |results|
  {
    if |results| > 0 {
      MergeChunksWithin(results[..|results| - 1], bound);
    }
  }

  /** When every chunk runs out of gas, every address is queued for the retry, in order. */
  lemma {:induction false} AllOutOfGasQueuesChunks(chunks: seq<seq<H160>>, results: seq<Outcome<map<H160, U256>>>)
    requires |results| == |chunks|
    requires forall k | 0 <= k < |chunks| :: results[k] == Err(OutOfGasError(chunks[k]))
    ensures MergeChunks(results) == Ok(Merged(map[], FlattenBack(chunks)))
    decreases |chunks|
  {
    if |chunks| > 0 {
      AllOutOfGasQueuesChunks(chunks[..|chunks| - 1], results[..|results| - 1]);
    }
  }

  /** A key takes its value from the last map result that binds it. */
  lemma {:induction false} MergeChunksLastWins(results: seq<Outcome<map<H160, U256>>>, j: nat, a: H160)
    requires j < |results| && results[j].Ok? && a in results[j].value
    requires forall l | j < l < |results| :: results[l].Ok? ==> a !in results[l].value
    ensures MergeChunks(results).Ok? ==>
      a in MergeChunks(results).value.values && MergeChunks(results).value.values[a] == results[j].value[a]
    decreases |results|
  {
    if j < |results| - 1 {
      MergeChunksLastWins(results[..|results| - 1], j, a);
    }
  }

  /** The single-address requests of the retry pass, in queue order. */
  function RetryResults(failed: seq<H160>, weth: H160, factory: H160, chain: Chain): (r: seq<Outcome<map<H160, U256>>>)
    ensures |r| == |failed|
    ensures forall i | 0 <= i < |failed| :: r[i] == WethValueDecode([failed[i]], chain.wethReply([failed[i]], weth, factory))
  {
    seq(|failed|, i requires 0 <= i < |failed| => WethValueDecode([failed[i]], chain.wethReply([failed[i]], weth, factory)))
  }

  /** The second merge loop: every retry result extends the values, any error aborts. */
  function MergeRetries(values: map<H160, U256>, results: seq<Outcome<map<H160, U256>>>): (r: Outcome<map<H160, U256>>)
    ensures r.Ok? <==> forall i | 0 <= i < |results| :: results[i].Ok?
    ensures r.Ok? ==> r.value.Keys == values.Keys + BatchKeys(results)
    decreases |results|
  {
    if |results| == 0 then Ok(values)
    else
      var merged :- MergeRetries(values, results[..|results| - 1]);
      var batch :- results[|results| - 1];
      Ok(merged + batch)
  }

  lemma {:induction false} MergeRetriesWithin(values: map<H160, U256>, results: seq<Outcome<map<H160, U256>>>, bound: set<H160>)
    requires values.Keys <= bound
    requires forall i | 0 <= i < |results| :: results[i].Ok? ==> results[i].value.Keys <= bound
    ensures MergeRetries(values, results).Ok? ==> MergeRetries(values, results).value.Keys <= bound
    decreases |results|
  {
    if |results| > 0 {
      MergeRetriesWithin(values, results[..|results| - 1], bound);
    }
  }

  lemma {:induction false} MergeRetriesFailureSticks(values: map<H160, U256>, results: seq<Outcome<map<H160, U256>>>, j: nat)
    requires j <= |results| && !MergeRetries(values, results[..j]).Ok?
    ensures MergeRetries(values, results) == MergeRetries(values, results[..j])
    decreases |results| - j
  {
    if j < |results| {
      assert results[..j + 1][..j] == results[..j];
      MergeRetriesFailureSticks(values, results, j + 1);
    } else {
      assert results[..j] == results;
    }
  }

  /** A retry value overrides the earlier one: a key takes its value from
      the last retry that binds it. */
  lemma {:induction false} MergeRetriesLastWins(values: map<H160, U256>, results: seq<Outcome<map<H160, U256>>>, j: nat, a: H160)
    requires j < |results| && results[j].Ok? && a in results[j].value
    requires forall l | j < l < |results| :: results[l].Ok? ==> a !in results[l].value
    ensures MergeRetries(values, results).Ok? ==>
      a in MergeRetries(values, results).value && MergeRetries(values, results).value[a] == results[j].value[a]
    decreases |results|
  {
    if j < |results| - 1 {
      MergeRetriesLastWins(values, results[..|results| - 1], j, a);
    }
  }

  /** A key that no retry binds keeps its earlier value. */
  lemma {:induction false} MergeRetriesKeepsUnbound(values: map<H160, U256>, results: seq<Outcome<map<H160, U256>>>, a: H160)
    requires a in values
    requires forall l | 0 <= l < |results| :: results[l].Ok? ==> a !in results[l].value
    ensures MergeRetries(values, results).Ok? ==>
      a in MergeRetries(values, results).value && MergeRetries(values, results).value[a] == values[a]
    decreases |results|
  {
    if |results| > 0 {
      MergeRetriesKeepsUnbound(values, results[..|results| - 1], a);
    }
  }

  /** `get_weth_value_in_pools`: `step_by(0)` panics; a panicking request
      brings the whole call down; otherwise the chunk results are merged, the
      addresses of out-of-gas chunks are asked for one at a time, and those
      results are merged on top. */
  function WethValuesInPools(addresses: seq<H160>, weth: H160, factory: H160, step: Option<U64>, chain: Chain): (r: Outcome<map<H160, U256>>)
  {
    var s := EffectiveStep(step);
    if s == 0 then Panic
    else
      var results := ChunkResults(Chunks(addresses, s), weth, factory, chain);
      if AnyPanic(results) then Panic
      else
        var merged :- MergeChunks(results);
        var retries := RetryResults(merged.failed, weth, factory, chain);
        if AnyPanic(retries) then Panic else MergeRetries(merged.values, retries)
  }

  /** Every key of the final map is one of the requested addresses. */
  lemma WethValuesWithinAddresses(addresses: seq<H160>, weth: H160, factory: H160, step: Option<U64>, chain: Chain)
    ensures var r := WethValuesInPools(addresses, weth, factory, step, chain);
      r.Ok? ==> forall k | k in r.value :: k in addresses
  {
    var s := EffectiveStep(step);
    if s > 0 {
      var bound := set a | a in addresses;
      var chunks := Chunks(addresses, s);
      var results := ChunkResults(chunks, weth, factory, chain);
      ChunksWithin(addresses, s, bound);
      MergeChunksWithin(results, bound);
      var merged := MergeChunks(results);
      if merged.Ok? {
        MergeRetriesWithin(merged.value.values, RetryResults(merged.value.failed, weth, factory, chain), bound);
      }
    }
  }

  /** The addresses of the chunks whose call fails, in chunk order. */
  function FailedChunkAddresses(chunks: seq<seq<H160>>, weth: H160, factory: H160, chain: Chain): seq<H160>
    decreases |chunks|
  {
    if |chunks| == 0 then []
    else
      var last := chunks[|chunks| - 1];
      FailedChunkAddresses(chunks[..|chunks| - 1], weth, factory, chain)
        + (if chain.wethReply(last, weth, factory).CallFailed? then last else [])
  }

  /** Only a failed call yields an out-of-gas error, and its payload is the chunk. */
  lemma {:induction false} OutOfGasAreFailedChunks(chunks: seq<seq<H160>>, weth: H160, factory: H160, chain: Chain)
    ensures OutOfGasAddresses(ChunkResults(chunks, weth, factory, chain)) == FailedChunkAddresses(chunks, weth, factory, chain)
    decreases |chunks|
  {
    if |chunks| > 0 {
      var n := |chunks| - 1;
      var results := ChunkResults(chunks, weth, factory, chain);
      OutOfGasAreFailedChunks(chunks[..n], weth, factory, chain);
      assert results[..n] == ChunkResults(chunks[..n], weth, factory, chain);
    }
  }

  /** The retry pass asks, one address per call, for exactly the addresses of
      the chunks whose call failed, in chunk order. */
  lemma WethValuesRetryQueue(addresses: seq<H160>, weth: H160, factory: H160, step: nat, chain: Chain)
    requires step > 0
    ensures var results := ChunkResults(Chunks(addresses, step), weth, factory, chain);
      MergeChunks(results).Ok? ==> MergeChunks(results).value.failed == FailedChunkAddresses(Chunks(addresses, step), weth, factory, chain)
  {
    OutOfGasAreFailedChunks(Chunks(addresses, step), weth, factory, chain);
  }

  /** The final map holds exactly the keys fetched by the successful chunk
      requests and by the successful retries. */
  lemma WethValuesKeys(addresses: seq<H160>, weth: H160, factory: H160, step: Option<U64>, chain: Chain)
    requires EffectiveStep(step) > 0
    ensures var results := ChunkResults(Chunks(addresses, EffectiveStep(step)), weth, factory, chain);
      var r := WethValuesInPools(addresses, weth, factory, step, chain);
      r.Ok? ==> (MergeChunks(results).Ok?
                 && r.value.Keys == BatchKeys(results) + BatchKeys(RetryResults(MergeChunks(results).value.failed, weth, factory, chain)))
  {
  }

  /** A value fetched by a retry reaches the final map, unless a later retry
      of the same address replaces it. */
  lemma WethValuesRetryWins(addresses: seq<H160>, weth: H160, factory: H160, step: Option<U64>, chain: Chain, i: nat, a: H160)
    requires EffectiveStep(step) > 0
    requires var results := ChunkResults(Chunks(addresses, EffectiveStep(step)), weth, factory, chain);
      MergeChunks(results).Ok? &&
      var retries := RetryResults(MergeChunks(results).value.failed, weth, factory, chain);
      i < |retries| && retries[i].Ok? && a in retries[i].value
      && forall l | i < l < |retries| :: retries[l].Ok? ==> a !in retries[l].value
    ensures var results := ChunkResults(Chunks(addresses, EffectiveStep(step)), weth, factory, chain);
      var retries := RetryResults(MergeChunks(results).value.failed, weth, factory, chain);
      var r := WethValuesInPools(addresses, weth, factory, step, chain);
      r.Ok? ==> a in r.value && r.value[a] == retries[i].value[a]
  {
    var results := ChunkResults(Chunks(addresses, EffectiveStep(step)), weth, factory, chain);
    MergeRetriesLastWins(MergeChunks(results).value.values, RetryResults(MergeChunks(results).value.failed, weth, factory, chain), i, a);
  }

  /** A value fetched by a chunk request reaches the final map when no later
      chunk binds the address and the address is not queued for a retry. */
  lemma WethValuesChunkKept(addresses: seq<H160>, weth: H160, factory: H160, step: Option<U64>, chain: Chain, k: nat, a: H160)
    requires EffectiveStep(step) > 0
    requires var results := ChunkResults(Chunks(addresses, EffectiveStep(step)), weth, factory, chain);
      k < |results| && results[k].Ok? && a in results[k].value
      && forall l | k < l < |results| :: results[l].Ok? ==> a !in results[l].value
    requires a !in FailedChunkAddresses(Chunks(addresses, EffectiveStep(step)), weth, factory, chain)
    ensures var results := ChunkResults(Chunks(addresses, EffectiveStep(step)), weth, factory, chain);
      var r := WethValuesInPools(addresses, weth, factory, step, chain);
      r.Ok? ==> a in r.value && r.value[a] == results[k].value[a]
  {
    var s := EffectiveStep(step);
    var results := ChunkResults(Chunks(addresses, s), weth, factory, chain);
    MergeChunksLastWins(results, k, a);
    if MergeChunks(results).Ok? {
      var merged := MergeChunks(results).value;
      WethValuesRetryQueue(addresses, weth, factory, s, chain);
      var retries := RetryResults(merged.failed, weth, factory, chain);
      forall l | 0 <= l < |retries| && retries[l].Ok?
        ensures a !in retries[l].value
      {
        assert merged.failed[l] in merged.failed;
      }
      MergeRetriesKeepsUnbound(merged.values, retries, a);
    }
  }

  /** Every chunk holds only requested addresses. */
  lemma ChunksWithin(addresses: seq<H160>, step: nat, bound: set<H160>)
    requires step > 0 && bound == set a | a in addresses
    ensures forall k | 0 <= k < |Chunks(addresses, step)| :: forall a | a in Chunks(addresses, step)[k] :: a in bound
  {
    var chunks := Chunks(addresses, step);
    ChunksPartition(addresses, step);
    forall k | 0 <= k < |chunks|
      ensures forall a | a in chunks[k] :: a in bound
    {
      FlattenContains(chunks, k);
    }
  }

  /** Every element of a part is an element of the flattened sequence. */
  lemma {:induction false} FlattenContains<T>(parts: seq<seq<T>>, k: nat)
    requires k < |parts|
    ensures forall a | a in parts[k] :: a in Flatten(parts)
    decreases k
  {
    if k > 0 {
      FlattenContains(parts[1..], k - 1);
    }
  }

  /** When every chunk request runs out of gas, the retry pass asks for every
      address on its own, in the order of `addresses`. */
  lemma AllOutOfGasRetriesEveryAddress(addresses: seq<H160>, weth: H160, factory: H160, step: nat, chain: Chain)
    requires step > 0
    requires forall k | 0 <= k < |Chunks(addresses, step)| ::
      chain.wethReply(Chunks(addresses, step)[k], weth, factory) == CallFailed
    ensures MergeChunks(ChunkResults(Chunks(addresses, step), weth, factory, chain)) == Ok(Merged(map[], addresses))
  {
    var chunks := Chunks(addresses, step);
    AllOutOfGasQueuesChunks(chunks, ChunkResults(chunks, weth, factory, chain));
    FlattenBackIsFlatten(chunks);
    ChunksPartition(addresses, step);
  }

  /** The first loop of `get_weth_value_in_pools`: one request per chunk, in order. */
  method RequestChunks(addresses: seq<H160>, weth: H160, factory: H160, step: nat, chain: Chain)
    returns (results: seq<Outcome<map<H160, U256>>>)
    requires step > 0
    ensures results == ChunkResults(Chunks(addresses, step), weth, factory, chain)
  {
    ghost var done: seq<Window> := [];
    results := [];
    var i: nat := 0;
    LoopStart(0, |addresses|, step);
    while i < |addresses|
      invariant LoopAt(0, |addresses|, step, done, i)
      invariant WindowsWithin(done, |addresses|)
      invariant results == ChunkResults(Slices(addresses, done), weth, factory, chain)
      decreases |addresses| - i
    {
      var cut := Min(i + step, |addresses|);
      var chunk := addresses[i..cut];
      var result := GetWethValueInPoolBatchRequest(chunk, chain.wethReply(chunk, weth, factory));
      ChunksAdvance(addresses, weth, factory, step, chain, done, i, results, result);
      done := done + [Window(i, cut)];
      results := results + [result];
      i := i + step;
    }
    LoopEnd(0, |addresses|, step, done, i);
  }

  /** One step of the chunk loop. */
  lemma ChunksAdvance(addresses: seq<H160>, weth: H160, factory: H160, step: nat, chain: Chain,
                      done: seq<Window>, i: nat, results: seq<Outcome<map<H160, U256>>>, result: Outcome<map<H160, U256>>)
    requires step > 0 && i < |addresses|
    requires LoopAt(0, |addresses|, step, done, i) && WindowsWithin(done, |addresses|)
    requires results == ChunkResults(Slices(addresses, done), weth, factory, chain)
    requires var chunk := addresses[i..Min(i + step, |addresses|)];
      result == WethValueDecode(chunk, chain.wethReply(chunk, weth, factory))
    ensures LoopAt(0, |addresses|, step, done + [Window(i, Min(i + step, |addresses|))], i + step)
    ensures WindowsWithin(done + [Window(i, Min(i + step, |addresses|))], |addresses|)
    ensures results + [result] == ChunkResults(Slices(addresses, done + [Window(i, Min(i + step, |addresses|))]), weth, factory, chain)
  {
    var w := Window(i, Min(i + step, |addresses|));
    LoopAdvance(0, |addresses|, step, done, i);
    SlicesAppend(addresses, done, w);
    WindowsWithinAppend(done, w, |addresses|);
    ChunkResultsAppend(Slices(addresses, done), addresses[w.from..w.to], weth, factory, chain);
  }

  lemma ChunkResultsAppend(chunks: seq<seq<H160>>, chunk: seq<H160>, weth: H160, factory: H160, chain: Chain)
    ensures ChunkResults(chunks + [chunk], weth, factory, chain)
      == ChunkResults(chunks, weth, factory, chain) + [WethValueDecode(chunk, chain.wethReply(chunk, weth, factory))]
  {
    assert (chunks + [chunk])[|chunks|] == chunk;
  }

  lemma {:induction false} SlicesAppend<T>(s: seq<T>, ws: seq<Window>, w: Window)
    requires WindowsWithin(ws, |s|)
    requires w.from <= w.to <= |s|
    ensures Slices(s, ws + [w]) == Slices(s, ws) + [s[w.from..w.to]]
    decreases |ws|
  {
    if |ws| > 0 {
      assert (ws + [w])[1..] == ws[1..] + [w];
      SlicesAppend(s, ws[1..], w);
    } else {
      assert ws + [w] == [w];
    }
  }

  /** The first merge loop as the source runs it. */
  method MergeChunkResults(results: seq<Outcome<map<H160, U256>>>) returns (r: Outcome<Merged>)
    ensures r == MergeChunks(results)
  {
    var values: map<H160, U256> := map[];
    var failed: seq<H160> := [];
    var j := 0;
    while j < |results|
      invariant 0 <= j <= |results|
      invariant MergeChunks(results[..j]) == Ok(Merged(values, failed))
    {
      assert results[..j + 1][..j] == results[..j];
      match results[j] {
        case Ok(batch) =>
          values := values + batch;
        case Err(error) =>
          if error.OutOfGasError? {
            failed := failed + error.addresses;
          } else {
            MergeChunksFailureSticks(results, j + 1);
            return Err(error);
          }
        case Panic =>
          MergeChunksFailureSticks(results, j + 1);
          return Panic;
      }
      j := j + 1;
    }
    assert results[..j] == results;
    r := Ok(Merged(values, failed));
  }

  /** The second loop of `get_weth_value_in_pools`: one request per queued address. */
  method RequestRetries(failed: seq<H160>, weth: H160, factory: H160, chain: Chain)
    returns (retries: seq<Outcome<map<H160, U256>>>)
    ensures retries == RetryResults(failed, weth, factory, chain)
  {
    retries := [];
    var i := 0;
    while i < |failed|
      invariant 0 <= i <= |failed|
      invariant retries == RetryResults(failed[..i], weth, factory, chain)
    {
      var address := failed[i];
      var result := GetWethValueInPoolBatchRequest([address], chain.wethReply([address], weth, factory));
      assert failed[..i + 1] == failed[..i] + [address];
      retries := retries + [result];
      i := i + 1;
    }
    assert failed[..i] == failed;
  }

  /** The merge of the retry results as the source runs it. */
  method MergeRetryResults(values: map<H160, U256>, retries: seq<Outcome<map<H160, U256>>>)
    returns (r: Outcome<map<H160, U256>>)
    ensures r == MergeRetries(values, retries)
  {
    var merged := values;
    var j := 0;
    while j < |retries|
      invariant 0 <= j <= |retries|
      invariant MergeRetries(values, retries[..j]) == Ok(merged)
    {
      assert retries[..j + 1][..j] == retries[..j];
      match retries[j] {
        case Ok(batch) =>
          merged := merged + batch;
        case Err(error) =>
          MergeRetriesFailureSticks(values, retries, j + 1);
          return Err(error);
        case Panic =>
          MergeRetriesFailureSticks(values, retries, j + 1);
          return Panic;
      }
      j := j + 1;
    }
    assert retries[..j] == retries;
    r := Ok(merged);
  }

  /** `get_weth_value_in_pools`, keeping only requested addresses as keys. */
  method GetWethValueInPools(addresses: seq<H160>, weth: H160, factory: H160, step: Option<U64>, chain: Chain)
    returns (r: Outcome<map<H160, U256>>)
    ensures r == WethValuesInPools(addresses, weth, factory, step, chain)
    ensures r.Ok? ==> forall k | k in r.value :: k in addresses
  {
    WethValuesWithinAddresses(addresses, weth, factory, step, chain);
    var s := EffectiveStep(step);
    if s == 0 {
      return Panic;
    }
    var results := RequestChunks(addresses, weth, factory, s, chain);
    if AnyPanic(results) {
      return Panic;
    }
    var merged := MergeChunkResults(results);
    if !merged.Ok? {
      return merged.PropagateFailure();
    }
    var retries := RequestRetries(merged.value.failed, weth, factory, chain);
    if AnyPanic(retries) {
      return Panic;
    }
    r := MergeRetryResults(merged.value.values, retries);
  }
}
