/** The `uniswap_v2` factory: discovering pools either from `PairCreated`
    logs over block windows or from the factory's pair index over index
    windows, with the pool data fetched per window and the windows run
    concurrently and merged in order. */
module Factory {
  import opened Common
  import opened Windows
  import opened PoolModel
  import AmmBatchRequest
  import BatchRequest

  // ---------------------------------------------------------------------------
  // One window of logs
  // ---------------------------------------------------------------------------

  /** The pair address of each `PairCreated` log, in log order; a log that does
      not decode as the event is an ABI error. */
  function PairAddressesOfLogs(logs: seq<RawLog>): (r: Outcome<seq<H160>>)
    ensures r.Ok? <==> forall i | 0 <= i < |logs| :: logs[i].PairCreatedLog?
    ensures !r.Ok? ==> r == Err(EthAbiError)
    ensures r.Ok? ==> |r.value| == |logs| && forall i | 0 <= i < |logs| :: r.value[i] == logs[i].pair
    decreases |logs|
  {
    if |logs| == 0 then Ok([])
    else
      var front :- PairAddressesOfLogs(logs[..|logs| - 1]);
      match logs[|logs| - 1]
      case UndecodableLog => Err(EthAbiError)
      case PairCreatedLog(_, _, pair, _) => Ok(front + [pair])
  }

  /** `get_pool_addresses_from_logs_range`: a failed log query is a middleware error. */
  function PoolAddressesFromLogsRange(factory: UniswapV2Factory, start: U64, end: U64, chain: Chain): (r: Outcome<seq<H160>>)
  {
    match chain.logs(factory.address, start, end)
    case None => Err(MiddlewareError)
    case Some(logs) => PairAddressesOfLogs(logs)
  }

  /** The addresses are the pairs of the logs the factory emitted in the block
      range, one per log; the call never panics. */
  lemma PoolAddressesFromLogsRangeMeaning(factory: UniswapV2Factory, start: U64, end: U64, chain: Chain)
    ensures var r := PoolAddressesFromLogsRange(factory, start, end, chain);
      && !r.Panic?
      && (chain.logs(factory.address, start, end).None? ==> r == Err(MiddlewareError))
      && (r.Ok? ==>
            && chain.logs(factory.address, start, end).Some?
            && |r.value| == |chain.logs(factory.address, start, end).value|
            && forall i | 0 <= i < |r.value| :: r.value[i] == chain.logs(factory.address, start, end).value[i].pair)
  {
  }

  /** The log loop as the source runs it, stopping at the first log that does not decode. */
  method GetPoolAddressesFromLogsRange(factory: UniswapV2Factory, start: U64, end: U64, chain: Chain)
    returns (r: Outcome<seq<H160>>)
    ensures r == PoolAddressesFromLogsRange(factory, start, end, chain)
  {
    var reply := chain.logs(factory.address, start, end);
    if reply.None? {
      return Err(MiddlewareError);
    }
    var logs := reply.value;
    var addresses: seq<H160> := [];
    var j: nat := 0;
    while j < |logs|
      invariant j <= |logs|
      invariant PairAddressesOfLogs(logs[..j]) == Ok(addresses)
    {
      assert logs[..j + 1][..j] == logs[..j];
      match logs[j] {
        case UndecodableLog =>
          return Err(EthAbiError);
        case PairCreatedLog(_, _, pair, _) =>
          addresses := addresses + [pair];
      }
      j := j + 1;
    }
    assert logs[..j] == logs;
    r := Ok(addresses);
  }

  /** `get_pools_from_logs_range`: the pair addresses, then their pool data. */
  function PoolsFromLogsRange(factory: UniswapV2Factory, start: U64, end: U64, chain: Chain): Outcome<seq<UniswapV2Pool>>
  {
    var addresses :- PoolAddressesFromLogsRange(factory, start, end, chain);
    BatchRequest.PoolDataDecode(addresses, factory.fee, chain.poolDataReply(addresses))
  }

  method GetPoolsFromLogsRange(factory: UniswapV2Factory, start: U64, end: U64, chain: Chain)
    returns (r: Outcome<seq<UniswapV2Pool>>)
    ensures r == PoolsFromLogsRange(factory, start, end, chain)
  {
    var addresses := GetPoolAddressesFromLogsRange(factory, start, end, chain);
    if !addresses.Ok? {
      return addresses.PropagateFailure();
    }
    r := BatchRequest.GetPoolDataBatchRequest(addresses.value, factory.fee, chain.poolDataReply(addresses.value));
  }

  /** Each pool of a log window is the pair of the log at the same position
      and carries the factory's fee. */
  lemma PoolsFromLogsRangeTagged(factory: UniswapV2Factory, start: U64, end: U64, chain: Chain)
    ensures var r := PoolsFromLogsRange(factory, start, end, chain);
      r.Ok? ==>
        && chain.logs(factory.address, start, end).Some?
        && |r.value| <= |chain.logs(factory.address, start, end).value|
        && forall i | 0 <= i < |r.value| ::
             r.value[i].address == chain.logs(factory.address, start, end).value[i].pair && r.value[i].fee == factory.fee
  {
  }

  // ---------------------------------------------------------------------------
  // One window of the pair index
  // ---------------------------------------------------------------------------

  /** `get_pools_range`: the pair addresses of the index range, then their pool data. */
  function PoolsRange(factory: UniswapV2Factory, from: nat, to: nat, chain: Chain): Outcome<seq<UniswapV2Pool>>
  {
    var addresses :- AmmBatchRequest.PairsDecode(factory.address, chain.pairsReply(factory.address, from, to));
    BatchRequest.PoolDataDecode(addresses, factory.fee, chain.poolDataReply(addresses))
  }

  method GetPoolsRange(factory: UniswapV2Factory, from: nat, to: nat, chain: Chain)
    returns (r: Outcome<seq<UniswapV2Pool>>)
    ensures r == PoolsRange(factory, from, to, chain)
  {
    var addresses := AmmBatchRequest.GetPairsBatchRequest(factory.address, chain.pairsReply(factory.address, from, to));
    if !addresses.Ok? {
      return addresses.PropagateFailure();
    }
    r := BatchRequest.GetPoolDataBatchRequest(addresses.value, factory.fee, chain.poolDataReply(addresses.value));
  }

  /** Every pool carries the factory's fee and, where `nonZero` holds, a non-zero address. */
  ghost predicate Tagged(pools: seq<UniswapV2Pool>, fee: U32, nonZero: bool)
  {
    forall i | 0 <= i < |pools| :: pools[i].fee == fee && (nonZero ==> pools[i].address != ZERO_ADDRESS)
  }

  /** The pools of an index window have non-zero addresses (the zero entries
      of the pairs reply are dropped) and the factory's fee. */
  lemma PoolsRangeTagged(factory: UniswapV2Factory, from: nat, to: nat, chain: Chain)
    ensures var r := PoolsRange(factory, from, to, chain);
      r.Ok? ==> Tagged(r.value, factory.fee, true)
  {
    var pairs := AmmBatchRequest.PairsDecode(factory.address, chain.pairsReply(factory.address, from, to));
    if pairs.Ok? {
      var r := PoolsRange(factory, from, to, chain);
      if r.Ok? {
        forall i | 0 <= i < |r.value|
          ensures r.value[i].address != ZERO_ADDRESS
        {
          assert r.value[i].address == pairs.value[i];
          assert pairs.value[i] in pairs.value;
        }
      }
    }
  }

  // ---------------------------------------------------------------------------
  // The windowed scans
  // ---------------------------------------------------------------------------

  /** `get_pools_range` of one index window: the future the scan pushes for it. */
  function RangeCall(factory: UniswapV2Factory, chain: Chain): Window -> Outcome<seq<UniswapV2Pool>>
  {
    (w: Window) => PoolsRange(factory, w.from, w.to, chain)
  }

  /** `get_pools_from_logs_range` of one block window. Every window of the scan
      lies within `[start, end]`, so the `Panic` for a bound past `u64` is never taken. */
  function LogRangeCall(factory: UniswapV2Factory, chain: Chain): Window -> Outcome<seq<UniswapV2Pool>>
  {
    (w: Window) => if w.from < U64_LIMIT && w.to < U64_LIMIT then PoolsFromLogsRange(factory, w.from, w.to, chain) else Panic
  }

  /** The block number, or a middleware error when the query fails. */
  function BlockNumber(chain: Chain): (r: Outcome<U64>)
    ensures r.Ok? <==> chain.blockNumber.Some?
    ensures r.Ok? ==> r.value == chain.blockNumber.value
    ensures !r.Ok? ==> r == Err(MiddlewareError)
  {
    match chain.blockNumber
    case None => Err(MiddlewareError)
    case Some(block) => Ok(block)
  }

  /** `allPairsLength()`, or a contract error when the call fails. */
  function PairsLength(factory: UniswapV2Factory, chain: Chain): (r: Outcome<U256>)
    ensures r.Ok? <==> chain.allPairsLength(factory.address).Some?
    ensures r.Ok? ==> r.value == chain.allPairsLength(factory.address).value
    ensures !r.Ok? ==> r == Err(ContractError)
  {
    match chain.allPairsLength(factory.address)
    case None => Err(ContractError)
    case Some(length) => Ok(length)
  }

  /** `get_all_pools`: the current block and the pair count are read first; a
      count that does not fit `u64` panics in `as_u64`, a zero step panics in
      `step_by`; then one `get_pools_range` per window `[i, min(i + step, n))`,
      all run to completion, merged in window order up to the first error. */
  function AllPools(factory: UniswapV2Factory, step: Option<U64>, chain: Chain): (r: Outcome<(seq<UniswapV2Pool>, U64)>)
  {
    var block :- BlockNumber(chain);
    var length :- PairsLength(factory, chain);
    var s := BatchRequest.EffectiveStep(step);
    if length >= U64_LIMIT || s == 0 then Panic
    else
      var results := MapWindows(RangeCall(factory, chain), StepWindows(0, length, s));
      if AnyPanic(results) then Panic
      else
        var pools :- Concat(results);
        Ok((pools, block))
  }

  /** A successful scan returns the block read at its start, and pools that all
      carry the factory's fee and a non-zero address. */
  lemma AllPoolsTagged(factory: UniswapV2Factory, step: Option<U64>, chain: Chain)
    ensures var r := AllPools(factory, step, chain);
      r.Ok? ==> chain.blockNumber == Some(r.value.1) && Tagged(r.value.0, factory.fee, true)
  {
    var r := AllPools(factory, step, chain);
    if r.Ok? {
      var s := BatchRequest.EffectiveStep(step);
      var ws := StepWindows(0, PairsLength(factory, chain).value, s);
      var results := MapWindows(RangeCall(factory, chain), ws);
      forall k | 0 <= k < |results| && results[k].Ok?
        ensures Tagged(results[k].value, factory.fee, true)
      {
        MapWindowsAt(RangeCall(factory, chain), ws, k);
        PoolsRangeTagged(factory, ws[k].from, ws[k].to, chain);
      }
      ConcatTagged(results, factory.fee, true);
    }
  }

  /** The merge of tagged results is tagged. */
  lemma {:induction false} ConcatTagged(results: seq<Outcome<seq<UniswapV2Pool>>>, fee: U32, nonZero: bool)
    requires forall k | 0 <= k < |results| && results[k].Ok? :: Tagged(results[k].value, fee, nonZero)
    ensures Concat(results).Ok? ==> Tagged(Concat(results).value, fee, nonZero)
    decreases |results|
  {
    if |results| > 0 {
      var init := results[..|results| - 1];
      ConcatTagged(init, fee, nonZero);
      if Concat(results).Ok? {
        var front: seq<UniswapV2Pool> := Concat(init).value;
        var last: seq<UniswapV2Pool> := results[|results| - 1].value;
        assert Concat(results).value == front + last;
        forall i | 0 <= i < |front + last|
          ensures (front + last)[i].fee == fee && (nonZero ==> (front + last)[i].address != ZERO_ADDRESS)
        {
          if i >= |front| {
            assert (front + last)[i] == last[i - |front|];
          }
        }
      }
    }
  }

  /** The scan fails with the error of the first failing window, whatever the later windows return. */
  lemma AllPoolsFirstFailure(factory: UniswapV2Factory, step: Option<U64>, chain: Chain, k: nat)
    requires chain.blockNumber.Some?
    requires chain.allPairsLength(factory.address).Some?
    requires chain.allPairsLength(factory.address).value < U64_LIMIT && BatchRequest.EffectiveStep(step) > 0
    requires var results := MapWindows(RangeCall(factory, chain),
               StepWindows(0, chain.allPairsLength(factory.address).value, BatchRequest.EffectiveStep(step)));
      && k < |results| && results[k].Err?
      && (forall j | 0 <= j < k :: results[j].Ok?)
      && (forall j | 0 <= j < |results| :: !results[j].Panic?)
    ensures AllPools(factory, step, chain)
         == Err(MapWindows(RangeCall(factory, chain),
              StepWindows(0, chain.allPairsLength(factory.address).value, BatchRequest.EffectiveStep(step)))[k].error)
  {
    var results := MapWindows(RangeCall(factory, chain),
      StepWindows(0, chain.allPairsLength(factory.address).value, BatchRequest.EffectiveStep(step)));
    ConcatFirstFailure(results, k);
  }

  /** With no pairs and a usable step the scan makes no call and returns no pools. */
  lemma AllPoolsNoPairs(factory: UniswapV2Factory, step: Option<U64>, chain: Chain)
    requires chain.blockNumber.Some? && chain.allPairsLength(factory.address) == Some(0)
    requires BatchRequest.EffectiveStep(step) > 0
    ensures AllPools(factory, step, chain) == Ok(([], chain.blockNumber.value))
  {
    assert StepWindows(0, 0, BatchRequest.EffectiveStep(step)) == [];
  }

  /** A zero step panics whatever the chain replies, once block and count are read. */
  lemma AllPoolsZeroStep(factory: UniswapV2Factory, chain: Chain)
    requires chain.blockNumber.Some? && chain.allPairsLength(factory.address).Some?
    ensures AllPools(factory, Some(0), chain) == Panic
  {
  }

  /** The scan's windows as the source builds them, one `get_pools_range` each. */
  method RequestRanges(factory: UniswapV2Factory, n: nat, step: nat, chain: Chain)
    returns (results: seq<Outcome<seq<UniswapV2Pool>>>)
    requires step > 0
    ensures results == MapWindows(RangeCall(factory, chain), StepWindows(0, n, step))
  {
    ghost var done: seq<Window> := [];
    results := [];
    var i: nat := 0;
    LoopStart(0, n, step);
    while i < n
      invariant LoopAt(0, n, step, done, i)
      invariant results == MapWindows(RangeCall(factory, chain), done)
      decreases n - i
    {
      var to := Min(i + step, n);
      var result := GetPoolsRange(factory, i, to, chain);
      RangesAdvance(factory, chain, n, step, done, i, result);
      done := done + [Window(i, to)];
      results := results + [result];
      i := i + step;
    }
    LoopEnd(0, n, step, done, i);
  }

  /** One step of the index scan's window loop. */
  lemma RangesAdvance(factory: UniswapV2Factory, chain: Chain, n: nat, step: nat, done: seq<Window>, i: nat,
                      result: Outcome<seq<UniswapV2Pool>>)
    requires step > 0 && i < n
    requires LoopAt(0, n, step, done, i)
    requires result == PoolsRange(factory, i, Min(i + step, n), chain)
    ensures LoopAt(0, n, step, done + [Window(i, Min(i + step, n))], i + step)
    ensures MapWindows(RangeCall(factory, chain), done + [Window(i, Min(i + step, n))])
         == MapWindows(RangeCall(factory, chain), done) + [result]
  {
    LoopAdvance(0, n, step, done, i);
    MapWindowsAppend(RangeCall(factory, chain), done, Window(i, Min(i + step, n)));
  }

  method GetAllPools(factory: UniswapV2Factory, step: Option<U64>, chain: Chain)
    returns (r: Outcome<(seq<UniswapV2Pool>, U64)>)
    ensures r == AllPools(factory, step, chain)
  {
    var s := BatchRequest.EffectiveStep(step);
    if chain.blockNumber.None? {
      return Err(MiddlewareError);
    }
    var currentBlock := chain.blockNumber.value;
    var lengthReply := chain.allPairsLength(factory.address);
    if lengthReply.None? {
      return Err(ContractError);
    }
    var length := lengthReply.value;
    if length >= U64_LIMIT || s == 0 {
      return Panic;
    }
    var results := RequestRanges(factory, length, s, chain);
    if AnyPanic(results) {
      return Panic;
    }
    var pools := MergeInOrder(results);
    if !pools.Ok? {
      return pools.PropagateFailure();
    }
    r := Ok((pools.value, currentBlock));
  }

  /** Whether computing the end `i + step` of some window overflows `u64`. */
  predicate WindowEndOverflows(ws: seq<Window>, step: nat)
  {
    exists k | 0 <= k < |ws| :: ws[k].from + step >= U64_LIMIT
  }

  /** `get_pools_from_logs`: the start defaults to block 0, the end to the
      current block (a middleware error when that query fails), the step to
      100; `end - start` panics when the start lies after the end, a zero step
      panics in `step_by` and a window end `i + step` past `u64` panics; then
      one `get_pools_from_logs_range` per window `[i, min(i + step, end)]`, all
      run to completion, merged in window order with `PoolDataError` windows
      skipped. */
  function PoolsFromLogs(factory: UniswapV2Factory, startBlock: Option<U64>, endBlock: Option<U64>, step: Option<U64>, chain: Chain)
    : (r: Outcome<seq<UniswapV2Pool>>)
  {
    var start := if startBlock.Some? then startBlock.value else 0;
    var end :- if endBlock.Some? then Ok(endBlock.value) else BlockNumber(chain);
    var s := BatchRequest.EffectiveStep(step);
    if start > end || s == 0 then Panic
    else
      var ws := StepWindows(start, end, s);
      if WindowEndOverflows(ws, s) then Panic
      else
        var results := MapWindows(LogRangeCall(factory, chain), ws);
        if AnyPanic(results) then Panic else ConcatSkippingPoolDataErrors(results)
  }

  /** No log window ends in `PoolDataError`, so the tolerant merge never skips
      anything: it is the plain merge of the window results. */
  lemma LogRangeResultsNoPoolDataError(factory: UniswapV2Factory, ws: seq<Window>, chain: Chain)
    ensures ConcatSkippingPoolDataErrors(MapWindows(LogRangeCall(factory, chain), ws)) == Concat(MapWindows(LogRangeCall(factory, chain), ws))
  {
    var results := MapWindows(LogRangeCall(factory, chain), ws);
    forall k | 0 <= k < |results|
      ensures results[k] != Err(PoolDataError)
    {
      MapWindowsAt(LogRangeCall(factory, chain), ws, k);
    }
    SkippingWithoutPoolDataErrors(results);
  }

  /** The log scan fails with the error of the first failing window; since no
      window yields `PoolDataError`, none is ever skipped. */
  lemma PoolsFromLogsFirstFailure(factory: UniswapV2Factory, start: U64, end: U64, step: Option<U64>, chain: Chain, k: nat)
    requires start <= end && BatchRequest.EffectiveStep(step) > 0
    requires !WindowEndOverflows(StepWindows(start, end, BatchRequest.EffectiveStep(step)), BatchRequest.EffectiveStep(step))
    requires var results := MapWindows(LogRangeCall(factory, chain), StepWindows(start, end, BatchRequest.EffectiveStep(step)));
      && k < |results| && results[k].Err?
      && (forall j | 0 <= j < k :: results[j].Ok?)
      && (forall j | 0 <= j < |results| :: !results[j].Panic?)
    ensures PoolsFromLogs(factory, Some(start), Some(end), step, chain)
         == Err(MapWindows(LogRangeCall(factory, chain), StepWindows(start, end, BatchRequest.EffectiveStep(step)))[k].error)
  {
    var ws := StepWindows(start, end, BatchRequest.EffectiveStep(step));
    var results := MapWindows(LogRangeCall(factory, chain), ws);
    assert !AnyPanic(results);
    assert PoolsFromLogs(factory, Some(start), Some(end), step, chain) == ConcatSkippingPoolDataErrors(results);
    LogRangeResultsNoPoolDataError(factory, ws, chain);
    ConcatFirstFailure(results, k);
  }

  /** Pools found from logs carry the factory's fee. */
  lemma PoolsFromLogsTagged(factory: UniswapV2Factory, startBlock: Option<U64>, endBlock: Option<U64>, step: Option<U64>, chain: Chain)
    ensures var r := PoolsFromLogs(factory, startBlock, endBlock, step, chain);
      r.Ok? ==> Tagged(r.value, factory.fee, false)
  {
    var start := if startBlock.Some? then startBlock.value else 0;
    var end := if endBlock.Some? then Ok(endBlock.value) else BlockNumber(chain);
    var s := BatchRequest.EffectiveStep(step);
    if end.Ok? && start <= end.value && s > 0 {
      var ws := StepWindows(start, end.value, s);
      var results := MapWindows(LogRangeCall(factory, chain), ws);
      forall k | 0 <= k < |results| && results[k].Ok?
        ensures Tagged(results[k].value, factory.fee, false)
      {
        MapWindowsAt(LogRangeCall(factory, chain), ws, k);
        PoolsFromLogsRangeTagged(factory, ws[k].from, ws[k].to, chain);
      }
      LogRangeResultsNoPoolDataError(factory, ws, chain);
      ConcatTagged(results, factory.fee, false);
    }
  }

  /** A supplied end block is used as it is: the current block is not queried. */
  lemma PoolsFromLogsSuppliedEnd(factory: UniswapV2Factory, startBlock: Option<U64>, end: U64, step: Option<U64>, chain: Chain, block: Option<U64>)
    ensures PoolsFromLogs(factory, startBlock, Some(end), step, chain)
         == PoolsFromLogs(factory, startBlock, Some(end), step, chain.(blockNumber := block))
  {
    var start := if startBlock.Some? then startBlock.value else 0;
    var s := BatchRequest.EffectiveStep(step);
    if start <= end && s > 0 {
      LogRangeResultsOnlyLogs(factory, StepWindows(start, end, s), chain, chain.(blockNumber := block));
    }
  }

  /** The log windows depend on the chain only through its log and pool-data replies. */
  lemma {:induction false} LogRangeResultsOnlyLogs(factory: UniswapV2Factory, ws: seq<Window>, chain: Chain, other: Chain)
    requires chain.logs == other.logs && chain.poolDataReply == other.poolDataReply
    ensures MapWindows(LogRangeCall(factory, chain), ws) == MapWindows(LogRangeCall(factory, other), ws)
    decreases |ws|
  {
    if |ws| > 0 {
      LogRangeResultsOnlyLogs(factory, ws[..|ws| - 1], chain, other);
    }
  }

  /** An empty block range makes no query and yields no pools. */
  lemma PoolsFromLogsEmptyRange(factory: UniswapV2Factory, block: U64, step: Option<U64>, chain: Chain)
    requires BatchRequest.EffectiveStep(step) > 0
    ensures PoolsFromLogs(factory, Some(block), Some(block), step, chain) == Ok([])
  {
    assert StepWindows(block, block, BatchRequest.EffectiveStep(step)) == [];
  }

  /** A start block after the end block panics in `end_block - start_block`. */
  lemma PoolsFromLogsReversedRange(factory: UniswapV2Factory, start: U64, end: U64, step: Option<U64>, chain: Chain)
    requires start > end
    ensures PoolsFromLogs(factory, Some(start), Some(end), step, chain) == Panic
  {
  }

  /** A window whose end `i + step` is past `u64` makes the whole scan overflow. */
  lemma OverflowAt(start: nat, end: nat, step: nat, done: seq<Window>, i: nat)
    requires step > 0 && i < end && LoopAt(start, end, step, done, i) && i + step >= U64_LIMIT
    ensures WindowEndOverflows(StepWindows(start, end, step), step)
  {
    LoopAdvance(start, end, step, done, i);
    assert StepWindows(start, end, step)[|done|] == Window(i, Min(i + step, end));
  }

  /** One step of the log scan's window loop. */
  lemma LogRangesAdvance(factory: UniswapV2Factory, chain: Chain, start: nat, end: U64, step: nat, done: seq<Window>, i: nat,
                         result: Outcome<seq<UniswapV2Pool>>)
    requires step > 0 && i < end && i + step < U64_LIMIT
    requires LoopAt(start, end, step, done, i) && !WindowEndOverflows(done, step)
    requires result == PoolsFromLogsRange(factory, i, Min(i + step, end), chain)
    ensures LoopAt(start, end, step, done + [Window(i, Min(i + step, end))], i + step)
    ensures !WindowEndOverflows(done + [Window(i, Min(i + step, end))], step)
    ensures MapWindows(LogRangeCall(factory, chain), done + [Window(i, Min(i + step, end))])
         == MapWindows(LogRangeCall(factory, chain), done) + [result]
  {
    LoopAdvance(start, end, step, done, i);
    NoOverflowAppend(done, Window(i, Min(i + step, end)), step);
    MapWindowsAppend(LogRangeCall(factory, chain), done, Window(i, Min(i + step, end)));
  }

  lemma NoOverflowAppend(done: seq<Window>, w: Window, step: nat)
    requires !WindowEndOverflows(done, step) && w.from + step < U64_LIMIT
    ensures !WindowEndOverflows(done + [w], step)
  {
    forall k | 0 <= k < |done| + 1
      ensures (done + [w])[k].from + step < U64_LIMIT
    {
      if k < |done| {
        assert (done + [w])[k] == done[k];
      }
    }
  }

  /** The block windows as the source builds them; `overflow` reports a
      window end `i + step` past `u64`, which panics before any query runs. */
  method RequestLogRanges(factory: UniswapV2Factory, start: nat, end: U64, step: nat, chain: Chain)
    returns (results: seq<Outcome<seq<UniswapV2Pool>>>, overflow: bool)
    requires step > 0
    ensures overflow == WindowEndOverflows(StepWindows(start, end, step), step)
    ensures !overflow ==> results == MapWindows(LogRangeCall(factory, chain), StepWindows(start, end, step))
  {
    ghost var done: seq<Window> := [];
    results := [];
    var i: nat := start;
    LoopStart(start, end, step);
    while i < end
      invariant LoopAt(start, end, step, done, i)
      invariant !WindowEndOverflows(done, step)
      invariant results == MapWindows(LogRangeCall(factory, chain), done)
      decreases end - i
    {
      var to := Min(i + step, end);
      if i + step >= U64_LIMIT {
        OverflowAt(start, end, step, done, i);
        return results, true;
      }
      var result := GetPoolsFromLogsRange(factory, i, to, chain);
      LogRangesAdvance(factory, chain, start, end, step, done, i, result);
      done := done + [Window(i, to)];
      results := results + [result];
      i := i + step;
    }
    LoopEnd(start, end, step, done, i);
    overflow := false;
  }

  method GetPoolsFromLogs(factory: UniswapV2Factory, startBlock: Option<U64>, endBlock: Option<U64>, step: Option<U64>, chain: Chain)
    returns (r: Outcome<seq<UniswapV2Pool>>)
    ensures r == PoolsFromLogs(factory, startBlock, endBlock, step, chain)
  {
    var start := if startBlock.Some? then startBlock.value else 0;
    var end: U64;
    if endBlock.Some? {
      end := endBlock.value;
    } else {
      if chain.blockNumber.None? {
        return Err(MiddlewareError);
      }
      end := chain.blockNumber.value;
    }
    var s := BatchRequest.EffectiveStep(step);
    if start > end || s == 0 {
      return Panic;
    }
    var results, overflow := RequestLogRanges(factory, start, end, s, chain);
    if overflow {
      return Panic;
    }
    if AnyPanic(results) {
      return Panic;
    }
    r := MergeSkippingPoolDataErrors(results);
  }
}
