/** The pair-address scan of the `amm` factory: consecutive batched calls of
    at most 766 pairs, made one after the other. */
module AmmFactory {
  import opened Common
  import opened Windows
  import AmmBatchRequest

  /** The largest batch the pairs contract can serve before its code gets too large. */
  const PAIRS_BATCH_STEP: nat := 766

  /** `count` windows starting with `(from, to)`, each next one running from
      the previous `idx_to` to `min(idx_to + 766, n - 1)`. */
  function AmmWindowsFrom(from: nat, to: nat, count: nat, n: nat): (r: seq<(nat, nat)>)
    requires count > 0 ==> n > 0
    ensures |r| == count
    ensures count > 0 ==> r[0] == (from, to)
    decreases count
  {
    if count == 0 then []
    else [(from, to)] + AmmWindowsFrom(to, Min(to + PAIRS_BATCH_STEP, n - 1), count - 1, n)
  }

  /** The `(idx_from, idx_to)` arguments of the calls the loop makes for `n`
      pairs: one call per step of `(0..n).step_by(766)`. */
  function AmmWindows(n: nat): (r: seq<(nat, nat)>)
  {
    StepWindowsShape(0, n, PAIRS_BATCH_STEP);
    AmmWindowsFrom(0, if PAIRS_BATCH_STEP > n then n else PAIRS_BATCH_STEP, |StepWindows(0, n, PAIRS_BATCH_STEP)|, n)
  }

  /** The loop makes `ceil(n / 766)` calls; no pairs means no calls. */
  lemma AmmWindowsCount(n: nat)
    ensures |AmmWindows(n)| == (n + PAIRS_BATCH_STEP - 1) / PAIRS_BATCH_STEP
    ensures n == 0 ==> AmmWindows(n) == []
  {
    StepWindowsShape(0, n, PAIRS_BATCH_STEP);
    if n > 0 {
      StepWindowsCount(0, n, PAIRS_BATCH_STEP);
    }
  }

  /** The first call asks for `[0, min(766, n))`. */
  lemma AmmFirstWindow(n: nat)
    requires n > 0
    ensures |AmmWindows(n)| > 0 && AmmWindows(n)[0] == (0, Min(PAIRS_BATCH_STEP, n))
  {
    StepWindowsShape(0, n, PAIRS_BATCH_STEP);
  }

  /** Each call starts where the previous one ended, and ends at the previous
      end plus 766, capped at `n - 1`. */
  lemma {:induction false} AmmWindowsFromChain(from: nat, to: nat, count: nat, n: nat)
    requires count > 0 ==> n > 0
    ensures forall k | 0 <= k < count - 1 ::
      && AmmWindowsFrom(from, to, count, n)[k + 1].0 == AmmWindowsFrom(from, to, count, n)[k].1
      && AmmWindowsFrom(from, to, count, n)[k + 1].1 == Min(AmmWindowsFrom(from, to, count, n)[k].1 + PAIRS_BATCH_STEP, n - 1)
    decreases count
  {
    if count > 1 {
      AmmWindowsFromChain(to, Min(to + PAIRS_BATCH_STEP, n - 1), count - 1, n);
    }
  }

  lemma AmmWindowsChain(n: nat)
    ensures forall k | 0 <= k < |AmmWindows(n)| - 1 ::
      AmmWindows(n)[k + 1].0 == AmmWindows(n)[k].1 && AmmWindows(n)[k + 1].1 == Min(AmmWindows(n)[k].1 + PAIRS_BATCH_STEP, n - 1)
  {
    StepWindowsShape(0, n, PAIRS_BATCH_STEP);
    AmmWindowsFromChain(0, if PAIRS_BATCH_STEP > n then n else PAIRS_BATCH_STEP, |StepWindows(0, n, PAIRS_BATCH_STEP)|, n);
  }

  /** From a window ending at `min(766 * (j + 1), n - 1)`, the `k`-th later one
      ends at `min(766 * (j + k + 1), n - 1)`. */
  lemma {:induction false} AmmWindowsFromEnds(to: nat, j: nat, count: nat, n: nat, k: nat, from: nat)
    requires n > 0 && k < count
    requires to == Min(PAIRS_BATCH_STEP * (j + 1), n - 1)
    ensures AmmWindowsFrom(from, to, count, n)[k].1 == Min(PAIRS_BATCH_STEP * (j + k + 1), n - 1)
    decreases k
  {
    if k > 0 {
      var next := Min(to + PAIRS_BATCH_STEP, n - 1);
      assert PAIRS_BATCH_STEP * (j + 2) == PAIRS_BATCH_STEP * (j + 1) + PAIRS_BATCH_STEP;
      assert next == Min(PAIRS_BATCH_STEP * (j + 1 + 1), n - 1);
      AmmWindowsFromEnds(next, j + 1, count - 1, n, k - 1, to);
      assert AmmWindowsFrom(from, to, count, n)[k] == AmmWindowsFrom(to, next, count - 1, n)[k - 1];
    }
  }

  /** With more than 766 pairs the last call ends at `n - 1`, not at `n`: the
      cap is one below the pair count. */
  lemma AmmLastWindowCapped(n: nat)
    requires n > PAIRS_BATCH_STEP
    ensures |AmmWindows(n)| > 0 && AmmWindows(n)[|AmmWindows(n)| - 1].1 == n - 1
  {
    StepWindowsShape(0, n, PAIRS_BATCH_STEP);
    StepWindowsCount(0, n, PAIRS_BATCH_STEP);
    var c := |StepWindows(0, n, PAIRS_BATCH_STEP)|;
    AmmWindowsFromEnds(PAIRS_BATCH_STEP, 0, c, n, c - 1, 0);
    assert (c - 1) + 0 + 1 == c;
    assert c * PAIRS_BATCH_STEP >= n;
    assert PAIRS_BATCH_STEP * c >= n;
  }

  /** The decoded reply of the pairs call for one window. */
  function PairsCall(factory: H160, w: (nat, nat), chain: Chain): Outcome<seq<H160>>
  {
    AmmBatchRequest.PairsDecode(factory, chain.pairsReply(factory, w.0, w.1))
  }

  /** The decoded reply of the pairs call for every window, in window order. */
  function PairsResults(factory: H160, windows: seq<(nat, nat)>, chain: Chain): (r: seq<Outcome<seq<H160>>>)
    ensures |r| == |windows|
    decreases |windows|
  {
    if |windows| == 0 then []
    else PairsResults(factory, windows[..|windows| - 1], chain) + [PairsCall(factory, windows[|windows| - 1], chain)]
  }

  lemma PairsResultsAppend(factory: H160, windows: seq<(nat, nat)>, w: (nat, nat), chain: Chain)
    ensures PairsResults(factory, windows + [w], chain) == PairsResults(factory, windows, chain) + [PairsCall(factory, w, chain)]
  {
    assert (windows + [w])[..|windows|] == windows;
  }

  /** Every entry is the reply for the window at the same position. */
  lemma {:induction false} PairsResultsAt(factory: H160, windows: seq<(nat, nat)>, chain: Chain, k: nat)
    requires k < |windows|
    ensures PairsResults(factory, windows, chain)[k] == PairsCall(factory, windows[k], chain)
    decreases |windows|
  {
    if k < |windows| - 1 {
      PairsResultsAt(factory, windows[..|windows| - 1], chain, k);
    }
  }

  lemma {:induction false} PairsResultsSplit(factory: H160, front: seq<(nat, nat)>, back: seq<(nat, nat)>, chain: Chain)
    ensures PairsResults(factory, front + back, chain) == PairsResults(factory, front, chain) + PairsResults(factory, back, chain)
    decreases |back|
  {
    if |back| == 0 {
      assert front + back == front;
    } else {
      var last := back[|back| - 1];
      var init := back[..|back| - 1];
      assert front + back == (front + init) + [last];
      assert back == init + [last];
      PairsResultsSplit(factory, front, init, chain);
      PairsResultsAppend(factory, front + init, last, chain);
      PairsResultsAppend(factory, init, last, chain);
    }
  }

  /** The pair count: the supplied one, or the factory's `allPairsLength`
      (a failed call is a contract error). */
  function PairsLength(factory: UniswapV2Factory, pairsLength: Option<U32>, chain: Chain): (r: Outcome<nat>)
    ensures pairsLength.Some? ==> r == Ok(pairsLength.value)
    ensures pairsLength.None? && chain.allPairsLength(factory.address).None? ==> r == Err(ContractError)
    ensures pairsLength.None? && chain.allPairsLength(factory.address).Some? ==>
      r == Ok(chain.allPairsLength(factory.address).value)
  {
    match pairsLength
    case Some(length) => Ok(length)
    case None =>
      match chain.allPairsLength(factory.address)
      case None => Err(ContractError)
      case Some(length) => Ok(length)
  }

  /** `get_all_pairs_addresses_via_batched_calls`: a count that does not fit
      `usize` panics in `as_usize`; otherwise the addresses of every window in
      call order, or the error of the first call that fails. */
  function AllPairsAddresses(factory: UniswapV2Factory, pairsLength: Option<U32>, chain: Chain): (r: Outcome<seq<H160>>)
  {
    var n :- PairsLength(factory, pairsLength, chain);
    if n >= U64_LIMIT then Panic
    else Concat(PairsResults(factory.address, AmmWindows(n), chain))
  }

  /** A supplied pair count of zero makes no call and yields no addresses. */
  lemma NoPairsNoCalls(factory: UniswapV2Factory, chain: Chain)
    ensures AllPairsAddresses(factory, Some(0), chain) == Ok([])
  {
    AmmWindowsCount(0);
  }

  /** A supplied pair count is used as it is: the factory's own count is not consulted. */
  lemma SuppliedLengthWins(factory: UniswapV2Factory, length: U32, chain: Chain, other: H160 -> Option<U256>)
    ensures AllPairsAddresses(factory, Some(length), chain)
         == AllPairsAddresses(factory, Some(length), chain.(allPairsLength := other))
  {
    if length < U64_LIMIT {
      PairsResultsOnlyPairs(factory.address, AmmWindows(length), chain, chain.(allPairsLength := other));
    }
  }

  /** The replies depend on the chain only through its pairs call. */
  lemma {:induction false} PairsResultsOnlyPairs(factory: H160, windows: seq<(nat, nat)>, chain: Chain, other: Chain)
    requires chain.pairsReply == other.pairsReply
    ensures PairsResults(factory, windows, chain) == PairsResults(factory, windows, other)
    decreases |windows|
  {
    if |windows| > 0 {
      PairsResultsOnlyPairs(factory, windows[..|windows| - 1], chain, other);
    }
  }

  /** The scan as the source runs it: the window bounds are updated after each
      call and the first failing call ends it. */
  method GetAllPairsAddressesViaBatchedCalls(factory: UniswapV2Factory, pairsLength: Option<U32>, chain: Chain)
    returns (r: Outcome<seq<H160>>)
    ensures r == AllPairsAddresses(factory, pairsLength, chain)
  {
    var length := PairsLength(factory, pairsLength, chain);
    if !length.Ok? {
      return length.PropagateFailure();
    }
    var n := length.value;
    if n >= U64_LIMIT {
      return Panic;
    }
    r := ScanWindows(factory.address, n, chain);
  }

  /** The loop of the scan: one pairs call per step of `(0..n).step_by(766)`. */
  method ScanWindows(factory: H160, n: nat, chain: Chain) returns (r: Outcome<seq<H160>>)
    ensures r == Concat(PairsResults(factory, AmmWindows(n), chain))
  {
    var pairs: seq<H160> := [];
    var idxFrom: nat := 0;
    var idxTo: nat := if PAIRS_BATCH_STEP > n then n else PAIRS_BATCH_STEP;
    ghost var done: seq<(nat, nat)> := [];
    var i: nat := 0;
    ScanStart(factory, n, chain);
    while i < n
      invariant ScanAt(n, done, idxFrom, idxTo, i)
      invariant ScannedSoFar(factory, done, pairs, chain)
      decreases n - i
    {
      var nextTo := Min(idxTo + PAIRS_BATCH_STEP, n - 1);
      var batch := AmmBatchRequest.GetPairsBatchRequest(factory, chain.pairsReply(factory, idxFrom, idxTo));
      ScanLoopStep(factory, n, done, idxFrom, idxTo, i, pairs, batch, chain);
      if !batch.Ok? {
        return batch;
      }
      pairs := pairs + batch.value;
      done := done + [(idxFrom, idxTo)];
      idxFrom := idxTo;
      idxTo := nextTo;
      i := i + PAIRS_BATCH_STEP;
    }
    ScanEnd(n, done, idxFrom, idxTo, i);
    r := Ok(pairs);
  }

  /** The calls for `done` all succeeded and their addresses, in order, are `pairs`. */
  ghost predicate ScannedSoFar(factory: H160, done: seq<(nat, nat)>, pairs: seq<H160>, chain: Chain)
  {
    Concat(PairsResults(factory, done, chain)) == Ok(pairs)
  }

  /** Before the first call every window is still to be requested and nothing is merged. */
  lemma ScanStart(factory: H160, n: nat, chain: Chain)
    ensures ScanAt(n, [], 0, if PAIRS_BATCH_STEP > n then n else PAIRS_BATCH_STEP, 0)
    ensures ScannedSoFar(factory, [], [], chain)
  {
    assert AmmWindows(n) == [] + AmmWindowsFrom(0, if PAIRS_BATCH_STEP > n then n else PAIRS_BATCH_STEP, |StepWindows(0, n, PAIRS_BATCH_STEP)|, n);
  }

  /** The windows still to be requested when the loop is at `i` with bounds `(from, to)`. */
  ghost predicate ScanAt(n: nat, done: seq<(nat, nat)>, from: nat, to: nat, i: nat)
  {
    StepWindowsCountPositive(i, n);
    AmmWindows(n) == done + AmmWindowsFrom(from, to, |StepWindows(i, n, PAIRS_BATCH_STEP)|, n)
  }

  lemma StepWindowsCountPositive(i: nat, n: nat)
    ensures |StepWindows(i, n, PAIRS_BATCH_STEP)| > 0 ==> n > 0
  {
    if i >= n {
      assert StepWindows(i, n, PAIRS_BATCH_STEP) == [];
    }
  }

  /** One step of the scan: the remaining windows are the current one followed
      by those from the next bounds on. */
  lemma ScanAdvance(n: nat, done: seq<(nat, nat)>, from: nat, to: nat, i: nat) returns (rest: seq<(nat, nat)>)
    requires i < n && ScanAt(n, done, from, to, i)
    ensures AmmWindows(n) == done + ([(from, to)] + rest)
    ensures ScanAt(n, done + [(from, to)], to, Min(to + PAIRS_BATCH_STEP, n - 1), i + PAIRS_BATCH_STEP)
  {
    StepWindowsUnfold(i, n, PAIRS_BATCH_STEP);
    StepWindowsCountPositive(i + PAIRS_BATCH_STEP, n);
    rest := AmmWindowsFrom(to, Min(to + PAIRS_BATCH_STEP, n - 1), |StepWindows(i + PAIRS_BATCH_STEP, n, PAIRS_BATCH_STEP)|, n);
    assert AmmWindowsFrom(from, to, |StepWindows(i, n, PAIRS_BATCH_STEP)|, n) == [(from, to)] + rest;
  }

  /** When the loop stops every window has been requested. */
  lemma ScanEnd(n: nat, done: seq<(nat, nat)>, from: nat, to: nat, i: nat)
    requires i >= n && ScanAt(n, done, from, to, i)
    ensures done == AmmWindows(n)
  {
    assert StepWindows(i, n, PAIRS_BATCH_STEP) == [];
  }

  /** One turn of the scan loop: the bounds move on to the next window, and
      the call's outcome either extends the merged addresses or is the
      outcome of the whole scan. */
  lemma ScanLoopStep(factory: H160, n: nat, done: seq<(nat, nat)>, from: nat, to: nat, i: nat,
                     pairs: seq<H160>, batch: Outcome<seq<H160>>, chain: Chain)
    requires i < n && ScanAt(n, done, from, to, i)
    requires ScannedSoFar(factory, done, pairs, chain)
    requires batch == PairsCall(factory, (from, to), chain)
    ensures ScanAt(n, done + [(from, to)], to, Min(to + PAIRS_BATCH_STEP, n - 1), i + PAIRS_BATCH_STEP)
    ensures batch.Ok? ==> ScannedSoFar(factory, done + [(from, to)], pairs + batch.value, chain)
    ensures !batch.Ok? ==> Concat(PairsResults(factory, AmmWindows(n), chain)) == batch
  {
    var rest := ScanAdvance(n, done, from, to, i);
    ScanStep(factory, done, (from, to), rest, AmmWindows(n), pairs, batch, chain);
  }

  /** One call of the scan: a success extends the merged addresses, a failure
      is the outcome of the whole scan. */
  lemma ScanStep(factory: H160, done: seq<(nat, nat)>, w: (nat, nat), rest: seq<(nat, nat)>, all: seq<(nat, nat)>,
                 pairs: seq<H160>, batch: Outcome<seq<H160>>, chain: Chain)
    requires all == done + ([w] + rest)
    requires Concat(PairsResults(factory, done, chain)) == Ok(pairs)
    requires batch == PairsCall(factory, w, chain)
    ensures batch.Ok? ==> Concat(PairsResults(factory, done + [w], chain)) == Ok(pairs + batch.value)
    ensures !batch.Ok? ==> Concat(PairsResults(factory, all, chain)) == batch
  {
    var front := PairsResults(factory, done, chain);
    var back := PairsResults(factory, rest, chain);
    PairsResultsAppend(factory, done, w, chain);
    PairsResultsAround(factory, done, w, rest, all, chain);
    ConcatStep(front, batch, back, pairs);
  }

  lemma PairsResultsAround(factory: H160, done: seq<(nat, nat)>, w: (nat, nat), rest: seq<(nat, nat)>, all: seq<(nat, nat)>, chain: Chain)
    requires all == done + ([w] + rest)
    ensures PairsResults(factory, all, chain)
         == PairsResults(factory, done, chain) + [PairsCall(factory, w, chain)] + PairsResults(factory, rest, chain)
  {
    assert all == (done + [w]) + rest;
    PairsResultsSplit(factory, done + [w], rest, chain);
    PairsResultsAppend(factory, done, w, chain);
  }

}
