/** The Uniswap-V2 pool record and its pure arithmetic: the populated check,
    the constant-product swap output and the decimal-normalised 64.64 price. */
module PoolModel {
  import opened Common

  /** One pool: its address, its two tokens with their decimals, the two
      reserves and the fee in the source's own unit (300 stands for 0.3%). */
  datatype UniswapV2Pool = UniswapV2Pool(
    address: H160,
    tokenA: H160,
    tokenADecimals: U8,
    tokenB: H160,
    tokenBDecimals: U8,
    reserve0: U128,
    reserve1: U128,
    fee: U32)

  /** A pool is usable only when both tokens and both reserves are non-zero. */
  predicate DataIsPopulated(pool: UniswapV2Pool)
    ensures DataIsPopulated(pool) <==>
      pool.tokenA != ZERO_ADDRESS && pool.tokenB != ZERO_ADDRESS && pool.reserve0 > 0 && pool.reserve1 > 0
  {
    !(pool.tokenA == ZERO_ADDRESS || pool.tokenB == ZERO_ADDRESS || pool.reserve0 == 0 || pool.reserve1 == 0)
  }

  // ---------------------------------------------------------------------------
  // Swap output
  // ---------------------------------------------------------------------------

  /** The fee numerator out of 1000: one tenth of what is left of 10000 after
      removing a tenth of the fee, both divisions rounding down. */
  function FeeFactor(fee: U32): (r: nat)
    requires fee / 10 <= 10000
    ensures r <= 1000
    ensures 10 * r <= 10000 - fee / 10 < 10 * r + 10
    ensures fee == 300 ==> r == 997
  {
    (10000 - fee / 10) / 10
  }

  /** What `get_amount_out` needs so that none of its `u32` and U256 operations
      overflows; it only computes anything when no input is zero. */
  predicate SwapFits(pool: UniswapV2Pool, amountIn: U256, reserveIn: U256, reserveOut: U256)
  {
    amountIn != 0 && reserveIn != 0 && reserveOut != 0 ==>
      && pool.fee / 10 <= 10000
      && amountIn * FeeFactor(pool.fee) * reserveOut < U256_LIMIT
      && reserveIn * 1000 + amountIn * FeeFactor(pool.fee) < U256_LIMIT
  }

  /** Constant-product output for `amountIn` paid into the side holding `reserveIn`. */
  function GetAmountOut(pool: UniswapV2Pool, amountIn: U256, reserveIn: U256, reserveOut: U256): (r: U256)
    requires SwapFits(pool, amountIn, reserveIn, reserveOut)
    ensures amountIn == 0 || reserveIn == 0 || reserveOut == 0 ==> r == 0
    ensures amountIn != 0 && reserveIn != 0 && reserveOut != 0 ==>
      var withFee := amountIn * FeeFactor(pool.fee);
      var denominator := reserveIn * 1000 + withFee;
      r * denominator <= withFee * reserveOut < (r + 1) * denominator
    ensures reserveOut != 0 ==> r < reserveOut
  {
    if amountIn == 0 || reserveIn == 0 || reserveOut == 0 then 0
    else
      var withFee := amountIn * FeeFactor(pool.fee);
      var scaledIn := reserveIn * 1000;
      assert scaledIn >= 1000 by { MulLeft(1, reserveIn, 1000); }
      RoundedQuotient(withFee, scaledIn, reserveOut)
  }

  /** w * out / (k + w), rounded down. */
  function RoundedQuotient(w: nat, k: nat, out: nat): (q: nat)
    requires k > 0 && out > 0
    ensures q * (k + w) <= w * out < (q + 1) * (k + w) && q < out && q <= w * out
  {
    var numerator := w * out;
    var denominator := k + w;
    var q := numerator / denominator;
    QuotientBounds(numerator, denominator, q, w, k, out);
    q
  }

  lemma QuotientBounds(numerator: nat, denominator: nat, q: nat, w: nat, k: nat, out: nat)
    requires k > 0 && out > 0 && numerator == w * out && denominator == k + w
    requires q == numerator / denominator
    ensures q * denominator <= numerator < (q + 1) * denominator && q < out && q <= numerator
  {
    FloorDivision(numerator, denominator);
    BelowReserve(q, w, out, k);
    MulLeft(1, denominator, q);
  }

  lemma FloorDivision(numerator: nat, denominator: nat)
    requires denominator > 0
    ensures (numerator / denominator) * denominator <= numerator < (numerator / denominator + 1) * denominator
  {
  }

  /** If q * (k + w) <= w * out with k > 0, then q < out. */
  lemma BelowReserve(q: nat, w: nat, out: nat, k: nat)
    requires k > 0 && out > 0
    requires q * (k + w) <= w * out
    ensures q < out
  {
    if q >= out {
      calc {
        q * (k + w);
      >= { MulLeft(out, q, k + w); }
        out * (k + w);
      == out * k + out * w;
      > { assert out * k > 0; }
        w * out;
      }
    }
  }

  /** Rounded-down quotients keep the order of the exact ones. */
  lemma {:induction false} DivideCross(p: nat, q: nat, p': nat, q': nat)
    requires q > 0 && q' > 0
    requires p * q' <= p' * q
    ensures p / q <= p' / q'
  {
    var d := p / q;
    FloorDivision(p, q);
    MulLeft(d * q, p, q');
    MulSwap(d, q, q');
    assert (d * q') * q <= p' * q;
    assert d * q' <= p' by {
      if d * q' > p' {
        MulStrict(p', d * q', q);
      }
    }
    FloorDivision(p', q');
    if d > p' / q' {
      MulLeft(p' / q' + 1, d, q');
    }
  }

  lemma MulSwap(a: nat, b: nat, c: nat)
    ensures (a * b) * c == (a * c) * b
  {
  }

  lemma MulStrict(a: nat, b: nat, c: nat)
    requires a < b && c > 0
    ensures a * c < b * c
  {
  }

  /** Paying in more never yields less. */
  lemma {:induction false} GetAmountOutMonotone(pool: UniswapV2Pool, smaller: U256, larger: U256, reserveIn: U256, reserveOut: U256)
    requires smaller <= larger
    requires SwapFits(pool, smaller, reserveIn, reserveOut) && SwapFits(pool, larger, reserveIn, reserveOut)
    ensures GetAmountOut(pool, smaller, reserveIn, reserveOut) <= GetAmountOut(pool, larger, reserveIn, reserveOut)
  {
    if smaller != 0 && reserveIn != 0 && reserveOut != 0 {
      var f := FeeFactor(pool.fee);
      var a := smaller * f;
      var b := larger * f;
      var k := reserveIn * 1000;
      MulLeft(smaller, larger, f);
      assert a <= b;
      // a * R * (k + b) <= b * R * (k + a) because a * R * k <= b * R * k
      MulLeft(a * reserveOut, b * reserveOut, k) by { MulLeft(a, b, reserveOut); }
      calc {
        (a * reserveOut) * (k + b);
      == (a * reserveOut) * k + a * reserveOut * b;
      <= (b * reserveOut) * k + a * reserveOut * b;
      == (b * reserveOut) * k + b * reserveOut * a;
      == (b * reserveOut) * (k + a);
      }
      DivideCross(a * reserveOut, k + a, b * reserveOut, k + b);
    }
  }

  // ---------------------------------------------------------------------------
  // Swap simulation
  // ---------------------------------------------------------------------------

  datatype SwapResult = SwapOk(amountOut: U256) | SwapSimulationError

  /** The reserves (in, out) that a swap selling `tokenIn` uses: any token other
      than token A, including one the pool does not hold, sells as token B. */
  function SwapReserves(pool: UniswapV2Pool, tokenIn: H160): (r: (U256, U256))
    ensures tokenIn == pool.tokenA ==> r == (pool.reserve0 as U256, pool.reserve1 as U256)
    ensures tokenIn != pool.tokenA ==> r == (pool.reserve1 as U256, pool.reserve0 as U256)
  {
    if pool.tokenA == tokenIn then (pool.reserve0, pool.reserve1) else (pool.reserve1, pool.reserve0)
  }

  function SimulateSwap(pool: UniswapV2Pool, tokenIn: H160, amountIn: U256): (r: SwapResult)
    requires SwapFits(pool, amountIn, SwapReserves(pool, tokenIn).0, SwapReserves(pool, tokenIn).1)
    ensures r.SwapOk?
    ensures r.amountOut == GetAmountOut(pool, amountIn, SwapReserves(pool, tokenIn).0, SwapReserves(pool, tokenIn).1)
    ensures DataIsPopulated(pool) && tokenIn == pool.tokenA ==> r.amountOut < pool.reserve1
    ensures DataIsPopulated(pool) && tokenIn != pool.tokenA ==> r.amountOut < pool.reserve0
  {
    var (reserveIn, reserveOut) := SwapReserves(pool, tokenIn);
    SwapOk(GetAmountOut(pool, amountIn, reserveIn, reserveOut))
  }

  // ---------------------------------------------------------------------------
  // 64.64 price
  // ---------------------------------------------------------------------------

  /** The error type of the division routine; its variants are defined outside this model. */
  datatype ArithmeticError = ArithmeticError

  datatype PriceResult = Price(q64: U128) | PriceError(error: ArithmeticError)

  /** 1.0 in 64.64 fixed point. */
  const U128_0X10000000000000000: U128 := 0x1_0000_0000_0000_0000

  function Pow10(k: nat): (r: nat)
    ensures r >= 1
  {
    if k == 0 then 1 else 10 * Pow10(k - 1)
  }

  lemma {:induction false} Pow10Monotone(j: nat, k: nat)
    requires j <= k
    ensures Pow10(j) <= Pow10(k)
  {
    if j < k {
      Pow10Monotone(j, k - 1);
    }
  }

  lemma {:induction false} Pow10Add(j: nat, k: nat)
    ensures Pow10(j + k) == Pow10(j) * Pow10(k)
  {
    if k > 0 {
      Pow10Add(j, k - 1);
      assert Pow10(j + k) == 10 * Pow10(j + k - 1);
    }
  }

  /** `10u128.pow(k)` does not overflow exactly when k <= 38. */
  lemma Pow10FitsU128(k: nat)
    requires k <= 38
    ensures Pow10(k) <= Pow10(38) < U128_LIMIT / 2
  {
    Pow10Monotone(k, 38);
    Pow10Of38();
  }

  lemma Pow10Of38()
    ensures Pow10(38) == 100_000_000_000_000_000_000_000_000_000_000_000_000
  {
    assert Pow10(2) == 100;
    assert Pow10(6) == 1_000_000;
    Pow10Add(6, 6);
    assert Pow10(12) == 1_000_000_000_000;
    Pow10Add(12, 12);
    assert Pow10(24) == 1_000_000_000_000_000_000_000_000;
    Pow10Add(24, 12);
    assert Pow10(36) == 1_000_000_000_000_000_000_000_000_000_000_000_000;
    Pow10Add(36, 2);
  }

  /** `d as i8` for a `u8`: values from 128 up wrap to negative numbers. */
  function AsI8(d: U8): (r: int)
    ensures -128 <= r < 128 && (r == d || r == d - 256)
  {
    if d < 128 then d else d - 256
  }

  function DecimalShift(pool: UniswapV2Pool): int
  {
    AsI8(pool.tokenADecimals) - AsI8(pool.tokenBDecimals)
  }

  /** The `i8` subtraction and `10u128.pow` do not overflow. */
  predicate ShiftFits(pool: UniswapV2Pool)
  {
    -38 <= DecimalShift(pool) <= 38
  }

  /** Both token decimals lie below 128, or both at 128 or above; then `as i8` keeps their difference. */
  predicate SameSideOf128(pool: UniswapV2Pool)
  {
    (pool.tokenADecimals < 128) == (pool.tokenBDecimals < 128)
  }

  function Max(a: nat, b: nat): nat
  {
    if a < b then b else a
  }

  /** The reserves with the decimal difference removed: (r0, r1). */
  function NormalisedReserves(pool: UniswapV2Pool): (r: (U256, U256))
    requires ShiftFits(pool)
    ensures SameSideOf128(pool) ==>
      var top := Max(pool.tokenADecimals, pool.tokenBDecimals);
      r.0 == pool.reserve0 * Pow10(top - pool.tokenADecimals) &&
      r.1 == pool.reserve1 * Pow10(top - pool.tokenBDecimals)
    ensures pool.tokenADecimals == pool.tokenBDecimals ==> r == (pool.reserve0 as U256, pool.reserve1 as U256)
    ensures (r.0 == 0 <==> pool.reserve0 == 0) && (r.1 == 0 <==> pool.reserve1 == 0)
  {
    var shift := DecimalShift(pool);
    if shift < 0 then (ScaleReserve(pool.reserve0, -shift), pool.reserve1)
    else (pool.reserve0, ScaleReserve(pool.reserve1, shift))
  }

  /** reserve * 10^k, which fits U256 for a `u128` reserve and k <= 38. */
  function ScaleReserve(reserve: U128, k: nat): (r: U256)
    requires k <= 38
    ensures r == reserve * Pow10(k)
    ensures r == 0 <==> reserve == 0
  {
    var p := Pow10(k);
    Pow10FitsU128(k);
    ScaledFits(reserve, p);
    reserve * p
  }

  lemma ScaledFits(reserve: nat, p: nat)
    requires reserve < U128_LIMIT && 1 <= p < U128_LIMIT
    ensures 0 <= reserve * p < U256_LIMIT
    ensures reserve * p == 0 <==> reserve == 0
  {
    MulLeft(0, reserve, p);
    MulLeft(reserve, U128_LIMIT, p);
    MulStrict(p, U128_LIMIT, U128_LIMIT);
    assert U128_LIMIT * U128_LIMIT == U256_LIMIT;
    MulLeft(1, p, reserve);
  }

  /** With decimals 230 and 0, `as i8` turns 230 into -26, so token A's reserve
      is the one scaled although token A has the more decimals. */
  lemma NormalisedReservesWrapExample(pool: UniswapV2Pool)
    requires pool.tokenADecimals == 230 && pool.tokenBDecimals == 0
    ensures ShiftFits(pool)
    ensures NormalisedReserves(pool) == (pool.reserve0 * Pow10(26), pool.reserve1 as U256)
  {
  }

  /** The price of `baseToken` in units of the other token, in 64.64 fixed
      point; `divUu` is the division routine, kept uninterpreted. */
  function CalculatePrice64x64(pool: UniswapV2Pool, baseToken: H160, divUu: (U256, U256) -> PriceResult): (r: PriceResult)
    requires ShiftFits(pool)
    ensures (if baseToken == pool.tokenA then pool.reserve0 else pool.reserve1) == 0 ==>
      r == Price(U128_0X10000000000000000)
    ensures (if baseToken == pool.tokenA then pool.reserve0 else pool.reserve1) != 0 ==>
      r == if baseToken == pool.tokenA then divUu(NormalisedReserves(pool).1, NormalisedReserves(pool).0)
           else divUu(NormalisedReserves(pool).0, NormalisedReserves(pool).1)
    ensures DataIsPopulated(pool) ==>
      r == if baseToken == pool.tokenA then divUu(NormalisedReserves(pool).1, NormalisedReserves(pool).0)
           else divUu(NormalisedReserves(pool).0, NormalisedReserves(pool).1)
  {
    var (r0, r1) := NormalisedReserves(pool);
    if baseToken == pool.tokenA then
      if r0 == 0 then Price(U128_0X10000000000000000) else divUu(r1, r0)
    else if r1 == 0 then Price(U128_0X10000000000000000)
    else divUu(r0, r1)
  }
}
