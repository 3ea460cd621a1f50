/** Values shared by every part of the model: fixed-width integers as bounded
    naturals, the decoded ABI value tree, the error kinds of the AMM layer and
    the chain client as a bundle of reply functions. */
module Common {

  const H160_LIMIT: nat := 0x1_0000_0000_0000_0000_0000_0000_0000_0000_0000_0000
  const U8_LIMIT: nat := 0x100
  const U32_LIMIT: nat := 0x1_0000_0000
  const U64_LIMIT: nat := 0x1_0000_0000_0000_0000
  const U128_LIMIT: nat := 0x1_0000_0000_0000_0000_0000_0000_0000_0000
  const U256_LIMIT: nat := 0x1_0000_0000_0000_0000_0000_0000_0000_0000_0000_0000_0000_0000_0000_0000_0000_0000

  /** A 20-byte account address, read as a number; 0 is the zero address. */
  type H160 = a: nat | a < H160_LIMIT
  type U8 = n: nat | n < U8_LIMIT
  type U32 = n: nat | n < U32_LIMIT
  type U64 = n: nat | n < U64_LIMIT
  type U128 = n: nat | n < U128_LIMIT
  type U256 = n: nat | n < U256_LIMIT

  const ZERO_ADDRESS: H160 := 0

  datatype Option<T> = None | Some(value: T)

  /** An already-decoded ABI value. `Array`, `FixedArray` and `Tuple` nest. */
  datatype Token =
    | Address(addr: H160)
    | Uint(value: U256)
    | Int(signed: int)
    | Bool(flag: bool)
    | Bytes(bytes: seq<U8>)
    | FixedBytes(fixedBytes: seq<U8>)
    | String(text: string)
    | Array(elements: seq<Token>)
    | FixedArray(fixedElements: seq<Token>)
    | Tuple(fields: seq<Token>)
  {
    /** `into_address`: only an address token yields an address. */
    function IntoAddress(): (r: Option<H160>)
      ensures r.Some? <==> this.Address?
      ensures r.Some? ==> r.value == this.addr
    {
      if this.Address? then Some(this.addr) else None
    }

    /** `into_uint` on the tokens the decoders meet: an unsigned integer token
        yields its value; a signed one is treated like any other non-uint. */
    function IntoUint(): (r: Option<U256>)
      ensures r.Some? <==> this.Uint?
      ensures r.Some? ==> r.value == this.value
    {
      if this.Uint? then Some(this.value) else None
    }

    /** `into_tuple`: only a tuple token yields its fields. */
    function IntoTuple(): (r: Option<seq<Token>>)
      ensures r.Some? <==> this.Tuple?
      ensures r.Some? ==> r.value == this.fields
    {
      if this.Tuple? then Some(this.fields) else None
    }

    /** `into_array`: both the dynamic and the fixed-size array yield their elements. */
    function IntoArray(): (r: Option<seq<Token>>)
      ensures r.Some? <==> (this.Array? || this.FixedArray?)
      ensures this.Array? ==> r == Some(this.elements)
      ensures this.FixedArray? ==> r == Some(this.fixedElements)
    {
      match this
      case Array(elements) => Some(elements)
      case FixedArray(elements) => Some(elements)
      case _ => None
    }
  }

  /** The error kinds of the AMM layer that the core produces or inspects. */
  datatype AmmError =
    | BatchRequestError(address: H160)
    | OutOfGasError(addresses: seq<H160>)
    | PoolDataError
    | ContractError
    | MiddlewareError
    | EthAbiError

  /** How a call of the AMM layer ends: it returns `Ok` or `Err` (Rust's
      `Result`), or the program panics. */
  datatype Outcome<T> = Ok(value: T) | Err(error: AmmError) | Panic
  {
    predicate IsFailure() {
      !Ok?
    }

    function PropagateFailure<U>(): (r: Outcome<U>)
      requires !Ok?
      ensures this.Err? ==> r == Err(this.error)
      ensures this.Panic? ==> r == Panic
    {
      if Err? then Err(error) else Panic
    }

    function Extract(): T
      requires Ok?
    {
      value
    }
  }

  /** What one deployed batch-request contract hands back: deployment fails,
      the call itself fails (for example out of gas), the returned bytes do
      not decode against the expected ABI types, or they decode to a token list. */
  datatype CallReply = DeployFailed | CallFailed | DecodeFailed | Decoded(tokens: seq<Token>)

  /** The conversions of `deploy(..)?`, `call_raw().await?` and `decode(..)?`. */
  function ReplyTokens(reply: CallReply): (r: Outcome<seq<Token>>)
    ensures r.Ok? <==> reply.Decoded?
    ensures r.Ok? ==> r.value == reply.tokens
    ensures !r.Panic?
    ensures reply.DecodeFailed? ==> r == Err(EthAbiError)
    ensures (reply.DeployFailed? || reply.CallFailed?) ==> r == Err(ContractError)
  {
    match reply
    case DeployFailed => Err(ContractError)
    case CallFailed => Err(ContractError)
    case DecodeFailed => Err(EthAbiError)
    case Decoded(tokens) => Ok(tokens)
  }

  /** One entry of a log query: a `PairCreated` event, or a log that does not decode as one. */
  datatype RawLog = PairCreatedLog(token0: H160, token1: H160, pair: H160, index: U256) | UndecodableLog

  /** The chain client as seen by the core: each field gives the reply the chain
      gives for one kind of call and its arguments; `None` is a failed call. */
  datatype Chain = Chain(
    blockNumber: Option<U64>,
    allPairsLength: H160 -> Option<U256>,
    pairsReply: (H160, nat, nat) -> CallReply,
    poolDataReply: seq<H160> -> CallReply,
    wethReply: (seq<H160>, H160, H160) -> CallReply,
    logs: (H160, U64, U64) -> Option<seq<RawLog>>)

  /** The factory record both factory variants declare. */
  datatype UniswapV2Factory = UniswapV2Factory(address: H160, creationBlock: U64, fee: U32)

  /** `join_all` runs every future; one that panics brings the whole call down. */
  predicate AnyPanic<T>(results: seq<Outcome<T>>)
  {
    exists i | 0 <= i < |results| :: results[i].Panic?
  }

  /** Multiplying both sides by the same natural keeps the order. */
  lemma MulLeft(a: nat, b: nat, c: nat)
    requires a <= b
    ensures a * c <= b * c
  {
  }

  function Min(a: nat, b: nat): (r: nat)
    ensures r <= a && r <= b && (r == a || r == b)
  {
    if a <= b then a else b
  }
}
