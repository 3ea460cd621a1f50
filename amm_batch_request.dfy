/** The decoders of the single-pool data request and of the pair-address
    request (the `amm` variant of the batch requests), and the pool
    constructor that runs the first and then checks the populated invariant. */
module AmmBatchRequest {
  import opened Common
  import opened PoolModel

  /** The fields of the first tuple of the first array: the `ok_or` chain over
      `next()`, `into_array()`, `next()` and `into_tuple()`. */
  function FirstTuple(tokens: seq<Token>): (r: Option<seq<Token>>)
    ensures r.Some? <==>
      && |tokens| > 0
      && tokens[0].IntoArray().Some?
      && |tokens[0].IntoArray().value| > 0
      && tokens[0].IntoArray().value[0].Tuple?
    ensures r.Some? ==> r.value == tokens[0].IntoArray().value[0].fields
  {
    if |tokens| == 0 then None
    else match tokens[0].IntoArray()
      case None => None
      case Some(entries) => if |entries| == 0 then None else entries[0].IntoTuple()
  }

  /** `tokens[i].into_address().ok_or(..)?`: a missing field panics, a wrong kind is a batch error. */
  function AddressField(fields: seq<Token>, i: nat, pair: H160): (r: Outcome<H160>)
    ensures r.Panic? <==> i >= |fields|
    ensures r.Ok? <==> i < |fields| && fields[i].Address?
    ensures r.Ok? ==> r.value == fields[i].addr
    ensures r.Err? ==> r.error == BatchRequestError(pair)
  {
    if i >= |fields| then Panic
    else match fields[i].IntoAddress()
      case None => Err(BatchRequestError(pair))
      case Some(a) => Ok(a)
  }

  /** `tokens[i].into_uint().ok_or(..)?.as_u32() as u8`: a value of more than
      32 bits panics, any other is cut down to its low byte. */
  function DecimalsField(fields: seq<Token>, i: nat, pair: H160): (r: Outcome<U8>)
    ensures r.Panic? <==> i >= |fields| || (fields[i].Uint? && fields[i].value >= U32_LIMIT)
    ensures r.Ok? <==> i < |fields| && fields[i].Uint? && fields[i].value < U32_LIMIT
    ensures r.Ok? ==> r.value == fields[i].value % 256
    ensures r.Err? ==> r.error == BatchRequestError(pair)
  {
    if i >= |fields| then Panic
    else match fields[i].IntoUint()
      case None => Err(BatchRequestError(pair))
      case Some(v) => if v >= U32_LIMIT then Panic else Ok(v % 256)
  }

  /** `tokens[i].into_uint().ok_or(..)?.as_u128()`: a value of more than 128 bits panics. */
  function ReserveField(fields: seq<Token>, i: nat, pair: H160): (r: Outcome<U128>)
    ensures r.Panic? <==> i >= |fields| || (fields[i].Uint? && fields[i].value >= U128_LIMIT)
    ensures r.Ok? <==> i < |fields| && fields[i].Uint? && fields[i].value < U128_LIMIT
    ensures r.Ok? ==> r.value == fields[i].value
    ensures r.Err? ==> r.error == BatchRequestError(pair)
  {
    if i >= |fields| then Panic
    else match fields[i].IntoUint()
      case None => Err(BatchRequestError(pair))
      case Some(v) => if v >= U128_LIMIT then Panic else Ok(v)
  }

  /** The kinds the six fields must have: address, uint, address, uint, uint, uint. */
  predicate FieldKindsMatch(fields: seq<Token>)
  {
    |fields| >= 6 && fields[0].Address? && fields[1].Uint? && fields[2].Address?
    && fields[3].Uint? && fields[4].Uint? && fields[5].Uint?
  }

  /** Every integer field that is there fits the width it is converted to. */
  predicate IntegerFieldsFit(fields: seq<Token>)
  {
    && (|fields| > 1 && fields[1].Uint? ==> fields[1].value < U32_LIMIT)
    && (|fields| > 3 && fields[3].Uint? ==> fields[3].value < U32_LIMIT)
    && (|fields| > 4 && fields[4].Uint? ==> fields[4].value < U128_LIMIT)
    && (|fields| > 5 && fields[5].Uint? ==> fields[5].value < U128_LIMIT)
  }

  /** The pool built from one tuple, its fields read in declaration order. */
  function PoolFromFields(pair: H160, fee: U32, fields: seq<Token>): (r: Outcome<UniswapV2Pool>)
    ensures r.Err? ==> r.error == BatchRequestError(pair)
    ensures r.Ok? <==> FieldKindsMatch(fields) && IntegerFieldsFit(fields)
    ensures |fields| >= 6 && IntegerFieldsFit(fields) ==> (r.Err? <==> !FieldKindsMatch(fields))
    ensures r.Ok? ==>
      r.value == UniswapV2Pool(pair, fields[0].addr, fields[1].value % 256, fields[2].addr,
                               fields[3].value % 256, fields[4].value, fields[5].value, fee)
  {
    var tokenA :- AddressField(fields, 0, pair);
    var tokenADecimals :- DecimalsField(fields, 1, pair);
    var tokenB :- AddressField(fields, 2, pair);
    var tokenBDecimals :- DecimalsField(fields, 3, pair);
    var reserve0 :- ReserveField(fields, 4, pair);
    var reserve1 :- ReserveField(fields, 5, pair);
    Ok(UniswapV2Pool(pair, tokenA, tokenADecimals, tokenB, tokenBDecimals, reserve0, reserve1, fee))
  }

  /** `get_uniswap_v2_pool_data_batch_request` after the chain call: the pool
      of `pairAddress` decoded from the first tuple of the reply. */
  function GetPoolDataBatchRequest(pairAddress: H160, fee: U32, reply: CallReply): (r: Outcome<UniswapV2Pool>)
    ensures !reply.Decoded? ==> r == Err(ReplyTokens(reply).error)
    ensures reply.Decoded? && FirstTuple(reply.tokens).None? ==> r == Err(BatchRequestError(pairAddress))
    ensures reply.Decoded? && FirstTuple(reply.tokens).Some? ==>
      r == PoolFromFields(pairAddress, fee, FirstTuple(reply.tokens).value)
    ensures r.Ok? ==> r.value.address == pairAddress && r.value.fee == fee
    ensures r.Err? ==> r.error in {BatchRequestError(pairAddress), ContractError, EthAbiError}
  {
    var tokens :- ReplyTokens(reply);
    match FirstTuple(tokens)
    case None => Err(BatchRequestError(pairAddress))
    case Some(fields) => PoolFromFields(pairAddress, fee, fields)
  }

  /** The six fields the pool-data contract returns for a pool. */
  function PoolFields(pool: UniswapV2Pool): seq<Token>
  {
    [Address(pool.tokenA), Uint(pool.tokenADecimals), Address(pool.tokenB),
     Uint(pool.tokenBDecimals), Uint(pool.reserve0), Uint(pool.reserve1)]
  }

  /** Decoding the contract's answer for a pool gives that pool back; entries
      after the first and tokens after the first array are never looked at. */
  lemma PoolDataRoundTrip(pool: UniswapV2Pool, laterEntries: seq<Token>, laterTokens: seq<Token>)
    ensures GetPoolDataBatchRequest(pool.address, pool.fee,
      Decoded([Array([Tuple(PoolFields(pool))] + laterEntries)] + laterTokens)) == Ok(pool)
  {
    var fields := PoolFields(pool);
    var tokens := [Array([Tuple(fields)] + laterEntries)] + laterTokens;
    assert FirstTuple(tokens) == Some(fields);
    assert FieldKindsMatch(fields) && IntegerFieldsFit(fields);
  }

  /** Only the first array entry is decoded. */
  lemma OnlyFirstEntryDecoded(pair: H160, fee: U32, first: Token, laterEntries: seq<Token>, laterTokens: seq<Token>)
    ensures GetPoolDataBatchRequest(pair, fee, Decoded([Array([first] + laterEntries)] + laterTokens))
         == GetPoolDataBatchRequest(pair, fee, Decoded([Array([first])]))
  {
    assert FirstTuple([Array([first] + laterEntries)] + laterTokens) == FirstTuple([Array([first])]);
  }

  // ---------------------------------------------------------------------------
  // Pair addresses
  // ---------------------------------------------------------------------------

  /** The non-zero address tokens of `entries`, in their order. */
  function NonZeroAddresses(entries: seq<Token>): (r: seq<H160>)
    ensures |r| <= |entries|
    ensures forall a :: a in r <==> a != ZERO_ADDRESS && Address(a) in entries
    decreases |entries|
  {
    if |entries| == 0 then []
    else
      var last := entries[|entries| - 1];
      var init := entries[..|entries| - 1];
      assert entries == init + [last];
      NonZeroAddresses(init) + (if last.Address? && last.addr != ZERO_ADDRESS then [last.addr] else [])
  }

  /** Filtering distributes over concatenation, so the order of the entries is kept. */
  lemma {:induction false} NonZeroAddressesAppend(front: seq<Token>, back: seq<Token>)
    ensures NonZeroAddresses(front + back) == NonZeroAddresses(front) + NonZeroAddresses(back)
    decreases |back|
  {
    if |back| > 0 {
      var init := back[..|back| - 1];
      assert (front + back)[..|front + back| - 1] == front + init;
      assert back[..|back| - 1] == init;
      NonZeroAddressesAppend(front, init);
    } else {
      assert front + back == front;
    }
  }

  /** The address tokens of non-zero addresses decode to exactly those addresses. */
  lemma {:induction false} NonZeroAddressesOfAddresses(addresses: seq<H160>)
    requires forall i | 0 <= i < |addresses| :: addresses[i] != ZERO_ADDRESS
    ensures NonZeroAddresses(seq(|addresses|, i requires 0 <= i < |addresses| => Address(addresses[i]))) == addresses
    decreases |addresses|
  {
    if |addresses| > 0 {
      var init := addresses[..|addresses| - 1];
      var entries := seq(|addresses|, i requires 0 <= i < |addresses| => Address(addresses[i]));
      assert entries[..|entries| - 1] == seq(|init|, i requires 0 <= i < |init| => Address(init[i]));
      NonZeroAddressesOfAddresses(init);
      assert addresses == init + [addresses[|addresses| - 1]];
    }
  }

  /** `get_uniswap_v2_pairs_batch_request` after the chain call. */
  function PairsDecode(factory: H160, reply: CallReply): (r: Outcome<seq<H160>>)
    ensures !r.Panic?
    ensures !reply.Decoded? ==> r == Err(ReplyTokens(reply).error)
    ensures reply.Decoded? ==>
      (r == Err(BatchRequestError(factory)) <==> |reply.tokens| == 0 || reply.tokens[0].IntoArray().None?)
    ensures r.Ok? ==> r.value == NonZeroAddresses(reply.tokens[0].IntoArray().value)
  {
    var tokens :- ReplyTokens(reply);
    if |tokens| == 0 then Err(BatchRequestError(factory))
    else match tokens[0].IntoArray()
      case None => Err(BatchRequestError(factory))
      case Some(entries) => Ok(NonZeroAddresses(entries))
  }

  /** The pair-address decode as the source runs it, pushing one address at a time. */
  method GetPairsBatchRequest(factory: H160, reply: CallReply) returns (r: Outcome<seq<H160>>)
    ensures r == PairsDecode(factory, reply)
    ensures r.Ok? ==> forall a :: a in r.value ==> a != ZERO_ADDRESS
  {
    if !reply.Decoded? {
      return Err(ReplyTokens(reply).error);
    }
    var tokens := reply.tokens;
    if |tokens| == 0 {
      return Err(BatchRequestError(factory));
    }
    var decodedArray := tokens[0].IntoArray();
    if decodedArray.None? {
      return Err(BatchRequestError(factory));
    }
    var entries := decodedArray.value;
    var pairs: seq<H160> := [];
    var i := 0;
    while i < |entries|
      invariant 0 <= i <= |entries|
      invariant pairs == NonZeroAddresses(entries[..i])
    {
      NonZeroAddressesStep(entries, i);
      match entries[i].IntoAddress() {
        case Some(addr) =>
          if addr != ZERO_ADDRESS {
            pairs := pairs + [addr];
          }
        case None =>
      }
      i := i + 1;
    }
    assert entries[..i] == entries;
    r := Ok(pairs);
  }

  /** One step of the push loop: the next entry adds its address when it is a non-zero address. */
  lemma NonZeroAddressesStep(entries: seq<Token>, i: nat)
    requires i < |entries|
    ensures NonZeroAddresses(entries[..i + 1]) == NonZeroAddresses(entries[..i])
      + (if entries[i].Address? && entries[i].addr != ZERO_ADDRESS then [entries[i].addr] else [])
  {
    assert entries[..i + 1][..i] == entries[..i];
  }

  // ---------------------------------------------------------------------------
  // Pool constructor
  // ---------------------------------------------------------------------------

  /** `new_from_address`: the decoded pool, refused with `PoolDataError` when it is not populated. */
  function NewFromAddress(pairAddress: H160, fee: U32, reply: CallReply): (r: Outcome<UniswapV2Pool>)
    ensures r.Ok? ==> DataIsPopulated(r.value) && r.value.address == pairAddress && r.value.fee == fee
    ensures r == Err(PoolDataError) <==>
      GetPoolDataBatchRequest(pairAddress, fee, reply).Ok? && !DataIsPopulated(GetPoolDataBatchRequest(pairAddress, fee, reply).value)
    ensures !GetPoolDataBatchRequest(pairAddress, fee, reply).Ok? ==> r == GetPoolDataBatchRequest(pairAddress, fee, reply)
    ensures GetPoolDataBatchRequest(pairAddress, fee, reply).Ok? && DataIsPopulated(GetPoolDataBatchRequest(pairAddress, fee, reply).value) ==>
      r == GetPoolDataBatchRequest(pairAddress, fee, reply)
  {
    var pool :- GetPoolDataBatchRequest(pairAddress, fee, reply);
    if !DataIsPopulated(pool) then Err(PoolDataError) else Ok(pool)
  }
}
