/** The PumpSwap events: trades, pool creations and liquidity changes, all of
    fixed layout. */
module PumpSwap {
  import opened Outcomes
  import opened Words
  import opened Borsh

  const BUY: seq<Byte> := [103, 244, 82, 31, 44, 245, 119, 119]
  const SELL: seq<Byte> := [62, 47, 55, 10, 165, 3, 220, 42]
  const CREATE_POOL: seq<Byte> := [177, 49, 12, 210, 160, 118, 167, 116]
  const DEPOSIT: seq<Byte> := [120, 248, 61, 83, 31, 142, 107, 144]
  const WITHDRAW: seq<Byte> := [22, 9, 133, 26, 160, 44, 71, 192]

  /** A buy (base out, quote in) or a sell (base in, quote out). */
  datatype SwapEvent = SwapEvent(
    baseAmount: nat, quoteAmount: nat, lpFee: nat, protocolFee: nat,
    pool: seq<Byte>, user: seq<Byte>, baseMint: seq<Byte>, quoteMint: seq<Byte>)

  datatype CreatePoolEvent = CreatePoolEvent(
    creator: seq<Byte>, baseMint: seq<Byte>, quoteMint: seq<Byte>, lpTokenAmountOut: nat,
    pool: seq<Byte>, lpMint: seq<Byte>, baseAmountIn: nat, quoteAmountIn: nat)

  /** A deposit (base, quote, shares) or a withdrawal (shares, base, quote). */
  datatype LiquidityEvent = LiquidityEvent(first: nat, second: nat, third: nat, pool: seq<Byte>, user: seq<Byte>)

  datatype Event =
    | Buy(swap: SwapEvent)
    | Sell(swap: SwapEvent)
    | CreatePool(create: CreatePoolEvent)
    | Deposit(liquidity: LiquidityEvent)
    | Withdraw(liquidity: LiquidityEvent)

  predicate ValidSwap(e: SwapEvent) {
    && IsU64(e.baseAmount) && IsU64(e.quoteAmount) && IsU64(e.lpFee) && IsU64(e.protocolFee)
    && IsKey(e.pool) && IsKey(e.user) && IsKey(e.baseMint) && IsKey(e.quoteMint)
  }

  predicate ValidCreatePool(e: CreatePoolEvent) {
    && IsKey(e.creator) && IsKey(e.baseMint) && IsKey(e.quoteMint) && IsU64(e.lpTokenAmountOut)
    && IsKey(e.pool) && IsKey(e.lpMint) && IsU64(e.baseAmountIn) && IsU64(e.quoteAmountIn)
  }

  predicate ValidLiquidity(e: LiquidityEvent) {
    IsU64(e.first) && IsU64(e.second) && IsU64(e.third) && IsKey(e.pool) && IsKey(e.user)
  }

  predicate ValidEvent(e: Event) {
    match e
    case Buy(s) => ValidSwap(s)
    case Sell(s) => ValidSwap(s)
    case CreatePool(c) => ValidCreatePool(c)
    case Deposit(l) => ValidLiquidity(l)
    case Withdraw(l) => ValidLiquidity(l)
  }

  // ----- The parsers -----

  function ParseSwap(data: seq<Byte>): Option<SwapEvent> {
    if |data| < 160 then None
    else
      var (baseAmount, o1) := ParseU64LE(data, 0);
      var (quoteAmount, o2) := ParseU64LE(data, o1);
      var (lpFee, o3) := ParseU64LE(data, o2);
      var (protocolFee, o4) := ParseU64LE(data, o3);
      var (pool, o5) := ParsePubkey(data, o4);
      var (user, o6) := ParsePubkey(data, o5);
      var (baseMint, o7) := ParsePubkey(data, o6);
      var (quoteMint, _) := ParsePubkey(data, o7);
      if pool == [] || baseMint == [] then None
      else Some(SwapEvent(baseAmount, quoteAmount, lpFee, protocolFee, pool, user, baseMint, quoteMint))
  }

  function ParseCreatePool(data: seq<Byte>): Option<CreatePoolEvent> {
    if |data| < 184 then None
    else
      var (creator, o1) := ParsePubkey(data, 0);
      var (baseMint, o2) := ParsePubkey(data, o1);
      var (quoteMint, o3) := ParsePubkey(data, o2);
      var (lpTokenAmountOut, o4) := ParseU64LE(data, o3);
      var (pool, o5) := ParsePubkey(data, o4);
      var (lpMint, o6) := ParsePubkey(data, o5);
      var (baseAmountIn, o7) := ParseU64LE(data, o6);
      var (quoteAmountIn, _) := ParseU64LE(data, o7);
      if pool == [] || baseMint == [] || quoteMint == [] then None
      else Some(CreatePoolEvent(creator, baseMint, quoteMint, lpTokenAmountOut, pool, lpMint, baseAmountIn, quoteAmountIn))
  }

  function ParseLiquidity(data: seq<Byte>): Option<LiquidityEvent> {
    if |data| < 88 then None
    else
      var (first, o1) := ParseU64LE(data, 0);
      var (second, o2) := ParseU64LE(data, o1);
      var (third, o3) := ParseU64LE(data, o2);
      var (pool, o4) := ParsePubkey(data, o3);
      var (user, _) := ParsePubkey(data, o4);
      if pool == [] then None else Some(LiquidityEvent(first, second, third, pool, user))
  }

  function ParseEvent(payload: seq<Byte>): Option<Event> {
    if |payload| < 8 then None
    else
      var body := payload[8..];
      if BUY <= payload then
        var e := ParseSwap(body); if e.Some? then Some(Buy(e.value)) else None
      else if SELL <= payload then
        var e := ParseSwap(body); if e.Some? then Some(Sell(e.value)) else None
      else if CREATE_POOL <= payload then
        var e := ParseCreatePool(body); if e.Some? then Some(CreatePool(e.value)) else None
      else if DEPOSIT <= payload then
        var e := ParseLiquidity(body); if e.Some? then Some(Deposit(e.value)) else None
      else if WITHDRAW <= payload then
        var e := ParseLiquidity(body); if e.Some? then Some(Withdraw(e.value)) else None
      else None
  }

  // ----- Encodings -----

  ghost function EncodeSwap(e: SwapEvent): seq<Byte> {
    EncodeUint(e.baseAmount, 8) + (EncodeUint(e.quoteAmount, 8) + (EncodeUint(e.lpFee, 8) + (EncodeUint(e.protocolFee, 8)
    + (e.pool + (e.user + (e.baseMint + e.quoteMint))))))
  }

  ghost function EncodeCreatePool(e: CreatePoolEvent): seq<Byte> {
    e.creator + (e.baseMint + (e.quoteMint + (EncodeUint(e.lpTokenAmountOut, 8)
    + (e.pool + (e.lpMint + (EncodeUint(e.baseAmountIn, 8) + EncodeUint(e.quoteAmountIn, 8)))))))
  }

  ghost function EncodeLiquidity(e: LiquidityEvent): seq<Byte> {
    EncodeUint(e.first, 8) + (EncodeUint(e.second, 8) + (EncodeUint(e.third, 8) + (e.pool + e.user)))
  }

  /** On the wire: eight bytes that tell the event, and its fields. */
  ghost function EncodeEvent(e: Event): seq<Byte> {
    match e
    case Buy(s) => [103, 244, 82, 31, 44, 245, 119, 119] + EncodeSwap(s)
    case Sell(s) => [62, 47, 55, 10, 165, 3, 220, 42] + EncodeSwap(s)
    case CreatePool(c) => [177, 49, 12, 210, 160, 118, 167, 116] + EncodeCreatePool(c)
    case Deposit(l) => [120, 248, 61, 83, 31, 142, 107, 144] + EncodeLiquidity(l)
    case Withdraw(l) => [22, 9, 133, 26, 160, 44, 71, 192] + EncodeLiquidity(l)
  }

  lemma SwapRoundTrip(e: SwapEvent, rest: seq<Byte>)
    requires ValidSwap(e)
    ensures ParseSwap(EncodeSwap(e) + rest) == Some(e)
  {
    var data := EncodeSwap(e) + rest;
    var r7 := e.quoteMint + rest;
    var r6 := e.baseMint + r7;
    var r5 := e.user + r6;
    var r4 := e.pool + r5;
    var r3 := EncodeUint(e.protocolFee, 8) + r4;
    var r2 := EncodeUint(e.lpFee, 8) + r3;
    var r1 := EncodeUint(e.quoteAmount, 8) + r2;
    assert data == EncodeUint(e.baseAmount, 8) + r1;
    assert Ahead(data, 0, EncodeUint(e.baseAmount, 8) + r1);
    ReadU64(data, 0, e.baseAmount, r1);
    ReadU64(data, 8, e.quoteAmount, r2);
    ReadU64(data, 16, e.lpFee, r3);
    ReadU64(data, 24, e.protocolFee, r4);
    ReadPubkey(data, 32, e.pool, r5);
    ReadPubkey(data, 64, e.user, r6);
    ReadPubkey(data, 96, e.baseMint, r7);
    ReadPubkey(data, 128, e.quoteMint, rest);
  }

  lemma CreatePoolRoundTrip(e: CreatePoolEvent, rest: seq<Byte>)
    requires ValidCreatePool(e)
    ensures ParseCreatePool(EncodeCreatePool(e) + rest) == Some(e)
  {
    var data := EncodeCreatePool(e) + rest;
    var r7 := EncodeUint(e.quoteAmountIn, 8) + rest;
    var r6 := EncodeUint(e.baseAmountIn, 8) + r7;
    var r5 := e.lpMint + r6;
    var r4 := e.pool + r5;
    var r3 := EncodeUint(e.lpTokenAmountOut, 8) + r4;
    var r2 := e.quoteMint + r3;
    var r1 := e.baseMint + r2;
    assert data == e.creator + r1;
    assert Ahead(data, 0, e.creator + r1);
    ReadPubkey(data, 0, e.creator, r1);
    ReadPubkey(data, 32, e.baseMint, r2);
    ReadPubkey(data, 64, e.quoteMint, r3);
    ReadU64(data, 96, e.lpTokenAmountOut, r4);
    ReadPubkey(data, 104, e.pool, r5);
    ReadPubkey(data, 136, e.lpMint, r6);
    ReadU64(data, 168, e.baseAmountIn, r7);
    ReadU64(data, 176, e.quoteAmountIn, rest);
  }

  lemma LiquidityRoundTrip(e: LiquidityEvent, rest: seq<Byte>)
    requires ValidLiquidity(e)
    ensures ParseLiquidity(EncodeLiquidity(e) + rest) == Some(e)
  {
    var data := EncodeLiquidity(e) + rest;
    var r4 := e.user + rest;
    var r3 := e.pool + r4;
    var r2 := EncodeUint(e.third, 8) + r3;
    var r1 := EncodeUint(e.second, 8) + r2;
    assert data == EncodeUint(e.first, 8) + r1;
    assert Ahead(data, 0, EncodeUint(e.first, 8) + r1);
    ReadU64(data, 0, e.first, r1);
    ReadU64(data, 8, e.second, r2);
    ReadU64(data, 16, e.third, r3);
    ReadPubkey(data, 24, e.pool, r4);
    ReadPubkey(data, 56, e.user, rest);
  }

  lemma DispatchSwap(body: seq<Byte>)
    requires ParseSwap(body).Some?
    ensures ParseEvent(BUY + body) == Some(Buy(ParseSwap(body).value))
    ensures ParseEvent(SELL + body) == Some(Sell(ParseSwap(body).value))
  {
    Payload(BUY, body, SELL);
    Payload(SELL, body, BUY);
  }

  lemma DispatchCreate(body: seq<Byte>)
    requires ParseCreatePool(body).Some?
    ensures ParseEvent(CREATE_POOL + body) == Some(CreatePool(ParseCreatePool(body).value))
  {
    Payload(CREATE_POOL, body, BUY);
    Payload(CREATE_POOL, body, SELL);
  }

  lemma DispatchLiquidity(body: seq<Byte>)
    requires ParseLiquidity(body).Some?
    ensures ParseEvent(DEPOSIT + body) == Some(Deposit(ParseLiquidity(body).value))
    ensures ParseEvent(WITHDRAW + body) == Some(Withdraw(ParseLiquidity(body).value))
  {
    Payload(DEPOSIT, body, BUY);
    Payload(DEPOSIT, body, SELL);
    Payload(DEPOSIT, body, CREATE_POOL);
    Payload(WITHDRAW, body, BUY);
    Payload(WITHDRAW, body, SELL);
    Payload(WITHDRAW, body, CREATE_POOL);
    Payload(WITHDRAW, body, DEPOSIT);
  }

  /** Any event written with its discriminator is recognised and every field
      recovered, whatever follows. */
  lemma EventRoundTrip(e: Event, rest: seq<Byte>)
    requires ValidEvent(e)
    ensures ParseEvent(EncodeEvent(e) + rest) == Some(e)
  {
    match e {
      case Buy(s) =>
        SwapRoundTrip(s, rest);
        DispatchSwap(EncodeSwap(s) + rest);
        Assoc(BUY, EncodeSwap(s), rest);
      case Sell(s) =>
        SwapRoundTrip(s, rest);
        DispatchSwap(EncodeSwap(s) + rest);
        Assoc(SELL, EncodeSwap(s), rest);
      case CreatePool(c) =>
        CreatePoolRoundTrip(c, rest);
        DispatchCreate(EncodeCreatePool(c) + rest);
        Assoc(CREATE_POOL, EncodeCreatePool(c), rest);
      case Deposit(l) =>
        LiquidityRoundTrip(l, rest);
        DispatchLiquidity(EncodeLiquidity(l) + rest);
        Assoc(DEPOSIT, EncodeLiquidity(l), rest);
      case Withdraw(l) =>
        LiquidityRoundTrip(l, rest);
        DispatchLiquidity(EncodeLiquidity(l) + rest);
        Assoc(WITHDRAW, EncodeLiquidity(l), rest);
    }
  }

  // ----- Arbitrary bytes -----

  lemma CutSwap(data: seq<Byte>)
    requires |data| >= 160
    ensures data[..160] == data[0..8] + (data[8..16] + (data[16..24] + (data[24..32]
      + (data[32..64] + (data[64..96] + (data[96..128] + data[128..160]))))))
  {
    Cut(data, 0, 8, 160);
    Cut(data, 8, 16, 160);
    Cut(data, 16, 24, 160);
    Cut(data, 24, 32, 160);
    Cut(data, 32, 64, 160);
    Cut(data, 64, 96, 160);
    Cut(data, 96, 128, 160);
  }

  lemma CutCreatePool(data: seq<Byte>)
    requires |data| >= 184
    ensures data[..184] == data[0..32] + (data[32..64] + (data[64..96] + (data[96..104]
      + (data[104..136] + (data[136..168] + (data[168..176] + data[176..184]))))))
  {
    Cut(data, 0, 32, 184);
    Cut(data, 32, 64, 184);
    Cut(data, 64, 96, 184);
    Cut(data, 96, 104, 184);
    Cut(data, 104, 136, 184);
    Cut(data, 136, 168, 184);
    Cut(data, 168, 176, 184);
  }

  /** A swap is read exactly from inputs that are long enough, and it is what was
      there. */
  lemma SwapIsWhatWasThere(data: seq<Byte>)
    ensures ParseSwap(data).Some? <==> |data| >= 160
    ensures |data| >= 160 ==> ValidSwap(ParseSwap(data).value) && EncodeSwap(ParseSwap(data).value) == data[..160]
  {
    if |data| >= 160 {
      U64Reencodes(data, 0);
      U64Reencodes(data, 8);
      U64Reencodes(data, 16);
      U64Reencodes(data, 24);
      CutSwap(data);
    }
  }

  lemma CreatePoolIsWhatWasThere(data: seq<Byte>)
    ensures ParseCreatePool(data).Some? <==> |data| >= 184
    ensures |data| >= 184 ==>
      ValidCreatePool(ParseCreatePool(data).value) && EncodeCreatePool(ParseCreatePool(data).value) == data[..184]
  {
    if |data| >= 184 {
      U64Reencodes(data, 96);
      U64Reencodes(data, 168);
      U64Reencodes(data, 176);
      CutCreatePool(data);
    }
  }

  lemma LiquidityIsWhatWasThere(data: seq<Byte>)
    ensures ParseLiquidity(data).Some? <==> |data| >= 88
    ensures |data| >= 88 ==>
      ValidLiquidity(ParseLiquidity(data).value) && EncodeLiquidity(ParseLiquidity(data).value) == data[..88]
  {
    if |data| >= 88 {
      U64Reencodes(data, 0);
      U64Reencodes(data, 8);
      U64Reencodes(data, 16);
      Cut(data, 0, 8, 88);
      Cut(data, 8, 16, 88);
      Cut(data, 16, 24, 88);
      Cut(data, 24, 56, 88);
    }
  }
}
