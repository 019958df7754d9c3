/** The PumpFun events of a Solana transaction. */
module PumpFun {
  import opened Outcomes
  import opened Words
  import opened Borsh

  const CREATE: seq<Byte> := [27, 114, 169, 77, 222, 235, 99, 118]
  const TRADE: seq<Byte> := [189, 219, 127, 211, 78, 230, 97, 238]
  const COMPLETE: seq<Byte> := [95, 114, 97, 156, 212, 46, 152, 8]

  datatype TradeEvent = TradeEvent(
    mint: seq<Byte>, solAmount: nat, tokenAmount: nat, isBuy: bool, user: seq<Byte>, timestamp: int)

  datatype CreateEvent = CreateEvent(
    name: seq<Byte>, symbol: seq<Byte>, uri: seq<Byte>, mint: seq<Byte>, bondingCurve: seq<Byte>, user: seq<Byte>)

  datatype CompleteEvent = CompleteEvent(user: seq<Byte>, mint: seq<Byte>, bondingCurve: seq<Byte>, timestamp: int)

  predicate IsI64(n: int) { -TWO_63 <= n < TWO_63 }

  predicate IsString(s: seq<Byte>) { |s| < TWO_32 }

  predicate ValidTrade(e: TradeEvent) {
    IsKey(e.mint) && IsU64(e.solAmount) && IsU64(e.tokenAmount) && IsKey(e.user) && IsI64(e.timestamp)
  }

  predicate ValidCreate(e: CreateEvent) {
    IsString(e.name) && IsString(e.symbol) && IsString(e.uri) && IsKey(e.mint) && IsKey(e.bondingCurve) && IsKey(e.user)
  }

  predicate ValidComplete(e: CompleteEvent) {
    IsKey(e.user) && IsKey(e.mint) && IsKey(e.bondingCurve) && IsI64(e.timestamp)
  }

  // ----- The parsers -----

  function ParseTrade(data: seq<Byte>): Option<TradeEvent> {
    if |data| < 89 then None
    else
      var (mint, o1) := ParsePubkey(data, 0);
      var (solAmount, o2) := ParseU64LE(data, o1);
      var (tokenAmount, o3) := ParseU64LE(data, o2);
      var (isBuy, o4) := ParseBool(data, o3);
      var (user, o5) := ParsePubkey(data, o4);
      var (timestamp, _) := ParseI64LE(data, o5);
      if mint == [] || user == [] then None
      else Some(TradeEvent(mint, solAmount, tokenAmount, isBuy, user, timestamp))
  }

  function ParseCreate(data: seq<Byte>): Option<CreateEvent> {
    if |data| < 108 then None
    else
      var (name, o1) := ParseString(data, 0);
      var (symbol, o2) := ParseString(data, o1);
      var (uri, o3) := ParseString(data, o2);
      var (mint, o4) := ParsePubkey(data, o3);
      var (bondingCurve, o5) := ParsePubkey(data, o4);
      var (user, _) := ParsePubkey(data, o5);
      if mint == [] || bondingCurve == [] then None
      else Some(CreateEvent(name, symbol, uri, mint, bondingCurve, user))
  }

  function ParseComplete(data: seq<Byte>): Option<CompleteEvent> {
    if |data| < 104 then None
    else
      var (user, o1) := ParsePubkey(data, 0);
      var (mint, o2) := ParsePubkey(data, o1);
      var (bondingCurve, o3) := ParsePubkey(data, o2);
      var (timestamp, _) := ParseI64LE(data, o3);
      if mint == [] || bondingCurve == [] then None
      else Some(CompleteEvent(user, mint, bondingCurve, timestamp))
  }

  // ----- Encodings -----

  ghost function EncodeTrade(e: TradeEvent): seq<Byte>
    requires ValidTrade(e)
  {
    e.mint + (EncodeUint(e.solAmount, 8) + (EncodeUint(e.tokenAmount, 8) + (EncodeBool(e.isBuy) + (e.user + EncodeI64(e.timestamp)))))
  }

  ghost function EncodeCreate(e: CreateEvent): seq<Byte> {
    EncodeString(e.name) + (EncodeString(e.symbol) + (EncodeString(e.uri) + (e.mint + (e.bondingCurve + e.user))))
  }

  ghost function EncodeComplete(e: CompleteEvent): seq<Byte>
    requires ValidComplete(e)
  {
    e.user + (e.mint + (e.bondingCurve + EncodeI64(e.timestamp)))
  }

  /** Six fields and what follows them, grouped field by field. */
  lemma Regroup(a: seq<Byte>, b: seq<Byte>, c: seq<Byte>, d: seq<Byte>, e: seq<Byte>, f: seq<Byte>, rest: seq<Byte>)
    ensures a + (b + (c + (d + (e + f)))) + rest == a + (b + (c + (d + (e + (f + rest)))))
  {
    Assoc(e, f, rest);
    Assoc(d, e + f, rest);
    Assoc(c, d + (e + f), rest);
    Assoc(b, c + (d + (e + f)), rest);
    Assoc(a, b + (c + (d + (e + f))), rest);
  }

  /** A trade is recovered from its encoding, whatever optional fields follow. */
  lemma TradeRoundTrip(e: TradeEvent, rest: seq<Byte>)
    requires ValidTrade(e)
    ensures ParseTrade(EncodeTrade(e) + rest) == Some(e)
  {
    var data := EncodeTrade(e) + rest;
    var r5 := EncodeI64(e.timestamp) + rest;
    var r4 := e.user + r5;
    var r3 := EncodeBool(e.isBuy) + r4;
    var r2 := EncodeUint(e.tokenAmount, 8) + r3;
    var r1 := EncodeUint(e.solAmount, 8) + r2;
    Regroup(e.mint, EncodeUint(e.solAmount, 8), EncodeUint(e.tokenAmount, 8), EncodeBool(e.isBuy), e.user, EncodeI64(e.timestamp), rest);
    assert Ahead(data, 0, e.mint + r1);
    ReadPubkey(data, 0, e.mint, r1);
    ReadU64(data, 32, e.solAmount, r2);
    ReadU64(data, 40, e.tokenAmount, r3);
    ReadBool(data, 48, e.isBuy, r4);
    ReadPubkey(data, 49, e.user, r5);
    ReadI64(data, 81, e.timestamp, rest);
  }

  lemma ReadStrings(data: seq<Byte>, e: CreateEvent, rest: seq<Byte>) returns (next: nat)
    requires ValidCreate(e)
    requires data == EncodeString(e.name) + (EncodeString(e.symbol) + (EncodeString(e.uri) + rest))
    ensures Ahead(data, next, rest)
    ensures var (name, o1) := ParseString(data, 0);
      var (symbol, o2) := ParseString(data, o1);
      var (uri, o3) := ParseString(data, o2);
      name == e.name && symbol == e.symbol && uri == e.uri && o3 == next
  {
    var r2 := EncodeString(e.uri) + rest;
    var r1 := EncodeString(e.symbol) + r2;
    assert Ahead(data, 0, EncodeString(e.name) + r1);
    ReadString(data, 0, e.name, r1);
    var o1 := 4 + |e.name|;
    ReadString(data, o1, e.symbol, r2);
    ReadString(data, o1 + 4 + |e.symbol|, e.uri, rest);
    next := o1 + 4 + |e.symbol| + 4 + |e.uri|;
  }

  /** So is a creation, with its three strings of any length. */
  lemma CreateRoundTrip(e: CreateEvent, rest: seq<Byte>)
    requires ValidCreate(e)
    ensures ParseCreate(EncodeCreate(e) + rest) == Some(e)
  {
    var data := EncodeCreate(e) + rest;
    var r5 := e.user + rest;
    var r4 := e.bondingCurve + r5;
    var r3 := e.mint + r4;
    var r2 := EncodeString(e.uri) + r3;
    var r1 := EncodeString(e.symbol) + r2;
    Regroup(EncodeString(e.name), EncodeString(e.symbol), EncodeString(e.uri), e.mint, e.bondingCurve, e.user, rest);
    var o3 := ReadStrings(data, e, r3);
    ReadPubkey(data, o3, e.mint, r4);
    ReadPubkey(data, o3 + 32, e.bondingCurve, r5);
    ReadPubkey(data, o3 + 64, e.user, rest);
  }

  lemma CompleteRoundTrip(e: CompleteEvent, rest: seq<Byte>)
    requires ValidComplete(e)
    ensures ParseComplete(EncodeComplete(e) + rest) == Some(e)
  {
    var data := EncodeComplete(e) + rest;
    var r3 := EncodeI64(e.timestamp) + rest;
    var r2 := e.bondingCurve + r3;
    var r1 := e.mint + r2;
    assert data == e.user + r1;
    assert Ahead(data, 0, e.user + r1);
    ReadPubkey(data, 0, e.user, r1);
    ReadPubkey(data, 32, e.mint, r2);
    ReadPubkey(data, 64, e.bondingCurve, r3);
    ReadI64(data, 96, e.timestamp, rest);
  }

  // ----- What a parsed event says about arbitrary bytes -----

  lemma SameMiddle(before: seq<Byte>, x: seq<Byte>, y: seq<Byte>, after: seq<Byte>)
    requires |x| == |y|
    ensures before + x + after == before + y + after <==> x == y
  {
    var n := |before|;
    assert (before + x + after)[n..n + |x|] == x;
    assert (before + y + after)[n..n + |x|] == y;
  }

  /** The 89 bytes of a trade, cut at its fields. */
  lemma TradeCuts(data: seq<Byte>, flag: seq<Byte>)
    requires |data| >= 89
    ensures data[0..32] + (data[32..40] + (data[40..48] + (flag + (data[49..81] + data[81..89]))))
         == data[..48] + flag + data[49..89]
  {
    var mint, sol, tokens, tail := data[0..32], data[32..40], data[40..48], data[49..81] + data[81..89];
    assert data[..48] == mint + (sol + tokens);
    assert data[49..89] == tail;
    Assoc(mint + (sol + tokens), flag, tail);
    Assoc(mint, sol + tokens, flag + tail);
    Assoc(sol, tokens, flag + tail);
  }

  lemma TradeFields(data: seq<Byte>)
    requires |data| >= 89
    ensures ParseTrade(data).Some? && ValidTrade(ParseTrade(data).value)
    ensures EncodeTrade(ParseTrade(data).value) == data[..48] + EncodeBool(ParseTrade(data).value.isBuy) + data[49..89]
  {
    U64Reencodes(data, 32);
    U64Reencodes(data, 40);
    I64Reencodes(data, 81);
    TradeCuts(data, EncodeBool(data[48] != 0));
  }

  /** Every long enough input is read as a trade, and the trade's encoding is what
      was read exactly when the flag byte is a proper boolean. */
  lemma TradeIsWhatWasThere(data: seq<Byte>)
    ensures ParseTrade(data).Some? <==> |data| >= 89
    ensures |data| >= 89 ==> ValidTrade(ParseTrade(data).value)
    ensures |data| >= 89 ==> (EncodeTrade(ParseTrade(data).value) <= data <==> data[48] <= 1)
  {
    if |data| >= 89 {
      TradeFields(data);
      BoolReencodes(data, 48);
      SameMiddle(data[..48], EncodeBool(ParseTrade(data).value.isBuy), data[48..49], data[49..89]);
      assert data[..89] == data[..48] + data[48..49] + data[49..89];
      assert EncodeTrade(ParseTrade(data).value) <= data <==> EncodeTrade(ParseTrade(data).value) == data[..89];
    }
  }

  lemma EncodedString(data: seq<Byte>, offset: nat)
    requires offset + 4 <= |data|
    ensures var (s, next) := ParseString(data, offset);
      |EncodeString(s)| == next - offset && next >= offset + 4
  {
  }

  lemma ParsedCreate(data: seq<Byte>)
    requires ParseCreate(data).Some?
    ensures var e := ParseCreate(data).value;
      var o1 := ParseString(data, 0).1;
      var o2 := ParseString(data, o1).1;
      var o3 := ParseString(data, o2).1;
      && |EncodeString(e.name)| == o1 && |EncodeString(e.symbol)| == o2 - o1 && |EncodeString(e.uri)| == o3 - o2
      && o3 + 64 <= |data| && e.mint == data[o3..o3 + 32] && e.bondingCurve == data[o3 + 32..o3 + 64]
      && e.user == if o3 + 96 <= |data| then data[o3 + 64..o3 + 96] else []
  {
    var o1 := ParseString(data, 0).1;
    var o2 := ParseString(data, o1).1;
    EncodedString(data, 0);
    assert o1 + 4 <= |data| ==> |EncodeString(ParseString(data, o1).0)| == ParseString(data, o1).1 - o1;
    assert o2 + 4 <= |data| ==> |EncodeString(ParseString(data, o2).0)| == ParseString(data, o2).1 - o2;
  }

  lemma Pieces(a: seq<Byte>, b: seq<Byte>, c: seq<Byte>, d: seq<Byte>, data: seq<Byte>)
    ensures a + (b + (c + d)) <= data <==>
      && |a| + |b| + |c| + |d| <= |data|
      && a == data[..|a|]
      && b == data[|a|..|a| + |b|]
      && c == data[|a| + |b|..|a| + |b| + |c|]
      && d == data[|a| + |b| + |c|..|a| + |b| + |c| + |d|]
  {
    var all, n := a + (b + (c + d)), |a| + |b| + |c| + |d|;
    assert all[..|a|] == a && all[|a|..|a| + |b|] == b;
    assert all[|a| + |b|..|a| + |b| + |c|] == c && all[|a| + |b| + |c|..] == d;
    if n <= |data| {
      assert data[..n] == data[..|a|] + (data[|a|..|a| + |b|]
        + (data[|a| + |b|..|a| + |b| + |c|] + data[|a| + |b| + |c|..n]));
      assert all <= data <==> all == data[..n];
    }
  }

  /** A parsed creation is what was there exactly when all three strings lay in the
      data and three keys followed them; a string that announces more than there
      is gives an event that was never written. */
  lemma CreateIsWhatWasThere(data: seq<Byte>)
    requires ParseCreate(data).Some?
    ensures var e := ParseCreate(data).value;
      var o1 := ParseString(data, 0).1;
      var o2 := ParseString(data, o1).1;
      var o3 := ParseString(data, o2).1;
      (ValidCreate(e) && EncodeCreate(e) <= data)
      <==> (StringFits(data, 0) && StringFits(data, o1) && StringFits(data, o2) && o3 + 96 <= |data|)
  {
    var e := ParseCreate(data).value;
    var o1 := ParseString(data, 0).1;
    var o2 := ParseString(data, o1).1;
    var o3 := ParseString(data, o2).1;
    ParsedCreate(data);
    var keys := e.mint + (e.bondingCurve + e.user);
    Pieces(EncodeString(e.name), EncodeString(e.symbol), EncodeString(e.uri), keys, data);
    assert EncodeCreate(e) == EncodeString(e.name) + (EncodeString(e.symbol) + (EncodeString(e.uri) + keys));
    StringReencodes(data, 0);
    StringReencodes(data, o1);
    StringReencodes(data, o2);
    if o3 + 96 <= |data| {
      Cut(data, o3, o3 + 32, o3 + 96);
      Cut(data, o3 + 32, o3 + 64, o3 + 96);
    }
    StringsAreShort(data, 0);
    StringsAreShort(data, o1);
    StringsAreShort(data, o2);
  }

  /** A payload of 108 bytes whose name announces sixteen million. */
  const OVERLONG_NAME: seq<Byte> := [1, 1, 1, 1] + Zeros(104)

  /** It is read as a creation without name, symbol and uri, an event that nobody
      wrote. */
  lemma OverlongName()
    ensures ParseCreate(OVERLONG_NAME).Some?
    ensures var e := ParseCreate(OVERLONG_NAME).value;
      e.name == [] && e.symbol == [] && e.uri == [] && !(ValidCreate(e) && EncodeCreate(e) <= OVERLONG_NAME)
  {
    var data := OVERLONG_NAME;
    assert data[0..4] == [1, 1, 1, 1];
    assert LittleEndian([1]) == 1 && LittleEndian([1, 1]) == 257 by {
      assert [1][1..] == [] && [1, 1][1..] == [1];
    }
    assert [1, 1, 1][1..] == [1, 1] && [1, 1, 1, 1][1..] == [1, 1, 1];
    assert LittleEndian(data[0..4]) > |data|;
    NothingThere(data, 4);
    NothingThere(data, 8);
    CreateIsWhatWasThere(data);
  }

  /** Four zero bytes announce an empty string. */
  lemma NothingThere(data: seq<Byte>, offset: nat)
    requires offset + 4 <= |data| && data[offset..offset + 4] == Zeros(4)
    ensures ParseString(data, offset) == ([], offset + 4)
  {
    assert Zeros(4)[1..] == Zeros(3) && Zeros(3)[1..] == Zeros(2) && Zeros(2)[1..] == Zeros(1) && Zeros(1)[1..] == [];
    assert LittleEndian(Zeros(4)) == 0;
  }

  lemma StringsAreShort(data: seq<Byte>, offset: nat)
    requires offset <= |data|
    ensures IsString(ParseString(data, offset).0)
  {
    if offset + 4 <= |data| {
      EncodeDecoded(data[offset..offset + 4]);
      FieldSizes();
    }
  }

  // ----- One transaction -----

  datatype Event = Trade(trade: TradeEvent) | Create(create: CreateEvent) | Complete(complete: CompleteEvent)

  /** The event of a log payload, by its first eight bytes. */
  function ParseEvent(payload: seq<Byte>): Option<Event> {
    if |payload| < 8 then None
    else if TRADE <= payload then
      var e := ParseTrade(payload[8..]); if e.Some? then Some(Trade(e.value)) else None
    else if CREATE <= payload then
      var e := ParseCreate(payload[8..]); if e.Some? then Some(Create(e.value)) else None
    else if COMPLETE <= payload then
      var e := ParseComplete(payload[8..]); if e.Some? then Some(Complete(e.value)) else None
    else None
  }

  predicate ValidEvent(e: Event) {
    match e
    case Trade(t) => ValidTrade(t)
    case Create(c) => ValidCreate(c)
    case Complete(c) => ValidComplete(c)
  }

  /** On the wire: eight bytes that tell the event, and its fields. */
  ghost function EncodeEvent(e: Event): seq<Byte>
    requires ValidEvent(e)
  {
    match e
    case Trade(t) => [189, 219, 127, 211, 78, 230, 97, 238] + EncodeTrade(t)
    case Create(c) => [27, 114, 169, 77, 222, 235, 99, 118] + EncodeCreate(c)
    case Complete(c) => [95, 114, 97, 156, 212, 46, 152, 8] + EncodeComplete(c)
  }

  lemma Dispatch(body: seq<Byte>)
    ensures ParseTrade(body).Some? ==> ParseEvent(TRADE + body) == Some(Trade(ParseTrade(body).value))
    ensures ParseCreate(body).Some? ==> ParseEvent(CREATE + body) == Some(Create(ParseCreate(body).value))
    ensures ParseComplete(body).Some? ==> ParseEvent(COMPLETE + body) == Some(Complete(ParseComplete(body).value))
  {
    Payload(TRADE, body, CREATE);
    Payload(CREATE, body, TRADE);
    Payload(COMPLETE, body, TRADE);
    Payload(COMPLETE, body, CREATE);
  }

  /** Any event written with its discriminator is recognised and recovered. */
  lemma EventRoundTrip(e: Event, rest: seq<Byte>)
    requires ValidEvent(e)
    ensures ParseEvent(EncodeEvent(e) + rest) == Some(e)
  {
    match e {
      case Trade(t) =>
        TradeRoundTrip(t, rest);
        Dispatch(EncodeTrade(t) + rest);
        Assoc(TRADE, EncodeTrade(t), rest);
      case Create(c) =>
        CreateRoundTrip(c, rest);
        Dispatch(EncodeCreate(c) + rest);
        Assoc(CREATE, EncodeCreate(c), rest);
      case Complete(c) =>
        CompleteRoundTrip(c, rest);
        Dispatch(EncodeComplete(c) + rest);
        Assoc(COMPLETE, EncodeComplete(c), rest);
    }
  }

  /** A stored trade; the event's own time is used when it is positive. */
  datatype TradeRow = TradeRow(pool: seq<Byte>, from: seq<Byte>, buy: bool, amount: nat, time: int, eventIndex: nat, swapIndex: nat)

  function RowOf(e: TradeEvent, txTime: int, eventIndex: nat, swapIndex: nat): TradeRow {
    TradeRow(e.mint, e.user, e.isBuy, e.solAmount, if e.timestamp > 0 then e.timestamp else txTime, eventIndex, swapIndex)
  }

  predicate IsTrade(payload: seq<Byte>) {
    ParseEvent(payload).Some? && ParseEvent(payload).value.Trade?
  }

  /** The row numbered k stores the trade of payload `row.eventIndex`: the coin as its
      pool, who traded, the direction, the amount of SOL, and the time of the event, or of
      the transaction when the event has none. */
  ghost predicate Stores(row: TradeRow, events: seq<seq<Byte>>, txTime: int, k: nat) {
    && row.eventIndex < |events| && IsTrade(events[row.eventIndex]) && row.swapIndex == k
    && var e := ParseEvent(events[row.eventIndex]).value.trade;
       && row.pool == e.mint && row.from == e.user && row.buy == e.isBuy && row.amount == e.solAmount
       && (e.timestamp > 0 ==> row.time == e.timestamp) && (e.timestamp <= 0 ==> row.time == txTime)
  }

  ghost predicate HasRow(rows: seq<TradeRow>, i: nat) {
    exists k :: 0 <= k < |rows| && rows[k].eventIndex == i
  }

  /** The rows of the payloads before `n`: numbered from zero, in payload order,
      one for every trade. */
  ghost predicate TradesUpTo(rows: seq<TradeRow>, events: seq<seq<Byte>>, txTime: int, n: nat) {
    && n <= |events|
    && (forall k :: 0 <= k < |rows| ==> Stores(rows[k], events, txTime, k) && rows[k].eventIndex < n)
    && (forall j, k :: 0 <= j < k < |rows| ==> rows[j].eventIndex < rows[k].eventIndex)
    && forall i :: 0 <= i < n && IsTrade(events[i]) ==> HasRow(rows, i)
  }

  lemma StillThere(rows: seq<TradeRow>, row: TradeRow)
    ensures forall i: nat :: HasRow(rows, i) ==> HasRow(rows + [row], i)
    ensures HasRow(rows + [row], row.eventIndex)
  {
    forall i: nat | HasRow(rows, i) ensures HasRow(rows + [row], i) {
      var k :| 0 <= k < |rows| && rows[k].eventIndex == i;
      assert (rows + [row])[k].eventIndex == i;
    }
    assert (rows + [row])[|rows|] == row;
  }

  lemma TradeAppended(rows: seq<TradeRow>, events: seq<seq<Byte>>, txTime: int, i: nat, row: TradeRow)
    requires i < |events| && TradesUpTo(rows, events, txTime, i)
    requires row.eventIndex == i && Stores(row, events, txTime, |rows|)
    ensures TradesUpTo(rows + [row], events, txTime, i + 1)
  {
    StillThere(rows, row);
  }

  method ExtractTrades(events: seq<seq<Byte>>, txTime: int) returns (rows: seq<TradeRow>)
    ensures TradesUpTo(rows, events, txTime, |events|)
  {
    rows := [];
    var swapIndex: nat := 0;
    for i := 0 to |events|
      invariant swapIndex == |rows| && TradesUpTo(rows, events, txTime, i)
    {
      var e := ParseEvent(events[i]);
      if e.Some? && e.value.Trade? {
        var row := RowOf(e.value.trade, txTime, i, swapIndex);
        TradeAppended(rows, events, txTime, i, row);
        rows := rows + [row];
        swapIndex := swapIndex + 1;
      }
    }
  }
}
