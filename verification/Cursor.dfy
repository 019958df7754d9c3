/** The sync cursor as it is persisted: a decimal timestamp, a colon, an id. */
module Cursor {
  import opened Outcomes

  const MIN_INT64: int := -0x8000_0000_0000_0000
  const MAX_INT64: int := 0x7fff_ffff_ffff_ffff

  predicate IsInt64(n: int) { MIN_INT64 <= n <= MAX_INT64 }

  /** A position in the source: everything up to and including it is behind. */
  datatype Key = Key(ts: int, id: string)

  function Digit(d: nat): char
    requires d < 10
  {
    '0' + d as char
  }

  predicate IsDigit(c: char) { '0' <= c <= '9' }

  function FormatNat(n: nat): string {
    if n < 10 then [Digit(n)] else FormatNat(n / 10) + [Digit(n % 10)]
  }

  function FormatInt(n: int): string {
    if n < 0 then ['-'] + FormatNat(-n) else FormatNat(n)
  }

  function FormatCursor(k: Key): string {
    FormatInt(k.ts) + [':'] + k.id
  }

  function ParseDigits(s: string): Result<nat> {
    if s == [] then Err
    else if !IsDigit(s[|s| - 1]) then Err
    else
      var d := (s[|s| - 1] - '0') as int;
      if |s| == 1 then Ok(d)
      else
        var high := ParseDigits(s[..|s| - 1]);
        if high.Err? then Err else Ok(10 * high.value + d)
  }

  /** Base ten, an optional sign, 64 bits. */
  function ParseInt(s: string): Result<int> {
    var negative := s != [] && s[0] == '-';
    var digits := ParseDigits(if s != [] && (s[0] == '-' || s[0] == '+') then s[1..] else s);
    if digits.Err? then Err
    else
      var m: int := digits.value;
      var n := if negative then -m else m;
      if IsInt64(n) then Ok(n) else Err
  }

  /** The part before the first colon, if there is one. */
  function ColonAt(s: string): (i: nat)
    ensures i <= |s|
    ensures i < |s| ==> s[i] == ':'
    ensures forall j :: 0 <= j < i ==> s[j] != ':'
  {
    if s == [] || s[0] == ':' then 0 else 1 + ColonAt(s[1..])
  }

  function ParseCursor(s: string): Result<Key> {
    var i := ColonAt(s);
    if i == |s| then Err
    else
      var ts := ParseInt(s[..i]);
      if ts.Err? then Err else Ok(Key(ts.value, s[i + 1..]))
  }

  // ----- Round trip -----

  lemma {:induction false} NatRoundTrip(n: nat)
    ensures FormatNat(n) != [] && ParseDigits(FormatNat(n)) == Ok(n)
    ensures forall i :: 0 <= i < |FormatNat(n)| ==> IsDigit(FormatNat(n)[i])
  {
    if n >= 10 {
      NatRoundTrip(n / 10);
      var s := FormatNat(n);
      assert s[..|s| - 1] == FormatNat(n / 10);
    }
  }

  lemma IntRoundTrip(n: int)
    requires IsInt64(n)
    ensures ParseInt(FormatInt(n)) == Ok(n)
    ensures ':' !in FormatInt(n)
  {
    var m: nat := if n < 0 then -n else n;
    NatRoundTrip(m);
    if n < 0 {
      assert FormatInt(n)[1..] == FormatNat(m);
    } else {
      assert IsDigit(FormatInt(n)[0]);
    }
  }

  /** Reading a written cursor gives the position back, for every 64-bit timestamp
      and every id, colons included. */
  lemma CursorRoundTrip(k: Key)
    requires IsInt64(k.ts)
    ensures ParseCursor(FormatCursor(k)) == Ok(k)
  {
    IntRoundTrip(k.ts);
    var s, i := FormatCursor(k), ColonAt(FormatCursor(k));
    var n := |FormatInt(k.ts)|;
    assert s[n] == ':';
    assert forall j :: 0 <= j < n ==> s[j] == FormatInt(k.ts)[j];
    assert i == n;
    assert s[..n] == FormatInt(k.ts) && s[n + 1..] == k.id;
  }

  /** Distinct positions have distinct cursors, and a cursor that can be read at
      all holds a 64-bit timestamp. */
  lemma CursorsDiffer(a: Key, b: Key, s: string)
    requires IsInt64(a.ts) && IsInt64(b.ts)
    ensures FormatCursor(a) == FormatCursor(b) <==> a == b
    ensures ParseCursor(s).Ok? ==> IsInt64(ParseCursor(s).value.ts)
  {
    CursorRoundTrip(a);
    CursorRoundTrip(b);
  }
}
