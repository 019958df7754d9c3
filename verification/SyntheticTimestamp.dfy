/** The point timestamp that stands for a swap record's identity. */
module SyntheticTimestamp {
  import opened Words

  /** Any role but the two valid ones falls into the last slot. */
  datatype Role = Token0 | Token1 | Malformed

  function SwapTimeOffset(role: Role): int {
    match role
    case Token0 => 0
    case Token1 => 1
    case Malformed => 9
  }

  /** Conversion, product and sum each keep the low 64 bits. */
  function SyntheticTimestampNanos(blockTime: nat, logIndex: int, role: Role): int {
    Int64(Int64(Int64(blockTime) * 1_000_000_000) + logIndex * 10 + SwapTimeOffset(role))
  }

  /** The order of records: block, then log, then role. */
  ghost predicate Before(t: nat, i: nat, r: Role, t': nat, i': nat, r': Role) {
    t < t' || (t == t' && (i < i' || (i == i' && RoleBefore(r, r'))))
  }

  ghost predicate RoleBefore(r: Role, r': Role) {
    (r.Token0? && !r'.Token0?) || (r.Token1? && r'.Malformed?)
  }

  lemma NoOverflow(blockTime: nat, logIndex: nat, role: Role)
    requires blockTime <= 9_223_372_035 && logIndex < 100_000_000
    ensures SyntheticTimestampNanos(blockTime, logIndex, role) == blockTime * 1_000_000_000 + logIndex * 10 + SwapTimeOffset(role)
  {
    FitsInt64(blockTime);
    FitsInt64(blockTime * 1_000_000_000);
    FitsInt64(blockTime * 1_000_000_000 + logIndex * 10 + SwapTimeOffset(role));
  }

  /** Timestamps order records exactly as block time, log index and role do, so
      distinct records have distinct timestamps. */
  lemma TimestampsOrder(t: nat, i: nat, r: Role, t': nat, i': nat, r': Role)
    requires t <= 9_223_372_035 && t' <= 9_223_372_035 && i < 100_000_000 && i' < 100_000_000
    ensures SyntheticTimestampNanos(t, i, r) < SyntheticTimestampNanos(t', i', r') <==> Before(t, i, r, t', i', r')
    ensures SyntheticTimestampNanos(t, i, r) == SyntheticTimestampNanos(t', i', r') <==> t == t' && i == i' && r == r'
  {
    NoOverflow(t, i, r);
    NoOverflow(t', i', r');
  }

  /** Every part can be read off a timestamp again: the seconds, the log index and the
      slot of the role. */
  lemma TimestampReads(t: nat, i: nat, r: Role)
    requires t <= 9_223_372_035 && i < 100_000_000
    ensures var n := SyntheticTimestampNanos(t, i, r);
      && n / 1_000_000_000 == t && n % 1_000_000_000 / 10 == i
      && n % 10 == match r case Token0 => 0 case Token1 => 1 case Malformed => 9
  {
    NoOverflow(t, i, r);
  }

  ghost predicate Collide(t: nat, i: nat, r: Role, t': nat, i': nat, r': Role) {
    SyntheticTimestampNanos(t, i, r) == SyntheticTimestampNanos(t', i', r') && !(t == t' && i == i' && r == r')
  }

  /** The hundred-millionth log of a block has the timestamp of the first log of the
      next second. */
  lemma NextSecond()
    ensures Collide(0, 100_000_000, Token0, 1, 0, Token0)
  {
    FitsInt64(0);
    FitsInt64(1_000_000_000);
    NoOverflow(1, 0, Token0);
  }

  /** A hundred million logs in a block is exactly how far this goes. */
  lemma HundredMillionLogs(limit: nat)
    ensures (forall t: nat, i: nat, r, t': nat, i': nat, r' :: t <= 9_223_372_035 && t' <= 9_223_372_035 && i < limit && i' < limit ==>
              !Collide(t, i, r, t', i', r'))
       <==> limit <= 100_000_000
  {
    if limit <= 100_000_000 {
      forall t: nat, i: nat, r, t': nat, i': nat, r' | t <= 9_223_372_035 && t' <= 9_223_372_035 && i < limit && i' < limit
        ensures !Collide(t, i, r, t', i', r')
      {
        TimestampsOrder(t, i, r, t', i', r');
      }
    } else {
      NextSecond();
    }
  }
}
