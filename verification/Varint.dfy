/** SQLite variable-length integers (section 1.6 of the SQLite Database File
    Format): the bounded decoder, the canonical encoder and the signed rowid.
 */
module Varint {
  import opened Sql
  import opened Bytes

  datatype Decoded = Decoded(value: nat, next: nat)

  const TWO_63: int := 0x8000_0000_0000_0000
  const TWO_64: int := 0x1_0000_0000_0000_0000

  /** 128 to the power n. */
  function Radix7(n: nat): (r: nat)
    ensures r >= 1
  {
    if n == 0 then 1 else 128 * Radix7(n - 1)
  }

  /** The decoder from byte number `index` on, with the value gathered so far.
      Eight bytes give seven bits each, the ninth gives all its eight. */
  function DecodeFrom(data: seq<byte>, position: nat, limit: nat, index: nat, value: nat): (r: Option<Decoded>)
    requires limit <= |data| && index <= 8 && value < Radix7(index)
    ensures r.Some? ==> position < r.value.next <= limit && r.value.next <= position + 9 - index
    ensures r.Some? ==> r.value.value < TWO_64
    decreases 9 - index
  {
    if position >= limit then None
    else if index == 8 then
      assert Radix7(8) == 0x100_0000_0000_0000;
      Some(Decoded(value * 256 + data[position], position + 1))
    else
      assert Radix7(index + 1) == 128 * Radix7(index);
      Radix7Bound(index + 1);
      var next := value * 128 + data[position] % 128;
      if data[position] < 128 then Some(Decoded(next, position + 1))
      else DecodeFrom(data, position + 1, limit, index + 1, next)
  }

  lemma Radix7Bound(n: nat)
    requires n <= 8
    ensures Radix7(n) <= 0x100_0000_0000_0000
    decreases 8 - n
  {
    if n < 8 {
      Radix7Bound(n + 1);
    } else {
      assert Radix7(8) == 0x100_0000_0000_0000;
    }
  }

  /** It consumes one to nine bytes, stays within the limit and below 2^64. */
  function Decode(data: seq<byte>, position: nat, limit: nat): (r: Option<Decoded>)
    requires limit <= |data|
    ensures r.Some? ==> position < r.value.next <= limit && r.value.next <= position + 9
    ensures r.Some? ==> r.value.value < TWO_64
  {
    DecodeFrom(data, position, limit, 0, 0)
  }

  // ----- what a varint is

  /** The low seven bits of `n` bytes, the first one most significant. */
  function Bits(data: seq<byte>, at: nat, n: nat): nat
    requires at + n <= |data|
  {
    if n == 0 then 0 else 128 * Bits(data, at, n - 1) + data[at + n - 1] % 128
  }

  /** The value of a varint of `n` bytes. */
  function Value(data: seq<byte>, at: nat, n: nat): nat
    requires 1 <= n <= 9 && at + n <= |data|
  {
    if n == 9 then 256 * Bits(data, at, 8) + data[at + 8] else Bits(data, at, n)
  }

  /** The bytes from `at` up to `next` are a varint of value `v`: all but the last have
      the high bit set; there are at most nine, and the ninth counts with all its bits. */
  predicate IsVarint(data: seq<byte>, at: nat, limit: nat, v: nat, next: nat) {
    && at < next <= limit <= |data| && next - at <= 9
    && (forall k :: at <= k < next - 1 ==> data[k] >= 128)
    && (next - at == 9 || data[next - 1] < 128)
    && v == Value(data, at, next - at)
  }

  lemma {:induction false} VarintStops(data: seq<byte>, at: nat, limit: nat, n: nat, v: nat, next: nat)
    requires 1 <= n <= 9 && at + n <= limit <= |data|
    requires forall k :: at <= k < at + n - 1 ==> data[k] >= 128
    requires n == 9 || data[at + n - 1] < 128
    ensures IsVarint(data, at, limit, v, next) && next > at + n - 1 <==> next == at + n && v == Value(data, at, n)
  {
    hide Bits;
  }

  lemma {:induction false} VarintGoesOn(data: seq<byte>, at: nat, limit: nat, n: nat, v: nat, next: nat)
    requires 1 <= n < 9 && at + n <= limit <= |data| && data[at + n - 1] >= 128
    ensures IsVarint(data, at, limit, v, next) && next > at + n - 1 <==>
            IsVarint(data, at, limit, v, next) && next > at + n
  {
    hide Bits;
  }

  lemma {:induction false} DecodeRest(data: seq<byte>, at: nat, limit: nat, index: nat, v: nat, next: nat)
    requires limit <= |data| && index <= 8 && at + index <= limit && Bits(data, at, index) < Radix7(index)
    requires forall k :: at <= k < at + index ==> data[k] >= 128
    ensures DecodeFrom(data, at + index, limit, index, Bits(data, at, index)) == Some(Decoded(v, next))
            <==> IsVarint(data, at, limit, v, next) && next > at + index
    decreases 9 - index
  {
    hide IsVarint, DecodeFrom, Radix7;
    var position := at + index;
    VarintAdvances(data, at, limit, v, next);
    if position >= limit {
      DecodeTruncated(data, position, limit, index, Bits(data, at, index));
    } else if index == 8 || data[position] < 128 {
      VarintStops(data, at, limit, index + 1, v, next);
      DecodeLast(data, position, limit, index, Bits(data, at, index));
    } else {
      VarintGoesOn(data, at, limit, index + 1, v, next);
      DecodeStep(data, position, limit, index, Bits(data, at, index), data[position] - 128);
      DecodeRest(data, at, limit, index + 1, v, next);
    }
  }

  /** The decoder finds exactly the varints. */
  lemma {:induction false} DecodeIs(data: seq<byte>, at: nat, limit: nat, v: nat, next: nat)
    requires limit <= |data|
    ensures Decode(data, at, limit) == Some(Decoded(v, next)) <==> IsVarint(data, at, limit, v, next)
  {
    hide IsVarint, DecodeFrom;
    if at <= limit {
      DecodeRest(data, at, limit, 0, v, next);
    } else {
      DecodeTruncated(data, at, limit, 0, 0);
    }
    VarintAdvances(data, at, limit, v, next);
  }

  lemma VarintAdvances(data: seq<byte>, at: nat, limit: nat, v: nat, next: nat)
    ensures IsVarint(data, at, limit, v, next) ==> at < next <= limit <= |data|
  {
  }

  /** At one place there is one varint. */
  lemma {:induction false} VarintUnique(data: seq<byte>, at: nat, limit: nat, v: nat, next: nat,
                                        other: nat, w: nat, end: nat)
    requires IsVarint(data, at, limit, v, next) && IsVarint(data, at, other, w, end)
    ensures v == w && next == end
  {
    hide Value;
  }

  lemma {:induction false} BitsMoved(data: seq<byte>, at: nat, other: seq<byte>, to: nat, n: nat)
    requires at + n <= |data| && to + n <= |other| && other[to..to + n] == data[at..at + n]
    ensures Bits(other, to, n) == Bits(data, at, n)
  {
    if n > 0 {
      assert other[to..to + n - 1] == other[to..to + n][..n - 1];
      assert data[at..at + n - 1] == data[at..at + n][..n - 1];
      BitsMoved(data, at, other, to, n - 1);
      assert other[to + n - 1] == other[to..to + n][n - 1];
      assert data[at + n - 1] == data[at..at + n][n - 1];
    }
  }

  lemma {:induction false} ValueMoved(data: seq<byte>, at: nat, other: seq<byte>, to: nat, n: nat)
    requires 1 <= n <= 9 && at + n <= |data| && to + n <= |other| && other[to..to + n] == data[at..at + n]
    ensures Value(other, to, n) == Value(data, at, n)
    ensures forall k :: 0 <= k < n ==> other[to..][k] == data[at..][k]
  {
    assert forall k :: 0 <= k < n ==> other[to..to + n][k] == other[to..][k];
    assert forall k :: 0 <= k < n ==> data[at..at + n][k] == data[at..][k];
    if n == 9 {
      assert other[to..to + 8] == other[to..to + 9][..8];
      assert data[at..at + 8] == data[at..at + 9][..8];
      BitsMoved(data, at, other, to, 8);
      assert other[to + 8] == other[to..][8] && data[at + 8] == data[at..][8];
    } else {
      BitsMoved(data, at, other, to, n);
    }
  }

  /** The same bytes elsewhere are the same varint. */
  lemma {:induction false} VarintMoved(data: seq<byte>, at: nat, limit: nat, v: nat, next: nat,
                                       other: seq<byte>, to: nat, otherLimit: nat)
    requires IsVarint(data, at, limit, v, next)
    requires to + (next - at) <= otherLimit <= |other| && other[to..to + (next - at)] == data[at..next]
    ensures IsVarint(other, to, otherLimit, v, to + (next - at))
  {
    hide Value;
    var n := next - at;
    ValueMoved(data, at, other, to, n);
    forall k | to <= k < to + n - 1 ensures other[k] >= 128 {
      assert other[k] == other[to..][k - to] == data[at..][k - to] == data[at + (k - to)];
    }
    assert other[to + (n - 1)] == other[to..][n - 1] == data[at..][n - 1] == data[at + (n - 1)];
  }

  // ----- the canonical encoder

  /** `n` continuation bytes: seven bits each, high bit set. */
  function Continuations(v: nat, n: nat): (bytes: seq<byte>)
    ensures |bytes| == n
  {
    if n == 0 then [] else Continuations(v / 128, n - 1) + [128 + v % 128]
  }

  /** How many seven-bit groups the value needs. */
  function GroupCount(v: nat): (n: nat)
    ensures n >= 1 && v < Radix7(n) && (n > 1 ==> Radix7(n - 1) <= v)
  {
    if v < 128 then 1 else GroupCount(v / 128) + 1
  }

  /** The shortest encoding; values of 57 bits and more take all nine bytes. */
  function Encode(v: nat): (bytes: seq<byte>)
    requires v < TWO_64
    ensures 1 <= |bytes| <= 9
  {
    if v < 0x100_0000_0000_0000 then
      GroupCountBound(v);
      Continuations(v / 128, GroupCount(v) - 1) + [v % 128]
    else Continuations(v / 256, 8) + [v % 256]
  }

  lemma GroupCountBound(v: nat)
    requires v < 0x100_0000_0000_0000
    ensures GroupCount(v) <= 8
  {
    assert Radix7(8) == 0x100_0000_0000_0000;
    if GroupCount(v) > 8 {
      Radix7Grows(8, GroupCount(v) - 1);
    }
  }

  lemma Radix7Grows(m: nat, n: nat)
    requires m <= n
    ensures Radix7(m) <= Radix7(n)
  {
    if m < n { Radix7Grows(m, n - 1); }
  }

  lemma ContinuationsLast(v: nat, n: nat)
    requires n > 0
    ensures Continuations(v, n)[..n - 1] == Continuations(v / 128, n - 1)
    ensures Continuations(v, n)[n - 1] == 128 + v % 128
  {
  }

  lemma {:induction false} DecodeStep(data: seq<byte>, position: nat, limit: nat, index: nat, value: nat, d: nat)
    requires position < limit <= |data| && index < 8 && value < Radix7(index) && d < 128
    requires data[position] == 128 + d
    ensures value * 128 + d < Radix7(index + 1)
    ensures DecodeFrom(data, position, limit, index, value)
            == DecodeFrom(data, position + 1, limit, index + 1, value * 128 + d)
  {
    assert Radix7(index + 1) == 128 * Radix7(index);
  }

  /** Decoding through continuation bytes gathers their seven-bit groups. */
  lemma {:induction false} DecodeContinuations(data: seq<byte>, position: nat, limit: nat, v: nat, n: nat)
    requires limit <= |data| && position + n < limit && n <= 8 && v < Radix7(n)
    requires data[position..position + n] == Continuations(v, n)
    ensures DecodeFrom(data, position, limit, 0, 0) == DecodeFrom(data, position + n, limit, n, v)
  {
    hide DecodeFrom;
    if n > 0 {
      ContinuationsLast(v, n);
      assert Radix7(n) == 128 * Radix7(n - 1);
      hide Continuations, Radix7;
      assert data[position..position + n - 1] == data[position..position + n][..n - 1];
      assert data[position + n - 1] == data[position..position + n][n - 1];
      DecodeContinuations(data, position, limit, v / 128, n - 1);
      DecodeStep(data, position + n - 1, limit, n - 1, v / 128, v % 128);
    }
  }

  /** The decoder inverts the canonical encoder, whatever surrounds the bytes. */
  lemma {:induction false} DecodeEncode(before: seq<byte>, v: nat, after: seq<byte>, limit: nat)
    requires v < TWO_64
    requires |before| + |Encode(v)| <= limit <= |before + Encode(v) + after|
    ensures Decode(before + Encode(v) + after, |before|, limit) == Some(Decoded(v, |before| + |Encode(v)|))
  {
    hide Encode, Decode, Continuations, Radix7;
    EncodeShape(v);
    var data := before + Encode(v) + after;
    var n := |Encode(v)| - 1;
    assert data[|before|..|before| + n] == Encode(v)[..n];
    assert data[|before| + n] == Encode(v)[n];
    DecodeGroups(data, |before|, limit, if v < 0x100_0000_0000_0000 then v / 128 else v / 256, n);
  }

  lemma {:induction false} DecodeGroups(data: seq<byte>, position: nat, limit: nat, high: nat, n: nat)
    requires n <= 8 && position + n < limit <= |data| && high < Radix7(n)
    requires data[position..position + n] == Continuations(high, n)
    requires n == 8 || data[position + n] < 128
    ensures Decode(data, position, limit)
            == Some(Decoded(if n == 8 then high * 256 + data[position + n] else high * 128 + data[position + n],
                            position + n + 1))
  {
    hide Continuations, DecodeFrom, Radix7;
    DecodeContinuations(data, position, limit, high, n);
    DecodeLast(data, position + n, limit, n, high);
  }

  lemma {:induction false} DecodeLast(data: seq<byte>, position: nat, limit: nat, index: nat, value: nat)
    requires position < limit <= |data| && index <= 8 && value < Radix7(index)
    requires index == 8 || data[position] < 128
    ensures DecodeFrom(data, position, limit, index, value)
            == Some(Decoded(if index == 8 then value * 256 + data[position] else value * 128 + data[position],
                            position + 1))
  {
  }

  lemma {:induction false} EncodeShape(v: nat)
    requires v < TWO_64
    ensures var n := |Encode(v)| - 1;
            var small := v < 0x100_0000_0000_0000;
            var high := if small then v / 128 else v / 256;
            && n <= 8 && (small ==> n < 8) && (!small ==> n == 8)
            && high < Radix7(n)
            && Encode(v)[..n] == Continuations(high, n)
            && Encode(v)[n] == (if small then v % 128 else v % 256)
            && v == if small then high * 128 + v % 128 else high * 256 + v % 256
  {
    assert Radix7(8) == 0x100_0000_0000_0000;
    if v < 0x100_0000_0000_0000 {
      GroupCountBound(v);
      assert Radix7(GroupCount(v)) == 128 * Radix7(GroupCount(v) - 1);
    }
  }

  /** The decoding loop. */
  method ReadVarint(data: seq<byte>, start: nat, limit: nat) returns (r: Option<Decoded>)
    requires limit <= |data|
    ensures r == Decode(data, start, limit)
  {
    hide DecodeFrom, Radix7;
    var value: nat := 0;
    var position: nat := start;
    assert value < Radix7(0);
    for index := 0 to 9
      invariant index <= 8 && value < Radix7(index)
      invariant DecodeFrom(data, position, limit, index, value) == Decode(data, start, limit)
    {
      if position >= limit {
        DecodeTruncated(data, position, limit, index, value);
        return None;
      }
      var b := data[position];
      if index == 8 || b < 128 {
        DecodeLast(data, position, limit, index, value);
      } else {
        DecodeStep(data, position, limit, index, value, b - 128);
      }
      position := position + 1;
      value := if index == 8 then value * 256 + b else value * 128 + b % 128;
      if index == 8 || b < 128 {
        return Some(Decoded(value, position));
      }
    }
    assert false;
  }

  lemma DecodeTruncated(data: seq<byte>, position: nat, limit: nat, index: nat, value: nat)
    requires limit <= position && limit <= |data| && index <= 8 && value < Radix7(index)
    ensures DecodeFrom(data, position, limit, index, value).None?
  {
  }

  // ----- rowids

  /** Two's complement: the signed reading of a 64-bit value. */
  function Signed(v: nat): (i: int)
    requires v < TWO_64
    ensures -TWO_63 <= i < TWO_63
  {
    if v >= TWO_63 then v - TWO_64 else v
  }

  function Unsigned(i: int): (v: nat)
    requires -TWO_63 <= i < TWO_63
    ensures v < TWO_64
  {
    i % TWO_64
  }

  /** The rowid conversion is a bijection onto the signed 64-bit values, and every
      rowid survives its canonical varint. */
  lemma {:induction false} RowidRoundTrip(i: int, v: nat, before: seq<byte>, after: seq<byte>)
    requires -TWO_63 <= i < TWO_63 && v < TWO_64
    ensures Signed(Unsigned(i)) == i && Unsigned(Signed(v)) == v
    ensures |before + Encode(Unsigned(i)) + after| == |before| + |Encode(Unsigned(i))| + |after|
    ensures var data := before + Encode(Unsigned(i)) + after;
            var r := Decode(data, |before|, |data|);
            r.Some? && Signed(r.value.value) == i && r.value.next == |data| - |after|
  {
    var data := before + Encode(Unsigned(i)) + after;
    hide Decode, Encode;
    DecodeEncode(before, Unsigned(i), after, |data|);
    TwosComplement(i, v);
    hide Signed, Unsigned;
  }

  lemma {:induction false} TwosComplement(i: int, v: nat)
    requires -TWO_63 <= i < TWO_63 && v < TWO_64
    ensures Signed(Unsigned(i)) == i && Unsigned(Signed(v)) == v
  {
    assert i < 0 ==> i % TWO_64 == i + TWO_64;
  }
}
