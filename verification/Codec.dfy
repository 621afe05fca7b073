/** The typed encodings on top of a byte buffer: fixed-width integers in either byte order, varints
    (LEB128, section 7.6 of DWARF 5), zigzag and length-prefixed strings. */
module Codec {
  import opened Wrappers
  import opened Blocks
  import opened ByteArrays

  function Pow256(n: nat): (r: nat)
    ensures r > 0
  {
    if n == 0 then 1 else 256 * Pow256(n - 1)
  }

  // ----- fixed width

  /** Byte number `k` of `bits`, counted from the least significant one. */
  function ByteOf(bits: nat, k: nat): Byte {
    (bits / Pow256(k)) % 256
  }

  /** The significance of the i-th byte in the buffer. */
  function Rank(width: nat, little: bool, i: nat): nat
    requires i < width
  {
    if little then i else width - 1 - i
  }

  function FixedBytes(bits: nat, width: nat, little: bool): (r: seq<Byte>)
    ensures |r| == width
  {
    seq(width, i requires 0 <= i < width => ByteOf(bits, Rank(width, little, i)))
  }

  /** What the first `n` bytes contribute. */
  function Collected(bytes: seq<Byte>, little: bool, n: nat): nat
    requires n <= |bytes|
  {
    if n == 0 then 0
    else Collected(bytes, little, n - 1) + bytes[n - 1] * Pow256(Rank(|bytes|, little, n - 1))
  }

  lemma DivisionSteps(bits: nat, k: nat)
    ensures bits / Pow256(k + 1) == (bits / Pow256(k)) / 256
  {
    DivideTwice(bits, Pow256(k), 256);
  }

  lemma DivideTwice(a: nat, b: nat, c: nat)
    requires b > 0 && c > 0
    ensures c * b > 0 && a / (c * b) == (a / b) / c
  {
    var m := a / b;
    var q, r, s := m / c, m % c, a % b;
    assert m == q * c + r;
    assert a == m * b + s;
    Spread(m, q, c, r, b);
    Below(r, c, b, s);
    QuotientIs(a, c * b, q, r * b + s);
  }

  lemma Spread(m: nat, q: nat, c: nat, r: nat, b: nat)
    requires m == q * c + r
    ensures m * b == q * (c * b) + r * b
  {
    assert (q * c) * b == q * (c * b);
  }

  lemma Below(r: nat, c: nat, b: nat, s: nat)
    requires r < c && s < b
    ensures r * b + s < c * b
  {
    var k := c - r;
    assert c == r + k;
    Distribute(r, k, b);
    AtLeast(k, b);
  }

  lemma Distribute(r: nat, k: nat, b: nat)
    ensures (r + k) * b == r * b + k * b
  {
  }

  lemma AtLeast(k: nat, b: nat)
    requires k >= 1
    ensures k * b >= b
  {
  }

  lemma QuotientIs(a: nat, d: nat, q: nat, r: nat)
    requires d > 0 && a == q * d + r && r < d
    ensures a / d == q
  {
    var x, y := a / d, a % d;
    assert a == x * d + y;
    assert (x - q) * d == r - y;
    SmallMultiple(x - q, d);
  }

  lemma SmallMultiple(m: int, d: int)
    requires -d < m * d < d
    ensures m == 0
  {
  }

  /** The number above byte `k` splits into byte `k` and the rest. */
  lemma ByteSplit(bits: nat, k: nat)
    ensures (bits / Pow256(k)) * Pow256(k) == (bits / Pow256(k + 1)) * Pow256(k + 1) + ByteOf(bits, k) * Pow256(k)
  {
    DivisionSteps(bits, k);
    var d, p := bits / Pow256(k), Pow256(k);
    assert d == 256 * (d / 256) + d % 256;
    assert d * p == (d / 256) * (256 * p) + (d % 256) * p;
  }

  lemma {:induction false} LittleCollected(bits: nat, width: nat, n: nat)
    requires n <= width
    ensures Collected(FixedBytes(bits, width, true), true, n) + (bits / Pow256(n)) * Pow256(n) == bits
  {
    if n > 0 {
      LittleCollected(bits, width, n - 1);
      ByteSplit(bits, n - 1);
    }
  }

  lemma {:induction false} BigCollected(bits: nat, width: nat, n: nat)
    requires n <= width && bits < Pow256(width)
    ensures Collected(FixedBytes(bits, width, false), false, n) == (bits / Pow256(width - n)) * Pow256(width - n)
  {
    if n == 0 {
      QuotientIs(bits, Pow256(width), 0, bits);
    } else {
      BigCollected(bits, width, n - 1);
      ByteSplit(bits, width - n);
    }
  }

  /** Either byte order brings the number back. */
  lemma FixedRoundTrip(bits: nat, width: nat, little: bool)
    requires bits < Pow256(width)
    ensures Collected(FixedBytes(bits, width, little), little, width) == bits
  {
    if little {
      LittleCollected(bits, width, width);
      QuotientIs(bits, Pow256(width), 0, bits);
    } else {
      BigCollected(bits, width, width);
    }
  }

  /** Two's complement. */
  function ToBits(value: int, width: nat): nat {
    value % Pow256(width)
  }

  function FromBits(bits: nat, width: nat, signed: bool): int {
    if signed && 2 * bits >= Pow256(width) then bits - Pow256(width) else bits
  }

  predicate Fits(value: int, width: nat, signed: bool) {
    if signed then 0 <= 2 * value + Pow256(width) < 2 * Pow256(width) else 0 <= value < Pow256(width)
  }

  lemma BitsRoundTrip(value: int, width: nat, signed: bool)
    requires Fits(value, width, signed)
    ensures ToBits(value, width) < Pow256(width)
    ensures FromBits(ToBits(value, width), width, signed) == value
  {
    var p := Pow256(width);
    if value < 0 {
      RemainderIs(value, p, -1, value + p);
    } else {
      RemainderIs(value, p, 0, value);
    }
  }

  lemma RemainderIs(a: int, d: nat, q: int, r: nat)
    requires d > 0 && a == q * d + r && r < d
    ensures a % d == r
  {
    var x, y := a / d, a % d;
    assert a == x * d + y;
    assert (x - q) * d == r - y;
    SmallMultiple(x - q, d);
  }

  // ----- varints

  function Pow128(n: nat): (r: nat)
    ensures r > 0
  {
    if n == 0 then 1 else 128 * Pow128(n - 1)
  }

  /** Seven bits a byte, least significant first; all but the last byte have the top bit set. */
  function VarintBytes(value: nat): (r: seq<Byte>)
    ensures r != []
  {
    if value >= 128 then [value % 128 + 128] + VarintBytes(value / 128) else [value]
  }

  /** At most `most` bytes, the last of them at most `last`. */
  datatype VarintLimit = VarintLimit(most: nat, last: nat)

  const UINT32 := VarintLimit(5, 0x0f)
  const UINT64 := VarintLimit(10, 0x01)

  function LimitOf(limit: VarintLimit): nat
    requires limit.most > 0
  {
    (limit.last + 1) * Pow128(limit.most - 1)
  }

  /** readUint32 and readUint64: the value and the position behind it. */
  function ReadVarint(s: seq<Byte>, at: nat, index: nat, sum: nat, limit: VarintLimit): Result<(nat, nat), Failure>
    decreases limit.most - index
  {
    if index >= limit.most || at >= |s| then Err(OutOfRange)
    else if index == limit.most - 1 && s[at] > limit.last then Err(OutOfRange)
    else
      var more := sum + (s[at] % 128) * Pow128(index);
      if s[at] < 128 then Ok((more, at + 1)) else ReadVarint(s, at + 1, index + 1, more, limit)
  }

  /** Where a refused varint leaves the cursor: the offending byte, if there is one, has been read. */
  function VarintStop(s: seq<Byte>, at: nat, index: nat, limit: VarintLimit): nat
    decreases limit.most - index
  {
    if index >= limit.most || at >= |s| then at
    else if (index == limit.most - 1 && s[at] > limit.last) || s[at] < 128 then at + 1
    else VarintStop(s, at + 1, index + 1, limit)
  }

  lemma Times128(value: nat, index: nat)
    ensures (value / 128) * Pow128(index + 1) + (value % 128) * Pow128(index) == value * Pow128(index)
  {
    var p := Pow128(index);
    assert value == 128 * (value / 128) + value % 128;
    assert (128 * (value / 128)) * p == (value / 128) * (128 * p);
    Distribute(128 * (value / 128), value % 128, p);
  }

  lemma {:induction false} PowersGrow(i: nat, n: nat)
    requires i <= n
    ensures Pow128(i) <= Pow128(n)
    decreases n - i
  {
    if i < n {
      PowersGrow(i, n - 1);
    }
  }

  lemma LastByteSmall(value: nat, power: nat, last: nat)
    requires power > 0 && value * power < (last + 1) * power
    ensures value <= last
  {
    if value > last {
      Distribute(value - (last + 1), last + 1, power);
    }
  }

  lemma FitsBefore(value: nat, index: nat, limit: VarintLimit)
    requires index < limit.most && limit.last < 128 && value * Pow128(index) < LimitOf(limit)
    ensures index == limit.most - 1 ==> value <= limit.last
  {
    if index == limit.most - 1 {
      LastByteSmall(value, Pow128(index), limit.last);
    }
  }

  /** What was written is read back, within the limit on bytes. */
  lemma {:induction false} VarintRead(s: seq<Byte>, at: nat, index: nat, sum: nat, limit: VarintLimit, value: nat)
    requires index < limit.most && limit.last < 128 && value * Pow128(index) < LimitOf(limit)
    requires at + |VarintBytes(value)| <= |s| && s[at..at + |VarintBytes(value)|] == VarintBytes(value)
    ensures ReadVarint(s, at, index, sum, limit) == Ok((sum + value * Pow128(index), at + |VarintBytes(value)|))
    ensures index + |VarintBytes(value)| <= limit.most
    decreases value
  {
    var bytes := VarintBytes(value);
    assert s[at] == bytes[0];
    FitsBefore(value, index, limit);
    if value >= 128 {
      Times128(value, index);
      var rest := VarintBytes(value / 128);
      assert bytes == [value % 128 + 128] + rest;
      assert s[at + 1..at + 1 + |rest|] == bytes[1..];
      VarintRead(s, at + 1, index + 1, sum + (value % 128) * Pow128(index), limit, value / 128);
    }
  }

  /** Every accepted varint is in range. */
  lemma {:induction false} VarintInRange(s: seq<Byte>, at: nat, index: nat, sum: nat, limit: VarintLimit)
    requires limit.most > 0 && limit.last < 128 && sum < Pow128(index)
    requires ReadVarint(s, at, index, sum, limit).Ok?
    ensures ReadVarint(s, at, index, sum, limit).value.0 < LimitOf(limit)
    ensures at < ReadVarint(s, at, index, sum, limit).value.1 <= at + (limit.most - index)
    decreases limit.most - index
  {
    var b, p := s[at] % 128, Pow128(index);
    if index == limit.most - 1 {
      Scale(b, limit.last, p);
      Distribute(1, limit.last, p);
    } else {
      Scale(b, 127, p);
      Distribute(1, 127, p);
      if s[at] < 128 {
        PowersGrow(index + 1, limit.most - 1);
        Scale(1, limit.last + 1, Pow128(limit.most - 1));
      } else {
        VarintInRange(s, at + 1, index + 1, sum + b * p, limit);
      }
    }
  }

  lemma Scale(x: nat, y: nat, p: nat)
    requires x <= y
    ensures x * p <= y * p
  {
  }

  lemma VarintLimits()
    ensures LimitOf(UINT32) == 0x1_0000_0000 && LimitOf(UINT64) == 0x1_0000_0000_0000_0000
    ensures Pow256(4) == 0x1_0000_0000 && Pow256(8) == 0x1_0000_0000_0000_0000
  {
    assert Pow128(4) == 0x1000_0000 by { assert Pow128(2) == 0x4000; }
    assert Pow128(9) == 0x8000_0000_0000_0000 by { assert Pow128(7) == 0x2_0000_0000_0000; }
    assert Pow256(4) == 0x1_0000_0000 by { assert Pow256(2) == 0x1_0000; }
    assert Pow256(8) == 0x1_0000_0000_0000_0000 by { assert Pow256(6) == 0x1_0000_0000_0000; }
  }

  // ----- zigzag

  /** Exclusive or with all ones. */
  function Complement(bits: nat, width: nat): int {
    Pow256(width) - 1 - bits
  }

  /** `(value << 1) ^ -(value < 0)` in a word of `width` bytes. */
  function Zigzag(value: int, width: nat): int {
    var shifted := (2 * value) % Pow256(width);
    if value < 0 then Complement(shifted, width) else shifted
  }

  /** `(bits >> 1) ^ -(bits & 1)`, read as a signed word. */
  function Unzigzag(bits: nat, width: nat): int {
    var half := bits / 2;
    var word := if bits % 2 == 1 then Complement(half, width) else half;
    if 2 * word >= Pow256(width) then word - Pow256(width) else word
  }

  /** Small numbers of either sign get small codes, and the code is undone. */
  lemma ZigzagRoundTrip(value: int, width: nat)
    requires width > 0 && Fits(value, width, true)
    ensures Zigzag(value, width) == (if value < 0 then -2 * value - 1 else 2 * value)
    ensures 0 <= Zigzag(value, width) < Pow256(width)
    ensures Unzigzag(Zigzag(value, width), width) == value
  {
    var p := Pow256(width);
    assert p == 256 * Pow256(width - 1);
    if value < 0 {
      RemainderIs(2 * value, p, -1, 2 * value + p);
    } else {
      RemainderIs(2 * value, p, 0, 2 * value);
    }
  }

  /** And every code is the code of one number. */
  lemma ZigzagOnto(bits: nat, width: nat)
    requires width > 0 && bits < Pow256(width)
    ensures Fits(Unzigzag(bits, width), width, true) && Zigzag(Unzigzag(bits, width), width) == bits
  {
    assert Pow256(width) == 256 * Pow256(width - 1);
    ZigzagRoundTrip(Unzigzag(bits, width), width);
  }
}
