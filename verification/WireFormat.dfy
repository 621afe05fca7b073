/** The bytes of a typed value, one by one: which byte of a number stands where in either byte order,
    how a varint is cut into groups of seven bits, and what stands in front of a string. */
module WireFormat {
  import opened Wrappers
  import opened Blocks
  import opened ByteArrays
  import opened Codec
  import opened Messages

  /** The i-th byte of `n` in memory: counted from the least significant one in a little-endian buffer,
      from the most significant one in a big-endian one. */
  function FixedByte(n: int, width: nat, little: bool, i: nat): nat
    requires i < width
  {
    n % Pow256(width) / Pow256(if little then i else width - 1 - i) % 256
  }

  predicate FixedAt(s: seq<Byte>, at: nat, n: int, width: nat, little: bool) {
    at + width <= |s| && forall j :: at <= j < at + width ==> s[j] == FixedByte(n, width, little, j - at)
  }

  /** A group of seven bits, with the top bit set if more follow. */
  function Group(n: nat, i: nat, more: bool): nat {
    n / Pow128(i) % 128 + if more then 128 else 0
  }

  /** `n` in `count` groups of seven bits, least significant first, as few as possible; all but the
      last have the top bit set. */
  predicate VarintAt(s: seq<Byte>, at: nat, n: nat, count: int) {
    && 1 <= count && at + count <= |s|
    && n < Pow128(count) && (count > 1 ==> Pow128(count - 1) <= n)
    && forall j :: at <= j < at + count ==> s[j] == Group(n, j - at, j < at + count - 1)
  }

  /** The length in front of a string, and the string. */
  predicate TextAt(s: seq<Byte>, at: nat, end: nat, prefix: Prefix, text: seq<Byte>, little: bool) {
    && at + |text| <= end <= |s| && s[end - |text|..end] == text
    && match prefix
       case Short => end == at + 2 + |text| && FixedAt(s, at, |text|, 2, little)
       case Long => end == at + 4 + |text| && FixedAt(s, at, |text|, 4, little)
       case Wide => end == at + 8 + |text| && FixedAt(s, at, |text|, 8, little)
       case Var => VarintAt(s, at, |text|, end - at - |text|)
  }

  /** The value stands in the bytes from `at` to `end`. */
  predicate Laid(kind: Kind, value: Value, s: seq<Byte>, at: nat, end: nat, little: bool) {
    match kind
    case Fixed(width, _) => value.Number? && end == at + width && FixedAt(s, at, value.n, width, little)
    case Unsigned(_) => value.Number? && value.n >= 0 && VarintAt(s, at, value.n, end - at)
    case Signed(_) => value.Number? && VarintAt(s, at, if value.n < 0 then -2 * value.n - 1 else 2 * value.n, end - at)
    case Text(prefix) => value.Bytes? && TextAt(s, at, end, prefix, value.text, little)
  }

  // ----- fixed width

  lemma FixedIs(s: seq<Byte>, at: nat, n: int, width: nat, little: bool)
    requires at + width <= |s|
    ensures FixedAt(s, at, n, width, little) <==> s[at..at + width] == FixedBytes(ToBits(n, width), width, little)
  {
    hide FixedByte, FixedBytes, ToBits;
    FixedSize(n, width, little);
    var bytes := FixedBytes(ToBits(n, width), width, little);
    forall i | 0 <= i < width ensures bytes[i] == FixedByte(n, width, little, i) {
      FixedDigit(n, width, little, i);
    }
    var slice := s[at..at + width];
    assert forall i :: 0 <= i < width ==> slice[i] == s[at + i];
    assert forall j :: at <= j < at + width ==> s[j] == slice[j - at];
  }

  lemma FixedDigit(n: int, width: nat, little: bool, i: nat)
    requires i < width
    ensures FixedBytes(ToBits(n, width), width, little)[i] == FixedByte(n, width, little, i)
  {
    hide Pow256;
  }

  // ----- varints

  lemma {:induction false} VarintSize(n: nat)
    ensures n < Pow128(|VarintBytes(n)|) && (|VarintBytes(n)| > 1 ==> Pow128(|VarintBytes(n)| - 1) <= n)
    decreases n
  {
    if n >= 128 {
      var count := |VarintBytes(n / 128)|;
      VarintSize(n / 128);
      assert |VarintBytes(n)| == count + 1 && Pow128(count + 1) == 128 * Pow128(count);
      if count > 1 {
        assert Pow128(count) == 128 * Pow128(count - 1);
      } else {
        assert Pow128(1) == 128 * Pow128(0);
      }
    } else {
      assert Pow128(1) == 128 * Pow128(0);
    }
  }

  lemma {:induction false} VarintDigit(n: nat, i: nat)
    requires i < |VarintBytes(n)|
    ensures VarintBytes(n)[i] == Group(n, i, i < |VarintBytes(n)| - 1)
    decreases i
  {
    hide Group;
    if i == 0 {
      FirstGroup(n, n >= 128);
    } else {
      var more := i < |VarintBytes(n)| - 1;
      assert VarintBytes(n)[i] == VarintBytes(n / 128)[i - 1];
      VarintDigit(n / 128, i - 1);
      NextGroup(n, i, more);
    }
  }

  lemma FirstGroup(n: nat, more: bool)
    ensures Group(n, 0, more) == n % 128 + if more then 128 else 0
  {
    assert Pow128(0) == 1;
  }

  lemma NextGroup(n: nat, i: nat, more: bool)
    requires i > 0
    ensures Group(n / 128, i - 1, more) == Group(n, i, more)
  {
    assert Pow128(i) == Pow128(i - 1) * 128;
    hide Pow128;
    DivideTwice(n, 128, Pow128(i - 1));
  }

  lemma OneSize(n: nat, a: nat, b: nat)
    requires n < Pow128(a) && n < Pow128(b)
    requires a > 1 ==> Pow128(a - 1) <= n
    requires b > 1 ==> Pow128(b - 1) <= n
    requires a >= 1 && b >= 1
    ensures a == b
  {
    if a < b {
      PowersGrow(a, b - 1);
    } else if b < a {
      PowersGrow(b, a - 1);
    }
  }

  lemma VarintIs(s: seq<Byte>, at: nat, n: nat, count: int)
    requires 0 <= count && at + count <= |s|
    ensures VarintAt(s, at, n, count) <==> s[at..at + count] == VarintBytes(n)
  {
    hide Pow128, VarintBytes, Group;
    var bytes := VarintBytes(n);
    VarintSize(n);
    forall i | 0 <= i < |bytes| ensures bytes[i] == Group(n, i, i < |bytes| - 1) {
      VarintDigit(n, i);
    }
    var slice := s[at..at + count];
    assert forall i :: 0 <= i < count ==> slice[i] == s[at + i];
    assert forall j :: at <= j < at + count ==> s[j] == slice[j - at];
    if VarintAt(s, at, n, count) {
      OneSize(n, count, |bytes|);
    }
  }

  // ----- values

  lemma NumberIs(kind: Kind, n: int, s: seq<Byte>, at: nat, end: nat, little: bool)
    requires !kind.Text? && KindOk(kind) && PlainNumber(kind, n) && at <= end <= |s|
    ensures Laid(kind, Number(n), s, at, end, little) <==> s[at..end] == EncodeNumber(kind, n, little)
  {
    hide FixedBytes, VarintBytes, FixedAt, VarintAt, Pow256, ToBits;
    match kind
    case Fixed(width, _) =>
      if end == at + width {
        FixedIs(s, at, n, width, little);
      } else {
        FixedSize(n, width, little);
      }
    case Unsigned(_) => VarintIs(s, at, n, end - at);
    case Signed(wide) =>
      ZigzagRoundTrip(n, WidthOf(wide));
      VarintIs(s, at, Zigzag(n, WidthOf(wide)), end - at);
  }

  lemma FixedSize(n: int, width: nat, little: bool)
    ensures |FixedBytes(ToBits(n, width), width, little)| == width
  {
  }

  lemma PrefixIs(prefix: Prefix, text: seq<Byte>, s: seq<Byte>, at: nat, end: nat, little: bool)
    requires |text| <= PrefixLimit(prefix) && at + |text| <= end <= |s|
    ensures TextAt(s, at, end, prefix, text, little) <==>
            s[at..end - |text|] == EncodeNumber(PrefixKind(prefix), |text|, little) && s[end - |text|..end] == text
  {
    hide FixedAt, VarintAt, EncodeNumber, Pow256;
    LengthFits(prefix, |text|);
    NumberIs(PrefixKind(prefix), |text|, s, at, end - |text|, little);
  }

  lemma CutAtText(s: seq<Byte>, at: nat, end: nat, head: seq<Byte>, text: seq<Byte>)
    requires at <= end <= |s|
    ensures s[at..end] == head + text <==>
            at + |text| <= end && s[at..end - |text|] == head && s[end - |text|..end] == text
  {
    if s[at..end] == head + text {
      assert |head| + |text| == end - at;
      assert s[at..end][..|head|] == head && s[at..end][|head|..] == text;
      assert s[at..end - |text|] == s[at..end][..|head|] && s[end - |text|..end] == s[at..end][|head|..];
    } else if at + |text| <= end {
      assert s[at..end] == s[at..end - |text|] + s[end - |text|..end];
    }
  }

  /** A value is laid out in some bytes exactly when they are its encoding. */
  lemma LaidIsEncoded(kind: Kind, value: Value, s: seq<Byte>, at: nat, end: nat, little: bool)
    requires KindOk(kind) && Belongs(kind, value) && Encode(kind, value, little).Ok? && at <= end <= |s|
    ensures Laid(kind, value, s, at, end, little) <==> s[at..end] == Encode(kind, value, little).value
  {
    hide EncodeNumber, FixedAt, VarintAt, TextAt, Pow256;
    match kind
    case Text(prefix) =>
      var head := EncodeNumber(PrefixKind(prefix), |value.text|, little);
      CutAtText(s, at, end, head, value.text);
      if at + |value.text| <= end {
        PrefixIs(prefix, value.text, s, at, end, little);
      } else {
        TooShort(s, at, end, prefix, value.text, little);
      }
    case _ => NumberIs(kind, value.n, s, at, end, little);
  }

  lemma TooShort(s: seq<Byte>, at: nat, end: nat, prefix: Prefix, text: seq<Byte>, little: bool)
    requires at + |text| > end
    ensures !TextAt(s, at, end, prefix, text, little)
  {
  }

  /** A string is refused exactly if its length does not fit in front of it. */
  lemma RefusedExact(kind: Kind, value: Value, little: bool)
    requires KindOk(kind) && Belongs(kind, value)
    ensures Encode(kind, value, little).Err? <==>
              kind.Text? && ((kind.prefix.Short? && |value.text| >= 0x1_0000) ||
                             (kind.prefix.Long? && |value.text| >= 0x1_0000_0000))
    ensures Encode(kind, value, little).Err? ==> Encode(kind, value, little) == Err(LengthError)
  {
    hide EncodeNumber;
  }

  /** What was written is laid out. */
  lemma WrittenLaid(kind: Kind, value: Value, little: bool, before: seq<Byte>, after: seq<Byte>, at: nat)
    requires KindOk(kind) && Belongs(kind, value) && Encode(kind, value, little).Ok?
    requires Written(before, after, at, Encode(kind, value, little).value)
    ensures Laid(kind, value, after, at, at + |Encode(kind, value, little).value|, little)
  {
    hide Encode, Laid;
    var e := Encode(kind, value, little).value;
    WrittenSlice(before, after, at, e);
    LaidIsEncoded(kind, value, after, at, at + |e|, little);
  }

  lemma WrittenSlice(before: seq<Byte>, after: seq<Byte>, at: nat, e: seq<Byte>)
    requires Written(before, after, at, e)
    ensures at + |e| <= |after| && after[at..at + |e|] == e
  {
  }

  /** What is laid out is read. */
  lemma LaidRead(kind: Kind, value: Value, s: seq<Byte>, at: nat, end: nat, little: bool)
    requires KindOk(kind) && Belongs(kind, value) && Encode(kind, value, little).Ok?
    requires at <= end <= |s| && Laid(kind, value, s, at, end, little)
    ensures Decode(kind, s, at, little) == Ok((value, end))
  {
    hide Encode, Decode, Laid;
    LaidIsEncoded(kind, value, s, at, end, little);
    ValueRoundTrip(kind, value, little, s, at);
  }
}
