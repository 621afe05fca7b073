/** Typed messages: any list of values written to a `ByteArray` and read back with the same types. */
module Messages {
  import opened Wrappers
  import opened Blocks
  import opened ByteArrays
  import opened Codec

  datatype Prefix = Short | Long | Wide | Var

  /** The types a message can hold; a float or a double is written as its bits. */
  datatype Kind =
    | Fixed(width: nat, signed: bool)
    | Unsigned(wide: bool)
    | Signed(wide: bool)
    | Text(prefix: Prefix)

  datatype Value = Number(n: int) | Bytes(text: seq<Byte>)

  predicate KindOk(kind: Kind) {
    kind.Fixed? ==> kind.width == 1 || kind.width == 2 || kind.width == 4 || kind.width == 8
  }

  function WidthOf(wide: bool): nat {
    if wide then 8 else 4
  }

  function LimitFor(wide: bool): VarintLimit {
    if wide then UINT64 else UINT32
  }

  /** The value belongs to the C++ type; a string is shorter than the address space. */
  predicate Belongs(kind: Kind, value: Value) {
    match kind
    case Fixed(width, signed) => value.Number? && Fits(value.n, width, signed)
    case Unsigned(wide) => value.Number? && Fits(value.n, WidthOf(wide), false)
    case Signed(wide) => value.Number? && Fits(value.n, WidthOf(wide), true)
    case Text(_) => value.Bytes? && |value.text| <= SIZE_MAX
  }

  /** How the length in front of a string is written. */
  function PrefixKind(prefix: Prefix): Kind {
    match prefix
    case Short => Fixed(2, false)
    case Long => Fixed(4, false)
    case Wide => Fixed(8, false)
    case Var => Unsigned(true)
  }

  function PrefixLimit(prefix: Prefix): nat {
    match prefix
    case Short => 0xFFFF
    case Long => 0xFFFF_FFFF
    case _ => SIZE_MAX
  }

  function EncodeNumber(kind: Kind, n: int, little: bool): seq<Byte>
    requires !kind.Text?
  {
    match kind
    case Fixed(width, _) => FixedBytes(ToBits(n, width), width, little)
    case Unsigned(_) => if n >= 0 then VarintBytes(n) else []
    case Signed(wide) =>
      var code := Zigzag(n, WidthOf(wide));
      if code >= 0 then VarintBytes(code) else []
  }

  function Encode(kind: Kind, value: Value, little: bool): Result<seq<Byte>, Failure>
    requires KindOk(kind) && Belongs(kind, value)
  {
    if kind.Text? then
      if |value.text| > PrefixLimit(kind.prefix) then Err(LengthError)
      else Ok(EncodeNumber(PrefixKind(kind.prefix), |value.text|, little) + value.text)
    else Ok(EncodeNumber(kind, value.n, little))
  }

  function DecodeNumber(kind: Kind, s: seq<Byte>, at: nat, little: bool): Result<(int, nat), Failure>
    requires !kind.Text?
  {
    match kind
    case Fixed(width, signed) =>
      if at + width > |s| then Err(OutOfRange)
      else Ok((FromBits(Collected(s[at..at + width], little, width), width, signed), at + width))
    case Unsigned(wide) =>
      var r := ReadVarint(s, at, 0, 0, LimitFor(wide));
      if r.Err? then Err(r.error) else Ok((r.value.0 as int, r.value.1))
    case Signed(wide) =>
      var r := ReadVarint(s, at, 0, 0, LimitFor(wide));
      if r.Err? then Err(r.error) else Ok((Unzigzag(r.value.0, WidthOf(wide)), r.value.1))
  }

  /** `s` is what may be read: the buffer up to its size. */
  function Decode(kind: Kind, s: seq<Byte>, at: nat, little: bool): Result<(Value, nat), Failure> {
    if kind.Text? then
      var length := DecodeNumber(PrefixKind(kind.prefix), s, at, little);
      if length.Err? then Err(length.error)
      else if length.value.0 < 0 || length.value.1 + length.value.0 > |s| then Err(OutOfRange)
      else
        var start := length.value.1;
        Ok((Bytes(s[start..start + length.value.0]), start + length.value.0))
    else
      var number := DecodeNumber(kind, s, at, little);
      if number.Err? then Err(number.error) else Ok((Number(number.value.0), number.value.1))
  }

  /** Where a failed read leaves the cursor: in front of a fixed number, within a varint, or behind
      the length of a string that is not there. */
  function NumberStop(kind: Kind, s: seq<Byte>, at: nat): nat {
    match kind
    case Unsigned(wide) => VarintStop(s, at, 0, LimitFor(wide))
    case Signed(wide) => VarintStop(s, at, 0, LimitFor(wide))
    case _ => at
  }

  function StopOf(kind: Kind, s: seq<Byte>, at: nat, little: bool): nat {
    if kind.Text? then
      var length := DecodeNumber(PrefixKind(kind.prefix), s, at, little);
      if length.Ok? then length.value.1 else NumberStop(PrefixKind(kind.prefix), s, at)
    else NumberStop(kind, s, at)
  }

  predicate PlainNumber(kind: Kind, n: int) {
    match kind
    case Fixed(width, signed) => Fits(n, width, signed)
    case Unsigned(wide) => Fits(n, WidthOf(wide), false)
    case Signed(wide) => Fits(n, WidthOf(wide), true)
    case Text(_) => false
  }

  lemma VarintBack(s: seq<Byte>, at: nat, wide: bool, n: nat)
    requires Fits(n, WidthOf(wide), false)
    requires at + |VarintBytes(n)| <= |s| && s[at..at + |VarintBytes(n)|] == VarintBytes(n)
    ensures ReadVarint(s, at, 0, 0, LimitFor(wide)) == Ok((n, at + |VarintBytes(n)|))
    ensures |VarintBytes(n)| <= if wide then 10 else 5
  {
    hide VarintBytes, ReadVarint, Pow128, Pow256;
    VarintLimits();
    assert Pow128(0) == 1 by { NoPower(); }
    VarintRead(s, at, 0, 0, LimitFor(wide), n);
  }

  lemma NoPower()
    ensures Pow128(0) == 1
  {
  }

  lemma NumberBack(kind: Kind, n: int, little: bool, s: seq<Byte>, at: nat)
    requires KindOk(kind) && PlainNumber(kind, n)
    requires at + |EncodeNumber(kind, n, little)| <= |s|
    requires s[at..at + |EncodeNumber(kind, n, little)|] == EncodeNumber(kind, n, little)
    ensures DecodeNumber(kind, s, at, little) == Ok((n, at + |EncodeNumber(kind, n, little)|))
  {
    hide VarintBytes, ReadVarint, Pow128, Pow256, FixedBytes, Collected, Zigzag, Unzigzag, ToBits, FromBits;
    match kind
    case Fixed(width, signed) =>
      BitsRoundTrip(n, width, signed);
      FixedRoundTrip(ToBits(n, width), width, little);
    case Unsigned(wide) => VarintBack(s, at, wide, n);
    case Signed(wide) =>
      ZigzagRoundTrip(n, WidthOf(wide));
      VarintBack(s, at, wide, Zigzag(n, WidthOf(wide)));
  }

  lemma LengthFits(prefix: Prefix, n: nat)
    requires n <= PrefixLimit(prefix)
    ensures PlainNumber(PrefixKind(prefix), n) && KindOk(PrefixKind(prefix))
  {
    VarintLimits();
    assert Pow256(2) == 0x1_0000 by { assert Pow256(1) == 256; }
  }

  /** One value comes back, and the cursor stands behind it. */
  lemma ValueRoundTrip(kind: Kind, value: Value, little: bool, s: seq<Byte>, at: nat)
    requires KindOk(kind) && Belongs(kind, value) && Encode(kind, value, little).Ok?
    requires var e := Encode(kind, value, little).value; at + |e| <= |s| && s[at..at + |e|] == e
    ensures Decode(kind, s, at, little) == Ok((value, at + |Encode(kind, value, little).value|))
  {
    hide EncodeNumber, DecodeNumber;
    if kind.Text? {
      var n := |value.text|;
      LengthFits(kind.prefix, n);
      var head := EncodeNumber(PrefixKind(kind.prefix), n, little);
      assert s[at..at + |head|] == (head + value.text)[..|head|];
      assert s[at + |head|..at + |head| + n] == (head + value.text)[|head|..];
      NumberBack(PrefixKind(kind.prefix), n, little, s, at);
    } else {
      NumberBack(kind, value.n, little, s, at);
    }
  }

  // ----- lists

  datatype Item = Item(kind: Kind, value: Value)

  predicate ItemOk(item: Item, little: bool) {
    KindOk(item.kind) && Belongs(item.kind, item.value) && Encode(item.kind, item.value, little).Ok?
  }

  function EncodeAll(items: seq<Item>, little: bool): seq<Byte>
    requires forall i :: 0 <= i < |items| ==> ItemOk(items[i], little)
  {
    if items == [] then []
    else
      assert ItemOk(items[0], little);
      Encode(items[0].kind, items[0].value, little).value + EncodeAll(items[1..], little)
  }

  function DecodeAll(kinds: seq<Kind>, s: seq<Byte>, at: nat, little: bool): Result<(seq<Value>, nat), Failure> {
    if kinds == [] then Ok(([], at))
    else
      var first := Decode(kinds[0], s, at, little);
      if first.Err? then Err(first.error)
      else
        var rest := DecodeAll(kinds[1..], s, first.value.1, little);
        if rest.Err? then Err(rest.error) else Ok(([first.value.0] + rest.value.0, rest.value.1))
  }

  function Kinds(items: seq<Item>): (r: seq<Kind>)
    ensures |r| == |items|
  {
    seq(|items|, i requires 0 <= i < |items| => items[i].kind)
  }

  function Values(items: seq<Item>): (r: seq<Value>)
    ensures |r| == |items|
  {
    seq(|items|, i requires 0 <= i < |items| => items[i].value)
  }

  /** A message of any mixture of types comes back, and reading ends where writing did. */
  lemma {:induction false} MessageRoundTrip(items: seq<Item>, little: bool, s: seq<Byte>, at: nat)
    requires forall i :: 0 <= i < |items| ==> ItemOk(items[i], little)
    requires var e := EncodeAll(items, little); at + |e| <= |s| && s[at..at + |e|] == e
    ensures DecodeAll(Kinds(items), s, at, little) == Ok((Values(items), at + |EncodeAll(items, little)|))
    decreases |items|
  {
    hide Encode, Decode;
    if items != [] {
      var e, rest := Encode(items[0].kind, items[0].value, little).value, EncodeAll(items[1..], little);
      assert s[at..at + |e|] == (e + rest)[..|e|];
      assert s[at + |e|..at + |e| + |rest|] == (e + rest)[|e|..];
      ValueRoundTrip(items[0].kind, items[0].value, little, s, at);
      MessageRoundTrip(items[1..], little, s, at + |e|);
      assert Kinds(items)[1..] == Kinds(items[1..]);
      assert Values(items) == [items[0].value] + Values(items[1..]);
    }
  }
}
