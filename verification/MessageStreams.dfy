/** The typed reads and writes of `ByteArray`, loop by loop. */
module MessageStreams {
  import opened Wrappers
  import opened Blocks
  import opened ByteArrays
  import opened Codec
  import opened Messages
  import opened WireFormat

  /** writeFixed: shift out one byte after the other. */
  method FixedLoop(bits: nat, width: nat, little: bool) returns (bytes: seq<Byte>)
    ensures bytes == FixedBytes(bits, width, little)
  {
    bytes := [];
    for i := 0 to width
      invariant |bytes| == i && forall j :: 0 <= j < i ==> bytes[j] == FixedBytes(bits, width, little)[j]
    {
      var shift := if little then i else width - 1 - i;
      bytes := bytes + [(bits / Pow256(shift)) % 256];
    }
  }

  /** readFixed. */
  method CollectLoop(bytes: seq<Byte>, little: bool) returns (bits: nat)
    ensures bits == Collected(bytes, little, |bytes|)
  {
    bits := 0;
    for i := 0 to |bytes|
      invariant bits == Collected(bytes, little, i)
    {
      var shift := if little then i else |bytes| - 1 - i;
      bits := bits + bytes[i] * Pow256(shift);
    }
  }

  /** The loops of writeUint32 and writeUint64. */
  method VarintLoop(n: nat) returns (bytes: seq<Byte>)
    ensures bytes == VarintBytes(n)
  {
    bytes := [];
    var value := n;
    while value >= 0x80
      invariant bytes + VarintBytes(value) == VarintBytes(n)
      decreases value
    {
      ghost var before := bytes;
      bytes := bytes + [value % 128 + 128];
      assert before + VarintBytes(value) == bytes + VarintBytes(value / 128);
      value := value / 128;
    }
    bytes := bytes + [value];
  }

  method EncodeNumberLoop(kind: Kind, n: int, little: bool) returns (bytes: seq<Byte>)
    requires PlainNumber(kind, n) && KindOk(kind)
    ensures bytes == EncodeNumber(kind, n, little)
  {
    match kind
    case Fixed(width, _) => bytes := FixedLoop(ToBits(n, width), width, little);
    case Unsigned(_) => bytes := VarintLoop(n);
    case Signed(wide) =>
      ZigzagRoundTrip(n, WidthOf(wide));
      bytes := VarintLoop(Zigzag(n, WidthOf(wide)));
  }

  /** Write the bytes of one value, then those of the next: one write of both. */
  method Append(buffer: ByteArray, ghost s0: seq<Byte>, ghost at: nat, ghost first: seq<Byte>, second: seq<Byte>)
    returns (failure: Option<Failure>)
    requires buffer.Valid() && Written(s0, buffer.Flat(), at, first) && buffer.position == at + |first|
    modifies buffer`position, buffer`size, buffer`current, buffer`tail, buffer`capacity, buffer`nodes,
             buffer.tail`next, buffer.Arrays()
    ensures buffer.Valid() && Grown(buffer) && (buffer.tail == old(buffer.tail) || fresh(buffer.tail))
    ensures failure.None? ==> Written(s0, buffer.Flat(), at, first + second)
    ensures failure.None? ==> buffer.position == at + |first + second| <= buffer.size
    ensures failure.Some? ==> failure == Some(LengthError) && buffer.Flat() == old(buffer.Flat())
    ensures failure.Some? ==> buffer.position == old(buffer.position)
    ensures buffer.size >= old(buffer.size)
  {
    hide ByteArray.Flat, Written;
    ghost var before := buffer.Flat();
    failure := buffer.Write(second);
    if failure.None? {
      WrittenMore(s0, before, buffer.Flat(), at, first, second);
    }
    TailGrown(buffer);
  }

  /** What a failed write may have left: nothing, or the length of the string that did not fit. */
  ghost predicate Begun(item: Item, little: bool, s0: seq<Byte>, s: seq<Byte>, at: nat, position: nat)
    requires KindOk(item.kind) && Belongs(item.kind, item.value)
  {
    || (Written(s0, s, at, []) && position == at)
    || (item.kind.Text? &&
        var head := EncodeNumber(PrefixKind(item.kind.prefix), |item.value.text|, little);
        Written(s0, s, at, head) && position == at + |head|)
  }

  /** One typed write. */
  method WriteItem(buffer: ByteArray, item: Item) returns (failure: Option<Failure>)
    requires buffer.Valid() && KindOk(item.kind) && Belongs(item.kind, item.value)
    modifies buffer`position, buffer`size, buffer`current, buffer`tail, buffer`capacity, buffer`nodes,
             buffer.tail`next, buffer.Arrays()
    ensures buffer.Valid() && Grown(buffer) && (buffer.tail == old(buffer.tail) || fresh(buffer.tail))
    ensures failure.None? ==> Encode(item.kind, item.value, buffer.littleEndian).Ok?
    ensures failure.None? ==>
              var e := Encode(item.kind, item.value, buffer.littleEndian).value;
              && Written(old(buffer.Flat()), buffer.Flat(), old(buffer.position), e)
              && buffer.position == old(buffer.position) + |e| <= buffer.size
    ensures failure.None? ==>
              Laid(item.kind, item.value, buffer.Flat(), old(buffer.position), buffer.position, buffer.littleEndian)
    ensures buffer.size >= old(buffer.size)
    ensures failure.Some? ==>
              failure == Some(LengthError) &&
              Begun(item, buffer.littleEndian, old(buffer.Flat()), buffer.Flat(), old(buffer.position), buffer.position)
    ensures Encode(item.kind, item.value, buffer.littleEndian).Err? ==>
              failure.Some? && buffer.Flat() == old(buffer.Flat()) && buffer.position == old(buffer.position)
  {
    hide ByteArray.Flat, Written, EncodeNumber, ByteArray.Chained, Laid;
    ghost var before := buffer.Flat();
    buffer.FlatIsCapacity();
    buffer.WrittenNothing(buffer.Flat(), buffer.position);
    if item.kind.Text? {
      if |item.value.text| > PrefixLimit(item.kind.prefix) {
        return Some(LengthError);
      }
      failure := WriteText(buffer, item.kind.prefix, item.value.text);
    } else {
      ghost var s0, at := buffer.Flat(), buffer.position;
      var bytes := EncodeNumberLoop(item.kind, item.value.n, buffer.littleEndian);
      assert [] + bytes == bytes;
      buffer.FlatKept();
      failure := Append(buffer, s0, at, [], bytes);
    }
    if failure.None? {
      WrittenLaid(item.kind, item.value, buffer.littleEndian, before, buffer.Flat(), old(buffer.position));
    }
  }

  /** The length, then the text. */
  method WriteText(buffer: ByteArray, prefix: Prefix, text: seq<Byte>) returns (failure: Option<Failure>)
    requires buffer.Valid() && |text| <= PrefixLimit(prefix)
    modifies buffer`position, buffer`size, buffer`current, buffer`tail, buffer`capacity, buffer`nodes,
             buffer.tail`next, buffer.Arrays()
    ensures buffer.Valid() && Grown(buffer) && (buffer.tail == old(buffer.tail) || fresh(buffer.tail))
    ensures buffer.size >= old(buffer.size)
    ensures var head := EncodeNumber(PrefixKind(prefix), |text|, buffer.littleEndian);
            if failure.None? then
              && Written(old(buffer.Flat()), buffer.Flat(), old(buffer.position), head + text)
              && buffer.position == old(buffer.position) + |head + text| <= buffer.size
            else
              && failure == Some(LengthError)
              && ((Written(old(buffer.Flat()), buffer.Flat(), old(buffer.position), []) &&
                   buffer.position == old(buffer.position)) ||
                  (Written(old(buffer.Flat()), buffer.Flat(), old(buffer.position), head) &&
                   buffer.position == old(buffer.position) + |head|))
  {
    hide ByteArray.Flat, Written, EncodeNumber, ByteArray.Chained;
    ghost var s0, at := buffer.Flat(), buffer.position;
    buffer.FlatIsCapacity();
    buffer.WrittenNothing(s0, at);
    LengthFits(prefix, |text|);
    var head := EncodeNumberLoop(PrefixKind(prefix), |text|, buffer.littleEndian);
    assert [] + head == head;
    buffer.FlatKept();
    failure := Append(buffer, s0, at, [], head);
    if failure.Some? {
      return failure;
    }
    failure := Append(buffer, s0, at, head, text);
  }

  /** What may be read is the flat buffer up to its size. */
  ghost predicate Reads(buffer: ByteArray, s: seq<Byte>)
    reads buffer, buffer.Arrays()
  {
    buffer.size <= |buffer.Flat()| && s == buffer.Flat()[..buffer.size]
  }

  /** read of one value's bytes. */
  method ReadBytes(buffer: ByteArray, count: nat, ghost s: seq<Byte>) returns (r: Result<seq<Byte>, Failure>)
    requires buffer.Valid() && Reads(buffer, s)
    modifies buffer`position, buffer`current
    ensures buffer.Valid() && Reads(buffer, s) && |s| == buffer.size == old(buffer.size)
    ensures r == if old(buffer.position) + count > |s| then Err(OutOfRange)
                 else Ok(s[old(buffer.position)..old(buffer.position) + count])
    ensures buffer.position == if r.Ok? then old(buffer.position) + count else old(buffer.position)
    ensures buffer.Flat() == old(buffer.Flat())
  {
    hide ByteArray.Flat, ByteArray.Chained;
    r := buffer.Read(count);
    if r.Ok? {
      SliceOfPrefix(buffer.Flat(), buffer.size, old(buffer.position), old(buffer.position) + count);
    }
  }

  lemma SliceOfPrefix(flat: seq<Byte>, size: nat, lo: nat, hi: nat)
    requires lo <= hi <= size <= |flat|
    ensures flat[..size][lo..hi] == flat[lo..hi]
  {
  }

  lemma ReadsSame(buffer: ByteArray, s: seq<Byte>, flat: seq<Byte>)
    requires buffer.Flat() == flat && buffer.size <= |flat| && s == flat[..buffer.size]
    ensures Reads(buffer, s)
  {
  }

  /** readUint32 and readUint64, a byte at a time. */
  method ReadVarintLoop(buffer: ByteArray, limit: VarintLimit, ghost s: seq<Byte>) returns (r: Result<nat, Failure>)
    requires buffer.Valid() && Reads(buffer, s)
    modifies buffer`position, buffer`current
    ensures buffer.Valid() && Reads(buffer, s) && buffer.Flat() == old(buffer.Flat()) && buffer.size == old(buffer.size)
    ensures var spec := ReadVarint(s, old(buffer.position), 0, 0, limit);
            if spec.Err? then r == Err(OutOfRange) && buffer.position == VarintStop(s, old(buffer.position), 0, limit)
            else r == Ok(spec.value.0) && buffer.position == spec.value.1
  {
    hide Reads, ByteArray.Flat, ByteArray.Chained, Pow128;
    var result: nat := 0;
    for index := 0 to limit.most
      invariant buffer.Valid() && Reads(buffer, s)
      invariant buffer.Flat() == old(buffer.Flat()) && buffer.size == old(buffer.size)
      invariant ReadVarint(s, old(buffer.position), 0, 0, limit) == ReadVarint(s, buffer.position, index, result, limit)
      invariant VarintStop(s, old(buffer.position), 0, limit) == VarintStop(s, buffer.position, index, limit)
    {
      var bytes := ReadBytes(buffer, 1, s);
      if bytes.Err? {
        return Err(bytes.error);
      }
      var b := bytes.value[0];
      if index == limit.most - 1 && b > limit.last {
        return Err(OutOfRange);
      }
      result := result + (b % 128) * Pow128(index);
      if b < 0x80 {
        return Ok(result);
      }
    }
    return Err(OutOfRange);
  }

  method ReadFixed(buffer: ByteArray, width: nat, signed: bool, ghost s: seq<Byte>) returns (r: Result<int, Failure>)
    requires buffer.Valid() && Reads(buffer, s)
    modifies buffer`position, buffer`current
    ensures buffer.Valid() && Reads(buffer, s) && buffer.Flat() == old(buffer.Flat()) && buffer.size == old(buffer.size)
    ensures var spec := DecodeNumber(Fixed(width, signed), s, old(buffer.position), buffer.littleEndian);
            if spec.Err? then r == Err(OutOfRange) && buffer.position == old(buffer.position)
            else r == Ok(spec.value.0) && buffer.position == spec.value.1
  {
    ghost var flat := buffer.Flat();
    ReadsSize(buffer, s);
    hide Reads, ByteArray.Flat, ByteArray.Chained, Collected;
    var bytes := ReadBytes(buffer, width, s);
    if bytes.Err? {
      return Err(bytes.error);
    }
    var bits := CollectLoop(bytes.value, buffer.littleEndian);
    buffer.FlatKept();
    ReadsSame(buffer, s, flat);
    return Ok(FromBits(bits, width, signed));
  }

  method ReadNumber(buffer: ByteArray, kind: Kind, ghost s: seq<Byte>) returns (r: Result<int, Failure>)
    requires buffer.Valid() && Reads(buffer, s) && !kind.Text?
    modifies buffer`position, buffer`current
    ensures buffer.Valid() && Reads(buffer, s) && buffer.Flat() == old(buffer.Flat()) && buffer.size == old(buffer.size)
    ensures var spec := DecodeNumber(kind, s, old(buffer.position), buffer.littleEndian);
            if spec.Err? then r == Err(OutOfRange) && buffer.position == NumberStop(kind, s, old(buffer.position))
            else r == Ok(spec.value.0) && buffer.position == spec.value.1
  {
    hide Reads, ByteArray.Flat, ByteArray.Chained, ReadVarint, Collected;
    match kind
    case Fixed(width, signed) => r := ReadFixed(buffer, width, signed, s);
    case Unsigned(wide) =>
      var n := ReadVarintLoop(buffer, LimitFor(wide), s);
      return if n.Err? then Err(n.error) else Ok(n.value);
    case Signed(wide) =>
      var n := ReadVarintLoop(buffer, LimitFor(wide), s);
      return if n.Err? then Err(n.error) else Ok(Unzigzag(n.value, WidthOf(wide)));
  }

  /** A value of that type, short enough for its prefix, stands there. */
  predicate Readable(kind: Kind, value: Value, s: seq<Byte>, at: nat, end: nat, little: bool) {
    && KindOk(kind) && Belongs(kind, value) && Encode(kind, value, little).Ok?
    && at <= end <= |s| && Laid(kind, value, s, at, end, little)
  }

  lemma ReadableDecoded(kind: Kind, s: seq<Byte>, at: nat, little: bool)
    ensures forall value, end: nat :: Readable(kind, value, s, at, end, little) ==>
              Decode(kind, s, at, little) == Ok((value, end))
  {
    hide Decode, Laid, Belongs, Encode;
    forall value, end: nat | Readable(kind, value, s, at, end, little)
      ensures Decode(kind, s, at, little) == Ok((value, end))
    {
      LaidRead(kind, value, s, at, end, little);
    }
  }

  /** One typed read. */
  method ReadItem(buffer: ByteArray, kind: Kind, ghost s: seq<Byte>) returns (r: Result<Value, Failure>)
    requires buffer.Valid() && Reads(buffer, s)
    modifies buffer`position, buffer`current
    ensures buffer.Valid() && Reads(buffer, s) && buffer.Flat() == old(buffer.Flat()) && buffer.size == old(buffer.size)
    ensures forall value, end: nat ::
              Readable(kind, value, s, old(buffer.position), end, buffer.littleEndian) ==>
                r == Ok(value) && buffer.position == end
    ensures var spec := Decode(kind, s, old(buffer.position), buffer.littleEndian);
            if spec.Err? then
              r == Err(OutOfRange) && buffer.position == StopOf(kind, s, old(buffer.position), buffer.littleEndian)
            else r == Ok(spec.value.0) && buffer.position == spec.value.1
  {
    hide Reads, ByteArray.Flat, ByteArray.Chained, DecodeNumber, Readable;
    ReadableDecoded(kind, s, buffer.position, buffer.littleEndian);
    if kind.Text? {
      var length := ReadNumber(buffer, PrefixKind(kind.prefix), s);
      if length.Err? {
        return Err(length.error);
      }
      assert |s| == buffer.size by { ReadsSize(buffer, s); }
      if length.value < 0 || length.value > buffer.size - buffer.position {
        return Err(OutOfRange);
      }
      var text := ReadBytes(buffer, length.value, s);
      return Ok(Bytes(text.value));
    } else {
      var number := ReadNumber(buffer, kind, s);
      return if number.Err? then Err(number.error) else Ok(Number(number.value));
    }
  }

  lemma ReadsSize(buffer: ByteArray, s: seq<Byte>)
    requires Reads(buffer, s)
    ensures |s| == buffer.size <= |buffer.Flat()| && s == buffer.Flat()[..buffer.size]
  {
  }

  lemma EncodeMore(items: seq<Item>, k: nat, little: bool)
    requires forall i :: 0 <= i < |items| ==> ItemOk(items[i], little)
    requires k < |items|
    ensures EncodeAll(items[..k + 1], little) ==
              EncodeAll(items[..k], little) + Encode(items[k].kind, items[k].value, little).value
  {
    EncodeJoin(items[..k], [items[k]], little);
    assert items[..k + 1] == items[..k] + [items[k]];
    assert ItemOk(items[k], little);
    EncodeOne(items[k], little);
  }

  lemma EncodeOne(item: Item, little: bool)
    requires ItemOk(item, little)
    ensures EncodeAll([item], little) == Encode(item.kind, item.value, little).value
  {
    hide Encode;
    assert [item][1..] == [];
  }

  lemma {:induction false} EncodeJoin(a: seq<Item>, b: seq<Item>, little: bool)
    requires forall i :: 0 <= i < |a| ==> ItemOk(a[i], little)
    requires forall i :: 0 <= i < |b| ==> ItemOk(b[i], little)
    ensures forall i :: 0 <= i < |a + b| ==> ItemOk((a + b)[i], little)
    ensures EncodeAll(a + b, little) == EncodeAll(a, little) + EncodeAll(b, little)
    decreases |a|
  {
    hide Encode, ItemOk;
    if a == [] {
      assert a + b == b;
    } else {
      EncodeJoin(a[1..], b, little);
      assert (a + b)[1..] == a[1..] + b;
    }
  }

  /** A whole message. */
  method WriteAll(buffer: ByteArray, items: seq<Item>) returns (failure: Option<Failure>)
    requires buffer.Valid()
    requires forall i :: 0 <= i < |items| ==> ItemOk(items[i], buffer.littleEndian)
    modifies buffer`position, buffer`size, buffer`current, buffer`tail, buffer`capacity, buffer`nodes,
             buffer.tail`next, buffer.Arrays()
    ensures buffer.Valid() && Grown(buffer) && (buffer.tail == old(buffer.tail) || fresh(buffer.tail))
    ensures failure.None? ==>
              var e := EncodeAll(items, buffer.littleEndian);
              && Written(old(buffer.Flat()), buffer.Flat(), old(buffer.position), e)
              && buffer.position == old(buffer.position) + |e| <= buffer.size
  {
    hide ByteArray.Flat, Written, ByteArray.Chained, Encode, EncodeAll;
    ghost var s0, at, little := buffer.Flat(), buffer.position, buffer.littleEndian;
    buffer.FlatIsCapacity();
    buffer.WrittenNothing(s0, at);
    EncodeNone(items, little);
    for i := 0 to |items|
      invariant buffer.Valid() && Grown(buffer) && (buffer.tail == old(buffer.tail) || fresh(buffer.tail))
      invariant buffer.littleEndian == little
      invariant Written(s0, buffer.Flat(), at, EncodeAll(items[..i], little))
      invariant buffer.position == at + |EncodeAll(items[..i], little)| <= buffer.size
    {
      ghost var before := buffer.Flat();
      assert ItemOk(items[i], little);
      failure := WriteItem(buffer, items[i]);
      TailGrown(buffer);
      if failure.Some? {
        return failure;
      }
      EncodeMore(items, i, little);
      WrittenMore(s0, before, buffer.Flat(), at, EncodeAll(items[..i], little),
                  Encode(items[i].kind, items[i].value, little).value);
    }
    assert items[..|items|] == items;
    return None;
  }

  lemma EncodeNone(items: seq<Item>, little: bool)
    ensures EncodeAll(items[..0], little) == []
  {
  }

  method ReadAll(buffer: ByteArray, kinds: seq<Kind>, ghost s: seq<Byte>) returns (r: Result<seq<Value>, Failure>)
    requires buffer.Valid() && Reads(buffer, s)
    modifies buffer`position, buffer`current
    ensures buffer.Valid() && Reads(buffer, s) && buffer.Flat() == old(buffer.Flat()) && buffer.size == old(buffer.size)
    ensures var spec := DecodeAll(kinds, s, old(buffer.position), buffer.littleEndian);
            if spec.Err? then r == Err(OutOfRange) else r == Ok(spec.value.0) && buffer.position == spec.value.1
    decreases |kinds|
  {
    hide Reads, ByteArray.Flat, ByteArray.Chained, Decode;
    if kinds == [] {
      return Ok([]);
    }
    var first := ReadItem(buffer, kinds[0], s);
    if first.Err? {
      return Err(first.error);
    }
    var rest := ReadAll(buffer, kinds[1..], s);
    return if rest.Err? then Err(rest.error) else Ok([first.value] + rest.value);
  }

  /** Write, rewind, read: the message comes back, and the cursor is where writing left it. */
  method Replay(buffer: ByteArray, items: seq<Item>) returns (failure: Option<Failure>, r: Result<seq<Value>, Failure>)
    requires buffer.Valid()
    requires forall i :: 0 <= i < |items| ==> ItemOk(items[i], buffer.littleEndian)
    modifies buffer`position, buffer`size, buffer`current, buffer`tail, buffer`capacity, buffer`nodes,
             buffer.tail`next, buffer.Arrays()
    ensures buffer.Valid()
    ensures failure.None? ==> r == Ok(Values(items))
    ensures failure.None? ==> buffer.position == old(buffer.position) + |EncodeAll(items, buffer.littleEndian)|
  {
    hide ByteArray.Flat, ByteArray.Chained, EncodeAll, DecodeAll;
    ghost var at, little := buffer.position, buffer.littleEndian;
    var start := buffer.position;
    failure := WriteAll(buffer, items);
    r := Err(OutOfRange);
    if failure.Some? {
      return;
    }
    ghost var flat, e := buffer.Flat(), EncodeAll(items, little);
    var bad := buffer.SetPosition(start);
    buffer.FlatIsCapacity();
    ghost var s := buffer.Flat()[..buffer.size];
    SliceOfPrefix(flat, buffer.size, at, at + |e|);
    MessageRoundTrip(items, little, s, at);
    r := ReadAll(buffer, Kinds(items), s);
  }
}
