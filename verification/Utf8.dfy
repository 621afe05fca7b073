/** Conversion between UTF-8 and wide strings, for a `wchar_t` of 32 or of 16 bits.  All arithmetic is
    on machine words. */
module Utf8 {
  import opened Wrappers

  type Octet = bv8

  const MAX_UNICODE_CODE_POINT: bv32 := 0x10FFFF

  predicate IsHighSurrogate(value: bv32) {
    0xD800 <= value <= 0xDBFF
  }

  predicate IsLowSurrogate(value: bv32) {
    0xDC00 <= value <= 0xDFFF
  }

  /** Section 3 of RFC 3629: every code point but the surrogates. */
  predicate IsScalar(value: bv32) {
    value <= MAX_UNICODE_CODE_POINT && !IsHighSurrogate(value) && !IsLowSurrogate(value)
  }

  // ----- bits

  /** static_cast<char>. */
  function Low(value: bv32): Octet {
    (value & 0xFF) as bv8
  }

  /** The leading octets of two, three and four, and the octet that carries the bits from `shift` on. */
  function First2(cp: bv32): Octet {
    Low(0xC0 | (cp >> 6))
  }

  function First3(cp: bv32): Octet {
    Low(0xE0 | (cp >> 12))
  }

  function First4(cp: bv32): Octet {
    Low(0xF0 | (cp >> 18))
  }

  function Bits0(cp: bv32): Octet {
    Low(0x80 | (cp & 0x3F))
  }

  function Bits6(cp: bv32): Octet {
    Low(0x80 | ((cp >> 6) & 0x3F))
  }

  function Bits12(cp: bv32): Octet {
    Low(0x80 | ((cp >> 12) & 0x3F))
  }

  /** AppendUtf8. */
  function Append(cp: bv32): (r: seq<Octet>)
    ensures 1 <= |r| <= 4
  {
    if cp <= 0x7F then [Low(cp)]
    else if cp <= 0x7FF then [First2(cp), Bits0(cp)]
    else if cp <= 0xFFFF then [First3(cp), Bits6(cp), Bits0(cp)]
    else [First4(cp), Bits12(cp), Bits6(cp), Bits0(cp)]
  }

  function Payload(first: Octet, mask: bv32): bv32 {
    first as bv32 & mask
  }

  /** One more octet. */
  function Shifted(cp: bv32, octet: Octet): bv32 {
    (cp << 6) | (octet & 0x3F) as bv32
  }

  predicate IsContinuation(octet: Octet) {
    octet & 0xC0 == 0x80
  }

  /** What the first octet says: its payload, the smallest code point it may stand for, and the number
      of octets that follow. */
  datatype Lead = Lead(bits: bv32, minimum: bv32, count: nat)

  function LeadOf(first: Octet): Option<Lead> {
    if first <= 0x7F then Some(Lead(first as bv32, 0, 0))
    else if 0xC2 <= first <= 0xDF then Some(Lead(Payload(first, 0x1F), 0x80, 1))
    else if 0xE0 <= first <= 0xEF then Some(Lead(Payload(first, 0x0F), 0x800, 2))
    else if 0xF0 <= first <= 0xF4 then Some(Lead(Payload(first, 0x07), 0x10000, 3))
    else None
  }

  /** The code point after `count` more octets. */
  function Continue(cp: bv32, text: seq<Octet>, at: nat, count: nat): Option<bv32>
    requires at + count <= |text|
    decreases count
  {
    if count == 0 then Some(cp)
    else if !IsContinuation(text[at]) then None
    else Continue(Shifted(cp, text[at]), text, at + 1, count - 1)
  }

  /** DecodeUtf8CodePoint: the code point at `at` and the offset behind it. */
  function DecodeAt(text: seq<Octet>, at: nat): Option<(bv32, nat)>
    requires at < |text|
  {
    var lead := LeadOf(text[at]);
    if lead.None? then None
    else if lead.value.count == 0 then Some((lead.value.bits, at + 1))
    else if |text| - (at + 1) < lead.value.count then None
    else
      var cp := Continue(lead.value.bits, text, at + 1, lead.value.count);
      if cp.None? || cp.value < lead.value.minimum || !IsScalar(cp.value) then None
      else Some((cp.value, at + 1 + lead.value.count))
  }

  method DecodeUtf8CodePoint(text: seq<Octet>, from: nat) returns (ok: bool, offset: nat, codePoint: bv32)
    requires from < |text|
    ensures ok <==> DecodeAt(text, from).Some?
    ensures ok ==> DecodeAt(text, from) == Some((codePoint, offset))
  {
    hide Payload, Continue, IsHighSurrogate, IsLowSurrogate;
    offset := from + 1;
    codePoint := 0;
    var first := text[from];
    if first <= 0x7F {
      return true, offset, first as bv32;
    }
    var minimum: bv32 := 0;
    var count := 0;
    if 0xC2 <= first <= 0xDF {
      codePoint, minimum, count := Payload(first, 0x1F), 0x80, 1;
    } else if 0xE0 <= first <= 0xEF {
      codePoint, minimum, count := Payload(first, 0x0F), 0x800, 2;
    } else if 0xF0 <= first <= 0xF4 {
      codePoint, minimum, count := Payload(first, 0x07), 0x10000, 3;
    } else {
      return false, offset, codePoint;
    }
    assert LeadOf(first) == Some(Lead(codePoint, minimum, count));
    hide LeadOf;
    if |text| - offset < count {
      return false, offset, codePoint;
    }
    var complete: bool;
    complete, offset, codePoint := ContinueLoop(text, offset, codePoint, count);
    if !complete {
      return false, offset, codePoint;
    }
    if codePoint < minimum || codePoint > MAX_UNICODE_CODE_POINT ||
       IsHighSurrogate(codePoint) || IsLowSurrogate(codePoint) {
      return false, offset, codePoint;
    }
    return true, offset, codePoint;
  }

  /** Its loop over the continuation octets. */
  method ContinueLoop(text: seq<Octet>, start: nat, bits: bv32, count: nat)
    returns (complete: bool, offset: nat, codePoint: bv32)
    requires start + count <= |text|
    ensures Continue(bits, text, start, count) == if complete then Some(codePoint) else None
    ensures complete ==> offset == start + count
  {
    hide Shifted, IsContinuation;
    offset, codePoint := start, bits;
    for i := 0 to count
      invariant offset == start + i
      invariant Continue(bits, text, start, count) == Continue(codePoint, text, offset, count - i)
    {
      var continuation := text[offset];
      offset := offset + 1;
      if !IsContinuation(continuation) {
        return false, offset, codePoint;
      }
      codePoint := Shifted(codePoint, continuation);
    }
    return true, offset, codePoint;
  }

  // ----- the grammar

  predicate Tail(o: Octet) {
    0x80 <= o <= 0xBF
  }

  predicate Two(a: Octet, b: Octet) {
    0xC2 <= a <= 0xDF && Tail(b)
  }

  predicate Three(a: Octet, b: Octet, c: Octet) {
    && Tail(c)
    && (|| (a == 0xE0 && 0xA0 <= b <= 0xBF)
        || (0xE1 <= a <= 0xEC && Tail(b))
        || (a == 0xED && 0x80 <= b <= 0x9F)
        || (0xEE <= a <= 0xEF && Tail(b)))
  }

  predicate Four(a: Octet, b: Octet, c: Octet, d: Octet) {
    && Tail(c) && Tail(d)
    && (|| (a == 0xF0 && 0x90 <= b <= 0xBF)
        || (0xF1 <= a <= 0xF3 && Tail(b))
        || (a == 0xF4 && 0x80 <= b <= 0x8F))
  }

  /** Section 4 of RFC 3629. */
  predicate WellFormed(s: seq<Octet>) {
    || (|s| == 1 && s[0] <= 0x7F)
    || (|s| == 2 && Two(s[0], s[1]))
    || (|s| == 3 && Three(s[0], s[1], s[2]))
    || (|s| == 4 && Four(s[0], s[1], s[2], s[3]))
  }

  lemma ContinuationIsTail(o: Octet)
    ensures IsContinuation(o) <==> Tail(o)
  {
  }

  lemma TwoBits(a: Octet, b: Octet)
    requires Two(a, b)
    ensures var cp := Shifted(Payload(a, 0x1F), b);
            0x80 <= cp <= 0x7FF && First2(cp) == a && Bits0(cp) == b
  {
  }

  lemma ThreeBits(a: Octet, b: Octet, c: Octet)
    requires 0xE0 <= a <= 0xEF && Tail(b) && Tail(c)
    ensures var cp := Shifted(Shifted(Payload(a, 0x0F), b), c);
            && cp <= 0xFFFF
            && (cp < 0x800 <==> a == 0xE0 && b < 0xA0)
            && (IsHighSurrogate(cp) || IsLowSurrogate(cp) <==> a == 0xED && b >= 0xA0)
            && First3(cp) == a && Bits6(cp) == b && Bits0(cp) == c
  {
  }

  lemma FourBits(a: Octet, b: Octet, c: Octet, d: Octet)
    requires 0xF0 <= a <= 0xF4 && Tail(b) && Tail(c) && Tail(d)
    ensures var cp := Shifted(Shifted(Shifted(Payload(a, 0x07), b), c), d);
            && (cp < 0x10000 <==> a == 0xF0 && b < 0x90)
            && (cp > MAX_UNICODE_CODE_POINT <==> a == 0xF4 && b >= 0x90)
            && First4(cp) == a && Bits12(cp) == b && Bits6(cp) == c && Bits0(cp) == d
  {
  }

  lemma TwoBack(cp: bv32)
    requires 0x80 <= cp <= 0x7FF
    ensures Two(First2(cp), Bits0(cp)) && Shifted(Payload(First2(cp), 0x1F), Bits0(cp)) == cp
  {
  }

  lemma ThreeBack(cp: bv32)
    requires 0x800 <= cp <= 0xFFFF
    ensures Shifted(Shifted(Payload(First3(cp), 0x0F), Bits6(cp)), Bits0(cp)) == cp
  {
  }

  lemma FourBack(cp: bv32)
    requires 0x10000 <= cp <= MAX_UNICODE_CODE_POINT
    ensures Shifted(Shifted(Shifted(Payload(First4(cp), 0x07), Bits12(cp)), Bits6(cp)), Bits0(cp)) == cp
  {
  }

  lemma TailsOf(cp: bv32)
    ensures Tail(Bits0(cp)) && Tail(Bits6(cp)) && Tail(Bits12(cp))
  {
  }

  lemma First3Range(cp: bv32)
    requires 0x800 <= cp <= 0xFFFF
    ensures 0xE0 <= First3(cp) <= 0xEF
  {
  }

  lemma First4Range(cp: bv32)
    requires 0x10000 <= cp <= MAX_UNICODE_CODE_POINT
    ensures 0xF0 <= First4(cp) <= 0xF4
  {
  }

  lemma OneBack(cp: bv32)
    requires cp <= 0x7F
    ensures Low(cp) <= 0x7F && Low(cp) as bv32 == cp
  {
  }

  lemma OneBits(a: Octet)
    requires a <= 0x7F
    ensures a as bv32 <= 0x7F && Low(a as bv32) == a && IsScalar(a as bv32)
  {
  }

  // ----- one character

  lemma Continue1(cp: bv32, text: seq<Octet>, at: nat)
    requires at + 1 <= |text|
    ensures Continue(cp, text, at, 1) == if Tail(text[at]) then Some(Shifted(cp, text[at])) else None
  {
    hide Shifted, IsContinuation;
    ContinuationIsTail(text[at]);
    assert Continue(cp, text, at, 1) ==
           if !IsContinuation(text[at]) then None else Continue(Shifted(cp, text[at]), text, at + 1, 0);
  }

  lemma Continue2(cp: bv32, text: seq<Octet>, at: nat)
    requires at + 2 <= |text|
    ensures Continue(cp, text, at, 2) ==
              if Tail(text[at]) && Tail(text[at + 1]) then Some(Shifted(Shifted(cp, text[at]), text[at + 1])) else None
  {
    hide Shifted, IsContinuation;
    ContinuationIsTail(text[at]);
    Continue1(Shifted(cp, text[at]), text, at + 1);
  }

  lemma Continue3(cp: bv32, text: seq<Octet>, at: nat)
    requires at + 3 <= |text|
    ensures Continue(cp, text, at, 3) ==
              if Tail(text[at]) && Tail(text[at + 1]) && Tail(text[at + 2])
              then Some(Shifted(Shifted(Shifted(cp, text[at]), text[at + 1]), text[at + 2])) else None
  {
    hide Shifted, IsContinuation;
    ContinuationIsTail(text[at]);
    Continue2(Shifted(cp, text[at]), text, at + 1);
  }

  /** The length of a character that starts with `first`, by the grammar. */
  function LengthBy(first: Octet): nat {
    if first <= 0x7F then 1 else if 0xC2 <= first <= 0xDF then 2
    else if 0xE0 <= first <= 0xEF then 3 else if 0xF0 <= first <= 0xF4 then 4 else 0
  }

  /** Whether a character starts at `at`. */
  predicate CharacterAt(text: seq<Octet>, at: nat)
    requires at < |text|
  {
    var n := LengthBy(text[at]);
    n > 0 && at + n <= |text| && WellFormed(text[at..at + n])
  }

  lemma DecodeOne(text: seq<Octet>, at: nat)
    requires at < |text| && text[at] <= 0x7F
    ensures CharacterAt(text, at) && DecodeAt(text, at) == Some((text[at] as bv32, at + 1))
    ensures IsScalar(text[at] as bv32) && Append(text[at] as bv32) == text[at..at + 1]
  {
    hide Low;
    OneBits(text[at]);
  }

  lemma DecodeTwo(text: seq<Octet>, at: nat)
    requires at + 2 <= |text| && 0xC2 <= text[at] <= 0xDF
    ensures DecodeAt(text, at).Some? <==> CharacterAt(text, at)
    ensures DecodeAt(text, at).Some? ==>
              var (cp, n) := DecodeAt(text, at).value;
              n == at + 2 && IsScalar(cp) && Append(cp) == text[at..n]
  {
    hide Continue, Shifted, Payload, First2, Bits0, Bits6, Low;
    var a, b := text[at], text[at + 1];
    assert text[at..at + 2] == [a, b];
    Continue1(Payload(a, 0x1F), text, at + 1);
    if Tail(b) {
      TwoBits(a, b);
    }
  }

  lemma DecodeThree(text: seq<Octet>, at: nat)
    requires at + 3 <= |text| && 0xE0 <= text[at] <= 0xEF
    ensures DecodeAt(text, at).Some? <==> CharacterAt(text, at)
    ensures DecodeAt(text, at).Some? ==>
              var (cp, n) := DecodeAt(text, at).value;
              n == at + 3 && IsScalar(cp) && Append(cp) == text[at..n]
  {
    hide LeadOf, Continue, Shifted, Payload, First2, First3, Bits0, Bits6, Low;
    var a, b, c := text[at], text[at + 1], text[at + 2];
    assert text[at..at + 3] == [a, b, c];
    LeadThree(a);
    Continue2(Payload(a, 0x0F), text, at + 1);
    if Tail(b) && Tail(c) {
      ThreeBits(a, b, c);
    }
  }

  lemma DecodeFour(text: seq<Octet>, at: nat)
    requires at + 4 <= |text| && 0xF0 <= text[at] <= 0xF4
    ensures DecodeAt(text, at).Some? <==> CharacterAt(text, at)
    ensures DecodeAt(text, at).Some? ==>
              var (cp, n) := DecodeAt(text, at).value;
              n == at + 4 && IsScalar(cp) && Append(cp) == text[at..n]
  {
    hide LeadOf, Continue, Shifted, Payload, First2, First3, First4, Bits0, Bits6, Bits12, Low;
    var a, b, c, d := text[at], text[at + 1], text[at + 2], text[at + 3];
    assert text[at..at + 4] == [a, b, c, d];
    LeadFour(a);
    Continue3(Payload(a, 0x07), text, at + 1);
    if Tail(b) && Tail(c) && Tail(d) {
      FourBits(a, b, c, d);
    }
  }

  /** The decoder accepts exactly the grammar, takes the whole character, and the encoder undoes it. */
  lemma DecodeIsGrammar(text: seq<Octet>, at: nat)
    requires at < |text|
    ensures DecodeAt(text, at).Some? <==> CharacterAt(text, at)
    ensures DecodeAt(text, at).Some? ==>
              var (cp, n) := DecodeAt(text, at).value;
              n == at + LengthBy(text[at]) && IsScalar(cp) && Append(cp) == text[at..n]
  {
    hide Continue, Payload, Append, IsScalar;
    var first := text[at];
    if first <= 0x7F {
      DecodeOne(text, at);
    } else if 0xC2 <= first <= 0xDF && at + 2 <= |text| {
      DecodeTwo(text, at);
    } else if 0xE0 <= first <= 0xEF && at + 3 <= |text| {
      DecodeThree(text, at);
    } else if 0xF0 <= first <= 0xF4 && at + 4 <= |text| {
      DecodeFour(text, at);
    }
  }

  function Sum2(a: Octet, b: Octet): bv32 {
    (a as bv32 - 0xC0) * 0x40 + (b as bv32 - 0x80)
  }

  function Sum3(a: Octet, b: Octet, c: Octet): bv32 {
    (a as bv32 - 0xE0) * 0x1000 + (b as bv32 - 0x80) * 0x40 + (c as bv32 - 0x80)
  }

  function Sum4(a: Octet, b: Octet, c: Octet, d: Octet): bv32 {
    (a as bv32 - 0xF0) * 0x40000 + (b as bv32 - 0x80) * 0x1000 + (c as bv32 - 0x80) * 0x40 + (d as bv32 - 0x80)
  }

  /** The code point that the octets of a character stand for, as a sum (section 3 of RFC 3629). */
  predicate StandsFor(s: seq<Octet>, cp: bv32) {
    if |s| == 1 then cp == s[0] as bv32
    else if |s| == 2 then cp == Sum2(s[0], s[1])
    else if |s| == 3 then cp == Sum3(s[0], s[1], s[2])
    else |s| == 4 && cp == Sum4(s[0], s[1], s[2], s[3])
  }

  lemma TwoStand(cp: bv32)
    requires 0x80 <= cp <= 0x7FF
    ensures cp == Sum2(First2(cp), Bits0(cp))
  {
  }

  lemma ThreeStand(cp: bv32)
    requires 0x800 <= cp <= 0xFFFF
    ensures cp == Sum3(First3(cp), Bits6(cp), Bits0(cp))
  {
  }

  lemma FourStand(cp: bv32)
    requires 0x10000 <= cp <= MAX_UNICODE_CODE_POINT
    ensures cp == Sum4(First4(cp), Bits12(cp), Bits6(cp), Bits0(cp))
  {
  }

  /** Every scalar value is encoded as the octets that stand for it. */
  lemma EncodedStands(cp: bv32)
    requires IsScalar(cp)
    ensures StandsFor(Append(cp), cp)
  {
    hide StandsFor, Sum2, Sum3, Sum4, First2, First3, First4, Bits0, Bits6, Bits12, Low;
    if cp <= 0x7F {
      OneBack(cp);
      OneStands(Low(cp), cp);
    } else if cp <= 0x7FF {
      TwoStand(cp);
      OctetsStand(First2(cp), Bits0(cp), 0, 0);
    } else if cp <= 0xFFFF {
      ThreeStand(cp);
      OctetsStand(First3(cp), Bits6(cp), Bits0(cp), 0);
    } else {
      NotAbove(cp);
      FourStand(cp);
      OctetsStand(First4(cp), Bits12(cp), Bits6(cp), Bits0(cp));
    }
  }

  lemma NotAbove(cp: bv32)
    requires IsScalar(cp)
    ensures cp <= MAX_UNICODE_CODE_POINT
  {
  }

  lemma OneStands(a: Octet, cp: bv32)
    requires a as bv32 == cp
    ensures StandsFor([a], cp)
  {
  }

  lemma OctetsStand(a: Octet, b: Octet, c: Octet, d: Octet)
    ensures StandsFor([a, b], Sum2(a, b)) && StandsFor([a, b, c], Sum3(a, b, c))
    ensures StandsFor([a, b, c, d], Sum4(a, b, c, d))
  {
    hide Sum2, Sum3, Sum4;
  }

  /** And what is decoded is the code point that the octets stand for. */
  lemma DecodedStands(text: seq<Octet>, at: nat)
    requires at < |text| && DecodeAt(text, at).Some?
    ensures var (cp, n) := DecodeAt(text, at).value;
            at < n <= |text| && StandsFor(text[at..n], cp)
  {
    hide DecodeAt, StandsFor, Append, IsScalar, WellFormed;
    DecodeIsGrammar(text, at);
    EncodedStands(DecodeAt(text, at).value.0);
  }

  lemma LeadTwo(first: Octet)
    requires 0xC2 <= first <= 0xDF
    ensures LeadOf(first) == Some(Lead(Payload(first, 0x1F), 0x80, 1))
  {
    hide Payload;
  }

  lemma LeadThree(first: Octet)
    requires 0xE0 <= first <= 0xEF
    ensures LeadOf(first) == Some(Lead(Payload(first, 0x0F), 0x800, 2))
  {
    hide Payload;
  }

  lemma LeadFour(first: Octet)
    requires 0xF0 <= first <= 0xF4
    ensures LeadOf(first) == Some(Lead(Payload(first, 0x07), 0x10000, 3))
  {
    hide Payload;
  }

  lemma AppendedOne(cp: bv32, text: seq<Octet>, at: nat)
    requires cp <= 0x7F && at < |text| && text[at] == Low(cp)
    ensures DecodeAt(text, at) == Some((cp, at + 1))
  {
    hide Low, Payload, Continue, IsScalar;
    OneBack(cp);
  }

  lemma AppendedTwo(cp: bv32, text: seq<Octet>, at: nat)
    requires 0x80 <= cp <= 0x7FF && IsScalar(cp) && at + 2 <= |text|
    requires text[at] == First2(cp) && text[at + 1] == Bits0(cp)
    ensures DecodeAt(text, at) == Some((cp, at + 2))
  {
    hide LeadOf, IsScalar, Continue, Shifted, Payload, First2, Bits0;
    TailsOf(cp);
    TwoBack(cp);
    LeadTwo(text[at]);
    Continue1(Payload(text[at], 0x1F), text, at + 1);
  }

  lemma AppendedThree(cp: bv32, text: seq<Octet>, at: nat)
    requires 0x800 <= cp <= 0xFFFF && IsScalar(cp) && at + 3 <= |text|
    requires text[at] == First3(cp) && text[at + 1] == Bits6(cp) && text[at + 2] == Bits0(cp)
    ensures DecodeAt(text, at) == Some((cp, at + 3))
  {
    hide LeadOf, IsScalar, Continue, Shifted, Payload, First3, Bits0, Bits6;
    TailsOf(cp);
    ThreeBack(cp);
    First3Range(cp);
    LeadThree(text[at]);
    Continue2(Payload(text[at], 0x0F), text, at + 1);
  }

  lemma AppendedFour(cp: bv32, text: seq<Octet>, at: nat)
    requires 0x10000 <= cp <= MAX_UNICODE_CODE_POINT && IsScalar(cp) && at + 4 <= |text|
    requires text[at] == First4(cp) && text[at + 1] == Bits12(cp) && text[at + 2] == Bits6(cp)
    requires text[at + 3] == Bits0(cp)
    ensures DecodeAt(text, at) == Some((cp, at + 4))
  {
    hide LeadOf, IsScalar, Continue, Shifted, Payload, First4, Bits0, Bits6, Bits12;
    TailsOf(cp);
    FourBack(cp);
    First4Range(cp);
    LeadFour(text[at]);
    Continue3(Payload(text[at], 0x07), text, at + 1);
  }

  lemma ScalarLimit(cp: bv32)
    requires IsScalar(cp)
    ensures cp <= MAX_UNICODE_CODE_POINT
  {
  }

  /** What was encoded is decoded, whatever follows. */
  lemma DecodeAppended(cp: bv32, text: seq<Octet>, at: nat)
    requires IsScalar(cp) && at + |Append(cp)| <= |text| && text[at..at + |Append(cp)|] == Append(cp)
    ensures DecodeAt(text, at) == Some((cp, at + |Append(cp)|))
  {
    hide DecodeAt, IsScalar, Low, First2, First3, First4, Bits0, Bits6, Bits12;
    var e := Append(cp);
    forall k | 0 <= k < |e| ensures text[at + k] == e[k] {
      assert text[at..at + |e|][k] == e[k];
    }
    assert text[at] == text[at + 0];
    ScalarLimit(cp);
    if cp <= 0x7F {
      AppendedOne(cp, text, at);
    } else if cp <= 0x7FF {
      AppendedTwo(cp, text, at);
    } else if cp <= 0xFFFF {
      AppendedThree(cp, text, at);
    } else {
      assert text[at + 1] == e[1] && text[at + 2] == e[2] && text[at + 3] == e[3];
      AppendedFour(cp, text, at);
    }
  }

  // ----- whole texts, 32-bit wchar_t

  /** StringToWString from `at` on; None stands for the rejected text. */
  function Widen32(text: seq<Octet>, at: nat): Option<seq<bv32>>
    requires at <= |text|
    decreases |text| - at
  {
    if at == |text| then Some([])
    else
      var first := DecodeAt(text, at);
      if first.None? || first.value.1 <= at || first.value.1 > |text| then None
      else
        var rest := Widen32(text, first.value.1);
        if rest.None? then None else Some([first.value.0] + rest.value)
  }

  /** WStringToString. */
  function Narrow32(wide: seq<bv32>): Option<seq<Octet>> {
    if wide == [] then Some([])
    else if !IsScalar(wide[0]) then None
    else
      var rest := Narrow32(wide[1..]);
      if rest.None? then None else Some(Append(wide[0]) + rest.value)
  }

  /** A text made of well-formed characters. */
  predicate WellFormedText(text: seq<Octet>, at: nat)
    requires at <= |text|
    decreases |text| - at
  {
    at == |text| || (CharacterAt(text, at) && WellFormedText(text, at + LengthBy(text[at])))
  }

  /** Accepted are exactly the texts of the grammar. */
  lemma {:induction false} WidenAccepts(text: seq<Octet>, at: nat)
    requires at <= |text|
    ensures Widen32(text, at).Some? <==> WellFormedText(text, at)
    decreases |text| - at
  {
    hide DecodeAt, WellFormed, Append, IsScalar;
    if at < |text| {
      DecodeIsGrammar(text, at);
      if CharacterAt(text, at) {
        WidenAccepts(text, at + LengthBy(text[at]));
      }
    }
  }

  lemma {:induction false} NarrowAccepts(wide: seq<bv32>)
    ensures Narrow32(wide).Some? <==> forall i :: 0 <= i < |wide| ==> IsScalar(wide[i])
  {
    hide Append, IsScalar;
    if wide != [] {
      NarrowAccepts(wide[1..]);
      if IsScalar(wide[0]) {
        assert forall i :: 0 < i < |wide| ==> wide[i] == wide[1..][i - 1];
        assert forall i :: 0 <= i < |wide[1..]| ==> wide[1..][i] == wide[i + 1];
      }
    }
  }

  /** Decoding an encoding returns the wide string. */
  lemma {:induction false} WidenNarrowed(wide: seq<bv32>, text: seq<Octet>, at: nat)
    requires Narrow32(wide).Some? && at <= |text| && text[at..] == Narrow32(wide).value
    ensures Widen32(text, at) == Some(wide)
    decreases |wide|
  {
    hide Append, IsScalar, DecodeAt;
    if wide != [] {
      var first, rest := Append(wide[0]), Narrow32(wide[1..]).value;
      assert text[at..at + |first|] == text[at..][..|first|] == first;
      assert text[at + |first|..] == text[at..][|first|..] == rest;
      DecodeAppended(wide[0], text, at);
      WidenNarrowed(wide[1..], text, at + |first|);
      assert wide == [wide[0]] + wide[1..];
    } else {
      assert |text[at..]| == 0;
    }
  }

  /** Re-encoding an accepted text returns its octets. */
  lemma {:induction false} NarrowWidened(text: seq<Octet>, at: nat)
    requires at <= |text| && Widen32(text, at).Some?
    ensures Narrow32(Widen32(text, at).value) == Some(text[at..])
    decreases |text| - at
  {
    hide Append, IsScalar, DecodeAt, WellFormed;
    if at < |text| {
      DecodeIsGrammar(text, at);
      var (cp, n) := DecodeAt(text, at).value;
      NarrowWidened(text, n);
      var wide := Widen32(text, at).value;
      assert wide[0] == cp && wide[1..] == Widen32(text, n).value;
      assert text[at..] == text[at..n] + text[n..];
    } else {
      assert text[at..] == [];
    }
  }

  method StringToWString32(text: seq<Octet>) returns (result: Option<seq<bv32>>)
    ensures result == Widen32(text, 0)
  {
    hide DecodeAt;
    var wide: seq<bv32> := [];
    var offset := 0;
    PrefixedEnds(Widen32(text, 0), wide);
    while offset < |text|
      invariant offset <= |text|
      invariant Widen32(text, 0) == Prefixed(wide, Widen32(text, offset))
    {
      DecodeIsGrammar(text, offset);
      var ok, next, cp := DecodeUtf8CodePoint(text, offset);
      if !ok {
        return None;
      }
      PrefixedMore(wide, [cp], Widen32(text, next));
      wide := wide + [cp];
      offset := next;
    }
    PrefixedEnds(None, wide);
    return Some(wide);
  }

  function Prefixed<T>(head: seq<T>, rest: Option<seq<T>>): Option<seq<T>> {
    if rest.None? then None else Some(head + rest.value)
  }

  lemma PrefixedEnds<T>(rest: Option<seq<T>>, head: seq<T>)
    ensures Prefixed([], rest) == rest && Prefixed(head, Some([])) == Some(head)
  {
    assert head + [] == head;
    if rest.Some? {
      assert [] + rest.value == rest.value;
    }
  }

  lemma PrefixedMore<T>(head: seq<T>, more: seq<T>, rest: Option<seq<T>>)
    ensures Prefixed(head, Prefixed(more, rest)) == Prefixed(head + more, rest)
  {
    if rest.Some? {
      assert head + (more + rest.value) == head + more + rest.value;
    }
  }

  method WStringToString32(wide: seq<bv32>) returns (result: Option<seq<Octet>>)
    ensures result == Narrow32(wide)
  {
    hide Append, IsScalar, Prefixed, Narrow32;
    var text: seq<Octet> := [];
    assert wide[0..] == wide;
    PrefixedEnds(Narrow32(wide), text);
    PrefixedNone(text);
    for i := 0 to |wide|
      invariant Narrow32(wide) == Prefixed(text, Narrow32(wide[i..]))
    {
      var cp := wide[i];
      NarrowOne(wide, i);
      if !IsScalar(cp) {
        PrefixedNone(text);
        return None;
      }
      PrefixedMore(text, Append(cp), Narrow32(wide[i + 1..]));
      text := text + Append(cp);
    }
    NarrowEmpty(wide);
    PrefixedEnds(None, text);
    return Some(text);
  }

  lemma NarrowOne(wide: seq<bv32>, i: nat)
    requires i < |wide|
    ensures Narrow32(wide[i..]) ==
              if IsScalar(wide[i]) then Prefixed(Append(wide[i]), Narrow32(wide[i + 1..])) else None
  {
    hide Append, IsScalar;
    assert wide[i..][1..] == wide[i + 1..];
  }

  lemma NarrowEmpty(wide: seq<bv32>)
    ensures Narrow32(wide[|wide|..]) == Some([])
  {
  }

  lemma PrefixedNone<T>(head: seq<T>)
    ensures Prefixed(head, None) == None
  {
  }

  // ----- 16-bit wchar_t

  /** The surrogate pair of a code point above 0xFFFF. */
  function HighOf(cp: bv32): bv16 {
    ((0xD800 + ((cp - 0x10000) >> 10)) & 0xFFFF) as bv16
  }

  function LowOf(cp: bv32): bv16 {
    ((0xDC00 + ((cp - 0x10000) & 0x3FF)) & 0xFFFF) as bv16
  }

  function PairValue(high: bv16, low: bv16): bv32 {
    0x10000 + ((high as bv32 - 0xD800) << 10) + (low as bv32 - 0xDC00)
  }

  function Narrowed(cp: bv32): bv16 {
    (cp & 0xFFFF) as bv16
  }

  function Units(cp: bv32): seq<bv16> {
    if cp <= 0xFFFF then [Narrowed(cp)] else [HighOf(cp), LowOf(cp)]
  }

  /** StringToWString. */
  function Widen16(text: seq<Octet>, at: nat): Option<seq<bv16>>
    requires at <= |text|
    decreases |text| - at
  {
    if at == |text| then Some([])
    else
      var first := DecodeAt(text, at);
      if first.None? || first.value.1 <= at || first.value.1 > |text| then None
      else
        var rest := Widen16(text, first.value.1);
        if rest.None? then None else Some(Units(first.value.0) + rest.value)
  }

  /** The code point at `i` and the index behind it. */
  function UnitsAt(wide: seq<bv16>, i: nat): Option<(bv32, nat)>
    requires i < |wide|
  {
    var unit := wide[i] as bv32;
    if IsHighSurrogate(unit) then
      if i + 1 < |wide| && IsLowSurrogate(wide[i + 1] as bv32) then Some((PairValue(wide[i], wide[i + 1]), i + 2))
      else None
    else if IsLowSurrogate(unit) then None
    else Some((unit, i + 1))
  }

  /** WStringToString from `i` on. */
  function Narrow16(wide: seq<bv16>, i: nat): Option<seq<Octet>>
    requires i <= |wide|
    decreases |wide| - i
  {
    if i == |wide| then Some([])
    else
      var first := UnitsAt(wide, i);
      if first.None? then None
      else
        var rest := Narrow16(wide, first.value.1);
        if rest.None? then None else Some(Append(first.value.0) + rest.value)
  }

  /** A surrogate pair stands for the code point that section 3 of RFC 2781 gives it. */
  lemma PairStands(high: bv16, low: bv16)
    requires IsHighSurrogate(high as bv32) && IsLowSurrogate(low as bv32)
    ensures UnitsAt([high, low], 0) ==
              Some((0x10000 + (high as bv32 - 0xD800) * 0x400 + (low as bv32 - 0xDC00), 2))
  {
  }

  lemma PairBits(high: bv16, low: bv16)
    requires IsHighSurrogate(high as bv32) && IsLowSurrogate(low as bv32)
    ensures var cp := PairValue(high, low);
            0x10000 <= cp <= MAX_UNICODE_CODE_POINT && HighOf(cp) == high && LowOf(cp) == low
  {
  }

  lemma HighBack(cp: bv32)
    requires 0x10000 <= cp <= MAX_UNICODE_CODE_POINT
    ensures HighOf(cp) as bv32 == 0xD800 + ((cp - 0x10000) >> 10)
    ensures IsHighSurrogate(HighOf(cp) as bv32)
  {
  }

  lemma LowBack(cp: bv32)
    ensures LowOf(cp) as bv32 == 0xDC00 + ((cp - 0x10000) & 0x3FF)
    ensures IsLowSurrogate(LowOf(cp) as bv32)
  {
  }

  lemma HalvesBack(d: bv32)
    requires d <= 0xFFFFF
    ensures ((d >> 10) << 10) + (d & 0x3FF) == d
  {
  }

  lemma PairBack(cp: bv32)
    requires 0x10000 <= cp <= MAX_UNICODE_CODE_POINT
    ensures IsHighSurrogate(HighOf(cp) as bv32) && IsLowSurrogate(LowOf(cp) as bv32)
    ensures PairValue(HighOf(cp), LowOf(cp)) == cp
  {
    hide HighOf, LowOf;
    HighBack(cp);
    LowBack(cp);
    HalvesBack(cp - 0x10000);
  }

  lemma UnitBits(unit: bv16)
    ensures unit as bv32 <= 0xFFFF && Narrowed(unit as bv32) == unit
  {
  }

  lemma UnitBack(cp: bv32)
    requires cp <= 0xFFFF
    ensures Narrowed(cp) as bv32 == cp
  {
  }

  /** What UnitsAt accepts is a code point written in its only form. */
  lemma UnitsAtSound(wide: seq<bv16>, i: nat)
    requires i < |wide| && UnitsAt(wide, i).Some?
    ensures var (cp, n) := UnitsAt(wide, i).value;
            IsScalar(cp) && i < n <= |wide| && Units(cp) == wide[i..n]
  {
    hide PairValue, Units, IsScalar;
    if IsHighSurrogate(wide[i] as bv32) {
      PairSound(wide, i);
    } else {
      UnitSound(wide, i);
    }
  }

  lemma PairSound(wide: seq<bv16>, i: nat)
    requires i + 1 < |wide| && IsHighSurrogate(wide[i] as bv32) && IsLowSurrogate(wide[i + 1] as bv32)
    ensures UnitsAt(wide, i) == Some((PairValue(wide[i], wide[i + 1]), i + 2))
    ensures IsScalar(PairValue(wide[i], wide[i + 1])) && Units(PairValue(wide[i], wide[i + 1])) == wide[i..i + 2]
  {
    hide PairValue, HighOf, LowOf, Narrowed;
    PairBits(wide[i], wide[i + 1]);
    assert wide[i..i + 2] == [wide[i], wide[i + 1]];
  }

  lemma UnitSound(wide: seq<bv16>, i: nat)
    requires i < |wide| && !IsHighSurrogate(wide[i] as bv32) && UnitsAt(wide, i).Some?
    ensures UnitsAt(wide, i) == Some((wide[i] as bv32, i + 1))
    ensures IsScalar(wide[i] as bv32) && Units(wide[i] as bv32) == wide[i..i + 1]
  {
    hide PairValue, HighOf, LowOf, Narrowed;
    UnitBits(wide[i]);
    assert wide[i..i + 1] == [wide[i]];
  }

  lemma UnitsAtBack(cp: bv32, wide: seq<bv16>, i: nat)
    requires IsScalar(cp) && i + |Units(cp)| <= |wide| && wide[i..i + |Units(cp)|] == Units(cp)
    ensures UnitsAt(wide, i) == Some((cp, i + |Units(cp)|))
  {
    hide PairValue, HighOf, LowOf, Narrowed;
    assert wide[i] == wide[i..i + |Units(cp)|][0];
    if cp <= 0xFFFF {
      UnitBack(cp);
    } else {
      assert wide[i + 1] == wide[i..i + |Units(cp)|][1];
      PairBack(cp);
    }
  }

  /** From `i` on, every high surrogate stands right before a low one, and every low one right
      behind a high one. */
  predicate Paired(wide: seq<bv16>, i: nat) {
    && (i < |wide| ==> !IsLowSurrogate(wide[i] as bv32))
    && forall k :: i <= k < |wide| ==>
         (IsHighSurrogate(wide[k] as bv32) <==> k + 1 < |wide| && IsLowSurrogate(wide[k + 1] as bv32))
  }

  lemma {:induction false} NarrowAccepts16(wide: seq<bv16>, i: nat)
    requires i <= |wide|
    ensures Narrow16(wide, i).Some? <==> Paired(wide, i)
    decreases |wide| - i
  {
    hide Append, PairValue;
    if i < |wide| && UnitsAt(wide, i).Some? {
      NarrowAccepts16(wide, UnitsAt(wide, i).value.1);
    }
  }

  /** Both directions again, through surrogate pairs. */
  lemma {:induction false} WidenNarrowed16(wide: seq<bv16>, i: nat, text: seq<Octet>, at: nat)
    requires i <= |wide| && Narrow16(wide, i).Some? && at <= |text| && text[at..] == Narrow16(wide, i).value
    ensures Widen16(text, at) == Some(wide[i..])
    decreases |wide| - i
  {
    hide Append, IsScalar, DecodeAt, UnitsAt, Units;
    if i < |wide| {
      UnitsAtSound(wide, i);
      var (cp, n) := UnitsAt(wide, i).value;
      var first, rest := Append(cp), Narrow16(wide, n).value;
      assert text[at..at + |first|] == text[at..][..|first|] == first;
      assert text[at + |first|..] == text[at..][|first|..] == rest;
      DecodeAppended(cp, text, at);
      WidenNarrowed16(wide, n, text, at + |first|);
      assert wide[i..] == wide[i..n] + wide[n..];
    } else {
      assert |text[at..]| == 0;
      assert wide[i..] == [];
    }
  }

  lemma {:induction false} NarrowWidened16(text: seq<Octet>, at: nat, wide: seq<bv16>, i: nat)
    requires at <= |text| && Widen16(text, at).Some? && i <= |wide| && wide[i..] == Widen16(text, at).value
    ensures Narrow16(wide, i) == Some(text[at..])
    decreases |text| - at
  {
    hide Append, IsScalar, DecodeAt, UnitsAt, Units, WellFormed;
    if at < |text| {
      DecodeIsGrammar(text, at);
      var (cp, n) := DecodeAt(text, at).value;
      var first, rest := Units(cp), Widen16(text, n).value;
      assert wide[i..i + |first|] == wide[i..][..|first|] == first;
      assert wide[i + |first|..] == wide[i..][|first|..] == rest;
      UnitsAtBack(cp, wide, i);
      UnitsNotEmpty(cp);
      NarrowWidened16(text, n, wide, i + |first|);
      assert text[at..] == text[at..n] + text[n..];
    } else {
      assert |wide[i..]| == 0;
      assert text[at..] == [];
    }
  }

  lemma UnitsNotEmpty(cp: bv32)
    ensures |Units(cp)| > 0
  {
  }

  /** Both widths accept the same texts. */
  lemma {:induction false} SameTexts(text: seq<Octet>, at: nat)
    requires at <= |text|
    ensures Widen16(text, at).Some? <==> Widen32(text, at).Some?
    decreases |text| - at
  {
    hide DecodeAt;
    if at < |text| && DecodeAt(text, at).Some? && at < DecodeAt(text, at).value.1 <= |text| {
      SameTexts(text, DecodeAt(text, at).value.1);
    }
  }

  method StringToWString16(text: seq<Octet>) returns (result: Option<seq<bv16>>)
    ensures result == Widen16(text, 0)
  {
    hide DecodeAt, Units;
    var wide: seq<bv16> := [];
    var offset := 0;
    PrefixedEnds(Widen16(text, 0), wide);
    while offset < |text|
      invariant offset <= |text|
      invariant Widen16(text, 0) == Prefixed(wide, Widen16(text, offset))
    {
      DecodeIsGrammar(text, offset);
      var ok, next, cp := DecodeUtf8CodePoint(text, offset);
      if !ok {
        return None;
      }
      PrefixedMore(wide, Units(cp), Widen16(text, next));
      if cp <= 0xFFFF {
        assert Units(cp) == [Narrowed(cp)] by { UnitsForms(cp); }
        wide := wide + [Narrowed(cp)];
      } else {
        assert Units(cp) == [HighOf(cp), LowOf(cp)] by { UnitsForms(cp); }
        wide := wide + [HighOf(cp), LowOf(cp)];
      }
      offset := next;
    }
    PrefixedEnds(None, wide);
    return Some(wide);
  }

  lemma UnitsForms(cp: bv32)
    ensures Units(cp) == if cp <= 0xFFFF then [Narrowed(cp)] else [HighOf(cp), LowOf(cp)]
  {
  }

  method WStringToString16(wide: seq<bv16>) returns (result: Option<seq<Octet>>)
    ensures result == Narrow16(wide, 0)
  {
    hide Append, PairValue, Prefixed, Narrow16;
    var text: seq<Octet> := [];
    var i := 0;
    PrefixedEnds(Narrow16(wide, 0), text);
    NarrowEnds(wide);
    PrefixedNone(text);
    while i < |wide|
      invariant i <= |wide|
      invariant Narrow16(wide, 0) == Prefixed(text, Narrow16(wide, i))
    {
      ghost var start := i;
      var codePoint := wide[i] as bv32;
      if IsHighSurrogate(codePoint) {
        i := i + 1;
        if i >= |wide| {
          NarrowStops(wide, start, text);
          return None;
        }
        if !IsLowSurrogate(wide[i] as bv32) {
          NarrowStops(wide, start, text);
          return None;
        }
        codePoint := PairValue(wide[i - 1], wide[i]);
      } else if IsLowSurrogate(codePoint) {
        NarrowStops(wide, start, text);
        return None;
      }
      NarrowStep(wide, start, codePoint, i + 1);
      PrefixedMore(text, Append(codePoint), Narrow16(wide, i + 1));
      text := text + Append(codePoint);
      i := i + 1;
    }
    PrefixedEnds(Narrow16(wide, 0), text);
    return Some(text);
  }

  lemma NarrowEnds(wide: seq<bv16>)
    ensures Narrow16(wide, |wide|) == Some([])
  {
  }

  lemma NarrowStops(wide: seq<bv16>, i: nat, text: seq<Octet>)
    requires i < |wide| && UnitsAt(wide, i).None?
    ensures Prefixed(text, Narrow16(wide, i)) == None
  {
  }

  lemma NarrowStep(wide: seq<bv16>, i: nat, cp: bv32, n: nat)
    requires i < |wide| && n <= |wide| && UnitsAt(wide, i) == Some((cp, n))
    ensures Narrow16(wide, i) == Prefixed(Append(cp), Narrow16(wide, n))
  {
    hide Append, UnitsAt;
  }
}
