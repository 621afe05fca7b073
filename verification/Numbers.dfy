/** Unsigned numbers in text: `std::from_chars` over a whole field, and stream output. */
module Numbers {
  import opened Wrappers

  const U64_LIMIT: nat := 0x1_0000_0000_0000_0000

  /** The value of a digit character; hexadecimal digits may be of either case. */
  function DigitValue(c: char): (r: nat)
    ensures r <= 99
  {
    if '0' <= c <= '9' then c as int - '0' as int
    else if 'a' <= c <= 'f' then c as int - 'a' as int + 10
    else if 'A' <= c <= 'F' then c as int - 'A' as int + 10
    else 99
  }

  predicate AllDigits(text: string, base: nat) {
    forall i :: 0 <= i < |text| ==> DigitValue(text[i]) < base
  }

  /** The number a digit string denotes, most significant digit first. */
  function Denoted(text: string, base: nat): nat {
    if text == "" then 0
    else Denoted(text[..|text| - 1], base) * base + DigitValue(text[|text| - 1])
  }

  /** A whole field read as an unsigned number below `limit`: at least one digit, no sign, no
      rest, no overflow. */
  function ParseNumber(text: string, base: nat, limit: nat): (r: Option<nat>)
    ensures r.Some? ==> r.value < limit && text != ""
  {
    if text != "" && AllDigits(text, base) && Denoted(text, base) < limit
    then Some(Denoted(text, base))
    else None
  }

  function DigitOf(d: nat): (c: char)
    requires d < 16
    ensures DigitValue(c) == d && IsLowerDigit(c)
  {
    if d < 10 then '0' + d as char else 'a' + (d - 10) as char
  }

  predicate IsLowerDigit(c: char) {
    '0' <= c <= '9' || 'a' <= c <= 'f'
  }

  /** The shortest digit string of a number, in lower case. */
  function NumberText(n: nat, base: nat): (r: string)
    requires 2 <= base <= 16
    ensures r != ""
  {
    if n < base then [DigitOf(n)] else NumberText(n / base, base) + [DigitOf(n % base)]
  }

  lemma DenotedAppend(text: string, c: char, base: nat)
    ensures Denoted(text + [c], base) == Denoted(text, base) * base + DigitValue(c)
  {
    assert (text + [c])[..|text|] == text;
  }

  function Power(base: nat, n: nat): nat {
    if n == 0 then 1 else base * Power(base, n - 1)
  }

  /** The digits in front weigh more, by as many powers of the base as digits follow. */
  lemma {:induction false} DenotedSplit(front: string, back: string, base: nat)
    ensures Denoted(front + back, base) == Denoted(front, base) * Power(base, |back|) + Denoted(back, base)
    decreases |back|
  {
    if back == "" {
      assert front + back == front;
    } else {
      var n := |back| - 1;
      var init, c := back[..n], back[n];
      DenotedSplit(front, init, base);
      assert (front + init) + [c] == front + back && init + [c] == back;
      DenotedAppend(front + init, c, base);
      DenotedAppend(init, c, base);
      Scaled(Denoted(front, base), Power(base, n), Denoted(init, base), base);
    }
  }

  lemma Scaled(a: nat, p: nat, b: nat, base: nat)
    ensures (a * p + b) * base == a * (base * p) + b * base
  {
    assert (a * p) * base == a * (base * p);
  }

  lemma DivMod(n: nat, base: nat)
    requires 2 <= base
    ensures n / base * base + n % base == n && n % base < base
    ensures base <= n ==> 0 < n / base < n
  {
  }

  lemma {:induction false} NumberDigits(n: nat, base: nat)
    requires 2 <= base <= 16
    ensures AllDigits(NumberText(n, base), base)
    ensures forall i :: 0 <= i < |NumberText(n, base)| ==> IsLowerDigit(NumberText(n, base)[i])
  {
    if n >= base {
      DivMod(n, base);
      NumberDigits(n / base, base);
    }
  }

  lemma {:induction false} NumberDenoted(n: nat, base: nat)
    requires 2 <= base <= 16
    ensures Denoted(NumberText(n, base), base) == n
  {
    if n < base {
      DenotedAppend("", DigitOf(n), base);
      assert [DigitOf(n)] == "" + [DigitOf(n)];
    } else {
      DivMod(n, base);
      NumberDenoted(n / base, base);
      DenotedAppend(NumberText(n / base, base), DigitOf(n % base), base);
    }
  }

  /** Printing a number and reading the text back gives the number. */
  lemma NumberRoundTrip(n: nat, base: nat)
    requires 2 <= base <= 16
    ensures AllDigits(NumberText(n, base), base)
    ensures Denoted(NumberText(n, base), base) == n
    ensures forall i :: 0 <= i < |NumberText(n, base)| ==> IsLowerDigit(NumberText(n, base)[i])
  {
    NumberDigits(n, base);
    NumberDenoted(n, base);
  }

  lemma ParsePrinted(n: nat, base: nat, limit: nat)
    requires 2 <= base <= 16 && n < limit
    ensures ParseNumber(NumberText(n, base), base, limit) == Some(n)
  {
    NumberRoundTrip(n, base);
  }

  /** A three-digit decimal text denotes exactly the numbers from 100 to 999 when printed. */
  lemma ThreeDigits(n: nat)
    requires 100 <= n <= 999
    ensures |NumberText(n, 10)| == 3
  {
    assert NumberText(n, 10) == NumberText(n / 10, 10) + [DigitOf(n % 10)];
    assert NumberText(n / 10, 10) == NumberText(n / 10 / 10, 10) + [DigitOf(n / 10 % 10)];
  }
}
