/** Byte buffers that are changed in place or replaced by a copy of another size. */
module Buffers {
  /** `memmove` of the bytes behind the consumed ones to the front. */
  method MoveToFront(buffer: array<char>, consumed: nat, length: nat)
    requires consumed <= length <= buffer.Length
    modifies buffer
    ensures buffer[..length - consumed] == old(buffer[consumed..length])
  {
    var i := 0;
    while i < length - consumed
      invariant i <= length - consumed
      invariant forall j :: 0 <= j < i ==> buffer[j] == old(buffer[consumed + j])
      invariant forall j :: i <= j < length ==> buffer[j] == old(buffer[j])
    {
      buffer[i] := buffer[consumed + i];
      i := i + 1;
    }
  }

  /** `std::string::append`: a buffer with the old bytes and a piece behind them. */
  method Append(buffer: array<char>, piece: string) returns (r: array<char>)
    ensures fresh(r) && r[..] == buffer[..] + piece
  {
    var text := buffer[..] + piece;
    r := new char[|text|](i requires 0 <= i < |text| => text[i]);
    assert r[..] == text;
  }

  /** `std::string::resize` to a smaller size. */
  method Shrink(buffer: array<char>, size: nat) returns (r: array<char>)
    requires size <= buffer.Length
    ensures fresh(r) && r[..] == buffer[..size]
  {
    var text := buffer[..size];
    r := new char[size](i requires 0 <= i < size => text[i]);
    assert r[..] == text;
  }
}
