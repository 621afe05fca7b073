/** Blocks of bytes laid end to end. */
module Blocks {
  type Byte = x: nat | x < 256

  function Join(blocks: seq<seq<Byte>>): seq<Byte> {
    if blocks == [] then [] else Join(blocks[..|blocks| - 1]) + blocks[|blocks| - 1]
  }

  lemma JoinOne(block: seq<Byte>)
    ensures Join([block]) == block
  {
    assert [block][..0] == [];
  }

  /** Where block `i` starts in the joined sequence. */
  function StartOf(blocks: seq<seq<Byte>>, i: nat): nat
    requires i <= |blocks|
  {
    |Join(blocks[..i])|
  }

  /** `s` with the bytes from `at` on overwritten by `bytes`. */
  function Overwrite(s: seq<Byte>, at: nat, bytes: seq<Byte>): (r: seq<Byte>)
    requires at + |bytes| <= |s|
    ensures |r| == |s|
  {
    s[..at] + bytes + s[at + |bytes|..]
  }

  lemma {:induction false} JoinPrefix(blocks: seq<seq<Byte>>, i: nat)
    requires i <= |blocks|
    ensures Join(blocks[..i]) <= Join(blocks)
    decreases |blocks|
  {
    if i < |blocks| {
      var n := |blocks| - 1;
      JoinPrefix(blocks[..n], i);
      assert blocks[..n][..i] == blocks[..i];
    } else {
      assert blocks[..i] == blocks;
    }
  }

  lemma NextStart(blocks: seq<seq<Byte>>, i: nat)
    requires i < |blocks|
    ensures StartOf(blocks, i + 1) == StartOf(blocks, i) + |blocks[i]|
    ensures StartOf(blocks, i + 1) <= |Join(blocks)|
  {
    assert blocks[..i + 1][..i] == blocks[..i];
    JoinPrefix(blocks, i + 1);
  }

  /** A block is a slice of the whole. */
  lemma BlockIsSlice(blocks: seq<seq<Byte>>, i: nat)
    requires i < |blocks|
    ensures StartOf(blocks, i) + |blocks[i]| <= |Join(blocks)|
    ensures Join(blocks)[StartOf(blocks, i)..StartOf(blocks, i) + |blocks[i]|] == blocks[i]
  {
    NextStart(blocks, i);
    JoinPrefix(blocks, i + 1);
    assert blocks[..i + 1][..i] == blocks[..i];
    assert Join(blocks[..i + 1]) == Join(blocks[..i]) + blocks[i];
    var whole, upto, start := Join(blocks), Join(blocks[..i + 1]), StartOf(blocks, i);
    assert upto == whole[..|upto|];
    assert upto[start..] == blocks[i];
  }

  /** Replacing a block by one of the same length overwrites its slice. */
  lemma {:induction false} JoinUpdate(blocks: seq<seq<Byte>>, i: nat, block: seq<Byte>)
    requires i < |blocks| && |block| == |blocks[i]|
    ensures StartOf(blocks, i) + |block| <= |Join(blocks)|
    ensures Join(blocks[i := block]) == Overwrite(Join(blocks), StartOf(blocks, i), block)
    decreases |blocks|
  {
    BlockIsSlice(blocks, i);
    var n := |blocks| - 1;
    var after := blocks[i := block];
    if i < n {
      JoinUpdate(blocks[..n], i, block);
      assert after[..n] == blocks[..n][i := block];
      assert blocks[..n][..i] == blocks[..i];
      OverwriteBefore(Join(blocks[..n]), blocks[n], StartOf(blocks, i), block);
    } else {
      assert after[..n] == blocks[..n];
      OverwriteAll(Join(blocks[..n]), blocks[n], block);
    }
  }

  lemma OverwriteBefore(s: seq<Byte>, rest: seq<Byte>, at: nat, bytes: seq<Byte>)
    requires at + |bytes| <= |s|
    ensures Overwrite(s, at, bytes) + rest == Overwrite(s + rest, at, bytes)
  {
    assert (s + rest)[at + |bytes|..] == s[at + |bytes|..] + rest;
    assert (s + rest)[..at] == s[..at];
  }

  lemma OverwriteAll(s: seq<Byte>, last: seq<Byte>, bytes: seq<Byte>)
    requires |last| == |bytes|
    ensures s + bytes == Overwrite(s + last, |s|, bytes)
  {
    assert (s + last)[|s| + |bytes|..] == [];
    assert (s + last)[..|s|] == s;
  }

  /** Part of a block is overwritten: the same part of the whole. */
  lemma JoinOverwrite(blocks: seq<seq<Byte>>, i: nat, offset: nat, bytes: seq<Byte>)
    requires i < |blocks| && offset + |bytes| <= |blocks[i]|
    ensures StartOf(blocks, i) + offset + |bytes| <= |Join(blocks)|
    ensures Join(blocks[i := Overwrite(blocks[i], offset, bytes)]) ==
              Overwrite(Join(blocks), StartOf(blocks, i) + offset, bytes)
  {
    hide Join, Overwrite, StartOf;
    BlockIsSlice(blocks, i);
    JoinUpdate(blocks, i, Overwrite(blocks[i], offset, bytes));
    OverwriteWithin(Join(blocks), StartOf(blocks, i), blocks[i], offset, bytes);
  }

  lemma OverwriteWithin(s: seq<Byte>, start: nat, block: seq<Byte>, offset: nat, bytes: seq<Byte>)
    requires start + |block| <= |s| && s[start..start + |block|] == block && offset + |bytes| <= |block|
    ensures Overwrite(s, start, Overwrite(block, offset, bytes)) == Overwrite(s, start + offset, bytes)
  {
    var left, right := Overwrite(s, start, Overwrite(block, offset, bytes)), Overwrite(s, start + offset, bytes);
    forall k | 0 <= k < |s| ensures left[k] == right[k] {
      if start <= k < start + |block| {
        assert s[k] == block[k - start];
      }
    }
  }

  lemma OverwriteEnds(s: seq<Byte>, at: nat, bytes: seq<Byte>, done: nat)
    requires at + |bytes| <= |s| && done <= |bytes|
    ensures done == 0 ==> Overwrite(s, at, bytes[..done]) == s
    ensures done == |bytes| ==> Overwrite(s, at, bytes[..done]) == Overwrite(s, at, bytes)
  {
    if done == |bytes| {
      assert bytes[..done] == bytes;
    }
  }

  /** Two adjacent overwrites are one. */
  lemma OverwriteAdjacent(s: seq<Byte>, at: nat, first: seq<Byte>, second: seq<Byte>)
    requires at + |first| + |second| <= |s|
    ensures Overwrite(Overwrite(s, at, first), at + |first|, second) == Overwrite(s, at, first + second)
  {
    var left, right := Overwrite(Overwrite(s, at, first), at + |first|, second), Overwrite(s, at, first + second);
    forall k | 0 <= k < |s| ensures left[k] == right[k] {
    }
  }

  lemma OverwriteMore(s: seq<Byte>, at: nat, bytes: seq<Byte>, done: nat, count: nat)
    requires at + |bytes| <= |s| && done + count <= |bytes|
    ensures Overwrite(Overwrite(s, at, bytes[..done]), at + done, bytes[done..done + count]) ==
              Overwrite(s, at, bytes[..done + count])
  {
    OverwriteAdjacent(s, at, bytes[..done], bytes[done..done + count]);
    assert bytes[..done] + bytes[done..done + count] == bytes[..done + count];
  }

  /** A part of a block, as a part of the whole. */
  lemma PartIsSlice(blocks: seq<seq<Byte>>, i: nat, offset: nat, count: nat)
    requires i < |blocks| && offset + count <= |blocks[i]|
    ensures StartOf(blocks, i) + offset + count <= |Join(blocks)|
    ensures Join(blocks)[StartOf(blocks, i) + offset..StartOf(blocks, i) + offset + count] ==
              blocks[i][offset..offset + count]
  {
    hide Join, StartOf;
    BlockIsSlice(blocks, i);
    var whole, start := Join(blocks), StartOf(blocks, i);
    assert whole[start..start + |blocks[i]|][offset..offset + count] == whole[start + offset..start + offset + count];
  }

  /** `after` holds `bytes` at `at` and is otherwise `before`; beyond the end of `before` anything may be. */
  predicate Written(before: seq<Byte>, after: seq<Byte>, at: nat, bytes: seq<Byte>) {
    && |before| <= |after| && at <= |before| && at + |bytes| <= |after|
    && after[..at] == before[..at]
    && after[at..at + |bytes|] == bytes
    && forall k :: at + |bytes| <= k < |before| ==> after[k] == before[k]
  }

  lemma WrittenAfterGrowth(before: seq<Byte>, grown: seq<Byte>, at: nat, bytes: seq<Byte>)
    requires before <= grown && at <= |before| && at + |bytes| <= |grown|
    ensures Written(before, Overwrite(grown, at, bytes), at, bytes)
  {
    var after := Overwrite(grown, at, bytes);
    assert after[..at] == before[..at];
    assert after[at..at + |bytes|] == bytes;
  }

  lemma SliceMore(s: seq<Byte>, at: nat, done: nat, count: nat)
    requires at + done + count <= |s|
    ensures s[at..at + done] + s[at + done..at + done + count] == s[at..at + done + count]
  {
  }

  /** A write that continues where the last one ended. */
  lemma WrittenMore(s0: seq<Byte>, s1: seq<Byte>, s2: seq<Byte>, at: nat, first: seq<Byte>, second: seq<Byte>)
    requires Written(s0, s1, at, first) && Written(s1, s2, at + |first|, second)
    ensures Written(s0, s2, at, first + second)
  {
    var both := first + second;
    assert s2[..at] == s2[..at + |first|][..at] == s0[..at];
    forall k | 0 <= k < |both| ensures s2[at..at + |both|][k] == both[k] {
      if k < |first| {
        assert s2[at + k] == s2[..at + |first|][at + k] == s1[at + k] == s1[at..at + |first|][k];
      } else {
        assert s2[at + k] == s2[at + |first|..at + |first| + |second|][k - |first|];
      }
    }
  }

  lemma WrittenByGrowth(before: seq<Byte>, grown: seq<Byte>, at: nat)
    requires before <= grown && at <= |before|
    ensures Written(before, grown, at, [])
  {
  }
}
