/** `ByteArray`: a chain of equal nodes with one cursor, which behaves like one flat buffer. */
module ByteArrays {
  import opened Wrappers
  import opened Blocks

  const SIZE_MAX: nat := 0xFFFF_FFFF_FFFF_FFFF

  datatype Failure = LengthError | OutOfRange

  class Node {
    const data: array<Byte>
    var next: Node?

    constructor (size: nat)
      ensures fresh(data) && data.Length == size && next == null
    {
      data := new Byte[size](_ => 0);
      next := null;
    }
  }

  ghost function ArraysOf(nodes: seq<Node>): set<array<Byte>> {
    set i | 0 <= i < |nodes| :: nodes[i].data
  }

  ghost function Contents(nodes: seq<Node>): (r: seq<seq<Byte>>)
    reads ArraysOf(nodes)
    ensures |r| == |nodes|
    ensures forall i :: 0 <= i < |nodes| ==> r[i] == nodes[i].data[..]
  {
    if nodes == [] then []
    else Contents(nodes[..|nodes| - 1]) + [nodes[|nodes| - 1].data[..]]
  }

  class ByteArray {
    const baseSize: nat
    var position: nat
    var capacity: nat
    var size: nat
    var littleEndian: bool
    var root: Node
    var tail: Node
    var current: Node?
    /** The chain from `root` to `tail`. */
    ghost var nodes: seq<Node>

    ghost predicate Chained()
      reads `root, `tail, `nodes, nodes
    {
      && nodes != [] && root == nodes[0] && tail == nodes[|nodes| - 1] && tail.next == null
      && (forall i :: 0 <= i < |nodes| - 1 ==> nodes[i].next == nodes[i + 1])
      && (forall i :: 0 <= i < |nodes| ==> nodes[i].data.Length == baseSize)
      && (forall i, j :: 0 <= i < j < |nodes| ==> nodes[i] != nodes[j] && nodes[i].data != nodes[j].data)
    }

    ghost predicate Valid()
      reads this, nodes
    {
      && Chained()
      && baseSize > 0
      && position <= size <= capacity == baseSize * |nodes|
      && capacity <= SIZE_MAX
    }

    ghost function Arrays(): set<array<Byte>>
      reads `nodes
    {
      ArraysOf(nodes)
    }

    /** All the bytes the chain can hold, written or not. */
    ghost function Flat(): seq<Byte>
      reads `nodes, Arrays()
    {
      Join(Contents(nodes))
    }

    /** Where node `i` starts in the flat buffer. */
    function NodeStart(i: nat): nat {
      baseSize * i
    }

    lemma NextNode(i: nat)
      ensures NodeStart(i + 1) == NodeStart(i) + baseSize
    {
    }

    lemma {:induction false} FlatLength(n: nat)
      requires Chained() && n <= |nodes|
      ensures |Join(Contents(nodes)[..n])| == NodeStart(n)
      ensures StartOf(Contents(nodes), n) == NodeStart(n)
    {
      if n > 0 {
        FlatLength(n - 1);
        assert Contents(nodes)[..n][..n - 1] == Contents(nodes)[..n - 1];
      }
    }

    /** The flat buffer has one byte for each unit of capacity. */
    lemma FlatIsCapacity()
      requires Valid()
      ensures |Flat()| == capacity
    {
      FlatLength(|nodes|);
      assert Contents(nodes)[..|nodes|] == Contents(nodes);
    }

    constructor (baseSize: nat)
      requires 0 < baseSize <= SIZE_MAX
      ensures Valid() && this.baseSize == baseSize && capacity == baseSize && position == 0 && size == 0
      ensures fresh(nodes) && fresh(Arrays()) && !littleEndian
    {
      this.baseSize := baseSize;
      position, capacity, size, littleEndian := 0, baseSize, 0, false;
      var node := new Node(baseSize);
      root, tail, current := node, node, node;
      nodes := [node];
    }

    /** The node that holds `position`, or null at the end of the chain. */
    method NodeAt(at: nat) returns (node: Node?, offset: nat, ghost i: nat)
      requires Valid() && at <= capacity
      ensures i <= |nodes| && (node == if i < |nodes| then nodes[i] else null)
      ensures Standing(node, i, offset, at)
      ensures Flat() == old(Flat())
    {
      hide Flat, Join, Contents, Arrays;
      node, offset, i := root, at, 0;
      while node != null && offset >= node.data.Length
        invariant 0 <= i <= |nodes| && (node == if i < |nodes| then nodes[i] else null)
        invariant at == NodeStart(i) + offset && Flat() == old(Flat())
        decreases |nodes| - i
      {
        NextNode(i);
        offset := offset - node.data.Length;
        node := node.next;
        i := i + 1;
      }
    }

    /** The number of nodes that hold `bytes`. */
    function NodesFor(bytes: nat): (n: nat)
      requires baseSize > 0
      ensures baseSize * n >= bytes && (n > 0 ==> baseSize * (n - 1) < bytes)
    {
      bytes / baseSize + (if bytes % baseSize != 0 then 1 else 0)
    }

    /** The new nodes would take the capacity past the range of size_t. */
    predicate CannotGrow(position: nat, capacity: nat, extra: nat)
      requires baseSize > 0
    {
      position + extra > capacity && capacity + baseSize * NodesFor(position + extra - capacity) > SIZE_MAX
    }

    /** Growth fails exactly when every capacity that would do is beyond the range. */
    lemma CannotGrowExact(position: nat, capacity: nat, extra: nat)
      requires baseSize > 0
      ensures CannotGrow(position, capacity, extra) <==>
                position + extra > capacity &&
                forall n: nat :: position + extra <= capacity + baseSize * n ==> SIZE_MAX < capacity + baseSize * n
    {
      if position + extra > capacity {
        var least := NodesFor(position + extra - capacity);
        forall n: nat | position + extra <= capacity + baseSize * n ensures baseSize * least <= baseSize * n {
          if n < least {
            Scaled(n, least - 1);
          } else {
            Scaled(least, n);
          }
        }
      }
    }

    /** Room for `extra` more bytes behind the cursor, with the fewest nodes that fit. */
    method AddCapacity(extra: nat) returns (failure: Option<Failure>)
      requires Valid()
      modifies this`tail, this`capacity, this`nodes, tail`next
      ensures Valid()
      ensures failure == (if CannotGrow(position, old(capacity), extra) then Some(LengthError) else None)
      ensures failure.Some? ==> nodes == old(nodes)
      ensures failure.None? ==> position + extra <= capacity
      ensures failure.None? && capacity != old(capacity) ==> capacity - baseSize < position + extra
      ensures old(nodes) <= nodes
      ensures forall i :: |old(nodes)| <= i < |nodes| ==> fresh(nodes[i]) && fresh(nodes[i].data)
      ensures old(Flat()) <= Flat()
    {
      hide Flat, Chained;
      if extra <= capacity - position {
        return None;
      }
      var missing := extra - (capacity - position);
      var count := missing / baseSize + (if missing % baseSize != 0 then 1 else 0);
      assert count == NodesFor(missing);
      QuotientBound(SIZE_MAX - capacity, count);
      if count > (SIZE_MAX - capacity) / baseSize {
        return Some(LengthError);
      }
      CapacityOf(count - 1, 1);
      Grow(count);
      return None;
    }

    /** The loop of addCapacity. */
    method Grow(count: nat)
      requires Chained() && capacity == baseSize * |nodes|
      modifies this`tail, this`capacity, this`nodes, tail`next
      ensures Chained() && capacity == baseSize * |nodes| == old(capacity) + baseSize * count
      ensures old(Flat()) <= Flat()
      ensures old(nodes) <= nodes
      ensures forall i :: |old(nodes)| <= i < |nodes| ==> fresh(nodes[i]) && fresh(nodes[i].data)
    {
      hide Flat;
      ghost var n := |nodes|;
      CapacityOf(n, 0);
      for index := 0 to count
        invariant Chained() && |nodes| == n + index && capacity == baseSize * (n + index)
        invariant old(nodes) <= nodes
        invariant forall i :: n <= i < |nodes| ==> fresh(nodes[i]) && fresh(nodes[i].data)
        invariant tail == old(tail) || fresh(tail)
        invariant old(Flat()) <= Flat()
      {
        CapacityOf(n + index, 1);
        var node := AppendNode();
      }
      CapacityOf(n, count);
    }

    method AppendNode() returns (node: Node)
      requires Chained()
      modifies this`tail, this`capacity, this`nodes, tail`next
      ensures Chained() && nodes == old(nodes) + [node] && capacity == old(capacity) + baseSize
      ensures fresh(node) && fresh(node.data) && tail == node
      ensures old(Flat()) <= Flat()
    {
      TailLast();
      hide Contents, Flat, Chained;
      node := new Node(baseSize);
      tail.next := node;
      tail := node;
      capacity := capacity + baseSize;
      nodes := nodes + [node];
      Linked(node);
      FlatAppended(node);
    }

    twostate lemma FlatAppended(new node: Node)
      requires nodes == old(nodes) + [node] && Contents(old(nodes)) == old(Contents(nodes))
      ensures old(Flat()) <= Flat()
    {
      FlatGrows(old(nodes), nodes);
    }

    lemma TailLast()
      requires Chained()
      ensures nodes != [] && tail == nodes[|nodes| - 1] && forall i :: 0 <= i < |nodes| - 1 ==> nodes[i] != tail
    {
    }

    twostate lemma Linked(new node: Node)
      requires old(Chained()) && nodes == old(nodes) + [node] && root == old(root) && tail == node
      requires fresh(node) && fresh(node.data) && node.next == null && node.data.Length == baseSize
      requires old(tail).next == node
      requires forall i :: 0 <= i < |old(nodes)| - 1 ==> old(nodes)[i].next == old(nodes[i].next)
      ensures Chained()
    {
    }

    lemma {:induction false} FlatGrows(before: seq<Node>, after: seq<Node>)
      requires before <= after
      ensures Join(Contents(before)) <= Join(Contents(after))
      ensures Contents(before) <= Contents(after)
    {
      assert Contents(after)[..|before|] == Contents(before);
      JoinPrefix(Contents(after), |before|);
    }

    lemma Scaled(x: nat, y: nat)
      requires x <= y
      ensures baseSize * x <= baseSize * y
    {
    }

    lemma QuotientBound(room: nat, count: nat)
      requires baseSize > 0
      ensures count > room / baseSize <==> baseSize * count > room
    {
      var q := room / baseSize;
      assert room == baseSize * q + room % baseSize;
      if count > q {
        Scaled(q + 1, count);
        assert baseSize * (q + 1) == baseSize * q + baseSize;
      } else {
        Scaled(count, q);
      }
    }

    lemma CapacityOf(n: nat, count: nat)
      ensures baseSize * (n + count) == baseSize * n + baseSize * count
    {
    }

    /** memcpy into the memory of node `i`, seen from the flat buffer. */
    method CopyIn(data: array<Byte>, ghost i: nat, offset: nat, chunk: seq<Byte>)
      requires Chained() && i < |nodes| && nodes[i].data == data && offset + |chunk| <= baseSize
      modifies data
      ensures NodeStart(i) + offset + |chunk| <= |old(Flat())| &&
              Flat() == Overwrite(old(Flat()), NodeStart(i) + offset, chunk)
    {
      hide Join, NodeStart, Overwrite, StartOf;
      ghost var before := Contents(nodes);
      FlatLength(i);
      JoinOverwrite(before, i, offset, chunk);
      FillIn(data, offset, chunk);
      assert Contents(nodes) == before[i := Overwrite(before[i], offset, chunk)];
    }

    static method FillIn(data: array<Byte>, offset: nat, chunk: seq<Byte>)
      requires offset + |chunk| <= data.Length
      modifies data
      ensures data[..] == Overwrite(old(data[..]), offset, chunk)
    {
      forall k | 0 <= k < |chunk| {
        data[offset + k] := chunk[k];
      }
    }

    /** memcpy out of a node. */
    method CopyOut(node: Node, ghost i: nat, offset: nat, count: nat) returns (chunk: seq<Byte>)
      requires Chained() && i < |nodes| && nodes[i] == node && offset + count <= baseSize
      ensures NodeStart(i) + offset + count <= |Flat()| &&
              chunk == Flat()[NodeStart(i) + offset..NodeStart(i) + offset + count]
      ensures Flat() == old(Flat())
    {
      hide Join, NodeStart;
      FlatLength(i);
      PartIsSlice(Contents(nodes), i, offset, count);
      chunk := node.data[offset..offset + count];
    }

    /** The cursor of a copying loop stands in front of the byte at `at`. */
    ghost predicate Standing(node: Node?, i: nat, offset: nat, at: nat)
      reads `nodes
    {
      && i <= |nodes| && (node == if i < |nodes| then nodes[i] else null)
      && (if node != null then offset < baseSize else offset == 0)
      && at == NodeStart(i) + offset
    }

    lemma NotAtEnd(node: Node?, i: nat, offset: nat, at: nat)
      requires Chained() && Standing(node, i, offset, at) && at < baseSize * |nodes|
      ensures node != null && node.data.Length == baseSize && node.data in Arrays()
      ensures i < |nodes| && nodes[i] == node && offset < baseSize && at == NodeStart(i) + offset
    {
    }

    lemma MoveOn(node: Node, i: nat, offset: nat, at: nat, count: nat)
      requires Chained() && Standing(node, i, offset, at) && i < |nodes| && baseSize > 0
      requires offset + count == baseSize
      ensures Standing(node.next, i + 1, 0, at + count)
    {
      NextNode(i);
    }

    /** One round of the copying loop of write: fill the rest of the node, or less if less is left. */
    method StoreSome(node: Node, offset: nat, bytes: seq<Byte>, ghost i: nat) returns (count: nat)
      requires Chained() && i < |nodes| && nodes[i] == node && offset < baseSize && bytes != []
      modifies node.data
      ensures count == if |bytes| < baseSize - offset then |bytes| else baseSize - offset
      ensures NodeStart(i) + offset + count <= |old(Flat())| &&
              Flat() == Overwrite(old(Flat()), NodeStart(i) + offset, bytes[..count])
    {
      count := if |bytes| < node.data.Length - offset then |bytes| else node.data.Length - offset;
      CopyIn(node.data, i, offset, bytes[..count]);
    }

    /** The copying loop of write: exactly the bytes behind the cursor change. */
    method Store(bytes: seq<Byte>)
      requires Valid() && position + |bytes| <= capacity
      modifies this`position, Arrays()
      ensures Chained() && position == old(position) + |bytes|
      ensures |old(Flat())| == capacity && Flat() == Overwrite(old(Flat()), old(position), bytes)
    {
      hide Join, NodeStart, Overwrite, Chained, Contents, Flat, Arrays, Standing;
      ghost var flat := Flat();
      FlatIsCapacity();
      var node, offset, i := NodeAt(position);
      ghost var start := position;
      var done := 0;
      OverwriteEnds(flat, start, bytes, done);
      while done < |bytes| && node != null
        invariant Chained() && done <= |bytes| && position == start + done
        invariant 0 <= i && 0 <= offset && (done < |bytes| ==> Standing(node, i, offset, position))
        invariant Flat() == Overwrite(flat, start, bytes[..done])
        decreases |bytes| - done
      {
        NotAtEnd(node, i, offset, position);
        var count := StoreSome(node, offset, bytes[done..], i);
        assert bytes[done..][..count] == bytes[done..done + count];
        OverwriteMore(flat, start, bytes, done, count);
        if done + count < |bytes| {
          MoveOn(node, i, offset, position, count);
        }
        done := done + count;
        position := position + count;
        node, offset, i := node.next, 0, i + 1;
      }
      if done < |bytes| {
        NotAtEnd(node, i, offset, position);
      }
      OverwriteEnds(flat, start, bytes, done);
    }

    lemma NodeFacts(i: nat)
      requires Chained() && i < |nodes|
      ensures nodes[i].data.Length == baseSize && nodes[i].data in Arrays()
      ensures nodes[i].next == if i + 1 < |nodes| then nodes[i + 1] else null
    {
    }

    function Max(a: nat, b: nat): nat {
      if a < b then b else a
    }

    /** write.  The bytes behind the cursor change and no others, and the cursor moves past them; on
        failure nothing changes. */
    method Write(bytes: seq<Byte>) returns (failure: Option<Failure>)
      requires Valid()
      modifies this`position, this`size, this`current, this`tail, this`capacity, this`nodes, tail`next, Arrays()
      ensures Valid()
      ensures failure == (if bytes != [] && (old(position) + |bytes| > SIZE_MAX ||
                                             CannotGrow(old(position), old(capacity), |bytes|))
                          then Some(LengthError) else None)
      ensures failure.Some? ==> Flat() == old(Flat()) && position == old(position) && size == old(size)
      ensures failure.None? ==> position == old(position) + |bytes| && size == Max(old(size), position)
      ensures failure.None? ==> Written(old(Flat()), Flat(), old(position), bytes)
      ensures old(nodes) <= nodes
      ensures forall i :: |old(nodes)| <= i < |nodes| ==> fresh(nodes[i]) && fresh(nodes[i].data)
    {
      hide Join, Overwrite, Written, Flat, Chained, Contents, NodeStart, Standing, CannotGrow;
      FlatIsCapacity();
      if bytes == [] {
        WrittenNothing(Flat(), position);
        return None;
      }
      if |bytes| > SIZE_MAX - position {
        return Some(LengthError);
      }
      failure := AddCapacity(|bytes|);
      if failure.Some? {
        return failure;
      }
      ghost var grown := Flat();
      StoreFitting(bytes);
      WrittenAfterGrowth(old(Flat()), grown, old(position), bytes);
    }

    /** Once there is room: the copying, the new size, and the node at the cursor. */
    method StoreFitting(bytes: seq<Byte>)
      requires Valid() && position + |bytes| <= capacity
      modifies this`position, this`size, this`current, Arrays()
      ensures Valid() && position == old(position) + |bytes| && size == Max(old(size), position)
      ensures |old(Flat())| == capacity && Flat() == Overwrite(old(Flat()), old(position), bytes)
    {
      hide Join, Overwrite, Flat, Chained, Contents, NodeStart, Standing;
      Store(bytes);
      size := Max(size, position);
      var node, offset, i := NodeAt(position);
      current := node;
    }

    lemma WrittenNothing(s: seq<Byte>, at: nat)
      requires at <= |s|
      ensures Written(s, s, at, [])
    {
    }

    /** The flat buffer depends on the chain and its bytes alone. */
    twostate lemma FlatKept()
      requires nodes == old(nodes)
      requires forall i :: 0 <= i < |nodes| ==> nodes[i].data[..] == old(nodes[i].data[..])
      ensures Flat() == old(Flat())
    {
      hide Join;
      assert Contents(nodes) == old(Contents(nodes));
    }

    /** setPosition; bytes that were never written may become readable. */
    method SetPosition(at: nat) returns (failure: Option<Failure>)
      requires Valid()
      modifies this`position, this`size, this`current
      ensures Valid()
      ensures failure == (if at > capacity then Some(OutOfRange) else None)
      ensures failure.Some? ==> position == old(position) && size == old(size)
      ensures failure.None? ==> position == at && size == Max(old(size), at)
      ensures Flat() == old(Flat())
    {
      hide Flat, Standing, Join, Contents;
      if at > capacity {
        return Some(OutOfRange);
      }
      position := at;
      size := Max(size, position);
      var node, offset, i := NodeAt(position);
      current := node;
      FlatKept();
      return None;
    }

    /** clear: the first node stays, with its bytes. */
    method Clear()
      requires Valid()
      modifies this`position, this`size, this`current, this`tail, this`capacity, this`nodes, root`next
      ensures Valid() && position == 0 && size == 0 && capacity == baseSize
      ensures nodes == old(nodes)[..1]
      ensures baseSize <= |old(Flat())| && Flat() == old(Flat())[..baseSize]
    {
      FirstBlock(nodes);
      root.next := null;
      tail, current := root, root;
      position, size, capacity := 0, 0, baseSize;
      nodes := nodes[..1];
    }

    lemma FirstBlock(list: seq<Node>)
      requires list != []
      ensures list[0].data.Length <= |Join(Contents(list))|
      ensures Join(Contents(list[..1])) == Join(Contents(list))[..list[0].data.Length]
    {
      hide Join, Contents;
      FlatGrows(list[..1], list);
      assert Contents(list[..1]) == [list[0].data[..]];
      JoinOne(list[0].data[..]);
    }

    /** The copying loop of the two reads. */
    method Load(at: nat, count: nat) returns (bytes: seq<Byte>)
      requires Valid() && at + count <= capacity
      ensures |Flat()| == capacity && bytes == Flat()[at..at + count]
      ensures Flat() == old(Flat())
    {
      hide Join, NodeStart, Chained, Contents, Flat, Arrays, Standing;
      ghost var flat := Flat();
      FlatIsCapacity();
      var node, offset, i := NodeAt(at);
      bytes := [];
      while |bytes| < count && node != null
        invariant |bytes| <= count && Chained() && Flat() == flat
        invariant 0 <= i && 0 <= offset && (|bytes| < count ==> Standing(node, i, offset, at + |bytes|))
        invariant bytes == flat[at..at + |bytes|]
        decreases count - |bytes|
      {
        NotAtEnd(node, i, offset, at + |bytes|);
        var left := count - |bytes|;
        var some := if left < node.data.Length - offset then left else node.data.Length - offset;
        var chunk := CopyOut(node, i, offset, some);
        SliceMore(flat, at, |bytes|, some);
        if some < left {
          MoveOn(node, i, offset, at + |bytes|, some);
        }
        bytes := bytes + chunk;
        node, offset, i := node.next, 0, i + 1;
      }
      if |bytes| < count {
        NotAtEnd(node, i, offset, at + |bytes|);
      }
    }

    /** read: the next bytes, and the cursor moves past them. */
    method Read(count: nat) returns (r: Result<seq<Byte>, Failure>)
      requires Valid()
      modifies this`position, this`current
      ensures Valid() && size == old(size)
      ensures |Flat()| == capacity
      ensures r == if count > size - old(position) then Err(OutOfRange)
                   else Ok(Flat()[old(position)..old(position) + count])
      ensures position == if r.Ok? then old(position) + count else old(position)
      ensures Flat() == old(Flat())
    {
      hide Flat, Chained, Standing, Contents, Join;
      FlatIsCapacity();
      if count == 0 {
        assert Flat()[position..position + count] == [];
        return Ok([]);
      }
      if count > size - position {
        return Err(OutOfRange);
      }
      var bytes := Load(position, count);
      position := position + count;
      var node, offset, i := NodeAt(position);
      current := node;
      FlatKept();
      return Ok(bytes);
    }

    /** read at a given position; the cursor stays. */
    method ReadAt(count: nat, at: nat) returns (r: Result<seq<Byte>, Failure>)
      requires Valid()
      ensures |Flat()| == capacity
      ensures r == if count > 0 && (at > size || count > size - at) then Err(OutOfRange)
                   else if count == 0 then Ok([]) else Ok(Flat()[at..at + count])
    {
      FlatIsCapacity();
      if count == 0 {
        return Ok([]);
      }
      if at > size || count > size - at {
        return Err(OutOfRange);
      }
      var bytes := Load(at, count);
      return Ok(bytes);
    }

    // ----- scatter and gather

    /** The buffers lie end to end in the flat buffer, starting at `at`: buffer `k` is in node `i + k`. */
    ghost predicate Laid(buffers: seq<Iovec>, i: nat, at: nat)
      reads `nodes
    {
      i + |buffers| <= |nodes| && forall k :: 0 <= k < |buffers| ==> LaidAt(buffers, i, at, k)
    }

    ghost predicate LaidAt(buffers: seq<Iovec>, i: nat, at: nat, k: nat)
      requires k < |buffers| && i + k < |nodes|
      reads `nodes
    {
      && buffers[k].data == nodes[i + k].data && buffers[k].offset + buffers[k].length <= baseSize
      && NodeStart(i + k) + buffers[k].offset == at + TotalLength(buffers[..k])
    }

    /** The buffers are exactly the bytes from `at` to `at + total` of the flat buffer. */
    ghost predicate Covers(buffers: seq<Iovec>, at: nat, total: nat)
      reads `nodes
    {
      TotalLength(buffers) == total && exists i :: Laid(buffers, i, at)
    }

    /** The loop shared by the three functions. */
    method Collect(at: nat, length: nat) returns (buffers: seq<Iovec>)
      requires Valid() && at + length <= capacity
      ensures Covers(buffers, at, length)
      ensures Flat() == old(Flat())
    {
      hide Flat, Join, NodeStart, Chained, Standing;
      var node, offset, i := NodeAt(at);
      ghost var first := i;
      buffers := [];
      var left := length;
      while left != 0 && node != null
        invariant Chained() && Flat() == old(Flat()) && 0 <= left <= length && 0 <= offset && 0 <= i
        invariant i == first + |buffers| && (left != 0 ==> Standing(node, i, offset, at + length - left))
        invariant Laid(buffers, first, at) && TotalLength(buffers) == length - left
        decreases left
      {
        NotAtEnd(node, i, offset, at + length - left);
        var count := if left < node.data.Length - offset then left else node.data.Length - offset;
        LaidMore(buffers, first, at, Iovec(node.data, offset, count));
        buffers := buffers + [Iovec(node.data, offset, count)];
        if count < left {
          MoveOn(node, i, offset, at + length - left, count);
        }
        left := left - count;
        node, offset, i := node.next, 0, i + 1;
      }
      if left != 0 {
        NotAtEnd(node, i, offset, at + length - left);
      }
    }

    lemma LaidMore(buffers: seq<Iovec>, i: nat, at: nat, buffer: Iovec)
      requires Laid(buffers, i, at) && i + |buffers| < |nodes| && buffer.data == nodes[i + |buffers|].data
      requires buffer.offset + buffer.length <= baseSize
      requires NodeStart(i + |buffers|) + buffer.offset == at + TotalLength(buffers)
      ensures Laid(buffers + [buffer], i, at)
      ensures TotalLength(buffers + [buffer]) == TotalLength(buffers) + buffer.length
    {
      hide NodeStart, TotalLength;
      var more := buffers + [buffer];
      TotalOfMore(buffers, buffer);
      forall k | 0 <= k < |more| ensures LaidAt(more, i, at, k) {
        if k < |buffers| {
          assert LaidAt(buffers, i, at, k);
          assert more[k] == buffers[k] && more[..k] == buffers[..k];
        } else {
          assert more[..k] == buffers;
        }
      }
    }

    lemma TotalOfMore(buffers: seq<Iovec>, buffer: Iovec)
      ensures TotalLength(buffers + [buffer]) == TotalLength(buffers) + buffer.length
    {
      assert (buffers + [buffer])[..|buffers|] == buffers;
    }

    lemma LengthsGrow(buffers: seq<Iovec>, k: nat)
      requires k < |buffers|
      ensures TotalLength(buffers[..k + 1]) == TotalLength(buffers[..k]) + buffers[k].length
    {
      assert buffers[..k + 1][..k] == buffers[..k];
    }

    lemma NoLength(buffers: seq<Iovec>)
      ensures TotalLength(buffers[..0]) == 0
    {
    }

    lemma LaidFacts(buffers: seq<Iovec>, i: nat, at: nat, k: nat)
      requires Laid(buffers, i, at) && k < |buffers|
      ensures i + k < |nodes| && buffers[k].data == nodes[i + k].data
      ensures buffers[k].offset + buffers[k].length <= baseSize
      ensures NodeStart(i + k) + buffers[k].offset == at + TotalLength(buffers[..k])
    {
      assert LaidAt(buffers, i, at, k);
    }

    /** What a vectored send reads. */
    lemma {:induction false} GatheredIsSlice(buffers: seq<Iovec>, i: nat, at: nat)
      requires Chained() && Laid(buffers, i, at) && at <= |Flat()|
      ensures forall k :: 0 <= k < |buffers| ==> buffers[k].offset + buffers[k].length <= buffers[k].data.Length
      ensures at + TotalLength(buffers) <= |Flat()|
      ensures Gather(buffers) == Flat()[at..at + TotalLength(buffers)]
      decreases |buffers|
    {
      hide Flat, NodeStart;
      if buffers != [] {
        var n := |buffers| - 1;
        var rest, last := buffers[..n], buffers[n];
        assert forall k :: 0 <= k < |buffers| ==> LaidAt(buffers, i, at, k);
        forall k | 0 <= k < n ensures LaidAt(rest, i, at, k) {
          assert LaidAt(buffers, i, at, k);
          assert rest[..k] == buffers[..k];
        }
        assert LaidAt(buffers, i, at, n);
        GatheredIsSlice(rest, i, at);
        NodePart(i + n, last.offset, last.length);
        SliceMore(Flat(), at, TotalLength(rest), last.length);
      }
    }

    lemma NodePart(i: nat, offset: nat, count: nat)
      requires Chained() && i < |nodes| && offset + count <= baseSize
      ensures NodeStart(i) + offset + count <= |Flat()| &&
              nodes[i].data[offset..offset + count] == Flat()[NodeStart(i) + offset..NodeStart(i) + offset + count]
    {
      hide Join, NodeStart;
      FlatLength(i);
      PartIsSlice(Contents(nodes), i, offset, count);
    }

    /** The same for buffers that cover a range. */
    method ScatterCovered(buffers: seq<Iovec>, bytes: seq<Byte>, ghost at: nat, ghost total: nat)
      requires Valid() && Covers(buffers, at, total) && |bytes| <= total && at + total <= capacity
      modifies Arrays()
      ensures Valid() && |old(Flat())| == capacity && Flat() == Overwrite(old(Flat()), at, bytes)
    {
      hide Flat, Overwrite;
      FlatIsCapacity();
      ghost var i :| Laid(buffers, i, at);
      Scatter(buffers, bytes, i, at);
    }

    /** A vectored receive of `bytes`: the kernel fills the buffers in order. */
    method Scatter(buffers: seq<Iovec>, bytes: seq<Byte>, ghost i: nat, ghost at: nat)
      requires Chained() && Laid(buffers, i, at) && |bytes| <= TotalLength(buffers) && at + |bytes| <= |Flat()|
      modifies Arrays()
      ensures Flat() == Overwrite(old(Flat()), at, bytes)
    {
      hide Flat, Join, NodeStart, Overwrite, Arrays, Chained, Laid, TotalLength;
      ghost var flat := Flat();
      var done := 0;
      OverwriteEnds(flat, at, bytes, done);
      NoLength(buffers);
      for k := 0 to |buffers|
        invariant Chained() && Laid(buffers, i, at) && done <= |bytes|
        invariant done == if TotalLength(buffers[..k]) < |bytes| then TotalLength(buffers[..k]) else |bytes|
        invariant Flat() == Overwrite(flat, at, bytes[..done])
      {
        LengthsGrow(buffers, k);
        if done < |bytes| {
          var left := |bytes| - done;
          var count := if left < buffers[k].length then left else buffers[k].length;
          LaidFacts(buffers, i, at, k);
          NodeFacts(i + k);
          CopyIn(buffers[k].data, i + k, buffers[k].offset, bytes[done..done + count]);
          OverwriteMore(flat, at, bytes, done, count);
          done := done + count;
        }
      }
      assert buffers[..|buffers|] == buffers;
      OverwriteEnds(flat, at, bytes, done);
    }

    /** The readable bytes from the cursor, at most `length` of them. */
    method GetReadBuffers(length: nat) returns (buffers: seq<Iovec>, total: nat)
      requires Valid()
      ensures total == (if length < size - position then length else size - position)
      ensures Covers(buffers, position, total)
      ensures Flat() == old(Flat())
    {
      total := if length < size - position then length else size - position;
      buffers := Collect(position, total);
    }

    /** The same from a given position. */
    method GetReadBuffersAt(length: nat, at: nat) returns (buffers: seq<Iovec>, total: nat)
      requires Valid()
      ensures total == if at > size then 0 else if length < size - at then length else size - at
      ensures at <= size ==> Covers(buffers, at, total)
      ensures at > size ==> buffers == []
      ensures Flat() == old(Flat())
    {
      if at > size {
        return [], 0;
      }
      total := if length < size - at then length else size - at;
      buffers := Collect(at, total);
    }

    /** What a send of these buffers finds in them. */
    lemma GatherReadable(buffers: seq<Iovec>, at: nat, total: nat)
      requires Valid() && Covers(buffers, at, total) && at <= capacity
      ensures forall k :: 0 <= k < |buffers| ==> buffers[k].offset + buffers[k].length <= buffers[k].data.Length
      ensures at + total <= |Flat()| && Gather(buffers) == Flat()[at..at + total] && TotalLength(buffers) == total
    {
      hide Flat, Laid;
      FlatIsCapacity();
      var i :| Laid(buffers, i, at);
      GatheredIsSlice(buffers, i, at);
    }

    /** Room behind the cursor for `length` bytes; the chain may grow, the cursor and `current` stay. */
    method GetWriteBuffers(length: nat) returns (buffers: seq<Iovec>, total: nat, failure: Option<Failure>)
      requires Valid()
      modifies this`tail, this`capacity, this`nodes, tail`next
      ensures Valid() && old(nodes) <= nodes && old(Flat()) <= Flat()
      ensures forall i :: |old(nodes)| <= i < |nodes| ==> fresh(nodes[i]) && fresh(nodes[i].data)
      ensures failure == (if length > 0 && CannotGrow(position, old(capacity), length) then Some(LengthError) else None)
      ensures failure.None? ==> total == length && position + total <= capacity && Covers(buffers, position, total)
      ensures failure.Some? ==> nodes == old(nodes) && total == 0 && buffers == []
    {
      hide Flat, Covers, Chained;
      if length == 0 {
        buffers := Collect(position, 0);
        return buffers, 0, None;
      }
      failure := AddCapacity(length);
      if failure.Some? {
        return [], 0, failure;
      }
      buffers := Collect(position, length);
      total := length;
    }
  }

  /** One piece of memory of a vectored transfer. */
  datatype Iovec = Iovec(data: array<Byte>, offset: nat, length: nat)

  function TotalLength(buffers: seq<Iovec>): nat {
    if buffers == [] then 0 else TotalLength(buffers[..|buffers| - 1]) + buffers[|buffers| - 1].length
  }

  /** The bytes of the buffers, in order. */
  ghost function Gather(buffers: seq<Iovec>): seq<Byte>
    requires forall k :: 0 <= k < |buffers| ==> buffers[k].offset + buffers[k].length <= buffers[k].data.Length
    reads set k | 0 <= k < |buffers| :: buffers[k].data
  {
    if buffers == [] then []
    else
      var last := buffers[|buffers| - 1];
      Gather(buffers[..|buffers| - 1]) + last.data[last.offset..last.offset + last.length]
  }

  twostate lemma TailGrown(buffer: ByteArray)
    requires old(buffer.Chained()) && buffer.Chained() && Grown(buffer)
    ensures buffer.tail == old(buffer.tail) || fresh(buffer.tail)
  {
    var n := |buffer.nodes| - 1;
    assert buffer.tail == buffer.nodes[n];
    if n < |old(buffer.nodes)| {
      assert buffer.nodes[n] == old(buffer.nodes)[n];
    }
  }

  /** The chain keeps its nodes; new ones are fresh. */
  twostate predicate Grown(buffer: ByteArray)
    reads buffer
  {
    && old(buffer.nodes) <= buffer.nodes
    && forall i :: |old(buffer.nodes)| <= i < |buffer.nodes| ==> fresh(buffer.nodes[i]) && fresh(buffer.nodes[i].data)
  }
}
