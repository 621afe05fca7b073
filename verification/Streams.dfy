/** `SocketStream` and `Stream` over a `ByteArray`: vectored transfers that may move any part of
    what was asked, and the loops that complete them. */
module Streams {
  import opened Blocks
  import opened ByteArrays

  /** How one call of read or write, or of the loops, ended. */
  datatype Outcome = Moved(count: nat) | Stopped(code: int) | Threw(failure: Failure)

  /** A connected socket.  `answers` are what the kernel returns to the coming send and recv calls:
      a count is cut down to what the call asks for and, when receiving, to what has arrived. */
  class Socket {
    var connected: bool
    ghost var sent: seq<Byte>
    var incoming: seq<Byte>
    var answers: seq<int>

    constructor (incoming: seq<Byte>, answers: seq<int>)
      ensures connected && sent == [] && this.incoming == incoming && this.answers == answers
    {
      connected, sent := true, [];
      this.incoming, this.answers := incoming, answers;
    }

    method NextAnswer(limit: nat) returns (result: int)
      modifies this`answers
      ensures result <= limit
    {
      if answers == [] {
        return -1;
      }
      result := if answers[0] > limit then limit else answers[0];
      answers := answers[1..];
    }

    /** sendmsg. */
    method Send(buffers: seq<Iovec>, available: nat) returns (result: int)
      requires forall k :: 0 <= k < |buffers| ==> buffers[k].offset + buffers[k].length <= buffers[k].data.Length
      requires |Gather(buffers)| == available
      modifies this`answers, this`sent
      ensures result <= available
      ensures sent == old(sent) + if result > 0 then Gather(buffers)[..result] else []
    {
      ghost var bytes := Gather(buffers);
      result := NextAnswer(available);
      if result > 0 {
        sent := sent + bytes[..result];
      }
    }

    /** recvmsg, but for the copy into the buffers: the bytes that have arrived, as far as there is room. */
    method Receive(room: nat) returns (result: int, bytes: seq<Byte>)
      modifies this`answers, this`incoming
      ensures result <= room
      ensures old(incoming) == bytes + incoming && |bytes| == if result > 0 then result else 0
    {
      result := NextAnswer(if room < |incoming| then room else |incoming|);
      bytes := if result > 0 then incoming[..result] else [];
      incoming := incoming[|bytes|..];
    }
  }

  predicate SentFrom(flat: seq<Byte>, at: nat, count: nat, before: seq<Byte>, after: seq<Byte>) {
    at + count <= |flat| && after == before + flat[at..at + count]
  }

  class SocketStream {
    const socket: Socket

    constructor (socket: Socket)
      ensures this.socket == socket
    {
      this.socket := socket;
    }

    /** write(ByteArray): some bytes from the cursor go out, and the cursor moves past them. */
    method Write(buffer: ByteArray, length: nat) returns (outcome: Outcome)
      requires buffer.Valid()
      modifies socket`sent, socket`answers, buffer`position, buffer`size, buffer`current
      ensures buffer.Valid() && buffer.Flat() == old(buffer.Flat()) && buffer.size == old(buffer.size)
      ensures outcome.Moved? ==> 0 < outcome.count <= length
      ensures outcome.Moved? ==>
                SentFrom(old(buffer.Flat()), old(buffer.position), outcome.count, old(socket.sent), socket.sent)
      ensures buffer.position == old(buffer.position) + (if outcome.Moved? then outcome.count else 0)
      ensures !outcome.Moved? ==> socket.sent == old(socket.sent)
      ensures !outcome.Threw?
    {
      hide ByteArray.Flat, ByteArray.Covers, ByteArray.Laid, ByteArray.Chained, SentFrom;
      buffer.FlatIsCapacity();
      if !socket.connected {
        return Stopped(-1);
      }
      if length == 0 {
        return Stopped(0);
      }
      var buffers, available := buffer.GetReadBuffers(length);
      if available == 0 || buffers == [] {
        return Stopped(0);
      }
      ghost var flat, at := buffer.Flat(), buffer.position;
      buffer.GatherReadable(buffers, at, available);
      var result := socket.Send(buffers, available);
      if result <= 0 {
        buffer.FlatKept();
        return Stopped(result);
      }
      SentPart(flat, at, available, result, old(socket.sent), socket.sent);
      var failure := buffer.SetPosition(buffer.position + result);
      buffer.FlatKept();
      return Moved(result);
    }

    /** read(ByteArray): arrived bytes are stored at the cursor, and the cursor moves past them. */
    method Read(buffer: ByteArray, length: nat) returns (outcome: Outcome, ghost bytes: seq<Byte>)
      requires buffer.Valid()
      modifies socket`incoming, socket`answers, buffer`position, buffer`size, buffer`current,
               buffer`tail, buffer`capacity, buffer`nodes, buffer.tail`next, buffer.Arrays()
      ensures buffer.Valid() && Grown(buffer)
      ensures |bytes| == (if outcome.Moved? then outcome.count else 0) <= length
      ensures outcome.Moved? ==> outcome.count > 0
      ensures old(socket.incoming) == bytes + socket.incoming
      ensures Written(old(buffer.Flat()), buffer.Flat(), old(buffer.position), bytes)
      ensures buffer.position == old(buffer.position) + |bytes|
    {
      hide ByteArray.Flat, ByteArray.Covers, ByteArray.Laid, ByteArray.Chained, Written, Overwrite;
      bytes := [];
      buffer.FlatIsCapacity();
      buffer.WrittenNothing(buffer.Flat(), buffer.position);
      if !socket.connected {
        return Stopped(-1), [];
      }
      if length == 0 {
        return Stopped(0), [];
      }
      ghost var before := buffer.Flat();
      var buffers, available, failure := buffer.GetWriteBuffers(length);
      ghost var grown := buffer.Flat();
      WrittenByGrowth(before, grown, buffer.position);
      if failure.Some? {
        return Threw(failure.value), [];
      }
      if available == 0 || buffers == [] {
        return Stopped(0), [];
      }
      label Asked:
      var result, arrived := socket.Receive(available);
      buffer.FlatKept@Asked();
      if result <= 0 {
        return Stopped(result), [];
      }
      buffer.ScatterCovered(buffers, arrived, buffer.position, available);
      WrittenAfterGrowth(before, grown, buffer.position, arrived);
      var bad := buffer.SetPosition(buffer.position + result);
      return Moved(result), arrived;
    }

    /** writeFixSize: whatever the kernel accepts at a time, the bytes go out in order and once; the
        call is complete exactly when all of them did. */
    method WriteFixSize(buffer: ByteArray, length: nat) returns (outcome: Outcome, ghost moved: nat)
      requires buffer.Valid()
      modifies socket`sent, socket`answers, buffer`position, buffer`size, buffer`current
      ensures buffer.Valid() && buffer.Flat() == old(buffer.Flat()) && buffer.size == old(buffer.size)
      ensures moved <= length && buffer.position == old(buffer.position) + moved
      ensures SentFrom(old(buffer.Flat()), old(buffer.position), moved, old(socket.sent), socket.sent)
      ensures outcome == Moved(length) <==> moved == length
      ensures outcome != Moved(length) ==> outcome.Stopped?
    {
      hide ByteArray.Flat, ByteArray.Chained, SentFrom;
      moved := 0;
      ghost var flat, at, before := buffer.Flat(), buffer.position, socket.sent;
      buffer.FlatIsCapacity();
      SentNothing(flat, at, before);
      var offset := 0;
      while offset < length
        invariant buffer.Valid() && buffer.Flat() == flat && buffer.size == old(buffer.size)
        invariant moved == offset <= length && buffer.position == at + offset
        invariant SentFrom(flat, at, moved, before, socket.sent)
        decreases length - offset
      {
        ghost var earlier := socket.sent;
        var result := Write(buffer, length - offset);
        if !result.Moved? {
          return result, moved;
        }
        SentMore(flat, at, offset, result.count, before, earlier, socket.sent);
        offset := offset + result.count;
        moved := offset;
      }
      return Moved(length), moved;
    }

    lemma SentPart(flat: seq<Byte>, at: nat, available: nat, count: nat, before: seq<Byte>, after: seq<Byte>)
      requires at + available <= |flat| && count <= available
      requires after == before + flat[at..at + available][..count]
      ensures SentFrom(flat, at, count, before, after)
    {
      assert flat[at..at + available][..count] == flat[at..at + count];
    }

    lemma SentNothing(flat: seq<Byte>, at: nat, sent: seq<Byte>)
      requires at <= |flat|
      ensures SentFrom(flat, at, 0, sent, sent)
    {
    }

    lemma SentMore(flat: seq<Byte>, at: nat, done: nat, count: nat, s0: seq<Byte>, s1: seq<Byte>, s2: seq<Byte>)
      requires SentFrom(flat, at, done, s0, s1) && SentFrom(flat, at + done, count, s1, s2)
      ensures SentFrom(flat, at, done + count, s0, s2)
    {
      SliceMore(flat, at, done, count);
      assert s2 == s0 + (flat[at..at + done] + flat[at + done..at + done + count]);
    }

    /** readFixSize: whatever arrives at a time, the bytes are stored in order. */
    method ReadFixSize(buffer: ByteArray, length: nat) returns (outcome: Outcome, ghost bytes: seq<Byte>)
      requires buffer.Valid()
      modifies socket`incoming, socket`answers, buffer`position, buffer`size, buffer`current,
               buffer`tail, buffer`capacity, buffer`nodes, buffer.tail`next, buffer.Arrays()
      ensures buffer.Valid() && Grown(buffer)
      ensures |bytes| <= length && buffer.position == old(buffer.position) + |bytes|
      ensures old(socket.incoming) == bytes + socket.incoming
      ensures Written(old(buffer.Flat()), buffer.Flat(), old(buffer.position), bytes)
      ensures outcome == Moved(length) <==> |bytes| == length
    {
      hide ByteArray.Flat, ByteArray.Chained, Written;
      bytes := [];
      ghost var flat, at := buffer.Flat(), buffer.position;
      buffer.FlatIsCapacity();
      buffer.WrittenNothing(flat, at);
      var offset := 0;
      while offset < length
        invariant buffer.Valid() && Grown(buffer) && (buffer.tail == old(buffer.tail) || fresh(buffer.tail))
        invariant |bytes| == offset <= length && buffer.position == at + offset
        invariant old(socket.incoming) == bytes + socket.incoming
        invariant Written(flat, buffer.Flat(), at, bytes)
        decreases length - offset
      {
        ghost var earlier := buffer.Flat();
        var result, some := Read(buffer, length - offset);
        WrittenMore(flat, earlier, buffer.Flat(), at, bytes, some);
        bytes := bytes + some;
        TailGrown(buffer);
        if !result.Moved? {
          return result, bytes;
        }
        offset := offset + result.count;
      }
      return Moved(length), bytes;
    }
  }

  /** Scatter and gather end to end.  The network delivers what was sent, in order: of the stream
      after what was already received, the receiver took `bytes` and `rest` is still to come.  When
      both loops report all `n` bytes, the receiver holds the sender's bytes, whatever the kernels did
      at each call and whatever the two node sizes are. */
  lemma TransferCopies(sender: seq<Byte>, from: nat, sent: seq<Byte>, sentAfter: seq<Byte>, later: seq<Byte>,
                       receiver: seq<Byte>, receiverAfter: seq<Byte>, to: nat, bytes: seq<Byte>, rest: seq<Byte>,
                       n: nat)
    requires SentFrom(sender, from, n, sent, sentAfter)
    requires sentAfter + later == sent + (bytes + rest)
    requires |bytes| == n && Written(receiver, receiverAfter, to, bytes)
    ensures to + n <= |receiverAfter| && receiverAfter[to..to + n] == sender[from..from + n]
    ensures receiverAfter[..to] == receiver[..to]
    ensures later == rest
  {
    assert sent + (sender[from..from + n] + later) == sent + (bytes + rest);
    assert sender[from..from + n] + later == bytes + rest by {
      assert (sent + (sender[from..from + n] + later))[|sent|..] == sender[from..from + n] + later;
      assert (sent + (bytes + rest))[|sent|..] == bytes + rest;
    }
    assert (bytes + rest)[..n] == bytes;
    assert (sender[from..from + n] + later)[..n] == sender[from..from + n];
    assert (bytes + rest)[n..] == rest;
    assert (sender[from..from + n] + later)[n..] == later;
  }
}
