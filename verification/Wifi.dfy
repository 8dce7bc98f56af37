/** The TCP reader from TCP_WAIT_ON_LENGTH onward: one call is one non-blocking socket read. */
module Wifi {
  import opened Bytes
  import opened Frames

  datatype TcpState = TcpIdle | WaitOnLength | WaitOnOnlyChunk | WaitOnFirstChunk | WaitCollectBytes

  /** What one socket read brings: nothing yet, or some bytes (none means the peer has gone). */
  datatype SocketRead = WouldBlock | Bytes(data: seq<byte>)

  /** Total frame length as the 16-bit TcpTotalLength holds it. */
  function Total(restLen: nat): nat {
    (restLen + 2) % 0x1_0000
  }

  class WifiReader {
    var state: TcpState
    var restLen: nat         // TcpRestLen
    var totalLength: nat     // TcpTotalLength
    var bufPointer: nat      // TcpReadBufPointer
    const buffer: array<byte>

    ghost var received: seq<byte>
    ghost var returned: seq<seq<byte>>
    /** Bytes at the start of `buffer` that belong to a frame and were not returned yet. */
    ghost var pending: nat
    /** Every read after the first buffer of a long frame was a full one. */
    ghost var fullReads: bool

    ghost predicate Valid()
      reads this, buffer
    {
      && buffer.Length == BUF_SIZE
      && pending <= BUF_SIZE
      && received == Flatten(returned) + buffer[..pending]
      && match state
         case TcpIdle => true
         case WaitOnLength => pending == 0
         case WaitOnOnlyChunk => bufPointer == pending >= 2 && pending + restLen == totalLength <= BUF_SIZE
         case WaitOnFirstChunk => bufPointer == pending == 2 && BUF_SIZE - 2 < restLen < 0x1_0000 - 2
         case WaitCollectBytes => pending == 0 && 1 <= restLen < 0x1_0000
    }

    /** The reader stands at the same place of the frame as the reference parser; with full reads it
        has also returned the same buffers. */
    ghost predicate Agrees(p: Parser)
      requires Valid()
      reads this, buffer
    {
      && Wf(p)
      && (state == WaitOnLength ==> !p.body && p.cur == [])
      && ((state.WaitOnOnlyChunk? && restLen > 0) || state.WaitOnFirstChunk? || state.WaitCollectBytes? ==>
            p.body && p.rest == restLen)
      && (fullReads && state != TcpIdle ==>
            p.out == returned && ((state.WaitOnOnlyChunk? && restLen == 0) || p.cur == buffer[..pending]))
    }

    ghost predicate InSync()
      requires Valid()
      reads this, buffer
    {
      Agrees(FeedAll(Start, received))
    }

    /** How many bytes the call asks the socket for. */
    function ReadLength(): nat
      reads this
    {
      match state
      case TcpIdle => 0
      case WaitOnLength => 2
      case WaitOnOnlyChunk => restLen
      case WaitOnFirstChunk => BUF_SIZE - 2
      case WaitCollectBytes => if restLen < BUF_SIZE then restLen else BUF_SIZE
    }

    /** The length does not arrive as two bytes together, or it is one that wraps the 16-bit total. */
    predicate Mislaid(socket: SocketRead)
      reads this
    {
      && state == WaitOnLength && socket.Bytes? && socket.data != []
      && (|socket.data| != 2 || Length(socket.data[0], socket.data[1]) > 0xFFFF - 2)
    }

    /** A single byte was taken for a length, with whatever stood behind it in the buffer: the reader counts one
        byte more than has arrived. */
    ghost predicate Ahead()
      reads this, buffer
    {
      && Stored() && bufPointer == pending >= 1
      && if state == WaitOnOnlyChunk then pending + 1 + restLen == totalLength <= BUF_SIZE
         else state == WaitOnFirstChunk && pending == 1 && BUF_SIZE - 2 < restLen < 0x1_0000
    }

    /** The 16-bit total has wrapped: the reader asks for more than any buffer holds. */
    ghost predicate Overlong()
      reads this, buffer
    {
      Stored() && bufPointer == pending && state == WaitOnOnlyChunk && pending + restLen >= 0xFFFF
    }

    /** The bytes received are in the buffers returned and at the start of the next. */
    ghost predicate Stored()
      reads this, buffer
    {
      buffer.Length == BUF_SIZE && pending <= BUF_SIZE && received == Flatten(returned) + buffer[..pending]
    }

    ghost predicate Following()
      reads this, buffer
    {
      Valid() && InSync()
    }

    constructor ()
      ensures Valid() && InSync() && state == WaitOnLength && received == [] && returned == [] && fullReads
      ensures fresh(buffer) && forall i :: 0 <= i < BUF_SIZE ==> buffer[i] == 0
    {
      state, restLen, totalLength, bufPointer := WaitOnLength, 0, 0, 0;
      buffer := new byte[BUF_SIZE](_ => 0);
      received, returned, pending, fullReads := [], [], 0, true;
    }

    /** One call of the reader; `count` bytes at the start of the buffer are handed to the caller.  The reader
        loses its place in the frames exactly at a mislaid length; a single byte then makes it hand over a buffer
        with a byte that has not arrived, and a length that wraps makes it leave the buffer. */
    method Read(socket: SocketRead) returns (inside: bool, count: nat)
      requires Following() || Ahead() || Overlong()
      requires socket.Bytes? ==> |socket.data| <= ReadLength()
      modifies this, buffer
      ensures inside <==> !(old(Overlong()) && socket.Bytes? && old(pending) + |socket.data| > BUF_SIZE)
      ensures old(Following()) ==> (Following() <==> !old(Mislaid(socket)))
      ensures old(Following() && Mislaid(socket)) ==>
                if |socket.data| == 1 && Length(socket.data[0], old(buffer[1])) <= 0xFFFF - 2 then Ahead() else Overlong()
      ensures old(state) == WaitOnLength && socket.Bytes? && socket.data != [] ==>
                && count == 0
                && restLen == Length(socket.data[0], if |socket.data| == 2 then socket.data[1] else old(buffer[1]))
                && (0 < Total(restLen) <= BUF_SIZE ==> state == WaitOnOnlyChunk)
      ensures old(state) == WaitOnOnlyChunk && inside && socket.Bytes? && socket.data != [] ==>
                (count > 0 <==> |socket.data| == old(restLen))
      ensures old(Ahead()) && (socket.Bytes? ==> socket.data != []) && count == 0 ==> Ahead()
      ensures old(Ahead()) && count > 0 ==>
                |Flatten(returned)| == |received| + 1 && returned != FeedAll(Start, received).out
      ensures inside && old(Overlong()) && (socket.Bytes? ==> socket.data != []) ==> Overlong() && count == 0
      ensures inside ==> received == old(received) + if socket.Bytes? then socket.data else []
      ensures count <= BUF_SIZE
      ensures returned == if count > 0 then old(returned) + [buffer[..count]] else old(returned)
      ensures old(Following()) && old(state) != WaitOnLength && old(state) != TcpIdle ==>
                var p := FeedAll(Start, old(received));
                old(ReadLength()) == if old(restLen) > 0 then Min(p.rest, BUF_SIZE - old(pending)) else 0
      ensures old(Following()) ==>
                (fullReads <==> old(fullReads) &&
                                (socket.Bytes? && (old(state).WaitOnFirstChunk? || old(state).WaitCollectBytes?) ==>
                                   |socket.data| == old(ReadLength())))
      ensures inside ==> (state == TcpIdle <==> old(state) == TcpIdle || (socket.Bytes? && socket.data == []))
    {
      hide FeedAll, Flatten;
      inside, count := true, 0;
      if state == WaitOnLength || state == WaitCollectBytes {
        bufPointer := 0;
      }
      if socket.Bytes? && state != TcpIdle {
        var data := socket.data;
        if data == [] {
          // the peer has gone: the connection is reset
          fullReads := fullReads && !state.WaitOnFirstChunk? && !state.WaitCollectBytes?;
          state := TcpIdle;
          FeedNone(FeedAll(Start, received));
        } else {
          match state
          case WaitOnLength =>
            ReadLengthBytes(data);
          case WaitOnOnlyChunk =>
            inside, count := ReadOnlyChunk(data);
          case WaitOnFirstChunk =>
            count := ReadFirstChunk(data);
          case WaitCollectBytes =>
            count := ReadMoreBytes(data);
        }
      }
    }

    /** The socket puts `data` into the buffer at the read pointer. */
    method Receive(data: seq<byte>)
      requires buffer.Length == BUF_SIZE && bufPointer + |data| <= BUF_SIZE
      modifies buffer, this`received
      ensures buffer[..bufPointer + |data|] == old(buffer[..bufPointer]) + data
      ensures forall k :: bufPointer + |data| <= k < BUF_SIZE ==> buffer[k] == old(buffer[k])
      ensures received == old(received) + data
    {
      forall k | 0 <= k < |data| {
        buffer[bufPointer + k] := data[k];
      }
      received := received + data;
    }

    method ReadLengthBytes(data: seq<byte>)
      requires Valid() && InSync() && state == WaitOnLength && bufPointer == 0
      requires 1 <= |data| <= 2
      modifies this`state, this`restLen, this`totalLength, this`bufPointer, this`received, this`pending, buffer
      ensures Following() <==> |data| == 2 && Length(data[0], data[1]) <= 0xFFFF - 2
      ensures !Following() ==>
                if |data| == 1 && Length(data[0], old(buffer[1])) <= 0xFFFF - 2 then Ahead() else Overlong()
      ensures restLen == Length(data[0], if |data| == 2 then data[1] else old(buffer[1]))
      ensures Total(restLen) <= BUF_SIZE ==> state == WaitOnOnlyChunk
      ensures state != TcpIdle && received == old(received) + data && returned == old(returned)
    {
      hide FeedAll, Flatten;
      ghost var p := FeedAll(Start, received);
      if |data| == 2 {
        assert data == [data[0], data[1]];
        FeedHeader(p, data[0], data[1]);
      }
      FeedAllWf(p, data);
      FeedAllAppend(Start, received, data);
      assert received == Flatten(returned);
      Receive(data);
      restLen := Length(buffer[0], buffer[1]);
      totalLength := Total(restLen);
      state := if totalLength > BUF_SIZE then WaitOnFirstChunk else WaitOnOnlyChunk;
      bufPointer, pending := bufPointer + |data|, |data|;
      assert buffer[..|data|] == data;
      assert buffer[0] == buffer[..|data|][0];
      assert |data| == 2 ==> buffer[1] == buffer[..2][1];
    }

    method ReadOnlyChunk(data: seq<byte>) returns (inside: bool, count: nat)
      requires Following() || Ahead() || Overlong()
      requires state == WaitOnOnlyChunk && 1 <= |data| <= restLen
      modifies this`state, this`restLen, this`bufPointer, this`received, this`returned, this`pending, buffer
      ensures inside <==> !(old(Overlong()) && old(pending) + |data| > BUF_SIZE)
      ensures old(Following()) ==> Following()
      ensures old(Ahead()) && count == 0 ==> Ahead()
      ensures old(Ahead()) && count > 0 ==>
                |Flatten(returned)| == |received| + 1 && returned != FeedAll(Start, received).out
      ensures inside && old(Overlong()) ==> Overlong() && count == 0
      ensures inside ==> (count > 0 <==> |data| == old(restLen))
      ensures count <= BUF_SIZE && state != TcpIdle
      ensures inside ==> received == old(received) + data
      ensures returned == if count > 0 then old(returned) + [buffer[..count]] else old(returned)
    {
      hide FeedAll, Flatten;
      inside, count := true, 0;
      if bufPointer + |data| > BUF_SIZE {
        return false, 0;
      }
      ghost var p, following := FeedAll(Start, received), Following();
      if following {
        FeedCount(p, data);
        if fullReads {
          FeedBody(p, data);
        }
      }
      FeedAllAppend(Start, received, data);
      ghost var before := buffer[..pending];
      assert received + data == Flatten(returned) + (before + data);
      count := TakeChunk(data);
      if count > 0 {
        FlattenSnoc(old(returned), buffer[..count]);
        assert following ==> buffer[..count] == before + data;
        Overdrawn(received, returned);
      }
    }

    // The single buffer of a short frame, as far as it has come.
    method TakeChunk(data: seq<byte>) returns (count: nat)
      requires buffer.Length == BUF_SIZE && state == WaitOnOnlyChunk && bufPointer == pending && 1 <= |data| <= restLen
      requires pending + |data| <= BUF_SIZE && (restLen == |data| ==> totalLength <= BUF_SIZE)
      modifies this`state, this`restLen, this`bufPointer, this`received, this`returned, this`pending, buffer
      ensures received == old(received) + data && bufPointer == old(bufPointer) + |data|
      ensures buffer[..bufPointer] == old(buffer[..pending]) + data
      ensures if old(restLen) == |data| then
                count == totalLength && returned == old(returned) + [buffer[..count]] && pending == 0 && state == WaitOnLength
              else
                count == 0 && returned == old(returned) && pending == bufPointer && state == old(state) &&
                restLen == old(restLen) - |data|
    {
      Receive(data);
      bufPointer := bufPointer + |data|;
      if restLen == |data| {
        count := totalLength;
        returned, pending := returned + [buffer[..count]], 0;
        state := WaitOnLength;
      } else {
        restLen := restLen - |data|;
        count := 0;
        pending := pending + |data|;
      }
    }

    method ReadFirstChunk(data: seq<byte>) returns (count: nat)
      requires Following() || Ahead()
      requires state == WaitOnFirstChunk && 1 <= |data| <= BUF_SIZE - 2
      modifies this`state, this`restLen, this`received, this`returned, this`pending, this`fullReads, buffer
      ensures old(Following()) ==> Following() && (fullReads <==> old(fullReads) && |data| == BUF_SIZE - 2)
      ensures old(Ahead()) ==> |Flatten(returned)| == |received| + 1 && returned != FeedAll(Start, received).out
      ensures 0 < count <= BUF_SIZE && state != TcpIdle
      ensures received == old(received) + data
      ensures returned == old(returned) + [buffer[..count]]
    {
      hide FeedAll, Flatten;
      ghost var p, following := FeedAll(Start, received), Following();
      if following {
        FeedCount(p, data);
        if fullReads {
          FeedBody(p, data);
        }
      }
      FeedAllAppend(Start, received, data);
      assert received + data == Flatten(returned) + (buffer[..pending] + data);
      Receive(data);
      restLen := restLen - |data|;
      state := WaitCollectBytes;
      count := |data| + 2;
      FlattenSnoc(returned, buffer[..count]);
      returned, pending := returned + [buffer[..count]], 0;
      fullReads := fullReads && |data| == BUF_SIZE - 2;
      Overdrawn(received, returned);
    }

    method ReadMoreBytes(data: seq<byte>) returns (count: nat)
      requires Following() && state == WaitCollectBytes && bufPointer == 0
      requires 1 <= |data| <= ReadLength()
      modifies this`state, this`restLen, this`received, this`returned, this`fullReads, buffer
      ensures Following() && state != TcpIdle && 0 < count <= BUF_SIZE
      ensures received == old(received) + data
      ensures returned == old(returned) + [buffer[..count]]
      ensures fullReads <==> old(fullReads) && |data| == old(ReadLength())
    {
      hide FeedAll, Flatten;
      ghost var p := FeedAll(Start, received);
      FeedCount(p, data);
      if fullReads {
        FeedBody(p, data);
      }
      FeedAllAppend(Start, received, data);
      assert received == Flatten(returned);
      Receive(data);
      fullReads := fullReads && |data| == ReadLength();
      restLen := restLen - |data|;
      if restLen == 0 {
        state := WaitOnLength;
      }
      count := |data|;
      assert buffer[..count] == data;
      FlattenSnoc(returned, data);
      returned := returned + [data];
    }

    /** With full reads this transport returns exactly the buffers that the Bluetooth decoder
        delivers for the same frames. */
    lemma FramesAreReturned(bodies: seq<seq<byte>>)
      requires Valid() && InSync() && fullReads && state != TcpIdle
      requires Bodies(bodies) && received == Stream(bodies)
      requires state == WaitOnOnlyChunk ==> restLen > 0
      ensures returned == ChopAll(bodies) && state == WaitOnLength
    {
      hide FeedAll;
      StreamIsChopped(bodies);
    }
  }

  /** The first frame after the start, of less than 256 bytes, in two reads, the first of a single byte: a buffer
      as long as the frame is handed over before its last byte has arrived. */
  method LoneLengthByte(body: seq<byte>) returns (r: WifiReader)
    requires 1 <= |body| < 256
    ensures r.received == Frame(body)[..|body| + 1] && |r.returned| == 1 && |r.returned[0]| == |body| + 2
    ensures r.returned != FeedAll(Start, r.received).out
  {
    hide FeedAll, WifiReader.InSync, Frame;
    r := new WifiReader();
    FrameOf(body);
    var first, rest := Frame(body)[..1], Frame(body)[1..|body| + 1];
    assert first + rest == Frame(body)[..|body| + 1];
    var inside, count := r.Read(Bytes(first));
    assert r.received == [] + first == first;
    assert r.restLen == Length(first[0], 0) == |body|;
    inside, count := r.Read(Bytes(rest));
    assert r.received == first + rest;
    FlattenSnoc([], r.returned[0]);
  }

  lemma FrameOf(body: seq<byte>)
    requires 1 <= |body| < 256
    ensures |Frame(body)| == |body| + 2 && Frame(body)[0] == |body| && Frame(body)[1] == 0
  {
  }

  /** The length 65534, and 1023 bytes more: the last goes behind the buffer. */
  method LengthWraps() returns (inside: bool)
    ensures !inside
  {
    hide FeedAll, WifiReader.InSync;
    var r := new WifiReader();
    var count;
    inside, count := r.Read(Bytes([0xFE, 0xFF]));
    assert r.received == [] + [0xFE, 0xFF];
    assert Flatten(r.returned) == [];
    inside, count := r.Read(Bytes(seq(BUF_SIZE - 1, _ => 0)));
  }

  /** The parser never delivers more than has arrived. */
  lemma Overdrawn(received: seq<byte>, returned: seq<seq<byte>>)
    ensures |Flatten(returned)| > |received| ==> returned != FeedAll(Start, received).out
  {
    Conservation(received);
  }

  /** A read of the whole body goes to offset 2 of the buffer.  The 16-bit total makes it fit for
      every body length up to 65533 and for no longer one. */
  lemma SingleChunkFits(restLen: nat)
    requires restLen < 0x1_0000
    ensures (Total(restLen) <= BUF_SIZE ==> 2 + restLen <= BUF_SIZE) <==> restLen <= 65533
  {
  }
}
