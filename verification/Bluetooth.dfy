/** One Bluetooth channel: the socket buffer READBUF, the message buffer MSGBUF and the mode 1
    decoder that moves bytes from the one to the other. */
module Bluetooth {
  import opened Bytes
  import opened Frames

  datatype MsgStatus = MsgBufEmpty | MsgBufLen | MsgBufBody | MsgBufFull

  class BtChannel {
    // READBUF; `readFull` is Status == READ_BUF_FULL
    const readBuf: array<byte>
    var readIn: nat
    var readOut: nat
    var readFull: bool

    // MSGBUF
    const msgBuf: array<byte>
    var msgIn: nat
    var msgLen: nat
    var remMsgLen: nat
    var status: MsgStatus
    var largeMsg: bool

    /** Bytes taken out of the socket buffer, and buffers handed to the command interpreter. */
    ghost var consumed: seq<byte>
    ghost var delivered: seq<seq<byte>>

    ghost predicate Bounds()
      reads this
    {
      && readBuf.Length == BUF_SIZE && msgBuf.Length == BUF_SIZE && readBuf != msgBuf
      && readOut <= readIn <= BUF_SIZE
      && (if readFull then readOut < readIn else readOut == readIn == 0)
      && msgIn <= BUF_SIZE && remMsgLen < 0x1_0000
      && (status == MsgBufLen ==> msgIn >= 1 && !largeMsg)
      && (status == MsgBufFull ==> msgIn >= 1)
      && (status == MsgBufBody || (largeMsg && status != MsgBufLen) ==> remMsgLen >= 1)
    }

    ghost function Unread(): seq<byte>
      requires Bounds()
      reads this, readBuf
    {
      readBuf[readOut..readIn]
    }

    /** Everything the socket has given this channel. */
    ghost function Received(): seq<byte>
      requires Bounds()
      reads this, readBuf
    {
      consumed + Unread()
    }

    /** The message buffer is what the reference parser says about the bytes taken so far. */
    ghost predicate Agrees(p: Parser)
      requires Bounds()
      reads this, msgBuf
    {
      match status
      case MsgBufEmpty => p.cur == [] && p.out == delivered && p.body == largeMsg && (largeMsg ==> p.rest == remMsgLen)
      case MsgBufLen => !p.body && msgIn == 1 && p.cur == [msgBuf[0]] && p.out == delivered
      case MsgBufBody => p.body && p.rest == remMsgLen &&
        (if msgIn < BUF_SIZE then p.cur == msgBuf[..msgIn] && p.out == delivered
         else p.cur == [] && p.out == delivered + [msgBuf[..]])
      case MsgBufFull => p.cur == [] && p.out == delivered + [msgBuf[..msgIn]] && p.body == largeMsg &&
                         (largeMsg ==> p.rest == remMsgLen)
    }

    ghost predicate InSync()
      requires Bounds()
      reads this, msgBuf
    {
      Wf(FeedAll(Start, consumed)) && Agrees(FeedAll(Start, consumed))
    }

    /** What the next pass copies has room in the message buffer: only the pass that reads a second length
        byte fails to look, and does not always have it. */
    predicate Fits()
      requires Bounds() && readFull
      reads this, readBuf, msgBuf
    {
      status == MsgBufLen ==>
        && msgIn < BUF_SIZE
        && (msgIn == 1 ==>
              Length(msgBuf[0], readBuf[readOut]) <= BUF_SIZE - 2 || readIn - readOut - 1 <= BUF_SIZE - 2)
    }

    /** The header of an empty frame is split between two reads, and more bytes follow it. */
    predicate SplitEmptyFrame()
      requires Bounds() && readFull
      reads this, readBuf, msgBuf
    {
      status == MsgBufLen && msgIn == 1 && Length(msgBuf[0], readBuf[readOut]) == 0 && readIn - readOut > 1
    }

    /** The decoder has gone past such a header and takes every further byte for its second length byte. */
    predicate Swallowing()
      requires Bounds()
      reads this, msgBuf
    {
      readFull && status == MsgBufLen && msgIn >= 2 && Length(msgBuf[0], msgBuf[1]) == 0
    }

    /** Between two calls of a decoder in step. */
    ghost predicate Steady()
      requires Bounds()
      reads this, msgBuf
    {
      InSync() && (readFull ==> status != MsgBufLen)
    }

    /** `data` completes a split header and is one byte too long for the message buffer. */
    predicate Overruns(data: seq<byte>)
      requires Bounds()
      reads this, msgBuf
    {
      if readFull then status == MsgBufLen && msgIn == BUF_SIZE
      else status == MsgBufLen && |data| > BUF_SIZE - 1 && Length(msgBuf[0], data[0]) > BUF_SIZE - 2
    }

    /** `data` completes the header of an empty frame and goes on behind it. */
    predicate Splits(data: seq<byte>)
      requires Bounds()
      reads this, msgBuf
    {
      !readFull && status == MsgBufLen && |data| > 1 && Length(msgBuf[0], data[0]) == 0
    }

    /** Calls that move no byte climb down these steps. */
    ghost function Phase(): nat
      reads this
    {
      if status == MsgBufBody && msgIn == BUF_SIZE then 3
      else if status == MsgBufFull then 2
      else if status == MsgBufEmpty && largeMsg then 1
      else 0
    }

    constructor ()
      ensures Bounds() && InSync() && !readFull && status == MsgBufEmpty && Phase() == 0
      ensures consumed == [] && delivered == [] && fresh(readBuf) && fresh(msgBuf)
    {
      readBuf, msgBuf := new byte[BUF_SIZE], new byte[BUF_SIZE];
      readIn, readOut, readFull := 0, 0, false;
      msgIn, msgLen, remMsgLen, status, largeMsg := 0, 0, 0, MsgBufEmpty, false;
      consumed, delivered := [], [];
    }

    /** memcpy of `n` unread bytes to the end of the message buffer. */
    method Take(n: nat)
      requires readBuf.Length == BUF_SIZE && msgBuf.Length == BUF_SIZE && readBuf != msgBuf
      requires readOut + n <= readIn <= BUF_SIZE && msgIn + n <= BUF_SIZE
      modifies this`readOut, this`msgIn, this`consumed, msgBuf
      ensures readOut == old(readOut) + n && msgIn == old(msgIn) + n
      ensures consumed == old(consumed) + old(readBuf[readOut..readOut + n])
      ensures msgBuf[..msgIn] == old(msgBuf[..msgIn]) + old(readBuf[readOut..readOut + n])
      ensures consumed + readBuf[readOut..readIn] == old(consumed + readBuf[readOut..readIn])
    {
      ghost var was, block, behind := msgBuf[..msgIn], readBuf[readOut..readOut + n], readBuf[readOut + n..readIn];
      assert readBuf[readOut..readIn] == block + behind;
      forall k | 0 <= k < n {
        msgBuf[msgIn + k] := readBuf[readOut + k];
      }
      consumed := consumed + block;
      readOut, msgIn := readOut + n, msgIn + n;
      assert msgBuf[..msgIn] == was + block && readBuf[readOut..readIn] == behind;
    }

    method ClearRead()
      modifies this`readIn, this`readOut, this`readFull
      ensures readIn == 0 && readOut == 0 && !readFull
    {
      readOut, readIn, readFull := 0, 0, false;
    }

    /** Store what is at hand of the message; the same block ends three of the decoder's branches. */
    method StoreRest(avail: nat)
      requires readBuf.Length == BUF_SIZE && msgBuf.Length == BUF_SIZE && readBuf != msgBuf
      requires readOut + avail == readIn <= BUF_SIZE && readFull
      requires msgIn < BUF_SIZE && 1 <= remMsgLen < 0x1_0000 && !largeMsg
      requires remMsgLen <= BUF_SIZE - msgIn || avail <= BUF_SIZE - msgIn
      requires var p := FeedAll(Start, consumed);
               Wf(p) && p.body && p.rest == remMsgLen && p.cur == msgBuf[..msgIn] && p.out == delivered
      modifies this`readIn, this`readOut, this`readFull, this`msgIn, this`remMsgLen, this`status, this`consumed, msgBuf
      ensures Bounds() && InSync() && status != MsgBufLen
      ensures Received() == old(consumed + readBuf[readOut..readIn])
      ensures |Unread()| == if old(remMsgLen) <= avail then avail - old(remMsgLen) else 0
    {
      hide FeedAll, Wf;
      ghost var p := FeedAll(Start, consumed);
      ghost var block := readBuf[readOut..readOut + if remMsgLen <= avail then remMsgLen else avail];
      FeedAllAppend(Start, consumed, block);
      if block != [] {
        FeedBody(p, block);
      } else {
        FeedNone(p);
      }
      FeedAllWf(p, block);
      if remMsgLen <= avail {
        Take(remMsgLen);
        assert msgBuf[..msgIn] == p.cur + block;
        status := MsgBufFull;
        if readIn == readOut {
          ClearRead();
        }
      } else {
        Take(avail);
        assert msgBuf[..msgIn] == p.cur + block;
        status, remMsgLen := MsgBufBody, remMsgLen - avail;
        ClearRead();
        assert msgIn == BUF_SIZE ==> msgBuf[..msgIn] == msgBuf[..];
      }
    }

    /** One pass of the mode 1 decoder.  With `overrun` the C code writes behind the message buffer, and the
        model stops. */
    method DecodeMode1() returns (overrun: bool)
      requires Bounds() && readFull && (InSync() || Swallowing())
      modifies this`readIn, this`readOut, this`readFull, this`msgIn, this`msgLen, this`remMsgLen, this`status,
               this`largeMsg, this`consumed, msgBuf
      ensures overrun <==> !old(Fits())
      ensures !overrun ==> Bounds() && Received() == old(Received())
      ensures !overrun && old(InSync()) ==> (InSync() <==> !old(SplitEmptyFrame()))
      ensures !overrun && InSync() && readFull ==> status != MsgBufLen
      ensures !overrun ==>
              || |Unread()| < |old(Unread())|
              || (|Unread()| == |old(Unread())| && Phase() < old(Phase()))
              || (old(status) == MsgBufFull && status == MsgBufFull && msgIn == old(msgIn) && msgBuf[..] == old(msgBuf[..]))
      ensures !overrun && old(SplitEmptyFrame() || Swallowing()) ==>
              && |Unread()| == |old(Unread())| - 1
              && if Unread() == [] then status == MsgBufEmpty && !readFull && !largeMsg
                 else Swallowing() && msgIn == old(msgIn) + 1
    {
      hide FeedAll;
      overrun := false;
      match status
      case MsgBufEmpty => DecodeEmpty();
      case MsgBufLen => overrun := DecodeLen();
      case MsgBufBody => DecodeBody();
      case MsgBufFull =>
    }

    method DecodeEmpty()
      requires Bounds() && InSync() && readFull && status == MsgBufEmpty
      modifies this`readIn, this`readOut, this`readFull, this`msgIn, this`msgLen, this`remMsgLen, this`status,
               this`consumed, msgBuf
      ensures Bounds() && InSync() && (readFull ==> status != MsgBufLen)
      ensures Received() == old(Received())
      ensures |Unread()| < |old(Unread())| || (|Unread()| == |old(Unread())| && Phase() < old(Phase()))
    {
      hide FeedAll;
      msgIn := 0;
      if largeMsg {
        status := MsgBufBody;
        assert msgBuf[..0] == [];
      } else if 2 <= readIn - readOut {
        DecodeBothLengthBytes(readIn - readOut);
      } else {
        ghost var p := FeedAll(Start, consumed);
        assert readBuf[readOut..readOut + 1] == [readBuf[readOut]];
        FeedAllAppend(Start, consumed, [readBuf[readOut]]);
        FeedOne(p, readBuf[readOut]);
        Take(1);
        remMsgLen := msgBuf[0];
        status := MsgBufLen;
        FeedAllWf(p, [readBuf[readOut - 1]]);
        assert msgBuf[..1] == [msgBuf[0]];
        ClearRead();
      }
    }

    method DecodeBothLengthBytes(avail: nat)
      requires Bounds() && InSync() && readFull && status == MsgBufEmpty && msgIn == 0 && !largeMsg
      requires 2 <= avail == readIn - readOut
      modifies this`readIn, this`readOut, this`readFull, this`msgIn, this`msgLen, this`remMsgLen, this`status,
               this`consumed, msgBuf
      ensures Bounds() && InSync() && (readFull ==> status != MsgBufLen)
      ensures Received() == old(Received())
      ensures |Unread()| < |old(Unread())|
    {
      hide FeedAll;
      ghost var p := FeedAll(Start, consumed);
      ghost var header := [readBuf[readOut], readBuf[readOut + 1]];
      assert readBuf[readOut..readOut + 2] == header;
      FeedAllAppend(Start, consumed, header);
      FeedHeader(p, header[0], header[1]);
      FeedAllWf(p, header);
      Take(2);
      assert msgBuf[..2] == [msgBuf[0], msgBuf[1]] == header;
      remMsgLen := Length(msgBuf[0], msgBuf[1]);
      msgLen := remMsgLen;
      if remMsgLen != 0 {
        StoreRest(avail - 2);
      } else if avail == 2 {
        ClearRead();
      }
    }

    /** The byte taken for the second one of the length. */
    method TakeLengthByte()
      requires Bounds() && readFull && status == MsgBufLen && msgIn < BUF_SIZE && (InSync() || Swallowing())
      modifies this`readOut, this`msgIn, this`msgLen, this`remMsgLen, this`consumed, msgBuf
      ensures readOut == old(readOut) + 1 && msgIn == old(msgIn) + 1
      ensures consumed + readBuf[readOut..readIn] == old(consumed + readBuf[readOut..readIn])
      ensures msgBuf[0] == old(msgBuf[0]) && msgBuf[1] == if msgIn == 2 then old(readBuf[readOut]) else old(msgBuf[1])
      ensures msgLen == remMsgLen == Length(msgBuf[0], msgBuf[1])
      ensures old(InSync()) ==>
                var p := FeedAll(Start, consumed);
                && old(msgIn) == 1 && Wf(p) && p.out == delivered
                && if remMsgLen == 0 then !p.body && p.cur == [] else p.body && p.rest == remMsgLen && p.cur == msgBuf[..msgIn]
    {
      hide FeedAll;
      ghost var p := FeedAll(Start, consumed);
      assert readBuf[readOut..readOut + 1] == [readBuf[readOut]];
      FeedAllAppend(Start, consumed, [readBuf[readOut]]);
      FeedOne(p, readBuf[readOut]);
      Take(1);
      assert msgBuf[..2] == [msgBuf[0], msgBuf[1]] && msgBuf[0] == msgBuf[..msgIn][0] == old(msgBuf[0]);
      assert msgIn > 2 ==> msgBuf[1] == msgBuf[..msgIn][1] == old(msgBuf[1]);
      remMsgLen := Length(msgBuf[0], msgBuf[1]);
      msgLen := remMsgLen;
      FeedAllWf(Start, consumed);
    }

    method DecodeLen() returns (overrun: bool)
      requires Bounds() && readFull && status == MsgBufLen && (InSync() || Swallowing())
      modifies this`readIn, this`readOut, this`readFull, this`msgIn, this`msgLen, this`remMsgLen, this`status,
               this`consumed, msgBuf
      ensures overrun <==> !old(Fits())
      ensures !overrun ==> Bounds() && Received() == old(Received()) && |Unread()| < |old(Unread())|
      ensures !overrun && old(InSync()) ==> (InSync() <==> !old(SplitEmptyFrame()))
      ensures !overrun && InSync() && readFull ==> status != MsgBufLen
      ensures !overrun && old(SplitEmptyFrame() || Swallowing()) ==>
              && |Unread()| == |old(Unread())| - 1
              && if Unread() == [] then status == MsgBufEmpty && !readFull && !largeMsg
                 else Swallowing() && msgIn == old(msgIn) + 1
    {
      hide FeedAll, Wf, Agrees;
      if msgIn == BUF_SIZE {
        return true;
      }
      var avail := readIn - readOut;
      TakeLengthByte();
      avail := avail - 1;
      overrun := false;
      if remMsgLen != 0 {
        if msgIn + (if remMsgLen <= avail then remMsgLen else avail) > BUF_SIZE {
          return true;
        }
        StoreRest(avail);
      } else {
        SkipEmpty(avail);
      }
    }

    /** The frame has no body.  Only with nothing left behind its header does the decoder notice. */
    method SkipEmpty(avail: nat)
      requires readBuf.Length == BUF_SIZE && msgBuf.Length == BUF_SIZE && readBuf != msgBuf
      requires readOut + avail == readIn <= BUF_SIZE && readFull && status == MsgBufLen && !largeMsg
      requires 2 <= msgIn <= BUF_SIZE && remMsgLen == 0 && Length(msgBuf[0], msgBuf[1]) == 0
      modifies this`readIn, this`readOut, this`readFull, this`status
      ensures Bounds() && Received() == old(consumed + readBuf[readOut..readIn]) && |Unread()| == avail
      ensures if avail == 0 then status == MsgBufEmpty && !readFull else Swallowing() && !InSync()
      ensures avail == 0 && (var p := FeedAll(Start, consumed); Wf(p) && p.out == delivered && !p.body && p.cur == []) ==> InSync()
    {
      hide FeedAll, Wf;
      if avail == 0 {
        ClearRead();
        status := MsgBufEmpty;
      }
    }

    /** Copy `n` bytes of a message that goes on after them. */
    method TakeSome(n: nat)
      requires Bounds() && InSync() && status == MsgBufBody && n < remMsgLen
      requires readOut + n <= readIn && msgIn + n <= BUF_SIZE
      modifies this`readOut, this`msgIn, this`remMsgLen, this`consumed, msgBuf
      ensures readOut == old(readOut) + n && msgIn == old(msgIn) + n && remMsgLen == old(remMsgLen) - n
      ensures consumed + readBuf[readOut..readIn] == old(consumed + readBuf[readOut..readIn])
      ensures var p := FeedAll(Start, consumed);
              Wf(p) && p.body && p.rest == remMsgLen &&
              (if msgIn < BUF_SIZE then p.cur == msgBuf[..msgIn] && p.out == delivered
               else p.cur == [] && p.out == delivered + [msgBuf[..]])
    {
      hide FeedAll;
      ghost var p := FeedAll(Start, consumed);
      ghost var block := readBuf[readOut..readOut + n];
      FeedAllAppend(Start, consumed, block);
      if block != [] {
        FeedBody(p, block);
      } else {
        FeedNone(p);
      }
      FeedAllWf(p, block);
      Take(n);
      assert msgBuf[..msgIn] == old(msgBuf[..msgIn]) + block;
      assert old(msgIn) == BUF_SIZE ==> msgBuf[..msgIn] == old(msgBuf[..]);
      assert msgIn == BUF_SIZE ==> msgBuf[..msgIn] == msgBuf[..];
      remMsgLen := remMsgLen - n;
    }

    method DecodeBody()
      requires Bounds() && InSync() && readFull && status == MsgBufBody
      modifies this`readIn, this`readOut, this`readFull, this`msgIn, this`remMsgLen, this`status,
               this`largeMsg, this`consumed, msgBuf
      ensures Bounds() && InSync() && (readFull ==> status != MsgBufLen)
      ensures Received() == old(Received())
      ensures |Unread()| < |old(Unread())| || (|Unread()| == |old(Unread())| && Phase() < old(Phase()))
    {
      hide FeedAll, Wf;
      var avail := readIn - readOut;
      var bufFree := BUF_SIZE - msgIn;
      if bufFree < remMsgLen {
        largeMsg := true;
        if bufFree >= avail {
          TakeSome(avail);
          status := MsgBufBody;
          ClearRead();
        } else {
          TakeSome(bufFree);
          status := MsgBufFull;
          assert msgBuf[..msgIn] == msgBuf[..];
        }
      } else {
        largeMsg := false;
        StoreRest(avail);
      }
    }

    /** The interpreter asks for a buffer; it gets one only when the message buffer is complete. */
    method Read() returns (chunk: seq<byte>)
      requires Bounds() && InSync()
      modifies this`status, this`delivered
      ensures Bounds() && InSync() && status != MsgBufFull
      ensures delivered == if old(status) == MsgBufFull then old(delivered) + [chunk] else old(delivered)
      ensures if old(status) == MsgBufFull then 1 <= |chunk| <= BUF_SIZE && Phase() < old(Phase()) else chunk == []
    {
      hide FeedAll;
      chunk := [];
      if status == MsgBufFull {
        chunk := msgBuf[..msgIn];
        status := MsgBufEmpty;
        delivered := delivered + [chunk];
      }
    }

    /** The socket is readable: take `data`, which is what one read returns, if the buffer is free. */
    method HandleSppIn(data: seq<byte>) returns (taken: bool, overrun: bool)
      requires Bounds() && |data| <= BUF_SIZE && (Steady() || Swallowing())
      modifies this, readBuf, msgBuf
      ensures overrun <==> old(Overruns(data))
      ensures taken == !old(readFull) && delivered == old(delivered)
      ensures !overrun ==> Bounds() && Received() == old(Received()) + if taken then data else []
      ensures !overrun && old(Steady()) ==> (Steady() <==> !old(Splits(data)))
      ensures !overrun && taken && data != [] && old(Phase()) == 0 ==> |Unread()| < |data|
      ensures !overrun && old(Steady()) && old(Splits(data)) ==> Swallowing() && msgIn == 2 && |Unread()| == |data| - 1
      ensures !overrun && old(Swallowing()) ==>
              && |Unread()| == |old(Unread())| - 1
              && if Unread() == [] then status == MsgBufEmpty && !readFull && !largeMsg
                 else Swallowing() && msgIn == old(msgIn) + 1
    {
      hide FeedAll;
      taken, overrun := !readFull, false;
      if readFull {
        overrun := DecodeMode1();
      } else if |data| > 0 {
        forall k | 0 <= k < |data| {
          readBuf[k] := data[k];
        }
        readOut, readIn, readFull := 0, |data|, true;
        assert readBuf[readOut..readIn] == data;
        assert msgBuf[..msgIn] == old(msgBuf[..msgIn]) && msgBuf[..] == old(msgBuf[..]);
        assert old(Received()) == consumed;
        assert InSync();
        overrun := DecodeMode1();
      }
    }

    /** Decoding and reading in turn always empties the socket buffer, although some passes move no
        byte; what has been handed over is then what the parser says of everything received. */
    method Drain() returns (chunks: seq<seq<byte>>)
      requires Bounds() && Steady()
      modifies this, msgBuf
      ensures Bounds() && Steady() && !readFull && status != MsgBufFull
      ensures Received() == old(Received()) == consumed
      ensures delivered == old(delivered) + chunks
    {
      hide FeedAll;
      chunks := [];
      while readFull
        invariant Bounds() && Steady()
        invariant Received() == old(Received()) && delivered == old(delivered) + chunks
        decreases |Unread()|, Phase()
      {
        if status != MsgBufFull {
          var overrun := DecodeMode1();
        } else {
          var chunk := Read();
          chunks := chunks + [chunk];
        }
      }
      if status == MsgBufFull {
        var last := Read();
        chunks := chunks + [last];
      }
    }

    /** A split empty frame that is followed by more bytes in the same read: none of these is ever handed
        over, unless they are so many that the decoder runs over its buffer. */
    method LoseRest(data: seq<byte>) returns (overrun: bool)
      requires Bounds() && Steady() && Splits(data) && |data| <= BUF_SIZE
      modifies this, readBuf, msgBuf
      ensures overrun <==> |data| == BUF_SIZE
      ensures !overrun ==> Bounds() && delivered == old(delivered) && consumed == old(consumed) + data
      ensures !overrun ==> status == MsgBufEmpty && !readFull && !largeMsg
    {
      hide FeedAll, Wf;
      var taken;
      taken, overrun := HandleSppIn(data);
      while readFull && !overrun
        invariant overrun ==> |data| == BUF_SIZE
        invariant delivered == old(delivered)
        invariant !overrun ==> Bounds() && Received() == old(consumed) + data
        invariant !overrun ==> if readFull then Swallowing() && msgIn + |Unread()| == |data| + 1
                               else status == MsgBufEmpty && !largeMsg && |data| < BUF_SIZE
        decreases if overrun then 0 else readIn - readOut + 1
      {
        taken, overrun := HandleSppIn([]);
      }
    }

    /** Bytes of a buffer under construction, or complete and not yet read. */
    ghost function Pending(): seq<byte>
      requires Bounds()
      reads this, msgBuf
    {
      if status == MsgBufEmpty then [] else msgBuf[..msgIn]
    }

    /** Whatever the fragmentation and the timing of the reads: the buffers handed over, the pending
        bytes and the unread bytes are the bytes received, in order, as long as no frame is empty. */
    lemma BytesAreConserved()
      requires Bounds() && InSync()
      requires FeedAll(Start, consumed).dropped == 0
      ensures Flatten(delivered) + Pending() + Unread() == Received()
    {
      hide FeedAll, Flatten;
      Conservation(consumed);
      FlattenSnoc(delivered, msgBuf[..msgIn]);
      FlattenSnoc(delivered, msgBuf[..]);
      assert msgIn == BUF_SIZE ==> msgBuf[..msgIn] == msgBuf[..];
      assert status == MsgBufLen ==> msgBuf[..1] == [msgBuf[0]];
      assert Flatten(delivered) + Pending() == consumed;
    }

    /** For a stream of non-empty frames, once the socket buffer is drained each frame has been
        handed over in full buffers but its last. */
    lemma FramesAreDelivered(bodies: seq<seq<byte>>)
      requires Bounds() && InSync() && !readFull && status != MsgBufFull
      requires Bodies(bodies) && Received() == Stream(bodies)
      ensures delivered == ChopAll(bodies) && status == MsgBufEmpty && !largeMsg
    {
      hide FeedAll;
      assert Received() == consumed;
      StreamIsChopped(bodies);
    }
  }

  /** A channel that has read a single length byte. */
  method HalfHeader(b: byte) returns (c: BtChannel)
    ensures fresh(c) && fresh(c.readBuf) && fresh(c.msgBuf) && c.Bounds() && c.Steady() && !c.readFull
    ensures c.consumed == [b] && c.delivered == [] && c.status == MsgBufLen && c.msgBuf[0] == b
  {
    hide FeedAll, Wf;
    c := new BtChannel();
    var taken, overrun := c.HandleSppIn([b]);
    assert c.Received() == [] + [b] == [b] && c.Unread() == [] && c.consumed == [b];
    FeedHeader(Start, b, 0);
  }

  /** One length byte, then 1024 bytes that begin with the other: the last one goes behind the buffer. */
  method OverrunReached() returns (overrun: bool)
    ensures overrun
  {
    var c := HalfHeader(0);
    var taken;
    taken, overrun := c.HandleSppIn([4] + seq(BUF_SIZE - 1, _ => 0));
  }

  /** The header of an empty frame in two reads, the second with the frame [1, 0, 7] behind it: that frame is
      due and never handed over. */
  method FrameLost() returns (c: BtChannel)
    ensures c.Bounds() && !c.readFull && c.status == MsgBufEmpty && !c.largeMsg
    ensures c.consumed == [0, 0] + Stream([[7]])
    ensures FeedAll(Start, c.consumed).out == ChopAll([[7]]) != c.delivered == []
  {
    hide FeedAll, Wf;
    c := HalfHeader(0);
    var overrun := c.LoseRest([0, 1, 0, 7]);
    LostBytes();
  }

  lemma LostBytes()
    ensures [0] + [0, 1, 0, 7] == [0, 0] + Stream([[7]]) && ChopAll([[7]]) != []
    ensures FeedAll(Start, [0, 0] + Stream([[7]])).out == ChopAll([[7]])
  {
    hide FeedAll, Chop, Stream, ChopAll;
    OneFrame([7]);
    BehindEmpty([7]);
    ChopShort(Frame([7]));
    assert [0] + [0, 1, 0, 7] == [0, 0] + ([1, 0] + [7]);
  }

  lemma OneFrame(body: seq<byte>)
    requires 1 <= |body| < 0x1_0000
    ensures Stream([body]) == Frame(body) && ChopAll([body]) == Chop(Frame(body))
  {
    hide Frame, Chop;
    assert [body][..0] == [];
  }

  // An empty frame in front of another changes nothing of what is due.
  lemma BehindEmpty(body: seq<byte>)
    requires 1 <= |body| < 0x1_0000
    ensures FeedAll(Start, [0, 0] + Frame(body)).out == Chop(Frame(body))
  {
    hide FeedAll, Chop, Frame;
    FeedHeader(Start, 0, 0);
    FeedAllAppend(Start, [0, 0], Frame(body));
    FeedFrame(FeedAll(Start, [0, 0]), body);
  }
}
