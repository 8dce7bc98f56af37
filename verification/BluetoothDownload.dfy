/** The parts joined: a download that arrives over Bluetooth in any fragments ends as the file on disk. */
module BluetoothDownload {
  import opened Bytes
  import opened Frames
  import opened DownloadMessages
  import opened Receiver
  import opened Download
  import opened Bluetooth

  // Headers of empty frames are never given back.
  lemma {:induction false} DroppedGrows(p: Parser, s: seq<byte>)
    ensures FeedAll(p, s).dropped >= p.dropped
  {
    if s != [] {
      DroppedGrows(p, s[..|s| - 1]);
    }
  }

  // A prefix of a stream of non-empty frames contains no header of an empty one.
  lemma NothingDropped(bodies: seq<seq<byte>>, s: seq<byte>)
    requires Bodies(bodies) && s <= Stream(bodies)
    ensures FeedAll(Start, s).dropped == 0
  {
    hide FeedAll, Stream, ChopAll;
    var rest := Stream(bodies)[|s|..];
    assert Stream(bodies) == s + rest;
    StreamIsChopped(bodies);
    FeedAllAppend(Start, s, rest);
    DroppedGrows(FeedAll(Start, s), rest);
  }

  // So no read of it completes the header of an empty frame.
  lemma NeverSplits(c: BtChannel, bodies: seq<seq<byte>>, data: seq<byte>)
    requires c.Bounds() && c.Steady() && !c.readFull && Bodies(bodies) && c.consumed + data <= Stream(bodies)
    ensures !c.Splits(data)
  {
    hide FeedAll, Stream;
    if c.status == MsgBufLen && |data| > 1 {
      var p := FeedAll(Start, c.consumed);
      FeedAllAppend(Start, c.consumed, [data[0]]);
      FeedOne(p, data[0]);
      assert c.consumed + [data[0]] <= Stream(bodies);
      NothingDropped(bodies, c.consumed + [data[0]]);
      assert p.cur + [data[0]] == [c.msgBuf[0], data[0]];
    }
  }

  lemma FlattenNext(fragments: seq<seq<byte>>, i: nat)
    requires i < |fragments|
    ensures Flatten(fragments[..i + 1]) == Flatten(fragments[..i]) + fragments[i]
  {
    hide Flatten;
    assert fragments[..i + 1] == fragments[..i] + [fragments[i]];
    FlattenSnoc(fragments[..i], fragments[i]);
  }

  lemma {:induction false} FlattenPrefix(fragments: seq<seq<byte>>, i: nat)
    requires i <= |fragments|
    ensures Flatten(fragments[..i]) <= Flatten(fragments)
    decreases |fragments| - i
  {
    hide Flatten;
    if i == |fragments| {
      assert fragments[..i] == fragments;
    } else {
      FlattenNext(fragments, i);
      FlattenPrefix(fragments, i + 1);
    }
  }

  /** The channel takes the reads one by one and hands over what it decodes.  Reads of at most 1023 bytes never
      run over its buffer. */
  method Pump(fragments: seq<seq<byte>>, ghost bodies: seq<seq<byte>>) returns (overrun: bool, bufs: seq<seq<byte>>)
    requires Bodies(bodies) && Flatten(fragments) == Stream(bodies)
    requires forall i :: 0 <= i < |fragments| ==> |fragments[i]| <= BUF_SIZE
    ensures (forall i :: 0 <= i < |fragments| ==> |fragments[i]| < BUF_SIZE) ==> !overrun
    ensures !overrun ==> bufs == ChopAll(bodies)
  {
    hide FeedAll, Wf, Flatten, Stream, ChopAll;
    var c := new BtChannel();
    overrun, bufs := false, [];
    NoReads(fragments);
    for i := 0 to |fragments|
      invariant fresh(c) && fresh(c.readBuf) && fresh(c.msgBuf) && c.Bounds() && c.Steady()
      invariant !c.readFull && c.status != MsgBufFull
      invariant c.consumed == Flatten(fragments[..i]) && c.delivered == bufs
    {
      FlattenNext(fragments, i);
      FlattenPrefix(fragments, i + 1);
      NeverSplits(c, bodies, fragments[i]);
      var taken;
      taken, overrun := c.HandleSppIn(fragments[i]);
      if overrun {
        return;
      }
      var more := c.Drain();
      bufs := bufs + more;
    }
    assert fragments[..|fragments|] == fragments;
    c.FramesAreDelivered(bodies);
  }

  lemma NoReads(fragments: seq<seq<byte>>)
    ensures Flatten(fragments[..0]) == []
  {
  }

  /** A begin message and continue messages for its handle, cut into any reads: the decoder's buffers, served
      one after the other, leave the payloads in order as the file. */
  method DownloadOverBluetooth(rx: RxBuf, fragments: seq<seq<byte>>, ghost cnt: seq<byte>, ghost path: seq<byte>, ghost size: nat,
                               ghost first: seq<byte>, ghost more: seq<seq<byte>>) returns (overrun: bool, ghost handle: nat)
    requires rx.Valid() && rx.state == RxIdle && FirstFree(rx.files[..]) >= 0
    requires |cnt| == 2 && PathOk(path) && size < 0x1_0000_0000 && |path| + |first| + 9 < 0x1_0000
    requires PathFits(path) && FolderFits(path)
    requires forall i :: 0 <= i < |more| ==> |more[i]| + 5 < 0x1_0000
    requires |Carried(first, more, |more|)| <= size
    requires forall i :: 0 <= i < |more| ==> |Carried(first, more, i)| < size
    requires Flatten(fragments) == Stream(Messages(cnt, path, size, first, FirstFree(rx.files[..]), more))
    requires forall i :: 0 <= i < |fragments| ==> |fragments[i]| <= BUF_SIZE
    modifies rx`disk, rx`folders, rx`state, rx`msgLen, rx`rxBytes, rx`pFile, rx`fileHandle, rx.files
    ensures (forall i :: 0 <= i < |fragments| ==> |fragments[i]| < BUF_SIZE) ==> !overrun
    ensures !overrun ==> rx.Valid() && rx.state == RxIdle && handle == FirstFree(old(rx.files[..]))
    ensures !overrun ==>
              var data := Carried(first, more, |more|);
              rx.disk == old(rx.disk)[path := data] && rx.files[handle].open == (|data| < size)
  {
    hide Flatten, Stream, ChopAll, Messages, FirstFree, FolderFits, Carried;
    handle := FirstFree(rx.files[..]);
    ghost var bodies := Messages(cnt, path, size, first, handle, more);
    var bufs;
    overrun, bufs := Pump(fragments, bodies);
    if !overrun {
      handle := DownloadFile(rx, bufs, cnt, path, size, first, more);
    }
  }
}
