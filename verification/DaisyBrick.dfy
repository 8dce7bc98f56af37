/** The daisy-chain state of one brick, changed in place by the command and report handlers. */
module DaisyBrick {
  import opened Octets
  import opened DaisyFlags
  import opened DaisyPackets

  class Daisy {
    const masterCookies: array<octet>   // cDaisyMasterCookieArray
    const busyFlags: array<octet>       // DaisyBusyFlags
    const dataOut: array<octet>         // DataOut
    const rxBuf: array<octet>           // RxBuf[USBDEV].Buf
    var ownLayer: int                  // cDaisyOwnLayer

    ghost predicate Valid()
      reads this
    {
      && masterCookies.Length == FLAGS && busyFlags.Length == FLAGS && dataOut.Length == EP_SIZE && rxBuf.Length == 1024
      && masterCookies != busyFlags && masterCookies != dataOut && masterCookies != rxBuf
      && busyFlags != dataOut && busyFlags != rxBuf && dataOut != rxBuf
    }

    constructor ()
      ensures Valid() && ownLayer == 0
      ensures forall s :: 0 <= s < FLAGS ==> masterCookies[s] == 0 && busyFlags[s] == 0
    {
      masterCookies, busyFlags := new octet[FLAGS](_ => 0), new octet[FLAGS](_ => 0);
      dataOut, rxBuf := new octet[EP_SIZE](_ => 0), new octet[1024](_ => 0);
      ownLayer := 0;
    }

    /** One port: if it is named, its next cookie, marked busy, goes out and into the master's own
        table; otherwise a zero goes out. */
    method SetupCookie(named: bool, largePointer: nat, layer: nat, storePointer: nat)
      requires Valid() && largePointer < FLAGS && storePointer < EP_SIZE && layer < LAYERS
      modifies masterCookies, busyFlags, dataOut
      ensures var next := NextCookie(old(masterCookies[largePointer]));
              var x := if named then CookieByte(next, LayerBits(layer)) else 0;
              && masterCookies[..] == (if named then old(masterCookies[..])[largePointer := next] else old(masterCookies[..]))
              && busyFlags[..] == (if named then old(busyFlags[..])[largePointer := x] else old(busyFlags[..]))
              && dataOut[..] == old(dataOut[..])[storePointer := x]
    {
      hide CookieByte, NextCookie, LayerBits;
      if named {
        masterCookies[largePointer] := NextCookie(masterCookies[largePointer]);
        var magicCookie := CookieByte(masterCookies[largePointer], LayerBits(layer));
        dataOut[storePointer] := magicCookie;
        busyFlags[largePointer] := magicCookie;
      } else {
        dataOut[storePointer] := 0;
      }
    }

    /** How far a command for the ports of `field` has got after its first `i` ports. */
    ghost predicate Partly(master: seq<octet>, flags: seq<octet>, out: seq<octet>, storeFrom: nat, layer: nat, field: octet, i: nat)
      requires Valid() && |master| == |flags| == FLAGS && |out| == EP_SIZE
      requires storeFrom + PORTS <= EP_SIZE && layer < LAYERS && i <= PORTS
      reads this, masterCookies, busyFlags, dataOut
    {
      var cookies := NewCookies(master, layer, field);
      var n := 4 * layer + i;
      && masterCookies[..] == Issued(master, layer, field)[..n] + master[n..]
      && busyFlags[..] == Marked(flags, layer, field, cookies)[..n] + flags[n..]
      && dataOut[..] == (out[..storeFrom] + cookies + out[storeFrom + PORTS..])[..storeFrom + i] + out[storeFrom + i..]
    }

    method SetupPort(ghost master: seq<octet>, ghost flags: seq<octet>, ghost out: seq<octet>,
                     storeFrom: nat, layer: nat, field: octet, i: nat, bit: octet)
      requires Valid() && |master| == |flags| == FLAGS && |out| == EP_SIZE
      requires storeFrom + PORTS <= EP_SIZE && layer < LAYERS && i < PORTS && bit == PortBit(i)
      requires Partly(master, flags, out, storeFrom, layer, field, i)
      modifies masterCookies, busyFlags, dataOut
      ensures Partly(master, flags, out, storeFrom, layer, field, i + 1)
    {
      hide CookieByte, NextCookie, Test, PortBit, LayerBits, Issued, Marked, NewCookies;
      ghost var cookies := NewCookies(master, layer, field);
      ghost var placed := out[..storeFrom] + cookies + out[storeFrom + PORTS..];
      var largePointer := i + layer * 4;
      PortEntry(master, flags, layer, field, i);
      Splice(Issued(master, layer, field), master, largePointer);
      Splice(Marked(flags, layer, field, cookies), flags, largePointer);
      Splice(placed, out, storeFrom + i);
      SetupCookie(Test(field, bit), largePointer, layer, storeFrom + i);
    }

    // cDaisySetupMagicCookies
    method SetupMagicCookies(storeFrom: nat, layer: nat, portField: octet)
      requires Valid() && storeFrom + PORTS <= EP_SIZE && layer < LAYERS
      modifies masterCookies, busyFlags, dataOut
      ensures masterCookies[..] == Issued(old(masterCookies[..]), layer, portField)
      ensures var cookies := NewCookies(old(masterCookies[..]), layer, portField);
              && busyFlags[..] == Marked(old(busyFlags[..]), layer, portField, cookies)
              && dataOut[..] == old(dataOut[..storeFrom]) + cookies + old(dataOut[storeFrom + PORTS..])
    {
      hide CookieByte, NextCookie, Test, NextBit, PortBit, LayerBits, Issued, Marked, NewCookies;
      ghost var master, flags, out := masterCookies[..], busyFlags[..], dataOut[..];
      OtherRows(master, flags, layer, portField);
      var bitFieldPointer: octet := 1;
      FirstBit();
      var i := 0;
      while i < PORTS
        invariant 0 <= i <= PORTS
        invariant i < PORTS ==> bitFieldPointer == PortBit(i)
        invariant Partly(master, flags, out, storeFrom, layer, portField, i)
      {
        SetupPort(master, flags, out, storeFrom, layer, portField, i, bitFieldPointer);
        PortBits(i);
        bitFieldPointer := NextBit(bitFieldPointer);
        i := i + 1;
      }
    }

    // cDaisySetBusyFlags
    method SetBusyFlags(layer: nat, port: nat, magicCookie: octet)
      requires Valid() && layer < LAYERS && port < PORTS
      modifies busyFlags
      ensures busyFlags[..] == old(busyFlags[..])[layer * 4 + port := magicCookie]
    {
      busyFlags[layer * 4 + port] := magicCookie;
    }

    // The packing loop of cDaisyPushUpStream
    method RefreshBusyFlags(motorFlags: octet)
      requires Valid() && 0 <= ownLayer < LAYERS
      modifies busyFlags
      ensures busyFlags[..] == Refresh(old(busyFlags[..]), ownLayer, motorFlags)
    {
      hide SetBusy, ClearBusy, Test, NextBit, PortBit;
      var startIndex := 4 * ownLayer;
      var p: octet := 1;
      FirstBit();
      ghost var flags := busyFlags[..];
      for j := startIndex to startIndex + 4
        invariant j < startIndex + 4 ==> p == PortBit(j - startIndex)
        invariant forall k :: 0 <= k < FLAGS ==>
                    busyFlags[k] == if k < j then Refresh(flags, ownLayer, motorFlags)[k] else flags[k]
      {
        assert j / 4 == ownLayer && j % 4 == j - startIndex;
        if Test(motorFlags, p) {
          busyFlags[j] := SetBusy(busyFlags[j]);
        } else {
          busyFlags[j] := ClearBusy(busyFlags[j]);
        }
        PortBits(j - startIndex);
        p := NextBit(p);
      }
      assert busyFlags[..] == Refresh(flags, ownLayer, motorFlags);
    }

    // The busy loop of the DAISY_CHAIN_UPSTREAM case of cDaisyPollFromDownStream
    method MergeBusyFlags(report: seq<octet>)
      requires Valid() && |report| == FLAGS
      modifies busyFlags
      ensures busyFlags[..] == Merge(old(busyFlags[..]), report)
    {
      hide NotOlder, Busy, ClearBusy;
      ghost var flags := busyFlags[..];
      var l := 0;
      while l < FLAGS
        invariant 0 <= l <= FLAGS
        invariant forall k :: 0 <= k < FLAGS ==> busyFlags[k] == if k < l then Merge(flags, report)[k] else flags[k]
      {
        if NotOlder(report[l], busyFlags[l]) {
          if !Busy(report[l]) {
            busyFlags[l] := ClearBusy(busyFlags[l]);
          }
        }
        l := l + 1;
      }
      assert busyFlags[..] == Merge(flags, report);
    }

    /** memcpy into the outgoing packet. */
    method Put(pos: nat, data: seq<octet>)
      requires Valid() && pos + |data| <= EP_SIZE
      modifies dataOut
      ensures dataOut[..] == old(dataOut[..pos]) + data + old(dataOut[pos + |data|..])
    {
      forall k | 0 <= k < |data| {
        dataOut[pos + k] := data[k];
      }
    }

    /** The header and the payload of a new packet. */
    method Begin(head: seq<octet>, payload: seq<octet>)
      requires Valid() && |head| + |payload| <= EP_SIZE
      modifies dataOut
      ensures dataOut[..|head| + |payload|] == head + payload
    {
      Put(0, head);
      Put(|head|, payload);
    }

    // cDaisyMotorDownStream, connected
    method MotorDownStream(payload: seq<octet>, layer: nat, portField: octet)
      requires Valid() && 1 <= layer < LAYERS && 11 + |payload| <= EP_SIZE
      modifies masterCookies, busyFlags, dataOut
      ensures masterCookies[..] == Issued(old(masterCookies[..]), layer, portField)
      ensures var cookies := NewCookies(old(masterCookies[..]), layer, portField);
              && busyFlags[..] == Marked(old(busyFlags[..]), layer, portField, cookies)
              && Packet(payload + cookies, layer, true) <= dataOut[..]
    {
      hide Issued, Marked, NewCookies, Byte, Size, Packet;
      ghost var cookies := NewCookies(masterCookies[..], layer, portField);
      var head: seq<octet>;
      if layer > 1 {
        head := [Byte(|payload| + 5 + 4), 0, 0, 0, DAISY_COMMAND_NO_REPLY, DAISY_CHAIN_DOWNSTREAM_WITH_BUSY, Byte(layer - 1)];
      } else {
        head := [Byte(|payload| + 3 + 4), 0, 0, 0, DIR_CMD_NO_REPLY_WITH_BUSY];
      }
      BusyPacket(payload, cookies, layer);
      Begin(head, payload);
      SetupMagicCookies(|head| + |payload|, layer, portField);
      assert dataOut[..|head| + |payload| + 4] == head + payload + cookies;
    }

    // cDaisyDownStreamCmd, connected
    method DownStreamCmd(payload: seq<octet>, layer: nat)
      requires Valid() && 1 <= layer <= 128 && 7 + |payload| <= EP_SIZE
      modifies dataOut
      ensures Packet(payload, layer, false) <= dataOut[..]
    {
      hide Byte, Size;
      if layer > 1 {
        var len := |payload| + 5;
        SmallSize(len);
        Put(0, [Byte(len), 0, 0, 0, DAISY_COMMAND_NO_REPLY, DAISY_CHAIN_DOWNSTREAM, Byte(layer - 1)]);
        Put(7, payload);
      } else {
        var len := |payload| + 3;
        SmallSize(len);
        Put(0, [Byte(len), 0, 0, 0, DIRECT_COMMAND_NO_REPLY]);
        Put(5, payload);
      }
    }

    /** The received message. */
    ghost predicate Holds(m: seq<octet>)
      requires Valid()
      reads this, rxBuf
    {
      Message(m) && |m| <= EP_SIZE && m <= rxBuf[..]
    }

    method SendLast(ghost m: seq<octet>)
      requires Valid() && Holds(m) && IsDaisy(m) && Num(m[6]) == 1
      modifies rxBuf, dataOut
      ensures Hop(m) <= dataOut[..]
    {
      hide Byte, Num, Minus1;
      assert rxBuf[0] == m[0] && rxBuf[1] == m[1] && rxBuf[5] == m[5];
      assert m == rxBuf[..|m|];
      var cmdSize := Num(rxBuf[0]) + 256 * Num(rxBuf[1]);
      rxBuf[4] := if rxBuf[5] == DAISY_CHAIN_DOWNSTREAM then DIRECT_COMMAND_NO_REPLY else DIR_CMD_NO_REPLY_WITH_BUSY;
      cmdSize := cmdSize - 2;
      rxBuf[0], rxBuf[1] := Byte(cmdSize % 256), Byte(cmdSize / 256);
      Put(0, rxBuf[..5]);
      Put(5, rxBuf[7..7 + cmdSize - 3]);
      assert rxBuf[7..cmdSize + 4] == m[7..];
      assert rxBuf[..5] == Size(cmdSize) + m[2..4] + [rxBuf[4]];
    }

    method SendFurther(ghost m: seq<octet>)
      requires Valid() && Holds(m) && IsDaisy(m) && Num(m[6]) != 1
      modifies rxBuf, dataOut
      ensures Hop(m) <= dataOut[..]
    {
      hide Byte, Num, Minus1;
      assert rxBuf[0] == m[0] && rxBuf[1] == m[1] && rxBuf[6] == m[6];
      assert m == rxBuf[..|m|];
      var cmdSize := Num(rxBuf[0]) + 256 * Num(rxBuf[1]);
      rxBuf[6] := Minus1(rxBuf[6]);
      Put(0, rxBuf[..cmdSize + 2]);
      assert rxBuf[..cmdSize + 2] == Hop(m);
    }

    /** The tail both DAISY_CHAIN_DOWNSTREAM cases of cDaisyCmd share: with one hop to go the command
        becomes a plain one, otherwise the layer is counted down. */
    method SendOn(ghost m: seq<octet>)
      requires Valid() && Holds(m) && IsDaisy(m)
      modifies rxBuf, dataOut
      ensures Hop(m) <= dataOut[..]
    {
      hide Byte, Num, Minus1, Hop;
      assert rxBuf[6] == m[6];
      if Num(rxBuf[6]) == 1 {
        SendLast(m);
      } else {
        SendFurther(m);
      }
    }

    // cDaisyCmd, case DAISY_CHAIN_DOWNSTREAM
    method ChainDownstream(ghost m: seq<octet>)
      requires Valid() && Holds(m) && IsDaisy(m) && m[5] == DAISY_CHAIN_DOWNSTREAM
      modifies rxBuf, dataOut
      ensures Hop(m) <= dataOut[..]
    {
      SendOn(m);
    }

    // cDaisyCmd, case DAISY_CHAIN_DOWNSTREAM_WITH_BUSY
    method ChainDownstreamWithBusy(ghost m: seq<octet>)
      requires Valid() && Holds(m) && IsDaisy(m) && m[5] == DAISY_CHAIN_DOWNSTREAM_WITH_BUSY && |m| >= 11
      modifies this`ownLayer, busyFlags, rxBuf, dataOut
      ensures busyFlags[..] == StoreRelayed(old(busyFlags[..]), Cookies(m))
      ensures ownLayer == (OrLayers(Cookies(m)) as int - Num(m[6])) % 256
      ensures Hop(m) <= dataOut[..]
    {
      hide Byte, Num, Minus1, LayerOf, StoreRelayed, Hop;
      var cmdSize := Num(rxBuf[0]) + 256 * Num(rxBuf[1]);
      assert rxBuf[0] == m[0] && rxBuf[1] == m[1];
      ghost var flags, cookies := busyFlags[..], Cookies(m);
      var layerByte: octet := 0;
      var portIndex := 0;
      var commandPointer := 3;
      while commandPointer >= 0
        invariant -1 <= commandPointer <= 3 && portIndex == 3 - commandPointer
        invariant Holds(m) && layerByte == OrFirst(cookies, portIndex)
        invariant busyFlags[..] == StoreFirst(flags, cookies, portIndex)
      {
        var thisMagicCookie := rxBuf[5 + cmdSize - commandPointer - 4];
        assert thisMagicCookie == m[|m| - 4 + portIndex] == cookies[portIndex];
        layerByte := layerByte | LayerOf(thisMagicCookie);
        LayerRange(thisMagicCookie);
        SetBusyFlags(LayerOf(thisMagicCookie) as nat, portIndex, thisMagicCookie);
        portIndex := portIndex + 1;
        commandPointer := commandPointer - 1;
      }
      OrAll(cookies);
      StoreAll(flags, cookies);
      ownLayer := (layerByte as int - Num(rxBuf[6])) % 256;
      SendOn(m);
    }

    // cComUpdate, case DIR_CMD_NO_REPLY_WITH_BUSY
    method BusyCommand(ghost m: seq<octet>)
      requires Valid() && Holds(m) && |m| >= 9
      modifies this`ownLayer, busyFlags, rxBuf
      ensures ownLayer == OrLayers(Cookies(m)) as int < LAYERS
      ensures busyFlags[..] == StoreOwn(old(busyFlags[..]), ownLayer, Cookies(m))
      ensures rxBuf[..|m|] == Size(SizeOf(m) - 4) + m[2..]
    {
      hide Byte, Num, LayerOf, StoreOwn, OrLayers;
      var cmdSize := Num(rxBuf[0]) + 256 * Num(rxBuf[1]);
      assert rxBuf[0] == m[0] && rxBuf[1] == m[1];
      ghost var flags, cookies := busyFlags[..], Cookies(m);
      var helperByte: octet := 0;
      var index := cmdSize - 7;
      while index < cmdSize - 3
        invariant cmdSize - 7 <= index <= cmdSize - 3
        invariant helperByte == OrFirst(cookies, index - (cmdSize - 7))
      {
        assert rxBuf[5 + index] == m[5 + index] == cookies[index - (cmdSize - 7)];
        helperByte := helperByte | LayerOf(rxBuf[5 + index]);
        index := index + 1;
      }
      OrAll(cookies);
      OrRange(cookies);
      var own := helperByte as nat;
      ownLayer := own;
      StoreOwnCookies(m, own);
      assert rxBuf[..|m|] == m;
      cmdSize := cmdSize - 4;
      rxBuf[0], rxBuf[1] := Byte(cmdSize % 256), Byte(cmdSize / 256);
      assert rxBuf[..|m|] == Size(cmdSize) + m[2..];
    }

    /** The second loop: the cookies one by one into the brick's own row. */
    method StoreOwnCookies(ghost m: seq<octet>, own: nat)
      requires Valid() && Holds(m) && |m| >= 9 && own < LAYERS
      modifies busyFlags
      ensures busyFlags[..] == StoreOwn(old(busyFlags[..]), own, Cookies(m))
    {
      hide Num, StoreOwn;
      assert rxBuf[0] == m[0] && rxBuf[1] == m[1];
      var cmdSize := Num(rxBuf[0]) + 256 * Num(rxBuf[1]);
      ghost var flags, cookies := busyFlags[..], Cookies(m);
      StoreOwnNone(flags, own, cookies);
      var index := cmdSize - 7;
      while index < cmdSize - 3
        invariant cmdSize - 7 <= index <= cmdSize - 3
        invariant Holds(m) && busyFlags[..] == StoreOwnFirst(flags, own, cookies, index - (cmdSize - 7))
      {
        assert rxBuf[5 + index] == m[5 + index] == cookies[index - (cmdSize - 7)];
        StoreOwnNext(flags, own, cookies, index - (cmdSize - 7));
        SetBusyFlags(own, index - (cmdSize - 7), rxBuf[5 + index]);
        index := index + 1;
      }
      StoreOwnAll(flags, own, cookies);
    }
  }

  // The loops over the four cookies, after their first `i` rounds.

  ghost function OrFirst(cookies: seq<octet>, i: nat): octet
    requires i <= |cookies| == PORTS
  {
    if i == 0 then 0 else OrFirst(cookies, i - 1) | LayerOf(cookies[i - 1])
  }

  lemma OrAll(cookies: seq<octet>)
    requires |cookies| == PORTS
    ensures OrFirst(cookies, 4) == OrLayers(cookies)
  {
    hide LayerOf;
    assert OrFirst(cookies, 1) == 0 | LayerOf(cookies[0]);
    assert OrFirst(cookies, 2) == OrFirst(cookies, 1) | LayerOf(cookies[1]);
    assert OrFirst(cookies, 3) == OrFirst(cookies, 2) | LayerOf(cookies[2]);
  }

  lemma LayerRange(x: octet)
    ensures LayerOf(x) as nat < LAYERS
  {
  }

  lemma OrRange(cookies: seq<octet>)
    requires |cookies| == PORTS
    ensures OrLayers(cookies) as nat < LAYERS
  {
  }

  ghost function StoreFirst(flags: seq<octet>, cookies: seq<octet>, i: nat): (r: seq<octet>)
    requires |flags| == FLAGS && i <= |cookies| == PORTS
    ensures |r| == FLAGS
  {
    if i == 0 then flags
    else
      LayerRange(cookies[i - 1]);
      StoreFirst(flags, cookies, i - 1)[LayerOf(cookies[i - 1]) as nat * 4 + (i - 1) := cookies[i - 1]]
  }

  lemma {:induction false} StoreFirstAt(flags: seq<octet>, cookies: seq<octet>, i: nat, j: nat)
    requires |flags| == FLAGS && i <= |cookies| == PORTS && j < FLAGS
    ensures StoreFirst(flags, cookies, i)[j] ==
            if j % 4 < i && LayerOf(cookies[j % 4]) as nat == j / 4 then cookies[j % 4] else flags[j]
  {
    hide LayerOf;
    if i > 0 {
      StoreFirstAt(flags, cookies, i - 1, j);
      LayerRange(cookies[i - 1]);
      SlotIndex(LayerOf(cookies[i - 1]) as nat, i - 1);
    }
  }

  lemma StoreAll(flags: seq<octet>, cookies: seq<octet>)
    requires |flags| == FLAGS && |cookies| == PORTS
    ensures StoreFirst(flags, cookies, 4) == StoreRelayed(flags, cookies)
  {
    hide LayerOf, StoreFirst;
    forall j | 0 <= j < FLAGS
      ensures StoreFirst(flags, cookies, 4)[j] == StoreRelayed(flags, cookies)[j]
    {
      StoreFirstAt(flags, cookies, 4, j);
    }
  }

  ghost function StoreOwnFirst(flags: seq<octet>, own: nat, cookies: seq<octet>, i: nat): (r: seq<octet>)
    requires |flags| == FLAGS && i <= |cookies| == PORTS && own < LAYERS
    ensures |r| == FLAGS
  {
    flags[..4 * own] + cookies[..i] + flags[4 * own + i..]
  }

  lemma StoreOwnNone(flags: seq<octet>, own: nat, cookies: seq<octet>)
    requires |flags| == FLAGS && |cookies| == PORTS && own < LAYERS
    ensures StoreOwnFirst(flags, own, cookies, 0) == flags
  {
  }

  lemma StoreOwnNext(flags: seq<octet>, own: nat, cookies: seq<octet>, i: nat)
    requires |flags| == FLAGS && i < |cookies| == PORTS && own < LAYERS
    ensures StoreOwnFirst(flags, own, cookies, i)[own * 4 + i := cookies[i]] == StoreOwnFirst(flags, own, cookies, i + 1)
  {
  }

  lemma StoreOwnAll(flags: seq<octet>, own: nat, cookies: seq<octet>)
    requires |flags| == FLAGS && |cookies| == PORTS && own < LAYERS
    ensures StoreOwnFirst(flags, own, cookies, 4) == StoreOwn(flags, own, cookies)
  {
  }

  lemma SmallSize(n: nat)
    requires n < 256
    ensures Size(n) == [Byte(n), 0]
  {
    assert n % 256 == n && n / 256 == 0;
  }

  // The bytes of a busy command: its header, the payload and the four cookies.
  lemma BusyPacket(payload: seq<octet>, cookies: seq<octet>, layer: nat)
    requires 1 <= layer < LAYERS && |cookies| == PORTS && 11 + |payload| <= EP_SIZE
    ensures Packet(payload + cookies, layer, true) ==
      (if layer > 1 then [Byte(|payload| + 5 + 4), 0, 0, 0, DAISY_COMMAND_NO_REPLY, DAISY_CHAIN_DOWNSTREAM_WITH_BUSY, Byte(layer - 1)]
       else [Byte(|payload| + 3 + 4), 0, 0, 0, DIR_CMD_NO_REPLY_WITH_BUSY]) + payload + cookies
  {
    hide Byte, Size;
    assert |payload + cookies| == |payload| + 4;
    SmallSize(|payload| + 5 + 4);
    SmallSize(|payload| + 3 + 4);
  }

  /** What a command does to one named or unnamed port. */
  lemma PortEntry(master: seq<octet>, flags: seq<octet>, layer: nat, field: octet, i: nat)
    requires |master| == |flags| == FLAGS && layer < LAYERS && i < PORTS
    ensures var cookies := NewCookies(master, layer, field);
            var k := 4 * layer + i;
            && cookies[i] == (if Has(field, i) then CookieByte(NextCookie(master[k]), LayerBits(layer)) else 0)
            && Issued(master, layer, field)[k] == (if Has(field, i) then NextCookie(master[k]) else master[k])
            && Marked(flags, layer, field, cookies)[k] == (if Has(field, i) then cookies[i] else flags[k])
  {
    hide Has, CookieByte, NextCookie, LayerBits;
    SlotIndex(layer, i);
  }

  lemma SlotIndex(layer: nat, i: nat)
    requires i < PORTS
    ensures (4 * layer + i) / 4 == layer && (4 * layer + i) % 4 == i
  {
  }

  lemma OtherRows(master: seq<octet>, flags: seq<octet>, layer: nat, field: octet)
    requires |master| == |flags| == FLAGS && layer < LAYERS
    ensures Issued(master, layer, field)[..4 * layer] == master[..4 * layer]
    ensures Issued(master, layer, field)[4 * layer + PORTS..] == master[4 * layer + PORTS..]
    ensures Marked(flags, layer, field, NewCookies(master, layer, field))[..4 * layer] == flags[..4 * layer]
    ensures Marked(flags, layer, field, NewCookies(master, layer, field))[4 * layer + PORTS..] == flags[4 * layer + PORTS..]
  {
    hide Has, CookieByte, NextCookie, LayerBits, NewCookies;
  }

  lemma Splice(new': seq<octet>, old': seq<octet>, n: nat)
    requires |new'| == |old'| && n < |old'|
    ensures (new'[..n] + old'[n..])[n := new'[n]] == new'[..n + 1] + old'[n + 1..]
  {
  }

  lemma FirstBit()
    ensures PortBit(0) == 1
  {
  }
}
