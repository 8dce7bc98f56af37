/** The bytes of the downstream commands, and what one hop does to them. */
module DaisyPackets {
  import opened Octets
  import opened DaisyFlags
  import opened DaisyChain

  const EP_SIZE: nat := 64

  const DAISY_COMMAND_NO_REPLY: octet := 0x8A
  const DAISY_CHAIN_DOWNSTREAM: octet := 0xA0
  const DAISY_CHAIN_DOWNSTREAM_WITH_BUSY: octet := 0xA5
  const DIRECT_COMMAND_NO_REPLY: octet := 0x80
  const DIR_CMD_NO_REPLY_WITH_BUSY: octet := 0x8F

  function Size(n: nat): (s: seq<octet>)
    requires n < 0x1_0000
    ensures |s| == 2
  {
    [Byte(n % 256), Byte(n / 256)]
  }

  function SizeOf(m: seq<octet>): (n: nat)
    requires |m| >= 2
  {
    Num(m[0]) + 256 * Num(m[1])
  }

  lemma SizeRoundTrip(n: nat)
    requires n < 0x1_0000
    ensures SizeOf(Size(n)) == n
    ensures n < 0x100 ==> Size(n) == [Byte(n), 0]
  {
    assert Byte(0) == 0;
    hide Byte, Num;
    NumByte(n % 256);
    NumByte(n / 256);
  }

  /** A command on its way to the brick `layer` hops away: decorated, or plain for the last hop.
      `tail` is the payload and, for a busy command, the four cookies. */
  function Packet(tail: seq<octet>, layer: nat, busy: bool): (m: seq<octet>)
    requires 1 <= layer <= 256 && 7 + |tail| <= EP_SIZE
  {
    if layer > 1 then
      Size(|tail| + 5) + [0, 0, DAISY_COMMAND_NO_REPLY,
                          if busy then DAISY_CHAIN_DOWNSTREAM_WITH_BUSY else DAISY_CHAIN_DOWNSTREAM,
                          Byte(layer - 1)] + tail
    else
      Size(|tail| + 3) + [0, 0, if busy then DIR_CMD_NO_REPLY_WITH_BUSY else DIRECT_COMMAND_NO_REPLY] + tail
  }

  /** A received message: its size field counts the bytes after itself. */
  predicate Message(m: seq<octet>) {
    |m| >= 7 && |m| == SizeOf(m) + 2
  }

  predicate IsDaisy(m: seq<octet>)
    requires |m| >= 7
  {
    m[4] == DAISY_COMMAND_NO_REPLY && (m[5] == DAISY_CHAIN_DOWNSTREAM || m[5] == DAISY_CHAIN_DOWNSTREAM_WITH_BUSY)
  }

  /** What a brick sends on: the last hop loses the sub-command and the layer byte, any other only
      counts the layer down. */
  function Hop(m: seq<octet>): seq<octet>
    requires Message(m) && IsDaisy(m)
  {
    if Num(m[6]) == 1 then
      Size(SizeOf(m) - 2) + m[2..4] +
      [if m[5] == DAISY_CHAIN_DOWNSTREAM then DIRECT_COMMAND_NO_REPLY else DIR_CMD_NO_REPLY_WITH_BUSY] + m[7..]
    else
      m[6 := Minus1(m[6])]
  }

  /** Every hop turns the packet for a brick `layer` hops away into the one for `layer - 1` hops. */
  lemma HopShortens(tail: seq<octet>, layer: nat, busy: bool)
    requires 2 <= layer <= 256 && 7 + |tail| <= EP_SIZE
    ensures var m := Packet(tail, layer, busy); Message(m) && IsDaisy(m) && Hop(m) == Packet(tail, layer - 1, busy)
  {
    hide Size, SizeOf, Byte, Num, Minus1;
    var m := Packet(tail, layer, busy);
    SizeRoundTrip(|tail| + 5);
    SizePrefix(Size(|tail| + 5), m);
    assert m[7..] == tail && m[2..4] == [0, 0];
    CountDown(layer);
  }

  lemma SizePrefix(s: seq<octet>, m: seq<octet>)
    requires |s| == 2 && s <= m
    ensures SizeOf(m) == SizeOf(s)
  {
  }

  lemma CountDown(layer: nat)
    requires 2 <= layer <= 256
    ensures Num(Byte(layer - 1)) == 1 <==> layer == 2
    ensures layer > 2 ==> Minus1(Byte(layer - 1)) == Byte(layer - 2)
  {
    hide Byte, Num;
    NumByte(layer - 1);
  }

  /** The packet after `hops` bricks have passed it on. */
  function Hops(m: seq<octet>, hops: nat): seq<octet>
  {
    if hops == 0 then m
    else
      var before := Hops(m, hops - 1);
      if Message(before) && IsDaisy(before) then Hop(before) else before
  }

  /** Routing: from the master, bricks 1 to layer - 1 pass the command on with its content unchanged,
      and brick `layer` receives a plain direct command with exactly the payload and cookies. */
  lemma {:induction false} Routing(tail: seq<octet>, layer: nat, busy: bool, hops: nat)
    requires 1 <= layer <= 256 && 7 + |tail| <= EP_SIZE && hops < layer
    ensures Hops(Packet(tail, layer, busy), hops) == Packet(tail, layer - hops, busy)
  {
    hide Packet, Message, IsDaisy, Hop;
    if hops > 0 {
      Routing(tail, layer, busy, hops - 1);
      HopShortens(tail, layer - (hops - 1), busy);
    }
  }

  // What the receiving brick reads in a busy command.

  /** The four cookies close the message. */
  function Cookies(m: seq<octet>): (c: seq<octet>)
    requires |m| >= 9
    ensures |c| == PORTS
  {
    m[|m| - 4..]
  }

  /** Arrival: the last brick finds the payload and the cookies, and cutting the cookies off leaves
      the plain direct command of that payload with the right size. */
  lemma Arrival(payload: seq<octet>, cookies: seq<octet>)
    requires |cookies| == PORTS && 11 + |payload| <= EP_SIZE
    ensures var m := Packet(payload + cookies, 1, true);
            SizeOf(m) == |m| - 2 && m[4] == DIR_CMD_NO_REPLY_WITH_BUSY && |m| >= 9 &&
            Cookies(m) == cookies && m[5..|m| - 4] == payload &&
            Size(SizeOf(m) - 4) + m[2..4] + [DIRECT_COMMAND_NO_REPLY] + m[5..|m| - 4] == Packet(payload, 1, false)
  {
    hide Size, SizeOf, Byte, Num, Minus1;
    var tail := payload + cookies;
    var m := Packet(tail, 1, true);
    SizeRoundTrip(|tail| + 3);
    SizePrefix(Size(|tail| + 3), m);
    assert m[5..] == tail && m[2..4] == [0, 0];
  }

  /** The command of the chain model that a busy message stands for. */
  function CommandOf(m: seq<octet>): Command
    requires |m| >= 9
  {
    if IsDaisy(m) then Relayed(Num(m[6]), Cookies(m)) else Direct(Cookies(m))
  }

  /** The bytes refine the chain model: the master's packet is its decorated command, and a hop on
      bytes is the passing on of the command. */
  lemma PacketsAreCommands(payload: seq<octet>, cookies: seq<octet>, layer: nat)
    requires |cookies| == PORTS && 11 + |payload| <= EP_SIZE && 1 <= layer <= 256
    ensures var m := Packet(payload + cookies, layer, true);
            |m| >= 9 && CommandOf(m) == Decorate(layer, cookies) &&
            (layer > 1 ==> Message(m) && IsDaisy(m) && |Hop(m)| >= 9 && CommandOf(Hop(m)) == PassOn(CommandOf(m)))
  {
    hide Size, Message, Hop;
    CommandOfPacket(payload, cookies, layer);
    if layer > 1 {
      HopShortens(payload + cookies, layer, true);
      CommandOfPacket(payload, cookies, layer - 1);
    }
  }

  lemma CommandOfPacket(payload: seq<octet>, cookies: seq<octet>, layer: nat)
    requires |cookies| == PORTS && 11 + |payload| <= EP_SIZE && 1 <= layer <= 256
    ensures var m := Packet(payload + cookies, layer, true);
            |m| >= 9 && CommandOf(m) == Decorate(layer, cookies)
  {
    hide Size, Byte, Num;
    var m := Packet(payload + cookies, layer, true);
    assert Cookies(m) == cookies;
    NumByte(layer - 1);
  }
}
