/** The sixteen busy bytes of a daisy-chained brick: one per (layer, port), each holding a busy bit,
    a five-bit sequence number ("magic cookie") and the layer. */
module DaisyFlags {
  import opened Octets

  const LAYERS: nat := 4
  const PORTS: nat := 4
  const FLAGS: nat := 16

  predicate Busy(x: octet) { x & 0x80 != 0 }
  function Age(x: octet): octet { x & 0x7C }
  function LayerOf(x: octet): octet { x & 0x03 }
  function SetBusy(x: octet): octet { x | 0x80 }
  function ClearBusy(x: octet): octet { x & 0x7F }

  function LayerBits(layer: nat): (b: octet)
    requires layer < LAYERS
    ensures b < 4
  {
    if layer == 0 then 0 else if layer == 1 then 1 else if layer == 2 then 2 else 3
  }

  lemma LayerNumber(layer: nat)
    requires layer < LAYERS
    ensures LayerBits(layer) as nat == layer
  {
  }

  /** The age bits of a sequence number. */
  function AgeOf(cookie: octet): octet { (cookie << 2) & 0x7C }

  /** The byte the master puts behind a command and into its own table. */
  function CookieByte(cookie: octet, layer: octet): octet { AgeOf(cookie) | 0x80 | layer }

  function NextCookie(cookie: octet): octet {
    if cookie < 0x1F then cookie + 1 else 0
  }

  /** The bit of a port in a port field or in the motor flags. */
  function PortBit(port: nat): octet
    requires port < PORTS
  {
    if port == 0 then 1 else if port == 1 then 2 else if port == 2 then 4 else 8
  }

  predicate Test(field: octet, bit: octet) { field & bit != 0 }
  function NextBit(bit: octet): octet { bit << 1 }

  predicate Has(field: octet, port: nat)
    requires port < PORTS
  {
    Test(field, PortBit(port))
  }

  lemma PortBits(port: nat)
    requires port < PORTS
    ensures port + 1 < PORTS ==> NextBit(PortBit(port)) == PortBit(port + 1)
  {
  }

  lemma BusyBits(x: octet)
    ensures Busy(SetBusy(x)) && Age(SetBusy(x)) == Age(x)
    ensures !Busy(ClearBusy(x)) && Age(ClearBusy(x)) == Age(x)
    ensures !Busy(0) && Age(0) == 0 && LayerOf(0) == 0
  {
  }

  lemma CookieBits(cookie: octet, layer: octet)
    requires cookie <= 0x1F && layer < 4
    ensures Busy(CookieByte(cookie, layer))
    ensures Age(CookieByte(cookie, layer)) == AgeOf(cookie)
    ensures LayerOf(CookieByte(cookie, layer)) == layer
  {
  }

  /** Sequence numbers in use are never 0, and later ones are larger, until they wrap. */
  lemma CookieOrder(cookie: octet)
    requires cookie < 0x1F
    ensures NextCookie(cookie) <= 0x1F
    ensures AgeOf(cookie) < AgeOf(NextCookie(cookie)) && AgeOf(NextCookie(cookie)) != 0
  {
  }

  /** A cookie byte as a number: the busy bit, the five bits of the sequence number, and the layer. */
  lemma CookieNumber(cookie: octet, layer: octet)
    requires cookie <= 0x1F && layer < 4
    ensures CookieByte(cookie, layer) as nat == 128 + 4 * (cookie as nat) + layer as nat
    ensures AgeOf(cookie) as nat == 4 * (cookie as nat)
    ensures NextCookie(cookie) as nat == (cookie as nat + 1) % 32
  {
  }

  // What the bricks do to their sixteen bytes.

  /** A brick's own four bytes follow its motors when it reports upstream. */
  function Refresh(flags: seq<octet>, own: nat, motors: octet): (r: seq<octet>)
    requires |flags| == FLAGS && own < LAYERS
    ensures |r| == FLAGS
  {
    seq(FLAGS, j requires 0 <= j < FLAGS =>
      if j / 4 != own then flags[j] else if Has(motors, j % 4) then SetBusy(flags[j]) else ClearBusy(flags[j]))
  }

  predicate NotOlder(reported: octet, known: octet) { Age(reported) >= Age(known) }

  /** A report from downstream may clear a busy bit, if it is not older than what is known. */
  function MergeByte(known: octet, reported: octet): octet {
    if NotOlder(reported, known) && !Busy(reported) then ClearBusy(known) else known
  }

  function Merge(flags: seq<octet>, report: seq<octet>): (r: seq<octet>)
    requires |flags| == FLAGS && |report| == FLAGS
    ensures |r| == FLAGS
  {
    seq(FLAGS, j requires 0 <= j < FLAGS => MergeByte(flags[j], report[j]))
  }

  /** The brick a command is for stores its four cookies in its own row. */
  function StoreOwn(flags: seq<octet>, own: nat, cookies: seq<octet>): (r: seq<octet>)
    requires |flags| == FLAGS && |cookies| == PORTS && own < LAYERS
    ensures |r| == FLAGS
  {
    seq(FLAGS, j requires 0 <= j < FLAGS => if j / 4 == own then cookies[j % 4] else flags[j])
  }

  /** A brick that passes a command on files each cookie under the layer written in it. */
  function StoreRelayed(flags: seq<octet>, cookies: seq<octet>): (r: seq<octet>)
    requires |flags| == FLAGS && |cookies| == PORTS
    ensures |r| == FLAGS
  {
    seq(FLAGS, j requires 0 <= j < FLAGS =>
      if LayerOf(cookies[j % 4]) as nat == j / 4 then cookies[j % 4] else flags[j])
  }

  /** The four cookies of a command for `layer` and the ports of `field`. */
  function NewCookies(master: seq<octet>, layer: nat, field: octet): (r: seq<octet>)
    requires |master| == FLAGS && layer < LAYERS
    ensures |r| == PORTS
  {
    seq(PORTS, p requires 0 <= p < PORTS =>
      if Has(field, p) then CookieByte(NextCookie(master[4 * layer + p]), LayerBits(layer)) else 0)
  }

  function Issued(master: seq<octet>, layer: nat, field: octet): (r: seq<octet>)
    requires |master| == FLAGS && layer < LAYERS
    ensures |r| == FLAGS
  {
    seq(FLAGS, j requires 0 <= j < FLAGS =>
      if j / 4 == layer && Has(field, j % 4) then NextCookie(master[j]) else master[j])
  }

  /** The master's own busy bytes after issuing that command. */
  function Marked(flags: seq<octet>, layer: nat, field: octet, cookies: seq<octet>): (r: seq<octet>)
    requires |flags| == FLAGS && |cookies| == PORTS && layer < LAYERS
    ensures |r| == FLAGS
  {
    seq(FLAGS, j requires 0 <= j < FLAGS =>
      if j / 4 == layer && Has(field, j % 4) then cookies[j % 4] else flags[j])
  }

  function OrLayers(cookies: seq<octet>): octet
    requires |cookies| == PORTS
  {
    LayerOf(cookies[0]) | LayerOf(cookies[1]) | LayerOf(cookies[2]) | LayerOf(cookies[3])
  }

  /** A command that names a port tells every brick its layer. */
  lemma LayersTold(master: seq<octet>, layer: nat, field: octet)
    requires |master| == FLAGS && layer < LAYERS
    requires forall j :: 0 <= j < FLAGS ==> master[j] <= 0x1F
    requires exists p :: 0 <= p < PORTS && Has(field, p)
    ensures OrLayers(NewCookies(master, layer, field)) == LayerBits(layer)
  {
    hide CookieByte, NextCookie, Has;
    var c := NewCookies(master, layer, field);
    forall p | 0 <= p < PORTS
      ensures LayerOf(c[p]) == if Has(field, p) then LayerBits(layer) else 0
    {
      NextCookieRange(master[4 * layer + p]);
      CookieBits(NextCookie(master[4 * layer + p]), LayerBits(layer));
      BusyBits(0);
    }
  }

  lemma NextCookieRange(cookie: octet)
    requires cookie <= 0x1F
    ensures NextCookie(cookie) <= 0x1F
  {
  }
}
