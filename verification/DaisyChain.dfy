/** A chain of bricks as a transition system.  Brick 0 is the master; `down[b]` are the commands on
    their way into brick b, `up[b]` the packets brick b has sent towards brick b - 1.  Links keep
    the order but may lose anything.  Motors and sensors are the environment. */
module DaisyChain {
  import opened Octets
  import opened DaisyFlags

  const SENSORS: nat := 8
  const STATUS_OK: int := 0
  const STATUS_FAIL: int := 2

  /** What one port reports: status, type, mode and data bytes. */
  datatype Record = Record(status: int, kind: int, mode: int, data: seq<int>)

  const NoRecord := Record(STATUS_FAIL, 0, 0, seq(32, _ => 0))

  datatype Packet = Packet(layer: nat, sensorNo: nat, record: Record, flags: seq<octet>)

  /** A busy command on a link: with hops to go, or as the plain direct command of the last hop. */
  datatype Command = Direct(cookies: seq<octet>) | Relayed(layer: nat, cookies: seq<octet>)

  datatype Brick = Brick(ownLayer: int, flags: seq<octet>, table: seq<seq<Record>>, readLayer: nat, readSensor: nat)

  datatype Chain = Chain(cookies: seq<octet>, bricks: seq<Brick>, down: seq<seq<Command>>, up: seq<seq<Packet>>)

  datatype Event =
    | Issue(layer: nat, field: octet)
    | Take(brick: nat)
    | Push(brick: nat, motors: octet, own: Record)
    | Poll(brick: nat)
    | LoseCommand(brick: nat, k: nat)
    | LosePacket(brick: nat, k: nat)
    | MarkEntry(brick: nat, row: nat, sensor: nat, status: int)
    | ResetTable(brick: nat, row: nat)

  // The numbering of ports: 4..7 travel as 16..19.

  function DeviceNo(sensor: nat): (d: nat)
    ensures sensor < SENSORS ==> SensorIndex(d) == sensor && (d < 4 || 16 <= d < 20)
  {
    if sensor > 3 then sensor + 12 else sensor
  }

  function SensorIndex(deviceNo: nat): nat {
    if deviceNo > 15 then deviceNo - 12 else deviceNo
  }

  // Shape of states

  ghost predicate TableShape(t: seq<seq<Record>>) {
    |t| == LAYERS && forall j :: 0 <= j < LAYERS ==> |t[j]| == SENSORS
  }

  ghost predicate BrickShape(b: Brick) {
    |b.flags| == FLAGS && TableShape(b.table) && b.readLayer < LAYERS && b.readSensor < SENSORS
  }

  ghost predicate PacketShape(p: Packet) {
    |p.flags| == FLAGS && p.layer < LAYERS && SensorIndex(p.sensorNo) < SENSORS
  }

  ghost predicate Shape(c: Chain) {
    && |c.cookies| == FLAGS
    && 2 <= |c.bricks| <= LAYERS && |c.down| == |c.up| == |c.bricks|
    && (forall b :: 0 <= b < |c.bricks| ==> BrickShape(c.bricks[b]))
    && (forall b, k :: 0 <= b < |c.down| && 0 <= k < |c.down[b]| ==> |c.down[b][k].cookies| == PORTS)
    && (forall b, k :: 0 <= b < |c.up| && 0 <= k < |c.up[b]| ==> PacketShape(c.up[b][k]))
  }

  function NewBrick(): Brick {
    Brick(0, seq(FLAGS, _ => 0), seq(LAYERS, _ => seq(SENSORS, _ => NoRecord)), 0, 0)
  }

  function Init(n: nat): (c: Chain)
    requires 2 <= n <= LAYERS
    ensures Shape(c)
  {
    Chain(seq(FLAGS, _ => 0), seq(n, _ => NewBrick()), seq(n, _ => []), seq(n, _ => []))
  }

  /** What can happen.  A command names a layer below and at least one of its ports. */
  ghost predicate Enabled(c: Chain, e: Event)
    requires Shape(c)
  {
    match e
    case Issue(layer, field) => 1 <= layer < LAYERS && exists p :: 0 <= p < PORTS && Has(field, p)
    case Take(b) => 1 <= b < |c.bricks| && c.down[b] != []
    case Push(b, motors, own) => 1 <= b < |c.bricks| && 0 <= c.bricks[b].ownLayer < LAYERS
    case Poll(b) => b + 1 < |c.bricks| && c.up[b + 1] != []
    case LoseCommand(b, k) => b < |c.bricks| && k < |c.down[b]|
    case LosePacket(b, k) => b < |c.bricks| && k < |c.up[b]|
    case MarkEntry(b, row, sensor, status) =>
      b < |c.bricks| && row < LAYERS && sensor < SENSORS && status != STATUS_OK
    case ResetTable(b, row) => b < |c.bricks| && row < LAYERS
  }

  /** The command does not take a five-bit sequence number back to 0. */
  ghost predicate NoWrap(c: Chain, e: Event)
    requires Shape(c)
  {
    e.Issue? && e.layer < LAYERS ==>
      forall p :: 0 <= p < PORTS && Has(e.field, p) ==> c.cookies[4 * e.layer + p] < 0x1F
  }

  function Without<T>(s: seq<T>, k: nat): seq<T>
    requires k < |s|
  {
    s[..k] + s[k + 1..]
  }

  /** The command that leaves the master for `layer`. */
  function Decorate(layer: nat, cookies: seq<octet>): Command {
    if layer > 1 then Relayed(layer - 1, cookies) else Direct(cookies)
  }

  function IssueStep(c: Chain, layer: nat, field: octet): Chain
    requires Shape(c) && layer < LAYERS
  {
    var cookies := NewCookies(c.cookies, layer, field);
    var master := c.bricks[0].(flags := Marked(c.bricks[0].flags, layer, field, cookies));
    c.(cookies := Issued(c.cookies, layer, field),
       bricks := c.bricks[0 := master],
       down := c.down[1 := c.down[1] + [Decorate(layer, cookies)]])
  }

  /** A brick takes the next command: its own, or one to pass on with one hop less. */
  function TakeBrick(b: Brick, cmd: Command): Brick
    requires |b.flags| == FLAGS && |cmd.cookies| == PORTS
  {
    var layers := OrLayers(cmd.cookies);
    match cmd
    case Direct(cookies) =>
      b.(ownLayer := layers as int,
         flags := if layers < 4 then StoreOwn(b.flags, layers as nat, cookies) else b.flags)
    case Relayed(layer, cookies) =>
      b.(ownLayer := (layers as int - layer) % 256, flags := StoreRelayed(b.flags, cookies))
  }

  function PassOn(cmd: Command): Command
    requires cmd.Relayed?
  {
    if cmd.layer == 1 then Direct(cmd.cookies) else Relayed(if cmd.layer == 0 then 255 else cmd.layer - 1, cmd.cookies)
  }

  function TakeStep(c: Chain, b: nat): Chain
    requires Shape(c) && 1 <= b < |c.bricks| && c.down[b] != []
  {
    var cmd := c.down[b][0];
    var down := c.down[b := c.down[b][1..]];
    c.(bricks := c.bricks[b := TakeBrick(c.bricks[b], cmd)],
       down := if cmd.Relayed? && b + 1 < |c.bricks| then down[b + 1 := down[b + 1] + [PassOn(cmd)]] else down)
  }

  /** The read position after a push: all sensors of a layer, then the next layer. */
  function NextRead(layer: nat, sensor: nat): (nat, nat) {
    if sensor + 1 < SENSORS then (layer, sensor + 1) else (if layer + 1 > 3 then 0 else layer + 1, 0)
  }

  function PushRecord(b: Brick, own: Record): Record
    requires BrickShape(b)
  {
    if b.readLayer == 0 then own else b.table[b.readLayer - 1][b.readSensor]
  }

  function PushPacket(b: Brick, motors: octet, own: Record): (p: Packet)
    requires BrickShape(b) && 0 <= b.ownLayer < LAYERS
    ensures PacketShape(p)
  {
    Packet(b.readLayer, DeviceNo(b.readSensor), PushRecord(b, own), Refresh(b.flags, b.ownLayer, motors))
  }

  function PushBrick(b: Brick, motors: octet): (r: Brick)
    requires BrickShape(b) && 0 <= b.ownLayer < LAYERS
    ensures BrickShape(r)
  {
    var (layer, sensor) := NextRead(b.readLayer, b.readSensor);
    b.(flags := Refresh(b.flags, b.ownLayer, motors), readLayer := layer, readSensor := sensor)
  }

  function PushStep(c: Chain, b: nat, motors: octet, own: Record): Chain
    requires Shape(c) && 1 <= b < |c.bricks| && 0 <= c.bricks[b].ownLayer < LAYERS
  {
    c.(bricks := c.bricks[b := PushBrick(c.bricks[b], motors)],
       up := c.up[b := c.up[b] + [PushPacket(c.bricks[b], motors, own)]])
  }

  function SetEntry(t: seq<seq<Record>>, row: nat, sensor: nat, r: Record): (t': seq<seq<Record>>)
    requires TableShape(t) && row < LAYERS && sensor < SENSORS
    ensures TableShape(t')
  {
    t[row := t[row][sensor := r]]
  }

  function PollBrick(b: Brick, p: Packet): (r: Brick)
    requires BrickShape(b) && PacketShape(p)
    ensures BrickShape(r)
  {
    b.(flags := Merge(b.flags, p.flags), table := SetEntry(b.table, p.layer, SensorIndex(p.sensorNo), p.record))
  }

  function PollStep(c: Chain, b: nat): Chain
    requires Shape(c) && b + 1 < |c.bricks| && c.up[b + 1] != []
  {
    c.(bricks := c.bricks[b := PollBrick(c.bricks[b], c.up[b + 1][0])],
       up := c.up[b + 1 := c.up[b + 1][1..]])
  }

  function SetTable(c: Chain, b: nat, t: seq<seq<Record>>): Chain
    requires Shape(c) && b < |c.bricks| && TableShape(t)
  {
    c.(bricks := c.bricks[b := c.bricks[b].(table := t)])
  }

  function Step(c: Chain, e: Event): Chain
    requires Shape(c) && Enabled(c, e)
  {
    match e
    case Issue(layer, field) => IssueStep(c, layer, field)
    case Take(b) => TakeStep(c, b)
    case Push(b, motors, own) => PushStep(c, b, motors, own)
    case Poll(b) => PollStep(c, b)
    case LoseCommand(b, k) => c.(down := c.down[b := Without(c.down[b], k)])
    case LosePacket(b, k) => c.(up := c.up[b := Without(c.up[b], k)])
    case MarkEntry(b, row, sensor, status) =>
      var t := c.bricks[b].table;
      SetTable(c, b, SetEntry(t, row, sensor, t[row][sensor].(status := status)))
    case ResetTable(b, row) => SetTable(c, b, c.bricks[b].table[row := seq(SENSORS, _ => NoRecord)])
  }

  lemma StepShape(c: Chain, e: Event)
    requires Shape(c) && Enabled(c, e)
    ensures Shape(Step(c, e)) && |Step(c, e).bricks| == |c.bricks|
  {
    hide Refresh, Merge, StoreOwn, StoreRelayed, NewCookies, Issued, Marked, OrLayers, Has;
  }

  /** The chain after a run; a run is possible when every event was enabled. */
  ghost predicate Possible(n: nat, run: seq<Event>)
    requires 2 <= n <= LAYERS
    decreases |run|, 0
  {
    run == [] ||
    (Possible(n, run[..|run| - 1]) && Enabled(After(n, run[..|run| - 1]), run[|run| - 1]))
  }

  ghost function After(n: nat, run: seq<Event>): (c: Chain)
    requires 2 <= n <= LAYERS && Possible(n, run)
    ensures Shape(c) && |c.bricks| == n
    decreases |run|, 1
  {
    if run == [] then Init(n)
    else
      var before := After(n, run[..|run| - 1]);
      StepShape(before, run[|run| - 1]);
      Step(before, run[|run| - 1])
  }
}
