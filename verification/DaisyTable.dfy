/** Provenance of the sensor table: a valid entry is a record the brick it stands for really had. */
module DaisyTable {
  import opened Octets
  import opened DaisyFlags
  import opened DaisyChain

  /** (brick, sensor, record) triples that a brick read from its own port. */
  type Produced = set<(nat, nat, Record)>

  ghost function Produces(c: Chain, e: Event, made: Produced): Produced
    requires Shape(c) && Enabled(c, e)
  {
    if e.Push? && c.bricks[e.brick].readLayer == 0 then made + {(e.brick, c.bricks[e.brick].readSensor, e.own)} else made
  }

  ghost predicate Genuine(made: Produced, brick: nat, sensor: nat, r: Record) {
    r.status == STATUS_OK ==> (brick, sensor, r) in made
  }

  /** Row j of brick b stands for brick b + j + 1. */
  ghost predicate TableGenuine(made: Produced, b: nat, t: seq<seq<Record>>)
    requires TableShape(t)
  {
    forall j, s :: 0 <= j < LAYERS && 0 <= s < SENSORS ==> Genuine(made, b + j + 1, s, t[j][s])
  }

  /** A packet of brick b with layer l stands for brick b + l. */
  ghost predicate PacketGenuine(made: Produced, b: nat, p: Packet) {
    Genuine(made, b + p.layer, SensorIndex(p.sensorNo), p.record)
  }

  ghost predicate Inv(c: Chain, made: Produced)
    requires Shape(c)
  {
    && (forall b :: 0 <= b < |c.bricks| ==> TableGenuine(made, b, c.bricks[b].table))
    && (forall b, i :: 0 <= b < |c.up| && 0 <= i < |c.up[b]| ==> PacketGenuine(made, b, c.up[b][i]))
  }

  lemma PushKeeps(c: Chain, made: Produced, b: nat, motors: octet, own: Record)
    requires Shape(c) && Inv(c, made) && Enabled(c, Push(b, motors, own))
    ensures Shape(PushStep(c, b, motors, own))
    ensures Inv(PushStep(c, b, motors, own), Produces(c, Push(b, motors, own), made))
  {
    hide Refresh;
    StepShape(c, Push(b, motors, own));
    var c', made' := PushStep(c, b, motors, own), Produces(c, Push(b, motors, own), made);
    var brick := c.bricks[b];
    assert TableGenuine(made, b, brick.table);
    assert PacketGenuine(made', b, PushPacket(brick, motors, own)) by {
      if brick.readLayer > 0 {
        assert Genuine(made, b + (brick.readLayer - 1) + 1, brick.readSensor, brick.table[brick.readLayer - 1][brick.readSensor]);
      }
    }
    forall d | 0 <= d < |c'.bricks|
      ensures TableGenuine(made', d, c'.bricks[d].table)
    {
      assert TableGenuine(made, d, c.bricks[d].table);
    }
    forall d, i | 0 <= d < |c'.up| && 0 <= i < |c'.up[d]|
      ensures PacketGenuine(made', d, c'.up[d][i])
    {
      if i < |c.up[d]| {
        assert PacketGenuine(made, d, c.up[d][i]);
      }
    }
  }

  lemma PollKeeps(c: Chain, made: Produced, b: nat)
    requires Shape(c) && Inv(c, made) && Enabled(c, Poll(b))
    ensures Shape(PollStep(c, b)) && Inv(PollStep(c, b), made)
  {
    hide Merge, Genuine, SensorIndex;
    StepShape(c, Poll(b));
    var c' := PollStep(c, b);
    var p := c.up[b + 1][0];
    assert PacketGenuine(made, b + 1, p);
    assert TableGenuine(made, b, c.bricks[b].table);
    forall d, i | 0 <= d < |c'.up| && 0 <= i < |c'.up[d]|
      ensures PacketGenuine(made, d, c'.up[d][i])
    {
      assert c'.up[d][i] == c.up[d][if d == b + 1 then i + 1 else i];
    }
  }

  lemma OtherKeeps(c: Chain, made: Produced, e: Event)
    requires Shape(c) && Inv(c, made) && Enabled(c, e) && !e.Push? && !e.Poll?
    ensures Shape(Step(c, e)) && Inv(Step(c, e), made)
  {
    hide NewCookies, Issued, Marked, StoreOwn, StoreRelayed, OrLayers, SensorIndex, Has;
    StepShape(c, e);
    var c' := Step(c, e);
    forall d | 0 <= d < |c'.bricks|
      ensures TableGenuine(made, d, c'.bricks[d].table)
    {
      assert TableGenuine(made, d, c.bricks[d].table);
    }
    forall d, i | 0 <= d < |c'.up| && 0 <= i < |c'.up[d]|
      ensures PacketGenuine(made, d, c'.up[d][i])
    {
      assert c'.up[d][i] == c.up[d][if e.LosePacket? && d == e.brick && i >= e.k then i + 1 else i];
    }
  }

  ghost function History(n: nat, run: seq<Event>): Produced
    requires 2 <= n <= LAYERS && Possible(n, run)
  {
    if run == [] then {}
    else
      var init := run[..|run| - 1];
      Produces(After(n, init), run[|run| - 1], History(n, init))
  }

  lemma {:induction false} RunInv(n: nat, run: seq<Event>)
    requires 2 <= n <= LAYERS && Possible(n, run)
    ensures Inv(After(n, run), History(n, run))
  {
    hide IssueStep, TakeStep, PushStep, PollStep, TableGenuine;
    if run == [] {
      EmptyTables();
    } else {
      var init, e := run[..|run| - 1], run[|run| - 1];
      RunInv(n, init);
      var c, made := After(n, init), History(n, init);
      match e
      case Push(b, motors, own) => PushKeeps(c, made, b, motors, own);
      case Poll(b) => PollKeeps(c, made, b);
      case _ => OtherKeeps(c, made, e);
    }
  }

  lemma EmptyTables()
    ensures forall b: nat :: TableGenuine({}, b, NewBrick().table)
  {
  }

  /** At step `i` the brick reads this record from this port of its own. */
  ghost predicate ReadAt(n: nat, run: seq<Event>, i: nat, brick: nat, sensor: nat, r: Record)
    requires 2 <= n <= LAYERS && i < |run|
  {
    && Possible(n, run[..i]) && run[i].Push? && run[i].brick == brick && run[i].own == r
    && var c := After(n, run[..i]);
       && Enabled(c, run[i]) && c.bricks[brick].readLayer == 0 && c.bricks[brick].readSensor == sensor
  }

  lemma {:induction false} ProducedHappened(n: nat, run: seq<Event>, brick: nat, sensor: nat, r: Record) returns (i: nat)
    requires 2 <= n <= LAYERS && Possible(n, run) && (brick, sensor, r) in History(n, run)
    ensures i < |run| && ReadAt(n, run, i, brick, sensor, r)
  {
    hide After, Step;
    var last := |run| - 1;
    var init := run[..last];
    if (brick, sensor, r) in History(n, init) {
      i := ProducedHappened(n, init, brick, sensor, r);
      assert run[..i] == init[..i];
    } else {
      i := last;
    }
  }

  /** Reading a device of a lower layer: layer d is kept in row d - 1. */
  function DownstreamData(t: seq<seq<Record>>, layer: nat, deviceNo: nat): Record
    requires TableShape(t) && 1 <= layer <= LAYERS && SensorIndex(deviceNo) < SENSORS
  {
    t[layer - 1][SensorIndex(deviceNo)]
  }

  /** In every reachable state, what a brick reads as valid for layer d and a device is a record
      that the brick d below it really read from that port at an earlier step. */
  lemma TableProvenance(n: nat, run: seq<Event>, b: nat, layer: nat, sensor: nat) returns (i: nat)
    requires 2 <= n <= LAYERS && Possible(n, run) && b < n && 1 <= layer <= LAYERS && sensor < SENSORS
    requires DownstreamData(After(n, run).bricks[b].table, layer, DeviceNo(sensor)).status == STATUS_OK
    ensures b + layer < n && i < |run|
    ensures ReadAt(n, run, i, b + layer, sensor, DownstreamData(After(n, run).bricks[b].table, layer, DeviceNo(sensor)))
  {
    hide After, Step;
    RunInv(n, run);
    var t := After(n, run).bricks[b].table;
    assert TableGenuine(History(n, run), b, t);
    assert Genuine(History(n, run), b + (layer - 1) + 1, sensor, t[layer - 1][sensor]);
    i := ProducedHappened(n, run, b + layer, sensor, t[layer - 1][sensor]);
  }

  // Fairness of the read position

  function Pushes(run: seq<Event>, b: nat): nat {
    if run == [] then 0
    else
      var last := run[|run| - 1];
      Pushes(run[..|run| - 1], b) + if last.Push? && last.brick == b then 1 else 0
  }

  /** The read position after `k` pushes. */
  function Position(k: nat): (nat, nat) {
    (k / SENSORS % LAYERS, k % SENSORS)
  }

  lemma PositionNext(k: nat)
    ensures Position(k + 1) == NextRead(Position(k).0, Position(k).1)
  {
    if k % SENSORS == SENSORS - 1 {
      assert (k + 1) / SENSORS == k / SENSORS + 1 && (k + 1) % SENSORS == 0;
    } else {
      assert (k + 1) / SENSORS == k / SENSORS;
    }
  }

  lemma {:induction false} PositionOf(n: nat, run: seq<Event>, b: nat)
    requires 2 <= n <= LAYERS && Possible(n, run) && b < n
    ensures var brick := After(n, run).bricks[b];
            (brick.readLayer, brick.readSensor) == Position(Pushes(run, b))
  {
    hide Position, Step, NextRead, Enabled;
    if run == [] {
      PositionStart();
    } else {
      var init := run[..|run| - 1];
      PositionOf(n, init, b);
      PositionNext(Pushes(init, b));
      StepRead(After(n, init), run[|run| - 1], b);
    }
  }

  lemma StepRead(c: Chain, e: Event, b: nat)
    requires Shape(c) && Enabled(c, e) && b < |c.bricks|
    ensures var x, y := c.bricks[b], Step(c, e).bricks[b];
            (y.readLayer, y.readSensor) ==
            if e.Push? && e.brick == b then NextRead(x.readLayer, x.readSensor) else (x.readLayer, x.readSensor)
  {
    hide Merge, Refresh, StoreOwn, StoreRelayed, NewCookies, Issued, Marked, OrLayers, Has, SetEntry, NextRead;
  }

  lemma PositionStart()
    ensures Position(0) == (0, 0)
  {
  }

  /** Any 32 consecutive pushes visit every (layer, sensor) pair exactly once. */
  lemma EveryPairOnce(k: nat, layer: nat, sensor: nat) returns (i: nat)
    requires layer < LAYERS && sensor < SENSORS
    ensures k <= i < k + LAYERS * SENSORS && Position(i) == (layer, sensor)
    ensures forall j: nat :: k <= j < k + LAYERS * SENSORS && Position(j) == (layer, sensor) ==> j == i
  {
    hide Position;
    var want := SENSORS * layer + sensor;
    var round := if k % 32 <= want then k / 32 else k / 32 + 1;
    i := 32 * round + want;
    PositionIs(round, layer, sensor);
    forall j: nat | k <= j < k + 32 && Position(j) == (layer, sensor)
      ensures j == i
    {
      PositionInverse(j);
    }
  }

  lemma PositionIs(round: nat, layer: nat, sensor: nat)
    requires layer < LAYERS && sensor < SENSORS
    ensures Position(32 * round + SENSORS * layer + sensor) == (layer, sensor)
  {
    var k := 32 * round + SENSORS * layer + sensor;
    assert k == SENSORS * (4 * round + layer) + sensor;
    assert k / SENSORS == 4 * round + layer && k % SENSORS == sensor;
  }

  lemma PositionInverse(k: nat)
    ensures k % 32 == SENSORS * Position(k).0 + Position(k).1
  {
    var q := k / SENSORS;
    assert k == SENSORS * q + k % SENSORS && q == 4 * (q / 4) + q % 4;
    assert k == 32 * (q / 4) + (SENSORS * (q % 4) + k % SENSORS);
  }
}
