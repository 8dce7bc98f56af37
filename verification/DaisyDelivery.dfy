/** Delivery: on links that lose nothing, a command reaches the brick it names, every brick on the way learns its
    depth, and the report that the motor has stopped comes back to the master. */
module DaisyDelivery {
  import opened Octets
  import opened DaisyFlags
  import opened DaisyChain
  import DaisyCookies
  import DaisyTable

  // ---- Runs that go on from a state ----

  ghost predicate CanRun(c: Chain, es: seq<Event>)
    requires Shape(c)
    decreases |es|
  {
    es == [] || (Enabled(c, es[0]) && Shape(Step(c, es[0])) && CanRun(Step(c, es[0]), es[1..]))
  }

  ghost function Exec(c: Chain, es: seq<Event>): (r: Chain)
    requires Shape(c) && CanRun(c, es)
    ensures Shape(r)
    decreases |es|
  {
    if es == [] then c else Exec(Step(c, es[0]), es[1..])
  }

  lemma {:induction false} ExecIsAfter(n: nat, run: seq<Event>, es: seq<Event>)
    requires 2 <= n <= LAYERS && Possible(n, run) && CanRun(After(n, run), es)
    ensures Possible(n, run + es) && After(n, run + es) == Exec(After(n, run), es)
    decreases |es|
  {
    hide Step, Enabled;
    if es == [] {
      assert run + es == run;
    } else {
      var longer := run + [es[0]];
      assert longer[..|longer| - 1] == run;
      assert longer + es[1..] == run + es;
      ExecIsAfter(n, longer, es[1..]);
    }
  }

  lemma {:induction false} ExecAppend(c: Chain, a: seq<Event>, b: seq<Event>)
    requires Shape(c) && CanRun(c, a) && CanRun(Exec(c, a), b)
    ensures CanRun(c, a + b) && Exec(c, a + b) == Exec(Exec(c, a), b)
    decreases |a|
  {
    hide Step, Enabled;
    if a == [] {
      assert a + b == b;
    } else {
      assert (a + b)[0] == a[0] && (a + b)[1..] == a[1..] + b;
      ExecAppend(Step(c, a[0]), a[1..], b);
    }
  }

  lemma ExecOne(c: Chain, e: Event)
    requires Shape(c) && Enabled(c, e)
    ensures CanRun(c, [e]) && Exec(c, [e]) == Step(c, e)
  {
    hide Step, Enabled;
    StepShape(c, e);
    assert [e][1..] == [];
  }

  // ---- Downwards ----

  // The bricks behind `from` take the command one after the other.
  function Takes(from: nat, bricks: nat): seq<Event>
    decreases bricks
  {
    if bricks == 0 then [] else [Take(from + 1)] + Takes(from + 1, bricks - 1)
  }

  ghost predicate DownEmpty(c: Chain)
    requires Shape(c)
  {
    forall b :: 0 <= b < |c.down| ==> c.down[b] == []
  }

  ghost predicate UpEmpty(c: Chain)
    requires Shape(c)
  {
    forall b :: 0 <= b < |c.up| ==> c.up[b] == []
  }

  /** In the row of `layer`, the bytes of the named ports are busy with these ages. */
  ghost predicate Marks(flags: seq<octet>, layer: nat, field: octet, cookies: seq<octet>)
    requires |flags| == FLAGS && |cookies| == FLAGS && layer < LAYERS
  {
    forall p :: 0 <= p < PORTS && Has(field, p) ==>
      Busy(flags[4 * layer + p]) && Age(flags[4 * layer + p]) == AgeOf(cookies[4 * layer + p])
  }

  /** Four cookies that tell the layer and carry the latest ages. */
  ghost predicate Tells(bytes: seq<octet>, layer: nat, field: octet, cookies: seq<octet>)
    requires |cookies| == FLAGS && layer < LAYERS
  {
    && |bytes| == PORTS && OrLayers(bytes) as nat == layer
    && forall p :: 0 <= p < PORTS && Has(field, p) ==>
         LayerOf(bytes[p]) as nat == layer && Busy(bytes[p]) && Age(bytes[p]) == AgeOf(cookies[4 * layer + p])
  }

  /** The command is on the link into brick j + 1, and bricks 0 to j know of it. */
  ghost predicate OnTheWay(c: Chain, layer: nat, field: octet, bytes: seq<octet>, j: nat)
    requires Shape(c)
  {
    && j <= layer < |c.bricks| && Tells(bytes, layer, field, c.cookies)
    && (forall b :: 0 <= b < |c.down| && b != j + 1 ==> c.down[b] == [])
    && (j < layer ==> c.down[j + 1] == [if j + 1 == layer then Direct(bytes) else Relayed(layer - j - 1, bytes)])
    && (j == layer ==> DownEmpty(c))
    && (forall b :: 1 <= b <= j ==> c.bricks[b].ownLayer == b)
    && (forall b :: 0 <= b <= j ==> Marks(c.bricks[b].flags, layer, field, c.cookies))
  }

  // Its own command, or one that it files under the layer the cookies name, puts the bytes in the row.
  lemma Stored(flags: seq<octet>, bytes: seq<octet>, layer: nat, field: octet, cookies: seq<octet>)
    requires |flags| == |cookies| == FLAGS && layer < LAYERS && Tells(bytes, layer, field, cookies)
    ensures Marks(StoreOwn(flags, layer, bytes), layer, field, cookies)
    ensures Marks(StoreRelayed(flags, bytes), layer, field, cookies)
  {
    hide OrLayers, LayerOf, Busy, Age, AgeOf, Has;
    forall p | 0 <= p < PORTS && Has(field, p)
      ensures StoreOwn(flags, layer, bytes)[4 * layer + p] == StoreRelayed(flags, bytes)[4 * layer + p] == bytes[p]
    {
      var s := 4 * layer + p;
      assert s / 4 == layer && s % 4 == p;
    }
  }

  lemma Taken(b: Brick, cmd: Command, layer: nat, field: octet, cookies: seq<octet>, place: nat)
    requires |b.flags| == |cookies| == FLAGS && 1 <= place <= layer < LAYERS
    requires |cmd.cookies| == PORTS && OrLayers(cmd.cookies) as nat == layer && Tells(cmd.cookies, layer, field, cookies)
    requires cmd == if place == layer then Direct(cmd.cookies) else Relayed(layer - place, cmd.cookies)
    ensures TakeBrick(b, cmd).ownLayer == place && Marks(TakeBrick(b, cmd).flags, layer, field, cookies)
  {
    hide OrLayers, Tells, Marks, StoreOwn, StoreRelayed;
    Stored(b.flags, cmd.cookies, layer, field, cookies);
    LayerIsSmall(OrLayers(cmd.cookies));
  }

  lemma LayerIsSmall(x: octet)
    requires x as nat < 4
    ensures x < 4
  {
  }

  lemma TakeMoves(c: Chain, layer: nat, field: octet, bytes: seq<octet>, j: nat)
    requires Shape(c) && OnTheWay(c, layer, field, bytes, j) && j < layer
    ensures Enabled(c, Take(j + 1))
    ensures Shape(Step(c, Take(j + 1))) && OnTheWay(Step(c, Take(j + 1)), layer, field, bytes, j + 1)
    ensures Step(c, Take(j + 1)).cookies == c.cookies && Step(c, Take(j + 1)).up == c.up
  {
    hide TakeBrick, Marks, Tells;
    StepShape(c, Take(j + 1));
    Told(bytes, layer, field, c.cookies);
    Taken(c.bricks[j + 1], c.down[j + 1][0], layer, field, c.cookies, j + 1);
  }

  lemma Told(bytes: seq<octet>, layer: nat, field: octet, cookies: seq<octet>)
    requires |cookies| == FLAGS && layer < LAYERS && Tells(bytes, layer, field, cookies)
    ensures |bytes| == PORTS && OrLayers(bytes) as nat == layer
  {
  }

  lemma {:induction false} AllTake(c: Chain, layer: nat, field: octet, bytes: seq<octet>, j: nat)
    requires Shape(c) && j <= layer && OnTheWay(c, layer, field, bytes, j)
    ensures CanRun(c, Takes(j, layer - j)) && OnTheWay(Exec(c, Takes(j, layer - j)), layer, field, bytes, layer)
    ensures Exec(c, Takes(j, layer - j)).cookies == c.cookies && Exec(c, Takes(j, layer - j)).up == c.up
    decreases layer - j
  {
    hide Step, Enabled, OnTheWay;
    if j < layer {
      TakeMoves(c, layer, field, bytes, j);
      AllTake(Step(c, Take(j + 1)), layer, field, bytes, j + 1);
      assert Takes(j, layer - j)[0] == Take(j + 1) && Takes(j, layer - j)[1..] == Takes(j + 1, layer - j - 1);
    }
  }

  lemma NewBytes(c: Chain, k: DaisyCookies.Known, layer: nat, field: octet)
    requires Shape(c) && DaisyCookies.Inv(c, k) && layer < LAYERS
    requires Enabled(c, Issue(layer, field)) && NoWrap(c, Issue(layer, field))
    ensures var bytes, cookies := NewCookies(c.cookies, layer, field), Issued(c.cookies, layer, field);
            && Tells(bytes, layer, field, cookies)
            && Marks(Marked(c.bricks[0].flags, layer, field, bytes), layer, field, cookies)
            && forall p :: 0 <= p < PORTS && Has(field, p) ==>
                 cookies[4 * layer + p] as nat == c.cookies[4 * layer + p] as nat + 1
  {
    hide AgeOf, NewCookies, Issued, Marked, Has, Age, Busy, LayerOf, OrLayers, DaisyCookies.Inv, Enabled, NoWrap;
    var bytes, cookies := NewCookies(c.cookies, layer, field), Issued(c.cookies, layer, field);
    LayersSaid(c, k, layer, field);
    forall p | 0 <= p < PORTS && Has(field, p)
      ensures LayerOf(bytes[p]) as nat == layer && Busy(bytes[p]) && Age(bytes[p]) == AgeOf(cookies[4 * layer + p])
      ensures Marked(c.bricks[0].flags, layer, field, bytes)[4 * layer + p] == bytes[p]
      ensures cookies[4 * layer + p] as nat == c.cookies[4 * layer + p] as nat + 1
    {
      NewMark(c, k, layer, field, p);
    }
  }

  lemma LayersSaid(c: Chain, k: DaisyCookies.Known, layer: nat, field: octet)
    requires Shape(c) && DaisyCookies.Inv(c, k) && layer < LAYERS && Enabled(c, Issue(layer, field))
    ensures OrLayers(NewCookies(c.cookies, layer, field)) as nat == layer
  {
    hide OrLayers, NewCookies, Has;
    MasterNumbers(c, k);
    LayersTold(c.cookies, layer, field);
    LayerNumber(layer);
  }

  lemma MasterNumbers(c: Chain, k: DaisyCookies.Known)
    requires Shape(c) && DaisyCookies.Inv(c, k)
    ensures forall s :: 0 <= s < FLAGS ==> c.cookies[s] <= 0x1F
  {
  }

  lemma NewMark(c: Chain, k: DaisyCookies.Known, layer: nat, field: octet, p: nat)
    requires Shape(c) && DaisyCookies.Inv(c, k) && layer < LAYERS && p < PORTS && Has(field, p)
    requires Enabled(c, Issue(layer, field)) && NoWrap(c, Issue(layer, field))
    ensures var bytes, cookies := NewCookies(c.cookies, layer, field), Issued(c.cookies, layer, field);
            && LayerOf(bytes[p]) as nat == layer && Busy(bytes[p]) && Age(bytes[p]) == AgeOf(cookies[4 * layer + p])
            && Marked(c.bricks[0].flags, layer, field, bytes)[4 * layer + p] == bytes[p]
            && cookies[4 * layer + p] as nat == c.cookies[4 * layer + p] as nat + 1
  {
    hide AgeOf, NewCookies, NextCookie, Has, Age, Busy, LayerOf, DaisyCookies.Inv;
    var s := 4 * layer + p;
    assert s / 4 == layer && s % 4 == p;
    DaisyCookies.NewByte(c, k, layer, field, p);
    NextNumber(c.cookies[s]);
  }

  lemma Issues(c: Chain, k: DaisyCookies.Known, layer: nat, field: octet)
    requires Shape(c) && DaisyCookies.Inv(c, k) && DownEmpty(c) && 1 <= layer < |c.bricks|
    requires Enabled(c, Issue(layer, field)) && NoWrap(c, Issue(layer, field))
    ensures var c' := Step(c, Issue(layer, field));
            Shape(c') && c'.up == c.up && OnTheWay(c', layer, field, NewCookies(c.cookies, layer, field), 0)
    ensures forall p :: 0 <= p < PORTS && Has(field, p) ==>
              Step(c, Issue(layer, field)).cookies[4 * layer + p] as nat == c.cookies[4 * layer + p] as nat + 1
  {
    hide NewCookies, Issued, Marked, Marks, Tells, Has, DaisyCookies.Inv;
    StepShape(c, Issue(layer, field));
    NewBytes(c, k, layer, field);
  }

  lemma NextNumber(cookie: octet)
    requires cookie < 0x1F
    ensures NextCookie(cookie) as nat == cookie as nat + 1
  {
  }

  /** The command, and every brick down to the one it names. */
  function Command(layer: nat, field: octet): seq<Event> { [Issue(layer, field)] + Takes(0, layer) }

  /** From any reachable state with empty links: a command whose numbers do not wrap is taken by every brick down to
      the one it names.  All of them then know their depth, and hold, like the master, a busy byte with the new
      number for each named port. */
  lemma Delivery(n: nat, run: seq<Event>, layer: nat, field: octet)
    requires 2 <= n <= LAYERS && Possible(n, run) && DaisyCookies.Wrapless(n, run) && 1 <= layer < n
    requires DownEmpty(After(n, run))
    requires Enabled(After(n, run), Issue(layer, field)) && NoWrap(After(n, run), Issue(layer, field))
    ensures Possible(n, run + Command(layer, field))
    ensures var before, c := After(n, run), After(n, run + Command(layer, field));
            && DownEmpty(c) && c.up == before.up
            && (forall b :: 1 <= b <= layer ==> c.bricks[b].ownLayer == b)
            && (forall b :: 0 <= b <= layer ==> Marks(c.bricks[b].flags, layer, field, c.cookies))
            && (forall p :: 0 <= p < PORTS && Has(field, p) ==>
                  c.cookies[4 * layer + p] as nat == before.cookies[4 * layer + p] as nat + 1)
  {
    hide Step, Enabled, NoWrap, Possible, After, Marks, Tells, DaisyCookies.Inv, AgeOf, Age, Busy, Has;
    var c := After(n, run);
    var bytes := NewCookies(c.cookies, layer, field);
    DaisyCookies.RunInv(n, run);
    Issues(c, DaisyCookies.History(n, run), layer, field);
    ExecOne(c, Issue(layer, field));
    AllTake(Step(c, Issue(layer, field)), layer, field, bytes, 0);
    ExecAppend(c, [Issue(layer, field)], Takes(0, layer));
    ExecIsAfter(n, run, Command(layer, field));
  }

  lemma CommandWrapless(n: nat, run: seq<Event>, layer: nat, field: octet)
    requires 2 <= n <= LAYERS && Possible(n, run) && DaisyCookies.Wrapless(n, run) && Possible(n, run + Command(layer, field))
    requires Enabled(After(n, run), Issue(layer, field)) && NoWrap(After(n, run), Issue(layer, field))
    ensures DaisyCookies.Wrapless(n, run + Command(layer, field))
  {
    hide After, Enabled, NoWrap;
    var longer := run + [Issue(layer, field)];
    assert longer[..|run|] == run;
    assert longer + Takes(0, layer) == run + Command(layer, field);
    TakeEvents(0, layer);
    StillWrapless(n, longer, Takes(0, layer));
  }

  lemma {:induction false} TakeEvents(from: nat, bricks: nat)
    ensures forall e :: e in Takes(from, bricks) ==> !e.Issue?
    decreases bricks
  {
    if bricks > 0 {
      TakeEvents(from + 1, bricks - 1);
    }
  }

  lemma {:induction false} StillWrapless(n: nat, run: seq<Event>, es: seq<Event>)
    requires 2 <= n <= LAYERS && Possible(n, run) && DaisyCookies.Wrapless(n, run) && Possible(n, run + es)
    requires forall e :: e in es ==> !e.Issue?
    ensures DaisyCookies.Wrapless(n, run + es)
  {
    hide After, Enabled;
    if es == [] {
      assert run + es == run;
    } else {
      var init := es[..|es| - 1];
      assert (run + es)[..|run + es| - 1] == run + init;
      StillWrapless(n, run, init);
    }
  }

  // ---- Upwards ----

  // Brick `b` and all above it report in turn, and the brick above polls the report.
  function Climb(b: nat, motors: seq<octet>, owns: seq<Record>): seq<Event>
    requires b < |motors| && b < |owns|
  {
    if b == 0 then [] else [Push(b, motors[b], owns[b]), Poll(b - 1)] + Climb(b - 1, motors, owns)
  }

  /** In the row of `layer`, the bytes of the named ports are busy exactly where the motors run. */
  ghost predicate Follows(flags: seq<octet>, layer: nat, field: octet, cookies: seq<octet>, motors: octet)
    requires |flags| == FLAGS && |cookies| == FLAGS && layer < LAYERS
  {
    forall p :: 0 <= p < PORTS && Has(field, p) ==>
      && (Busy(flags[4 * layer + p]) <==> Has(motors, p))
      && Age(flags[4 * layer + p]) == AgeOf(cookies[4 * layer + p])
  }

  /** The report has come up to brick `b`; those above still hold the command's bytes. */
  ghost predicate Reporting(c: Chain, layer: nat, field: octet, motors: octet, b: nat)
    requires Shape(c)
  {
    && b <= layer < |c.bricks| && UpEmpty(c)
    && (forall d :: 1 <= d <= layer ==> c.bricks[d].ownLayer == d)
    && (forall d :: 0 <= d < b || d == b == layer ==> Marks(c.bricks[d].flags, layer, field, c.cookies))
    && (b < layer ==> Follows(c.bricks[b].flags, layer, field, c.cookies, motors))
  }

  // What a brick reports of the row of `layer`.
  lemma Reported(flags: seq<octet>, own: nat, layer: nat, field: octet, cookies: seq<octet>, motors: octet, mine: octet)
    requires |flags| == |cookies| == FLAGS && own <= layer < LAYERS && (own == layer ==> mine == motors)
    requires if own == layer then Marks(flags, layer, field, cookies) else Follows(flags, layer, field, cookies, motors)
    ensures Follows(Refresh(flags, own, mine), layer, field, cookies, motors)
  {
    hide Busy, Age, AgeOf, Has, SetBusy, ClearBusy;
    var flags' := Refresh(flags, own, mine);
    forall p | 0 <= p < PORTS && Has(field, p)
      ensures Busy(flags'[4 * layer + p]) <==> Has(motors, p)
      ensures Age(flags'[4 * layer + p]) == AgeOf(cookies[4 * layer + p])
    {
      var s := 4 * layer + p;
      assert s / 4 == layer && s % 4 == p;
      BusyBits(flags[s]);
    }
  }

  lemma Merged(flags: seq<octet>, report: seq<octet>, layer: nat, field: octet, cookies: seq<octet>, motors: octet)
    requires |flags| == |report| == |cookies| == FLAGS && layer < LAYERS
    requires Marks(flags, layer, field, cookies) && Follows(report, layer, field, cookies, motors)
    ensures Follows(Merge(flags, report), layer, field, cookies, motors)
  {
    hide Busy, Age, AgeOf, Has, SetBusy, ClearBusy;
    forall p | 0 <= p < PORTS && Has(field, p)
      ensures Busy(Merge(flags, report)[4 * layer + p]) <==> Has(motors, p)
      ensures Age(Merge(flags, report)[4 * layer + p]) == AgeOf(cookies[4 * layer + p])
    {
      BusyBits(flags[4 * layer + p]);
    }
  }

  lemma ReportMoves(c: Chain, layer: nat, field: octet, motors: octet, b: nat, mine: octet, own: Record)
    requires Shape(c) && Reporting(c, layer, field, motors, b) && 0 < b && (b == layer ==> mine == motors)
    ensures var es := [Push(b, mine, own), Poll(b - 1)];
            && CanRun(c, es) && Reporting(Exec(c, es), layer, field, motors, b - 1)
            && Exec(c, es).cookies == c.cookies && Exec(c, es).down == c.down
  {
    hide Marks, Follows, Refresh, Merge, SetEntry, PushRecord, Exec, CanRun;
    var push, poll := Push(b, mine, own), Poll(b - 1);
    assert c.bricks[b].ownLayer == b;
    Reported(c.bricks[b].flags, b, layer, field, c.cookies, motors, mine);
    Merged(c.bricks[b - 1].flags, PushPacket(c.bricks[b], mine, own).flags, layer, field, c.cookies, motors);
    StepShape(c, push);
    StepShape(Step(c, push), poll);
    ExecOne(c, push);
    ExecOne(Step(c, push), poll);
    ExecAppend(c, [push], [poll]);
    assert [push] + [poll] == [push, poll];
  }

  lemma {:induction false} Climbs(c: Chain, layer: nat, field: octet, motors: seq<octet>, owns: seq<Record>, b: nat)
    requires Shape(c) && b <= layer < |motors| && layer < |owns| && Reporting(c, layer, field, motors[layer], b)
    ensures CanRun(c, Climb(b, motors, owns))
    ensures var c' := Exec(c, Climb(b, motors, owns));
            Reporting(c', layer, field, motors[layer], 0) && c'.cookies == c.cookies && c'.down == c.down
    decreases b
  {
    hide Reporting, Step, Enabled;
    if b > 0 {
      var es := [Push(b, motors[b], owns[b]), Poll(b - 1)];
      ReportMoves(c, layer, field, motors[layer], b, motors[b], owns[b]);
      Climbs(Exec(c, es), layer, field, motors, owns, b - 1);
      ExecAppend(c, es, Climb(b - 1, motors, owns));
    }
  }

  lemma {:induction false} ClimbEvents(b: nat, motors: seq<octet>, owns: seq<Record>)
    requires b < |motors| && b < |owns|
    ensures forall e :: e in Climb(b, motors, owns) ==> !e.Issue?
  {
    if b > 0 {
      ClimbEvents(b - 1, motors, owns);
    }
  }

  /** And back: when the bricks then report in turn, the master's busy bit of each named port is set exactly as long
      as that motor of the brick at `layer` runs, whatever the other bricks' motors do. */
  lemma ReportReturns(n: nat, run: seq<Event>, layer: nat, field: octet, motors: seq<octet>, owns: seq<Record>)
    requires 2 <= n <= LAYERS && Possible(n, run) && DaisyCookies.Wrapless(n, run) && 1 <= layer < n
    requires DownEmpty(After(n, run)) && UpEmpty(After(n, run)) && layer < |motors| && layer < |owns|
    requires Enabled(After(n, run), Issue(layer, field)) && NoWrap(After(n, run), Issue(layer, field))
    ensures var there := run + Command(layer, field);
            Possible(n, there) &&
            var flags := After(n, there).bricks[0].flags;
            forall p :: 0 <= p < PORTS && Has(field, p) ==> Busy(flags[4 * layer + p])
    ensures var back := run + Command(layer, field) + Climb(layer, motors, owns);
            Possible(n, back) && DaisyCookies.Wrapless(n, back) &&
            var c := After(n, back);
            && DownEmpty(c) && UpEmpty(c)
            && forall p :: 0 <= p < PORTS && Has(field, p) ==> (Busy(c.bricks[0].flags[4 * layer + p]) <==> Has(motors[layer], p))
  {
    hide Step, Enabled, NoWrap, CanRun, Exec, After, Possible, AgeOf, Age, Busy, Has, DaisyCookies.Wrapless;
    var there := run + Command(layer, field);
    Delivery(n, run, layer, field);
    CommandWrapless(n, run, layer, field);
    Climbs(After(n, there), layer, field, motors, owns, layer);
    ExecIsAfter(n, there, Climb(layer, motors, owns));
    ClimbEvents(layer, motors, owns);
    StillWrapless(n, there, Climb(layer, motors, owns));
  }

  // ---- Records ----

  /** A report that is polled at once puts one record into the table of the brick above, one layer further down: the
      port's own, or the one the reporting brick holds for a brick below. Every other entry stays. */
  lemma RecordClimbs(n: nat, run: seq<Event>, b: nat, motors: octet, own: Record)
    requires 2 <= n <= LAYERS && Possible(n, run) && 1 <= b < n && After(n, run).up[b] == []
    requires Enabled(After(n, run), Push(b, motors, own))
    ensures var es := [Push(b, motors, own), Poll(b - 1)];
            Possible(n, run + es) &&
            var c, c' := After(n, run), After(n, run + es);
            var brick, t := c.bricks[b], c'.bricks[b - 1].table;
            var layer, sensor := brick.readLayer, brick.readSensor;
            && DaisyTable.DownstreamData(t, layer + 1, DeviceNo(sensor)) ==
               (if layer == 0 then own else DaisyTable.DownstreamData(brick.table, layer, DeviceNo(sensor)))
            && forall l, s :: 1 <= l <= LAYERS && 0 <= s < SENSORS && (l, s) != (layer + 1, sensor) ==>
                 t[l - 1][s] == c.bricks[b - 1].table[l - 1][s]
  {
    hide Merge, Refresh, Exec, CanRun, Possible, After;
    var c := After(n, run);
    var push, poll := Push(b, motors, own), Poll(b - 1);
    StepShape(c, push);
    StepShape(Step(c, push), poll);
    ExecOne(c, push);
    ExecOne(Step(c, push), poll);
    ExecAppend(c, [push], [poll]);
    assert [push] + [poll] == [push, poll];
    ExecIsAfter(n, run, [push, poll]);
  }

  /** An entry that is marked has its new status and keeps the rest of its record; a row that is reset is invalid in
      every entry. */
  lemma TablesMarked(n: nat, run: seq<Event>, b: nat, row: nat, sensor: nat, status: int)
    requires 2 <= n <= LAYERS && Possible(n, run) && b < n && row < LAYERS && sensor < SENSORS && status != STATUS_OK
    ensures var e := MarkEntry(b, row, sensor, status);
            Possible(n, run + [e]) &&
            var t, t' := After(n, run).bricks[b].table, After(n, run + [e]).bricks[b].table;
            && t'[row][sensor] == Record(status, t[row][sensor].kind, t[row][sensor].mode, t[row][sensor].data)
            && forall r, s :: 0 <= r < LAYERS && 0 <= s < SENSORS && (r, s) != (row, sensor) ==> t'[r][s] == t[r][s]
    ensures var e := ResetTable(b, row);
            Possible(n, run + [e]) &&
            var t, t' := After(n, run).bricks[b].table, After(n, run + [e]).bricks[b].table;
            && (forall s :: 0 <= s < SENSORS ==> t'[row][s].status == STATUS_FAIL)
            && forall r :: 0 <= r < LAYERS && r != row ==> t'[r] == t[r]
  {
    hide Exec, CanRun, Possible, After;
    var c := After(n, run);
    ExecOne(c, MarkEntry(b, row, sensor, status));
    ExecIsAfter(n, run, [MarkEntry(b, row, sensor, status)]);
    ExecOne(c, ResetTable(b, row));
    ExecIsAfter(n, run, [ResetTable(b, row)]);
  }
}
