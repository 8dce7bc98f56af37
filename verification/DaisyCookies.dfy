/** Cookie safety: the master's busy bit of a port below falls only after the brick at that depth
    stored the latest cookie of the port and then reported the port's motor idle. */
module DaisyCookies {
  import opened Octets
  import opened DaisyFlags
  import opened DaisyChain

  /** What has truly happened: (slot, age) pairs some brick stored as its own, and those it later
      reported with the motor idle while it still held them. */
  datatype Known = Known(stored: set<(nat, octet)>, confirmed: set<(nat, octet)>)

  ghost function Learn(c: Chain, e: Event, k: Known): Known
    requires Shape(c) && Enabled(c, e)
  {
    match e
    case Take(b) =>
      if c.down[b][0].Direct? then k.(stored := k.stored + OwnCookies(b, c.down[b][0].cookies)) else k
    case Push(b, motors, own) =>
      k.(confirmed := k.confirmed + IdleReports(c.bricks[b], b, motors, k.stored))
    case _ => k
  }

  ghost function OwnCookies(b: nat, cookies: seq<octet>): set<(nat, octet)>
    requires |cookies| == PORTS
  {
    set p: nat | p < PORTS :: (4 * b + p, Age(cookies[p]))
  }

  /** Brick `b` knows its depth and pushes; these motors are idle and these cookies were stored. */
  ghost function IdleReports(brick: Brick, b: nat, motors: octet, stored: set<(nat, octet)>): set<(nat, octet)>
    requires |brick.flags| == FLAGS && b < LAYERS
  {
    set s: nat | 4 * b <= s < 4 * b + PORTS && brick.ownLayer == b && !Has(motors, s % 4) &&
                 (s, Age(brick.flags[s])) in stored :: (s, Age(brick.flags[s]))
  }

  // The invariant

  ghost predicate Good(cookies: seq<octet>, k: Known, s: nat, x: octet)
    requires |cookies| == FLAGS && s < FLAGS
  {
    && Age(x) <= AgeOf(cookies[s])
    && (Busy(x) || Age(x) == 0 || Confirmed(k, s, Age(x)))
  }

  /** The age, or a later one, was reported idle. */
  ghost predicate Confirmed(k: Known, s: nat, age: octet) {
    exists a :: (s, a) in k.confirmed && age <= a
  }

  ghost predicate GoodFlags(cookies: seq<octet>, k: Known, flags: seq<octet>)
    requires |cookies| == FLAGS && |flags| == FLAGS
  {
    forall s :: PORTS <= s < FLAGS ==> Good(cookies, k, s, flags[s])
  }

  /** The layer a command on the link into brick `b` is for. */
  function Target(b: nat, cmd: Command): nat {
    match cmd case Direct(_) => b case Relayed(layer, _) => b + layer
  }

  ghost predicate GoodCookie(cookies: seq<octet>, layer: nat, p: nat, x: octet)
    requires |cookies| == FLAGS && layer < LAYERS && p < PORTS
  {
    x == 0 || (LayerOf(x) as nat == layer && Busy(x) && Age(x) <= AgeOf(cookies[4 * layer + p]))
  }

  ghost predicate GoodCommand(cookies: seq<octet>, b: nat, cmd: Command)
    requires |cookies| == FLAGS
  {
    && |cmd.cookies| == PORTS && 1 <= b
    && (cmd.Relayed? ==> 1 <= cmd.layer)
    && Target(b, cmd) < LAYERS && OrLayers(cmd.cookies) as nat == Target(b, cmd)
    && forall p :: 0 <= p < PORTS ==> GoodCookie(cookies, Target(b, cmd), p, cmd.cookies[p])
  }

  ghost predicate KnownOk(cookies: seq<octet>, k: Known)
    requires |cookies| == FLAGS
  {
    && (forall s, a :: (s, a) in k.stored ==> s < FLAGS && a <= AgeOf(cookies[s]))
    && k.confirmed <= k.stored
  }

  ghost predicate OwnRowStored(k: Known, b: nat, flags: seq<octet>)
    requires |flags| == FLAGS && b < LAYERS
  {
    forall s :: 4 * b <= s < 4 * b + PORTS && Age(flags[s]) != 0 ==> (s, Age(flags[s])) in k.stored
  }

  ghost predicate MasterOk(cookies: seq<octet>, flags: seq<octet>)
    requires |cookies| == FLAGS && |flags| == FLAGS
  {
    && (forall s :: 0 <= s < FLAGS ==> cookies[s] <= 0x1F)
    && (forall s :: PORTS <= s < FLAGS ==> Age(flags[s]) == AgeOf(cookies[s]) && (Busy(flags[s]) ==> cookies[s] != 0))
  }

  ghost predicate BrickOk(cookies: seq<octet>, k: Known, b: nat, brick: Brick)
    requires |cookies| == FLAGS && |brick.flags| == FLAGS && b < LAYERS
  {
    && GoodFlags(cookies, k, brick.flags)
    && (b > 0 ==> (brick.ownLayer == 0 || brick.ownLayer == b) && OwnRowStored(k, b, brick.flags))
  }

  ghost predicate Inv(c: Chain, k: Known)
    requires Shape(c)
  {
    && KnownOk(c.cookies, k)
    && MasterOk(c.cookies, c.bricks[0].flags)
    && (forall b :: 0 <= b < |c.bricks| ==> BrickOk(c.cookies, k, b, c.bricks[b]))
    && (forall b, i :: 0 <= b < |c.up| && 0 <= i < |c.up[b]| ==> GoodFlags(c.cookies, k, c.up[b][i].flags))
    && (forall b, i :: 0 <= b < |c.down| && 0 <= i < |c.down[b]| ==> GoodCommand(c.cookies, b, c.down[b][i]))
  }

  // Sequence numbers and knowledge only grow.

  ghost predicate Later(cookies: seq<octet>, cookies': seq<octet>)
    requires |cookies| == |cookies'| == FLAGS
  {
    forall s :: 0 <= s < FLAGS ==> AgeOf(cookies[s]) <= AgeOf(cookies'[s])
  }

  ghost predicate More(k: Known, k': Known) {
    k.stored <= k'.stored && k.confirmed <= k'.confirmed
  }

  lemma GoodStays(cookies: seq<octet>, k: Known, cookies': seq<octet>, k': Known, s: nat, x: octet)
    requires |cookies| == |cookies'| == FLAGS && Later(cookies, cookies') && More(k, k')
    requires s < FLAGS && Good(cookies, k, s, x)
    ensures Good(cookies', k', s, x)
  {
    hide AgeOf, Age, Busy;
  }

  lemma GoodFlagsStay(cookies: seq<octet>, k: Known, cookies': seq<octet>, k': Known, flags: seq<octet>)
    requires |cookies| == |cookies'| == FLAGS && Later(cookies, cookies') && More(k, k')
    requires |flags| == FLAGS && GoodFlags(cookies, k, flags)
    ensures GoodFlags(cookies', k', flags)
  {
    hide Good;
    forall s | PORTS <= s < FLAGS
      ensures Good(cookies', k', s, flags[s])
    {
      GoodStays(cookies, k, cookies', k', s, flags[s]);
    }
  }

  lemma GoodCommandStays(cookies: seq<octet>, cookies': seq<octet>, b: nat, cmd: Command)
    requires |cookies| == |cookies'| == FLAGS && Later(cookies, cookies') && GoodCommand(cookies, b, cmd)
    ensures GoodCommand(cookies', b, cmd)
  {
    hide AgeOf, Age, Busy, LayerOf, OrLayers;
    forall p | 0 <= p < PORTS
      ensures GoodCookie(cookies', Target(b, cmd), p, cmd.cookies[p])
    {
      assert GoodCookie(cookies, Target(b, cmd), p, cmd.cookies[p]);
    }
  }

  /** Everything untouched by a step stays as good as it was. */
  lemma InvGrows(c: Chain, k: Known, cookies': seq<octet>, k': Known)
    requires Shape(c) && Inv(c, k) && |cookies'| == FLAGS && Later(c.cookies, cookies') && More(k, k')
    ensures forall b :: 0 <= b < |c.bricks| ==> BrickOk(cookies', k', b, c.bricks[b])
    ensures forall b, i :: 0 <= b < |c.up| && 0 <= i < |c.up[b]| ==> GoodFlags(cookies', k', c.up[b][i].flags)
    ensures forall b, i :: 0 <= b < |c.down| && 0 <= i < |c.down[b]| ==> GoodCommand(cookies', b, c.down[b][i])
  {
    hide GoodFlags, GoodCommand, Later;
    forall b | 0 <= b < |c.bricks|
      ensures BrickOk(cookies', k', b, c.bricks[b])
    {
      GoodFlagsStay(c.cookies, k, cookies', k', c.bricks[b].flags);
    }
    forall b, i | 0 <= b < |c.up| && 0 <= i < |c.up[b]|
      ensures GoodFlags(cookies', k', c.up[b][i].flags)
    {
      GoodFlagsStay(c.cookies, k, cookies', k', c.up[b][i].flags);
    }
    forall b, i | 0 <= b < |c.down| && 0 <= i < |c.down[b]|
      ensures GoodCommand(cookies', b, c.down[b][i])
    {
      GoodCommandStays(c.cookies, cookies', b, c.down[b][i]);
    }
  }

  // One lemma per event.

  lemma CookiesGrow(c: Chain, k: Known, layer: nat, field: octet)
    requires Shape(c) && Inv(c, k) && Enabled(c, Issue(layer, field)) && NoWrap(c, Issue(layer, field))
    ensures Later(c.cookies, Issued(c.cookies, layer, field))
    ensures forall s :: 0 <= s < FLAGS ==> Issued(c.cookies, layer, field)[s] <= 0x1F
  {
    hide AgeOf, NextCookie, Has;
    var cookies' := Issued(c.cookies, layer, field);
    forall s | 0 <= s < FLAGS
      ensures AgeOf(c.cookies[s]) <= AgeOf(cookies'[s]) && cookies'[s] <= 0x1F
    {
      if s / 4 == layer && Has(field, s % 4) {
        assert s == 4 * layer + s % 4;
        CookieOrder(c.cookies[s]);
      }
    }
  }

  /** The bytes of a new command, port by port. */
  lemma NewByte(c: Chain, k: Known, layer: nat, field: octet, p: nat)
    requires Shape(c) && Inv(c, k) && Enabled(c, Issue(layer, field)) && NoWrap(c, Issue(layer, field)) && p < PORTS && Has(field, p)
    ensures var x := NewCookies(c.cookies, layer, field)[p];
            LayerOf(x) as nat == layer && Busy(x) && Age(x) == AgeOf(Issued(c.cookies, layer, field)[4 * layer + p])
  {
    hide AgeOf, CookieByte, NextCookie, Has, Age, Busy, LayerOf;
    var s := 4 * layer + p;
    assert s / 4 == layer && s % 4 == p;
    CookieOrder(c.cookies[s]);
    CookieBits(NextCookie(c.cookies[s]), LayerBits(layer));
    LayerNumber(layer);
  }

  lemma NewCommandGood(c: Chain, k: Known, layer: nat, field: octet)
    requires Shape(c) && Inv(c, k) && Enabled(c, Issue(layer, field)) && NoWrap(c, Issue(layer, field))
    ensures GoodCommand(Issued(c.cookies, layer, field), 1, Decorate(layer, NewCookies(c.cookies, layer, field)))
  {
    hide AgeOf, NewCookies, Issued, Has, Age, Busy, LayerOf, OrLayers;
    var cookies := NewCookies(c.cookies, layer, field);
    LayersTold(c.cookies, layer, field);
    LayerNumber(layer);
    forall p | 0 <= p < PORTS
      ensures GoodCookie(Issued(c.cookies, layer, field), layer, p, cookies[p])
    {
      if Has(field, p) {
        NewByte(c, k, layer, field, p);
      } else {
        NoCookie(c.cookies, layer, field, p);
      }
    }
  }

  lemma NoCookie(master: seq<octet>, layer: nat, field: octet, p: nat)
    requires |master| == FLAGS && layer < LAYERS && p < PORTS && !Has(field, p)
    ensures NewCookies(master, layer, field)[p] == 0
  {
  }

  lemma MasterMarked(c: Chain, k: Known, layer: nat, field: octet)
    requires Shape(c) && Inv(c, k) && Enabled(c, Issue(layer, field)) && NoWrap(c, Issue(layer, field))
    ensures var cookies' := Issued(c.cookies, layer, field);
            var flags' := Marked(c.bricks[0].flags, layer, field, NewCookies(c.cookies, layer, field));
            MasterOk(cookies', flags') && GoodFlags(cookies', k, flags') && KnownOk(cookies', k)
  {
    hide AgeOf, NewCookies, Has, Age, Busy, Issued, Marked, Good;
    CookiesGrow(c, k, layer, field);
    forall s: nat | PORTS <= s < FLAGS {
      MarkedSlot(c, k, layer, field, s);
    }
  }

  lemma MarkedSlot(c: Chain, k: Known, layer: nat, field: octet, s: nat)
    requires Shape(c) && Inv(c, k) && Enabled(c, Issue(layer, field)) && NoWrap(c, Issue(layer, field))
    requires PORTS <= s < FLAGS
    ensures var cookies' := Issued(c.cookies, layer, field);
            var x := Marked(c.bricks[0].flags, layer, field, NewCookies(c.cookies, layer, field))[s];
            Age(x) == AgeOf(cookies'[s]) && Good(cookies', k, s, x) && (Busy(x) ==> cookies'[s] != 0)
  {
    hide AgeOf, NewCookies, Has, Age, Busy, LayerOf, LayerBits, NextCookie, Good;
    var cookies' := Issued(c.cookies, layer, field);
    var x := Marked(c.bricks[0].flags, layer, field, NewCookies(c.cookies, layer, field))[s];
    if s / 4 == layer && Has(field, s % 4) {
      assert s == 4 * layer + s % 4;
      NewByte(c, k, layer, field, s % 4);
      CookieOrder(c.cookies[s]);
      NotZero(NextCookie(c.cookies[s]));
      BusyIsGood(cookies', k, s, x);
    } else {
      assert cookies'[s] == c.cookies[s] && x == c.bricks[0].flags[s];
      UnmarkedSlot(c, k, layer, field, s);
    }
  }

  lemma UnmarkedSlot(c: Chain, k: Known, layer: nat, field: octet, s: nat)
    requires Shape(c) && Inv(c, k) && Enabled(c, Issue(layer, field)) && NoWrap(c, Issue(layer, field))
    requires PORTS <= s < FLAGS
    ensures Good(Issued(c.cookies, layer, field), k, s, c.bricks[0].flags[s])
  {
    hide AgeOf, Issued, Has, Age, Busy, Good;
    CookiesGrow(c, k, layer, field);
    assert GoodFlags(c.cookies, k, c.bricks[0].flags);
    GoodStays(c.cookies, k, Issued(c.cookies, layer, field), k, s, c.bricks[0].flags[s]);
  }

  lemma NotZero(cookie: octet)
    requires AgeOf(cookie) != 0
    ensures cookie != 0
  {
  }

  lemma BusyIsGood(cookies: seq<octet>, k: Known, s: nat, x: octet)
    requires |cookies| == FLAGS && s < FLAGS && Busy(x) && Age(x) <= AgeOf(cookies[s])
    ensures Good(cookies, k, s, x)
  {
  }

  lemma IssueKeeps(c: Chain, k: Known, layer: nat, field: octet)
    requires Shape(c) && Inv(c, k) && Enabled(c, Issue(layer, field)) && NoWrap(c, Issue(layer, field))
    ensures Shape(IssueStep(c, layer, field)) && Inv(IssueStep(c, layer, field), k)
  {
    StepShape(c, Issue(layer, field));
    var cookies := NewCookies(c.cookies, layer, field);
    var cookies' := Issued(c.cookies, layer, field);
    var c' := IssueStep(c, layer, field);
    CookiesGrow(c, k, layer, field);
    InvGrows(c, k, cookies', k);
    NewCommandGood(c, k, layer, field);
    MasterMarked(c, k, layer, field);
    forall b, i | 0 <= b < |c'.down| && 0 <= i < |c'.down[b]|
      ensures GoodCommand(cookies', b, c'.down[b][i])
    {
      if i < |c.down[b]| {
        assert c'.down[b][i] == c.down[b][i];
      }
    }
  }

  /** A brick's new row after its own command is good and stored. */
  lemma OwnCommandKeeps(c: Chain, k: Known, b: nat)
    requires Shape(c) && Inv(c, k) && Enabled(c, Take(b)) && c.down[b][0].Direct?
    ensures var k' := Learn(c, Take(b), k);
            More(k, k') && KnownOk(c.cookies, k') &&
            BrickOk(c.cookies, k', b, TakeBrick(c.bricks[b], c.down[b][0]))
  {
    hide AgeOf, Age, Busy, LayerOf, OrLayers, StoreOwn, OwnCookies, GoodFlags, OwnRowStored, GoodCookie, KnownOk;
    var cmd := c.down[b][0];
    assert GoodCommand(c.cookies, b, cmd);
    assert BrickOk(c.cookies, k, b, c.bricks[b]);
    OwnCookiesKnown(c.cookies, k, b, cmd.cookies);
    OwnRowGood(c.cookies, k, b, c.bricks[b].flags, cmd.cookies);
  }

  lemma OwnCookiesKnown(cookies: seq<octet>, k: Known, b: nat, own: seq<octet>)
    requires |cookies| == FLAGS && KnownOk(cookies, k) && 1 <= b < LAYERS && |own| == PORTS
    requires forall p :: 0 <= p < PORTS ==> GoodCookie(cookies, b, p, own[p])
    ensures KnownOk(cookies, k.(stored := k.stored + OwnCookies(b, own)))
  {
    hide AgeOf, Age, GoodCookie;
    forall s, a | (s, a) in OwnCookies(b, own)
      ensures s < FLAGS && a <= AgeOf(cookies[s])
    {
      var p: nat :| p < PORTS && (s, a) == (4 * b + p, Age(own[p]));
      CookieAge(cookies, b, p, own[p]);
    }
  }

  lemma OwnRowGood(cookies: seq<octet>, k: Known, b: nat, flags: seq<octet>, own: seq<octet>)
    requires |cookies| == |flags| == FLAGS && 1 <= b < LAYERS && |own| == PORTS
    requires GoodFlags(cookies, k, flags)
    requires forall p :: 0 <= p < PORTS ==> GoodCookie(cookies, b, p, own[p])
    ensures var k' := k.(stored := k.stored + OwnCookies(b, own));
            GoodFlags(cookies, k', StoreOwn(flags, b, own)) && OwnRowStored(k', b, StoreOwn(flags, b, own))
  {
    hide AgeOf, Age, Busy, GoodCookie;
    var flags' := StoreOwn(flags, b, own);
    var k' := k.(stored := k.stored + OwnCookies(b, own));
    forall s | PORTS <= s < FLAGS
      ensures Good(cookies, k', s, flags'[s]) && (s / 4 == b ==> (s, Age(flags'[s])) in k'.stored)
    {
      if s / 4 == b {
        var p := s % 4;
        assert s == 4 * b + p && flags'[s] == own[p];
        assert (4 * b + p, Age(own[p])) in OwnCookies(b, own);
        CookieAge(cookies, b, p, own[p]);
      } else {
        assert Good(cookies, k, s, flags[s]);
      }
    }
  }

  lemma CookieAge(cookies: seq<octet>, layer: nat, p: nat, x: octet)
    requires |cookies| == FLAGS && layer < LAYERS && p < PORTS && GoodCookie(cookies, layer, p, x)
    ensures Age(x) <= AgeOf(cookies[4 * layer + p]) && (Busy(x) || Age(x) == 0)
  {
    BusyBits(x);
  }

  /** A brick that passes a command on files it without claiming to have stored it. */
  lemma RelayedCommandKeeps(c: Chain, k: Known, b: nat)
    requires Shape(c) && Inv(c, k) && Enabled(c, Take(b)) && c.down[b][0].Relayed?
    ensures BrickOk(c.cookies, k, b, TakeBrick(c.bricks[b], c.down[b][0]))
    ensures b + 1 < |c.bricks| ==> GoodCommand(c.cookies, b + 1, PassOn(c.down[b][0]))
  {
    hide AgeOf, Age, Busy, LayerOf, OrLayers, GoodCookie, StoreRelayed, GoodFlags, OwnRowStored;
    var cmd := c.down[b][0];
    assert GoodCommand(c.cookies, b, cmd);
    assert BrickOk(c.cookies, k, b, c.bricks[b]);
    RelayedRow(c.cookies, k, b, b + cmd.layer, c.bricks[b].flags, cmd.cookies);
  }

  lemma RelayedRow(cookies: seq<octet>, k: Known, b: nat, layer: nat, flags: seq<octet>, relayed: seq<octet>)
    requires |cookies| == |flags| == FLAGS && |relayed| == PORTS && 1 <= b < layer < LAYERS
    requires GoodFlags(cookies, k, flags) && OwnRowStored(k, b, flags)
    requires forall p :: 0 <= p < PORTS ==> GoodCookie(cookies, layer, p, relayed[p])
    ensures GoodFlags(cookies, k, StoreRelayed(flags, relayed)) && OwnRowStored(k, b, StoreRelayed(flags, relayed))
  {
    hide AgeOf, Age, Busy, LayerOf;
    var flags' := StoreRelayed(flags, relayed);
    forall s | PORTS <= s < FLAGS
      ensures Good(cookies, k, s, flags'[s]) && (s / 4 == b ==> flags'[s] == flags[s])
    {
      var x := relayed[s % 4];
      assert GoodCookie(cookies, layer, s % 4, x);
      CookieAge(cookies, layer, s % 4, x);
      BusyBits(0);
      assert s == 4 * (s / 4) + s % 4;
    }
  }

  lemma TakeKeeps(c: Chain, k: Known, b: nat)
    requires Shape(c) && Inv(c, k) && Enabled(c, Take(b))
    ensures Shape(TakeStep(c, b)) && Inv(TakeStep(c, b), Learn(c, Take(b), k))
  {
    hide GoodFlags, GoodCommand, OwnRowStored, BrickOk, TakeBrick, PassOn, KnownOk, MasterOk;
    StepShape(c, Take(b));
    var c', k' := TakeStep(c, b), Learn(c, Take(b), k);
    if c.down[b][0].Direct? {
      OwnCommandKeeps(c, k, b);
    } else {
      RelayedCommandKeeps(c, k, b);
    }
    LaterSame(c.cookies);
    InvGrows(c, k, c.cookies, k');
    forall d, i | 0 <= d < |c'.down| && 0 <= i < |c'.down[d]|
      ensures GoodCommand(c'.cookies, d, c'.down[d][i])
    {
      if d == b {
        assert c'.down[d][i] == c.down[d][i + 1];
      } else if i < |c.down[d]| {
        assert c'.down[d][i] == c.down[d][i];
      }
    }
  }

  lemma LaterSame(cookies: seq<octet>)
    requires |cookies| == FLAGS
    ensures Later(cookies, cookies)
  {
  }

  /** A push changes busy bits of the brick's own row only, and only with its motors. */
  lemma PushBrickKeeps(c: Chain, k: Known, b: nat, motors: octet, own: Record)
    requires Shape(c) && Inv(c, k) && Enabled(c, Push(b, motors, own))
    ensures var k' := Learn(c, Push(b, motors, own), k);
            More(k, k') && KnownOk(c.cookies, k') &&
            BrickOk(c.cookies, k', b, PushBrick(c.bricks[b], motors))
  {
    hide AgeOf, Age, Busy, Has, SetBusy, ClearBusy, Refresh, IdleReports, GoodFlags;
    var k' := Learn(c, Push(b, motors, own), k);
    var brick := c.bricks[b];
    assert BrickOk(c.cookies, k, b, brick);
    IdleReportsStored(brick, b, motors, k.stored);
    RefreshedGood(c.cookies, k, b, brick, motors);
    RefreshedAges(brick.flags, brick.ownLayer, motors);
  }

  lemma IdleReportsStored(brick: Brick, b: nat, motors: octet, stored: set<(nat, octet)>)
    requires |brick.flags| == FLAGS && b < LAYERS
    ensures IdleReports(brick, b, motors, stored) <= stored
  {
  }

  lemma RefreshedAges(flags: seq<octet>, own: nat, motors: octet)
    requires |flags| == FLAGS && own < LAYERS
    ensures forall s :: 0 <= s < FLAGS ==> Age(Refresh(flags, own, motors)[s]) == Age(flags[s])
  {
    hide Age, SetBusy, ClearBusy, Has;
    forall s | 0 <= s < FLAGS
      ensures Age(Refresh(flags, own, motors)[s]) == Age(flags[s])
    {
      BusyBits(flags[s]);
    }
  }

  lemma RefreshedGood(cookies: seq<octet>, k: Known, b: nat, brick: Brick, motors: octet)
    requires |cookies| == |brick.flags| == FLAGS && 1 <= b < LAYERS && BrickOk(cookies, k, b, brick)
    requires 0 <= brick.ownLayer < LAYERS
    ensures var k' := k.(confirmed := k.confirmed + IdleReports(brick, b, motors, k.stored));
            GoodFlags(cookies, k', Refresh(brick.flags, brick.ownLayer, motors))
  {
    hide AgeOf, Age, Busy, Has, SetBusy, ClearBusy;
    var k' := k.(confirmed := k.confirmed + IdleReports(brick, b, motors, k.stored));
    var flags, flags' := brick.flags, Refresh(brick.flags, brick.ownLayer, motors);
    forall s | PORTS <= s < FLAGS
      ensures Good(cookies, k', s, flags'[s])
    {
      BusyBits(flags[s]);
      GoodStays(cookies, k, cookies, k', s, flags[s]);
      if s / 4 == brick.ownLayer && !Has(motors, s % 4) && Age(flags[s]) != 0 {
        assert (s, Age(flags[s])) in IdleReports(brick, b, motors, k.stored);
      }
    }
  }

  lemma PushKeeps(c: Chain, k: Known, b: nat, motors: octet, own: Record)
    requires Shape(c) && Inv(c, k) && Enabled(c, Push(b, motors, own))
    ensures Shape(PushStep(c, b, motors, own)) &&
            Inv(PushStep(c, b, motors, own), Learn(c, Push(b, motors, own), k))
  {
    hide GoodCommand, OwnRowStored, PushRecord, KnownOk, MasterOk, GoodFlags, Refresh;
    StepShape(c, Push(b, motors, own));
    var c', k' := PushStep(c, b, motors, own), Learn(c, Push(b, motors, own), k);
    PushBrickKeeps(c, k, b, motors, own);
    LaterSame(c.cookies);
    InvGrows(c, k, c.cookies, k');
    forall d, i | 0 <= d < |c'.up| && 0 <= i < |c'.up[d]|
      ensures GoodFlags(c'.cookies, k', c'.up[d][i].flags)
    {
      if i < |c.up[d]| {
        assert c'.up[d][i] == c.up[d][i];
      }
    }
  }

  /** A report merged into good bytes leaves them good; ages do not change. */
  lemma MergeKeeps(cookies: seq<octet>, k: Known, flags: seq<octet>, report: seq<octet>, s: nat)
    requires |cookies| == |flags| == |report| == FLAGS && s < FLAGS
    requires Good(cookies, k, s, flags[s]) && Good(cookies, k, s, report[s])
    ensures Good(cookies, k, s, Merge(flags, report)[s]) && Age(Merge(flags, report)[s]) == Age(flags[s])
    ensures Busy(Merge(flags, report)[s]) ==> Busy(flags[s])
  {
    hide AgeOf, Age, Busy, ClearBusy;
    BusyBits(flags[s]);
  }

  lemma PollKeeps(c: Chain, k: Known, b: nat)
    requires Shape(c) && Inv(c, k) && Enabled(c, Poll(b))
    ensures Shape(PollStep(c, b)) && Inv(PollStep(c, b), k)
  {
    hide GoodCommand, KnownOk, Good, Merge, SetEntry, AgeOf, Age, Busy;
    StepShape(c, Poll(b));
    var c' := PollStep(c, b);
    var flags, report := c.bricks[b].flags, c.up[b + 1][0].flags;
    assert BrickOk(c.cookies, k, b, c.bricks[b]);
    assert GoodFlags(c.cookies, k, report);
    forall s | PORTS <= s < FLAGS
      ensures Good(c.cookies, k, s, c'.bricks[b].flags[s]) && Age(c'.bricks[b].flags[s]) == Age(flags[s])
      ensures Busy(c'.bricks[b].flags[s]) ==> Busy(flags[s])
    {
      MergeKeeps(c.cookies, k, flags, report, s);
    }
    forall d, i | 0 <= d < |c'.up| && 0 <= i < |c'.up[d]|
      ensures GoodFlags(c'.cookies, k, c'.up[d][i].flags)
    {
      assert c'.up[d][i] == c.up[d][if d == b + 1 then i + 1 else i];
    }
  }

  lemma LossKeeps(c: Chain, k: Known, e: Event)
    requires Shape(c) && Inv(c, k) && Enabled(c, e)
    requires e.LoseCommand? || e.LosePacket? || e.MarkEntry? || e.ResetTable?
    ensures Shape(Step(c, e)) && Inv(Step(c, e), k)
  {
    hide GoodCommand, KnownOk, MasterOk, GoodFlags, OwnRowStored, SetEntry;
    StepShape(c, e);
    var c' := Step(c, e);
    forall d, i | 0 <= d < |c'.up| && 0 <= i < |c'.up[d]|
      ensures GoodFlags(c'.cookies, k, c'.up[d][i].flags)
    {
      assert c'.up[d][i] == c.up[d][if e.LosePacket? && d == e.brick && i >= e.k then i + 1 else i];
    }
    forall d, i | 0 <= d < |c'.down| && 0 <= i < |c'.down[d]|
      ensures GoodCommand(c'.cookies, d, c'.down[d][i])
    {
      assert c'.down[d][i] == c.down[d][if e.LoseCommand? && d == e.brick && i >= e.k then i + 1 else i];
    }
  }

  /** Every event keeps the invariant. */
  lemma StepKeeps(c: Chain, k: Known, e: Event)
    requires Shape(c) && Inv(c, k) && Enabled(c, e) && NoWrap(c, e)
    ensures Shape(Step(c, e)) && Inv(Step(c, e), Learn(c, e, k))
  {
    hide Inv, IssueStep, TakeStep, PushStep, PollStep;
    match e
    case Issue(layer, field) => IssueKeeps(c, k, layer, field);
    case Take(b) => TakeKeeps(c, k, b);
    case Push(b, motors, own) => PushKeeps(c, k, b, motors, own);
    case Poll(b) => PollKeeps(c, k, b);
    case _ => LossKeeps(c, k, e);
  }

  // Whole runs

  ghost predicate Wrapless(n: nat, run: seq<Event>)
    requires 2 <= n <= LAYERS && Possible(n, run)
  {
    run == [] ||
    (Wrapless(n, run[..|run| - 1]) && NoWrap(After(n, run[..|run| - 1]), run[|run| - 1]))
  }

  ghost function History(n: nat, run: seq<Event>): Known
    requires 2 <= n <= LAYERS && Possible(n, run)
  {
    if run == [] then Known({}, {})
    else
      var init := run[..|run| - 1];
      Learn(After(n, init), run[|run| - 1], History(n, init))
  }

  /** At step `i` the brick of slot `s` takes its own command, with a cookie of this age. */
  ghost predicate StoredAt(n: nat, run: seq<Event>, i: nat, s: nat, age: octet)
    requires 2 <= n <= LAYERS && i < |run|
  {
    && Possible(n, run[..i]) && run[i].Take? && run[i].brick == s / 4
    && var c := After(n, run[..i]);
       && Enabled(c, run[i]) && c.down[s / 4][0].Direct? && Age(c.down[s / 4][0].cookies[s % 4]) == age
  }

  /** At step `j` that brick pushes a report while it holds this age and the motor is idle. */
  ghost predicate ReportedAt(n: nat, run: seq<Event>, j: nat, s: nat, age: octet)
    requires 2 <= n <= LAYERS && j < |run| && s < FLAGS
  {
    && Possible(n, run[..j]) && run[j].Push? && run[j].brick == s / 4 && !Has(run[j].motors, s % 4)
    && var c := After(n, run[..j]);
       && Enabled(c, run[j]) && c.bricks[s / 4].ownLayer == s / 4 && Age(c.bricks[s / 4].flags[s]) == age
  }

  lemma InitInv(n: nat)
    requires 2 <= n <= LAYERS
    ensures Inv(Init(n), Known({}, {}))
  {
    BusyBits(0);
    AgeOfZero();
    hide Age, AgeOf, Busy, LayerOf;
  }

  lemma AgeOfZero()
    ensures AgeOf(0) == 0
  {
  }

  lemma {:induction false} RunInv(n: nat, run: seq<Event>)
    requires 2 <= n <= LAYERS && Possible(n, run) && Wrapless(n, run)
    ensures Inv(After(n, run), History(n, run))
  {
    hide Inv, Learn, Step, Enabled, NoWrap;
    if run == [] {
      InitInv(n);
    } else {
      var init := run[..|run| - 1];
      RunInv(n, init);
      StepKeeps(After(n, init), History(n, init), run[|run| - 1]);
    }
  }

  lemma {:induction false} StoredHappened(n: nat, run: seq<Event>, s: nat, age: octet) returns (i: nat)
    requires 2 <= n <= LAYERS && Possible(n, run) && (s, age) in History(n, run).stored
    ensures i < |run| && StoredAt(n, run, i, s, age)
  {
    hide After, Step, Age;
    var last := |run| - 1;
    var init := run[..last];
    if (s, age) in History(n, init).stored {
      i := StoredHappened(n, init, s, age);
      assert run[..i] == init[..i];
    } else {
      i := last;
      var b := run[last].brick;
      var cookies := After(n, init).down[b][0].cookies;
      var p: nat :| p < PORTS && (s, age) == (4 * b + p, Age(cookies[p]));
      assert s / 4 == b && s % 4 == p;
    }
  }

  lemma {:induction false} ConfirmedHappened(n: nat, run: seq<Event>, s: nat, age: octet) returns (i: nat, j: nat)
    requires 2 <= n <= LAYERS && Possible(n, run) && (s, age) in History(n, run).confirmed && s < FLAGS
    ensures i < j < |run| && StoredAt(n, run, i, s, age) && ReportedAt(n, run, j, s, age)
  {
    hide After, Step, Age, Has;
    var last := |run| - 1;
    var init := run[..last];
    if (s, age) in History(n, init).confirmed {
      i, j := ConfirmedHappened(n, init, s, age);
      assert run[..i] == init[..i] && run[..j] == init[..j];
    } else {
      j := last;
      i := StoredHappened(n, init, s, age);
      assert run[..i] == init[..i];
    }
  }

  /** Cookie safety.  In any run in which no sequence number wraps: if an event makes the master's
      busy bit of a port below fall, then the brick at that depth had stored the latest cookie of
      the port and had later reported the motor idle while holding it.  A stale report never does it. */
  lemma CookieSafety(n: nat, run: seq<Event>, e: Event, s: nat)
    requires 2 <= n <= LAYERS && PORTS <= s < FLAGS
    requires Possible(n, run) && Wrapless(n, run) && Enabled(After(n, run), e) && NoWrap(After(n, run), e)
    requires Busy(After(n, run).bricks[0].flags[s]) && !Busy(Step(After(n, run), e).bricks[0].flags[s])
    ensures exists i, j :: 0 <= i < j < |run| &&
              StoredAt(n, run, i, s, AgeOf(After(n, run).cookies[s])) &&
              ReportedAt(n, run, j, s, AgeOf(After(n, run).cookies[s]))
  {
    var c, k := After(n, run), History(n, run);
    RunInv(n, run);
    StepKeeps(c, k, e);
    FallsByPoll(c, k, e, s);
    assert BrickOk(c.cookies, k, 0, Step(c, e).bricks[0]);
    LatestConfirmed(c, k, Step(c, e).bricks[0].flags, s);
    var i, j := ConfirmedHappened(n, run, s, AgeOf(c.cookies[s]));
  }

  lemma FallsByPoll(c: Chain, k: Known, e: Event, s: nat)
    requires Shape(c) && Inv(c, k) && Enabled(c, e) && NoWrap(c, e) && PORTS <= s < FLAGS
    requires Busy(c.bricks[0].flags[s]) && !Busy(Step(c, e).bricks[0].flags[s])
    ensures e == Poll(0)
    ensures Learn(c, e, k) == k && Step(c, e).cookies == c.cookies
  {
    hide Busy, AgeOf, Age, Inv;
    if e.Issue? && s / 4 == e.layer && Has(e.field, s % 4) {
      assert s == 4 * e.layer + s % 4;
      NewByte(c, k, e.layer, e.field, s % 4);
    }
  }

  lemma LatestConfirmed(c: Chain, k: Known, flags: seq<octet>, s: nat)
    requires Shape(c) && Inv(c, k) && |flags| == FLAGS && PORTS <= s < FLAGS
    requires MasterOk(c.cookies, flags) && GoodFlags(c.cookies, k, flags)
    requires !Busy(flags[s]) && c.cookies[s] != 0
    ensures (s, AgeOf(c.cookies[s])) in k.confirmed
  {
  }

  /** A brick never believes in a layer other than its depth, so it can always report. */
  lemma OwnLayerIsDepth(n: nat, run: seq<Event>, b: nat, motors: octet, own: Record)
    requires 2 <= n <= LAYERS && Possible(n, run) && Wrapless(n, run) && 1 <= b < n
    ensures After(n, run).bricks[b].ownLayer in {0, b as int}
    ensures Enabled(After(n, run), Push(b, motors, own))
  {
    RunInv(n, run);
    assert BrickOk(After(n, run).cookies, History(n, run), b, After(n, run).bricks[b]);
  }

  // Without the wrap condition the claim is false.

  /** `k` commands to port 0 of layer 1, none of which has arrived yet. */
  function Commands(k: nat): seq<Event> {
    seq(k, _ => Issue(1, 1))
  }

  lemma {:induction false} AfterCommands(k: nat)
    requires k <= 32
    ensures Possible(2, Commands(k))
    ensures var c := After(2, Commands(k));
            c.cookies[4] as nat == k % 32 && c.bricks[1] == NewBrick() && c.up[1] == [] &&
            (k > 0 ==> c.bricks[0].flags[4] == CookieByte(c.cookies[4], 1))
  {
    hide CookieByte, Step, NextCookie;
    PortZero();
    if k > 0 {
      AfterCommands(k - 1);
      assert Commands(k)[..k - 1] == Commands(k - 1);
      var c := After(2, Commands(k - 1));
      NextCount(k, c.cookies[4]);
      OneCommand(c);
    }
  }

  lemma OneCommand(c: Chain)
    requires Shape(c) && Enabled(c, Issue(1, 1))
    ensures var c' := Step(c, Issue(1, 1));
            c'.cookies[4] == NextCookie(c.cookies[4]) && c'.bricks[0].flags[4] == CookieByte(c'.cookies[4], 1) &&
            c'.bricks[1] == c.bricks[1] && c'.up == c.up
  {
    hide CookieByte, NextCookie;
    PortZero();
  }

  lemma PortZero()
    ensures Has(1, 0)
  {
  }

  lemma NextCount(k: nat, cookie: octet)
    requires 1 <= k <= 32 && cookie as nat == (k - 1) % 32
    ensures NextCookie(cookie) as nat == k % 32
  {
  }

  /** After 32 commands the sequence number is 0 again, and a report made before any of them arrived
      clears the busy bit although the brick never stored a cookie. */
  lemma WrapBreaksSafety() returns (run: seq<Event>)
    ensures Possible(2, run + [Poll(0)])
    ensures Busy(After(2, run).bricks[0].flags[4]) && !Busy(After(2, run + [Poll(0)]).bricks[0].flags[4])
    ensures forall i :: 0 <= i < |run| ==> !run[i].Take?
  {
    hide CookieByte, Busy, Age, ClearBusy;
    var commands := Commands(32);
    AfterCommands(32);
    var c0 := After(2, commands);
    run := commands + [Push(1, 0, NoRecord)];
    assert run[..|run| - 1] == commands;
    var c1 := After(2, run);
    assert (run + [Poll(0)])[..|run|] == run;
    assert c1.up[1] == [PushPacket(NewBrick(), 0, NoRecord)];
    assert c1.bricks[0].flags[4] == CookieByte(0, 1);
    CookieBits(0, 1);
    BusyBits(0);
    BusyBits(CookieByte(0, 1));
    AgeOfZero();
    assert c1.up[1][0].flags[4] == 0;
  }
}
