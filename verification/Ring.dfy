/** The ring buffer between the Bluetooth side and the I2C thread: two masked pointers, each moved by one
    thread only, over a buffer of 1024 bytes. */
module Ring {
  import opened Bytes

  const SIZE := 1024          // MODE2BUF_SIZE; the masks of the macros are tied to these remainders in RingMasks
  const MIN_MSG_LEN := 6
  const TMP_SIZE := 151       // of TmpBuf, I2CBUF_SIZE + 1

  datatype Mem = Mem(buf: seq<byte>, inPtr: nat, outPtr: nat)

  predicate Valid(m: Mem) {
    |m.buf| == SIZE && m.inPtr < SIZE && m.outPtr < SIZE
  }

  // BUFBytesFree
  function Free(m: Mem): nat { (m.outPtr - m.inPtr - 1) % SIZE }

  // BUFBytesAvail
  function Avail(m: Mem): nat { (m.inPtr - m.outPtr) % SIZE }

  function Store(m: Mem, b: byte): (r: Mem)
    requires Valid(m)
    ensures Valid(r)
  {
    m.(buf := m.buf[m.inPtr := b])
  }

  function Load(m: Mem): byte
    requires Valid(m)
  {
    m.buf[m.outPtr]
  }

  // BUFAddInPtr(1)
  function AdvanceIn(m: Mem): (r: Mem)
    requires Valid(m)
    ensures Valid(r)
  {
    m.(inPtr := (m.inPtr + 1) % SIZE)
  }

  // BUFAddOutPtr(1)
  function AdvanceOut(m: Mem): (r: Mem)
    requires Valid(m)
    ensures Valid(r)
  {
    m.(outPtr := (m.outPtr + 1) % SIZE)
  }

  // The place of the byte that is `i` after the next to be read.
  function Slot(m: Mem, i: nat): nat { (m.outPtr + i) % SIZE }

  // The queue that the two pointers stand for.
  function Contents(m: Mem): (q: seq<byte>)
    requires Valid(m)
    ensures |q| == Avail(m)
  {
    seq(Avail(m), i requires 0 <= i < Avail(m) => m.buf[Slot(m, i)])
  }

  // ---- One step of either thread on the queue ----

  /** Every byte of the buffer but one is either free or available. */
  lemma Room(m: Mem)
    requires Valid(m)
    ensures Avail(m) + Free(m) == SIZE - 1
  {
    var d := m.inPtr - m.outPtr;
    assert Avail(m) == if d < 0 then d + SIZE else d;
    assert Free(m) == if d >= 0 then SIZE - 1 - d else -d - 1;
  }

  lemma Wrapped(m: Mem, i: nat)
    requires Valid(m) && i < SIZE
    ensures Slot(m, i) == if m.outPtr + i < SIZE then m.outPtr + i else m.outPtr + i - SIZE
    ensures Avail(m) == if m.inPtr < m.outPtr then m.inPtr - m.outPtr + SIZE else m.inPtr - m.outPtr
    ensures Avail(m) + Free(m) == SIZE - 1
  {
    Room(m);
  }

  lemma StoreHidden(m: Mem, b: byte)
    requires Valid(m) && Free(m) > 0
    ensures Contents(Store(m, b)) == Contents(m) && Store(m, b).buf[m.inPtr] == b
  {
    hide Slot, Free;
    Wrapped(m, 0);
    var r := Store(m, b);
    forall i | 0 <= i < Avail(m) ensures Contents(r)[i] == Contents(m)[i] {
      Wrapped(m, i);
      Wrapped(r, i);
    }
  }

  lemma InAppends(m: Mem)
    requires Valid(m) && Free(m) > 0
    ensures Contents(AdvanceIn(m)) == Contents(m) + [m.buf[m.inPtr]]
    ensures Avail(AdvanceIn(m)) == Avail(m) + 1 && Free(AdvanceIn(m)) == Free(m) - 1
  {
    hide Slot, Free, Avail;
    var r := AdvanceIn(m);
    Wrapped(m, 0);
    Wrapped(r, 0);
    forall i | 0 <= i <= Avail(m) ensures Contents(r)[i] == (Contents(m) + [m.buf[m.inPtr]])[i] {
      Wrapped(m, i);
      Wrapped(r, i);
    }
  }

  lemma OutRemoves(m: Mem)
    requires Valid(m) && Avail(m) > 0
    ensures Contents(m) == [Load(m)] + Contents(AdvanceOut(m))
    ensures Avail(AdvanceOut(m)) == Avail(m) - 1 && Free(AdvanceOut(m)) == Free(m) + 1
  {
    hide Slot, Free, Avail;
    var r := AdvanceOut(m);
    Wrapped(m, 0);
    Wrapped(r, 0);
    forall i | 0 <= i < Avail(m) ensures Contents(m)[i] == ([Load(m)] + Contents(r))[i] {
      Wrapped(m, i);
      if i > 0 {
        Wrapped(r, i - 1);
      }
    }
  }

  /** Mode2InBuf, used by one thread at a time. */
  class Mode2Buf {
    const buf: array<byte>
    var inPtr: nat
    var outPtr: nat

    ghost predicate Ready()
      reads this
    {
      buf.Length == SIZE && inPtr < SIZE && outPtr < SIZE
    }

    ghost function Now(): (m: Mem)
      reads this, buf
      ensures Ready() ==> Valid(m)
    {
      Mem(buf[..], inPtr, outPtr)
    }

    constructor ()
      ensures Ready() && fresh(buf) && Contents(Now()) == []
    {
      buf := new byte[SIZE](_ => 0);
      inPtr, outPtr := 0, 0;
    }

    method BytesFree() returns (n: nat)
      requires Ready()
      ensures n == Free(Now())
    {
      n := (outPtr - inPtr - 1) % SIZE;
    }

    method BytesAvail() returns (n: nat)
      requires Ready()
      ensures n == Avail(Now())
    {
      n := (inPtr - outPtr) % SIZE;
    }

    method DataToMode2Decoding(pBuf: seq<byte>) returns (bytesAccepted: nat)
      requires Ready()
      modifies this`inPtr, buf
      ensures Ready() && bytesAccepted == if |pBuf| > old(Free(Now())) then old(Free(Now())) else |pBuf|
      ensures Contents(Now()) == old(Contents(Now())) + pBuf[..bytesAccepted]
    {
      hide Contents, Free, Avail;
      bytesAccepted := 0;
      var bytesFree := BytesFree();
      assert old(Contents(Now())) + pBuf[..0] == old(Contents(Now()));
      if bytesFree != 0 {
        var transferred := if |pBuf| > bytesFree then bytesFree else |pBuf|;
        var cnt := 0;
        while cnt < transferred
          invariant Ready() && cnt <= transferred
          invariant Free(Now()) == bytesFree - cnt
          invariant Contents(Now()) == old(Contents(Now())) + pBuf[..cnt]
        {
          ghost var m := Now();
          StoreHidden(m, pBuf[cnt]);
          StoreRoom(m, pBuf[cnt]);
          InAppends(Store(m, pBuf[cnt]));
          buf[inPtr] := pBuf[cnt];
          inPtr := (inPtr + 1) % SIZE;
          assert Now() == AdvanceIn(Store(m, pBuf[cnt]));
          assert pBuf[..cnt + 1] == pBuf[..cnt] + [pBuf[cnt]];
          cnt := cnt + 1;
        }
        bytesAccepted := transferred;
      }
    }

    // The copy loop shared by 'W' and 'I', into TmpBuf from place `at` on
    method Take(n: nat, at: nat) returns (inside: bool, tmpBuf: seq<byte>)
      requires Ready() && n <= Avail(Now()) && at <= TMP_SIZE
      modifies this`outPtr
      ensures Ready() && (inside <==> at + n <= TMP_SIZE)
      ensures inside ==> |tmpBuf| == n
      ensures old(Contents(Now())) == tmpBuf + Contents(Now())
    {
      hide Contents, Free, Avail;
      tmpBuf := [];
      ghost var q := Contents(Now());
      while |tmpBuf| < n
        invariant Ready() && |tmpBuf| <= n && at + |tmpBuf| <= TMP_SIZE
        invariant Avail(Now()) >= n - |tmpBuf|
        invariant q == tmpBuf + Contents(Now())
      {
        if at + |tmpBuf| == TMP_SIZE {
          return false, tmpBuf;
        }
        ghost var m := Now();
        OutRemoves(m);
        tmpBuf := tmpBuf + [buf[outPtr]];
        outPtr := (outPtr + 1) % SIZE;
        assert Now() == AdvanceOut(m);
      }
      inside := true;
    }

    // Case 'W': at most `request` bytes are sent on.
    method SendWaiting(request: nat) returns (inside: bool, sent: seq<byte>)
      requires Ready()
      modifies this`outPtr
      ensures Ready() && (inside <==> Min(old(Avail(Now())), request) <= TMP_SIZE)
      ensures inside ==> |sent| == Min(old(Avail(Now())), request)
      ensures old(Contents(Now())) == sent + Contents(Now())
    {
      var bytesToTx := BytesAvail();
      inside, sent := true, [];
      if bytesToTx != 0 {
        if bytesToTx > request {
          bytesToTx := request;
        }
        inside, sent := Take(bytesToTx, 0);
      }
    }

    // Case 'I': a shortest message behind a 0xFF, when there is one.
    method SendMessage() returns (sent: seq<byte>)
      requires Ready()
      modifies this`outPtr
      ensures Ready()
      ensures if old(Avail(Now())) >= MIN_MSG_LEN then
                |sent| == MIN_MSG_LEN + 1 && sent[0] == 0xFF && old(Contents(Now())) == sent[1..] + Contents(Now())
              else sent == [] && Now() == old(Now())
    {
      var bytesAvail := BytesAvail();
      sent := [];
      if MIN_MSG_LEN <= bytesAvail {
        var inside, tmpBuf := Take(MIN_MSG_LEN, 1);
        sent := [0xFF] + tmpBuf;
      }
    }
  }

  /** 152 bytes are there and asked for. */
  method LongRequest() returns (inside: bool)
    ensures !inside
  {
    hide Contents, Free;
    var m := new Mode2Buf();
    Room(m.Now());
    var accepted := m.DataToMode2Decoding(seq(TMP_SIZE + 1, _ => 0));
    var sent;
    inside, sent := m.SendWaiting(TMP_SIZE + 1);
  }

  lemma StoreRoom(m: Mem, b: byte)
    requires Valid(m)
    ensures Free(Store(m, b)) == Free(m) && Avail(Store(m, b)) == Avail(m)
  {
  }

  // ---- Two threads, interleaved step by step ----

  // `base` is how many bytes had been accepted, or taken, when the call began.
  datatype Producer =
    | Away(data: seq<byte>, accepted: nat, base: nat)               // the last call and what it returned
    | Storing(data: seq<byte>, n: nat, cnt: nat, base: nat)         // about to store data[cnt]
    | Stored(data: seq<byte>, n: nat, cnt: nat, base: nat)          // about to move InPtr

  datatype Consumer =
    | Resting(tmpBuf: seq<byte>, base: nat)                         // the last bytes taken
    | Loading(n: nat, tmpBuf: seq<byte>, base: nat)                 // about to load a byte
    | Loaded(n: nat, tmpBuf: seq<byte>, base: nat)                  // about to move OutPtr

  // `accepted` and `taken` are the bytes that have passed InPtr and OutPtr since the start.
  datatype State = State(mem: Mem, producer: Producer, consumer: Consumer, accepted: seq<byte>, taken: seq<byte>)

  datatype Event =
    | Offer(data: seq<byte>)       // DataToMode2Decoding is entered and reads the room
    | Produce                      // its next step
    | Wanted(request: nat)         // case 'W' is entered and reads what is available
    | Message                      // case 'I' is entered
    | Consume                      // the consumer's next step

  function Init(): State {
    State(Mem(seq(SIZE, _ => 0), 0, 0), Away([], 0, 0), Resting([], 0), [], [])
  }

  function After(s: State, e: Event): (t: State)
    requires Valid(s.mem)
    ensures Valid(t.mem)
  {
    match e
    case Offer(data) =>
      if !s.producer.Away? then s else
      var n := Min(|data|, Free(s.mem));
      s.(producer := if n == 0 then Away(data, 0, |s.accepted|) else Storing(data, n, 0, |s.accepted|))
    case Produce =>
      (match s.producer
       case Storing(data, n, cnt, base) =>
         if cnt < |data| then s.(mem := Store(s.mem, data[cnt]), producer := Stored(data, n, cnt, base)) else s
       case Stored(data, n, cnt, base) =>
         s.(mem := AdvanceIn(s.mem), accepted := s.accepted + [s.mem.buf[s.mem.inPtr]],
            producer := if cnt + 1 < n then Storing(data, n, cnt + 1, base) else Away(data, n, base))
       case Away(_, _, _) => s)
    case Wanted(request) =>
      if !s.consumer.Resting? then s else
      var n := Min(Avail(s.mem), request);
      s.(consumer := if n == 0 then Resting([], |s.taken|) else Loading(n, [], |s.taken|))
    case Message =>
      if s.consumer.Resting? && MIN_MSG_LEN <= Avail(s.mem) then s.(consumer := Loading(MIN_MSG_LEN, [], |s.taken|)) else s
    case Consume =>
      match s.consumer
      case Loading(n, tmpBuf, base) => s.(consumer := Loaded(n, tmpBuf + [Load(s.mem)], base))
      case Loaded(n, tmpBuf, base) =>
        s.(mem := AdvanceOut(s.mem), taken := s.taken + (if tmpBuf == [] then [] else [tmpBuf[|tmpBuf| - 1]]),
           consumer := if |tmpBuf| < n then Loading(n, tmpBuf, base) else Resting(tmpBuf, base))
      case Resting(_, _) => s
  }

  function Run(s: State, es: seq<Event>): (t: State)
    requires Valid(s.mem)
    ensures Valid(t.mem)
    decreases |es|
  {
    if es == [] then s else Run(After(s, es[0]), es[1..])
  }

  // The bytes a call has moved so far are the first bytes of its data.
  predicate Moved(all: seq<byte>, base: nat, data: seq<byte>, n: nat) {
    base + n <= |all| && n <= |data| && all[base..base + n] == data[..n]
  }

  predicate ProducerOk(s: State)
    requires Valid(s.mem)
  {
    match s.producer
    case Away(data, n, base) => Moved(s.accepted, base, data, n)
    case Storing(data, n, cnt, base) =>
      cnt < n <= |data| && n - cnt <= Free(s.mem) && Moved(s.accepted, base, data, cnt) && |s.accepted| == base + cnt
    case Stored(data, n, cnt, base) =>
      && cnt < n <= |data| && n - cnt <= Free(s.mem) && Moved(s.accepted, base, data, cnt) && |s.accepted| == base + cnt
      && s.mem.buf[s.mem.inPtr] == data[cnt]
  }

  predicate ConsumerOk(s: State)
    requires Valid(s.mem)
  {
    match s.consumer
    case Resting(tmpBuf, base) => Moved(s.taken, base, tmpBuf, |tmpBuf|)
    case Loading(n, tmpBuf, base) =>
      |tmpBuf| < n && n - |tmpBuf| <= Avail(s.mem) && Moved(s.taken, base, tmpBuf, |tmpBuf|) && |s.taken| == base + |tmpBuf|
    case Loaded(n, tmpBuf, base) =>
      && 0 < |tmpBuf| <= n && n - |tmpBuf| < Avail(s.mem) && tmpBuf[|tmpBuf| - 1] == Load(s.mem)
      && Moved(s.taken, base, tmpBuf, |tmpBuf| - 1) && |s.taken| == base + |tmpBuf| - 1
  }

  predicate Sound(s: State)
    requires Valid(s.mem)
  {
    s.taken + Contents(s.mem) == s.accepted && ProducerOk(s) && ConsumerOk(s)
  }

  lemma MovedOne(all: seq<byte>, base: nat, data: seq<byte>, n: nat)
    requires Moved(all, base, data, n) && base + n == |all| && n < |data|
    ensures Moved(all + [data[n]], base, data, n + 1)
  {
    assert data[..n + 1] == data[..n] + [data[n]];
  }

  lemma MovedLonger(all: seq<byte>, base: nat, data: seq<byte>, b: byte)
    requires Moved(all, base, data, |data|)
    ensures Moved(all, base, data + [b], |data|)
  {
    assert (data + [b])[..|data|] == data;
  }

  lemma MovedNothing(all: seq<byte>, data: seq<byte>)
    ensures Moved(all, |all|, data, 0)
  {
  }

  lemma ProduceStep(s: State)
    requires Valid(s.mem) && Sound(s)
    ensures var q, t := Contents(s.mem), After(s, Produce);
            && Sound(t)
            && if s.producer.Stored? then |q| < SIZE - 1 && Contents(t.mem) == q + [s.producer.data[s.producer.cnt]]
               else Contents(t.mem) == q
  {
    hide Contents, Free, Avail, Moved;
    Room(s.mem);
    if s.producer.Storing? {
      var b := s.producer.data[s.producer.cnt];
      StoreHidden(s.mem, b);
      StoreRoom(s.mem, b);
      if Avail(s.mem) > 0 {
        StoreLoad(s.mem, b);
      }
    } else if s.producer.Stored? {
      InAppends(s.mem);
      MovedOne(s.accepted, s.producer.base, s.producer.data, s.producer.cnt);
    }
  }

  lemma ConsumeStep(s: State)
    requires Valid(s.mem) && Sound(s)
    ensures var q, t := Contents(s.mem), After(s, Consume);
            && Sound(t)
            && if s.consumer.Loaded? then q == [s.consumer.tmpBuf[|s.consumer.tmpBuf| - 1]] + Contents(t.mem)
               else Contents(t.mem) == q
  {
    hide Contents, Free, Avail, Moved;
    match s.consumer {
      case Loaded(n, tmpBuf, base) =>
        OutRemoves(s.mem);
        MovedOne(s.taken, base, tmpBuf, |tmpBuf| - 1);
      case Loading(n, tmpBuf, base) =>
        MovedLonger(s.taken, base, tmpBuf, Load(s.mem));
      case Resting(_, _) =>
    }
  }

  /** One step of either thread puts one byte at the back of the queue, takes one from its front, or leaves
      the queue alone: a store never lands on a byte that is still to be read. */
  lemma FifoStep(s: State, e: Event)
    requires Valid(s.mem) && Sound(s)
    ensures var q, r := Contents(s.mem), Contents(After(s, e).mem);
            if e.Produce? && s.producer.Stored? then |q| < SIZE - 1 && r == q + [s.producer.data[s.producer.cnt]]
            else if e.Consume? && s.consumer.Loaded? then q == [s.consumer.tmpBuf[|s.consumer.tmpBuf| - 1]] + r
            else r == q
    ensures Sound(After(s, e))
  {
    hide Contents, Free, Avail, Moved;
    match e {
      case Produce => ProduceStep(s);
      case Consume => ConsumeStep(s);
      case Offer(data) => MovedNothing(s.accepted, data);
      case Wanted(request) => MovedNothing(s.taken, []);
      case Message => MovedNothing(s.taken, []);
    }
  }

  lemma StoreLoad(m: Mem, b: byte)
    requires Valid(m) && Avail(m) > 0
    ensures Load(Store(m, b)) == Load(m)
  {
  }

  lemma InitSound()
    ensures Sound(Init())
  {
    assert Contents(Init().mem) == [];
  }

  lemma {:induction false} SoundRun(s: State, es: seq<Event>)
    requires Valid(s.mem) && Sound(s)
    ensures Sound(Run(s, es))
    decreases |es|
  {
    hide After, Sound;
    if es == [] {
    } else {
      FifoStep(s, es[0]);
      SoundRun(After(s, es[0]), es[1..]);
    }
  }

  /** In every interleaving, the bytes taken followed by those in the buffer are the bytes accepted, and what
      the last finished call of each thread returned is what it moved. */
  lemma RingSafety(es: seq<Event>)
    ensures var s := Run(Init(), es);
            && s.taken + Contents(s.mem) == s.accepted
            && Avail(s.mem) + Free(s.mem) == SIZE - 1
            && (s.producer.Away? ==> Moved(s.accepted, s.producer.base, s.producer.data, s.producer.accepted))
            && (s.consumer.Resting? ==> Moved(s.taken, s.consumer.base, s.consumer.tmpBuf, |s.consumer.tmpBuf|))
  {
    InitSound();
    SoundRun(Init(), es);
    Room(Run(Init(), es).mem);
  }

  predicate FitsTmpBuf(c: Consumer) {
    |c.tmpBuf| <= TMP_SIZE && (!c.Resting? ==> c.n <= TMP_SIZE)
  }

  /** And as long as no more than its size is asked for at once, the consumer's buffer is not left. */
  lemma {:induction false} TmpBufKept(s: State, es: seq<Event>)
    requires Valid(s.mem) && Sound(s) && FitsTmpBuf(s.consumer)
    requires forall e :: e in es ==> e.Wanted? ==> e.request <= TMP_SIZE
    ensures FitsTmpBuf(Run(s, es).consumer)
    decreases |es|
  {
    hide Contents, Free, Avail, Moved;
    if es == [] {
    } else {
      FifoStep(s, es[0]);
      TmpBufKept(After(s, es[0]), es[1..]);
    }
  }

  // ---- A call comes to its end with the count it decided on when it was entered ----

  function StepsLeft(p: Producer): nat {
    match p
    case Away(_, _, _) => 0
    case Storing(_, n, cnt, _) => if cnt < n then 2 * (n - cnt) else 0
    case Stored(_, n, cnt, _) => if cnt < n then 2 * (n - cnt) - 1 else 0
  }

  function Produces(es: seq<Event>): nat {
    if es == [] then 0 else (if es[0].Produce? then 1 else 0) + Produces(es[1..])
  }

  lemma {:induction false} CallGoesOn(s: State, es: seq<Event>)
    requires Valid(s.mem) && Sound(s) && forall e :: e in es ==> !e.Offer?
    ensures var p, r := s.producer, Run(s, es).producer;
            && r.data == p.data && r.base == p.base
            && (if r.Away? then r.accepted else r.n) == (if p.Away? then p.accepted else p.n)
            && StepsLeft(r) == (if Produces(es) >= StepsLeft(p) then 0 else StepsLeft(p) - Produces(es))
            && Sound(Run(s, es))
    decreases |es|
  {
    hide Contents, Free, Avail, Moved;
    if es == [] {
    } else {
      FifoStep(s, es[0]);
      CallGoesOn(After(s, es[0]), es[1..]);
    }
  }

  /** A call made while the thread is free returns, after two steps for each byte and whatever the other
      thread does meanwhile, the smaller of what it was given and the room there was when it was entered. */
  lemma OfferReturns(before: seq<Event>, data: seq<byte>, es: seq<Event>)
    requires forall e :: e in es ==> !e.Offer?
    requires Run(Init(), before).producer.Away?
    requires Produces(es) >= 2 * Min(|data|, Free(Run(Init(), before).mem))
    ensures var s := Run(Init(), before);
            Run(After(s, Offer(data)), es).producer == Away(data, Min(|data|, Free(s.mem)), |s.accepted|)
  {
    hide Contents, Free, Avail, Moved;
    InitSound();
    SoundRun(Init(), before);
    var s := Run(Init(), before);
    FifoStep(s, Offer(data));
    CallGoesOn(After(s, Offer(data)), es);
  }

  // ---- The same of the consumer ----

  function StepsToRest(c: Consumer): nat {
    match c
    case Resting(_, _) => 0
    case Loading(n, tmpBuf, _) => if |tmpBuf| < n then 2 * (n - |tmpBuf|) else 0
    case Loaded(n, tmpBuf, _) => if |tmpBuf| <= n then 2 * (n - |tmpBuf|) + 1 else 0
  }

  function Consumes(es: seq<Event>): nat {
    if es == [] then 0 else (if es[0].Consume? then 1 else 0) + Consumes(es[1..])
  }

  // How many bytes the call that is going on, or the last, takes in all.
  function Wants(c: Consumer): nat { if c.Resting? then |c.tmpBuf| else c.n }

  lemma {:induction false} RequestGoesOn(s: State, es: seq<Event>)
    requires Valid(s.mem) && Sound(s) && forall e :: e in es ==> !e.Wanted? && !e.Message?
    ensures var c, r := s.consumer, Run(s, es).consumer;
            && r.base == c.base && Wants(r) == Wants(c)
            && StepsToRest(r) == (if Consumes(es) >= StepsToRest(c) then 0 else StepsToRest(c) - Consumes(es))
            && Sound(Run(s, es))
    decreases |es|
  {
    hide Contents, Free, Avail, Moved;
    if es == [] {
    } else {
      FifoStep(s, es[0]);
      RequestGoesOn(After(s, es[0]), es[1..]);
    }
  }

  lemma {:induction false} AcceptedStays(s: State, es: seq<Event>)
    requires Valid(s.mem)
    ensures s.accepted <= Run(s, es).accepted
    decreases |es|
  {
    if es == [] {
    } else {
      AcceptedStays(After(s, es[0]), es[1..]);
    }
  }

  lemma FrontOf(taken: seq<byte>, queue: seq<byte>, later: seq<byte>, n: nat)
    requires taken + queue <= later && n <= |queue|
    ensures later[|taken|..|taken| + n] == queue[..n]
  {
    assert (taken + queue)[|taken|..|taken| + n] == queue[..n];
    assert later[..|taken + queue|] == taken + queue;
  }

  /** A request made while the thread is free ends, after two steps for each byte and whatever the other thread does
      meanwhile, with the bytes at the front of the queue at its start: as many as were asked for or were there; or
      with a shortest message, exactly if one was there. */
  lemma RequestReturns(before: seq<Event>, e: Event, es: seq<Event>)
    requires (forall x :: x in es ==> !x.Wanted? && !x.Message?) && (e.Wanted? || e.Message?)
    requires Run(Init(), before).consumer.Resting?
    requires var avail := Avail(Run(Init(), before).mem);
             e.Message? ==> MIN_MSG_LEN <= avail
    requires var avail := Avail(Run(Init(), before).mem);
             Consumes(es) >= 2 * if e.Wanted? then Min(avail, e.request) else MIN_MSG_LEN
    ensures var s := Run(Init(), before);
            var n := if e.Wanted? then Min(Avail(s.mem), e.request) else MIN_MSG_LEN;
            Run(After(s, e), es).consumer == Resting(Contents(s.mem)[..n], |s.taken|)
  {
    hide Contents, Free, Avail, Moved;
    InitSound();
    SoundRun(Init(), before);
    var s := Run(Init(), before);
    var n := if e.Wanted? then Min(Avail(s.mem), e.request) else MIN_MSG_LEN;
    FifoStep(s, e);
    RequestGoesOn(After(s, e), es);
    AcceptedStays(After(s, e), es);
    var t := Run(After(s, e), es);
    assert StepsToRest(t.consumer) == 0;
    AtRest(t);
    FrontOf(s.taken, Contents(s.mem), t.accepted, n);
    Taken(t);
  }

  lemma AtRest(s: State)
    requires Valid(s.mem) && Sound(s) && StepsToRest(s.consumer) == 0
    ensures s.consumer.Resting?
  {
    hide Contents, Free, Avail, Moved;
  }

  // What the last call took stands in the bytes accepted.
  lemma Taken(s: State)
    requires Valid(s.mem) && Sound(s) && s.consumer.Resting?
    ensures var c := s.consumer;
            c.base + |c.tmpBuf| <= |s.accepted| && c.tmpBuf == s.accepted[c.base..c.base + |c.tmpBuf|]
  {
    var c := s.consumer;
    assert s.accepted[..|s.taken|] == s.taken;
    assert c.tmpBuf[..|c.tmpBuf|] == c.tmpBuf;
  }

  /** With less than a shortest message there, asking for one changes nothing. */
  lemma NoMessage(s: State)
    requires Valid(s.mem) && Avail(s.mem) < MIN_MSG_LEN
    ensures After(s, Message) == s
  {
  }
}
