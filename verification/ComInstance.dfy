/** ComInstance, the object that the firmware changes in place, keeps step with the machine of Dispatch and its
    invariant. */
module ComInstance {
  import opened Dispatch
  import opened DispatchRuns

  // A channel is not read while a direct command is pending or an image is about.
  lemma Waits(s: State, e: Event)
    requires Dispatch.Valid(s) && Sound(s) && InRange(e) && e.Deliver?
    ensures DirectPending(s) || Engaged(s) ==> After(s, e) == s
  {
  }

  /** A command changes the buffers of its own channel only, and never makes the machine ready to read. */
  lemma HandledLocal(s: State, ch: nat, msg: Incoming)
    requires Dispatch.Valid(s) && ch < CHANNELS
    ensures var t := Handled(s, ch, msg);
            forall b :: 0 <= b < CHANNELS && b != ch ==> t.tx[b] == s.tx[b] && t.rx[b] == s.rx[b]
    ensures var t := Handled(s, ch, msg);
            && (t.vmReady ==> s.vmReady && t.commandReady == s.commandReady && t.globals == s.globals)
            && t.running == s.running && t.active == s.active
  {
    hide WellFormed;
    match msg.cmd {
      case SystemReplyWanted | SystemNoReply =>
      case SystemAnswer | Daisy | Unknown =>
      case DirectWithBusy | DirectReply | DirectNoReply =>
    }
  }

  lemma NoneWhileBusy(s: State, e: Event)
    requires Dispatch.Valid(s) && InRange(e) && (e.Deliver? || e.Sent?)
    ensures !s.vmReady ==> Accepted(s, e) == [] && !After(s, e).vmReady
    ensures |Accepted(s, e)| <= 1 && (Accepted(s, e) != [] ==> !After(s, e).vmReady)
  {
    hide WellFormed, CodeSize;
  }

  /** While the channels are polled, one direct command that wants a reply is taken up at most. */
  lemma {:induction false} OneCommand(s: State, es: seq<Event>)
    requires Dispatch.Valid(s) && Events(es) && forall e :: e in es ==> e.Deliver? || e.Sent?
    ensures |AllAccepted(s, es)| <= if s.vmReady then 1 else 0
    decreases |es|
  {
    hide After, Accepted;
    if es == [] {
    } else {
      NoneWhileBusy(s, es[0]);
      OneCommand(After(s, es[0]), es[1..]);
    }
  }

  lemma {:induction false} PassPolls(incoming: map<nat, Incoming>, accepts: set<nat>, n: nat)
    requires n <= CHANNELS && forall c :: c in incoming ==> incoming[c].size < 0x1_0000
    ensures forall e :: e in Pass(incoming, accepts, n) ==> e.Deliver? || e.Sent?
  {
    if n > 0 {
      PassPolls(incoming, accepts, n - 1);
    }
  }

  /** ComInstance, changed in place. */
  class Com {
    var vmReady: bool
    var replyStatus: set<Flag>
    var activeComCh: nat
    var commandReady: bool
    var globalBytes: nat       // of the image
    var running: bool          // the command slot of the virtual machine
    var txBuf: seq<Tx>
    var rxBuf: seq<Rx>

    ghost predicate Shape()
      reads this
    {
      |txBuf| == |rxBuf| == CHANNELS && activeComCh < CHANNELS
    }

    ghost predicate Valid()
      reads this
    {
      Shape() && Sound(Now())
    }

    ghost function Now(): (s: State)
      reads this
    {
      State(vmReady, replyStatus, activeComCh, commandReady, globalBytes, running, txBuf, rxBuf)
    }

    // cComInit
    constructor ()
      ensures Valid() && Now() == Init()
    {
      vmReady, replyStatus, activeComCh, commandReady, globalBytes, running := true, {}, 0, false, 0, false;
      txBuf, rxBuf := seq(CHANNELS, _ => Tx(Head(0, 0, 0), 0, false)), seq(CHANNELS, _ => Idle);
    }

    // cComDirectCommand
    method DirectCommand(ch: nat, msg: Incoming) returns (result: bool)
      requires Shape() && ch < CHANNELS
      modifies this`vmReady, this`txBuf, this`globalBytes
      ensures Shape() && result == WellFormed(msg) && !vmReady
      ensures Now().(commandReady := result) == Direct(old(Now()), ch, msg)
    {
      vmReady, result := false, false;
      var cmdSize := CodeSize(msg);
      txBuf := txBuf[ch := txBuf[ch].(head := Head(3, msg.count, DIRECT_REPLY_ERROR))];
      if cmdSize > HEAD_SIZE && cmdSize - HEAD_SIZE < CODE_LIMIT {
        var globals, locals := msg.word % 1024, msg.word / 1024 % 64;
        if locals <= MAX_LOCALS && globals <= MAX_GLOBALS {
          globalBytes := globals;
          result := true;
        }
      }
    }

    // The switch in cComUpdate
    method Handle(ch: nat, msg: Incoming)
      requires Shape() && ch < CHANNELS
      modifies this
      ensures Shape() && Now() == Handled(old(Now()), ch, msg)
    {
      match msg.cmd {
        case DirectWithBusy =>
          commandReady := DirectCommand(ch, msg);
        case DirectReply =>
          if replyStatus == {} {
            replyStatus := replyStatus + {DirReply};
            commandReady := DirectCommand(ch, msg);
            if !commandReady {
              txBuf := txBuf[ch := txBuf[ch].(writing := true)];
              replyStatus := {};
            }
          } else if DirNoReply in replyStatus {
            txBuf := txBuf[ch := txBuf[ch].(head := Head(3, msg.count, DIRECT_REPLY_ERROR))];
            txBuf := txBuf[ch := txBuf[ch].(writing := true)];
          }
        case DirectNoReply =>
          if replyStatus == {} {
            replyStatus := replyStatus + {DirNoReply};
            commandReady := DirectCommand(ch, msg);
          }
        case SystemReplyWanted =>
          if replyStatus == {} {
            replyStatus := replyStatus + {SysReply};
            txBuf, rxBuf := txBuf[ch := msg.outcome.tx.(writing := false)], rxBuf[ch := msg.outcome.rx];
            if rxBuf[ch].Idle? {
              txBuf := txBuf[ch := txBuf[ch].(writing := true)];
              replyStatus := {};
            }
          }
        case SystemNoReply =>
          if replyStatus == {} {
            replyStatus := replyStatus + {SysNoReply};
            txBuf, rxBuf := txBuf[ch := msg.outcome.tx.(writing := false)], rxBuf[ch := msg.outcome.rx];
            if rxBuf[ch].Idle? {
              replyStatus := {};
            }
          }
        case SystemAnswer =>
          txBuf := txBuf[ch := msg.outcome.tx];
        case Daisy =>
          if ch == USBDEV {
            txBuf := txBuf[ch := msg.outcome.tx];
          }
        case Unknown =>
      }
    }

    // The body of cComUpdate for one channel, up to cComTxUpdate
    method UpdateChannel(ch: nat, msg: Incoming)
      requires Valid() && InRange(Deliver(ch, msg))
      modifies this
      ensures Now() == After(old(Now()), Deliver(ch, msg)) && Valid()
      ensures old(DirectPending(Now()) || Engaged(Now())) ==> Now() == old(Now())
    {
      hide WellFormed, Handled, Sound;
      SoundKept(Now(), Deliver(ch, msg));
      Waits(Now(), Deliver(ch, msg));
      if !txBuf[ch].writing && vmReady {
        activeComCh := ch;
        if rxBuf[ch].Idle? {
          txBuf := txBuf[ch := txBuf[ch].(head := Head(0, 0, 0))];
          if msg.size != 0 {
            Handle(ch, msg);
          } else {
            txBuf := txBuf[ch := txBuf[ch].(head := Head(globalBytes + 1, 0, DIRECT_REPLY))];
            txBuf := txBuf[ch := txBuf[ch].(writing := true)];
          }
        } else {
          var rx := rxBuf[ch];
          if rx.msgLen - rx.rxBytes <= BUF_SIZE {
            if SysReply in replyStatus {
              txBuf := txBuf[ch := txBuf[ch].(writing := true)];
            }
            rxBuf, replyStatus := rxBuf[ch := Idle], {};
          } else {
            rxBuf := rxBuf[ch := rx.(rxBytes := rx.rxBytes + BUF_SIZE)];
          }
        }
      }
    }

    // The write in cComTxUpdate
    method TxUpdate(ch: nat)
      requires Valid() && ch < CHANNELS
      modifies this`txBuf
      ensures Valid() && Now() == After(old(Now()), Sent(ch))
    {
      hide Sound;
      SoundKept(Now(), Sent(ch));
      if txBuf[ch].writing {
        txBuf := txBuf[ch := txBuf[ch].(writing := false)];
      }
    }

    // One turn of the loop in cComUpdate
    method VisitChannel(ch: nat, incoming: map<nat, Incoming>, accepts: set<nat>)
      requires Valid() && ch < CHANNELS && forall c :: c in incoming ==> incoming[c].size < 0x1_0000
      modifies this
      ensures Valid() && Now() == Run(old(Now()), Visit(incoming, accepts, ch))
    {
      hide After, Sound;
      RunOne(old(Now()), ch, incoming, accepts);
      if ch in incoming {
        UpdateChannel(ch, incoming[ch]);
      }
      if ch in accepts {
        TxUpdate(ch);
      }
    }

    // cComUpdate: `incoming(ch)` is what the channel has to read, `accepts(ch)` whether it can send.
    method Update(incoming: map<nat, Incoming>, accepts: set<nat>)
      requires Valid() && forall ch :: ch in incoming ==> incoming[ch].size < 0x1_0000
      modifies this
      ensures Valid() && Now() == Run(old(Now()), Pass(incoming, accepts, CHANNELS))
      ensures |AllAccepted(old(Now()), Pass(incoming, accepts, CHANNELS))| <= 1
    {
      hide After, Visit, Sound, AllAccepted;
      PassPolls(incoming, accepts, CHANNELS);
      OneCommand(Now(), Pass(incoming, accepts, CHANNELS));
      var ch := 0;
      while ch < CHANNELS
        invariant ch <= CHANNELS && Valid()
        invariant Now() == Run(old(Now()), Pass(incoming, accepts, ch))
      {
        RunSplit(old(Now()), Pass(incoming, accepts, ch), Visit(incoming, accepts, ch));
        VisitChannel(ch, incoming, accepts);
        ch := ch + 1;
      }
    }

    // cComRead
    method Read() returns (flag: bool)
      requires Valid() && !running
      modifies this`commandReady, this`running
      ensures Valid() && flag == old(commandReady) && (flag ==> !vmReady) && Now() == After(old(Now()), VmRead)
    {
      SoundKept(Now(), VmRead);
      flag := commandReady;
      commandReady := false;
      running := flag;
    }

    // cComWrite
    method Write(ok: bool)
      requires Valid() && running
      modifies this
      ensures Valid() && Now() == After(old(Now()), VmReply(ok))
    {
      hide Sound;
      SoundKept(Now(), VmReply(ok));
      vmReady := true;
      if DirReply in replyStatus {
        var com := txBuf[activeComCh].head;
        com := com.(size := (com.size + globalBytes) % 0x1_0000);
        com := com.(kind := if ok then DIRECT_REPLY else DIRECT_REPLY_ERROR);
        txBuf := txBuf[activeComCh := Tx(com, com.size + 2, true)];
      }
      replyStatus, running := {}, false;
    }
  }
}
