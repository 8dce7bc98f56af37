/** The command and reply machine of the communication module: eleven channels share one reply status, one
    image and one virtual machine, which runs a direct command between two passes over the channels. */
module Dispatch {

  const CHANNELS := 11
  const USBDEV := 0
  const BUF_SIZE := 1024
  const HEAD_SIZE := 5               // message counter, command type and the two variable bytes
  const CODE_LIMIT := 1022           // room for byte codes in the image
  const MAX_GLOBALS := 1021
  const MAX_LOCALS := 64
  const DIRECT_REPLY := 2
  const DIRECT_REPLY_ERROR := 4

  // The bits of ReplyStatus.
  datatype Flag = DirReply | DirNoReply | SysReply | SysNoReply

  datatype Head = Head(size: nat, count: nat, kind: nat)

  datatype Tx = Tx(head: Head, blockLen: nat, writing: bool)

  datatype Rx = Idle | FileDownload(msgLen: nat, rxBytes: nat)

  datatype Command =
    | DirectWithBusy
    | DirectReply
    | DirectNoReply
    | SystemReplyWanted
    | SystemNoReply
    | SystemAnswer        // SYSTEM_REPLY and SYSTEM_REPLY_ERROR
    | Daisy
    | Unknown

  // What a handler outside this module leaves in the buffers of its channel.
  datatype Outcome = Outcome(tx: Tx, rx: Rx)

  // One receive buffer; `word` holds the two variable bytes of a direct command.
  datatype Incoming = Incoming(size: nat, count: nat, cmd: Command, word: nat, outcome: Outcome)

  datatype Event =
    | Deliver(ch: nat, msg: Incoming)                                   // a channel is polled and has this buffer
    | Sent(ch: nat)                                                     // a channel accepted its pending buffer
    | VmRead                                                            // opCOM_READ
    | VmReply(ok: bool)                                                 // opCOM_WRITE, after the image ended
    | Originate(ch: nat, head: Head, blockLen: nat, forced: bool)       // a program writes a mailbox or sends a file

  datatype State = State(vmReady: bool, status: set<Flag>, active: nat, commandReady: bool, globals: nat,
                         running: bool, tx: seq<Tx>, rx: seq<Rx>)

  predicate Valid(s: State) {
    |s.tx| == |s.rx| == CHANNELS && s.active < CHANNELS
  }

  function Init(): (s: State)
    ensures Valid(s)
  {
    State(true, {}, 0, false, 0, false, seq(CHANNELS, _ => Tx(Head(0, 0, 0), 0, false)), seq(CHANNELS, _ => Idle))
  }

  predicate InRange(e: Event) {
    (e.Deliver? || e.Sent? || e.Originate? ==> e.ch < CHANNELS) && (e.Deliver? ==> e.msg.size < 0x1_0000)
  }

  // The size that reaches cComDirectCommand: the busy form first drops its four cookies.
  function CodeSize(msg: Incoming): nat {
    if msg.cmd == DirectWithBusy then (msg.size + 0xFFFC) % 0x1_0000 else msg.size
  }

  function Globals(word: nat): nat { word % 1024 }

  function Locals(word: nat): nat { word / 1024 % 64 }

  // Whether cComDirectCommand builds an image.
  predicate WellFormed(msg: Incoming) {
    && HEAD_SIZE < CodeSize(msg) < HEAD_SIZE + CODE_LIMIT
    && Globals(msg.word) <= MAX_GLOBALS && Locals(msg.word) <= MAX_LOCALS
  }

  function SetTx(s: State, ch: nat, tx: Tx): (t: State)
    requires Valid(s) && ch < CHANNELS
    ensures Valid(t)
  {
    s.(tx := s.tx[ch := tx])
  }

  // cComDirectCommand
  function Direct(s: State, ch: nat, msg: Incoming): (t: State)
    requires Valid(s) && ch < CHANNELS
    ensures Valid(t)
  {
    var t := SetTx(s, ch, s.tx[ch].(head := Head(3, msg.count, DIRECT_REPLY_ERROR)));
    t.(vmReady := false, commandReady := WellFormed(msg), globals := if WellFormed(msg) then Globals(msg.word) else s.globals)
  }

  // The switch over the command type, for a message that arrives on an idle receiver.
  function Handled(s: State, ch: nat, msg: Incoming): (t: State)
    requires Valid(s) && ch < CHANNELS
    ensures Valid(t)
  {
    match msg.cmd
    case DirectWithBusy => Direct(s, ch, msg)
    case DirectReply =>
      if s.status == {} then
        var t := Direct(s, ch, msg);
        if WellFormed(msg) then t.(status := {DirReply}) else SetTx(t, ch, t.tx[ch].(writing := true))
      else if DirNoReply in s.status then
        SetTx(s, ch, s.tx[ch].(head := Head(3, msg.count, DIRECT_REPLY_ERROR), writing := true))
      else s
    case DirectNoReply => if s.status == {} then Direct(s, ch, msg).(status := {DirNoReply}) else s
    case SystemReplyWanted =>
      if s.status == {} then
        var t := SetTx(s, ch, msg.outcome.tx.(writing := msg.outcome.rx.Idle?)).(rx := s.rx[ch := msg.outcome.rx]);
        if msg.outcome.rx.Idle? then t else t.(status := {SysReply})
      else s
    case SystemNoReply =>
      if s.status == {} then
        var t := SetTx(s, ch, msg.outcome.tx.(writing := false)).(rx := s.rx[ch := msg.outcome.rx]);
        if msg.outcome.rx.Idle? then t else t.(status := {SysNoReply})
      else s
    case SystemAnswer => SetTx(s, ch, msg.outcome.tx)
    case Daisy => if ch == USBDEV then SetTx(s, ch, msg.outcome.tx) else s
    case Unknown => s
  }

  // The next buffer of a message that is larger than the buffer.
  function Resume(s: State, ch: nat): (t: State)
    requires Valid(s) && ch < CHANNELS && s.rx[ch].FileDownload?
    ensures Valid(t)
  {
    var rx := s.rx[ch];
    if rx.msgLen - rx.rxBytes <= BUF_SIZE then
      SetTx(s, ch, s.tx[ch].(writing := s.tx[ch].writing || SysReply in s.status)).(rx := s.rx[ch := Idle], status := {})
    else
      s.(rx := s.rx[ch := rx.(rxBytes := rx.rxBytes + BUF_SIZE)])
  }

  // The channel is asked for a buffer at all.
  predicate Reads(s: State, e: Event)
    requires Valid(s) && InRange(e)
  {
    e.Deliver? && !s.tx[e.ch].writing && s.vmReady
  }

  // A buffer that is looked at as a new command.
  predicate Commands(s: State, e: Event)
    requires Valid(s) && InRange(e)
  {
    Reads(s, e) && s.rx[e.ch].Idle? && e.msg.size != 0
  }

  function Receive(s: State, ch: nat, msg: Incoming): (t: State)
    requires Valid(s) && ch < CHANNELS
    ensures Valid(t)
  {
    var t := s.(active := ch);
    if s.rx[ch].FileDownload? then Resume(t, ch) else
    var clear := SetTx(t, ch, s.tx[ch].(head := Head(0, 0, 0)));
    if msg.size == 0 then
      SetTx(clear, ch, s.tx[ch].(head := Head(s.globals + 1, 0, DIRECT_REPLY), writing := true))
    else Handled(clear, ch, msg)
  }

  // cComWrite
  function Reply(s: State, ok: bool): (t: State)
    requires Valid(s)
    ensures Valid(t)
  {
    var head := s.tx[s.active].head;
    var full := Head((head.size + s.globals) % 0x1_0000, head.count, if ok then DIRECT_REPLY else DIRECT_REPLY_ERROR);
    var t := if DirReply in s.status then SetTx(s, s.active, Tx(full, full.size + 2, true)) else s;
    t.(vmReady := true, status := {}, running := false)
  }

  function After(s: State, e: Event): (t: State)
    requires Valid(s) && InRange(e)
    ensures Valid(t)
  {
    match e
    case Deliver(ch, msg) => if Reads(s, e) then Receive(s, ch, msg) else s
    case Sent(ch) => SetTx(s, ch, s.tx[ch].(writing := false))
    // The background task asks for a command only while no image runs, and replies only when one stops.
    case VmRead => if s.running then s else s.(running := s.commandReady, commandReady := false)
    case VmReply(ok) => if s.running then Reply(s, ok) else s
    case Originate(ch, head, blockLen, forced) =>
      if s.tx[ch].writing && !forced then s else SetTx(s, ch, Tx(head, blockLen, true))
  }

  predicate Events(es: seq<Event>) {
    forall e :: e in es ==> InRange(e)
  }

  function Run(s: State, es: seq<Event>): (t: State)
    requires Valid(s) && Events(es)
    ensures Valid(t)
    decreases |es|
  {
    if es == [] then s else Run(After(s, es[0]), es[1..])
  }

  lemma {:induction false} RunSplit(s: State, a: seq<Event>, b: seq<Event>)
    requires Valid(s) && Events(a) && Events(b)
    ensures Events(a + b) && Run(s, a + b) == Run(Run(s, a), b)
    decreases |a|
  {
    hide After;
    if a == [] {
      assert a + b == b;
    } else {
      RunSplit(After(s, a[0]), a[1..], b);
      assert (a + b)[0] == a[0] && (a + b)[1..] == a[1..] + b;
    }
  }

  function Visit(incoming: map<nat, Incoming>, accepts: set<nat>, ch: nat): (es: seq<Event>)
    requires forall c :: c in incoming ==> incoming[c].size < 0x1_0000
    ensures ch < CHANNELS ==> Events(es)
  {
    (if ch in incoming then [Deliver(ch, incoming[ch])] else []) + (if ch in accepts then [Sent(ch)] else [])
  }

  lemma RunOne(s: State, ch: nat, incoming: map<nat, Incoming>, accepts: set<nat>)
    requires Valid(s) && ch < CHANNELS && forall c :: c in incoming ==> incoming[c].size < 0x1_0000
    ensures var t := if ch in incoming then After(s, Deliver(ch, incoming[ch])) else s;
            Run(s, Visit(incoming, accepts, ch)) == if ch in accepts then After(t, Sent(ch)) else t
  {
    hide After;
    var first := if ch in incoming then [Deliver(ch, incoming[ch])] else [];
    var second := if ch in accepts then [Sent(ch)] else [];
    RunSplit(s, first, second);
    assert first == [] || first[1..] == [];
    assert second == [] || second[1..] == [];
  }

  // One pass over the first `n` channels.
  function Pass(incoming: map<nat, Incoming>, accepts: set<nat>, n: nat): (es: seq<Event>)
    requires n <= CHANNELS && forall c :: c in incoming ==> incoming[c].size < 0x1_0000
    ensures Events(es)
  {
    if n == 0 then [] else Pass(incoming, accepts, n - 1) + Visit(incoming, accepts, n - 1)
  }
}
