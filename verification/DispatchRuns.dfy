/** Properties of every run of the command and reply machine, over all interleavings of the channels, the
    virtual machine and the programs that write to channels on their own. */
module DispatchRuns {
  import opened Dispatch

  datatype Call = Call(ch: nat, count: nat)

  datatype Answer = Answer(ch: nat, tx: Tx)

  // ---- What is accepted and what is answered ----

  // A direct command that asks for a reply and is taken up, or refused at once, by this event.
  function Accepted(s: State, e: Event): seq<Call>
    requires Valid(s) && InRange(e)
  {
    if Commands(s, e) && e.msg.cmd == DirectReply && s.status == {} then [Call(e.ch, e.msg.count)] else []
  }

  // A reply to a direct command that this event makes ready, with the buffer it leaves to be sent.
  function Answered(s: State, e: Event): seq<Answer>
    requires Valid(s) && InRange(e)
  {
    if Commands(s, e) && e.msg.cmd == DirectReply && After(s, e).tx[e.ch].writing then
      [Answer(e.ch, After(s, e).tx[e.ch])]
    else if e.VmReply? && s.running && DirReply in s.status then [Answer(s.active, After(s, e).tx[s.active])]
    else []
  }

  function AllAccepted(s: State, es: seq<Event>): seq<Call>
    requires Valid(s) && Events(es)
    decreases |es|
  {
    if es == [] then [] else Accepted(s, es[0]) + AllAccepted(After(s, es[0]), es[1..])
  }

  function AllAnswered(s: State, es: seq<Event>): seq<Answer>
    requires Valid(s) && Events(es)
    decreases |es|
  {
    if es == [] then [] else Answered(s, es[0]) + AllAnswered(After(s, es[0]), es[1..])
  }

  function CallChannels(calls: seq<Call>): seq<nat> { seq(|calls|, i requires 0 <= i < |calls| => calls[i].ch) }

  function AnswerChannels(answers: seq<Answer>): seq<nat> {
    seq(|answers|, i requires 0 <= i < |answers| => answers[i].ch)
  }

  function Calls(answers: seq<Answer>): seq<Call> {
    seq(|answers|, i requires 0 <= i < |answers| => Call(answers[i].ch, answers[i].tx.head.count))
  }

  // ---- The invariant ----

  predicate DirectPending(s: State) { DirReply in s.status || DirNoReply in s.status }

  // The virtual machine holds or is about to pick up an image.
  predicate Engaged(s: State) { s.commandReady || s.running }

  predicate Sound(s: State)
    requires Valid(s)
  {
    && (DirectPending(s) ==> !s.vmReady)
    && (Engaged(s) ==> !s.vmReady && !(s.commandReady && s.running))
    && (DirReply in s.status ==> Engaged(s) && s.status == {DirReply})
    && (s.status == {} || exists f :: s.status == {f})
  }

  lemma SoundKept(s: State, e: Event)
    requires Valid(s) && Sound(s) && InRange(e)
    ensures Sound(After(s, e))
  {
    hide WellFormed, CodeSize;
    var t := After(s, e);
    assert t.status == s.status || t.status == {} || t.status == {DirReply} || t.status == {DirNoReply}
        || t.status == {SysReply} || t.status == {SysNoReply};
  }

  lemma {:induction false} SoundRun(s: State, es: seq<Event>)
    requires Valid(s) && Sound(s) && Events(es)
    ensures Sound(Run(s, es))
    decreases |es|
  {
    hide After, Sound;
    if es == [] {
    } else {
      SoundKept(s, es[0]);
      SoundRun(After(s, es[0]), es[1..]);
    }
  }

  /** While a direct command is pending, or an image is waiting or running, no channel is read, whatever
      arrives; so the active channel stays the one it came from, and the branch that answers "busy" to a
      second direct command is never taken. */
  lemma NothingReadMeanwhile(es: seq<Event>, e: Event)
    requires Events(es) && InRange(e)
    ensures var s := Run(Init(), es);
            && (DirectPending(s) || Engaged(s) ==>
                  !Reads(s, e) && After(s, e).active == s.active)
            && (Commands(s, e) && e.msg.cmd == DirectReply ==> DirNoReply !in s.status)
  {
    SoundRun(Init(), es);
  }

  // ---- Direct replies go home ----

  function Waiting(s: State): seq<nat> { if DirReply in s.status then [s.active] else [] }

  lemma Balance(s: State, e: Event)
    requires Valid(s) && Sound(s) && InRange(e)
    ensures Waiting(s) + CallChannels(Accepted(s, e)) == AnswerChannels(Answered(s, e)) + Waiting(After(s, e))
  {
    hide WellFormed, CodeSize;
  }

  lemma {:induction false} BalanceRun(s: State, es: seq<Event>)
    requires Valid(s) && Sound(s) && Events(es)
    ensures Waiting(s) + CallChannels(AllAccepted(s, es)) == AnswerChannels(AllAnswered(s, es)) + Waiting(Run(s, es))
    decreases |es|
  {
    hide After, Accepted, Answered, Sound;
    if es == [] {
    } else {
      var t := After(s, es[0]);
      SoundKept(s, es[0]);
      Balance(s, es[0]);
      BalanceRun(t, es[1..]);
      var accepted, answered := Accepted(s, es[0]), Answered(s, es[0]);
      var later, afterwards := AllAccepted(t, es[1..]), AllAnswered(t, es[1..]);
      assert CallChannels(accepted + later) == CallChannels(accepted) + CallChannels(later);
      assert AnswerChannels(answered + afterwards) == AnswerChannels(answered) + AnswerChannels(afterwards);
      Regroup(Waiting(s), CallChannels(accepted), CallChannels(later), AnswerChannels(answered), Waiting(t),
              AnswerChannels(afterwards), Waiting(Run(s, es)));
    }
  }

  lemma Regroup<T>(w: seq<T>, a: seq<T>, b: seq<T>, c: seq<T>, v: seq<T>, d: seq<T>, u: seq<T>)
    requires w + a == c + v && v + b == d + u
    ensures w + (a + b) == (c + d) + u
  {
    calc {
      w + (a + b);
      (w + a) + b;
      (c + v) + b;
      c + (v + b);
      c + (d + u);
      (c + d) + u;
    }
  }

  /** In every run, the channels that direct commands came from are, in order, the channels answered,
      followed by the one still waiting if there is one: each command is answered exactly once, at home. */
  lemma RepliesGoHome(es: seq<Event>)
    requires Events(es)
    ensures CallChannels(AllAccepted(Init(), es))
         == AnswerChannels(AllAnswered(Init(), es)) + Waiting(Run(Init(), es))
  {
    BalanceRun(Init(), es);
    assert Waiting(Init()) == [];
  }

  // ---- The message counter ----

  // A program writes into the buffer that already holds the head of the pending reply.
  predicate Disturbs(s: State, e: Event)
    requires Valid(s)
  {
    DirReply in s.status && e.Originate? && e.ch == s.active
  }

  predicate Undisturbed(s: State, es: seq<Event>)
    requires Valid(s) && Events(es)
    decreases |es|
  {
    es == [] || (!Disturbs(s, es[0]) && Undisturbed(After(s, es[0]), es[1..]))
  }

  function WaitingCall(s: State): seq<Call>
    requires Valid(s)
  {
    if DirReply in s.status then [Call(s.active, s.tx[s.active].head.count)] else []
  }

  // The reply buffer holds the head that cComDirectCommand put there.
  predicate HeadKept(s: State)
    requires Valid(s)
  {
    DirReply in s.status ==> !s.tx[s.active].writing && s.tx[s.active].head.size == 3
  }

  lemma CallShare(s: State, e: Event)
    requires Valid(s) && Sound(s) && InRange(e) && HeadKept(s) && !Disturbs(s, e)
    ensures WaitingCall(s) + Accepted(s, e) == Calls(Answered(s, e)) + WaitingCall(After(s, e))
  {
    hide WellFormed, CodeSize;
    var t := After(s, e);
    if DirReply in s.status {
      if e.VmReply? && s.running {
        assert Calls(Answered(s, e)) == WaitingCall(s) && WaitingCall(t) == [] == Accepted(s, e);
      } else {
        assert Answered(s, e) == [] && Accepted(s, e) == [] && WaitingCall(t) == WaitingCall(s);
      }
    } else {
      assert WaitingCall(s) == [] && Accepted(s, e) == Calls(Answered(s, e)) + WaitingCall(t);
    }
  }

  lemma HeadStays(s: State, e: Event)
    requires Valid(s) && Sound(s) && InRange(e) && HeadKept(s) && !Disturbs(s, e)
    ensures HeadKept(After(s, e))
  {
    hide WellFormed, CodeSize;
  }

  lemma ReplyForm(s: State, e: Event)
    requires Valid(s) && Sound(s) && InRange(e) && HeadKept(s) && e.VmReply? && s.globals <= MAX_GLOBALS
    ensures forall a :: a in Answered(s, e) ==>
              var kind := if e.ok then DIRECT_REPLY else DIRECT_REPLY_ERROR;
              a.tx == Tx(Head(3 + s.globals, a.tx.head.count, kind), 5 + s.globals, true)
  {
  }

  lemma CallBalance(s: State, e: Event)
    requires Valid(s) && Sound(s) && InRange(e) && HeadKept(s) && !Disturbs(s, e)
    ensures WaitingCall(s) + Accepted(s, e) == Calls(Answered(s, e)) + WaitingCall(After(s, e))
    ensures HeadKept(After(s, e))
    ensures forall a :: a in Answered(s, e) && e.VmReply? && s.globals <= MAX_GLOBALS ==>
              var kind := if e.ok then DIRECT_REPLY else DIRECT_REPLY_ERROR;
              a.tx == Tx(Head(3 + s.globals, a.tx.head.count, kind), 5 + s.globals, true)
  {
    hide After, Accepted, Answered, Sound, HeadKept, Disturbs;
    CallShare(s, e);
    HeadStays(s, e);
    if e.VmReply? && s.globals <= MAX_GLOBALS {
      ReplyForm(s, e);
    }
  }

  lemma {:induction false} CallBalanceRun(s: State, es: seq<Event>)
    requires Valid(s) && Sound(s) && Events(es) && HeadKept(s) && Undisturbed(s, es)
    ensures WaitingCall(s) + AllAccepted(s, es) == Calls(AllAnswered(s, es)) + WaitingCall(Run(s, es))
    decreases |es|
  {
    hide After, Accepted, Answered, Sound, HeadKept, Disturbs;
    if es == [] {
    } else {
      var t := After(s, es[0]);
      SoundKept(s, es[0]);
      CallBalance(s, es[0]);
      CallBalanceRun(t, es[1..]);
      var answered, afterwards := Answered(s, es[0]), AllAnswered(t, es[1..]);
      assert Calls(answered + afterwards) == Calls(answered) + Calls(afterwards);
      Regroup(WaitingCall(s), Accepted(s, es[0]), AllAccepted(t, es[1..]), Calls(answered), WaitingCall(t),
              Calls(afterwards), WaitingCall(Run(s, es)));
    }
  }

  /** When no program writes on the waiting channel, the replies carry, in order, the message counters of the
      commands. */
  lemma RepliesCarryCounters(es: seq<Event>)
    requires Events(es) && Undisturbed(Init(), es)
    ensures AllAccepted(Init(), es) == Calls(AllAnswered(Init(), es)) + WaitingCall(Run(Init(), es))
  {
    CallBalanceRun(Init(), es);
    assert WaitingCall(Init()) == [];
  }

  /** A mailbox message or a file transfer that a program starts on the waiting channel takes over the buffer:
      the reply then goes out with that message's counter, and with its size plus the global variables. */
  lemma DisturbedReply(s: State, e: Event, reply: Event)
    requires Valid(s) && Sound(s) && HeadKept(s) && InRange(e) && s.running && Disturbs(s, e) && reply.VmReply?
    ensures var t := After(s, e);
            && DirReply in t.status && t.running
            && Answered(t, reply) != []
            && Answered(t, reply)[0].ch == s.active
            && Answered(t, reply)[0].tx.head.count == e.head.count
            && Answered(t, reply)[0].tx.head.size == (e.head.size + s.globals) % 0x1_0000
  {
  }

  // ---- The machine stops reading ----

  // Not ready, and no image that could ever make it ready again.
  predicate Stuck(s: State) { !s.vmReady && !Engaged(s) }

  // A direct command without an image is taken up, in any of its three forms.
  predicate Malformed(s: State, e: Event)
    requires Valid(s) && InRange(e)
  {
    && Commands(s, e) && !WellFormed(e.msg)
    && (e.msg.cmd == DirectWithBusy || (s.status == {} && (e.msg.cmd == DirectReply || e.msg.cmd == DirectNoReply)))
  }

  predicate MeetsMalformed(s: State, es: seq<Event>)
    requires Valid(s) && Events(es)
    decreases |es|
  {
    es != [] && (Malformed(s, es[0]) || MeetsMalformed(After(s, es[0]), es[1..]))
  }

  lemma StuckStep(s: State, e: Event)
    requires Valid(s) && Sound(s) && InRange(e)
    ensures Stuck(After(s, e)) <==> Stuck(s) || Malformed(s, e)
  {
    hide WellFormed, CodeSize;
  }

  lemma {:induction false} StuckRun(s: State, es: seq<Event>)
    requires Valid(s) && Sound(s) && Events(es)
    ensures Stuck(Run(s, es)) <==> Stuck(s) || MeetsMalformed(s, es)
    decreases |es|
  {
    hide After, Sound, Stuck, Malformed;
    if es == [] {
    } else {
      SoundKept(s, es[0]);
      StuckStep(s, es[0]);
      StuckRun(After(s, es[0]), es[1..]);
    }
  }

  /** The brick stops listening on every channel, for good, exactly when a direct command that is too short,
      too long or asks for too many global variables has been taken up: readiness is withdrawn before the
      checks, and only the end of an image gives it back. */
  lemma DeafIff(es: seq<Event>)
    requires Events(es)
    ensures Stuck(Run(Init(), es)) <==> MeetsMalformed(Init(), es)
  {
    StuckRun(Init(), es);
  }

  /** A direct command without any byte code, as the first event on any channel, is enough. */
  lemma DeafReached(ch: nat, count: nat, word: nat, outcome: Outcome, es: seq<Event>)
    requires ch < CHANNELS && Events(es)
    ensures var first := Deliver(ch, Incoming(HEAD_SIZE, count, DirectReply, word, outcome));
            Events([first] + es) && Stuck(Run(Init(), [first] + es))
  {
    hide After, Stuck, Run;
    var first := Deliver(ch, Incoming(HEAD_SIZE, count, DirectReply, word, outcome));
    assert Malformed(Init(), first);
    assert ([first] + es)[0] == first;
    DeafIff([first] + es);
  }

  lemma {:induction false} DeafForGood(s: State, es: seq<Event>)
    requires Valid(s) && Sound(s) && Stuck(s) && Events(es)
    ensures AllAccepted(s, es) == [] && AllAnswered(s, es) == []
    ensures Run(s, es).rx == s.rx && Run(s, es).active == s.active && Stuck(Run(s, es))
    decreases |es|
  {
    hide WellFormed, CodeSize, Handled, Resume;
    if es == [] {
    } else {
      SoundKept(s, es[0]);
      DeafForGood(After(s, es[0]), es[1..]);
    }
  }

  /** The error reply to such a command leaves the block length of its buffer as it was, so all five bytes of
      it are offered to the channel only if the last message there had at least five. */
  lemma ErrorReplyLength(s: State, e: Event)
    requires Valid(s) && Sound(s) && InRange(e) && Malformed(s, e) && e.msg.cmd == DirectReply
    ensures Answered(s, e) == [Answer(e.ch, Tx(Head(3, e.msg.count, DIRECT_REPLY_ERROR), s.tx[e.ch].blockLen, true))]
  {
    hide WellFormed, CodeSize;
  }

  // ---- Messages larger than the buffer ----

  // One channel at most is inside a large message; the reply status says so and no image is about.
  predicate OneAtATime(s: State)
    requires Valid(s)
  {
    forall a :: 0 <= a < CHANNELS && s.rx[a].FileDownload? ==>
      && (s.status == {SysReply} || s.status == {SysNoReply}) && s.vmReady && !Engaged(s)
      && forall b :: 0 <= b < CHANNELS && b != a ==> s.rx[b].Idle?
  }

  // A command with cookies is taken up although a channel is inside a large message.
  predicate Interrupts(s: State, e: Event)
    requires Valid(s) && InRange(e)
  {
    Commands(s, e) && e.msg.cmd == DirectWithBusy && exists a :: 0 <= a < CHANNELS && s.rx[a].FileDownload?
  }

  predicate Uninterrupted(s: State, es: seq<Event>)
    requires Valid(s) && Events(es)
    decreases |es|
  {
    es == [] || (!Interrupts(s, es[0]) && Uninterrupted(After(s, es[0]), es[1..]))
  }

  lemma OneAtATimeKept(s: State, e: Event)
    requires Valid(s) && Sound(s) && OneAtATime(s) && InRange(e) && !Interrupts(s, e)
    ensures OneAtATime(After(s, e))
  {
    hide WellFormed, CodeSize;
  }

  // No other command is taken up.
  predicate OnlyServes(s: State, t: State, a: nat)
    requires Valid(s) && Valid(t)
  {
    t.status == s.status && !t.commandReady && forall b :: 0 <= b < CHANNELS && b != a ==> t.rx[b] == s.rx[b]
  }

  lemma LargeStep(s: State, e: Event, a: nat)
    requires Valid(s) && Sound(s) && OneAtATime(s) && InRange(e) && !Interrupts(s, e)
    requires a < CHANNELS && s.rx[a].FileDownload?
    ensures var t := After(s, e);
            if t.rx[a].FileDownload? then OnlyServes(s, t, a) && Accepted(s, e) == []
            else t.status == {} && (t.tx[a].writing <==> SysReply in s.status)
  {
    hide WellFormed, CodeSize;
  }

  // Until channel `a` has its whole message, only that message is served; then it is answered if asked for.
  predicate Served(s: State, es: seq<Event>, a: nat)
    requires Valid(s) && Events(es) && a < CHANNELS
    decreases |es|
  {
    es == [] ||
    var t := After(s, es[0]);
    if t.rx[a].FileDownload? then OnlyServes(s, t, a) && Accepted(s, es[0]) == [] && Served(t, es[1..], a)
    else t.status == {} && (t.tx[a].writing <==> SysReply in s.status)
  }

  lemma {:induction false} ServedRun(s: State, es: seq<Event>, a: nat)
    requires Valid(s) && Sound(s) && OneAtATime(s) && Events(es) && Uninterrupted(s, es)
    requires a < CHANNELS && s.rx[a].FileDownload?
    ensures Served(s, es, a)
    decreases |es|
  {
    hide After, Accepted, Sound, OneAtATime, OnlyServes, Interrupts;
    if es == [] {
    } else {
      var t := After(s, es[0]);
      SoundKept(s, es[0]);
      OneAtATimeKept(s, es[0]);
      LargeStep(s, es[0], a);
      if t.rx[a].FileDownload? {
        ServedRun(t, es[1..], a);
      }
    }
  }

  lemma {:induction false} OneAtATimeRun(s: State, es: seq<Event>)
    requires Valid(s) && Sound(s) && OneAtATime(s) && Events(es) && Uninterrupted(s, es)
    ensures OneAtATime(Run(s, es)) && Sound(Run(s, es))
    decreases |es|
  {
    hide After, Sound, OneAtATime, Interrupts;
    if es == [] {
    } else {
      SoundKept(s, es[0]);
      OneAtATimeKept(s, es[0]);
      OneAtATimeRun(After(s, es[0]), es[1..]);
    }
  }

  /** In a run where no command with cookies cuts in, a large system message is served alone, from any point
      of it to its last buffer, and is then answered exactly if a reply was asked for. */
  lemma LargeMessageServed(before: seq<Event>, after: seq<Event>, a: nat)
    requires Events(before) && Events(after) && a < CHANNELS && Uninterrupted(Init(), before)
    requires Run(Init(), before).rx[a].FileDownload? && Uninterrupted(Run(Init(), before), after)
    ensures Served(Run(Init(), before), after, a)
  {
    OneAtATimeRun(Init(), before);
    ServedRun(Run(Init(), before), after, a);
  }

  // ---- System commands go home ----

  // A channel that was free to be read is left with something to send.
  predicate Starts(s: State, e: Event)
    requires Valid(s) && InRange(e)
  {
    e.Deliver? && !s.tx[e.ch].writing && After(s, e).tx[e.ch].writing
  }

  // The channel of a system command that wants a reply and is taken up by this event.
  function SystemAccepted(s: State, e: Event): seq<nat>
    requires Valid(s) && InRange(e)
  {
    if Commands(s, e) && e.msg.cmd == SystemReplyWanted && s.status == {} then [e.ch] else []
  }

  // The channel that this event leaves with an answer to such a command, complete at once or after more buffers.
  function SystemAnswered(s: State, e: Event): seq<nat>
    requires Valid(s) && InRange(e)
  {
    if Starts(s, e) && (s.rx[e.ch].FileDownload? || (Commands(s, e) && e.msg.cmd == SystemReplyWanted)) then [e.ch] else []
  }

  function AllSystemAccepted(s: State, es: seq<Event>): seq<nat>
    requires Valid(s) && Events(es)
    decreases |es|
  {
    if es == [] then [] else SystemAccepted(s, es[0]) + AllSystemAccepted(After(s, es[0]), es[1..])
  }

  function AllSystemAnswered(s: State, es: seq<Event>): seq<nat>
    requires Valid(s) && Events(es)
    decreases |es|
  {
    if es == [] then [] else SystemAnswered(s, es[0]) + AllSystemAnswered(After(s, es[0]), es[1..])
  }

  // The channels below `n` that are inside a large message.
  function Inside(rx: seq<Rx>, n: nat): seq<nat>
    requires n <= |rx|
  {
    if n == 0 then [] else Inside(rx, n - 1) + if rx[n - 1].FileDownload? then [n - 1] else []
  }

  lemma {:induction false} InsideNone(rx: seq<Rx>, n: nat)
    requires n <= |rx| && forall a :: 0 <= a < n ==> rx[a].Idle?
    ensures Inside(rx, n) == []
  {
    if n > 0 {
      InsideNone(rx, n - 1);
    }
  }

  lemma {:induction false} InsideOne(rx: seq<Rx>, n: nat, a: nat)
    requires n <= |rx| && a < n && rx[a].FileDownload? && forall b :: 0 <= b < n && b != a ==> rx[b].Idle?
    ensures Inside(rx, n) == [a]
  {
    if a == n - 1 {
      InsideNone(rx, n - 1);
    } else {
      InsideOne(rx, n - 1, a);
    }
  }

  // The one still on its way.
  function SystemWaiting(s: State): seq<nat>
    requires Valid(s)
  {
    if SysReply in s.status then Inside(s.rx, CHANNELS) else []
  }

  // And the reply status is not set for a message that is not on its way.
  predicate OnePerStatus(s: State)
    requires Valid(s)
  {
    && OneAtATime(s)
    && (SysReply in s.status ==> s.status == {SysReply} && exists a :: 0 <= a < CHANNELS && s.rx[a].FileDownload?)
  }

  lemma OnePerStatusKept(s: State, e: Event)
    requires Valid(s) && Sound(s) && OnePerStatus(s) && InRange(e) && !Interrupts(s, e)
    ensures OnePerStatus(After(s, e))
  {
    hide WellFormed, CodeSize, OneAtATime;
    OneAtATimeKept(s, e);
    Occupied(s, e);
  }

  lemma Occupied(s: State, e: Event)
    requires Valid(s) && Sound(s) && OnePerStatus(s) && InRange(e) && !Interrupts(s, e)
    ensures var t := After(s, e);
            SysReply in t.status ==> t.status == {SysReply} && exists a :: 0 <= a < CHANNELS && t.rx[a].FileDownload?
  {
    hide WellFormed, CodeSize;
    var t := After(s, e);
    if SysReply in t.status {
      if SysReply in s.status {
        var a :| 0 <= a < CHANNELS && s.rx[a].FileDownload?;
        assert t.rx[a].FileDownload?;
      } else {
        assert t.rx[e.ch].FileDownload?;
      }
    }
  }

  // A reply is owed on channel `a`: nothing is taken up, and the answer comes with the last buffer.
  lemma Owed(s: State, e: Event, a: nat)
    requires Valid(s) && Sound(s) && OnePerStatus(s) && InRange(e) && !Interrupts(s, e)
    requires SysReply in s.status && a < CHANNELS && s.rx[a].FileDownload?
    ensures var t := After(s, e);
            && SystemAccepted(s, e) == []
            && if Completes(s, e) then SystemAnswered(s, e) == [a] && t.status == {}
               else SystemAnswered(s, e) == [] && SysReply in t.status && t.rx[a].FileDownload?
  {
    hide WellFormed, CodeSize;
  }

  lemma NotOwed(s: State, e: Event)
    requires Valid(s) && Sound(s) && OnePerStatus(s) && InRange(e) && !Interrupts(s, e) && SysReply !in s.status
    ensures var t := After(s, e);
            if Asks(s, e) then
              SystemAccepted(s, e) == [e.ch] && SystemAnswered(s, e) == [] && SysReply in t.status && t.rx[e.ch].FileDownload?
            else
              SystemAccepted(s, e) == SystemAnswered(s, e) && SysReply !in t.status
  {
    hide WellFormed, CodeSize;
  }

  lemma WaitingIs(s: State, a: nat)
    requires Valid(s) && OnePerStatus(s) && SysReply in s.status && a < CHANNELS && s.rx[a].FileDownload?
    ensures SystemWaiting(s) == [a]
  {
    InsideOne(s.rx, CHANNELS, a);
  }

  lemma SystemBalance(s: State, e: Event)
    requires Valid(s) && Sound(s) && OnePerStatus(s) && InRange(e) && !Interrupts(s, e)
    ensures SystemWaiting(s) + SystemAccepted(s, e) == SystemAnswered(s, e) + SystemWaiting(After(s, e))
  {
    hide After, Sound, Interrupts, Completes, SystemAccepted, SystemAnswered, OneAtATime, Inside;
    var t := After(s, e);
    OnePerStatusKept(s, e);
    if SysReply in s.status {
      var a :| 0 <= a < CHANNELS && s.rx[a].FileDownload?;
      Owed(s, e, a);
      WaitingIs(s, a);
      if !Completes(s, e) {
        WaitingIs(t, a);
      }
    } else {
      NotOwed(s, e);
      if Asks(s, e) {
        WaitingIs(t, e.ch);
      }
    }
  }

  lemma {:induction false} SystemBalanceRun(s: State, es: seq<Event>)
    requires Valid(s) && Sound(s) && OnePerStatus(s) && Events(es) && Uninterrupted(s, es)
    ensures SystemWaiting(s) + AllSystemAccepted(s, es) == AllSystemAnswered(s, es) + SystemWaiting(Run(s, es))
    decreases |es|
  {
    hide After, Sound, OnePerStatus, Interrupts, SystemAccepted, SystemAnswered, SystemWaiting;
    if es == [] {
    } else {
      var t := After(s, es[0]);
      SoundKept(s, es[0]);
      OnePerStatusKept(s, es[0]);
      SystemBalance(s, es[0]);
      SystemBalanceRun(t, es[1..]);
      Regroup(SystemWaiting(s), SystemAccepted(s, es[0]), AllSystemAccepted(t, es[1..]), SystemAnswered(s, es[0]),
              SystemWaiting(t), AllSystemAnswered(t, es[1..]), SystemWaiting(Run(s, es)));
    }
  }

  /** In every run where no command with cookies cuts into a large message, the channels of the system commands that
      want a reply are, in order, the channels answered, and then the one still on its way. */
  lemma SystemRepliesGoHome(es: seq<Event>)
    requires Events(es) && Uninterrupted(Init(), es)
    ensures AllSystemAccepted(Init(), es) == AllSystemAnswered(Init(), es) + SystemWaiting(Run(Init(), es))
  {
    SystemBalanceRun(Init(), es);
    assert SystemWaiting(Init()) == [];
  }

  /** In every state, a system command that is complete at once leaves its channel with the handler's buffer, to be
      sent exactly if it wants a reply, and the receiver and the reply status free for the next. */
  lemma SmallCommandAnswered(s: State, e: Event)
    requires Valid(s) && InRange(e) && Commands(s, e) && s.status == {} && e.msg.outcome.rx.Idle?
    requires e.msg.cmd == SystemReplyWanted || e.msg.cmd == SystemNoReply
    ensures var t := After(s, e);
            && (Starts(s, e) <==> e.msg.cmd == SystemReplyWanted)
            && t.tx[e.ch].head == e.msg.outcome.tx.head && t.tx[e.ch].blockLen == e.msg.outcome.tx.blockLen
            && t.rx == s.rx && t.status == {} && t.vmReady && t.commandReady == s.commandReady
  {
    hide WellFormed, CodeSize;
  }

  /** In every state that can be reached, these and no others are the reads that leave something to be sent: an
      empty message, a direct command without an image, a system command that is complete at once, the last buffer
      of a large message while a reply is owed, and an answer or a daisy chain command whose handler says so. */
  lemma WhatStarts(before: seq<Event>, e: Event)
    requires Events(before) && InRange(e) && e.Deliver?
    ensures var s := Run(Init(), before);
            Starts(s, e) <==>
              && Reads(s, e)
              && if s.rx[e.ch].FileDownload? then
                   Completes(s, e) && SysReply in s.status
                 else if e.msg.size == 0 then true
                 else match e.msg.cmd
                   case DirectReply => s.status == {} && !WellFormed(e.msg)
                   case SystemReplyWanted => s.status == {} && e.msg.outcome.rx.Idle?
                   case SystemAnswer => e.msg.outcome.tx.writing
                   case Daisy => e.ch == USBDEV && e.msg.outcome.tx.writing
                   case _ => false
  {
    hide WellFormed, CodeSize, Run;
    SoundRun(Init(), before);
  }

  /** And these, an image made of it: a well-formed direct command while no reply status is set, or one with
      cookies whatever the status. */
  lemma WhatRuns(before: seq<Event>, e: Event)
    requires Events(before) && InRange(e)
    ensures var s := Run(Init(), before);
            var t := After(s, e);
            (t.commandReady && !s.commandReady <==>
               && Commands(s, e) && WellFormed(e.msg)
               && (e.msg.cmd == DirectWithBusy ||
                   (s.status == {} && (e.msg.cmd == DirectReply || e.msg.cmd == DirectNoReply))))
            && (t.commandReady && !s.commandReady ==> !t.vmReady && t.active == e.ch && t.globals == Globals(e.msg.word))
            && (t.running && !s.running <==> e.VmRead? && s.commandReady)
  {
    hide WellFormed, CodeSize, Run, Globals;
    SoundRun(Init(), before);
  }

  /** What is well formed, in sizes of the message: the cookies count four bytes more, and a message too short for
      them wraps around to a size that is far too large. */
  lemma WellFormedSizes(msg: Incoming)
    requires msg.size < 0x1_0000
    ensures WellFormed(msg) <==>
              && msg.word % 1024 <= 1021
              && if msg.cmd == DirectWithBusy then 10 <= msg.size <= 1030 else 6 <= msg.size <= 1026
  {
  }

  /** A command of no known type, or one that is held back by the reply status, leaves the channel with a cleared
      head and changes nothing else. */
  lemma HeldBack(s: State, e: Event)
    requires Valid(s) && InRange(e) && Commands(s, e)
    requires e.msg.cmd == Unknown || (e.msg.cmd == Daisy && e.ch != USBDEV) ||
             (s.status != {} && e.msg.cmd in {DirectNoReply, SystemReplyWanted, SystemNoReply})
    ensures var t := After(s, e);
            && t.tx[e.ch].head == Head(0, 0, 0) && t.tx[e.ch].writing == s.tx[e.ch].writing
            && t == s.(active := e.ch, tx := t.tx) && forall b :: 0 <= b < CHANNELS && b != e.ch ==> t.tx[b] == s.tx[b]
  {
    hide WellFormed, CodeSize;
  }

  /** A program's own message goes out unless the channel has one to send already; a file transfer goes out in any
      case. Only a channel that accepts its buffer is free again. */
  lemma ProgramsSend(s: State, e: Event)
    requires Valid(s) && InRange(e) && (e.Originate? || e.Sent?)
    ensures var t := After(s, e);
            && t == s.(tx := t.tx) && (forall b :: 0 <= b < CHANNELS && b != e.ch ==> t.tx[b] == s.tx[b])
            && (e.Sent? ==> !t.tx[e.ch].writing && t.tx[e.ch].head == s.tx[e.ch].head)
            && (e.Originate? ==> t.tx[e.ch].writing)
            && (e.Originate? ==> (t.tx[e.ch] == s.tx[e.ch] || (t.tx[e.ch].head == e.head && t.tx[e.ch].blockLen == e.blockLen)))
            && (e.Originate? && (e.forced || !s.tx[e.ch].writing) ==> t.tx[e.ch].head == e.head && t.tx[e.ch].blockLen == e.blockLen)
            && (e.Originate? && !e.forced && s.tx[e.ch].writing ==> t == s)
  {
  }

  /** In every state that can be reached, these events set the reply status, each to one kind, and these empty it. */
  lemma WhatSetsStatus(before: seq<Event>, e: Event)
    requires Events(before) && InRange(e)
    ensures var s := Run(Init(), before);
            var t := After(s, e);
            t.status == if s.status != {} then (if Clears(s, e) then {} else s.status)
                        else if !Commands(s, e) then {}
                        else match e.msg.cmd
                          case DirectReply => if WellFormed(e.msg) then {DirReply} else {}
                          case DirectNoReply => {DirNoReply}
                          case SystemReplyWanted => if e.msg.outcome.rx.FileDownload? then {SysReply} else {}
                          case SystemNoReply => if e.msg.outcome.rx.FileDownload? then {SysNoReply} else {}
                          case _ => {}
  {
    hide WellFormed, CodeSize, Run;
    SoundRun(Init(), before);
  }

  /** A poll with nothing in it is answered by a direct reply over the global variables of the last image. */
  lemma PollAnswer(s: State, e: Event)
    requires Valid(s) && InRange(e) && Reads(s, e) && s.rx[e.ch].Idle? && e.msg.size == 0
    ensures Starts(s, e) && After(s, e).tx[e.ch].head == Head(s.globals + 1, 0, DIRECT_REPLY)
    ensures After(s, e).tx[e.ch].blockLen == s.tx[e.ch].blockLen && After(s, e).status == s.status
  {
  }

  // ---- How many buffers a large message takes ----

  function ReadsOf(s: State, es: seq<Event>, a: nat): nat
    requires Valid(s) && Events(es)
    decreases |es|
  {
    if es == [] then 0
    else (if Reads(s, es[0]) && es[0].ch == a then 1 else 0) + ReadsOf(After(s, es[0]), es[1..], a)
  }

  lemma BufferCounted(s: State, e: Event, a: nat)
    requires Valid(s) && InRange(e) && a < CHANNELS && s.rx[a].FileDownload?
    ensures var rx, r := s.rx[a], After(s, e).rx[a];
            if !(Reads(s, e) && e.ch == a) then r == rx
            else if rx.msgLen - rx.rxBytes > BUF_SIZE then r == rx.(rxBytes := rx.rxBytes + BUF_SIZE)
            else r.Idle?
  {
    hide WellFormed, CodeSize;
  }

  /** Whatever else happens, a channel inside a large message stays in it while what its reads have brought is less
      than what is missing, and the read that brings enough is its last. */
  lemma {:induction false} BuffersNeeded(s: State, es: seq<Event>, a: nat, e: Event)
    requires Valid(s) && Events(es) && InRange(e) && a < CHANNELS && s.rx[a].FileDownload?
    requires ReadsOf(s, es, a) * BUF_SIZE < s.rx[a].msgLen - s.rx[a].rxBytes
    ensures Run(s, es).rx[a] == s.rx[a].(rxBytes := s.rx[a].rxBytes + ReadsOf(s, es, a) * BUF_SIZE)
    ensures Reads(Run(s, es), e) && e.ch == a ==>
              (After(Run(s, es), e).rx[a].Idle? <==>
                 (ReadsOf(s, es, a) + 1) * BUF_SIZE >= s.rx[a].msgLen - s.rx[a].rxBytes)
    decreases |es|
  {
    hide After, Reads;
    if es == [] {
      BufferCounted(s, e, a);
    } else {
      BufferCounted(s, es[0], a);
      BuffersNeeded(After(s, es[0]), es[1..], a, e);
    }
  }

  // ---- When a large message is answered ----

  // The state before event `k`.
  function At(s: State, es: seq<Event>, k: nat): (t: State)
    requires Valid(s) && Events(es) && k <= |es|
    ensures Valid(t)
  {
    Run(s, es[..k])
  }

  lemma AtNext(s: State, es: seq<Event>, k: nat)
    requires Valid(s) && Events(es) && k < |es|
    ensures At(s, es, k + 1) == After(At(s, es, k), es[k])
  {
    hide After;
    RunSplit(s, es[..k], [es[k]]);
    assert es[..k + 1] == es[..k] + [es[k]] && [es[k]][1..] == [];
  }

  predicate ImageEnds(s: State, e: Event) { e.VmReply? && s.running }

  // The last buffer of a large message is read.
  predicate Completes(s: State, e: Event)
    requires Valid(s) && InRange(e)
  {
    Reads(s, e) && s.rx[e.ch].FileDownload? && s.rx[e.ch].msgLen - s.rx[e.ch].rxBytes <= BUF_SIZE
  }

  // The reply status, which all channels share, is emptied.
  predicate Clears(s: State, e: Event)
    requires Valid(s) && InRange(e)
  {
    ImageEnds(s, e) || Completes(s, e)
  }

  // A large system message that wants a reply is taken up.
  predicate Asks(s: State, e: Event)
    requires Valid(s) && InRange(e)
  {
    Commands(s, e) && e.msg.cmd == SystemReplyWanted && s.status == {} && e.msg.outcome.rx.FileDownload?
  }

  lemma AskedStep(s: State, e: Event)
    requires Valid(s) && InRange(e)
    ensures SysReply in After(s, e).status <==> Asks(s, e) || (SysReply in s.status && !Clears(s, e))
  {
    hide WellFormed, CodeSize;
  }

  predicate EndedIn(s: State, es: seq<Event>, i: nat, k: nat)
    requires Valid(s) && Events(es) && k <= |es|
  {
    exists j {:trigger At(s, es, j)} :: i <= j < k && ImageEnds(At(s, es, j), es[j])
  }

  predicate ClearedIn(s: State, es: seq<Event>, i: nat, k: nat)
    requires Valid(s) && Events(es) && k <= |es|
  {
    exists j {:trigger At(s, es, j)} :: i <= j < k && Clears(At(s, es, j), es[j])
  }

  // A reply is asked for, and the reply status is not emptied again.
  predicate AskedIn(s: State, es: seq<Event>, i: nat, k: nat)
    requires Valid(s) && Events(es) && k <= |es|
  {
    exists j {:trigger At(s, es, j)} :: i <= j < k && Asks(At(s, es, j), es[j]) && !ClearedIn(s, es, j + 1, k)
  }

  lemma ClearedNext(s: State, es: seq<Event>, i: nat, k: nat)
    requires Valid(s) && Events(es) && i <= k < |es|
    ensures ClearedIn(s, es, i, k + 1) <==> ClearedIn(s, es, i, k) || Clears(At(s, es, k), es[k])
    ensures !ClearedIn(s, es, k + 1, k + 1)
  {
    hide At, Clears;
  }

  lemma AskedNext(s: State, es: seq<Event>, i: nat, k: nat)
    requires Valid(s) && Events(es) && i <= k < |es|
    ensures AskedIn(s, es, i, k + 1) <==>
              Asks(At(s, es, k), es[k]) || (AskedIn(s, es, i, k) && !Clears(At(s, es, k), es[k]))
  {
    hide At, Clears, Asks, ClearedIn;
    forall j | i <= j < k && Asks(At(s, es, j), es[j])
      ensures ClearedIn(s, es, j + 1, k + 1) <==> ClearedIn(s, es, j + 1, k) || Clears(At(s, es, k), es[k])
    {
      ClearedNext(s, es, j + 1, k);
    }
    ClearedNext(s, es, k, k);
    if Asks(At(s, es, k), es[k]) {
      assert !ClearedIn(s, es, k + 1, k + 1);
    }
  }

  lemma {:induction false} AskedRun(s: State, es: seq<Event>, i: nat, k: nat)
    requires Valid(s) && Events(es) && i <= k <= |es|
    ensures SysReply in At(s, es, k).status <==>
              (SysReply in At(s, es, i).status && !ClearedIn(s, es, i, k)) || AskedIn(s, es, i, k)
    decreases k
  {
    hide At, After, Clears, Asks;
    if k > i {
      AskedRun(s, es, i, k - 1);
      AtNext(s, es, k - 1);
      AskedStep(At(s, es, k - 1), es[k - 1]);
      hide ClearedIn, AskedIn;
      ClearedNext(s, es, i, k - 1);
      AskedNext(s, es, i, k - 1);
    }
  }

  /** From any state and in any run, a large message whose last buffer is read by the last event is answered
      exactly if the reply status asked for a reply and was not emptied before that event, or if it was
      emptied and another large message has asked for a reply since. */
  lemma AnsweredIff(s: State, es: seq<Event>, i: nat, n: nat)
    requires Valid(s) && Events(es) && i <= n && |es| == n + 1 && Completes(At(s, es, n), es[n])
    ensures var t := Run(s, es);
            && t.rx[es[n].ch].Idle? && t.status == {}
            && (t.tx[es[n].ch].writing <==>
                  (SysReply in At(s, es, i).status && !ClearedIn(s, es, i, n)) || AskedIn(s, es, i, n))
  {
    hide At, Run, ClearedIn, AskedIn;
    AtNext(s, es, n);
    AtAll(s, es);
    AskedRun(s, es, i, n);
  }

  lemma AtAll(s: State, es: seq<Event>)
    requires Valid(s) && Events(es)
    ensures At(s, es, |es|) == Run(s, es)
  {
    assert es[..|es|] == es;
  }

  // Event 0 takes up a large message on channel `a`, and event `n`, the last, reads the last buffer of it.
  predicate LargeMessage(s: State, es: seq<Event>, a: nat, n: nat)
    requires Valid(s) && Events(es)
  {
    && |es| == n + 1 && a < CHANNELS && Commands(s, es[0]) && s.status == {}
    && es[n].Deliver? && es[0].ch == es[n].ch == a
    && (es[0].msg.cmd == SystemReplyWanted || es[0].msg.cmd == SystemNoReply)
    && (forall k {:trigger At(s, es, k)} :: 1 <= k <= n ==> At(s, es, k).rx[a].FileDownload?)
    && Completes(At(s, es, n), es[n])
  }

  lemma LargeBegins(s: State, es: seq<Event>, a: nat, n: nat)
    requires Valid(s) && Events(es) && LargeMessage(s, es, a, n)
    ensures 1 <= n && At(s, es, 1) == After(s, es[0])
    ensures At(s, es, 1).status == {if es[0].msg.cmd == SystemReplyWanted then SysReply else SysNoReply}
  {
    assert At(s, es, 0) == s;
    AtNext(s, es, 0);
    hide At;
    if n == 0 {
      assert false;
    }
    assert At(s, es, 1).rx[a].FileDownload?;
  }

  /** A large message that wants a reply gets it iff, while it was on its way, the reply status was not emptied
      or another large message has asked for a reply since. */
  lemma WantedAnswer(s: State, es: seq<Event>, a: nat, n: nat)
    requires Valid(s) && Events(es) && LargeMessage(s, es, a, n) && es[0].msg.cmd == SystemReplyWanted
    ensures Run(s, es).tx[a].writing <==> !ClearedIn(s, es, 1, n) || AskedIn(s, es, 1, n)
  {
    hide At, ClearedIn, AskedIn;
    LargeBegins(s, es, a, n);
    AnsweredIff(s, es, 1, n);
  }

  /** A large message that wants no reply gets one iff the reply status was emptied while it was on its way and
      another large message has asked for a reply since. */
  lemma UnwantedAnswer(s: State, es: seq<Event>, a: nat, n: nat)
    requires Valid(s) && Events(es) && LargeMessage(s, es, a, n) && es[0].msg.cmd == SystemNoReply
    ensures Run(s, es).tx[a].writing <==> AskedIn(s, es, 1, n)
    ensures Run(s, es).tx[a].writing ==> ClearedIn(s, es, 1, n)
  {
    hide At, ClearedIn, AskedIn;
    LargeBegins(s, es, a, n);
    AnsweredIff(s, es, 1, n);
    AskedRun(s, es, 1, n);
    NotAskedAgain(s, es, 1, n);
  }

  lemma BusyStatus(s: State, e: Event)
    requires Valid(s) && InRange(e) && s.status != {}
    ensures Clears(s, e) || After(s, e).status == s.status
  {
    hide WellFormed, CodeSize;
  }

  // Nothing sets the reply status before it has been emptied.
  lemma {:induction false} NotAskedAgain(s: State, es: seq<Event>, i: nat, k: nat)
    requires Valid(s) && Events(es) && i <= k <= |es| && At(s, es, i).status != {}
    ensures !ClearedIn(s, es, i, k) ==> !AskedIn(s, es, i, k) && At(s, es, k).status == At(s, es, i).status
    decreases k
  {
    hide At, After, Clears;
    if k > i {
      NotAskedAgain(s, es, i, k - 1);
      AtNext(s, es, k - 1);
      hide ClearedIn, AskedIn;
      if !ClearedIn(s, es, i, k - 1) {
        BusyStatus(At(s, es, k - 1), es[k - 1]);
      }
      ClearedNext(s, es, i, k - 1);
      AskedNext(s, es, i, k - 1);
    }
  }

  predicate OthersIdle(s: State, a: nat)
    requires Valid(s)
  {
    forall b :: 0 <= b < CHANNELS && b != a ==> s.rx[b].Idle?
  }

  lemma OthersStayIdle(s: State, e: Event, a: nat)
    requires Valid(s) && InRange(e) && s.status != {} && OthersIdle(s, a)
    ensures OthersIdle(After(s, e), a)
  {
    hide WellFormed, CodeSize;
  }

  /** When no other channel is inside a large message at first, the reply status is emptied iff an image ends. */
  lemma {:induction false} ImagesClear(s: State, es: seq<Event>, a: nat, n: nat, k: nat)
    requires Valid(s) && Events(es) && LargeMessage(s, es, a, n) && OthersIdle(s, a) && 1 <= k <= n
    ensures ClearedIn(s, es, 1, k) <==> EndedIn(s, es, 1, k)
    ensures !ClearedIn(s, es, 1, k) ==> At(s, es, k).status == At(s, es, 1).status && OthersIdle(At(s, es, k), a)
    decreases k
  {
    hide At, After, WellFormed, CodeSize;
    LargeBegins(s, es, a, n);
    if k == 1 {
      FirstIdle(s, es[0], a);
    } else {
      ImagesClear(s, es, a, n, k - 1);
      ClearedNext(s, es, 1, k - 1);
      AtNext(s, es, k - 1);
      var t, e := At(s, es, k - 1), es[k - 1];
      assert t.rx[a].FileDownload? && After(t, e).rx[a].FileDownload?;
      if !ClearedIn(s, es, 1, k - 1) {
        OthersStayIdle(t, e, a);
        BusyStatus(t, e);
        StaysInside(t, e, a);
        assert Clears(t, e) <==> ImageEnds(t, e);
      }
    }
  }

  lemma FirstIdle(s: State, e: Event, a: nat)
    requires Valid(s) && InRange(e) && Commands(s, e) && e.ch == a && OthersIdle(s, a)
    ensures OthersIdle(After(s, e), a)
  {
    hide WellFormed, CodeSize;
  }

  lemma StaysInside(s: State, e: Event, a: nat)
    requires Valid(s) && InRange(e) && a < CHANNELS && After(s, e).rx[a].FileDownload? && OthersIdle(s, a)
    ensures !Completes(s, e)
  {
    hide WellFormed, CodeSize;
  }

  /** Together: a large message that begins while no other is on its way is answered iff a reply was asked for
      and no image ended meanwhile, or another large message has asked for a reply since the last time the
      reply status was emptied. */
  lemma LargeAnswerIff(s: State, es: seq<Event>, a: nat, n: nat)
    requires Valid(s) && Events(es) && LargeMessage(s, es, a, n) && OthersIdle(s, a)
    ensures Run(s, es).tx[a].writing <==>
              (es[0].msg.cmd == SystemReplyWanted && !EndedIn(s, es, 1, n)) || AskedIn(s, es, 1, n)
  {
    hide At, ClearedIn, AskedIn, EndedIn;
    LargeBegins(s, es, a, n);
    ImagesClear(s, es, a, n, n);
    if es[0].msg.cmd == SystemReplyWanted {
      WantedAnswer(s, es, a, n);
    } else {
      UnwantedAnswer(s, es, a, n);
    }
  }

  // ---- With and without a command in between ----

  lemma {:induction false} UninterruptedPrefix(s: State, es: seq<Event>, k: nat)
    requires Valid(s) && Events(es) && Uninterrupted(s, es) && k <= |es|
    ensures Uninterrupted(s, es[..k])
    decreases k
  {
    hide After, Interrupts;
    if k > 0 {
      UninterruptedPrefix(After(s, es[0]), es[1..], k - 1);
      assert es[..k][0] == es[0] && es[..k][1..] == es[1..][..k - 1];
    }
  }

  /** In a run where no command with cookies cuts in, every large message is answered exactly if it asked. */
  lemma UninterruptedAnswer(before: seq<Event>, es: seq<Event>, a: nat, n: nat)
    requires Events(before) && Events(es) && Uninterrupted(Init(), before)
    requires Uninterrupted(Run(Init(), before), es) && LargeMessage(Run(Init(), before), es, a, n)
    ensures Run(Run(Init(), before), es).tx[a].writing <==> es[0].msg.cmd == SystemReplyWanted
  {
    hide Run, At, Interrupts, Uninterrupted;
    var s := Run(Init(), before);
    OneAtATimeRun(Init(), before);
    LargeBegins(s, es, a, n);
    forall k | 1 <= k < n
      ensures !Clears(At(s, es, k), es[k]) && !Asks(At(s, es, k), es[k])
    {
      UninterruptedPrefix(s, es, k);
      OneAtATimeRun(s, es[..k]);
      AtIsRun(s, es, k);
      assert At(s, es, k).rx[a].FileDownload?;
      AtNext(s, es, k);
      assert At(s, es, k + 1).rx[a].FileDownload?;
      NotCleared(At(s, es, k), es[k], a);
    }
    if es[0].msg.cmd == SystemReplyWanted {
      WantedAnswer(s, es, a, n);
    } else {
      UnwantedAnswer(s, es, a, n);
    }
  }

  lemma AtIsRun(s: State, es: seq<Event>, k: nat)
    requires Valid(s) && Events(es) && k <= |es|
    ensures At(s, es, k) == Run(s, es[..k])
  {
  }

  lemma NotCleared(s: State, e: Event, a: nat)
    requires Valid(s) && OneAtATime(s) && InRange(e) && a < CHANNELS
    requires s.rx[a].FileDownload? && After(s, e).rx[a].FileDownload?
    ensures !Clears(s, e) && !Asks(s, e)
  {
    hide WellFormed, CodeSize;
  }

  /** Once an image has ended inside a large message, and no other has asked since, its answer is never made
      ready, whether it asked or not. */
  lemma InterruptedReplyLost(s: State, es: seq<Event>, a: nat, n: nat, i: nat)
    requires Valid(s) && Events(es) && LargeMessage(s, es, a, n) && 1 <= i < n && ImageEnds(At(s, es, i), es[i])
    requires forall j {:trigger At(s, es, j)} :: i < j < n ==> !Asks(At(s, es, j), es[j])
    ensures !Run(s, es).tx[a].writing
  {
    hide At, Run;
    LargeBegins(s, es, a, n);
    AnsweredIff(s, es, 1, n);
  }

  // A command with cookies on channel `ch`, the whole life of its image, and then the last buffer of channel `a`.
  function CutIn(ch: nat, busy: Incoming, between: seq<Event>, a: nat, last: Incoming): seq<Event> {
    [Deliver(ch, busy), VmRead, VmReply(true)] + between + [Deliver(a, last)]
  }

  // Channel `a` misses one buffer, and a well-formed command with cookies comes in on channel `ch`.
  predicate OneBufferLeft(s: State, a: nat, ch: nat, busy: Incoming, last: Incoming)
    requires Valid(s)
  {
    && OneAtATime(s) && a < CHANNELS && ch < CHANNELS && a != ch
    && s.rx[a].FileDownload? && s.rx[a].msgLen - s.rx[a].rxBytes <= BUF_SIZE
    && !s.tx[a].writing && !s.tx[ch].writing
    && 0 < busy.size < 0x1_0000 && busy.cmd == DirectWithBusy && WellFormed(busy) && last.size < 0x1_0000
  }

  lemma ImageCycle(s: State, a: nat, ch: nat, busy: Incoming, last: Incoming, es: seq<Event>)
    requires Valid(s) && OneBufferLeft(s, a, ch, busy, last) && Events(es)
    requires |es| >= 3 && es[..3] == [Deliver(ch, busy), VmRead, VmReply(true)]
    ensures var t := At(s, es, 3);
            && t.vmReady && t.status == {} && t.rx == s.rx && ImageEnds(At(s, es, 2), es[2])
            && forall b :: 0 <= b < CHANNELS && b != ch ==> t.tx[b] == s.tx[b]
  {
    hide CodeSize, WellFormed, At;
    AtZero(s, es);
    assert es[0] == es[..3][0] && es[1] == es[..3][1] && es[2] == es[..3][2];
    AtNext(s, es, 0);
    AtNext(s, es, 1);
    AtNext(s, es, 2);
  }

  lemma AtZero(s: State, es: seq<Event>)
    requires Valid(s) && Events(es)
    ensures At(s, es, 0) == s
  {
  }

  /** Such a run exists in every state with one buffer left: the answer that was asked for is lost. */
  lemma OneImageIsEnough(s: State, a: nat, ch: nat, busy: Incoming, last: Incoming)
    requires Valid(s) && OneBufferLeft(s, a, ch, busy, last)
    ensures var es := CutIn(ch, busy, [], a, last);
            Events(es) && Run(s, es).rx[a].Idle? && !Run(s, es).tx[a].writing
  {
    hide WellFormed, At, OneAtATime, Run;
    var es := CutIn(ch, busy, [], a, last);
    ImageCycle(s, a, ch, busy, last, es);
    assert Completes(At(s, es, 3), es[3]);
    AnsweredIff(s, es, 3, 3);
  }

  /** And the answer comes back, even to a message that wants none, when a third channel asks in between. */
  lemma AnotherAsks(s: State, a: nat, ch: nat, busy: Incoming, last: Incoming, b: nat, large: Incoming)
    requires Valid(s) && OneBufferLeft(s, a, ch, busy, last) && b < CHANNELS && b != a && b != ch && !s.tx[b].writing
    requires 0 < large.size < 0x1_0000 && large.cmd == SystemReplyWanted && large.outcome.rx.FileDownload?
    ensures var es := CutIn(ch, busy, [Deliver(b, large)], a, last);
            Events(es) && Run(s, es).rx[a].Idle? && Run(s, es).tx[a].writing
  {
    hide WellFormed, At, Run;
    var es := CutIn(ch, busy, [Deliver(b, large)], a, last);
    ImageCycle(s, a, ch, busy, last, es);
    AtNext(s, es, 3);
    assert Completes(At(s, es, 4), es[4]);
    assert Asks(At(s, es, 3), es[3]);
    AskedStep(At(s, es, 3), es[3]);
    AnsweredIff(s, es, 4, 4);
  }
}
