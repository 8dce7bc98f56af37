/** The reference parser: what a stream of length-prefixed frames means to the reader of the
    1024-byte message buffers.  It works one byte at a time and knows nothing of reads, cursors or
    statuses; both transports are proved to agree with it. */
module Frames {
  import opened Bytes

  /** Size of every transport buffer on the brick. */
  const BUF_SIZE: nat := 1024

  /** `out` are the buffers handed over so far, `cur` the bytes of the unfinished one, `rest` how
      many body bytes the current frame still lacks, `dropped` how many bytes were headers of empty
      frames, which are never handed over. */
  datatype Parser = Parser(cur: seq<byte>, body: bool, rest: nat, out: seq<seq<byte>>, dropped: nat)

  const Start := Parser([], false, 0, [], 0)

  function Length(lsb: byte, msb: byte): nat {
    lsb + 256 * msb
  }

  function Header(n: nat): (h: seq<byte>)
    requires n < 0x1_0000
  {
    [n % 256, n / 256]
  }

  ghost predicate Wf(p: Parser) {
    && (p.body ==> p.rest > 0 && |p.cur| < BUF_SIZE)
    && (!p.body ==> |p.cur| < 2)
  }

  /** One more byte of the stream. */
  function Feed(p: Parser, b: byte): Parser {
    var cur := p.cur + [b];
    if !p.body then
      if |cur| < 2 then p.(cur := cur)
      else if Length(cur[0], cur[1]) == 0 then p.(cur := [], dropped := p.dropped + 2)
      else p.(cur := cur, body := true, rest := Length(cur[0], cur[1]))
    else if p.rest <= 1 then
      p.(cur := [], body := false, rest := 0, out := p.out + [cur])
    else if |cur| == BUF_SIZE then
      p.(cur := [], rest := p.rest - 1, out := p.out + [cur])
    else
      p.(cur := cur, rest := p.rest - 1)
  }

  function FeedAll(p: Parser, s: seq<byte>): Parser {
    if s == [] then p else Feed(FeedAll(p, s[..|s| - 1]), s[|s| - 1])
  }

  /** A frame cut into full buffers and a remainder. */
  function Chop(s: seq<byte>): seq<seq<byte>> {
    if |s| <= BUF_SIZE then [s] else [s[..BUF_SIZE]] + Chop(s[BUF_SIZE..])
  }

  function Frame(body: seq<byte>): seq<byte>
    requires |body| < 0x1_0000
  {
    Header(|body|) + body
  }

  ghost predicate Bodies(bodies: seq<seq<byte>>) {
    forall i :: 0 <= i < |bodies| ==> 1 <= |bodies[i]| < 0x1_0000
  }

  function Stream(bodies: seq<seq<byte>>): seq<byte>
    requires Bodies(bodies)
  {
    if bodies == [] then [] else Stream(bodies[..|bodies| - 1]) + Frame(bodies[|bodies| - 1])
  }

  function ChopAll(bodies: seq<seq<byte>>): seq<seq<byte>>
    requires Bodies(bodies)
  {
    if bodies == [] then [] else ChopAll(bodies[..|bodies| - 1]) + Chop(Frame(bodies[|bodies| - 1]))
  }

  lemma {:induction false} FeedAllWf(p: Parser, s: seq<byte>)
    requires Wf(p)
    ensures Wf(FeedAll(p, s))
  {
    if s != [] {
      FeedAllWf(p, s[..|s| - 1]);
    }
  }

  lemma {:induction false} FeedAllAppend(p: Parser, a: seq<byte>, b: seq<byte>)
    ensures FeedAll(p, a + b) == FeedAll(FeedAll(p, a), b)
  {
    if b == [] {
      assert a + b == a;
    } else {
      var init := b[..|b| - 1];
      assert (a + b)[..|a + b| - 1] == a + init;
      FeedAllAppend(p, a, init);
    }
  }

  /** Body bytes that stay inside the current buffer and frame arrive as one block. */
  lemma {:induction false} FeedBody(p: Parser, s: seq<byte>)
    requires Wf(p) && p.body
    requires 1 <= |s| <= p.rest && |p.cur| + |s| <= BUF_SIZE
    ensures FeedAll(p, s) ==
            if |s| == p.rest then p.(cur := [], body := false, rest := 0, out := p.out + [p.cur + s])
            else if |p.cur| + |s| == BUF_SIZE then p.(cur := [], rest := p.rest - |s|, out := p.out + [p.cur + s])
            else p.(cur := p.cur + s, rest := p.rest - |s|)
  {
    var init := s[..|s| - 1];
    assert s == init + [s[|s| - 1]];
    if |s| == 1 {
      assert init == [];
      assert FeedAll(p, s) == Feed(p, s[0]);
    } else {
      FeedBody(p, init);
      assert p.cur + init + [s[|s| - 1]] == p.cur + s;
    }
  }

  /** Whatever its buffers, a frame's bytes count down its rest. */
  lemma {:induction false} FeedCount(p: Parser, s: seq<byte>)
    requires Wf(p) && p.body && |s| <= p.rest
    ensures var q := FeedAll(p, s);
            Wf(q) && q.rest == p.rest - |s| && q.body == (|s| < p.rest) && (!q.body ==> q.cur == [])
  {
    if s != [] {
      FeedCount(p, s[..|s| - 1]);
    }
  }

  lemma FeedNone(p: Parser)
    ensures FeedAll(p, []) == p
  {
  }

  lemma FeedOne(p: Parser, b: byte)
    ensures FeedAll(p, [b]) == Feed(p, b)
  {
    assert [b][..0] == [];
  }

  lemma FeedHeader(p: Parser, lsb: byte, msb: byte)
    requires !p.body && p.cur == []
    ensures FeedAll(p, [lsb]) == p.(cur := [lsb])
    ensures FeedAll(p, [lsb, msb]) ==
            if Length(lsb, msb) == 0 then p.(dropped := p.dropped + 2)
            else p.(cur := [lsb, msb], body := true, rest := Length(lsb, msb))
  {
    assert [lsb] + [msb] == [lsb, msb];
    assert [lsb, msb][..1] == [lsb];
    assert [lsb][..0] == [];
    assert FeedAll(p, [lsb]) == Feed(FeedAll(p, []), lsb);
  }

  /** Nothing is lost, repeated or reordered: as long as no empty frame occurs, the buffers handed
      over and the unfinished one are exactly the stream. */
  lemma {:induction false} Conservation(s: seq<byte>)
    ensures var p := FeedAll(Start, s);
            |Flatten(p.out)| + |p.cur| + p.dropped == |s| &&
            (p.dropped == 0 ==> Flatten(p.out) + p.cur == s)
    ensures Wf(FeedAll(Start, s))
  {
    FeedAllWf(Start, s);
    if s != [] {
      FeedAllWf(Start, s[..|s| - 1]);
      var init, b := s[..|s| - 1], s[|s| - 1];
      Conservation(init);
      ConservationStep(FeedAll(Start, init), b);
      if FeedAll(Start, init).dropped == 0 {
        assert init + [b] == s;
      }
    }
  }

  lemma FlattenSnoc(cs: seq<seq<byte>>, c: seq<byte>)
    ensures Flatten(cs + [c]) == Flatten(cs) + c
  {
    assert (cs + [c])[..|cs|] == cs;
  }

  lemma ConservationStep(p: Parser, b: byte)
    requires !p.body ==> |p.cur| < 2
    ensures var q := Feed(p, b);
            |Flatten(q.out)| + |q.cur| + q.dropped == |Flatten(p.out)| + |p.cur| + p.dropped + 1 &&
            (q.dropped == p.dropped ==> Flatten(q.out) + q.cur == Flatten(p.out) + p.cur + [b])
  {
    hide Flatten, Length;
    FlattenSnoc(p.out, p.cur + [b]);
    assert Flatten(p.out) + p.cur + [b] == Flatten(p.out) + (p.cur + [b]);
  }

  /** One frame is handed over as its chopped bytes. */
  lemma {:induction false} FeedFrame(p: Parser, body: seq<byte>)
    requires !p.body && p.cur == [] && p.rest == 0
    requires 1 <= |body| < 0x1_0000
    ensures FeedAll(p, Frame(body)) == p.(out := p.out + Chop(Frame(body)))
  {
    var h := Header(|body|);
    FeedHeader(p, h[0], h[1]);
    assert h == [h[0], h[1]];
    var q := FeedAll(p, h);
    assert q == p.(cur := h, body := true, rest := |body|);
    FeedAllAppend(p, h, body);
    FeedRest(q, body);
    assert h + body == Frame(body);
  }

  /** The rest of a frame, from any position in its buffers. */
  lemma {:induction false} FeedRest(p: Parser, s: seq<byte>)
    requires Wf(p) && p.body && p.rest == |s|
    ensures FeedAll(p, s) == p.(cur := [], body := false, rest := 0, out := p.out + Chop(p.cur + s))
    decreases |s|
  {
    hide FeedAll, Chop;
    if |p.cur| + |s| <= BUF_SIZE {
      FeedBody(p, s);
      ChopShort(p.cur + s);
    } else {
      var n := BUF_SIZE - |p.cur|;
      var full, tail := p.cur + s[..n], s[n..];
      var q := p.(cur := [], rest := |tail|, out := p.out + [full]);
      FeedFull(p, s, n, q);
      FeedRest(q, tail);
      ChopStep(full, tail);
      assert q.cur + tail == tail;
      assert p.cur + s == full + tail;
      assert q.out + Chop(tail) == p.out + ([full] + Chop(tail));
    }
  }

  lemma FeedFull(p: Parser, s: seq<byte>, n: nat, q: Parser)
    requires Wf(p) && p.body && p.rest == |s|
    requires n < |s| && |p.cur| + n == BUF_SIZE
    requires q == p.(cur := [], rest := |s| - n, out := p.out + [p.cur + s[..n]])
    ensures FeedAll(p, s) == FeedAll(q, s[n..])
  {
    FeedBody(p, s[..n]);
    assert s == s[..n] + s[n..];
    FeedAllAppend(p, s[..n], s[n..]);
  }

  lemma ChopShort(s: seq<byte>)
    requires |s| <= BUF_SIZE
    ensures Chop(s) == [s]
  {
  }

  lemma ChopStep(full: seq<byte>, tail: seq<byte>)
    requires |full| == BUF_SIZE && tail != []
    ensures Chop(full + tail) == [full] + Chop(tail)
  {
    assert (full + tail)[..BUF_SIZE] == full;
    assert (full + tail)[BUF_SIZE..] == tail;
  }

  /** Uniform chunking: a stream of non-empty frames is handed over frame by frame, each in full
      1024-byte buffers but its last; buffers never mix frames. */
  lemma {:induction false} StreamIsChopped(bodies: seq<seq<byte>>)
    requires Bodies(bodies)
    ensures FeedAll(Start, Stream(bodies)) == Start.(out := ChopAll(bodies))
  {
    if bodies != [] {
      var init, last := bodies[..|bodies| - 1], bodies[|bodies| - 1];
      StreamIsChopped(init);
      FeedAllAppend(Start, Stream(init), Frame(last));
      FeedFrame(Start.(out := ChopAll(init)), last);
    }
  }

  /** A frame of T bytes takes ceil(T / 1024) buffers, all full but the last, which is not empty. */
  lemma {:induction false} ChopSizes(s: seq<byte>)
    requires s != []
    ensures var c := Chop(s);
            |c| == (|s| + BUF_SIZE - 1) / BUF_SIZE &&
            (forall i :: 0 <= i < |c| - 1 ==> |c[i]| == BUF_SIZE) &&
            1 <= |c[|c| - 1]| <= BUF_SIZE
    ensures Flatten(Chop(s)) == s
    decreases |s|
  {
    if |s| <= BUF_SIZE {
      assert Chop(s) == [s];
      assert [s][..0] == [];
    } else {
      var tail := s[BUF_SIZE..];
      ChopSizes(tail);
      FlattenCons(s[..BUF_SIZE], Chop(tail));
      assert s == s[..BUF_SIZE] + tail;
    }
  }

  lemma {:induction false} FlattenCons(c: seq<byte>, cs: seq<seq<byte>>)
    ensures Flatten([c] + cs) == c + Flatten(cs)
  {
    if cs == [] {
      assert [c] + cs == [] + [c];
      FlattenSnoc([], c);
    } else {
      hide Flatten;
      var init, last := cs[..|cs| - 1], cs[|cs| - 1];
      FlattenCons(c, init);
      FlattenSnoc([c] + init, last);
      FlattenSnoc(init, last);
      assert [c] + cs == ([c] + init) + [last] && cs == init + [last];
    }
  }
}
