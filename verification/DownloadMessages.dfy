/** The byte layout of the download commands and their replies. */
module DownloadMessages {
  import opened Bytes
  import opened Frames
  import opened FileNames

  const SIZEOF_BEGINDL: nat := 10
  const SIZEOF_CONTINUEDL: nat := 7

  const SYSTEM_COMMAND_REPLY: byte := 0x01
  const SYSTEM_REPLY: byte := 0x03
  const SYSTEM_REPLY_ERROR: byte := 0x05
  const BEGIN_DOWNLOAD: byte := 0x92
  const CONTINUE_DOWNLOAD: byte := 0x93

  const SUCCESS: byte := 0x00
  const UNKNOWN_HANDLE: byte := 0x01
  const NO_HANDLES_AVAILABLE: byte := 0x04
  const END_OF_FILE: byte := 0x08
  const SIZE_ERROR: byte := 0x09
  const UNKNOWN_ERROR: byte := 0x0A

  const MINUS_ONE: byte := 255

  function Le32(n: nat): (s: seq<byte>)
    requires n < 0x1_0000_0000
    ensures |s| == 4
  {
    Header(n % 0x1_0000) + Header(n / 0x1_0000)
  }

  function From32(s: seq<byte>): (n: nat)
    requires |s| == 4
    ensures n == s[0] as int + 0x100 * s[1] as int + 0x1_0000 * s[2] as int + 0x100_0000 * s[3] as int < 0x1_0000_0000
  {
    Length(s[0], s[1]) + 0x1_0000 * Length(s[2], s[3])
  }

  lemma SizeFieldRoundTrip(n: nat)
    requires n < 0x1_0000_0000
    ensures From32(Le32(n)) == n
  {
    hide Header, Length;
    HeaderValue(n % 0x1_0000);
    HeaderValue(n / 0x1_0000);
  }

  lemma HeaderValue(n: nat)
    requires n < 0x1_0000
    ensures |Header(n)| == 2 && Length(Header(n)[0], Header(n)[1]) == n
  {
  }

  predicate PathOk(path: seq<byte>) {
    |path| < 1000 && 0 !in path
  }

  /** A full name whose parts have lengths that are accepted. */
  predicate PathFits(path: seq<byte>) { NameFits(path, SLASH, DOT) }

  function BeginMessage(cnt: seq<byte>, path: seq<byte>, size: nat, payload: seq<byte>): (m: seq<byte>)
    requires |cnt| == 2 && PathOk(path) && size < 0x1_0000_0000 && |path| + |payload| + 9 < 0x1_0000
    ensures |m| == SIZEOF_BEGINDL + |path| + 1 + |payload|
  {
    Header(|path| + |payload| + 9) + cnt + [SYSTEM_COMMAND_REPLY, BEGIN_DOWNLOAD] + Le32(size) + path + [0] + payload
  }

  function ContinueMessage(cnt: seq<byte>, handle: byte, payload: seq<byte>): (m: seq<byte>)
    requires |cnt| == 2 && |payload| + 5 < 0x1_0000
    ensures |m| == SIZEOF_CONTINUEDL + |payload|
  {
    Header(|payload| + 5) + cnt + [SYSTEM_COMMAND_REPLY, CONTINUE_DOWNLOAD, handle] + payload
  }

  function Reply(cnt: seq<byte>, cmdType: byte, cmd: byte, status: byte, handle: byte): (m: seq<byte>)
    requires |cnt| == 2
    ensures IsReply(m, cnt, cmdType, cmd, status, handle)
  {
    [6, 0] + cnt + [cmdType, cmd, status, handle]
  }

  /** A reply, place by place: the two length bytes count what follows them, then the message counter, the kind of
      reply, the command it answers, its status and the handle. */
  predicate IsReply(m: seq<byte>, cnt: seq<byte>, cmdType: byte, cmd: byte, status: byte, handle: byte) {
    && |m| == 8 && CmdSize(m) + 2 == |m| && m[2..4] == cnt
    && m[4] == cmdType && m[5] == cmd && m[6] == status && m[7] == handle
  }

  /** Nothing else is one. */
  lemma ReplyUnique(m: seq<byte>, cnt: seq<byte>, cmdType: byte, cmd: byte, status: byte, handle: byte)
    requires |cnt| == 2 && IsReply(m, cnt, cmdType, cmd, status, handle)
    ensures m == Reply(cnt, cmdType, cmd, status, handle)
  {
    assert m[2] == cnt[0] && m[3] == cnt[1];
  }

  function CmdSize(m: seq<byte>): nat
    requires |m| >= 2
  {
    Length(m[0], m[1])
  }

  lemma HeaderRoundTrip(n: nat, m: seq<byte>)
    requires n < 0x1_0000 && |m| >= 2 && m[..2] == Header(n)
    ensures CmdSize(m) == n
  {
    hide Header, Length;
    HeaderValue(n);
    assert m[0] == m[..2][0] && m[1] == m[..2][1];
  }

  /** strlen of the zero-terminated string at `i`. */
  function StrLen(m: seq<byte>, i: nat): (n: nat)
    requires exists k :: i <= k < |m| && m[k] == 0
    ensures i + n < |m| && m[i + n] == 0 && 0 !in m[i..i + n]
    decreases |m| - i
  {
    if m[i] == 0 then 0
    else
      var n := StrLen(m, i + 1);
      assert m[i..i + 1 + n] == [m[i]] + m[i + 1..i + 1 + n];
      1 + n
  }

  lemma {:induction false} StrLenIs(m: seq<byte>, i: nat, n: nat)
    requires i + n < |m| && m[i + n] == 0 && 0 !in m[i..i + n]
    ensures StrLen(m, i) == n
    decreases n
  {
    if n > 0 {
      assert m[i] == m[i..i + n][0];
      assert m[i + 1..i + n] == m[i..i + n][1..];
      StrLenIs(m, i + 1, n - 1);
    }
  }

  lemma BeginLayout(cnt: seq<byte>, path: seq<byte>, size: nat, payload: seq<byte>)
    requires |cnt| == 2 && PathOk(path) && size < 0x1_0000_0000 && |path| + |payload| + 9 < 0x1_0000
    ensures var m := BeginMessage(cnt, path, size, payload);
            m[..2] == Header(|path| + |payload| + 9) && m[2..4] == cnt && m[4] == SYSTEM_COMMAND_REPLY &&
            m[5] == BEGIN_DOWNLOAD && m[6..10] == Le32(size) &&
            m[SIZEOF_BEGINDL..SIZEOF_BEGINDL + |path|] == path && m[SIZEOF_BEGINDL + |path|] == 0 &&
            m[SIZEOF_BEGINDL + |path| + 1..] == payload
  {
    hide Header, Le32;
    assert |Header(|path| + |payload| + 9)| == 2 by { HeaderValue(|path| + |payload| + 9); }
  }

  /** Both messages announce their own length. */
  lemma AnnouncesBegin(cnt: seq<byte>, path: seq<byte>, size: nat, payload: seq<byte>)
    requires |cnt| == 2 && PathOk(path) && size < 0x1_0000_0000 && |path| + |payload| + 9 < 0x1_0000
    ensures var m := BeginMessage(cnt, path, size, payload); CmdSize(m) + 2 == |m|
  {
    hide BeginMessage, Header, Length;
    BeginLayout(cnt, path, size, payload);
    HeaderRoundTrip(|path| + |payload| + 9, BeginMessage(cnt, path, size, payload));
  }

  lemma AnnouncesContinue(cnt: seq<byte>, handle: byte, payload: seq<byte>)
    requires |cnt| == 2 && |payload| + 5 < 0x1_0000
    ensures var m := ContinueMessage(cnt, handle, payload); CmdSize(m) + 2 == |m|
  {
    hide Header, Length;
    var m := ContinueMessage(cnt, handle, payload);
    HeaderValue(|payload| + 5);
    assert m[..2] == Header(|payload| + 5);
    HeaderRoundTrip(|payload| + 5, m);
  }

  /** What the receiver finds in the first buffer of a begin message. */
  lemma BeginFields(cnt: seq<byte>, path: seq<byte>, size: nat, payload: seq<byte>, buf: seq<byte>)
    requires |cnt| == 2 && PathOk(path) && size < 0x1_0000_0000 && |path| + |payload| + 9 < 0x1_0000
    requires buf <= BeginMessage(cnt, path, size, payload) && SIZEOF_BEGINDL + |path| + 1 <= |buf|
    ensures CmdSize(buf) == |path| + |payload| + 9 && buf[2..4] == cnt && buf[4] == SYSTEM_COMMAND_REPLY
    ensures buf[5] == BEGIN_DOWNLOAD && From32(buf[6..10]) == size
    ensures buf[SIZEOF_BEGINDL + |path|] == 0 && StrLen(buf, SIZEOF_BEGINDL) == |path| && buf[SIZEOF_BEGINDL..SIZEOF_BEGINDL + |path|] == path
    ensures buf[SIZEOF_BEGINDL + |path| + 1..] == payload[..|buf| - SIZEOF_BEGINDL - |path| - 1]
  {
    hide Header, Le32, From32, StrLen, Length;
    var m := BeginMessage(cnt, path, size, payload);
    BeginLayout(cnt, path, size, payload);
    assert buf == m[..|buf|];
    assert buf[..2] == m[..2];
    HeaderRoundTrip(|path| + |payload| + 9, buf);
    assert buf[6..10] == m[6..10];
    SizeFieldRoundTrip(size);
    assert buf[2..4] == m[2..4];
    assert buf[SIZEOF_BEGINDL..SIZEOF_BEGINDL + |path|] == m[SIZEOF_BEGINDL..SIZEOF_BEGINDL + |path|];
    StrLenIs(buf, SIZEOF_BEGINDL, |path|);
    assert buf[SIZEOF_BEGINDL + |path| + 1..] == m[SIZEOF_BEGINDL + |path| + 1..][..|buf| - SIZEOF_BEGINDL - |path| - 1];
  }

  lemma ContinueFields(cnt: seq<byte>, handle: byte, payload: seq<byte>, buf: seq<byte>)
    requires |cnt| == 2 && |payload| + 5 < 0x1_0000
    requires buf <= ContinueMessage(cnt, handle, payload) && SIZEOF_CONTINUEDL <= |buf|
    ensures CmdSize(buf) == |payload| + 5 && buf[2..4] == cnt && buf[4] == SYSTEM_COMMAND_REPLY
    ensures buf[5] == CONTINUE_DOWNLOAD && buf[6] == handle
    ensures buf[SIZEOF_CONTINUEDL..] == payload[..|buf| - SIZEOF_CONTINUEDL]
  {
    hide Header, Length;
    var m := ContinueMessage(cnt, handle, payload);
    assert buf == m[..|buf|];
    assert m[..2] == Header(|payload| + 5);
    HeaderRoundTrip(|payload| + 5, buf);
  }
}
