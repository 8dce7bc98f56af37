/** A host downloads a file in messages of any size: every message reaches the brick in full buffers
    but its last, the first goes to the command, the others to the resumption. */
module Download {
  import opened Bytes
  import opened Frames
  import opened FileNames
  import opened DownloadMessages
  import opened Receiver

  lemma ChopFirst(s: seq<byte>)
    ensures |Chop(s)| >= 1 && Chop(s)[0] == s[..Min(|s|, BUF_SIZE)]
    ensures |Chop(s)| > 1 <==> |s| > BUF_SIZE
    ensures |s| > BUF_SIZE ==> Chop(s)[1..] == Chop(s[BUF_SIZE..])
  {
    assert |s| <= BUF_SIZE ==> s[..|s|] == s;
  }

  /** The buffers after the first one, for a file that lacks at least what they bring. */
  method ReceiveRest(rx: RxBuf, bufs: seq<seq<byte>>, ghost rest: seq<byte>) returns (used: nat)
    requires rx.Valid() && rx.state == RxFileDl && |rest| == rx.msgLen - rx.rxBytes && Chop(rest) <= bufs
    requires rx.files[rx.pFile].open && rx.files[rx.pFile].pointer + |rest| <= rx.files[rx.pFile].size
    modifies rx`disk, rx`state, rx`rxBytes, rx.files
    ensures rx.Valid() && rx.state == RxIdle && rx.rxBytes == rx.msgLen && used == |Chop(rest)|
    ensures var f := old(rx.files[rx.pFile]);
            var f' := f.(pointer := f.pointer + |rest|, data := f.data + rest, open := f.pointer + |rest| < f.size);
            && rx.disk == old(rx.disk)[f.path := f'.data]
            && rx.files[..] == var files' := old(rx.files[..])[rx.pFile := f'];
                               if f'.open then files'
                               else files'[rx.fileHandle := files'[rx.fileHandle].(named := false)]
  {
    hide Chop, Continued;
    used := 0;
    ghost var done := 0;
    ghost var f, before := rx.files[rx.pFile], rx.files[..];
    ghost var disk0 := rx.disk;
    assert rest[..0] == [] && rest[0..] == rest;
    NotContinued(before, rx.pFile, rx.fileHandle);
    while rx.state == RxFileDl
      invariant rx.Valid() && done <= |rest| && rx.rxBytes == old(rx.rxBytes) + done
      invariant rx.state == if done < |rest| then RxFileDl else RxIdle
      invariant used <= |bufs| && if done < |rest| then
                  Chop(rest[done..]) <= bufs[used..] && used + |Chop(rest[done..])| == |Chop(rest)|
                else used == |Chop(rest)|
      invariant if done > 0 then rx.disk == disk0[f.path := f.data + rest[..done]] else rx.disk == disk0
      invariant rx.files[..] == Continued(before, rx.pFile, rx.fileHandle, rest[..done])
      decreases |rest| - done
    {
      ghost var left := rest[done..];
      ghost var n := Min(|left|, BUF_SIZE);
      ChopFirst(left);
      assert bufs[used] == bufs[used..][0] == left[..n];
      Halves(rest, done, n);
      assert left[..n][..n] == left[..n];
      ContinuedFile(before, rx.pFile, rx.fileHandle, rest[..done]);
      ContinuedOn(before, rx.pFile, rx.fileHandle, rest[..done], left[..n]);
      assert f.data + rest[..done] + left[..n] == f.data + rest[..done + n];
      assert bufs[used + 1..] == bufs[used..][1..];
      rx.Resume(bufs[used]);
      used, done := used + 1, done + n;
    }
    assert rest[..done] == rest;
    ContinuedIs(before, rx.pFile, rx.fileHandle, rest);
  }

  lemma Halves(s: seq<byte>, i: nat, n: nat)
    requires i + n <= |s|
    ensures s[..i] + s[i..][..n] == s[..i + n] && s[i..][n..] == s[i + n..]
  {
  }

  // The file itself while it is not full.
  lemma ContinuedFile(files: seq<Fil>, p: nat, h: nat, data: seq<byte>)
    requires p < |files| && h < |files| && files[p].open && files[p].pointer + |data| < files[p].size
    ensures var f := files[p];
            Continued(files, p, h, data)[p] == f.(pointer := f.pointer + |data|, data := f.data + data)
  {
  }

  lemma ContinuedIs(files: seq<Fil>, p: nat, h: nat, data: seq<byte>)
    requires p < |files| && h < |files| && files[p].open && files[p].pointer + |data| <= files[p].size
    ensures var f := files[p];
            var f' := f.(pointer := f.pointer + |data|, data := f.data + data, open := f.pointer + |data| < f.size);
            var files' := files[p := f'];
            Continued(files, p, h, data) == if f'.open then files' else files'[h := files'[h].(named := false)]
  {
  }

  const ALL_WELL := Environment(true, true, true, false)

  /** The first buffer of a begin message, with a name that fits. */
  method FirstOfBegin(rx: RxBuf, buf: seq<byte>, ghost cnt: seq<byte>, ghost path: seq<byte>, ghost size: nat,
                      ghost payload: seq<byte>) returns (reply: seq<byte>)
    requires rx.Valid() && rx.state == RxIdle && FirstFree(rx.files[..]) >= 0
    requires |cnt| == 2 && PathOk(path) && size < 0x1_0000_0000 && |path| + |payload| + 9 < 0x1_0000 && |payload| <= size
    requires PathFits(path) && FolderFits(path)
    requires var m := BeginMessage(cnt, path, size, payload); buf == m[..Min(|m|, BUF_SIZE)]
    modifies rx`disk, rx`folders, rx`state, rx`msgLen, rx`rxBytes, rx`pFile, rx.files
    ensures rx.Valid()
    ensures var h := FirstFree(old(rx.files[..]));
            var n := |buf| - SIZEOF_BEGINDL - |path| - 1;
            var large := n < |payload|;
            && 0 <= n <= |payload| && rx.pFile == h && rx.disk == old(rx.disk)[path := payload[..n]]
            && rx.files[..] == old(rx.files[..])[h := Fil(n < size, n < size, path, size, n, payload[..n])]
            && rx.state == (if large then RxFileDl else RxIdle) && (large ==> rx.msgLen - rx.rxBytes == |payload| - n)
            && reply == Reply(cnt, SYSTEM_REPLY, BEGIN_DOWNLOAD, if n == size then END_OF_FILE else SUCCESS, h)
  {
    hide StrLen, From32, Length, FirstFree, BeginMessage, Chop, FoldersOf, Reply, PathFits;
    BeginFields(cnt, path, size, payload, buf);
    assert buf[SIZEOF_BEGINDL + |path|] == 0;
    var outcome := rx.BeginDownload(buf, ALL_WELL);
    reply := outcome.reply;
    ghost var n := |buf| - SIZEOF_BEGINDL - |path| - 1;
    assert payload[..n][..Min(n, size)] == payload[..n];
  }

  /** A whole begin message, with a name that fits.  A file completed by a message larger than the buffer does
      not give back its own handle but the one of the last continued file. */
  method ReceiveBegin(rx: RxBuf, bufs: seq<seq<byte>>, ghost cnt: seq<byte>, ghost path: seq<byte>, ghost size: nat,
                      ghost payload: seq<byte>) returns (reply: seq<byte>, used: nat)
    requires rx.Valid() && rx.state == RxIdle && FirstFree(rx.files[..]) >= 0
    requires |cnt| == 2 && PathOk(path) && size < 0x1_0000_0000 && |path| + |payload| + 9 < 0x1_0000 && |payload| <= size
    requires PathFits(path) && FolderFits(path) && Chop(BeginMessage(cnt, path, size, payload)) <= bufs
    modifies rx`disk, rx`folders, rx`state, rx`msgLen, rx`rxBytes, rx`pFile, rx.files
    ensures rx.Valid() && rx.state == RxIdle && used == |Chop(BeginMessage(cnt, path, size, payload))|
    ensures var h := FirstFree(old(rx.files[..]));
            var large := SIZEOF_BEGINDL + |path| + 1 + |payload| > BUF_SIZE;
            var done := |payload| == size;
            var f := Fil(large || !done, !done, path, size, |payload|, payload);
            && rx.disk == old(rx.disk)[path := payload]
            && (rx.files[..] == var files := old(rx.files[..])[h := f];
                                if large && done then files[rx.fileHandle := files[rx.fileHandle].(named := false)] else files)
            && reply == Reply(cnt, SYSTEM_REPLY, BEGIN_DOWNLOAD, if done && !large then END_OF_FILE else SUCCESS, h)
  {
    hide StrLen, From32, Length, FirstFree, BeginMessage, Chop, Reply, FolderFits, PathOk, FoldersOf, PathFits;
    ghost var m := BeginMessage(cnt, path, size, payload);
    ChopFirst(m);
    assert bufs[0] == m[..Min(|m|, BUF_SIZE)];
    reply := FirstOfBegin(rx, bufs[0], cnt, path, size, payload);
    used := 1;
    ghost var n := Min(|m|, BUF_SIZE) - SIZEOF_BEGINDL - |path| - 1;
    assert payload[..n] + payload[n..] == payload;
    if rx.state == RxFileDl {
      BeginTail(cnt, path, size, payload);
      assert rx.files[rx.pFile] == Fil(true, true, path, size, n, payload[..n]);
      used := ReceiveRest(rx, bufs[1..], payload[n..]);
      used := used + 1;
    } else {
      assert payload[..|payload|] == payload;
    }
  }

  // What is left of a begin message behind its first buffer is payload.
  lemma BeginTail(cnt: seq<byte>, path: seq<byte>, size: nat, payload: seq<byte>)
    requires |cnt| == 2 && PathOk(path) && size < 0x1_0000_0000 && |path| + |payload| + 9 < 0x1_0000
    requires SIZEOF_BEGINDL + |path| + 1 <= BUF_SIZE < SIZEOF_BEGINDL + |path| + 1 + |payload|
    ensures BeginMessage(cnt, path, size, payload)[BUF_SIZE..] == payload[BUF_SIZE - SIZEOF_BEGINDL - |path| - 1..]
  {
    hide BeginMessage;
    BeginLayout(cnt, path, size, payload);
    var m := BeginMessage(cnt, path, size, payload);
    var header := SIZEOF_BEGINDL + |path| + 1;
    assert m[header..][BUF_SIZE - header..] == m[BUF_SIZE..];
  }

  /** The first buffer of a continue message for an open file with room for the whole message. */
  method FirstOfContinue(rx: RxBuf, buf: seq<byte>, ghost cnt: seq<byte>, ghost handle: byte, ghost payload: seq<byte>)
    returns (reply: seq<byte>)
    requires rx.Valid() && rx.state == RxIdle && handle < MAX_FILE_HANDLES
    requires rx.files[handle].named && rx.files[handle].open && rx.files[handle].pointer + |payload| <= rx.files[handle].size
    requires |cnt| == 2 && |payload| + 5 < 0x1_0000
    requires var m := ContinueMessage(cnt, handle, payload); buf == m[..Min(|m|, BUF_SIZE)]
    modifies rx`disk, rx`state, rx`msgLen, rx`rxBytes, rx`pFile, rx`fileHandle, rx.files
    ensures rx.Valid()
    ensures var f := old(rx.files[handle]);
            var n := |buf| - SIZEOF_CONTINUEDL;
            var large := n < |payload|;
            && 0 <= n <= |payload| && rx.pFile == rx.fileHandle == handle
            && rx.Appended(old(rx.files[..]), old(rx.disk), handle, payload[..n], f.pointer + n < f.size)
            && rx.state == (if large then RxFileDl else RxIdle) && (large ==> rx.msgLen - rx.rxBytes == |payload| - n)
            && reply == Reply(cnt, SYSTEM_REPLY, CONTINUE_DOWNLOAD, if f.pointer + n == f.size then END_OF_FILE else SUCCESS, handle)
  {
    hide Length, ContinueMessage, Reply;
    ContinueFields(cnt, handle, payload, buf);
    var outcome := rx.ContinueDownload(buf);
    reply := outcome.reply;
    ghost var n := |buf| - SIZEOF_CONTINUEDL;
    assert payload[..n][..n] == payload[..n];
  }

  /** A whole continue message for an open file with room for it. */
  method ReceiveContinue(rx: RxBuf, bufs: seq<seq<byte>>, ghost cnt: seq<byte>, ghost handle: byte, ghost payload: seq<byte>)
    returns (reply: seq<byte>, used: nat)
    requires rx.Valid() && rx.state == RxIdle && handle < MAX_FILE_HANDLES
    requires rx.files[handle].named && rx.files[handle].open && rx.files[handle].pointer + |payload| <= rx.files[handle].size
    requires |cnt| == 2 && |payload| + 5 < 0x1_0000 && Chop(ContinueMessage(cnt, handle, payload)) <= bufs
    modifies rx`disk, rx`state, rx`msgLen, rx`rxBytes, rx`pFile, rx`fileHandle, rx.files
    ensures rx.Valid() && rx.state == RxIdle && used == |Chop(ContinueMessage(cnt, handle, payload))|
    ensures var f := old(rx.files[handle]);
            var done := f.pointer + |payload| == f.size;
            && rx.Appended(old(rx.files[..]), old(rx.disk), handle, payload, !done)
            && reply == Reply(cnt, SYSTEM_REPLY, CONTINUE_DOWNLOAD,
                              if done && SIZEOF_CONTINUEDL + |payload| <= BUF_SIZE then END_OF_FILE else SUCCESS, handle)
  {
    hide Length, ContinueMessage, Chop, Reply;
    ghost var m := ContinueMessage(cnt, handle, payload);
    ChopFirst(m);
    assert bufs[0] == m[..Min(|m|, BUF_SIZE)];
    ghost var f := rx.files[handle];
    reply := FirstOfContinue(rx, bufs[0], cnt, handle, payload);
    used := 1;
    ghost var n := Min(|m|, BUF_SIZE) - SIZEOF_CONTINUEDL;
    assert payload[..n] + payload[n..] == payload;
    if rx.state == RxFileDl {
      assert f.data + payload[..n] + payload[n..] == f.data + payload;
      ContinueTail(cnt, handle, payload);
      used := ReceiveRest(rx, bufs[1..], payload[n..]);
      used := used + 1;
    } else {
      assert payload[..|payload|] == payload;
    }
  }

  lemma ContinueTail(cnt: seq<byte>, handle: byte, payload: seq<byte>)
    requires |cnt| == 2 && |payload| + 5 < 0x1_0000 && BUF_SIZE < SIZEOF_CONTINUEDL + |payload|
    ensures ContinueMessage(cnt, handle, payload)[BUF_SIZE..] == payload[BUF_SIZE - SIZEOF_CONTINUEDL..]
  {
  }

  /** What the messages up to the `i`-th continue message carry. */
  function Carried(first: seq<byte>, more: seq<seq<byte>>, i: nat): seq<byte>
    requires i <= |more|
  {
    first + Flatten(more[..i])
  }

  /** The frames of a whole download: a begin message and continue messages for its handle. */
  function Messages(cnt: seq<byte>, path: seq<byte>, size: nat, first: seq<byte>, handle: byte, more: seq<seq<byte>>): (bodies: seq<seq<byte>>)
    requires |cnt| == 2 && PathOk(path) && size < 0x1_0000_0000 && |path| + |first| + 9 < 0x1_0000
    requires forall i :: 0 <= i < |more| ==> |more[i]| + 5 < 0x1_0000
    ensures |bodies| == |more| + 1 && Bodies(bodies)
  {
    [BeginMessage(cnt, path, size, first)[2..]] +
    seq(|more|, i requires 0 <= i < |more| => ContinueMessage(cnt, handle, more[i])[2..])
  }

  // The size of a message is the length of the frame it travels in.
  lemma BeginIsFrame(cnt: seq<byte>, path: seq<byte>, size: nat, payload: seq<byte>)
    requires |cnt| == 2 && PathOk(path) && size < 0x1_0000_0000 && |path| + |payload| + 9 < 0x1_0000
    ensures var m := BeginMessage(cnt, path, size, payload); Frame(m[2..]) == m
  {
    hide Header, Le32;
    HeaderValue(|path| + |payload| + 9);
    var m := BeginMessage(cnt, path, size, payload);
    assert m[..2] == Header(|path| + |payload| + 9) && m == m[..2] + m[2..];
  }

  lemma ContinueIsFrame(cnt: seq<byte>, handle: byte, payload: seq<byte>)
    requires |cnt| == 2 && |payload| + 5 < 0x1_0000
    ensures var m := ContinueMessage(cnt, handle, payload); Frame(m[2..]) == m
  {
    hide Header;
    HeaderValue(|payload| + 5);
    var m := ContinueMessage(cnt, handle, payload);
    assert m[..2] == Header(|payload| + 5) && m == m[..2] + m[2..];
  }

  // The buffers of the first `i` frames are a prefix of all, and the next frame's come right behind them.
  lemma {:induction false} ChopAllPrefix(bodies: seq<seq<byte>>, i: nat)
    requires Bodies(bodies) && i <= |bodies|
    ensures Bodies(bodies[..i]) && ChopAll(bodies[..i]) <= ChopAll(bodies)
    ensures i < |bodies| ==> Chop(Frame(bodies[i])) <= ChopAll(bodies)[|ChopAll(bodies[..i])|..]
    ensures i < |bodies| ==>
              Bodies(bodies[..i + 1]) && |ChopAll(bodies[..i + 1])| == |ChopAll(bodies[..i])| + |Chop(Frame(bodies[i]))|
    decreases |bodies| - i
  {
    hide Chop, Frame;
    if i == |bodies| {
      assert bodies[..i] == bodies;
    } else {
      ChopAllPrefix(bodies, i + 1);
      assert bodies[..i + 1][..i] == bodies[..i] && bodies[..i + 1][i] == bodies[i];
      var a, c := ChopAll(bodies[..i]), Chop(Frame(bodies[i]));
      assert ChopAll(bodies[..i + 1]) == a + c;
      assert ChopAll(bodies)[..|a + c|] == a + c;
    }
  }

  /** `data` has arrived of the file with this handle. */
  ghost predicate Arrived(rx: RxBuf, disk: map<seq<byte>, seq<byte>>, handle: nat, path: seq<byte>, size: nat, data: seq<byte>)
    requires rx.Valid() && handle < MAX_FILE_HANDLES
    reads rx, rx.files
  {
    var f := rx.files[handle];
    && rx.disk == disk[path := data] && f.path == path && f.size == size
    && f.data == data && f.pointer == |data| && f.open == (|data| < size) && (|data| < size ==> f.named)
  }

  method ReceiveMore(rx: RxBuf, bufs: seq<seq<byte>>, ghost disk: map<seq<byte>, seq<byte>>, ghost cnt: seq<byte>, ghost handle: nat,
                     ghost path: seq<byte>, ghost size: nat, ghost data: seq<byte>, ghost payload: seq<byte>) returns (used: nat)
    requires rx.Valid() && rx.state == RxIdle && handle < MAX_FILE_HANDLES && Arrived(rx, disk, handle, path, size, data)
    requires |cnt| == 2 && |payload| + 5 < 0x1_0000 && Chop(ContinueMessage(cnt, handle, payload)) <= bufs
    requires |data| < size && |data| + |payload| <= size
    modifies rx`disk, rx`state, rx`msgLen, rx`rxBytes, rx`pFile, rx`fileHandle, rx.files
    ensures rx.Valid() && rx.state == RxIdle && Arrived(rx, disk, handle, path, size, data + payload)
    ensures 1 <= used == |Chop(ContinueMessage(cnt, handle, payload))|
  {
    hide Chop, ContinueMessage;
    ChopFirst(ContinueMessage(cnt, handle, payload));
    var reply;
    reply, used := ReceiveContinue(rx, bufs, cnt, handle, payload);
  }

  /** Download larger than the buffer: whatever the sizes of the messages, if their payloads do not
      exceed the declared file size and only the last completes it, the file on disk is the
      payloads in order and the pointer counts them.  The buffers are those of the frames. */
  method DownloadFile(rx: RxBuf, bufs: seq<seq<byte>>, ghost cnt: seq<byte>, ghost path: seq<byte>, ghost size: nat,
                      ghost first: seq<byte>, ghost more: seq<seq<byte>>)
    returns (ghost handle: nat)
    requires rx.Valid() && rx.state == RxIdle && FirstFree(rx.files[..]) >= 0
    requires |cnt| == 2 && PathOk(path) && size < 0x1_0000_0000 && |path| + |first| + 9 < 0x1_0000
    requires PathFits(path) && FolderFits(path)
    requires forall i :: 0 <= i < |more| ==> |more[i]| + 5 < 0x1_0000
    requires |Carried(first, more, |more|)| <= size
    requires forall i :: 0 <= i < |more| ==> |Carried(first, more, i)| < size
    requires bufs == ChopAll(Messages(cnt, path, size, first, FirstFree(rx.files[..]), more))
    modifies rx`disk, rx`folders, rx`state, rx`msgLen, rx`rxBytes, rx`pFile, rx`fileHandle, rx.files
    ensures rx.Valid() && rx.state == RxIdle && handle == FirstFree(old(rx.files[..]))
    ensures var data := Carried(first, more, |more|);
            && rx.disk == old(rx.disk)[path := data]
            && rx.files[handle].data == data && rx.files[handle].pointer == |data|
            && rx.files[handle].open == (|data| < size)
  {
    hide Flatten, Chop, ChopAll, Frame, BeginMessage, ContinueMessage, FirstFree, FolderFits, Carried, Reply, PathFits;
    CarriedNone(first, more);
    CarriedGrows(first, more, 0);
    handle := FirstFree(rx.files[..]);
    ghost var bodies := Messages(cnt, path, size, first, handle, more);
    BeginIsFrame(cnt, path, size, first);
    ChopAllPrefix(bodies, 0);
    NoFrames(bodies);
    assert bufs[0..] == bufs;
    var reply, used := ReceiveBegin(rx, bufs, cnt, path, size, first);
    ghost var i := 0;
    while used < |bufs|
      invariant i <= |more| && rx.Valid() && rx.state == RxIdle
      invariant Bodies(bodies[..i + 1]) && used == |ChopAll(bodies[..i + 1])| <= |bufs|
      invariant Arrived(rx, old(rx.disk), handle, path, size, Carried(first, more, i))
      decreases |bufs| - used
    {
      NotAllFrames(bodies, i + 1);
      ChopAllPrefix(bodies, i + 1);
      CarriedNext(first, more, i);
      CarriedGrows(first, more, i + 1);
      ContinueIsFrame(cnt, handle, more[i]);
      var n := ReceiveMore(rx, bufs[used..], old(rx.disk), cnt, handle, path, size, Carried(first, more, i), more[i]);
      used, i := used + n, i + 1;
      ChopAllPrefix(bodies, i + 1);
    }
    FramesLeft(bodies, i + 1);
  }

  lemma NoFrames(bodies: seq<seq<byte>>)
    requires Bodies(bodies)
    ensures Bodies(bodies[..0]) && ChopAll(bodies[..0]) == []
  {
  }

  lemma NotAllFrames(bodies: seq<seq<byte>>, i: nat)
    requires Bodies(bodies) && i <= |bodies| && Bodies(bodies[..i]) && |ChopAll(bodies[..i])| < |ChopAll(bodies)|
    ensures i < |bodies|
  {
    assert bodies[..|bodies|] == bodies;
  }

  lemma FramesLeft(bodies: seq<seq<byte>>, i: nat)
    requires Bodies(bodies) && i <= |bodies| && Bodies(bodies[..i]) && |ChopAll(bodies[..i])| == |ChopAll(bodies)|
    ensures i == |bodies|
  {
    hide Chop, ChopAll, Frame;
    if i < |bodies| {
      ChopAllPrefix(bodies, i);
      ChopAllPrefix(bodies, i + 1);
      ChopFirst(Frame(bodies[i]));
    }
  }

  /** A name of 61 bytes, in a folder of 39, whose parts all have accepted lengths: it reaches the directory loop
      and leaves its buffer. */
  method LongName() returns (path: seq<byte>, outcome: Outcome)
    ensures |path| == 61 && PathFits(path) && outcome == Outside
  {
    hide StrLen, From32, Length, BeginMessage;
    var rx := new RxBuf();
    var folder: seq<byte>, name: seq<byte> := seq(39, _ => 97) + [SLASH], seq(21, _ => 97);
    path := folder + name;
    assert path == folder + name + [];
    PartsUnique(folder, name, [], SLASH, DOT);
    var buf := BeginMessage([0, 0], path, 0, []);
    assert buf <= buf;
    BeginFields([0, 0], path, 0, [], buf);
    assert buf[SIZEOF_BEGINDL + |path|] == 0;
    outcome := rx.BeginDownload(buf, ALL_WELL);
  }

  /** A continue message for a handle that no table has. */
  method NoSuchHandle() returns (outcome: Outcome)
    ensures outcome == Outside
  {
    hide Length, ContinueMessage;
    var rx := new RxBuf();
    var buf := ContinueMessage([0, 0], MAX_FILE_HANDLES, []);
    assert buf <= buf;
    ContinueFields([0, 0], MAX_FILE_HANDLES, [], buf);
    outcome := rx.ContinueDownload(buf);
  }

  /** A file of 3000 bytes, continued by a message with 5000: what the file lacks is taken from a buffer that holds
      less. */
  method OverRead() returns (outcome: Outcome)
    ensures outcome == Outside
  {
    hide StrLen, From32, Length, BeginMessage, ContinueMessage, PathFits, FirstFree;
    var rx := new RxBuf();
    var path: seq<byte> := [97];
    ShortName(path);
    NoneNamed(rx.files[..]);
    var first := FirstOfBegin(rx, BeginMessage([0, 0], path, 3000, []), [0, 0], path, 3000, []);
    var m := ContinueMessage([0, 0], 0, seq(5000, _ => 0));
    var buf := m[..BUF_SIZE];
    ContinueFields([0, 0], 0, seq(5000, _ => 0), buf);
    outcome := rx.ContinueDownload(buf);
  }

  lemma ShortName(path: seq<byte>)
    requires path == [97]
    ensures PathFits(path)
  {
    assert [97] == [] + [97] + [];
    PartsUnique([], path, [], SLASH, DOT);
  }

  lemma NoneNamed(files: seq<Fil>)
    requires files != [] && forall h :: 0 <= h < |files| ==> !files[h].named
    ensures FirstFree(files) == 0
  {
  }

  lemma CarriedNone(first: seq<byte>, more: seq<seq<byte>>)
    ensures Carried(first, more, 0) == first
  {
    assert more[..0] == [];
  }

  lemma CarriedNext(first: seq<byte>, more: seq<seq<byte>>, i: nat)
    requires i < |more|
    ensures Carried(first, more, i + 1) == Carried(first, more, i) + more[i]
  {
    hide Flatten;
    assert more[..i + 1] == more[..i] + [more[i]];
    FlattenSnoc(more[..i], more[i]);
  }

  lemma {:induction false} CarriedGrows(first: seq<byte>, more: seq<seq<byte>>, i: nat)
    requires i <= |more|
    ensures |Carried(first, more, i)| <= |Carried(first, more, |more|)|
    decreases |more| - i
  {
    hide Carried;
    if i < |more| {
      CarriedNext(first, more, i);
      CarriedGrows(first, more, i + 1);
    }
  }
}
