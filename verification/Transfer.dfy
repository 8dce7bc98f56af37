/** Two bricks on a reliable channel: one sends a file or a folder, the other receives it. */
module Transfer {
  import opened Bytes
  import opened Frames
  import opened DownloadMessages
  import opened Receiver
  import opened Download
  import opened Sender

  /** The receiver's disk when `files` have arrived in order. */
  function Stored(disk: map<seq<byte>, seq<byte>>, files: seq<Entry>): map<seq<byte>, seq<byte>> {
    if files == [] then disk
    else Stored(disk, files[..|files| - 1])[files[|files| - 1].path := files[|files| - 1].content]
  }

  lemma StoredNext(disk: map<seq<byte>, seq<byte>>, files: seq<Entry>, e: Entry)
    ensures Stored(disk, files + [e]) == Stored(disk, files)[e.path := e.content]
  {
    assert (files + [e])[..|files|] == files;
  }

  /** Files with different paths are all found as they were sent. */
  lemma {:induction false} StoredHolds(disk: map<seq<byte>, seq<byte>>, files: seq<Entry>, i: nat)
    requires i < |files|
    requires forall j, k :: 0 <= j < k < |files| ==> files[j].path != files[k].path
    ensures files[i].path in Stored(disk, files) && Stored(disk, files)[files[i].path] == files[i].content
  {
    if i < |files| - 1 {
      StoredHolds(disk, files[..|files| - 1], i);
    }
  }

  ghost predicate SameNames(files: seq<Fil>, before: seq<Fil>) {
    |files| == |before| && forall k :: 0 <= k < |files| ==> files[k].named == before[k].named
  }

  lemma SameNamesFree(files: seq<Fil>, before: seq<Fil>)
    requires SameNames(files, before)
    ensures FirstFree(files) == FirstFree(before)
  {
  }

  /** The file under way has arrived up to what was acknowledged, through its own handle. */
  ghost predicate UnderWay(rx: RxBuf, tx: TxBuf, before: seq<Fil>, disk: map<seq<byte>, seq<byte>>)
    requires rx.Valid() && tx.Valid()
    reads rx, rx.files, tx
  {
    && tx.acknowledged < |tx.file.content| && |before| == MAX_FILE_HANDLES && FirstFree(before) >= 0
    && Part(rx, before, disk, tx.file, tx.acknowledged) && tx.remoteFileHandle == FirstFree(before)
  }

  /** `n` bytes of the file have arrived through the handle it was given. */
  ghost predicate Part(rx: RxBuf, before: seq<Fil>, disk: map<seq<byte>, seq<byte>>, e: Entry, n: nat)
    requires rx.Valid() && |before| == MAX_FILE_HANDLES && FirstFree(before) >= 0 && n < |e.content|
    reads rx, rx.files
  {
    var h := FirstFree(before);
    && rx.files[h] == Fil(true, true, e.path, |e.content|, n, e.content[..n])
    && (forall k :: 0 <= k < MAX_FILE_HANDLES && k != h ==> rx.files[k].named == before[k].named)
    && rx.disk == disk[e.path := e.content[..n]]
  }

  /** All of it has arrived and its handle is free again. */
  ghost predicate Whole(rx: RxBuf, before: seq<Fil>, disk: map<seq<byte>, seq<byte>>, e: Entry)
    reads rx, rx.files
  {
    SameNames(rx.files[..], before) && rx.disk == disk[e.path := e.content]
  }

  /** The receiver takes the begin message, unless its name is too long for the directory loop. */
  method ServeBegin(rx: RxBuf, block: seq<byte>, ghost before: seq<Fil>, ghost disk: map<seq<byte>, seq<byte>>,
                    ghost e: Entry, ghost n: nat) returns (inside: bool, reply: seq<byte>)
    requires rx.Valid() && rx.state == RxIdle && SameNames(rx.files[..], before) && rx.disk == disk
    requires |before| == MAX_FILE_HANDLES && FirstFree(before) >= 0
    requires EntryOk(e) && e.granted && n <= |e.content| && n <= MAX_MSG_SIZE && |block| <= BUF_SIZE
    requires block == BeginMessage([0, 0], e.path, |e.content|, e.content[..n])
    modifies rx`disk, rx`folders, rx`state, rx`msgLen, rx`rxBytes, rx`pFile, rx.files
    ensures rx.Valid() && (inside <==> FolderFits(e.path))
    ensures inside ==> rx.state == RxIdle
    ensures inside ==>
            reply == Reply([0, 0], SYSTEM_REPLY, BEGIN_DOWNLOAD, if n == |e.content| then END_OF_FILE else SUCCESS, FirstFree(before))
    ensures inside ==> if n < |e.content| then Part(rx, before, disk, e, n) else Whole(rx, before, disk, e)
  {
    hide StrLen, From32, Length, FirstFree, BeginMessage, FolderFits, FoldersOf, Reply, PathFits;
    assert block <= block;
    BeginFields([0, 0], e.path, |e.content|, e.content[..n], block);
    assert block[SIZEOF_BEGINDL + |e.path|] == 0;
    SameNamesFree(rx.files[..], before);
    var outcome := rx.BeginDownload(block, ALL_WELL);
    if outcome == Outside {
      return false, [];
    }
    inside, reply := true, outcome.reply;
    assert e.content[..n][..n] == e.content[..n];
    assert n == |e.content| ==> e.content[..n] == e.content;
  }

  /** The receiver takes a continue message. */
  method ServeContinue(rx: RxBuf, block: seq<byte>, ghost before: seq<Fil>, ghost disk: map<seq<byte>, seq<byte>>,
                       ghost e: Entry, ghost from: nat, ghost n: nat) returns (reply: seq<byte>)
    requires rx.Valid() && rx.state == RxIdle
    requires |before| == MAX_FILE_HANDLES && FirstFree(before) >= 0 && from < n <= |e.content| && n - from <= MAX_MSG_SIZE
    requires Part(rx, before, disk, e, from) && |block| <= BUF_SIZE
    requires block == ContinueMessage([0, 0], FirstFree(before), e.content[from..n])
    modifies rx`disk, rx`folders, rx`state, rx`msgLen, rx`rxBytes, rx`pFile, rx`fileHandle, rx.files
    ensures rx.Valid() && rx.state == RxIdle
    ensures reply == Reply([0, 0], SYSTEM_REPLY, CONTINUE_DOWNLOAD, if n == |e.content| then END_OF_FILE else SUCCESS, FirstFree(before))
    ensures if n < |e.content| then Part(rx, before, disk, e, n) else Whole(rx, before, disk, e)
  {
    hide Length, ContinueMessage, Reply, PathFits;
    ContinueFields([0, 0], FirstFree(before), e.content[from..n], block);
    var outcome := rx.ContinueDownload(block);
    reply := outcome.reply;
    assert e.content[from..n][..n - from] == e.content[from..n];
    assert e.content[..from] + e.content[from..n] == e.content[..n];
    assert n == |e.content| ==> e.content[..n] == e.content;
  }

  ghost predicate Granted(dir: seq<Entry>) { forall i :: 0 <= i < |dir| ==> dir[i].granted }

  ghost predicate AllFit(files: seq<Entry>) { forall i :: 0 <= i < |files| ==> FolderFits(files[i].path) }

  /** One round: the pending message goes over, the reply comes back.  The unsent rest of the file
      gets smaller, or the file is complete and the next one begins, or all is done; unless a begin message
      takes the receiver out of its folder buffer. */
  method Round(tx: TxBuf, rx: RxBuf, ghost before: seq<Fil>, ghost disk: map<seq<byte>, seq<byte>>) returns (inside: bool)
    requires rx.Valid() && tx.Valid() && rx.state == RxIdle && tx.Pending([0, 0]) && Granted(tx.dir)
    requires |before| == MAX_FILE_HANDLES && FirstFree(before) >= 0
    requires if tx.begun then UnderWay(rx, tx, before, disk) else SameNames(rx.files[..], before) && rx.disk == disk
    requires tx.pointer > tx.acknowledged || tx.file.content == []
    modifies tx, rx`disk, rx`folders, rx`state, rx`msgLen, rx`rxBytes, rx`pFile, rx`fileHandle, rx.files
    ensures rx.Valid() && tx.Valid() && (inside <==> old(tx.begun || FolderFits(tx.file.path)))
    ensures inside ==> rx.state == RxIdle
    ensures inside ==>
            if old(tx.subState) == InProgress then
              && tx.Pending([0, 0]) && tx.begun && tx.file == old(tx.file) && tx.dir == old(tx.dir) && tx.state == old(tx.state)
              && tx.pointer > tx.acknowledged == old(tx.pointer) && UnderWay(rx, tx, before, disk)
            else
              && Whole(rx, before, disk, old(tx.file))
              && if old(tx.state) == TxFolder && old(tx.dir) != [] then
                   tx.Pending([0, 0]) && !tx.begun && tx.file == old(tx.dir)[0] && tx.dir == old(tx.dir)[1..] &&
                   tx.state == TxFolder && (tx.pointer > 0 || tx.file.content == [])
                 else !tx.writing && tx.state == TxIdle && tx.comResult == Ok && tx.dir == old(tx.dir)
  {
    hide BeginMessage, ContinueMessage, FirstFree, Part, Whole, FolderFits, PathFits;
    var reply;
    inside := true;
    if tx.begun {
      ContinueFields([0, 0], tx.remoteFileHandle, tx.file.content[tx.acknowledged..tx.pointer], tx.block);
    } else {
      BeginLayout([0, 0], tx.file.path, |tx.file.content|, tx.file.content[..tx.pointer]);
    }
    if tx.block[5] == CONTINUE_DOWNLOAD {
      reply := ServeContinue(rx, tx.block, before, disk, tx.file, tx.acknowledged, tx.pointer);
    } else {
      inside, reply := ServeBegin(rx, tx.block, before, disk, tx.file, tx.pointer);
      if !inside {
        return;
      }
    }
    tx.writing := false;
    tx.SystemReply(reply);
  }

  /** The transfer runs until no message is pending.  It stays inside the receiver's buffers exactly if every
      name fits. */
  method Run(tx: TxBuf, rx: RxBuf, ghost files: seq<Entry>) returns (inside: bool)
    requires rx.Valid() && tx.Valid() && rx.state == RxIdle && tx.Pending([0, 0]) && !tx.begun && Granted(tx.dir)
    requires FirstFree(rx.files[..]) >= 0 && (tx.pointer > 0 || tx.file.content == [])
    requires files == [tx.file] + tx.dir && (tx.state != TxFolder ==> tx.dir == [])
    modifies tx, rx`disk, rx`folders, rx`state, rx`msgLen, rx`rxBytes, rx`pFile, rx`fileHandle, rx.files
    ensures rx.Valid() && tx.Valid() && (inside <==> AllFit(files))
    ensures inside ==> rx.state == RxIdle && !tx.writing && tx.state == TxIdle && tx.comResult == Ok
    ensures inside ==> rx.disk == Stored(old(rx.disk), files) && SameNames(rx.files[..], old(rx.files[..]))
  {
    hide FirstFree, Stored, FolderFits, Part, Whole, PathFits;
    ghost var before, start, done := rx.files[..], rx.disk, [];
    StoredNone(start);
    assert files == done + [tx.file] + tx.dir;
    while tx.writing
      invariant rx.Valid() && tx.Valid() && rx.state == RxIdle && Granted(tx.dir) && AllFit(done)
      invariant tx.state != TxFolder ==> tx.dir == []
      invariant tx.writing ==>
                  && tx.Pending([0, 0]) && files == done + [tx.file] + tx.dir
                  && (tx.pointer > tx.acknowledged || tx.file.content == [])
                  && if tx.begun then UnderWay(rx, tx, before, Stored(start, done)) && FolderFits(tx.file.path)
                     else SameNames(rx.files[..], before) && rx.disk == Stored(start, done)
      invariant !tx.writing ==>
                  && tx.state == TxIdle && tx.comResult == Ok && files == done
                  && SameNames(rx.files[..], before) && rx.disk == Stored(start, done)
      decreases |tx.dir|, tx.writing, |tx.file.content| - tx.pointer, tx.subState == InProgress
    {
      ghost var e, last := tx.file, tx.subState != InProgress;
      assert files[|done|] == e;
      inside := Round(tx, rx, before, Stored(start, done));
      if !inside {
        return;
      }
      if last {
        StoredNext(start, done, e);
        WholeIs(rx, before, Stored(start, done), e);
        done := done + [e];
      }
    }
    inside := true;
  }

  lemma StoredNone(disk: map<seq<byte>, seq<byte>>)
    ensures Stored(disk, []) == disk
  {
  }

  // What Whole says of the disk and the handles.
  lemma WholeIs(rx: RxBuf, before: seq<Fil>, disk: map<seq<byte>, seq<byte>>, e: Entry)
    requires Whole(rx, before, disk, e)
    ensures SameNames(rx.files[..], before) && rx.disk == disk[e.path := e.content]
  {
  }

  /** A single file: whatever its size, it ends up on the other brick byte for byte, exactly if its name fits the
      receiver's folder buffer. */
  method SendFile(tx: TxBuf, rx: RxBuf, e: Entry) returns (inside: bool)
    requires rx.Valid() && tx.Valid() && rx.state == RxIdle && tx.state == TxIdle && EntryOk(e) && e.granted
    requires FirstFree(rx.files[..]) >= 0
    modifies tx, rx`disk, rx`folders, rx`state, rx`msgLen, rx`rxBytes, rx`pFile, rx`fileHandle, rx.files
    ensures rx.Valid() && tx.Valid() && (inside <==> FolderFits(e.path))
    ensures inside ==> rx.state == RxIdle && tx.state == TxIdle && tx.comResult == Ok && !tx.writing
    ensures inside ==> rx.disk == old(rx.disk)[e.path := e.content] && SameNames(rx.files[..], old(rx.files[..]))
  {
    hide FirstFree, Stored, FolderFits, PathFits;
    tx.state, tx.dir, tx.comResult := TxFile, [], Busy;
    tx.CreateBeginDl(e);
    assert [e] + [] == [] + [e];
    StoredNone(rx.disk);
    StoredNext(rx.disk, [], e);
    inside := Run(tx, rx, [e]);
    assert AllFit([e]) <==> FolderFits([e][0].path);
  }

  /** A file for which the sending brick itself has no handle: nothing is sent, and the sender stays busy. */
  method SendUnnamed(tx: TxBuf, e: Entry)
    requires tx.Valid() && tx.state == TxIdle && tx.subState == SubstateIdle && !tx.writing && EntryOk(e) && !e.granted
    modifies tx
    ensures tx.Valid() && tx.state == TxFile && tx.subState == SubstateIdle && tx.comResult == Busy && !tx.writing
  {
    tx.state, tx.dir, tx.comResult := TxFile, [], Busy;
    tx.CreateBeginDl(e);
  }

  /** The receiver refuses: it has no handle, no room, or cannot open the file behind a name that fits. */
  ghost predicate Refuses(files: seq<Fil>, env: Environment, path: seq<byte>) {
    FirstFree(files) < 0 || !NameOk(path, env) || !env.room || (FolderFits(path) && !env.opens)
  }

  method RefuseBegin(rx: RxBuf, block: seq<byte>, env: Environment, ghost e: Entry, ghost n: nat) returns (reply: seq<byte>)
    requires rx.Valid() && rx.state == RxIdle && Refuses(rx.files[..], env, e.path)
    requires EntryOk(e) && e.granted && n <= |e.content| && n <= MAX_MSG_SIZE && |block| <= BUF_SIZE
    requires block == BeginMessage([0, 0], e.path, |e.content|, e.content[..n])
    modifies rx`disk, rx`folders, rx`state, rx`msgLen, rx`rxBytes, rx`pFile, rx.files
    ensures rx.Valid() && rx.state == RxIdle && |reply| == 8
    ensures reply[4] == SYSTEM_REPLY_ERROR && reply[5] == BEGIN_DOWNLOAD && reply[6] != SUCCESS
    ensures rx.disk == old(rx.disk) && SameNames(rx.files[..], old(rx.files[..]))
  {
    hide StrLen, From32, Length, FirstFree, BeginMessage, FolderFits, FoldersOf, PathFits;
    assert block <= block;
    BeginFields([0, 0], e.path, |e.content|, e.content[..n], block);
    assert block[SIZEOF_BEGINDL + |e.path|] == 0;
    var outcome := rx.BeginDownload(block, env);
    reply := outcome.reply;
  }

  /** A file the receiver refuses: the sender learns of the failure and is idle again, and no file or handle
      has changed on the receiver. */
  method SendRefused(tx: TxBuf, rx: RxBuf, e: Entry, env: Environment)
    requires rx.Valid() && tx.Valid() && rx.state == RxIdle && tx.state == TxIdle && EntryOk(e) && e.granted
    requires Refuses(rx.files[..], env, e.path)
    modifies tx, rx`disk, rx`folders, rx`state, rx`msgLen, rx`rxBytes, rx`pFile, rx.files
    ensures rx.Valid() && tx.Valid() && rx.state == RxIdle
    ensures tx.state == TxIdle && tx.comResult == Fail && !tx.writing && !tx.fileOpen
    ensures rx.disk == old(rx.disk) && SameNames(rx.files[..], old(rx.files[..]))
  {
    hide FirstFree, BeginMessage, Reply, Refuses, PathFits;
    tx.state, tx.dir, tx.comResult := TxFile, [], Busy;
    tx.CreateBeginDl(e);
    tx.writing := false;
    var reply := RefuseBegin(rx, tx.block, env, e, tx.pointer);
    tx.SystemReplyError(reply);
  }

  /** A folder: its files arrive one after the other, exactly if every name fits.  An empty folder sends
      nothing, reports success at once and leaves the sender in its folder state. */
  method SendFolder(tx: TxBuf, rx: RxBuf, files: seq<Entry>) returns (inside: bool)
    requires rx.Valid() && tx.Valid() && rx.state == RxIdle && tx.state == TxIdle && !tx.writing
    requires Granted(files) && forall i :: 0 <= i < |files| ==> EntryOk(files[i])
    requires FirstFree(rx.files[..]) >= 0
    modifies tx, rx`disk, rx`folders, rx`state, rx`msgLen, rx`rxBytes, rx`pFile, rx`fileHandle, rx.files
    ensures rx.Valid() && tx.Valid() && (inside <==> AllFit(files))
    ensures inside ==> rx.state == RxIdle && tx.comResult == Ok && !tx.writing
    ensures inside ==> tx.state == if files == [] then TxFolder else TxIdle
    ensures inside ==> rx.disk == Stored(old(rx.disk), files) && SameNames(rx.files[..], old(rx.files[..]))
  {
    hide FirstFree, Stored, FolderFits, PathFits;
    tx.state, tx.dir := TxFolder, files;
    if tx.dir != [] {
      tx.comResult := Busy;
      var e := tx.dir[0];
      tx.dir := tx.dir[1..];
      tx.CreateBeginDl(e);
      inside := Run(tx, rx, files);
    } else {
      StoredNone(rx.disk);
      tx.comResult := Ok;
      inside := true;
    }
  }
}
