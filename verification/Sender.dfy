/** The sending side of a brick-to-brick download: cComCreateBeginDl, cComCreateContinueDl and
    cComSystemReply. */
module Sender {
  import opened Bytes
  import opened Frames
  import opened FileNames
  import opened DownloadMessages

  const MAX_MSG_SIZE: nat := 1024

  /** The begin message as the code writes it, with its two length bytes computed apart. */
  function BeginBlock(length: nat, e: Entry, payload: seq<byte>): (b: seq<byte>)
    requires length < 0x1_0000 && |e.content| < 0x1_0000_0000
    ensures |b| == SIZEOF_BEGINDL + |e.path| + 1 + |payload|
  {
    [length % 256, length / 256, 0, 0, SYSTEM_COMMAND_REPLY, BEGIN_DOWNLOAD] + Le32(|e.content|) + e.path + [0] + payload
  }

  /** Its length bytes are right, whichever branch computed them. */
  lemma BeginBlockIs(e: Entry, payload: seq<byte>)
    requires EntryOk(e) && e.granted && |payload| < 2000
    ensures BeginBlock(|e.path| + |payload| + 9, e, payload) == BeginMessage([0, 0], e.path, |e.content|, payload)
  {
    hide Le32, PathFits;
    var n := |e.path| + |payload| + 9;
    assert Header(n) + [0, 0] + [SYSTEM_COMMAND_REPLY, BEGIN_DOWNLOAD] ==
           [n % 256, n / 256, 0, 0, SYSTEM_COMMAND_REPLY, BEGIN_DOWNLOAD];
  }

  /** A file that is to be sent; `granted` says whether this brick has a handle for its full name, which must
      then be short and valid. */
  datatype Entry = Entry(path: seq<byte>, content: seq<byte>, granted: bool)

  ghost predicate EntryOk(e: Entry) {
    PathOk(e.path) && |e.content| < 0x1_0000_0000 && (e.granted ==> |e.path| < FILENAMESIZE && PathFits(e.path))
  }

  datatype TxState = TxIdle | TxFolder | TxFile
  datatype SubState = SubstateIdle | InProgress | Complete
  datatype ComResult = Ok | Busy | Fail

  class TxBuf {
    var state: TxState
    var subState: SubState
    var comResult: ComResult
    var dir: seq<Entry>          // what readdir still yields of the folder
    var file: Entry              // *pFile
    var fileOpen: bool
    var pointer: nat             // pFile->Pointer
    var remoteFileHandle: byte
    var block: seq<byte>         // Buf[..BlockLen]
    var writing: bool

    /** How much of the file went out before this message; none for the begin message. */
    ghost var acknowledged: nat
    ghost var begun: bool

    ghost predicate Valid()
      reads this
    {
      && (forall i :: 0 <= i < |dir| ==> EntryOk(dir[i]))
      && (subState != SubstateIdle ==>
            && EntryOk(file) && file.granted && acknowledged <= pointer <= |file.content| && |block| <= MAX_MSG_SIZE
            && pointer - acknowledged <= MAX_MSG_SIZE
            && (subState == InProgress <==> pointer < |file.content|) && fileOpen == (subState == InProgress))
    }

    /** The pending message, as the receiver should understand it. */
    ghost predicate Pending(cnt: seq<byte>)
      requires Valid() && |cnt| == 2
      reads this
    {
      && writing && subState != SubstateIdle && |block| >= 2 && CmdSize(block) + 2 == |block|
      && if begun then acknowledged < |file.content| &&
                       block == ContinueMessage(cnt, remoteFileHandle, file.content[acknowledged..pointer])
         else acknowledged == 0 && block == BeginMessage(cnt, file.path, |file.content|, file.content[..pointer])
    }

    constructor ()
      ensures Valid() && !writing && state == TxIdle && subState == SubstateIdle
    {
      state, subState, comResult, dir, file := TxIdle, SubstateIdle, Ok, [], Entry([], [], false);
      fileOpen, pointer, remoteFileHandle, block, writing := false, 0, 0, [], false;
      acknowledged, begun := 0, false;
    }

    // cComCreateBeginDl
    method CreateBeginDl(e: Entry)
      requires Valid() && EntryOk(e)
      modifies this`subState, this`file, this`fileOpen, this`pointer, this`block, this`writing, this`acknowledged, this`begun
      ensures Valid()
      ensures e.granted ==> Pending([0, 0]) && file == e && !begun && (pointer > 0 || e.content == [])
      ensures !e.granted ==> subState == old(subState) && writing == old(writing) && pointer == old(pointer) && file == old(file)
    {
      hide BeginBlock, BeginMessage, PathFits, CmdSize;
      if !e.granted {
        return;
      }
      file, fileOpen := e, true;
      acknowledged, begun := 0, false;
      var index := |e.path| + 1 + SIZEOF_BEGINDL;
      var size := |e.content|;
      if MAX_MSG_SIZE - index < size {
        // the message cannot hold the complete file
        pointer := BUF_SIZE - index;
        block := BeginBlock(MAX_MSG_SIZE - 2, e, e.content[..pointer]);
        BeginBlockIs(e, e.content[..pointer]);
        subState := InProgress;
      } else {
        pointer := size;
        block := BeginBlock(size + index - 2, e, e.content[..pointer]);
        BeginBlockIs(e, e.content[..pointer]);
        fileOpen := false;
        subState := Complete;
      }
      writing := true;
      AnnouncesBegin([0, 0], e.path, size, e.content[..pointer]);
    }

    // cComCreateContinueDl
    method CreateContinueDl(reply: seq<byte>)
      requires Valid() && subState == InProgress && |reply| == 8
      modifies this`subState, this`fileOpen, this`pointer, this`block, this`writing, this`acknowledged, this`begun
      ensures Valid() && Pending(reply[2..4]) && begun
      ensures acknowledged == old(pointer) < pointer
    {
      hide PathFits;
      acknowledged, begun := pointer, true;
      var left := |file.content| - pointer;
      var readBytes := if MAX_MSG_SIZE - SIZEOF_CONTINUEDL < left then BUF_SIZE - SIZEOF_CONTINUEDL else left;
      block := ContinueMessage(reply[2..4], remoteFileHandle, file.content[pointer..pointer + readBytes]);
      if MAX_MSG_SIZE - SIZEOF_CONTINUEDL < left {
        subState := InProgress;
      } else {
        fileOpen := false;
        subState := Complete;
      }
      AnnouncesContinue(reply[2..4], remoteFileHandle, file.content[pointer..pointer + readBytes]);
      pointer := pointer + readBytes;
      writing := true;
    }

    /** The file is complete: the next one of the folder, or the end. */
    method NextFile()
      requires Valid() && subState == Complete && !writing
      modifies this
      ensures Valid() && remoteFileHandle == old(remoteFileHandle)
      ensures if old(state) == TxFolder && old(dir) != [] then
                && dir == old(dir)[1..] && state == TxFolder
                && if old(dir)[0].granted then
                     Pending([0, 0]) && !begun && file == old(dir)[0] && (pointer > 0 || file.content == [])
                   else !writing && subState == Complete && comResult == old(comResult)
              else !writing && state == TxIdle && subState == SubstateIdle && comResult == Ok && dir == old(dir)
    {
      hide PathFits;
      if state == TxFolder && dir != [] {
        var e := dir[0];
        dir := dir[1..];
        CreateBeginDl(e);
      } else {
        state, subState, comResult := TxIdle, SubstateIdle, Ok;
      }
    }

    // cComSystemReply
    method SystemReply(reply: seq<byte>)
      requires Valid() && !writing && |reply| == 8
      modifies this
      ensures Valid()
      ensures if || old(subState) == SubstateIdle
                 || (reply[5] != BEGIN_DOWNLOAD && reply[5] != CONTINUE_DOWNLOAD)
                 || (reply[6] != SUCCESS && reply[6] != END_OF_FILE) then
                !writing && subState == old(subState) && state == old(state) && pointer == old(pointer) && dir == old(dir)
              else if old(subState) == InProgress then
                && Pending(reply[2..4]) && begun && file == old(file) && dir == old(dir) && state == old(state)
                && acknowledged == old(pointer) < pointer
                && remoteFileHandle == if reply[5] == BEGIN_DOWNLOAD then reply[7] else old(remoteFileHandle)
              else if old(state) == TxFolder && old(dir) != [] then
                && dir == old(dir)[1..] && state == TxFolder
                && if old(dir)[0].granted then
                     Pending([0, 0]) && !begun && file == old(dir)[0] && (pointer > 0 || file.content == [])
                   else !writing && subState == Complete && comResult == old(comResult)
              else !writing && state == TxIdle && subState == SubstateIdle && comResult == Ok && dir == old(dir)
    {
      hide PathFits;
      if reply[5] == BEGIN_DOWNLOAD || reply[5] == CONTINUE_DOWNLOAD {
        if reply[6] == SUCCESS || reply[6] == END_OF_FILE {
          if reply[5] == BEGIN_DOWNLOAD {
            remoteFileHandle := reply[7];
          }
          if subState == InProgress {
            CreateContinueDl(reply);
          } else if subState == Complete {
            NextFile();
          }
        }
      }
    }

    // cComSystemReplyError: only a refused begin message ends the transfer
    method SystemReplyError(reply: seq<byte>)
      requires Valid() && |reply| == 8
      modifies this`state, this`subState, this`comResult, this`fileOpen
      ensures Valid()
      ensures if reply[5] == BEGIN_DOWNLOAD then
                state == TxIdle && subState == SubstateIdle && comResult == Fail &&
                fileOpen == (old(fileOpen) && old(subState) != InProgress)
              else state == old(state) && subState == old(subState) && comResult == old(comResult) && fileOpen == old(fileOpen)
    {
      if reply[5] == BEGIN_DOWNLOAD {
        if subState == InProgress {
          fileOpen := false;
        }
        state, subState, comResult := TxIdle, SubstateIdle, Fail;
      }
    }
  }
}
