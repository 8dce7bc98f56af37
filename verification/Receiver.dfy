/** The receiving side of a download: the BEGIN_DOWNLOAD and CONTINUE_DOWNLOAD cases of
    cComSystemCommand and the resumption of a message larger than the buffer in cComUpdate. */
module Receiver {
  import opened Bytes
  import opened Frames
  import opened FileNames
  import opened DownloadMessages

  const MAX_FILE_HANDLES: nat := 64
  const FOLDER_SIZE: nat := 60              // of the buffer the name is copied into
  const MAX_FILENAME_SIZE: nat := 119

  /** What a command does for its sender, or that the code would now leave one of its arrays: the model stops. */
  datatype Outcome = Answer(reply: seq<byte>) | Outside

  /** The command is answered by these eight bytes, which announce their own length. */
  predicate Replies(outcome: Outcome, cnt: seq<byte>, cmdType: byte, cmd: byte, status: byte, handle: byte)
    requires |cnt| == 2
  {
    && outcome == Answer(Reply(cnt, cmdType, cmd, status, handle))
    && IsReply(outcome.reply, cnt, cmdType, cmd, status, handle)
  }

  /** FIL: `named` is Name[0] != 0, `open` is File >= 0, and `data` what was written through it. */
  datatype Fil = Fil(named: bool, open: bool, path: seq<byte>, size: nat, pointer: nat, data: seq<byte>)

  datatype RxState = RxIdle | RxFileDl

  /** What the environment says of a begin message: are the characters of the name valid, is there room, does
      open succeed; and whether the byte behind the table of files is non-zero. */
  datatype Environment = Environment(valid: bool, room: bool, opens: bool, behind: bool)

  // What cMemoryCheckFilename says of a name.
  predicate NameOk(path: seq<byte>, env: Environment) { PathFits(path) && env.valid }

  /** The copy of the name stays inside its buffer, with the zero behind each slash. */
  predicate FolderFits(path: seq<byte>) {
    |path| <= FOLDER_SIZE && !(|path| == FOLDER_SIZE && path[FOLDER_SIZE - 1] == SLASH)
  }

  // "~/" and "../" are not made.
  predicate Special(folder: seq<byte>) { folder == [126, 47] || folder == [46, 46, 47] }

  /** The folders named by the first `n` bytes of a path. */
  function FoldersOf(path: seq<byte>, n: nat): set<seq<byte>>
    requires n <= |path|
  {
    if n == 0 then {}
    else FoldersOf(path, n - 1) + (if path[n - 1] == SLASH && !Special(path[..n]) then {path[..n]} else {})
  }

  /** They are the prefixes that end in a slash, but for the two that are not made. */
  lemma {:induction false} FolderNames(path: seq<byte>, n: nat, f: seq<byte>)
    requires n <= |path|
    ensures f in FoldersOf(path, n) <==>
              && 1 <= |f| <= n && f <= path && f[|f| - 1] == '/' as int
              && f != ['~' as int, '/' as int] && f != ['.' as int, '.' as int, '/' as int]
  {
    if n > 0 {
      FolderNames(path, n - 1, f);
      assert |f| == n && f <= path ==> f == path[..n];
    }
  }

  /** The handle a new file would get. */
  function FirstFree(files: seq<Fil>): (h: int)
    ensures -1 <= h < |files|
    ensures h >= 0 ==> !files[h].named && forall k :: 0 <= k < h ==> files[k].named
    ensures h == -1 ==> forall k :: 0 <= k < |files| ==> files[k].named
  {
    if files == [] then -1
    else if !files[0].named then 0
    else
      var h := FirstFree(files[1..]);
      assert h == -1 ==> forall k :: 1 <= k < |files| ==> files[k] == files[1..][k - 1];
      assert h >= 0 ==> forall k :: 1 <= k <= h ==> files[k] == files[1..][k - 1];
      if h == -1 then -1 else h + 1
  }

  /** A file after `data` has been written to it, or only counted if it is closed; it is closed when full. */
  function Advanced(f: Fil, data: seq<byte>): Fil {
    f.(pointer := f.pointer + |data|, data := if f.open then f.data + data else f.data,
       open := f.open && f.pointer + |data| < f.size)
  }

  /** The table after `data` went to file `p` behind the first buffer of its message: a full file frees `h`. */
  function Continued(files: seq<Fil>, p: nat, h: nat, data: seq<byte>): (files': seq<Fil>)
    requires p < |files| && h < |files|
    ensures |files'| == |files|
  {
    var files' := files[p := Advanced(files[p], data)];
    if files'[p].pointer < files[p].size then files' else files'[h := files'[h].(named := false)]
  }

  /** As long as the file is not full, writing goes on where it stopped. */
  lemma ContinuedOn(files: seq<Fil>, p: nat, h: nat, a: seq<byte>, b: seq<byte>)
    requires p < |files| && h < |files| && files[p].open && files[p].pointer + |a| < files[p].size
    ensures Continued(Continued(files, p, h, a), p, h, b) == Continued(files, p, h, a + b)
  {
    assert files[p].data + a + b == files[p].data + (a + b);
  }

  lemma NotContinued(files: seq<Fil>, p: nat, h: nat)
    requires p < |files| && h < |files| && files[p].open && files[p].pointer < files[p].size
    ensures Continued(files, p, h, []) == files
  {
    assert files[p].data + [] == files[p].data;
  }

  lemma FirstFreeIs(files: seq<Fil>, h: nat)
    requires h <= |files| && (h < |files| ==> !files[h].named) && forall k :: 0 <= k < h ==> files[k].named
    ensures FirstFree(files) == if h < |files| then h else -1
  {
  }

  class RxBuf {
    const files: array<Fil>                  // ComInstance.Files
    var disk: map<seq<byte>, seq<byte>>      // the files of the file system
    var folders: set<seq<byte>>              // the folders mkdir was called for
    var state: RxState
    var msgLen: nat
    var rxBytes: nat
    var pFile: nat                           // index of *pFile
    var fileHandle: nat

    ghost predicate Valid()
      reads this, files
    {
      && files.Length == MAX_FILE_HANDLES && pFile < MAX_FILE_HANDLES && fileHandle < MAX_FILE_HANDLES
      && (forall h :: 0 <= h < MAX_FILE_HANDLES ==> FilOk(files[h]))
      && (state == RxFileDl ==> rxBytes < msgLen)
    }

    ghost predicate FilOk(f: Fil) {
      f.open ==> f.pointer == |f.data| < f.size < 0x1_0000_0000
    }

    constructor ()
      ensures Valid() && state == RxIdle && disk == map[] && folders == {} && fresh(files)
      ensures forall h :: 0 <= h < MAX_FILE_HANDLES ==> !files[h].named
    {
      files := new Fil[MAX_FILE_HANDLES](_ => Fil(false, false, [], 0, 0, []));
      disk, folders, state, msgLen, rxBytes, pFile, fileHandle := map[], {}, RxIdle, 0, 0, 0, 0;
    }

    // cComGetHandle. When every handle is taken, it looks at the byte behind the table, which makes no difference.
    method GetHandle(path: seq<byte>, env: Environment) returns (result: int)
      requires Valid()
      modifies files
      ensures Valid()
      ensures result == if NameOk(path, env) then FirstFree(old(files[..])) else -1
      ensures files[..] == if result < 0 then old(files[..])
                           else old(files[..])[result := old(files[..])[result].(named := true, path := path)]
    {
      hide NameFits, FirstFree;
      result := 0;
      ghost var before := files[..];
      while (if result < MAX_FILE_HANDLES then files[result].named else env.behind) && result < MAX_FILE_HANDLES
        invariant 0 <= result <= MAX_FILE_HANDLES && files[..] == before
        invariant forall k :: 0 <= k < result ==> before[k].named
      {
        result := result + 1;
      }
      FirstFreeIs(before, result);
      if result < MAX_FILE_HANDLES {
        var inside, ok := CheckFilename(path, SLASH, DOT, env.valid);
        if ok {
          files[result] := files[result].(named := true, path := path);
        } else {
          result := -1;
        }
      } else {
        result := -1;
      }
    }

    /** write() to a file, which does nothing if it is closed, and the count of what was given to it. */
    method Write(h: nat, data: seq<byte>)
      requires files.Length == MAX_FILE_HANDLES && h < MAX_FILE_HANDLES
      modifies this`disk, files
      ensures var f := old(files[h]);
              var data' := if f.open then f.data + data else f.data;
              files[..] == old(files[..])[h := f.(pointer := f.pointer + |data|, data := data')] &&
              disk == if f.open then old(disk)[f.path := data'] else old(disk)
    {
      if files[h].open {
        files[h] := files[h].(data := files[h].data + data);
        disk := disk[files[h].path := files[h].data];
      }
      files[h] := files[h].(pointer := files[h].pointer + |data|);
    }

    /** The loop that makes the folders of a name on its way into `folder`. */
    method MakeFolders(path: seq<byte>) returns (inside: bool)
      requires 0 !in path
      modifies this`folders
      ensures inside <==> FolderFits(path)
      ensures inside ==> folders == old(folders) + FoldersOf(path, |path|)
    {
      var folder := new byte[FOLDER_SIZE](_ => 0);
      var tmp := 0;
      while tmp < |path| && tmp < MAX_FILENAME_SIZE - 1
        invariant tmp <= |path| && tmp <= FOLDER_SIZE
        invariant folder[..tmp] == path[..tmp]
        invariant tmp == FOLDER_SIZE ==> path[FOLDER_SIZE - 1] != SLASH
        invariant folders == old(folders) + FoldersOf(path, tmp)
      {
        if tmp == FOLDER_SIZE {
          return false;
        }
        folder[tmp] := path[tmp];
        assert folder[..tmp + 1] == path[..tmp] + [path[tmp]] == path[..tmp + 1];
        if folder[tmp] == SLASH {
          if tmp + 1 == FOLDER_SIZE {
            return false;
          }
          folder[tmp + 1] := 0;
          if !Special(folder[..tmp + 1]) {
            folders := folders + {folder[..tmp + 1]};
          }
        }
        tmp := tmp + 1;
      }
      return true;
    }

    /** The first buffer of a begin message, with the end of its name. */
    ghost predicate BeginOk(buf: seq<byte>)
    {
      && SIZEOF_BEGINDL < |buf| == Min(CmdSize(buf) + 2, BUF_SIZE)
      && exists k :: SIZEOF_BEGINDL <= k < |buf| && buf[k] == 0
    }

    method Respond(cnt: seq<byte>, cmdType: byte, cmd: byte, status: byte, handle: byte) returns (outcome: Outcome)
      requires |cnt| == 2
      ensures Replies(outcome, cnt, cmdType, cmd, status, handle)
    {
      outcome := Answer(Reply(cnt, cmdType, cmd, status, handle));
    }

    // cComSystemCommand, case BEGIN_DOWNLOAD
    method BeginDownload(buf: seq<byte>, env: Environment) returns (outcome: Outcome)
      requires Valid() && state == RxIdle && BeginOk(buf)
      modifies this`disk, this`folders, this`state, this`msgLen, this`rxBytes, this`pFile, files
      ensures Valid()
      ensures var strlen := StrLen(buf, SIZEOF_BEGINDL);
              var path, payload := buf[SIZEOF_BEGINDL..SIZEOF_BEGINDL + strlen], buf[SIZEOF_BEGINDL + strlen + 1..];
              var size := From32(buf[6..10]);
              var h := if NameOk(path, env) then FirstFree(old(files[..])) else -1;
              if h == -1 then
                folders == old(folders) && Refused(old(files[..]), old(disk), outcome, buf[2..4], NO_HANDLES_AVAILABLE)
              else if !env.room then
                folders == old(folders) && Refused(old(files[..]), old(disk), outcome, buf[2..4], SIZE_ERROR)
              else if !FolderFits(path) then
                outcome == Outside
              else
                && folders == old(folders) + FoldersOf(path, |path|)
                && if !env.opens then
                     Refused(old(files[..]), old(disk), outcome, buf[2..4], UNKNOWN_HANDLE)
                   else
                     var data := payload[..Min(|payload|, size)];
                     && files[..] == old(files[..])[h := Fil(|data| < size, |data| < size, path, size, |data|, data)]
                     && disk == old(disk)[path := data]
                     && Replies(outcome, buf[2..4], SYSTEM_REPLY, BEGIN_DOWNLOAD,
                               if |data| == size then END_OF_FILE else SUCCESS, h)
                     && pFile == h && msgLen == CmdSize(buf) + 2 - (SIZEOF_BEGINDL + strlen + 1) && rxBytes == |data|
                     && state == if CmdSize(buf) + 2 > BUF_SIZE && |data| < size then RxFileDl else RxIdle
    {
      hide StrLen, From32, Length, FirstFree, FolderFits, FoldersOf, Replies, Refused, PathFits;
      var cmdSize := CmdSize(buf);
      var strlen := StrLen(buf, SIZEOF_BEGINDL);
      var path := buf[SIZEOF_BEGINDL..SIZEOF_BEGINDL + strlen];
      ghost var before := files[..];
      var handle := GetHandle(path, env);
      if handle < 0 || !env.room {
        outcome := Refuse(handle, buf[2..4], if handle < 0 then NO_HANDLES_AVAILABLE else SIZE_ERROR, before);
        return;
      }
      var inside := MakeFolders(path);
      if !inside {
        return Outside;
      }
      if !env.opens {
        outcome := Refuse(handle, buf[2..4], UNKNOWN_HANDLE, before);
      } else {
        var status := StartFile(handle, cmdSize, path, From32(buf[6..10]), buf[SIZEOF_BEGINDL + strlen + 1..]);
        outcome := Respond(buf[2..4], SYSTEM_REPLY, BEGIN_DOWNLOAD, status, handle);
      }
    }

    /** The file is open: write what this buffer holds of it. */
    method StartFile(handle: nat, cmdSize: nat, path: seq<byte>, size: nat, payload: seq<byte>) returns (status: byte)
      requires Valid() && state == RxIdle && handle < MAX_FILE_HANDLES && size < 0x1_0000_0000
      requires SIZEOF_BEGINDL + |path| + 1 + |payload| == Min(cmdSize + 2, BUF_SIZE)
      modifies this`disk, this`state, this`msgLen, this`rxBytes, this`pFile, files
      ensures Valid()
      ensures var data := payload[..Min(|payload|, size)];
              && files[..] == old(files[..])[handle := Fil(|data| < size, |data| < size, path, size, |data|, data)]
              && disk == old(disk)[path := data]
              && status == (if |data| == size then END_OF_FILE else SUCCESS)
              && pFile == handle && msgLen == cmdSize + 2 - (SIZEOF_BEGINDL + |path| + 1) && rxBytes == |data|
              && state == if cmdSize + 2 > BUF_SIZE && |data| < size then RxFileDl else RxIdle
    {
      var header := SIZEOF_BEGINDL + |path| + 1;
      pFile := handle;
      files[handle] := Fil(true, true, path, size, 0, []);
      msgLen := cmdSize + 2 - header;
      var bytesToWrite := if cmdSize <= BUF_SIZE - 2 then msgLen else BUF_SIZE - header;
      state := if cmdSize <= BUF_SIZE - 2 then RxIdle else RxFileDl;
      status := SUCCESS;
      if bytesToWrite > size {
        status, bytesToWrite := SIZE_ERROR, size;
      }
      assert [] + payload[..bytesToWrite] == payload[..bytesToWrite];
      Write(handle, payload[..bytesToWrite]);
      rxBytes := bytesToWrite;
      if files[handle].pointer >= size {
        files[handle] := files[handle].(open := false, named := false);
        status, state := END_OF_FILE, RxIdle;
      }
    }

    // cComFreeHandle
    method FreeHandle(h: nat)
      requires Valid() && h < MAX_FILE_HANDLES
      modifies files
      ensures Valid()
      ensures files[..] == old(files[..])[h := old(files[h]).(named := false)]
    {
      files[h] := files[h].(named := false);
    }

    /** The handle is given back, if one was taken, and an error reported. */
    method Refuse(handle: int, cnt: seq<byte>, status: byte, ghost before: seq<Fil>) returns (outcome: Outcome)
      requires Valid() && state == RxIdle && handle < MAX_FILE_HANDLES && |cnt| == 2 && |before| == MAX_FILE_HANDLES
      requires handle >= 0 ==> !before[handle].named
      requires forall k :: 0 <= k < MAX_FILE_HANDLES && k != handle ==> files[k] == before[k]
      modifies files
      ensures Valid() && Refused(before, disk, outcome, cnt, status)
    {
      hide Replies;
      if handle >= 0 {
        FreeHandle(handle);
      }
      outcome := Respond(cnt, SYSTEM_REPLY_ERROR, BEGIN_DOWNLOAD, status, MINUS_ONE);
    }

    /** An error reply; no file is touched and no handle stays taken. */
    ghost predicate Refused(before: seq<Fil>, disk0: map<seq<byte>, seq<byte>>, outcome: Outcome, cnt: seq<byte>, status: byte)
      requires Valid() && |before| == MAX_FILE_HANDLES && |cnt| == 2
      reads this, files
    {
      && disk == disk0 && state == RxIdle
      && (forall k :: 0 <= k < MAX_FILE_HANDLES ==>
            files[k].named == before[k].named && (before[k].named ==> files[k] == before[k]))
      && Replies(outcome, cnt, SYSTEM_REPLY_ERROR, BEGIN_DOWNLOAD, status, MINUS_ONE)
    }

    /** The first buffer of a continue message. */
    ghost predicate ContinueOk(buf: seq<byte>)
    {
      SIZEOF_CONTINUEDL <= |buf| == Min(CmdSize(buf) + 2, BUF_SIZE)
    }

    /** How much of a continue message is written at once: what the buffer holds, or what the file lacks if the
        whole message exceeds it. */
    function ToWrite(f: Fil, cmdSize: nat): nat
      requires f.pointer <= f.size && SIZEOF_CONTINUEDL <= cmdSize + 2
    {
      if f.pointer + (cmdSize + 2 - SIZEOF_CONTINUEDL) > f.size then f.size - f.pointer
      else Min(cmdSize + 2, BUF_SIZE) - SIZEOF_CONTINUEDL
    }

    /** There is no such handle, or more is written than the buffer holds. */
    predicate LeavesArrays(h: byte, cmdSize: nat)
      requires files.Length == MAX_FILE_HANDLES && SIZEOF_CONTINUEDL <= cmdSize + 2
      reads this, files
    {
      || MAX_FILE_HANDLES <= h < 128
      || (h < MAX_FILE_HANDLES && files[h].named && files[h].open && files[h].pointer <= files[h].size &&
          ToWrite(files[h], cmdSize) > Min(cmdSize + 2, BUF_SIZE) - SIZEOF_CONTINUEDL)
    }

    // cComSystemCommand, case CONTINUE_DOWNLOAD
    method ContinueDownload(buf: seq<byte>) returns (outcome: Outcome)
      requires Valid() && state == RxIdle && ContinueOk(buf)
      modifies this`disk, this`state, this`msgLen, this`rxBytes, this`pFile, this`fileHandle, files
      ensures Valid()
      ensures outcome == Outside <==> old(LeavesArrays(buf[6], CmdSize(buf)))
      ensures var h, payload := buf[6], buf[SIZEOF_CONTINUEDL..];
              if old(LeavesArrays(h, CmdSize(buf))) then
                true
              else if h >= 128 || !old(files[h].named) then
                && files[..] == old(files[..]) && disk == old(disk) && state == RxIdle
                && Replies(outcome, buf[2..4], SYSTEM_REPLY_ERROR, CONTINUE_DOWNLOAD, UNKNOWN_HANDLE, MINUS_ONE)
              else if !old(files[h].open) then
                && files[..] == old(files[..])[h := old(files[h]).(named := false)] && disk == old(disk) && state == RxIdle
                && Replies(outcome, buf[2..4], SYSTEM_REPLY_ERROR, CONTINUE_DOWNLOAD, UNKNOWN_ERROR, MINUS_ONE)
              else
                var f := old(files[h]);
                var data := payload[..ToWrite(f, CmdSize(buf))];
                && Appended(old(files[..]), old(disk), h, data, f.pointer + |data| < f.size)
                && Replies(outcome, buf[2..4], SYSTEM_REPLY, CONTINUE_DOWNLOAD,
                               if f.pointer + |data| == f.size then END_OF_FILE else SUCCESS, h)
                && pFile == fileHandle == h && rxBytes == |data| && msgLen == CmdSize(buf) + 2 - SIZEOF_CONTINUEDL
                && state == if CmdSize(buf) + 2 > BUF_SIZE then RxFileDl else RxIdle
    {
      hide Length, Replies;
      var cmdSize := CmdSize(buf);
      var handle := buf[6];
      if MAX_FILE_HANDLES <= handle < 128 {
        return Outside;
      }
      if handle >= 128 || !files[handle].named {
        outcome := Respond(buf[2..4], SYSTEM_REPLY_ERROR, CONTINUE_DOWNLOAD, UNKNOWN_HANDLE, MINUS_ONE);
      } else {
        fileHandle, pFile := handle, handle;
        if files[handle].open {
          var inside, status := ContinueFile(handle, cmdSize, buf[SIZEOF_CONTINUEDL..]);
          if !inside {
            return Outside;
          }
          outcome := Respond(buf[2..4], SYSTEM_REPLY, CONTINUE_DOWNLOAD, status, handle);
        } else {
          outcome := Respond(buf[2..4], SYSTEM_REPLY_ERROR, CONTINUE_DOWNLOAD, UNKNOWN_ERROR, MINUS_ONE);
          FreeHandle(handle);
        }
      }
    }

    /** `data` went to the end of file `h`, which stays open or is closed and freed. */
    ghost predicate Appended(before: seq<Fil>, disk0: map<seq<byte>, seq<byte>>, h: nat, data: seq<byte>, stays: bool)
      requires Valid() && |before| == MAX_FILE_HANDLES && h < MAX_FILE_HANDLES
      reads this, files
    {
      var f := before[h];
      && files[..] == before[h := f.(pointer := f.pointer + |data|, data := f.data + data,
                                      named := f.named && stays, open := stays)]
      && disk == disk0[f.path := f.data + data]
    }

    method ContinueFile(handle: nat, cmdSize: nat, payload: seq<byte>) returns (inside: bool, status: byte)
      requires Valid() && state == RxIdle && handle < MAX_FILE_HANDLES && files[handle].open && files[handle].named
      requires SIZEOF_CONTINUEDL + |payload| == Min(cmdSize + 2, BUF_SIZE)
      modifies this`disk, this`state, this`msgLen, this`rxBytes, files
      ensures inside <==> ToWrite(old(files[handle]), cmdSize) <= |payload|
      ensures Valid()
      ensures inside ==>
              var f := old(files[handle]);
              var data := payload[..ToWrite(f, cmdSize)];
              && Appended(old(files[..]), old(disk), handle, data, f.pointer + |data| < f.size)
              && status == (if f.pointer + |data| == f.size then END_OF_FILE else SUCCESS)
              && rxBytes == |data| && msgLen == cmdSize + 2 - SIZEOF_CONTINUEDL
              && state == if cmdSize + 2 > BUF_SIZE then RxFileDl else RxIdle
    {
      status := SUCCESS;
      msgLen, rxBytes := cmdSize + 2 - SIZEOF_CONTINUEDL, 0;
      var bytesToWrite := if cmdSize <= BUF_SIZE - 2 then msgLen else BUF_SIZE - SIZEOF_CONTINUEDL;
      state := if cmdSize <= BUF_SIZE - 2 then RxIdle else RxFileDl;
      if files[handle].pointer + msgLen > files[handle].size {
        bytesToWrite := files[handle].size - files[handle].pointer;
      }
      if bytesToWrite > |payload| {
        return false, status;
      }
      Write(handle, payload[..bytesToWrite]);
      rxBytes := bytesToWrite;
      if files[handle].pointer >= files[handle].size {
        files[handle] := files[handle].(open := false, named := false);
        status := END_OF_FILE;
      }
      return true, status;
    }

    // cComUpdate, in the middle of a write file command
    method Resume(buf: seq<byte>)
      requires Valid() && state == RxFileDl && Min(msgLen - rxBytes, BUF_SIZE) <= |buf|
      modifies this`disk, this`state, this`rxBytes, files
      ensures Valid()
      ensures var n := Min(old(msgLen - rxBytes), BUF_SIZE);
              var f := old(files[pFile]);
              && rxBytes == old(rxBytes) + n && state == (if rxBytes < msgLen then RxFileDl else RxIdle)
              && disk == (if f.open then old(disk)[f.path := f.data + buf[..n]] else old(disk))
              && files[..] == Continued(old(files[..]), pFile, fileHandle, buf[..n])
    {
      var remBytes := msgLen - rxBytes;
      var bytesToWrite := BUF_SIZE;
      if remBytes <= BUF_SIZE {
        bytesToWrite := remBytes;
        state := RxIdle;
      }
      Write(pFile, buf[..bytesToWrite]);
      rxBytes := rxBytes + bytesToWrite;
      if files[pFile].pointer >= files[pFile].size {
        files[pFile] := files[pFile].(open := false);
        files[fileHandle] := files[fileHandle].(named := false);
      }
    }
  }
}
