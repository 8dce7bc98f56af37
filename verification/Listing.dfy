/** The streamed directory listing: LIST_FILES starts it, cComTxUpdate continues a message larger than
    the buffer, CONTINUE_LIST_FILES starts the next message.  Each of the three has its own loop that
    resumes inside an entry's text. */
module Listing {
  import opened Bytes
  import opened Frames
  import opened ListingEntries

  const SIZEOF_RPLYBEGINLIST: nat := 12
  const SIZEOF_RPLYCONTINUELIST: nat := 8

  datatype TxState = TxIdle | TxListFiles

  // What LIST_FILES answers, or that it leaves its arrays: the model stops.
  datatype Listed = Refused | Begun(payload: seq<byte>) | Outside

  /** The texts of the entries below index `n`, highest index first. */
  function Rest(texts: seq<seq<byte>>, n: nat): seq<byte>
    requires n <= |texts|
  {
    if n == 0 then [] else texts[n - 1] + Rest(texts, n - 1)
  }

  function Full(texts: seq<seq<byte>>): seq<byte> {
    Rest(texts, |texts|)
  }

  /** A place in the list: between two entries, or `length` bytes into the text of entry `file`. */
  ghost predicate Position(texts: seq<seq<byte>>, file: nat, length: nat) {
    file <= |texts| && (length > 0 ==> file < |texts| && length < |texts[file]|)
  }

  ghost function From(texts: seq<seq<byte>>, file: nat, length: nat): seq<byte>
    requires Position(texts, file, length)
  {
    if length > 0 then texts[file][length..] + Rest(texts, file) else Rest(texts, file)
  }

  class ListTx {
    const entries: seq<Entry>           // namelist
    const folder: seq<byte>             // Folder
    ghost const texts: seq<seq<byte>>   // what cComGetNameFromScandirList gives for each entry
    var file: nat                 // pFile->File, the entry being sent or the one above the next
    var length: nat               // pFile->Length, bytes already sent of entry `file`, if split
    var pointer: nat              // pFile->Pointer
    var size: nat                 // pFile->Size, the announced list size
    var msgLen: nat
    var sendBytes: nat
    var state: TxState
    var freed: bool               // namelist has been given back

    ghost predicate Named() {
      texts == Texts(entries) && forall i :: 0 <= i < |entries| ==> EntryOk(entries[i])
    }

    /** What is still to be sent, by the saved position. */
    ghost function Remaining(): seq<byte>
      requires Position(texts, file, length)
      reads this`file, this`length
    {
      From(texts, file, length)
    }

    ghost predicate Valid()
      reads this
    {
      && Named() && Position(texts, file, length)
      && size == |Full(texts)| && pointer <= size
      && (state == TxListFiles ==> sendBytes < msgLen && msgLen - sendBytes <= size - pointer)
      && (freed ==> pointer == size)
    }

    /** The saved position is an entry that has been sent to its end. */
    ghost predicate BehindLine()
      requires Named()
      reads this
    {
      length == 0 && file < |entries| && texts[file] != []
    }

    /** Everything is sent; what lies below the saved position has no line. */
    ghost predicate Done()
      requires Named() && entries != []
      reads this`pointer, this`size, this`length, this`file
    {
      pointer == size && length == 0 && (file > 0 <==> texts[0] == [])
    }

    /** The saved position is where the bytes sent so far end. */
    ghost predicate InSync()
      requires Valid()
      reads this
    {
      Remaining() == Full(texts)[pointer..]
    }

    constructor (entries: seq<Entry>, folder: seq<byte>)
      requires forall i :: 0 <= i < |entries| ==> EntryOk(entries[i])
      ensures Ready() && this.entries == entries && this.folder == folder
    {
      this.entries, this.folder, this.texts := entries, folder, Texts(entries);
      file, length, pointer, size := |entries|, 0, 0, 0;
      msgLen, sendBytes, state, freed := 0, 0, TxIdle, false;
    }

    /** Before LIST_FILES: scandir has filled the list. */
    ghost predicate Ready()
      reads this
    {
      Named() && file == |entries| && state == TxIdle && !freed
    }

    /** The first pass of LIST_FILES, over all entries. */
    method ListSize() returns (len: nat)
      requires Named()
      ensures len == |Full(texts)|
    {
      hide Text;
      len := 0;
      var tmpN := |entries|;
      while tmpN > 0
        invariant 0 <= tmpN <= |texts| && len + |Rest(texts, tmpN)| == |Full(texts)|
      {
        tmpN := tmpN - 1;
        var l := GetLength(entries[tmpN]);
        len := len + l;
      }
    }

    ghost predicate Fits(i: nat, capacity: nat)
      requires i < |entries|
    {
      LineFits(entries[i], folder, capacity)
    }

    /** Every line of which a message of `n` bytes from the start needs a part fits. */
    ghost predicate FirstFit(n: nat)
      requires Named()
    {
      forall i :: 0 <= i < |entries| && |Full(texts)| - |Rest(texts, i + 1)| < (if n == 0 then 1 else n) ==> Fits(i, LIST_CAPACITY)
    }

    /** The same from below entry `from`, with `left` to be sent; for no bytes one line is looked at. */
    ghost predicate MoreFit(from: nat, n: nat, left: nat)
      requires Named() && from <= |entries|
    {
      forall i :: 0 <= i < from && (left - |Rest(texts, i + 1)| < n || (n == 0 && i == from - 1)) ==> Fits(i, CONTINUE_CAPACITY)
    }

    /** The same from the saved position. */
    ghost predicate NextFit(n: nat)
      requires Named() && Position(texts, file, length)
      reads this`file, this`length
    {
      if length > 0 then
        Fits(file, CONTINUE_CAPACITY) && (|Remaining()| - |Rest(texts, file)| < n ==> MoreFit(file, n, |Remaining()|))
      else MoreFit(file, n, |Remaining()|)
    }

    // cComSystemCommand, case LIST_FILES
    method ListFiles(bytesToRead: nat) returns (outcome: Listed)
      requires Ready()
      modifies this
      ensures outcome == Refused <==> entries == []
      ensures var n := Min(bytesToRead, |Full(texts)|);
              var sent := if n + SIZEOF_RPLYBEGINLIST <= BUF_SIZE then n else BUF_SIZE - SIZEOF_RPLYBEGINLIST;
              && (outcome == Outside <==> entries != [] && (Full(texts) == [] || !FirstFit(sent)))
              && (outcome.Begun? ==> |outcome.payload| == sent && msgLen == n)
      ensures outcome.Begun? ==>
              var payload := outcome.payload;
              && Valid() && size == |Full(texts)|
              && state == (if |payload| < msgLen then TxListFiles else TxIdle)
              && payload == Full(texts)[..pointer] && pointer == sendBytes == |payload|
              && (InSync() <==> bytesToRead > 0)
              && !freed && (pointer == size ==> Done())
    {
      hide Rest, Text;
      if entries == [] {
        return Refused;
      }
      var len := ListSize();
      size, msgLen := len, if bytesToRead > len then len else bytesToRead;
      var bytesToSend := msgLen;
      state := TxIdle;
      if msgLen + SIZEOF_RPLYBEGINLIST > BUF_SIZE {
        bytesToSend := BUF_SIZE - SIZEOF_RPLYBEGINLIST;
        state := TxListFiles;
      }
      sendBytes, pointer, length := 0, 0, 0;
      var inside, payload := FillFirst(bytesToSend);
      if !inside {
        return Outside;
      }
      sendBytes, pointer := |payload|, |payload|;
      if bytesToSend > 0 {
        Cut(payload, Remaining(), Full(texts));
        if |payload| == size {
          AllSent(texts, file, length);
        }
      }
      outcome := Begun(payload);
    }

    /** The fill loop of LIST_FILES, which passes over entries without a line, and over the start of the list if
        no entry has one. */
    method FillFirst(bytesToSend: nat) returns (inside: bool, payload: seq<byte>)
      requires Named() && file == |entries| && length == 0 && entries != [] && bytesToSend <= |Full(texts)|
      modifies this`file, this`length
      ensures inside <==> Full(texts) != [] && FirstFit(bytesToSend)
      ensures inside ==> Position(texts, file, length) && |payload| == bytesToSend
      ensures inside ==> if bytesToSend > 0 then payload + Remaining() == Full(texts) else |Remaining()| < |Full(texts)|
      ensures inside && bytesToSend > 0 && length == 0 ==> BehindLine()
    {
      hide Rest, Text, LineFits;
      var tmpN := file;
      var repeat := true;
      payload := [];
      while repeat
        invariant 0 <= tmpN <= |texts| && |payload| <= bytesToSend && file <= |texts|
        invariant forall i :: tmpN <= i < |entries| ==> Fits(i, LIST_CAPACITY)
        invariant repeat ==> payload + Rest(texts, tmpN) == Full(texts) && (bytesToSend > 0 ==> |payload| < bytesToSend)
        invariant repeat ==> length == 0 && file == |texts|
        invariant !repeat ==> Full(texts) != [] && |Full(texts)| - |Rest(texts, tmpN)| >= if bytesToSend == 0 then 1 else bytesToSend
        invariant !repeat ==> |payload| == bytesToSend && Position(texts, file, length)
        invariant !repeat ==> if bytesToSend > 0 then payload + Remaining() == Full(texts)
                              else |Remaining()| < |Full(texts)|
        invariant !repeat && bytesToSend > 0 && length == 0 ==> BehindLine()
        decreases tmpN, repeat
      {
        RestStep(texts, tmpN);
        if tmpN == 0 {
          return false, payload;
        }
        tmpN := tmpN - 1;
        var name, nameLen;
        inside, name, nameLen := GetName(entries[tmpN], folder, LIST_CAPACITY);
        if !inside {
          assert |Full(texts)| - |Rest(texts, tmpN + 1)| == |payload| && !Fits(tmpN, LIST_CAPACITY);
          return false, payload;
        }
        ghost var rest := Rest(texts, tmpN);
        if nameLen != 0 {
          if nameLen + |payload| <= bytesToSend {
            Regroup(payload, name, rest);
            payload := payload + name;
            if bytesToSend == |payload| {
              length, file, repeat := 0, tmpN, false;
            }
          } else {
            length := bytesToSend - |payload|;
            RegroupSplit(payload, name, length, rest);
            payload := payload + name[..length];
            file, repeat := tmpN, false;
          }
        } else {
          assert name + rest == rest;
        }
      }
      inside := true;
      RestGrows(texts, tmpN);
    }

    /** An entry was split: first comes the rest of its line. */
    method ResumeSplit(bytesToSend: nat) returns (inside: bool, payload: seq<byte>, repeat: bool)
      requires Named() && Position(texts, file, length) && length > 0
      modifies this`length
      ensures inside <==> Fits(file, CONTINUE_CAPACITY)
      ensures inside ==> (repeat <==> old(|Remaining()|) - |Rest(texts, file)| < bytesToSend)
      ensures inside && repeat ==> |payload| < bytesToSend && payload + Rest(texts, file) == old(Remaining())
      ensures inside && !repeat ==>
                |payload| == bytesToSend && Position(texts, file, length) && payload + Remaining() == old(Remaining())
      ensures inside && !repeat && length == 0 ==> BehindLine()
    {
      hide Rest, Text, LineFits;
      var name, nameLen;
      repeat, payload := false, [];
      inside, name, nameLen := GetName(entries[file], folder, CONTINUE_CAPACITY);
      if !inside {
        return;
      }
      var remCharCnt := nameLen - length;
      if remCharCnt <= bytesToSend {
        payload := name[length..];
        repeat := remCharCnt != bytesToSend;
        if !repeat {
          length := 0;
        }
      } else {
        payload := name[length..length + bytesToSend];
        SplitAgain(name, length, bytesToSend, Rest(texts, file));
        length := length + |payload|;
        repeat := false;
      }
    }

    /** The fill loop of the two continuations, from the entry below index `from`. */
    method FillMore(start: seq<byte>, from: nat, bytesToSend: nat, ghost left: seq<byte>) returns (inside: bool, payload: seq<byte>)
      requires Named() && 0 < from <= |texts| && start + Rest(texts, from) == left
      requires |start| < bytesToSend <= |left| || |start| == bytesToSend == 0
      modifies this`file, this`length
      ensures inside <==> MoreFit(from, bytesToSend, |left|)
      ensures inside ==> Position(texts, file, length) && |payload| == bytesToSend && payload <= left
      ensures inside ==> if bytesToSend > 0 || texts[from - 1] == [] then payload + Remaining() == left
                         else |Remaining()| < |left|
      ensures inside && bytesToSend > 0 && length == 0 ==> BehindLine()
    {
      hide Rest, Text, LineFits;
      var tmpN := from;
      var repeat := true;
      payload := start;
      while repeat
        invariant 0 <= tmpN <= from && |payload| <= bytesToSend
        invariant forall i :: tmpN <= i < from ==> Fits(i, CONTINUE_CAPACITY)
        invariant repeat ==> payload + Rest(texts, tmpN) == left
        invariant repeat ==> |payload| < bytesToSend || (bytesToSend == 0 && tmpN == from)
        invariant !repeat ==> |left| - |Rest(texts, tmpN)| >= bytesToSend && tmpN < from
        invariant !repeat ==> |payload| == bytesToSend && Position(texts, file, length)
        invariant !repeat ==> if bytesToSend > 0 || texts[from - 1] == [] then payload + Remaining() == left
                              else |Remaining()| < |left|
        invariant !repeat && bytesToSend > 0 && length == 0 ==> BehindLine()
        decreases tmpN, repeat
      {
        RestStep(texts, tmpN);
        tmpN := tmpN - 1;
        var name, nameLen;
        inside, name, nameLen := GetName(entries[tmpN], folder, CONTINUE_CAPACITY);
        if !inside {
          assert |left| - |Rest(texts, tmpN + 1)| == |payload| && !Fits(tmpN, CONTINUE_CAPACITY);
          return false, payload;
        }
        ghost var rest := Rest(texts, tmpN);
        if nameLen + |payload| <= bytesToSend {
          Regroup(payload, name, rest);
          payload := payload + name;
          if bytesToSend == |payload| {
            length, file, repeat := 0, tmpN, false;
          }
        } else {
          length := bytesToSend - |payload|;
          RegroupSplit(payload, name, length, rest);
          payload := payload + name[..length];
          file, repeat := tmpN, false;
        }
      }
      inside := true;
      RestGrows(texts, tmpN);
      if bytesToSend > 0 {
        Cut(payload, Remaining(), left);
      }
    }

    /** The body both continuations share: the split entry first, then whole ones.  Only CONTINUE_LIST_FILES asks
        whether entries remain; TXLISTFILES always sends at least one byte, and then some do. */
    method Fill(bytesToSend: nat) returns (inside: bool, payload: seq<byte>)
      requires Named() && Position(texts, file, length)
      requires bytesToSend <= |Remaining()|
      modifies this`file, this`length
      ensures inside <==> old(NextFit(bytesToSend))
      ensures inside ==> Position(texts, file, length) && |payload| == bytesToSend && payload <= old(Remaining())
      ensures inside ==> if old(Lossless(bytesToSend)) then payload + Remaining() == old(Remaining())
                         else |Remaining()| < |old(Remaining())|
      ensures inside && bytesToSend > 0 && length == 0 ==> BehindLine()
      ensures old(file) == old(length) == 0 ==> file == length == 0
    {
      hide Rest, From, LineFits;
      ghost var left := Remaining();
      var repeat := true;
      inside, payload := true, [];
      if length != 0 {
        inside, payload, repeat := ResumeSplit(bytesToSend);
        if !inside {
          return;
        }
      } else {
        Between(texts, file);
      }
      if file != 0 && repeat {
        inside, payload := FillMore(payload, file, bytesToSend, left);
      } else if !repeat {
        Cut(payload, Remaining(), left);
      } else {
        RestStep(texts, file);
        Cut(payload, [], left);
        Between(texts, file);
      }
    }

    /** A request for no bytes loses an entry when the position is between two entries and the next
        one has a text. */
    ghost predicate Lossless(bytesToRead: nat)
      requires file <= |texts|
      reads this`file, this`length
    {
      bytesToRead > 0 || length > 0 || file == 0 || texts[file - 1] == []
    }

    /** Sending `payload` from a position in sync leaves a position in sync. */
    lemma Advance(payload: seq<byte>, left: seq<byte>, p: nat)
      requires p <= |Full(texts)| && left == Full(texts)[p..] && payload <= left
      ensures payload == Full(texts)[p..p + |payload|]
      ensures |Full(texts)[p + |payload|..]| == |left| - |payload|
      ensures forall rest :: payload + rest == left ==> rest == Full(texts)[p + |payload|..]
    {
      hide Rest;
      assert left[|payload|..] == Full(texts)[p + |payload|..];
      forall rest | payload + rest == left
        ensures rest == left[|payload|..]
      {
        Cut(payload, rest, left);
      }
    }

    /** The loop and the update of the pointers behind it, as both continuations do them. */
    method Send(bytesToSend: nat) returns (inside: bool, payload: seq<byte>)
      requires Named() && Position(texts, file, length) && size == |Full(texts)| && pointer + bytesToSend <= size
      requires Remaining() == Full(texts)[pointer..]
      modifies this`file, this`length, this`pointer
      ensures inside <==> old(NextFit(bytesToSend))
      ensures inside ==>
              && Position(texts, file, length) && |payload| == bytesToSend && pointer == old(pointer) + bytesToSend
              && payload == Full(texts)[old(pointer)..pointer]
              && (Remaining() == Full(texts)[pointer..] <==> old(Lossless(bytesToSend)))
              && (old(Lossless(bytesToSend)) || |Remaining()| < size - pointer)
      ensures inside && bytesToSend > 0 && pointer == size ==> entries != [] && Done()
      ensures old(file) == old(length) == 0 ==> file == length == 0
    {
      hide Rest, From, LineFits;
      ghost var left := Remaining();
      inside, payload := Fill(bytesToSend);
      if inside {
        Advance(payload, left, pointer);
        pointer := pointer + |payload|;
        if bytesToSend > 0 && pointer == size {
          AllSent(texts, file, length);
        }
      }
    }

    // cComTxUpdate, case TXLISTFILES
    method TxUpdate() returns (inside: bool, payload: seq<byte>)
      requires Valid() && InSync() && state == TxListFiles
      modifies this
      ensures inside <==> old(NextFit(Min(msgLen - sendBytes, BUF_SIZE)))
      ensures inside ==>
              && Valid() && InSync() && msgLen == old(msgLen) && size == old(size)
              && |payload| == Min(old(msgLen - sendBytes), BUF_SIZE)
              && pointer == old(pointer) + |payload| && sendBytes == old(sendBytes) + |payload|
              && payload == Full(texts)[old(pointer)..pointer]
              && state == (if sendBytes < msgLen then TxListFiles else TxIdle)
              && (freed <==> pointer == size) && (freed ==> entries != [] && Done())
    {
      hide Rest, From, LineFits, NextFit, Done;
      var bytesToSend := BUF_SIZE;
      if msgLen - sendBytes <= BUF_SIZE {
        bytesToSend := msgLen - sendBytes;
        state := TxIdle;
      }
      inside, payload := Send(bytesToSend);
      if inside {
        sendBytes := sendBytes + |payload|;
        if pointer == size {
          freed := true;
        }
      }
    }

    /** How many bytes of a request the first buffer takes. */
    function FirstPart(bytesToRead: nat): nat
      requires pointer <= size
      reads this`pointer, this`size
    {
      var n := Min(bytesToRead, size - pointer);
      if n + SIZEOF_RPLYCONTINUELIST <= BUF_SIZE then n else BUF_SIZE - SIZEOF_RPLYCONTINUELIST
    }

    /** The request is cropped to what is left, and its first buffer to its room. */
    method SetMessage(bytesToRead: nat) returns (bytesToSend: nat)
      requires pointer <= size && state == TxIdle
      modifies this`msgLen, this`state
      ensures msgLen == Min(bytesToRead, size - pointer) && bytesToSend == FirstPart(bytesToRead) <= msgLen
      ensures state == (if bytesToSend < msgLen then TxListFiles else TxIdle)
      ensures bytesToSend == 0 ==> bytesToRead == 0 || pointer == size
    {
      msgLen := bytesToRead;
      if bytesToRead >= size - pointer {
        msgLen := size - pointer;
      }
      bytesToSend := msgLen;
      if msgLen + SIZEOF_RPLYCONTINUELIST > BUF_SIZE {
        bytesToSend := BUF_SIZE - SIZEOF_RPLYCONTINUELIST;
        state := TxListFiles;
      }
    }

    /** The next step looks at an entry of the list that has been given back. */
    ghost predicate ReadsFreed()
      reads this
    {
      freed && (length > 0 || file > 0)
    }

    // cComSystemCommand, case CONTINUE_LIST_FILES
    method ContinueListFiles(bytesToRead: nat) returns (inside: bool, payload: seq<byte>)
      requires Valid() && InSync() && state == TxIdle
      modifies this
      ensures inside <==> old(!ReadsFreed() && NextFit(FirstPart(bytesToRead)))
      ensures inside ==>
              && Valid() && size == old(size) && msgLen == Min(bytesToRead, size - old(pointer))
              && |payload| == old(FirstPart(bytesToRead))
              && pointer == old(pointer) + |payload| && sendBytes == |payload|
              && payload == Full(texts)[old(pointer)..pointer]
              && state == (if sendBytes < msgLen then TxListFiles else TxIdle)
              && (InSync() <==> old(Lossless(bytesToRead)))
              && (InSync() || |Remaining()| < size - pointer)
              && freed == old(freed)
      ensures inside && old(pointer) < pointer == size ==> entries != [] && Done()
      ensures inside && freed ==> file == length == 0
    {
      hide Rest, From, LineFits, NextFit, Done, FirstPart;
      var bytesToSend := SetMessage(bytesToRead);
      if freed && (length != 0 || file != 0) {
        return false, [];
      }
      if length == 0 && pointer == size {
        NoneLeft(texts, file);
      }
      inside, payload := Send(bytesToSend);
      sendBytes := |payload|;
    }

    /** When every line fits the shorter buffer, no part of the list leads out of it. */
    lemma AllFit(n: nat)
      requires Named() && forall i :: 0 <= i < |entries| ==> Fits(i, CONTINUE_CAPACITY)
      ensures FirstFit(n) && (Position(texts, file, length) ==> NextFit(n))
    {
      hide Rest, LineFits, Text;
      forall i | 0 <= i < |entries| ensures Fits(i, LIST_CAPACITY) {
        assert Fits(i, CONTINUE_CAPACITY);
        NameBounds(entries[i], folder);
      }
    }
  }

  // Fewer entries, less to send.
  lemma {:induction false} RestGrows(texts: seq<seq<byte>>, n: nat)
    requires n <= |texts|
    ensures forall i :: 0 <= i <= n ==> |Rest(texts, i)| <= |Rest(texts, n)|
  {
    if n == 0 {
    } else {
      RestGrows(texts, n - 1);
    }
  }

  lemma {:induction false} NothingBelow(texts: seq<seq<byte>>, n: nat)
    requires n <= |texts|
    ensures Rest(texts, n) == [] ==> forall i :: 0 <= i < n ==> texts[i] == []
  {
    if n > 0 {
      NothingBelow(texts, n - 1);
    }
  }

  lemma AllSent(texts: seq<seq<byte>>, file: nat, length: nat)
    requires Position(texts, file, length) && From(texts, file, length) == []
    ensures length == 0 && forall i :: 0 <= i < file ==> texts[i] == []
  {
    NothingBelow(texts, file);
  }

  lemma NoneLeft(texts: seq<seq<byte>>, n: nat)
    requires n <= |texts| && From(texts, n, 0) == []
    ensures n == 0 || texts[n - 1] == []
  {
  }

  lemma Between(texts: seq<seq<byte>>, n: nat)
    requires n <= |texts|
    ensures From(texts, n, 0) == Rest(texts, n) && [] + Rest(texts, n) == Rest(texts, n)
  {
  }

  lemma SplitAgain(name: seq<byte>, n: nat, m: nat, rest: seq<byte>)
    requires n + m <= |name|
    ensures name[n..n + m] + (name[n + m..] + rest) == name[n..] + rest
  {
    assert name[n..] == name[n..n + m] + name[n + m..];
  }

  lemma Regroup(a: seq<byte>, b: seq<byte>, c: seq<byte>)
    ensures (a + b) + c == a + (b + c)
  {
  }

  lemma RegroupSplit(a: seq<byte>, name: seq<byte>, n: nat, c: seq<byte>)
    requires n <= |name|
    ensures (a + name[..n]) + (name[n..] + c) == a + (name + c)
  {
    assert name == name[..n] + name[n..];
  }

  lemma Cut(a: seq<byte>, b: seq<byte>, s: seq<byte>)
    requires a + b == s
    ensures a == s[..|a|] && b == s[|a|..]
  {
  }

  lemma RestStep(texts: seq<seq<byte>>, n: nat)
    requires n <= |texts|
    ensures n == 0 ==> Rest(texts, n) == []
    ensures n > 0 ==> Rest(texts, n) == texts[n - 1] + Rest(texts, n - 1)
  {
  }

  function Sum(requests: seq<nat>): nat {
    if requests == [] then 0 else Sum(requests[..|requests| - 1]) + requests[|requests| - 1]
  }

  lemma SumNext(requests: seq<nat>, i: nat)
    requires i < |requests|
    ensures Sum(requests[..i + 1]) == Sum(requests[..i]) + requests[i]
  {
    assert requests[..i + 1][..i] == requests[..i];
  }

  ghost predicate AllLinesFit(entries: seq<Entry>, folder: seq<byte>) {
    forall i :: 0 <= i < |entries| ==> LineFits(entries[i], folder, CONTINUE_CAPACITY)
  }

  /** The rest of a message larger than the buffer. */
  method Flush(tx: ListTx, sent: seq<byte>) returns (inside: bool, sent': seq<byte>)
    requires tx.Valid() && tx.InSync() && sent == Full(tx.texts)[..tx.pointer] && tx.sendBytes <= tx.msgLen
    requires tx.state == if tx.sendBytes < tx.msgLen then TxListFiles else TxIdle
    modifies tx
    ensures AllLinesFit(tx.entries, tx.folder) ==> inside
    ensures inside ==> tx.Valid() && tx.InSync() && tx.state == TxIdle && tx.size == old(tx.size)
    ensures inside ==> tx.pointer == old(tx.pointer + (tx.msgLen - tx.sendBytes)) && sent' == Full(tx.texts)[..tx.pointer]
    ensures inside ==> if old(tx.state == TxListFiles) then
                         (tx.freed <==> tx.pointer == tx.size) && (tx.freed ==> tx.entries != [] && tx.Done())
                       else
                         tx.file == old(tx.file) && tx.length == old(tx.length) && tx.freed == old(tx.freed)
  {
    hide Rest, From, LineFits, Text, ListTx.NextFit, ListTx.Done;
    inside, sent' := true, sent;
    while tx.state == TxListFiles
      invariant tx.Valid() && tx.InSync() && tx.size == old(tx.size) && tx.sendBytes <= tx.msgLen
      invariant tx.state == if tx.sendBytes < tx.msgLen then TxListFiles else TxIdle
      invariant tx.pointer + (tx.msgLen - tx.sendBytes) == old(tx.pointer + (tx.msgLen - tx.sendBytes))
      invariant sent' == Full(tx.texts)[..tx.pointer] && inside
      invariant tx.state == TxIdle && old(tx.state == TxListFiles) ==>
                  (tx.freed <==> tx.pointer == tx.size) && (tx.freed ==> tx.entries != [] && tx.Done())
      invariant old(tx.state == TxIdle) ==>
                  tx.file == old(tx.file) && tx.length == old(tx.length) && tx.freed == old(tx.freed)
      decreases tx.msgLen - tx.sendBytes
    {
      ghost var p := tx.pointer;
      if AllLinesFit(tx.entries, tx.folder) {
        tx.AllFit(Min(tx.msgLen - tx.sendBytes, BUF_SIZE));
      }
      var payload;
      inside, payload := tx.TxUpdate();
      if !inside {
        return;
      }
      Joined(Full(tx.texts), p, tx.pointer);
      sent' := sent' + payload;
    }
  }

  lemma Joined(s: seq<byte>, p: nat, q: nat)
    requires p <= q <= |s|
    ensures s[..p] + s[p..q] == s[..q]
  {
  }

  /** LIST_FILES and the rest of its message, for a directory with entries. */
  method StartList(tx: ListTx, request: nat) returns (inside: bool, sent: seq<byte>)
    requires tx.Ready() && tx.entries != [] && request > 0
    modifies tx
    ensures AllLinesFit(tx.entries, tx.folder) ==> (inside <==> Full(tx.texts) != [])
    ensures inside ==> tx.Valid() && tx.InSync() && tx.state == TxIdle && Full(tx.texts) != []
    ensures inside ==> tx.pointer == Min(request, |Full(tx.texts)|) && sent == Full(tx.texts)[..tx.pointer]
    ensures inside ==> (tx.freed <==> Split(tx.size, 0, request, SIZEOF_RPLYBEGINLIST)) && (tx.freed ==> tx.Done())
  {
    hide Rest, From, Text, LineFits, ListTx.FirstFit, ListTx.NextFit, ListTx.Done;
    ghost var n := Min(request, |Full(tx.texts)|);
    if AllLinesFit(tx.entries, tx.folder) {
      tx.AllFit(if n + SIZEOF_RPLYBEGINLIST <= BUF_SIZE then n else BUF_SIZE - SIZEOF_RPLYBEGINLIST);
    }
    var outcome := tx.ListFiles(request);
    if outcome == Outside {
      return false, [];
    }
    inside, sent := Flush(tx, outcome.payload);
  }

  /** CONTINUE_LIST_FILES and the rest of its message. */
  method ContinueList(tx: ListTx, request: nat, before: seq<byte>) returns (inside: bool, sent: seq<byte>)
    requires tx.Valid() && tx.InSync() && tx.state == TxIdle && request > 0 && before == Full(tx.texts)[..tx.pointer]
    requires tx.entries != [] && (tx.freed ==> tx.Done())
    modifies tx
    ensures AllLinesFit(tx.entries, tx.folder) ==> (inside <==> !(old(tx.freed) && tx.texts[0] == []))
    ensures inside ==> !(old(tx.freed) && tx.texts[0] == [])
    ensures inside ==> tx.Valid() && tx.InSync() && tx.state == TxIdle && tx.size == old(tx.size)
    ensures inside ==> tx.pointer == Min(old(tx.pointer) + request, |Full(tx.texts)|) && sent == Full(tx.texts)[..tx.pointer]
    ensures inside ==> (tx.freed <==> old(tx.freed) || Split(tx.size, old(tx.pointer), request, SIZEOF_RPLYCONTINUELIST))
    ensures inside ==> (tx.freed ==> tx.Done())
  {
    hide Rest, From, Text, LineFits, ListTx.NextFit;
    ghost var p := tx.pointer;
    if AllLinesFit(tx.entries, tx.folder) {
      tx.AllFit(tx.FirstPart(request));
    }
    var payload;
    inside, payload := tx.ContinueListFiles(request);
    if inside {
      Joined(Full(tx.texts), p, tx.pointer);
      inside, sent := Flush(tx, before + payload);
    } else {
      sent := [];
    }
  }

  /** A request that is made when `before` bytes have been sent completes the list, and its message, with a head
      of `head` bytes, does not fit the buffer: the list is given back when the message has been sent. */
  predicate Split(size: nat, before: nat, request: nat, head: nat) {
    before < size <= before + request && size - before + head > BUF_SIZE
  }

  predicate GivesBack(size: nat, requests: seq<nat>, k: nat)
    requires k < |requests|
  {
    Split(size, Sum(requests[..k]), requests[k], if k == 0 then SIZEOF_RPLYBEGINLIST else SIZEOF_RPLYCONTINUELIST)
  }

  /** One of the first `n` requests does so. */
  ghost predicate GivenBack(size: nat, requests: seq<nat>, n: nat)
    requires n <= |requests|
  {
    exists k :: 0 <= k < n && GivesBack(size, requests, k)
  }

  /** A whole conversation: whatever positive amounts the host asks for, the payloads join up to the
      list from its start, with nothing lost, repeated or cut wrongly, as far as was asked for.  With lines that
      fit, its memory is left exactly if there are entries and none of them has a line, or if the lowest entry has
      no line and another request follows one that gave the list back. */
  method Conversation(entries: seq<Entry>, folder: seq<byte>, requests: seq<nat>) returns (inside: bool, sent: seq<byte>)
    requires forall i :: 0 <= i < |entries| ==> EntryOk(entries[i])
    requires requests != [] && forall i :: 0 <= i < |requests| ==> requests[i] > 0
    ensures AllLinesFit(entries, folder) ==>
              var list := Full(Texts(entries));
              inside <==> entries == [] ||
                          (list != [] && !(Texts(entries)[0] == [] && GivenBack(|list|, requests, |requests| - 1)))
    ensures inside ==> |sent| == Min(Sum(requests), |Full(Texts(entries))|) && sent == Full(Texts(entries))[..|sent|]
  {
    hide Rest, From, Sum, Text, LineFits, Split, ListTx.Done, ListTx.NextFit;
    ghost var texts := Texts(entries);
    if entries == [] {
      RestStep(texts, 0);
      return true, [];
    }
    var tx := new ListTx(entries, folder);
    inside, sent := StartList(tx, requests[0]);
    if !inside {
      return;
    }
    SumNext(requests, 0);
    assert Sum(requests[..0]) == 0 by {
      SumNone();
      assert requests[..0] == [];
    }
    assert GivenBack(tx.size, requests, 1) <==> GivesBack(tx.size, requests, 0);
    for i := 1 to |requests|
      invariant fresh(tx) && tx.Valid() && tx.InSync() && tx.texts == texts && tx.state == TxIdle && inside
      invariant tx.pointer == Min(Sum(requests[..i]), |Full(texts)|) && sent == Full(texts)[..tx.pointer]
      invariant (tx.freed <==> GivenBack(tx.size, requests, i)) && (tx.freed ==> tx.Done())
      invariant texts[0] == [] ==> !GivenBack(tx.size, requests, i - 1)
    {
      SumNext(requests, i);
      GivenNext(tx.size, requests, i);
      SplitAt(tx.size, Sum(requests[..i]), requests[i], SIZEOF_RPLYCONTINUELIST);
      inside, sent := ContinueList(tx, requests[i], sent);
      if !inside {
        if GivenBack(|Full(texts)|, requests, i) {
          GivenStays(|Full(texts)|, requests, i);
        }
        return;
      }
    }
    assert requests[..|requests|] == requests;
  }

  lemma GivenNext(size: nat, requests: seq<nat>, n: nat)
    requires n < |requests|
    ensures GivenBack(size, requests, n + 1) <==> GivenBack(size, requests, n) || GivesBack(size, requests, n)
  {
  }

  lemma GivenStays(size: nat, requests: seq<nat>, n: nat)
    requires n < |requests| && GivenBack(size, requests, n)
    ensures GivenBack(size, requests, |requests| - 1)
  {
  }

  // Only a request that is made before the end of the list completes it.
  lemma SplitAt(size: nat, sum: nat, request: nat, head: nat)
    ensures Split(size, Min(sum, size), request, head) <==> Split(size, sum, request, head)
  {
  }

  /** A directory whose lowest entry has no line, with thirty files above it: LIST_FILES completes the list in two
      buffers and gives it back, and the next request reads it. */
  method ReadAfterFree() returns (inside: bool)
    ensures !inside
  {
    hide Rest, Text, LineFits, Sum;
    var none := Entry([112], OtherKind, seq(16, _ => 0), 0);
    var e := Entry(seq(10, _ => 97), Regular, seq(16, _ => 0), 0);
    var entries := [none] + seq(30, _ => e);
    var requests := [2000, 1];
    LongText(e);
    NoText(none);
    SameLines(Texts(entries), 31, 53);
    TwoRequests(2000, 1);
    NameBounds(e, []);
    NameBounds(none, []);
    assert AllLinesFit(entries, []);
    assert GivesBack(1590, requests, 0);
    var sent;
    inside, sent := Conversation(entries, [], requests);
  }

  /** Two files; the first line is asked for alone, and then nothing: the other line will never be sent. */
  method EntryLost() returns (tx: ListTx)
    ensures tx.Valid() && |tx.Remaining()| < tx.size - tx.pointer
  {
    hide Rest, From, Text, LineFits;
    var e := Entry(seq(10, _ => 97), Regular, seq(16, _ => 0), 0);
    LongText(e);
    NameBounds(e, []);
    tx := new ListTx([e, e], []);
    TwoLines(tx.texts);
    tx.AllFit(53);
    var outcome := tx.ListFiles(53);
    BetweenLines(tx.texts, tx.file, tx.length);
    tx.AllFit(0);
    var inside, payload := tx.ContinueListFiles(0);
  }

  lemma BetweenLines(texts: seq<seq<byte>>, file: nat, length: nat)
    requires |texts| == 2 && |texts[0]| == |texts[1]| > 0 && Position(texts, file, length)
    requires From(texts, file, length) == Full(texts)[|texts[1]|..]
    ensures file == 1 && length == 0
  {
    TwoLines(texts);
    assert Rest(texts, 1) == texts[0] + [];
  }

  lemma TwoLines(texts: seq<seq<byte>>)
    requires |texts| == 2
    ensures Full(texts) == texts[1] + texts[0]
  {
    RestStep(texts, 2);
    RestStep(texts, 1);
    RestStep(texts, 0);
  }

  lemma NoText(e: Entry)
    requires e.kind == OtherKind
    ensures Text(e) == [] && LineFits(e, [], CONTINUE_CAPACITY)
  {
  }

  lemma {:induction false} SameLines(texts: seq<seq<byte>>, n: nat, w: nat)
    requires 1 <= n <= |texts| && texts[0] == [] && forall i :: 1 <= i < n ==> |texts[i]| == w
    ensures |Rest(texts, n)| == (n - 1) * w
  {
    if n == 1 {
      assert Rest(texts, 0) == [];
    } else {
      SameLines(texts, n - 1, w);
    }
  }

  lemma TwoRequests(a: nat, b: nat)
    ensures Sum([a, b][..0]) == 0
  {
  }

  /** A file with a name of 77 bytes: its line fits LIST_FILES, and leaves the shorter destination as soon as it
      has to be continued. */
  method LongLine() returns (inside: bool)
    ensures !inside
  {
    hide Rest, From, Text;
    var e := Entry(seq(77, _ => 97), Regular, seq(16, _ => 0), 0);
    assert |Text(e)| == 120 by { LongText(e); }
    var tx := new ListTx([e], []);
    assert tx.texts == [Text(e)];
    OneLine(tx.texts);
    var outcome := tx.ListFiles(10);
    InOneLine(tx.texts, tx.file, tx.length, 10);
    var rest;
    inside, rest := tx.ContinueListFiles(1);
  }

  lemma SumNone()
    ensures Sum([]) == 0
  {
  }

  lemma LongText(e: Entry)
    requires e.kind == Regular && |e.sum| == 16
    ensures |Text(e)| == |e.name| + 43
  {
  }

  lemma OneLine(texts: seq<seq<byte>>)
    requires |texts| == 1
    ensures Rest(texts, 0) == [] && Rest(texts, 1) == texts[0] == Full(texts)
  {
  }

  lemma InOneLine(texts: seq<seq<byte>>, file: nat, length: nat, p: nat)
    requires |texts| == 1 && 0 < p < |Full(texts)| && Position(texts, file, length) && From(texts, file, length) == Full(texts)[p..]
    ensures file == 0 < length
  {
    OneLine(texts);
  }
}
