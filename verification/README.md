# Verified model of the EV3 brick's communication core

This project models five parts of the brick's firmware that are state machines over unbounded input, and
proves what each of them keeps over whole runs. They meet at one interface: a byte stream is cut into frames,
frames are cut into buffers of at most 1024 bytes, and buffers become files, listings, forwarded commands or
images for the virtual machine.

* **Stream framing.** `Frames` is the reference: a parser that takes one byte at a time and knows nothing of
  reads, cursors or statuses. `Bluetooth.BtChannel` is the mode 1 decoder with its two cursor buffers,
  `Wifi.WifiReader` the TCP reader; both are classes whose every method keeps the agreement with that parser, so
  both hand over the same buffers for the same frames.
* **File names.** `FileNames` cuts a full name into path, name and extension, with the room the code has for each;
  the transfers, the listings and the folder use it.
* **File and listing transfer.** `Receiver` and `Sender` are the two ends of a download, `Transfer` runs them
  against each other until both are idle, `Download` lets a host use messages larger than the buffer,
  `BluetoothDownload` joins it to the decoder, from the fragments of a stream to the file on disk, and `Listing`
  streams the lines of `ListingEntries`, which may be cut anywhere.
* **Command and reply machine.** `Dispatch` is the loop over eleven channels that share one reply status, one
  image and one virtual machine; `DispatchRuns` proves what holds over all interleavings, and `ComInstance` is the
  object changed in place, which keeps step with it.
* **Daisy chain.** `DaisyChain` is a transition system of bricks and packets on FIFO links; `DaisyCookies` proves
  the safety of the busy flags over whole runs, `DaisyTable` the provenance of the sensor table, and `DaisyDelivery`
  that a command arrives and its report comes back when no link loses anything. `DaisyFlags`
  holds the byte-level functions, `DaisyPackets` the bytes of the commands, and `DaisyBrick` the in-place code
  that is proved equal to both.
* **MD5.** `Md5Spec` is sections 3.1 to 3.5 of RFC 1321 written from the standard; `Md5` is the incremental code
  with its staging buffer, split byte count and optimised rounds, proved to compute that digest for every way of
  cutting the message; `Md5Vector` works one value of the RFC's test suite out step by step.
* **Data structures.** `Arrays` (growable typed arrays over `Elements`), `Recent` (the most recently used list),
  `SortedFolder` (a listing sorted while it is read) and `Ring` (the ring buffer between two threads, with its masks
  in `RingMasks`).

Some promised properties are false of the code on part of their inputs. They are kept as theorems with the exact
condition:

* a Bluetooth read that completes a split header, holds all of 1024 bytes and begins a frame of more than 1022
  overruns the message buffer by one byte (`BtChannel.Overruns`), and an empty frame whose header is split between
  two reads makes the decoder swallow what follows it in the second (`BtChannel.Splits`); both are reached from the
  constructor in `OverrunReached` and `FrameLost`;
* a Wi-Fi reader loses its place exactly when the two length bytes do not arrive together or announce a body of more
  than 65533 bytes: after a single byte it hands over a buffer with one byte more than has arrived
  (`Wifi.LoneLengthByte`), and a length that wraps takes it out of its buffer (`Wifi.LengthWraps`);
* a begin message leaves the receiver's 60-byte folder buffer exactly for a name of more than 60 bytes, or of 60 with
  a slash at the end (`Receiver.FolderFits`), although names of up to 118 bytes are accepted; the transfer theorems
  carry that condition and `Download.LongName` reaches it with an accepted name of 61 bytes;
* a listing's line leaves the arrays of a continuation exactly if a file's name has more than 76 bytes or does not fit
  behind its folder's, or a folder's has more than 117 (`ListingEntries.LineFits`, `NameBounds`, `LongLine`), the
  first fill loop runs below the directory's first entry exactly if there are entries and none has a line, and a
  request behind the end of a list reads it after it was given back exactly if its last bytes went out in a further
  buffer and its lowest entry has no line (`Listing.GivenBack`, `ReadAfterFree`);
* a folder listing copies a file's extension into five bytes whatever its length, and looks for the dot with a signed
  byte (`SortedFolder.EntryFits`, `LongExtension`, `LongStem`);
* a request for more than 151 bytes leaves the I2C thread's buffer exactly if that many are there (`Ring.LongRequest`);
* a continue message for a handle from 64 to 127, or one larger than the buffer whose file lacks more than the buffer
  holds and less than the message, leaves the arrays (`Receiver.RxBuf.LeavesArrays`, `Download.NoSuchHandle`, `Download.OverRead`);
* after 32 commands to one port the five-bit cookie is back at 0 and a stale report can clear the busy bit;
* a direct command that is too short, too long or asks for too many global variables makes the brick stop reading
  every channel for good (`DispatchRuns.DeafReached`);
* a large system message is answered exactly if it asked and no image ended while it was on its way, or another large
  message has asked since the reply status was last emptied (`DispatchRuns.LargeAnswerIff`); so an answer that was
  asked for can vanish and one that was not asked for can be sent;
* a mailbox message or file transfer that a program starts on the waiting channel takes over the reply's buffer;
* a begin message larger than the buffer that completes its file frees another handle than its own;
* a request for no bytes loses a listing entry between two lines (`Listing.EntryLost`);
* an array size that wraps around 32 bits passes the size test without room for its elements (`Arrays.SizeWraps`), and
  content written behind the last 32-bit index empties the array while reporting success.

`dafny verify dfyconfig.toml` checks the whole project.

## Model

| member | source | states |
|---|---|---|
| Frames.Conservation | c_com/c_bt.c:474-758 | over any stream the buffers handed over, the unfinished one and the dropped headers account for every byte; without empty frames they are the stream itself |
| Frames.StreamIsChopped | c_com/c_bt.c:663-745 | a stream of non-empty frames is handed over frame by frame, each in full buffers and a rest; no buffer mixes frames |
| Frames.ChopSizes | c_com/c_wifi.c:776-788 | a frame of T bytes takes ceil(T / 1024) buffers, all of 1024 bytes but the last, which is not empty, and they join up to the frame |
| Bluetooth.BtChannel.DecodeMode1 | c_com/c_bt.c:474-758 | one pass leaves the message buffer exactly if what it copies does not fit; otherwise it keeps the bytes received and the agreement with the reference parser, which is lost exactly for a split empty frame with bytes behind it; a pass that moves no byte goes down a phase |
| Bluetooth.BtChannel.DecodeEmpty | c_com/c_bt.c:497-588 | the pass on an empty message buffer, with one, two or more bytes at hand, keeps the agreement |
| Bluetooth.BtChannel.DecodeLen | c_com/c_bt.c:590-661 | the pass that completes a split header overruns the buffer iff the frame and the bytes at hand are too long by one, and keeps the agreement iff it is not an empty frame with more bytes behind it |
| Bluetooth.BtChannel.DecodeBody | c_com/c_bt.c:663-746 | the pass inside a body, large or not, keeps the agreement and every copy in bounds |
| Bluetooth.BtChannel.StoreRest | c_com/c_bt.c:696-744 | the bytes at hand of a message that fits the buffer are stored, and how many stay unread |
| Bluetooth.BtChannel.Read | c_com/c_bt.c:388-406 | a buffer is handed over only when it is complete, and it is the next one of the parser |
| Bluetooth.BtChannel.HandleSppIn | c_com/c_bt.c:1984-2019 | for every read: taken exactly when the socket buffer is free, its bytes added to those received, the overrun and the loss of step each iff their condition on the state and the bytes |
| Bluetooth.BtChannel.LoseRest | c_com/c_bt.c:590-661 | behind a split empty frame no further byte of the read is ever handed over, or the buffer is overrun, the latter exactly for a read of 1024 bytes |
| Bluetooth.OverrunReached | c_com/c_bt.c:600-640 | a read of 1 byte and one of 1024 take a new channel to the overrun |
| Bluetooth.FrameLost | c_com/c_bt.c:590-661 | two reads after which the frame that the reference parser delivers has not been, and cannot be, handed over |
| Bluetooth.BtChannel.Drain | c_com/c_bt.c:388-406 | decoding and reading in turn always empties the socket buffer (lexicographic measure) and loses nothing |
| Bluetooth.BtChannel.BytesAreConserved | c_com/c_bt.c:474-758 | delivered buffers, pending bytes and unread bytes are the bytes received, in order, whatever the fragmentation and the timing of the reads |
| Bluetooth.BtChannel.FramesAreDelivered | c_com/c_bt.c:474-758 | for a stream of non-empty frames the drained channel has delivered exactly the chopped frames |
| Wifi.WifiReader.Read | c_com/c_wifi.c:746-947 | every call keeps received bytes = returned buffers and pending bytes, asks for exactly what the frame still has and the buffer can take, and goes idle exactly when a read brings nothing; the place in the frames is lost iff a length is mislaid, and from then on every buffer handed over is one byte longer than what has arrived, or the buffer is left iff more bytes come than it holds |
| Wifi.WifiReader.ReadLengthBytes | c_com/c_wifi.c:848-871 | the length bytes set up the frame as the parser sees it, iff both are there and the 16-bit total does not wrap; a single byte is joined with the one behind it in the buffer |
| Wifi.WifiReader.ReadOnlyChunk | c_com/c_wifi.c:873-904 | short reads of a frame that fits the buffer are collected and returned as one buffer |
| Wifi.WifiReader.ReadFirstChunk | c_com/c_wifi.c:906-922 | the first buffer of a long frame includes its length bytes |
| Wifi.WifiReader.ReadMoreBytes | c_com/c_wifi.c:924-941 | later buffers never cross the end of the frame |
| Wifi.WifiReader.FramesAreReturned | c_com/c_wifi.c:746-947 | with full reads the buffers returned are exactly those the Bluetooth decoder delivers for the same frames |
| Wifi.LoneLengthByte | c_com/c_wifi.c:848-904 | for every first frame with a body of 1 to 255 bytes: when its first byte comes alone, a buffer as long as the frame is returned before the frame's last byte has arrived, which the parser never does |
| Wifi.LengthWraps | c_com/c_wifi.c:856-904 | the length 65534 and 1023 more bytes take a new reader out of its buffer |
| Wifi.SingleChunkFits | c_com/c_wifi.c:856-862 | the 16-bit total keeps a whole-body read inside the buffer iff the body has at most 65533 bytes |
| FileNames.PartsUnique | c_memory/c_memory.c:492-541 | a string is made of a path up to a slash, a name without slash or dot and an extension in one way only |
| FileNames.FindName | c_memory/c_memory.c:492-541 | these are the parts found, and the destinations are kept iff each part fits the room given for it |
| FileNames.CheckFilename | c_memory/c_memory.c:544-582 | accepts exactly the names whose whole and parts are short enough and whose characters are valid, and never leaves its own buffers |
| FileNames.LongestName | c_memory/c_memory.c:557-574 | the parts bound an accepted name by 118 bytes |
| DownloadMessages.SizeFieldRoundTrip | c_com/c_com.c:1115-1118 | the four size bytes of a begin message give back the size |
| DownloadMessages.From32 | c_com/c_com.c:1115-1118 | and are a number whose first byte counts least |
| DownloadMessages.ReplyUnique | c_com/c_com.c:1106-1112 | the places of a reply's fields, with length bytes that count what follows them, leave no other reply |
| DownloadMessages.AnnouncesBegin | c_com/c_com.c:718-760 | a begin message announces its own length |
| DownloadMessages.AnnouncesContinue | c_com/c_com.c:765-819 | a continue message announces its own length |
| DownloadMessages.StrLenIs | c_com/c_com.c:1156 | the length of the name in a message is where its zero byte stands |
| DownloadMessages.BeginFields | c_com/c_com.c:1091-1194 | what the receiver finds at its fixed offsets in the first buffer of a begin message is what the sender put in |
| DownloadMessages.ContinueFields | c_com/c_com.c:1238-1312 | the same for a continue message |
| Receiver.RxBuf.GetHandle | c_com/c_com.c:618-643 | an accepted name gets the first free handle, and no other slot changes, whatever stands behind the table |
| Receiver.RxBuf.MakeFolders | c_com/c_com.c:1125-1150 | the copy of the name stays in its 60 bytes iff the name fits, and makes the folders named by its prefixes that end in a slash, but for two |
| Receiver.FolderNames | c_com/c_com.c:1132-1150 | the folders made are the prefixes that end in a slash, but for "~/" and "../" |
| Receiver.RxBuf.BeginDownload | c_com/c_com.c:1091-1235 | the whole effect of a begin message on files, folders, disk, counters and the eight bytes of the reply, which announces its own length, for success and for each refusal; it leaves the folder buffer iff a handle and room are there and the name does not fit |
| Receiver.RxBuf.StartFile | c_com/c_com.c:1156-1193 | the first bytes written, never more than the announced size, the status, and whether the rest of the message is still to come |
| Receiver.RxBuf.ContinueDownload | c_com/c_com.c:1238-1341 | the whole effect of a continue message, with the eight bytes of its reply, for an open file, a closed one and an unknown handle; which messages leave the arrays |
| Receiver.RxBuf.ContinueFile | c_com/c_com.c:1262-1312 | the bytes appended, the status and the state after a continue message's first buffer, which is over-read iff the file lacks more than it holds and less than the message |
| Receiver.RxBuf.Resume | c_com/c_com.c:2853-2889 | a further buffer is appended to an open file, the state stays in the message exactly while bytes are missing, and which handle a completed file frees |
| Receiver.ContinuedOn | c_com/c_com.c:2853-2889 | two buffers one after the other leave the table that their bytes together leave, as long as the file is not full in between |
| Download.ReceiveRest | c_com/c_com.c:2853-2889 | the further buffers of a large message's frame are used up and appended whole |
| Download.ReceiveBegin | c_com/c_com.c:1091-1194 | the buffers of a begin message's frame store its payload, for every name that fits; a completed large one frees the handle of the last continue message instead of its own |
| Download.ReceiveContinue | c_com/c_com.c:1238-1312 | the buffers of a continue message's frame append its payload to the file of its handle |
| Download.ChopAllPrefix | c_com/c_com.c:2853-2889 | the buffers of a stream are used message by message: those of one frame follow those of the frames before it |
| Download.DownloadFile | c_com/c_com.c:1156-1193 | whatever the message sizes, the buffers cut from the frames leave the payloads in order as the file, the pointer counts them and the file stays open exactly while bytes are missing |
| Download.LongName | c_com/c_com.c:1125-1150 | a begin message with an accepted name of 61 bytes, in a folder of 39, leaves the folder buffer of a new receiver |
| Download.NoSuchHandle | c_com/c_com.c:1256-1263 | a continue message for handle 64 leaves the table |
| Download.OverRead | c_com/c_com.c:1268-1294 | a continue message of 5000 bytes for a file that lacks 3000 writes more than its first buffer holds |
| BluetoothDownload.Pump | c_com/c_bt.c:1984-2019 | the decoder turns any fragments of a stream of frames into the chopped frames; reads shorter than the buffer never overrun it |
| BluetoothDownload.DownloadOverBluetooth | c_com/c_com.c:1091-1312 | begin and continue messages sent over Bluetooth in any fragments end as the file on disk, the payloads in order |
| Sender.BeginBlockIs | c_com/c_com.c:716-760 | both branches that write a begin message produce right length bytes |
| Sender.TxBuf.CreateBeginDl | c_com/c_com.c:671-763 | the first message is at most 1024 bytes, announces its own length and the file and carries its first bytes; without a handle or a valid name nothing changes |
| Sender.TxBuf.CreateContinueDl | c_com/c_com.c:765-819 | the next message is at most 1024 bytes, announces its own length and carries at least one further byte of the file |
| Sender.TxBuf.SystemReply | c_com/c_com.c:822-936 | what a reply does: another part, the next file of the folder, the end, nothing on an error, or a stop inside the folder at a file without a handle |
| Sender.TxBuf.SystemReplyError | c_com/c_com.c:939-962 | a refused begin message ends the transfer with FAIL and its file closed; any other error reply changes nothing |
| Transfer.Round | c_com/c_com.c:822-936 | a message and its reply: either the acknowledged part of the file grows or the whole file has arrived and its handle is free, unless a name does not fit |
| Transfer.Run | c_com/c_com.c:671-930 | the transfer terminates, and the receiver stays inside its buffers iff every name fits; then the sender is idle with result OK and the receiver's disk holds every file |
| Transfer.SendFile | c_com/c_com.c:4087-4097 | a file of any size, also empty, ends up on the other brick byte for byte, and every handle is as before, iff its name fits the folder buffer |
| Transfer.SendUnnamed | c_com/c_com.c:671-690 | a file for which the sending brick has no handle is not sent, and the sender stays busy |
| Transfer.SendRefused | c_com/c_com.c:1194-1234 | a file for which the receiver has no handle, room or name, or that it cannot open although its name fits, leaves the sender idle with FAIL and the receiver as it was |
| Transfer.SendFolder | c_com/c_com.c:4063-4086 | a folder's files arrive one after the other iff every name fits; an empty one leaves the sender's state at TXFOLDER |
| Transfer.StoredHolds | c_com/c_com.c:890-927 | files with different paths are all found as they were sent |
| ListingEntries.GetName | c_com/c_com.c:966-1017 | the line of an entry, a folder's with a slash, a file's behind its 32-digit sum and 8-digit size, field by field, and its length; it stays inside its arrays and the caller's destination iff the line fits |
| ListingEntries.TextIsLine | c_com/c_com.c:975-1015 | in a file's line the sum stands in sixteen pairs of digits and the size in eight, each read highest first as its value; name, spaces and newline stand at their places |
| ListingEntries.HexReads | c_com/c_com.c:1001-1007 | the digits '0' to '9' and 'A' to 'F' of a field give back the number modulo the field's range |
| ListingEntries.NameBounds | c_com/c_com.c:2029-2031 | the bounds as lengths of names: a file's up to 76 bytes, a folder's up to 117, for the continuations; LIST_FILES has more room |
| ListingEntries.GetLength | c_com/c_com.c:1886-1905 | what the first pass adds for an entry without writing its line is the length of that line |
| Listing.ListTx.ListSize | c_com/c_com.c:1882-1907 | the announced size is the total length of the entry texts |
| Listing.ListTx.ListFiles | c_com/c_com.c:1811-1995 | an empty directory is refused; otherwise the fill loop stays inside the list and its arrays iff some entry has a line and the lines looked at fit, and then the first payload is the list's beginning; the saved position is where it ends iff any bytes were asked for |
| Listing.ListTx.FillFirst | c_com/c_com.c:1943-1981 | the first fill loop stays inside iff some entry has a line and the lines it needs fit; what is sent and what remains are the whole list |
| Listing.ListTx.ResumeSplit | c_com/c_com.c:3185-3219 | the rest of a split entry comes first, also when it must be split again; inside iff its line fits the shorter destination |
| Listing.ListTx.FillMore | c_com/c_com.c:2133-2166 | the fill loop of both continuations, inside iff the lines it needs fit |
| Listing.ListTx.TxUpdate | c_com/c_com.c:3158-3273 | the continuation of a message sends exactly the next bytes of the list, iff the lines it needs fit, and gives the list back exactly when it sends the last of them |
| Listing.ListTx.ContinueListFiles | c_com/c_com.c:2020-2181 | the next message sends exactly the next bytes, iff the lines it needs fit and it does not read a list that was given back; the position stays right iff the request is not one for no bytes between two entries with a text to come |
| Listing.Conversation | c_com/c_com.c:1811-2181 | for any directory and any positive requests, whenever its memory is kept, the payloads join up to the list, from the highest entry to the lowest, cut only at the total asked for; with lines that fit it is kept iff the directory is empty, or some entry has a line and no request follows one that gave the list back above a lowest entry without a line |
| Listing.ReadAfterFree | c_com/c_com.c:3266-3271 | thirty files above an entry without a line, and the requests 2000 and 1, read the list after it was given back |
| Listing.EntryLost | c_com/c_com.c:2133-2166 | a request for no bytes between two files: less is left to be sent than the list still lacks |
| Listing.LongLine | c_com/c_com.c:2029-2031 | a file name of 77 bytes, begun by LIST_FILES, leaves the destination of the continuation |
| ComInstance.HandledLocal | c_com/c_com.c:2612-2834 | every command type leaves the other channels' buffers alone and never makes the machine ready to read |
| ComInstance.Com.UpdateChannel | c_com/c_com.c:2576-2890 | one channel's turn is one step of the machine, keeps its invariant, and changes nothing while a direct command is pending or an image is about |
| ComInstance.Com.Update | c_com/c_com.c:2554-2905 | a pass over the eleven channels is a run of those steps in channel order, keeps the invariant, and takes up one direct command that wants a reply at most |
| ComInstance.Com.Write | c_com/c_com.c:3507-3555 | the reply to a finished image is one step of the machine and keeps the invariant |
| DispatchRuns.SoundKept | c_com/c_com.c:2554-2905 | every event keeps the invariant tying readiness, reply status and image together |
| DispatchRuns.NothingReadMeanwhile | c_com/c_com.c:2583-2596 | in every reachable state with a direct command pending or an image waiting or running no channel is read; the "busy" answer is unreachable |
| DispatchRuns.RepliesGoHome | c_com/c_com.c:2691-2744 | in every run the channels of the direct commands taken up are, in order, the channels answered and then the one still waiting |
| DispatchRuns.RepliesCarryCounters | c_com/c_com.c:3527-3550 | with no program writing on the waiting channel the replies also carry the commands' message counters, in order |
| DispatchRuns.CallBalance | c_com/c_com.c:3529-3546 | one event's share of that, and the size, type and block length of the reply |
| DispatchRuns.DisturbedReply | c_com/c_com.c:3744-3767 | a message written on the waiting channel replaces the reply's counter and size |
| DispatchRuns.DeafIff | c_com/c_com.c:517-586 | the brick stops reading for good iff a malformed direct command has been taken up |
| DispatchRuns.DeafReached | c_com/c_com.c:517-586 | one direct command without byte codes, on any channel, before any run |
| DispatchRuns.DeafForGood | c_com/c_com.c:2587-2590 | from then on no run reads, accepts or answers anything |
| DispatchRuns.ErrorReplyLength | c_com/c_com.c:2697-2702 | the error reply goes out with the block length of the channel's previous message |
| DispatchRuns.SystemRepliesGoHome | c_com/c_com.c:2747-2776 | in every run in which no command with cookies cuts in, the channels of the system commands that want a reply are, in order, the channels answered and then the one still on its way |
| DispatchRuns.SmallCommandAnswered | c_com/c_com.c:2747-2776 | a system command that is complete at once is answered iff it wants a reply, with the handler's buffer, and frees receiver and status |
| DispatchRuns.WhatStarts | c_com/c_com.c:2583-2890 | in every reachable state exactly these reads leave something to be sent |
| DispatchRuns.WhatRuns | c_com/c_com.c:2615-2744 | in every reachable state exactly these events make an image, and start one |
| DispatchRuns.WhatSetsStatus | c_com/c_com.c:2691-2776 | in every reachable state exactly these events set the reply status, each to one kind, and exactly these empty it |
| DispatchRuns.WellFormedSizes | c_com/c_com.c:517-586 | a direct command makes an image for sizes 6 to 1026, with cookies 10 to 1030, and at most 1021 bytes of global variables; one too short for its cookies never does |
| DispatchRuns.HeldBack | c_com/c_com.c:2600-2834 | an unknown command, or one that the reply status holds back, only clears its channel's head |
| DispatchRuns.ProgramsSend | c_com/c_com.c:3744-3767 | a program's message waits for a channel that is sending, a file transfer does not; only an accepted buffer frees a channel |
| DispatchRuns.PollAnswer | c_com/c_com.c:2838-2849 | an empty message is answered over the last image's global variables |
| DispatchRuns.BuffersNeeded | c_com/c_com.c:2853-2889 | in any run a large message takes exactly as many reads of its channel as bring what is missing |
| DispatchRuns.OneAtATimeKept | c_com/c_com.c:2747-2776 | while no command with cookies cuts in, one channel at most is inside a large message and the reply status says so |
| DispatchRuns.AskedRun | c_com/c_com.c:2747-2776 | over any run from any state, a reply is owed iff one was owed and the status has not been emptied, or a large message has asked for one since it was |
| DispatchRuns.AnsweredIff | c_com/c_com.c:2853-2889 | from any state and in any run, a large message whose last buffer is read is answered exactly under that condition |
| DispatchRuns.WantedAnswer | c_com/c_com.c:2747-2889 | a large message that wants a reply gets it iff the status was not emptied on its way or another large message has asked since |
| DispatchRuns.UnwantedAnswer | c_com/c_com.c:2747-2889 | one that wants none gets one iff the status was emptied on its way and another large message has asked since |
| DispatchRuns.ImagesClear | c_com/c_com.c:3548-3552 | when a large message begins while no other is on its way, the status is emptied before its end iff an image ends |
| DispatchRuns.LargeAnswerIff | c_com/c_com.c:2554-2905 | the two cases together, with the end of an image as the condition |
| DispatchRuns.UninterruptedAnswer | c_com/c_com.c:2853-2889 | in reachable runs without a command with cookies inside a large message every one is answered exactly if it asked |
| DispatchRuns.LargeMessageServed | c_com/c_com.c:2853-2889 | such a message is served alone, from any point of it to its last buffer |
| DispatchRuns.InterruptedReplyLost | c_com/c_com.c:2615-2680 | whenever an image has ended inside a large message and no other has asked since, no answer is made ready |
| DispatchRuns.OneImageIsEnough | c_com/c_com.c:2615-2680 | in every state with one buffer left a command with cookies and its image make the answer vanish |
| DispatchRuns.AnotherAsks | c_com/c_com.c:2747-2776 | and a third channel's large message in between brings it back, also to a message that wants none |
| DaisyFlags.CookieOrder | c_com/c_daisy.c:291-297 | the next sequence number is larger and never 0, until it wraps |
| DaisyFlags.CookieNumber | c_com/c_daisy.c:291-332 | a cookie byte is 128, four times the sequence number and the layer |
| DaisyFlags.LayersTold | c_com/c_com.c:2624-2632 | the cookies of a command that names a port tell every brick its layer |
| DaisyChain.StepShape | c_com/c_daisy.c:1643-1770 | every event leaves a well-shaped chain |
| DaisyCookies.StepKeeps | c_com/c_daisy.c:1371-1412 | every event, losses included, keeps the invariant over flags, links and what has truly happened |
| DaisyCookies.CookieSafety | c_com/c_daisy.c:1740-1758 | in any run without a wrapping cookie, the master's busy bit of a port falls only after the brick at that depth stored the latest cookie and later reported the motor idle |
| DaisyCookies.OwnLayerIsDepth | c_com/c_daisy.c:814-842 | in every reachable state a brick's own layer is unset or its true depth |
| DaisyCookies.WrapBreaksSafety | c_com/c_daisy.c:291-297 | a concrete run with 32 commands in which the bit falls although no brick took any command |
| DaisyDelivery.Delivery | c_com/c_daisy.c:381-468 | from every reachable state with empty links, a command whose numbers do not wrap is taken by all bricks down to the one it names; each knows its depth and holds busy bytes with the new numbers |
| DaisyDelivery.ReportReturns | c_com/c_daisy.c:1740-1758 | and when the bricks then report in turn, the master's busy bit of each named port follows that motor, so it falls when the motor is idle |
| DaisyDelivery.RecordClimbs | c_com/c_daisy.c:1760-1770 | a polled report puts one record into the table of the brick above, one layer further down, and changes no other entry |
| DaisyDelivery.TablesMarked | c_com/c_daisy.c:173-181 | an entry that is marked keeps its record, a row that is reset is invalid |
| DaisyTable.TableProvenance | c_com/c_daisy.c:1473-1525 | in every reachable state a valid entry read for layer d and a device is a record the brick d deeper had for that sensor at an earlier step |
| DaisyTable.PositionOf | c_com/c_daisy.c:1450-1465 | in every reachable state the read position is determined by the number of pushes |
| DaisyTable.EveryPairOnce | c_com/c_daisy.c:1450-1465 | any 32 consecutive pushes visit each layer and sensor exactly once |
| DaisyChain.DeviceNo | c_com/c_daisy.c:1327-1332 | the renumbering of ports 4..7 as 16..19 undoes itself |
| DaisyPackets.SizeRoundTrip | c_com/c_daisy.c:649-676 | the size field gives back the size |
| DaisyPackets.HopShortens | c_com/c_daisy.c:773-812 | a hop turns the packet for n bricks ahead into the packet for n - 1 bricks ahead |
| DaisyPackets.Routing | c_com/c_daisy.c:773-882 | after any number of hops the packet is the one the remaining distance calls for, with its content unchanged |
| DaisyPackets.Arrival | c_com/c_com.c:2615-2680 | the last brick finds the four cookies and, with them cut off, a plain direct command with exactly the payload and the right size |
| DaisyPackets.PacketsAreCommands | c_com/c_daisy.c:406-464 | the bytes refine the commands of the chain model, at the master and at each hop |
| DaisyBrick.Daisy.SetupMagicCookies | c_com/c_daisy.c:304-332 | the new sequence numbers, busy bytes and outgoing cookies for any set of ports |
| DaisyBrick.Daisy.RefreshBusyFlags | c_com/c_daisy.c:1378-1405 | the brick's own four bytes follow its motors, ages unchanged |
| DaisyBrick.Daisy.MergeBusyFlags | c_com/c_daisy.c:1740-1758 | a report clears exactly the bits that it says are idle and that are not newer here |
| DaisyBrick.Daisy.MotorDownStream | c_com/c_daisy.c:381-465 | the outgoing bytes are the packet of the model for every layer and payload that fits |
| DaisyBrick.Daisy.DownStreamCmd | c_com/c_daisy.c:627-682 | the same for a command without cookies |
| DaisyBrick.Daisy.ChainDownstream | c_com/c_daisy.c:773-812 | what is sent on is the hop of the model |
| DaisyBrick.Daisy.ChainDownstreamWithBusy | c_com/c_daisy.c:814-882 | the relayed cookies are filed under their layers, the own layer set, and the hop sent on |
| DaisyBrick.Daisy.BusyCommand | c_com/c_com.c:2615-2680 | the receiving brick's layer, its own row of cookies and the shortened command |
| Md5.OptimisedForms | c_com/c_md5.c:60-63 | the optimised functions are F, G, H and I of the RFC |
| Md5.OpIsStep | c_com/c_md5.c:108-120 | one OP macro is one step of section 3.4 |
| Md5.FourSteps | c_com/c_md5.c:129-132 | four macros with rotating names are four steps |
| Md5.Table1 | c_com/c_md5.c:129-144 | word, shift and constant written out for round 1 are those of the schedule |
| Md5.Table2 | c_com/c_md5.c:161-176 | the same for round 2 |
| Md5.Table3 | c_com/c_md5.c:179-194 | the same for round 3 |
| Md5.Table4 | c_com/c_md5.c:197-212 | the same for round 4 |
| Md5.Round1 | c_com/c_md5.c:129-144 | the first sixteen assignments compute steps 1 to 16 |
| Md5.Round2 | c_com/c_md5.c:161-176 | steps 17 to 32 |
| Md5.Round3 | c_com/c_md5.c:179-194 | steps 33 to 48 |
| Md5.Round4 | c_com/c_md5.c:197-212 | steps 49 to 64 |
| Md5.CarryIsExact | c_com/c_md5.c:82-89 | the two words count bytes modulo 2^64; the carry is never missed and never invented |
| Md5.LengthWords | c_com/c_md5.c:325-329 | the two words written last are the bit count modulo 2^64, low word first |
| Md5.BitWords | c_com/c_md5.c:325-329 | the shifted and joined 32-bit words are, as numbers, the low and the high word of the bit count |
| Md5.PadFillsBlocks | c_com/c_md5.c:322-323 | for every staged length 0 to 64 the pad is the RFC's, and staged bytes, pad and length fill whole blocks within 128 bytes |
| Md5.Md5Ctx.ProcessBlock | c_com/c_md5.c:71-226 | the words become those of the RFC's block steps for every multiple of 64 bytes, and the count grows by their number |
| Md5.Md5Ctx.ProcessBytes | c_com/c_md5.c:230-269 | whatever is staged and however long the chunk, the message grows by exactly the chunk |
| Md5.Md5Ctx.HashStaged | c_com/c_md5.c:242-249 | whole staged blocks are hashed and the remainder moves to the front |
| Md5.Md5Ctx.Finish | c_com/c_md5.c:308-335 | the output is the RFC's digest of the whole message |
| Md5.ReadBlock | c_com/c_md5.c:358-368 | partial reads are collected into one block, in order |
| Md5.Md5Stream | c_com/c_md5.c:341-396 | for every file and every pattern of short reads the digest is the RFC's, or the read error is reported |
| Md5.Md5OfChunks | c_com/c_md5.c:230-335 | for every way of splitting a message over calls the digest is the RFC's digest of the whole |
| Md5Vector.WordNumber | c_com/c_md5.c:108-114 | a word is a number whose first byte counts least |
| Md5Vector.WordRoundTrip | c_com/c_md5.c:285-304 | its bytes are put out in the order they came |
| Md5Vector.AbcDigest | c_com/c_md5.c:230-335 | the digest of "abc" is the one of the RFC's test suite, byte by byte |
| Elements.Joined | c_memory/c_memory.c:4043-4119 | a block of whole elements followed by another holds the elements of both |
| Elements.Replaced | c_memory/c_memory.c:4083-4113 | replacing the bytes of one element replaces that element and no other |
| Elements.ZeroBlock | c_memory/c_memory.c:4072-4075 | cleared bytes are zero elements |
| Arrays.FitsAllocates | c_memory/c_memory.c:211-217 | the size test lets every fitting block through, and another only when its size has wrapped; never for one-byte elements |
| Arrays.Array.Resize | c_memory/c_memory.c:464-489 | success, loss or a block without room, each with its exact condition; a fitting block keeps the elements up to the shorter length |
| Arrays.Array.Write | c_memory/c_memory.c:4018-4127 | a write past the end extends the sequence with zeros up to the index; failure, loss of the array and an access outside the block each iff their condition |
| Arrays.SizeWraps | c_memory/c_memory.c:464-489 | an array of words written at index 2^30 - 1 is allocated without room for it |
| Arrays.Array.Append | c_memory/c_memory.c:4240-4340 | the element is added at the end iff the longer block fits and is granted; otherwise the array is lost |
| Arrays.Array.Read | c_memory/c_memory.c:4150-4209 | succeeds exactly for an index inside the sequence, with its element |
| Arrays.Array.Copy | c_memory/c_memory.c:3693-3720 | for any two handles: the destination becomes the source's sequence iff both exist, are of one type and the memory is granted; copied to itself it reads a block that is gone iff that was moved |
| Arrays.Array.WriteContent | c_memory/c_memory.c:3916-3963 | the bytes stand at their offset, the size is rounded up to whole elements and everything behind is cut off; with an index and length beyond 32 bits the array is emptied and success reported |
| Arrays.Array.ReadContent | c_memory/c_memory.c:3868-3911 | the bytes from an offset, with zeros behind the array |
| Arrays.ContentRoundTrip | c_memory/c_memory.c:3868-3963 | content written is read back from the same offset, and the number of elements |
| Arrays.Session | c_memory/c_memory.c:4018-4340 | any sequence of successful writes, appends, reads, resizes and copies behaves as on a mathematical sequence |
| Recent.Cache.Delete | c_memory/c_memory.c:680-709 | the name is removed and the rows close up; an absent name changes no row |
| Recent.Cache.PutFile | c_memory/c_memory.c:3205-3244 | the name is removed, put in front, and the first ten are kept |
| Recent.Session | c_memory/c_memory.c:3205-3253 | any sequence of puts and deletes on the rows is the same sequence on the list |
| Recent.AlwaysDistinct | c_memory/c_memory.c:680-709 | in every session the occupied rows are a prefix without a duplicate or an empty name |
| Recent.MostRecent | c_memory/c_memory.c:3217-3241 | after any puts the list is the ten names used most recently, in that order |
| SortedFolder.StableSortUnique | c_memory/c_memory.c:1631-1648 | a sequence has only one stable sort by priority |
| SortedFolder.Folder.Prioritise | c_memory/c_memory.c:1580-1625 | the priority found by the loops, for files, the projects folder and the other folders |
| SortedFolder.Folder.RankOrder | c_memory/c_memory.c:1560-1625 | favourites come first among apps and tools, in their order, and last among projects; a file of a favourite type comes before the others |
| SortedFolder.Folder.Pass | c_memory/c_memory.c:1633-1645 | a pass puts one more of the largest in place and keeps the order of equal priorities |
| SortedFolder.Folder.SeekDot | c_memory/c_memory.c:1588-1592 | the signed byte reaches the first dot or the end iff at most 127 bytes stand in front |
| SortedFolder.Folder.SortEntry | c_memory/c_memory.c:1569-1648 | after every call, also one that skips the loops, the entries are the stable sort of the former ones and the new one, ranked by its whole name and stored with its first 51 bytes; outside iff a file's dot is not reached |
| SortedFolder.Folder.GetFolderItem | c_memory/c_memory.c:1723-1790 | a directory entry is listed exactly if there is room and its name and kind belong here; its destinations are kept iff there is no room or the name fits them |
| SortedFolder.Folder.ReadFolder | c_memory/c_memory.c:1723-1790 | for any directory, its destinations are kept iff the entries met while there is room fit them, and then the listing is the stable sort by priority of the entries chosen from it |
| SortedFolder.LongExtension | c_memory/c_memory.c:1764 | a file a.html leaves the extension's five bytes |
| SortedFolder.LongStem | c_memory/c_memory.c:1588-1592 | a file of a known type with 128 bytes before the dot makes the signed byte wrap |
| Ring.StoreHidden | c_com/c_i2c.c:798-802 | storing a byte before the pointer moves changes nothing that is still to be read |
| Ring.InAppends | c_com/c_i2c.c:159-161 | moving the in pointer appends the stored byte; available and free bytes move by one |
| Ring.OutRemoves | c_com/c_i2c.c:159-162 | moving the out pointer removes the front byte |
| Ring.Mode2Buf.DataToMode2Decoding | c_com/c_i2c.c:776-806 | as many bytes as there is room for are appended, in order |
| Ring.Mode2Buf.SendWaiting | c_com/c_i2c.c:400-443 | the smaller of what is available and what is asked for is taken from the front, inside the transmit buffer iff it is at most 151 |
| Ring.LongRequest | c_com/c_i2c.c:411-430 | 152 bytes offered and asked for leave the transmit buffer |
| Ring.Mode2Buf.SendMessage | c_com/c_i2c.c:441-475 | six bytes behind a 0xFF, exactly when six are available |
| Ring.FifoStep | c_com/c_i2c.c:411-430 | every single step of either thread is a put, a get or nothing on a FIFO of at most 1023 bytes |
| RingMasks.DifferenceValue | c_com/c_i2c.c:159-160 | a difference of pointers, also one that is negative and has wrapped as a word, is masked to its remainder |
| RingMasks.Macros | c_com/c_i2c.c:159-162 | for every position of the pointers the four macros, with their masks on promoted 16-bit words, give the free and available bytes and the next positions |
| Ring.RingSafety | c_com/c_i2c.c:159-162 | in every interleaving the bytes taken and those in the buffer are the bytes accepted, and available and free are 1023 |
| Ring.TmpBufKept | c_com/c_i2c.c:411-430 | in every interleaving with requests of at most 151 the transmit buffer is kept |
| Ring.OfferReturns | c_com/c_i2c.c:776-806 | a call returns, whatever the other thread does meanwhile, the smaller of its length and the room at its start |
| Ring.RequestReturns | c_com/c_i2c.c:400-475 | a request ends, whatever the other thread does meanwhile, with the bytes at the front of the queue at its start, as many as asked for and there, or six |

## Left out

- All D-Bus, BlueZ, ConnMan, GLib, libusb, udev, ioctl and I2C calls: a socket read is "these bytes or nothing", a file is a sequence of bytes, `realloc` and `open` succeed or fail as a parameter says.
- `c_sound`, `c_dynload`, `c_robotcvm`, `c_input`, `c_output` and the user interface: no state machine over unbounded input.
- The bytecode parameter stack and dispatch status: modelled functions take and return ordinary values.
- Mode 2 decoding beyond the ring buffer, and the text handshake of the Wi-Fi connection.
- Wifi.WifiReader.Read: what follows once a buffer has been handed over with a byte that has not arrived.
- Bluetooth.BtChannel.HandleSppIn: what happens after an overrun; reads behind a split empty frame that come after its own read.
- Receiver.RxBuf.BeginDownload: the first buffer of a begin message holds the end of its name, without which the code reads on in its buffer; the disk is a map from paths to bytes, so two open handles on one path are not modelled; `mkdir` always succeeds.
- Receiver.RxBuf.ContinueDownload: handle 64 reads one slot behind the table, as 65 to 127 do more; nothing is said of what is found there.
- Receiver.RxBuf.Resume: the buffer holds at least what is written of it, as the transports deliver it.
- Sender.TxBuf.CreateBeginDl: a local file that cannot be opened or measured, and names that `cComGetNxtFile` cuts off; the transmit buffer is the sequence of its first BlockLen bytes.
- Transfer.Run: the channel is reliable, the two bricks answer each other alone, and the sender has a handle for every file of a folder; without one it stops inside the folder, as Sender.TxBuf.SystemReply says.
- Listing.ListTx.ListFiles: the sixteen bytes printed for a file's sum, whose computation is commented out, are given with the entry and do not change; a directory that cannot be read counts as empty. A free handle is there, and freeing the handle that a continuation names is not modelled.
- FileNames: 120, 84, 32 and 5 are the values of vmFILENAMESIZE, vmPATHSIZE, vmNAMESIZE and vmEXTSIZE in a generated header that is not part of this model; whether the characters of a name are valid is given.
- ListingEntries.GetName: the folder is given as LIST_FILES stored it.
- Uploads, `GETFILE`, mailboxes and the other system commands: in Dispatch they are an outcome that a handler leaves in its channel's buffers.
- Dispatch: the cookies of a command with cookies are modelled in DaisyBrick, its motor signals not at all; the image's bytes are represented by its number of global variables.
- DaisyChain: tables and links are values, not arrays in place; the checksum byte of a sensor record, INFO packets, unlocking and the timing of the pushes are not modelled; time and loss appear as events in any order.
- DaisyCookies.CookieSafety: safety only, and only for runs in which no cookie wraps; that a busy bit ever falls is not claimed, since unnamed ports are sent cookie 0.
- DaisyBrick.Daisy.MotorDownStream: the payload fits the 64-byte packet, which the caller guarantees.
- Md5.Md5Ctx.ProcessBytes: a chunk is shorter than 2^32 bytes, the range of `size_t` on the brick; `md5_file` and alignment are not modelled.
- Arrays.Array.Copy: the element size stands for the type, so two types of one size are not told apart; whether `realloc` moves a block of unchanged size is a parameter.
- Arrays.Array.Resize: what growth adds is unspecified, as in the code; where the code would access memory outside the block the model stops with a status of its own.
- Arrays: creation, `FILL`, the `INIT` forms and reading the size, which would only add easy members.
- Recent.Cache.constructor: a file of an earlier session is not read back; text is compared and copied as values, so row lengths are not modelled.
- SortedFolder.Folder.SortEntry: the number of file types and the depth of a folder come from a generated header that is not in the repository, so they are parameters; whether a file's type is known, and its rank, are given with the entry.
- Ring.RingSafety: memory is sequentially consistent, and each pointer is read and written whole.
