# The HT message transfer daemon of MHSnet, and the code around it

This project models how MHSnet moves messages between neighbours and proves that they arrive whole. A
message is a list of file parts. `HTdaemon` cuts it into packets, sends them over one of four channels
of a circuit that loses packets, and the receiver writes them where they belong, keeps a list of what is
missing, asks for it again, and hands the message over when nothing is missing and the end has been
seen. Both ends may stop at any time and take the message up again. Around it stand the framing of
packets in the byte stream, the cooking of bytes that a circuit would swallow, the choice of the next
message, the reassembly of messages sent in parts, the index that protects queued files from purging,
the traversal of routes, and a small stop-and-wait file transfer.

The modules follow the program:

| module | models |
|---|---|
| `Channel`, `GapList`, `WriteBuffer`, `Receiver` | the receiving channel, its missing ranges, its block buffer and its packet handlers |
| `Parts`, `Commands`, `ReadBuffer`, `Transmitter` | the parts of a message, the commands they are built from, the read buffer and the sending handlers |
| `Coverage`, `Asking`, `Repair` | what the receiving handlers keep, what they ask for and when, and how what is missing comes |
| `Resumption`, `Retained` | when a message taken up again may be interrupted, and from where one is taken up |
| `Turns`, `Sending` | when the writer writes, and what it has sent |
| `Outgoing`, `Resending` | a message from its commands file to its packets, and which messages are sent again rightly |
| `System`, `Delivery`, `Duplicates`, `Replies`, `Progress` | one channel of a link as a state machine, its safety over every run, and that from every state all messages can still be delivered |
| `Packets`, `Deframing` | header bit fields, and packets in a byte stream |
| `Cook` | the two escape codecs |
| `Scheduler`, `Finding` | the message queues of a daemon, and what is found in them |
| `AllParts` | reassembly from parts |
| `Purge` | the reference index |
| `Routes` | routes walked forwards and backwards |
| `Log`, `LogReceive`, `LogDamage`, `LogNoise`, `LogLink`, `LogProgress` | stop-and-wait transfer: sender, receiver, what they make of damage, noise and silence, and both on a line |

Objects whose fields the program changes are classes. A handler is a method whose `ensures` gives the
channel's next snapshot as a function of the last (`chnp.Now() == F(old(chnp.Now()))`), and the lemmas
and the state machine of `System` are about those functions. `Became` and `UpToDisk` leave open how
much of the write buffer has reached the disk, so what is proved about restarts holds for every such point;
where the very bytes matter (`Resumption`), the buffer is followed exactly. The read buffer is followed
exactly throughout: methods read what `ReadDataOf` says, right or wrong, and lemmas say when that is the message.

`Powers` and `Sequences` hold what several modules share.

## What the main theorems rest on

- Each direction of a channel is first in, first out: it may lose packets but neither reorders nor
  repeats them, and damaged packets count as lost. DATA and NAK packets carry no message identifier.
- The sender starts a message only when the last one has been retired, does not abandon it, and each
  message has bytes and an identifier of its own.
- The budget that an EOM gives to NAKs is not 0. `Coverage.EomHandsOver` shows what happens when it is.
- A session starts and ends for both ends together, and packets of the old session are gone. It may end at any
  moment; `Progress` does not let it, but when the sender gives up.
- A message that the reader resumed below bytes that are wrong in its file is not interrupted a second
  time. `Resumption.StopsWellIff` shows that just those messages cannot be.
- Messages are safe to read backwards, which only NAKs and a SOMA for a lower address bring about.
  `ReadBuffer.ReadsRightIff` and `Resending.SenderNaksIff` show that just those are read right.
- In the stop-and-wait transfer damage shows in the check bytes (`LogDamage` shows what the receiver then
  does, and `Log.TwoBytesHide` what damage does not), and noise is not taken for an acknowledgement of the
  current block or for the receiver's last word.

## What was found out about the code

- `NAKGaps` returns 0 when it is given no room, so an EOM on a circuit that carries less than a byte a
  second hands over a message that has gaps (`Coverage.EomHandsOver`; HTdaemon/receiver.c:458).
- A reader that has gone back in the file of a message below a wrong byte, and is stopped again, can resume
  it above that byte. It happens for some packets whenever there is such a byte, and for none otherwise
  (`Resumption.StopsWellIff`). A message of which only the second half came before the first stop can so be
  handed over with a hole in it (`Resumption.SeekBackLoses`).
- The read buffer can claim addresses below its part, when the part begins inside a block of its file and
  the message has as many bytes in front of it. A NAK for one of them is then answered with the byte that
  the file has there, which is right only if it happens to be the message's
  (`Transmitter.NaksRightIff`, `Resending.SenderNaksIff`, `Resending.NakExample`). CH_IGNBUF, which is to bypass the buffer, is
  looked at only after the test for a hit.
- A message begun anew because its file was gone is marked as a possible duplicate, but the mark is lost if
  the reader is stopped twice before the next SOM of it comes (`Duplicates.TwiceForgets`).
- A reader that has started again and hears an EOM of its message before the SOM counts the message as ended,
  though it was not handed over, and answers its SOMs with EOMA from then on (`Retained.EarlyEomLoses`). In
  the runs of `Delivery` no EOM comes so early.
- The hash of a directory name whose sum is -2^31 is an index below the table of work directories
  (`Purge.InTableIff`, `Purge.BelowTable`).
- The count of references to a file is sixteen bits wide: a file referred to 65536 times is purged
  (`Purge.Purged`).
- On a route of which some node has no time but the last has one, `ExRoute` stops, but `ExRevRoute` looks
  for the missing time past the next node, calls back with both nodes as one, and goes to the end; on all
  other routes the two agree (`Routes.DoneIff`, `Routes.RunTogetherIff`).
- The check bytes of the file transfer show any change of one byte, but not a change of the same bits in two
  that leaves their sum as it was, such as two that change places (`Log.OneByteShows`, `Log.TwoBytesHide`).
- `xproto` never ends with EX_OK when `rproto` is at the other end: the block that ends the file is answered
  with ETX, which it reports as ended by the remote (`LogLink.Transferred`).
- The comment on CookX asks for a buffer of 2n + 2; 2n is enough (`Cook.SizeX`).

## Model

| member | source | states |
|---|---|---|
| `Delivery.Delivered` | HTdaemon/receiver.c:132-153 | At every point of every run of the link (losses, repeats of NAK, SOM and EOM, restarts of both ends) what has been handed over is a prefix of the sender's messages, in order, each with all its bytes; the sender has retired none that was not handed over, and is at most one behind |
| `Delivery.OnlyOnce` | HTdaemon/receiver.c:419-424 | In no run is an identifier handed over twice, though SOM, EOM and EOMA repeat |
| `Duplicates.DuplicateIff` | HTdaemon/receiver.c:757-770 | Over every run, a message is handed over as a possible duplicate if and only if its file was gone when its SOM came, and no session ended between that SOM and another |
| `Duplicates.StepFlags` | HTdaemon/status.c:164-170 | Each step sets and drops the flag so |
| `Duplicates.TwiceForgets` | HTdaemon/status.c:164-170 | Stopped once, a reader remembers the flag of a message in progress; stopped again before the SOM comes, it has forgotten it |
| `Delivery.RunKeeps` | HTdaemon/transmitter.c:646-743 | The invariant behind `Delivered` holds in every state of every run |
| `Delivery.StepKeeps` | HTdaemon/transmitter.c:646-743 | Each step of sender, receiver, circuit or restart keeps that invariant |
| `Delivery.Acknowledged` | HTdaemon/transmitter.c:119-138 | An EOMA that the sender takes for its message is for a message the receiver has handed over |
| `Delivery.StartKeeps` | HTdaemon/message.c:504-528 | Starting the next message, SOM and all, keeps the invariant |
| `Delivery.WriteKeeps` | HTdaemon/transmitter.c:646-743 | The writer's turn keeps it: what enters the circuit is the current message's bytes, name and size |
| `Delivery.SenderKeeps` | HTdaemon/transmitter.c:284-485 | Taking in a NAK, SOMA or EOMA keeps it, stale ones included |
| `Delivery.ReceiverKeeps` | HTdaemon/receiver.c:203-462 | Taking in DATA, SOM or EOM keeps it, whatever state the receiver is in |
| `Delivery.RestartKeepsInv` | HTdaemon/status.c:161-174 | Stopping both ends at any handler boundary, the last buffer written out or not, and starting them again keeps it |
| `Delivery.SuspendedTakes` | HTdaemon/receiver.c:746-784 | The first packets after a restart: DATA is ignored, a SOM takes the message up where its file is good, or starts it afresh if the file is gone |
| `Delivery.DoneStays` | HTdaemon/receiver.c:748-758 | Once a message has been handed over its packets bring an EOMA at most |
| `Delivery.DoneStarts` | HTdaemon/receiver.c:798-837 | The SOM of another message starts that message, whatever was there |
| `Delivery.NakSends` | HTdaemon/transmitter.c:284-405 | What a NAK makes the sender write is genuine DATA of its message, and the channel goes on as before |
| `Progress.Delivers` | HTdaemon/transmitter.c:617-743 | From every state of every run, at any time, the two ends can go on so that all messages are handed over, whole and in order, and retired, whatever has been lost. Every file is there, time does not run back, packets may go on being lost, and neither end stops: or only when the sender has sent its EOMs in vain, as in the program, and begins again at whatever address it had saved. With a sender that so gives up, a message that may not be interrupted must have its two ends in step, or fewer bytes missing than the sender has EOMs left |
| `Progress.Recovers` | HTdaemon/transmitter.c:284-485 | The same of the message that is being sent, also when the reader has taken it up below wrong bytes, or it had been handed over or retired before |
| `Progress.Repaired` | HTdaemon/receiver.c:434-461 | A message of which bytes are missing when its sender is at its end is asked for, sent again and handed over, round after round, or in the next session if the sender gives up |
| `Progress.Round` | HTdaemon/receiver.c:434-461 | An EOM that does not bring the message to be handed over brings a NAK, for some of it or all of it, and the answer leaves fewer bytes missing; it costs the sender one EOM |
| `Progress.Introduced` | HTdaemon/receiver.c:703-895 | A receiver that does not know of the message, or was interrupted in it, receives it from where its file is good, or from where it was begun: wherever the sender begins |
| `Progress.FedThrough` | HTdaemon/transmitter.c:646-743 | Two ends at the same address, below which nothing is missing, come to the end of the message together, and it is handed over |
| `Progress.NewSession` | HTdaemon/status.c:161-174 | A sender that has sent its EOMs in vain begins again, and so does the receiver |
| `Progress.WithoutLoss` | HTdaemon/transmitter.c:646-743 | Between messages, with nothing on its way, all that are left can be delivered and retired without losing a packet |
| `Progress.AllPackets` | HTdaemon/transmitter.c:646-743 | Without loss, packet after packet brings sender and receiver together to the end of the message |
| `Repair.EomAsks` | HTdaemon/receiver.c:434-461 | An EOM that does not hand the message over is answered first with a NAK for bytes that are missing, once what was asked for before is overdue; and what is missing stays the same |
| `Repair.DataFills` | HTdaemon/receiver.c:300-346 | DATA from a missing address on leaves strictly less missing, below the position or at it |
| `Repair.NakAllFirst` | HTdaemon/gap.c:163-192 | With room for it, NAKGaps asks first for the first bytes of the first gap that is overdue |
| `Asking.DataAsks` | HTdaemon/receiver.c:324-346 | DATA at or above the position asks for what it passes over; and if the last checkpoint is long ago, and there is room, it asks again, first for the first byte of the first gap that was last asked for long ago or less often than EOMs came: else for nothing more |
| `Asking.EachAsked` | HTdaemon/gap.c:163-192 | With room for those before it, each such gap is asked for, from its first byte, and noted as asked now |
| `Asking.OldAsked` | HTdaemon/gap.c:163-192 | And no other gap is |
| `Asking.EomAsksEach` | HTdaemon/receiver.c:434-461 | An EOM asks for each gap that has been asked for no more often than EOMs came before it, if there is room for those before it |
| `Asking.SomAsksAnew` | HTdaemon/receiver.c:887-892 | A SOM that is repeated starts the count of EOMs anew: the first EOM after it asks only for gaps last asked for long ago, or never |
| `Asking.NotAskedTwice` | HTdaemon/gap.c:201-309 | What the last DATA passes over is asked for then, and not again at an EOM that comes within NAK_TIMEOUT |
| `Replies.RunReplies` | HTdaemon/transmitter.c:101-157 | In every run, until the receiver has begun the sender's message the sender is still announcing it and only EOMAs are on their way back to it; and nothing but EOMAs comes behind the EOMA of its message |
| `Replies.StepReplies` | HTdaemon/transmitter.c:101-157 | Each step of sender, receiver, circuit or restart keeps that |
| `Delivery.ReceiverCan` | HTdaemon/receiver.c:203-895 | In every state that the invariant allows, whatever comes next is taken: no run is ruled out by what a step of the receiver takes for granted |
| `Delivery.SenderCan` | HTdaemon/transmitter.c:284-485 | The same of the sender and what comes back |
| `Delivery.WriterCan` | HTdaemon/transmitter.c:646-743 | And of the writer, which can always have its turn |
| `Coverage.DataKeeps` | HTdaemon/receiver.c:203-347 | Any DATA handler: the receiver goes on with every byte below its position written or in a gap, the gaps sorted, disjoint and within the message; or it hands over the whole message |
| `Coverage.EomKeeps` | HTdaemon/receiver.c:356-462 | The same of EOM, given that NAKs have room |
| `Coverage.EomHandsOver` | HTdaemon/receiver.c:434-461 | Exactly when an EOM hands the message over: no gap is left and the position is at the end; or the NAK budget is 0 and something has been received |
| `Coverage.HandsOverAsIs` | HTdaemon/receiver.c:434-461 | With a NAK budget of 0 what is handed over is the file as it stands |
| `Coverage.MissingHandedOver` | HTdaemon/receiver.c:434-461 | A message of which the first byte is missing, and which is handed over with 0 in its place |
| `Coverage.OldKeeps` | HTdaemon/receiver.c:300-330 | DATA below the receiving position fills gaps, moves the position up, and ends an ending message |
| `Coverage.NewKeeps` | HTdaemon/receiver.c:330-346 | DATA at or above the position keeps coverage, be there a new gap or not |
| `Coverage.WholeFile` | HTdaemon/receiver.c:455-461 | With no gap left and the position at the end, the file is the message |
| `Coverage.NewMesgKeeps` | HTdaemon/receiver.c:825-836 | A new message begins with nothing missing below position 0, and may be stopped |
| `Coverage.ResumeKeeps` | HTdaemon/receiver.c:776-783 | A resumed message begins with every byte below its position right, gap list dropped; and may be stopped if its file is right from goodaddr on |
| `Coverage.RestartKeeps` | HTdaemon/status.c:161-174 | Interrupt a message that may be stopped, at any handler boundary: the bytes below the file's length and the saved goodaddr are on disk and right |
| `Coverage.RestartAgain` | HTdaemon/status.c:161-174 | Restarts before the SOM comes change nothing of that |
| `Resumption.StopsWellIff` | HTdaemon/receiver.c:776-783 | A message taken up again may be stopped at any moment, whatever packets came and whatever is in the buffer, if and only if the bytes that its file has from goodaddr on are right |
| `Resumption.AnyMessageIff` | HTdaemon/receiver.c:778-779 | Without knowing the message: if and only if its file goes no further than goodaddr, that is, the reader does not seek back |
| `Resumption.SeekBackLoses` | HTdaemon/receiver.c:776-783 | The message 1 2 is so handed over as 0 2: its second byte comes first and is on disk when the reader stops; it goes back, and is given an EOM, a SOM and the first byte, and stopped again; it resumes above the first byte, which is not on disk |
| `Resumption.MisledIs` | HTdaemon/receiver.c:300-346 | The first stop leaves a file with a hole, from which the reader goes back to 0 |
| `Resumption.FirstWrong` | HTdaemon/receiver.c:776-783 | The packets that mislead the reader about the byte it went back for |
| `Resumption.LaterWrong` | HTdaemon/receiver.c:300-346 | And about a byte above that |
| `Resumption.RunGoing` | HTdaemon/receiver.c:203-462 | Whatever packets come, a message that may be stopped goes on coming in, or is handed over whole |
| `Retained.TakenUpWhereMissing` | HTdaemon/receiver.c:776-783 | Whatever has come of a message since it began, and whatever of it is on disk, a reader that stops and starts takes it up at the first byte that is missing, or where its file ends, and says so in its SOMA |
| `Retained.TakenUpPast` | HTdaemon/receiver.c:328-333 | And one that was taken up before, never below a packet that came in its turn with nothing missing, but for a byte missing or the end of its file |
| `Retained.EarlyEomLoses` | HTdaemon/receiver.c:426-432 | A reader that has started again, and hears an EOM of its message before a SOM, never hands it over, whatever comes and however often it stops; and answers each SOM of it as if it had |
| `Coverage.DataStops` | HTdaemon/receiver.c:203-347 | A message that may be stopped may be stopped after any DATA handler |
| `Coverage.EomStops` | HTdaemon/receiver.c:356-462 | And after any EOM handler |
| `Receiver.RecvData` | HTdaemon/receiver.c:203-347 | The DATA handler takes the channel to the state that the lemmas above are about, and the write buffer to just what the writes make of it; without an open file it changes nothing |
| `Receiver.DataBecame` | HTdaemon/receiver.c:203-347 | What becomes of the buffer changes nothing but how much of the view is on disk, and never what the disk has above the buffer |
| `Receiver.EomBecame` | HTdaemon/receiver.c:356-462 | The same of EOM |
| `Receiver.RecvOld` | HTdaemon/receiver.c:300-330 | DATA below the position: gaps filled, bytes written, the message ended if it was ending and is whole |
| `Receiver.RecvNew` | HTdaemon/receiver.c:330-346 | DATA at or above the position: gap noted or filled, checkpoint taken, bytes written |
| `Receiver.RecvEOM` | HTdaemon/receiver.c:356-462 | The EOM handler, case by case: wrong message, ended, starting, all missing, tail missing, complete |
| `Receiver.RecvSOM` | HTdaemon/receiver.c:703-895 | The SOM handler: repeated, resumed, file gone, new message |
| `Receiver.EndMesg` | HTdaemon/receiver.c:132-153 | Flush, close, hand over, acknowledge, save status |
| `Receiver.AbortInMesg` | HTdaemon/receiver.c:70-110 | An open file is removed, and a message in progress counts as ended |
| `Receiver.ReadCleanup` | HTdaemon/reader.c:217-227 | Winding up writes what the buffer holds into an open file |
| `Receiver.Resume` | HTdaemon/receiver.c:774-783 | Resume at the end of the file or at goodaddr, whichever is lower |
| `Receiver.InitStatus` | HTdaemon/status.c:161-174 | A new reader has the saved status and the disk, and starts interrupted messages again |
| `GapList.FillGap` | HTdaemon/gap.c:44-134 | In place, the list becomes the one the lemmas below describe; true iff the range meets a gap |
| `GapList.FilledIn` | HTdaemon/gap.c:60-131 | Exactly the addresses of the range are removed from the gaps |
| `GapList.FilledWell` | HTdaemon/gap.c:60-131 | A list that is sorted, strictly separated and free of empty gaps stays so, and its first gap does not move down |
| `GapList.HitsMeets` | HTdaemon/gap.c:60-131 | FillGap's result is true if and only if some address of the range was missing |
| `GapList.QueueGap` | HTdaemon/gap.c:201-308 | In place, the gap up to `gapend` is noted, goodaddr lowered and saved, and NAKs sent if it was new |
| `GapList.QueuedIn` | HTdaemon/gap.c:212-297 | The new gaps are exactly the union of the old with the range, on any well-formed list |
| `GapList.QueuedWell` | HTdaemon/gap.c:212-297 | Gaps that touch are made one, so that the list stays strictly separated; it now begins at the range or below |
| `GapList.QueuedNak` | HTdaemon/gap.c:277-305 | No NAK is sent if and only if one gap held the range already; what is asked for otherwise is all missing, and reaches at least to the range's end |
| `GapList.NAKGaps` | HTdaemon/gap.c:163-192 | Gaps asked for again, with the count of gaps visited |
| `GapList.NakAllCount` | HTdaemon/gap.c:172-190 | The count is 0 if and only if there is no gap or no room |
| `GapList.NakAllRanges` | HTdaemon/gap.c:172-190 | Asking again moves no gap |
| `GapList.NakAllWithin` | HTdaemon/gap.c:172-190 | Every NAK asks for bytes that are missing |
| `GapList.SendNAK` | HTdaemon/receiver.c:955-997 | Sends NAKs until the range or the packet budget is used up, and returns the bytes asked for |
| `GapList.NaksTile` | HTdaemon/receiver.c:964-996 | Those NAKs are consecutive, and cover exactly the first `sent` bytes of the range |
| `GapList.NaksBudget` | HTdaemon/receiver.c:964-996 | They cover all of it unless the budget runs out, which is overspent by less than one NAK |
| `GapList.NaksBounded` | HTdaemon/receiver.c:964-996 | A NAK asks for more than four packets' data only when it asks for the whole message |
| `WriteBuffer.WriteData` | HTdaemon/bufferio.c:229-318 | File, write point and buffered bytes become exactly those of `WriteDataOf`; so, once flushed, a write at `addr` |
| `WriteBuffer.WriteDataRight` | HTdaemon/bufferio.c:229-318 | That is a write at `addr` into the file as it will be, and it leaves alone what the file has above the buffer, which only moves up |
| `WriteBuffer.FillRight` | HTdaemon/bufferio.c:279-311 | The same of the loop that fills and flushes block after block |
| `WriteBuffer.FlushWData` | HTdaemon/bufferio.c:58-77 | Flushing changes the disk to the view, and leaves the view alone |
| `WriteBuffer.WriteUnder` | HTdaemon/bufferio.c:244-262 | Bytes below the buffer go round it |
| `WriteBuffer.Buffer` | HTdaemon/bufferio.c:279-311 | Bytes for the current block go into the buffer, which never crosses the block's end |
| `WriteBuffer.WriteBelow` | HTdaemon/bufferio.c:244-262 | A write below the buffered bytes commutes with writing them out |
| `WriteBuffer.WriteInside` | HTdaemon/bufferio.c:279-311 | Patching the buffer is writing over what it will write |
| `Channel.WriteAtIs` | HTdaemon/bufferio.c:58-77 | What a write at a position does to each byte of a file, holes included |
| `ReadBuffer.ReadsRightIff` | HTdaemon/bufferio.c:86-218 | Every read, at any address and after any reads, is answered with the message's bytes, if and only if wherever a part's block is read for addresses below the part it has the message's bytes there |
| `ReadBuffer.ForwardRight` | HTdaemon/bufferio.c:86-218 | Reading forward is right in any message |
| `ReadBuffer.ReadRight` | HTdaemon/bufferio.c:86-218 | A buffer that is true from an address on answers reads there with the message, and stays true from where was read |
| `ReadBuffer.ReadShape` | HTdaemon/bufferio.c:86-218 | Right or wrong, a read gives a byte at least, unless at the end of the message, and passes over no part |
| `ReadBuffer.FrontAnswers` | HTdaemon/bufferio.c:102-217 | After one small read at the start of a part whose block claims addresses below it, a read of one of those is answered with the part's neighbour in its file, CH_IGNBUF or not |
| `ReadBuffer.UnclaimedSafe` | HTdaemon/bufferio.c:166-204 | So a message is safe whose parts each begin on a block of their file, or further into the block than they begin in the message |
| `ReadBuffer.OnePartSafe` | HTdaemon/bufferio.c:166-204 | And so is a message of one part, wherever it begins |
| `ReadBuffer.UnsafeExample` | HTdaemon/bufferio.c:166-204 | A message that is not safe |
| `ReadBuffer.ReadData` | HTdaemon/bufferio.c:86-218 | Reads what `ReadDataOf` says, buffer included, moves the address on, and sets the end flag exactly at the end |
| `ReadBuffer.Fetch` | HTdaemon/bufferio.c:102-212 | Buffer hit, buffered read or direct read, and the buffer after it |
| `ReadBuffer.FillBuffer` | HTdaemon/bufferio.c:166-204 | The buffer becomes the file block of the address, up to the end of the part |
| `ReadBuffer.BlockData` | HTdaemon/bufferio.c:166-210 | What is taken out of a block just read is the message's, also when its start wraps below zero |
| `ReadBuffer.BlockTrue` | HTdaemon/bufferio.c:166-204 | Such a block is the message from the part's data on, and in a safe message altogether |
| `ReadBuffer.TakeBuffered` | HTdaemon/bufferio.c:207-210 | A hit copies the bytes at the address out of the buffer |
| `ReadBuffer.Locate` | HTdaemon/bufferio.c:106-124 | The part that holds the address, however the search begins |
| `Parts.PartByte` | HTdaemon/commands.c:159-230 | A message address is the byte at the same distance in its part's file |
| `Parts.EndsBefore` | HTdaemon/commands.c:159-230 | Parts do not overlap |
| `Commands.GetCommand` | HTdaemon/commands.c:159-230 | Each command changes the part list as the lemmas say; start and end before any file are refused |
| `Commands.ReadCmds` | HTdaemon/commands.c:467-508 | A commands file is taken command by command until one is refused |
| `Commands.PartsDescribe` | HTdaemon/commands.c:159-230 | The parts of a well-formed commands file tile the message, and its bytes are those of the pieces in order |
| `Commands.RemovesExactly` | HTdaemon/commands.c:214-223 | Whatever the commands, the files marked for removal are exactly those that unlink commands name |
| `Commands.Relayed` | HTdaemon/commands.c:363-391 | The commands passed on with a received message describe its file whole, and remove just that file |
| `Outgoing.SetActive` | HTdaemon/message.c:504-528 | A message whose commands are accepted is set up on the channel at address 0, with the parts they describe, nothing in its buffer; else the channel has no parts |
| `Outgoing.ItemsDescribed` | HTdaemon/commands.c:159-230 | A well-formed commands file is accepted, and the message set up from it is its pieces in order |
| `Outgoing.SentAsDescribed` | HTdaemon/packet.c:387-444 | Such a message is sent as its pieces in order: after every packet the first of their bytes have been sent, and in the end all |
| `Transmitter.SendData` | HTdaemon/packet.c:387-444 | One DATA packet with what is read at the address, and from a sound buffer the next bytes of the message; it fails, and abandons the message, only at its end |
| `Transmitter.Packetised` | HTdaemon/packet.c:387-444 | A message sent from its start: after any number of packets what has been sent is the message so far, and the end is noted when that is all of it and not before |
| `Transmitter.SendAllRun` | HTdaemon/packet.c:387-444 | The packets follow each other without gap or overlap |
| `Transmitter.NaksRightIff` | HTdaemon/transmitter.c:335-404 | Every NAK, after any reads, is answered with the message's bytes, if and only if the message is safe |
| `Transmitter.NakLies` | HTdaemon/transmitter.c:384-404 | How one that is not is answered for: a small packet sent from the start of the part, and from then on a NAK for the byte below is answered with the neighbour in the part's file |
| `Resending.SenderNaksIff` | HTdaemon/transmitter.c:335-404 | However many packets, of whatever size, a sender has sent from the start of a message, every NAK is answered with the message's bytes, if and only if the message is safe |
| `Resending.NeighbourSent` | HTdaemon/transmitter.c:384-404 | A message sent byte by byte: once the first byte of a part is sent, a NAK for an address that its block claims brings the part's neighbour in its file |
| `Resending.HeldTrue` | HTdaemon/packet.c:387-444 | In a safe message the read buffer holds the message, packet after packet |
| `Resending.NakExample` | HTdaemon/transmitter.c:384-404 | The first five bytes of the message 1 2 3 4 5 6 have been sent one by one: a NAK for address 3 is answered with 9 |
| `Transmitter.RecvNAK` | HTdaemon/transmitter.c:284-405 | The NAK handler, through the read buffer, whatever that holds: restart of the whole message, or packets sent again with address, packet size and end flag put back |
| `Transmitter.ResendCovers` | HTdaemon/transmitter.c:389-396 | What is sent again is a run of DATA that covers the range asked for and passes it by less than a packet |
| `Transmitter.ResendData` | HTdaemon/transmitter.c:384-404 | The re-sending half puts address, size and flags back as they were |
| `Transmitter.RecvSOMA` | HTdaemon/transmitter.c:414-485 | The SOMA handler: go on from the receiver's address, or end; going back is sound in a safe message |
| `Transmitter.RecvEOMA` | HTdaemon/transmitter.c:102-157 | An EOMA for this message makes the channel idle, another does nothing |
| `Transmitter.StartMessage` | HTdaemon/transmitter.c:617-637 | A message starts with a window to send ahead only from address 0 |
| `Transmitter.WriteChan` | HTdaemon/transmitter.c:646-743 | The writer's turn in each state; it ends with an error on a channel without a message, and when an EOM is due and all have been sent |
| `Transmitter.RunPayload` | HTdaemon/packet.c:387-444 | A run of DATA packets concatenates to the stretch of the message it covers |
| `Transmitter.SendEOM` | HTdaemon/transmitter.c:494-514 | An EOM with the message's name and size, and the time of the next |
| `Transmitter.SendSOM` | HTdaemon/transmitter.c:584-608 | A SOM with the message's name and size, and the time of the next |
| `Turns.EomsApart` | HTdaemon/transmitter.c:707-736 | Over any turns at which nothing is heard, the next EOM is written at the first turn that is EOM_TIMEOUT after the last, more if the line was down then, or at which the line is up and has been idle for MIN_EOM_TIMEOUT; before it nothing is |
| `Turns.GivesUp` | HTdaemon/transmitter.c:707-720 | A writer that hears nothing gives up if and only if it has written MAX_EOMS EOMs and has waited so for the last |
| `Turns.CountsDown` | HTdaemon/transmitter.c:494-514 | Each EOM costs a channel at its end one of those it has left |
| `Turns.ActiveWrites` | HTdaemon/transmitter.c:694-706 | Until its end an active channel writes the next DATA at every turn, and then its first EOM at once |
| `Turns.SomsApart` | HTdaemon/transmitter.c:657-692 | The next SOM is written at the first turn that is SOM_TIMEOUT and the time of what is written ahead after the last, or at which the line has been idle for MIN_SOM_TIMEOUT and nothing more may be sent ahead |
| `Turns.FirstSom` | HTdaemon/transmitter.c:617-637 | The same of the second, after that with which a message begins |
| `Turns.AheadAtMost` | HTdaemon/transmitter.c:657-692 | Before an answer to the SOM no more is sent ahead than the window, and nothing of a message that does not begin at 0 |
| `Sending.SentWithoutHoles` | HTdaemon/transmitter.c:284-405 | Over any turns and NAKs, what is written is the message's, each packet begins no further than the message has been sent by then, and an EOM comes only when all of it has been |
| `Sending.NothingMore` | HTdaemon/transmitter.c:359-360 | Of a message abandoned, or gone, nothing is written again, whatever is asked for |
| `Sending.EmptyGivenUp` | HTdaemon/packet.c:397-404 | An empty message is announced, and given up at the first turn at which the channel need not wait for the answer; no EOM of it is ever written |
| `Log.Xproto` | Admin/log.c:1090-1158 | The sender writes exactly the blocks, and ends exactly as, the replies heard make it; for every input |
| `Log.SentAtMost` | Admin/log.c:1098-1149 | No block is written more than XRETRYS + 1 times, and blocks go out in order without one being skipped |
| `Log.MyCrc` | Admin/log.c:1298-1325 | The buffer becomes the block's frame with the sequence number flipped; 0 iff both check bytes were right |
| `Log.OneByteShows` | Admin/log.c:1311-1322 | Any one byte changed shows in the check bytes |
| `Log.TwoBytesHide` | Admin/log.c:1311-1322 | Damage to two bytes is hidden if and only if the same bits change in both and their sum is unchanged modulo 256 |
| `Log.SwapHides` | Admin/log.c:1311-1322 | So any two bytes that change places do not show |
| `Log.SendBlock` | Admin/log.c:1101-1149 | The retry loop around one block |
| `Log.Hear` | Admin/log.c:1104-1124 | The reading of one reply past noise and time-outs |
| `LogReceive.Rproto` | Admin/log.c:1169-1289 | The receiver ends exactly as the byte machine does on the same input: file, replies and result |
| `LogReceive.FrameTaken` | Admin/log.c:1204-1287 | The bytes the sender writes for a block are, to a receiver between blocks, that block |
| `LogReceive.SaveBlockIs` | Admin/log.c:1272-1281 | The write loop writes the block, however single writes fall short, or gives up after XRETRYS + 1 of them |
| `LogReceive.TakeBody` | Admin/log.c:1257-1287 | The body of a block: taken, refused or late |
| `LogDamage.BlockHeard` | Admin/log.c:1257-1287 | Between blocks, a header and as many bytes as it says are taken as a block if and only if the last two are the check bytes of the others; else the file and all else is left alone and a NAK with its number goes back |
| `LogDamage.OneByteRefused` | Admin/log.c:1298-1325 | So a block of which one byte behind the header is damaged is refused |
| `LogDamage.HeaderRefused` | Admin/log.c:1219-1255 | A header that cannot be one is refused, once the line is silent, whatever comes until then |
| `LogDamage.OnlyBlocks` | Admin/log.c:1169-1289 | On any input, the file changes, or an ACK is written, only when the last bytes heard are a block's with the right check bytes; and then as for that block |
| `LogDamage.GoesOnIff` | Admin/log.c:1104-1142 | The sender goes on to the next block if and only if the reply heard is in time and is an ACK with the number of this one |
| `LogNoise.BlockAfterNoise` | Admin/log.c:1204-1218 | A block that comes after noise is taken if and only if the noise was no more than GARBAGE bytes; else nothing is until the line is silent, and nothing is answered |
| `LogNoise.SilenceAsked` | Admin/log.c:1187-1198 | At each time-out a receiver outside a body writes ENQ and stays where it is in the header, RRETRYS times since the block began, and then gives up |
| `LogNoise.SavedIff` | Admin/log.c:1271-1281 | A block is saved if and only if one of its first XRETRYS + 1 writes takes it whole |
| `LogNoise.SizeCounted` | Admin/log.c:1266-1282 | On any input, the count of bytes received goes up with the position in the file, unless the receiver gives up |
| `LogNoise.NoiseDeafens` | Admin/log.c:1107-1142 | After more noise than GARBAGE a sender takes nothing for a reply until the line is silent, an ACK neither; and then sends its block again or gives up |
| `LogLink.Transferred` | Admin/log.c:1090-1289 | At each point of every run the receiver has the first blocks of the file, as many as are acknowledged or one more; when rproto ends well, or xproto by the other end's word, it has the file; and xproto never ends with EX_OK |
| `LogLink.StepKeeps` | Admin/log.c:1090-1289 | Each step keeps the alternating-bit invariant |
| `LogLink.AcceptAgain` | Admin/log.c:1266-1281 | A block sent again is written over itself, even if the writes fail |
| `LogLink.AcceptNew` | Admin/log.c:1266-1285 | A new block is appended and acknowledged |
| `LogLink.HearKeeps` | Admin/log.c:1127-1150 | An acknowledgement moves the sender on only if the receiver has the block |
| `LogProgress.EndsIff` | Admin/log.c:1090-1289 | From a state of any run in which both ends are at it and the disk takes what is written, both can end well if and only if the sender has a retry left, or its block or an acknowledgement of it is on its way |
| `LogProgress.RunDoomed` | Admin/log.c:1127-1150 | Otherwise no run does |
| `LogProgress.Completes` | Admin/log.c:1090-1289 | For every file there is a run in which both ends finish and the receiver has the file |
| `LogDamage.DamageIsMissed` | Admin/log.c:1257-1261 | A block with wrong check bytes is, to the two ends on a line, one that the receiver misses |
| `LogDamage.SilenceIsMissed` | Admin/log.c:1187-1198 | A time-out is that too |
| `LogDamage.BlockIsTaken` | Admin/log.c:1257-1287 | And a block undamaged is one that it takes |
| `Cook.RoundTripX` | HTdaemon/cook.c:191-271 | UncookX undoes CookX on all data, for every good table |
| `Cook.RoundTripOnlyX` | HTdaemon/cook.c:191-271 | And for no other table |
| `Cook.RoundTripA` | HTdaemon/cook.c:88-180 | UncookA undoes CookA on all data, line ends included |
| `Cook.TableAGood` | HTdaemon/cook.c:40-74 | The table of the source is good, and escapes the line end |
| `Cook.AnyCut` | HTdaemon/cook.c:138-180 | Uncooking in pieces cut anywhere, an escape carried over, is uncooking the whole |
| `Cook.EighthBit` | HTdaemon/cook.c:138-180 | UncookA does not mind what the circuit does to the eighth bit |
| `Cook.SelectAllGood` | HTdaemon/cook.c:280-322 | SetCookX accepts a list exactly when each character may be selected; the table is good and escapes just those and escape characters |
| `Cook.SetCookX` | HTdaemon/cook.c:280-322 | The table becomes that table |
| `Cook.NothingSelected` | HTdaemon/cook.c:191-218 | CookX puts out no selected character |
| `Cook.OnlyPrinting` | HTdaemon/cook.c:88-127 | CookA puts out printing characters, tabs, newlines and line ends |
| `Cook.SizeA` | HTdaemon/cook.c:88-127 | The buffer of 2n + 2n/78 + 2 is enough |
| `Cook.LinesCooked` | HTdaemon/cook.c:115-125 | CookA's lines end after 79 or 80 bytes, all but the last, and that is not empty |
| `Cook.LinesShort` | HTdaemon/cook.c:115-125 | So it puts out no 81 bytes without a line end, whatever the data |
| `Cook.DecodeBits` | HTdaemon/cook.c:265-265 | What an escape and the byte behind it stand for, bit by bit, whether CookX made them or not |
| `Cook.CookAInto` | HTdaemon/cook.c:88-127 | Writes the cooked bytes within that buffer |
| `Cook.CookXInto` | HTdaemon/cook.c:191-218 | Writes the cooked bytes within a buffer of 2n |
| `Cook.UncookInPlace` | HTdaemon/cook.c:229-271 | Uncooks in place: the output overtakes no input still to be read |
| `Packets.SetAllPuts` | HTdaemon/packet.h:79-91 | After any run of header setters each field reads as last set |
| `Packets.SetPuts` | HTdaemon/packet.h:79-91 | Each setter sets its fields and leaves the others alone |
| `Packets.NakBack` | HTdaemon/packet.h:121-132 | NAK type and length read back as set |
| `Packets.Layout` | HTdaemon/packet.h:60-91 | The bytes of a header: the address lowest byte first, the small fields, and the size highest byte first |
| `Packets.PacketReader` | HTdaemon/packet.c:239-280 | However the stream is cut by reads, the packets passed are those of the whole stream; there is always room for the next read, and nothing is thrown away |
| `Packets.ParseCut` | HTdaemon/packet.c:289-378 | Cutting a stream in two makes no difference to the packets |
| `Packets.FramesBack` | HTdaemon/packet.c:289-378 | Packets written one after another are read back in order |
| `Deframing.PassedIs` | HTdaemon/packet.c:289-378 | On any stream, the packets passed on are frames that lie in it undamaged, data check and all, one behind the other in order, and none that begins in what is skipped between them is |
| `Deframing.TakeIff` | HTdaemon/packet.c:304-360 | At the front of the buffer a packet is taken if and only if its frame, whole and undamaged, is there |
| `Packets.NoisePassed` | HTdaemon/packet.c:295-303 | Noise none of which looks like a header is passed over |
| `Packets.RestSmall` | HTdaemon/packet.c:262-270 | What is left over is less than the largest packet, so the discard is never reached |
| `Packets.PassPackets` | HTdaemon/packet.c:289-378 | Passes on the packets in the buffer and keeps the rest |
| `Scheduler.ChoosesLeast` | HTdaemon/message.c:186-202 | FindMessage takes the least name of the messages it may take and can set up, and finds none only if there is none |
| `Scheduler.ChoosesUsable` | HTdaemon/message.c:186-202 | What it takes is of an allowed quality, in its own list or one of higher priority, and not ordered unless in its own |
| `Scheduler.NeverOnTwo` | HTdaemon/message.c:128-260 | Whichever channels ask, whatever directories are read, however often in one call: no message is on two channels, and none on a channel waits to be chosen |
| `Scheduler.FoundKeeps` | HTdaemon/message.c:128-260 | One call keeps that, however often the lists are made anew |
| `Scheduler.RebuiltKeeps` | HTdaemon/message.c:304-495 | New lists, sorted, with the active messages noted, keep it, however the directory has changed |
| `Scheduler.BuiltIs` | HTdaemon/message.c:320-394 | The lists hold the well-formed names of the directory, each in the list of its quality |
| `Scheduler.FindMessage` | HTdaemon/message.c:128-260 | The search, the set-up of what is found, and the rebuilding |
| `Finding.FoundIff` | HTdaemon/message.c:128-260 | A message is found if and only if a name that suits waits in the lists, or is in the directory some time that it is read and on no other channel: of the right form, of an allowed quality, in the channel's own list or one of higher priority, not ordered unless in its own, and set up without failing; and what is found is the least of the first such |
| `Finding.ChooseIff` | HTdaemon/message.c:186-202 | The same of one look through the lists |
| `Finding.FoundTold` | HTdaemon/message.c:128-260 | The entries go on saying rightly which names are ordered |
| `Scheduler.PolicyIs` | HTdaemon/message.c:78-90 | The state messages have the first list, and the other qualities share the rest, three to each |
| `Scheduler.Search` | HTdaemon/message.c:186-196 | The nested loops find the first entry that may be taken |
| `Scheduler.CheckActive` | HTdaemon/message.c:449-495 | The active messages are marked in the new lists |
| `AllParts.Reassembled` | Header/AllParts.c:56-197 | Whatever parts come, in whatever order and however often, the message is put together exactly when its last part comes; that part is not stored too; the result is the parts' data in order, counted once each |
| `AllParts.TakePart` | Header/AllParts.c:56-197 | Keeps the part, or joins the commands of all parts and empties the directory |
| `AllParts.Collected` | Header/AllParts.c:206-250 | A stored part's commands are cut to its data, and the data counted |
| `AllParts.ClipBytes` | Header/AllParts.c:206-250 | What is left of them describes exactly the first bytes |
| `AllParts.LinkedBytes` | Lib/LinkCmds.c:42-125 | LinkCmds cuts out exactly the range asked for |
| `AllParts.WeightsAre` | Header/AllParts.c:159-174 | PartsLength does not depend on the order of the directory |
| `AllParts.GetMpCommand` | Header/AllParts.c:206-250 | One command of a stored part |
| `AllParts.LastKept` | Header/AllParts.c:130-147 | Of a part that comes again the last is kept |
| `AllParts.ArrivedKeeps` | Header/AllParts.c:56-197 | And that is what TakePart keeps |
| `Purge.EnterAllCounts` | Control/purge.c:357-435 | After any run of entries a name is found if and only if it was entered, with its number of entries modulo 65536 |
| `Purge.EnteredRefs` | Control/purge.c:357-435 | An entry counts one reference, whatever the hash and the trees, and touches no other name |
| `Purge.Purged` | Control/purge.c:926-957 | Purge removes a file with a name of the right size if and only if it was referred to a multiple of 65536 times, and keeps those with longer names |
| `Purge.Enter` | Control/purge.c:357-435 | The walk down the tree and the new leaf or count; a name of the wrong size is refused |
| `Purge.Lookup` | Control/purge.c:733-769 | The walk down the tree |
| `Purge.HashName` | Control/purge.c:705-724 | The hash, in an int of 32 bits, of a name of any length |
| `Purge.InTableIff` | Control/purge.c:705-724 | It is within the table if and only if the sum of the name is not -2^31 modulo 2^32; else it is 8 below it |
| `Purge.BelowTable` | Control/purge.c:1330-1340 | A directory name of 25 characters for which it is below it |
| `Purge.FileHash` | Control/purge.c:705-724 | For a file name it is the remainder of the sum's absolute value |
| `Purge.NoOverflow` | Control/purge.c:705-724 | For a file name the hash does not overflow |
| `Purge.FiledAllCounts` | Control/purge.c:1377-1401 | After any run of work files each directory's table counts its own, and holds no name of the wrong size |
| `Purge.FiledIff` | Control/purge.c:1386-1401 | A work file is refused if and only if its name has no directory, or its file's size is wrong |
| `Purge.DirsAre` | Control/purge.c:1386-1397 | The directories gone through are those that a name lies in |
| `Purge.WorkFile` | Control/purge.c:1377-1401 | A work file is entered in its directory's table, new if need be |
| `Purge.PurgeDir` | Control/purge.c:938-957 | Removes just the files of a listing that have no reference |
| `Routes.Mirrored` | Header/ExRevRoute.c:37-94 | On a well-formed route ExRevRoute calls back with the last node and the destination, and then with what ExRoute calls back with, reversed |
| `Routes.ForwardTuples` | Header/ExRoute.c:35-88 | On a well-formed route ExRoute calls back with the hops in order |
| `Routes.ExRoute` | Header/ExRoute.c:35-88 | Walks the route in place, and leaves it as it was found, also when stopped early or malformed |
| `Routes.ExRevRoute` | Header/ExRevRoute.c:37-94 | The same of the walk backwards |
| `Routes.DoneIff` | Header/ExRevRoute.c:37-94 | With a callback that says yes ExRoute goes to the end if and only if every node has a time, ExRevRoute if and only if the last has: they disagree on just the routes of which the last node has a time and some other has not |
| `Routes.RunTogetherIff` | Header/ExRevRoute.c:62-65 | Where ExRevRoute goes to the end, it has run a node together with the next hop if and only if ExRoute does not |
| `Routes.Parsed` | Header/ExRoute.c:35-88 | The routes of which every node has a time are the well-formed ones, of which `Routes.Mirrored` speaks |
| `Routes.RenderTimed` | Header/ExRoute.c:35-88 | And the other way round |
| `Routes.MalformedOverlooked` | Header/ExRevRoute.c:62-65 | One of those on which the two disagree |
| `Routes.TravelBack` | Header/ExRoute.c:59-59 | A travel time in decimal is read back, whatever follows its digits |

## Left out

- The four channels of a link are four copies of the one modelled: a packet's channel number picks the copy, and each copy's packets are a subsequence of the circuit's.
- Sizes and types of control packets' data fields, echo detection, SYNC, MQE, IDLE, CTRL and EOT packets, `TurnAround`, low space, statistics and reports add cases, not properties.
- Abandoning a message (`BadMesg`) ends the service that the delivery theorem is about; a message without bytes is abandoned by the first packet sent ahead.
- Fatal errors end the program: DATA with no open file, a bad name passed to `workfile`, a message identifier of no known quality. The model leaves the state alone there.
- Receiver.UnlinkFile: forgets what was still in the write buffer, which the program leaves for the next message to overwrite.
- Addresses are below 2^32 - 1024, so that the end of the read buffer does not wrap; sums that do wrap in the program wrap in `ReadBuffer`, `Commands` and `NakAll`.
- The list nodes of gaps, parts and queue entries are elements of sequences; free lists and allocation are left out.
- The time that a message waited, and the times of files, are left out of `RecvSOM` and `SetupParts`.
- Transmitter.SendData: an input error on a part's file is not modelled, because a part's bytes are taken to be in its file.
- Transmitter.WriteChan: statistics, the pause between windows and the saving of the writer's status are not modelled.
- Receiver.AbortInMesg: acts on one channel, where the program's loop visits the four.
- Commands.ReadCmds: the tests of the link's name and of the message's time-out in `SetupParts` are not modelled; whether a message can be set up is an input of `Scheduler`.
- AllParts.LinkedBytes: the unlink commands that LinkCmds adds for the links it could make are left out; they remove the links, not data.
- AllParts.GetMpCommand: numbers are unbounded and no piece ends before it begins, where the program's sums wrap.
- Progress.Delivers: for a sender that gives up it leaves out a message gone back in below wrong bytes, of which more bytes are missing than EOMs are left, some of them below where the ends are: its session may not end (`Resumption.StopsWellIff`), and the EOMs may not be enough.
- Packets.Frame is written as a value; the alignment of the write buffer and the sizing of packets to the line's speed (`AdjPktSize`) are not modelled.
- The check functions `crc` and `crc32` are not part of this model; any functions do.
- Cook.SetCookX: takes the numbers of its list; the parsing of octal, decimal and hexadecimal numerals is not modelled.
- Cook.UncookInPlace: one method for the two, which differ in the eighth bit and in where the pending escape is kept.
- Scheduler.FindMessage: `qsort` and `bsearch` are a sorting function and a search, the times that decide when the directory is read again are an input, and whether a name is ordered is an uninterpreted function of it.
- AllParts.TakePart: one agreed number of parts for each message; lock files, part names and directory reads are left out, and a link to a file is the file.
- Purge.WorkFile: the tree of work directories is a map; its walk is the one proved for file names. Reading the directories and command files, ages, and every removal other than of unreferenced work files are left out.
- Routes.ExRevRoute: travel times are digits; the flag that marks ExRevRoute's last call, and a route that is not there at all, are left out.
- Log.Xproto: reading the local file does not fail; terminal set-up, the handshake before the transfer and the count of errors are left out.
- LogLink.StepKeeps: a step takes a block as undamaged, damaged or lost; `LogDamage` ties the first two to the byte machine, and blocks of which the first byte is lost are what `LogNoise` says of noise.
- Address parsing, routing tables, state files, conversions from other networks, and the mail, file, news and print handlers are process and file plumbing over libraries that are not modelled.
