# Structured Stream Transport: a verified model

Structured Stream Transport (SST) is a reliable, multiplexed transport over UDP.  This project models
its protocol core and some of its self-contained algorithms in Dafny, and proves what they are for.
`dafny verify dfyconfig.toml` checks everything.

The main result is about two endpoints, each running the flow layer (`lib/flow.cc`) under the stream
layer (`lib/strm/base.cc`, `lib/strm/sflow.cc`), over a network that loses, repeats, delays and
reorders packets.  In every run, whatever the applications write, read and transmit in whatever upcall:
every segment the sender has forgotten is held by the receiver, the bytes read are a prefix of the bytes
written, everything either side believes acknowledged was acknowledged by the other, and a read with
room for the next message returns exactly one message of the sender.

## How the model is built

| file | holds |
|---|---|
| `Words.dfy` | 32-bit signed arithmetic, 32-bit masks, 24-bit wire numbers, the acknowledgment word |
| `FlowSpec.dfy` | the flow as a value and one function per step; the layer above is a parameter |
| `FlowInvariant.dfy`, `FlowEvents.dfy` | what every flow run keeps, for every layer above |
| `FlowReports.dfy`, `AckReports.dfy`, `FlowLaws.dfy` | what the steps of a flow achieve: reports upward, acknowledgments to the peer, admission, congestion control |
| `FlowObject.dfy` | the flow as an object with fields and loops, proved against `FlowSpec` |
| `StreamSend.dfy`, `StreamReceive.dfy` | the two halves of a byte stream, one function per step |
| `Reassembly.dfy`, `Reading.dfy`, `Messages.dfy` | reassembly, reading, message boundaries |
| `StreamObject.dfy` | the stream as an object with fields and loops, proved against the above |
| `Connection.dfy` | two endpoints and the network: events, steps, runs |
| `ConnectionInvariant.dfy`, `ConnectionEvents.dfy`, `ConnectionTheorem.dfy`, `EndToEnd.dfy` | the proof over runs |
| `Limits.dfy` | where the code departs from its promises: a witness and the exact condition for each |
| `Scheduler.dfy` | the priority queue of streams |
| `Routes.dfy`, `Squeeze.dfy`, `ShortestPath.dfy` | node identifiers, paths, buckets, affinity routing, Dijkstra |
| `Checksum.dfy` | Chk32 |
| `Registry.dfy` | the registration server's tables |
| `Xdr.dfy` | XDR |

A mask word is given by the set of its one bits, with the shift and or of 32-bit words.  Packet armor is
an uninterpreted check that succeeds only for the number the peer sealed a packet under.  The layer above
a flow is a pair of function values: an upcall returns the calls it makes back into the flow, so the loops
of `receive` and `rtxTimeout` are proved for every amount of transmission inside them.  Histories (packets
sent, notifications given, bytes written and read, segments cut and arrived) are part of the state values;
no step reads them.  In `Connection.dfy` an event carries the acts of its upcalls, so a run quantifies over
all application and scheduling behaviour, and any packet ever sent may be delivered any number of times,
under any cleartext number word.

Where code and comments disagree the model follows the code: acknowledgments of packets presumed lost do
not reach the stream (comment at lib/strm/base.cc:785), the checksum's stated limit of 23726746 words is
one too many for reduced counters (lib/chk32.cc:44), and 8- and 16-bit unsigned integers are
sign-extended on the wire where section 3.2 of RFC 1832 has no such types.

## Model

| member | source | states |
|---|---|---|
| `Words.SeqDiffMeaning` | lib/flow.cc:363-365 | the 32-bit shifts and subtraction compute the signed distance modulo 2^24, in [-2^23, 2^23) |
| `Words.RecoverExact` | lib/flow.cc:359-366 | a 64-bit packet number comes back from its 24 wire bits if and only if it lies in [rxseq-2^23, rxseq+2^23) on the 64-bit circle; the channel byte plays no part |
| `Words.PackAckFields` | lib/flow.cc:243-254 | the acknowledgment word gives back its count and its number |
| `FlowInvariant.TxPacketCore` | lib/flow.cc:185-231 | `tx` keeps txevtseq+\|txevts\| = txseq, the in-flight counts, and every packet's fate |
| `FlowInvariant.SettleCore` | lib/flow.cc:452-460 | one record leaving the pipe, for any cause and any transmission in the upcall, keeps the flow well formed and reports the packet once |
| `FlowInvariant.SettleRangeCore` | lib/flow.cc:449-486 | the loops over records clear the pipe in their range although upcalls append to the queue |
| `FlowInvariant.ExpireStepCore` | lib/flow.cc:492-500 | the garbage-collection assertion cannot fail: the record dropped is out of the pipe |
| `FlowInvariant.ResettleCore` | lib/flow.cc:426-486 | after an advance nothing at or below txackseq-missthresh is in the pipe: the two loops leave no gap |
| `FlowInvariant.AdvanceCore` | lib/flow.cc:423-515 | an advance keeps the whole invariant and counts exactly the newly acknowledged numbers |
| `FlowInvariant.StraggleCore` | lib/flow.cc:521-543 | unless it looks for a record before number 0, the straggler loop stays in the record queue, counts only numbers of the acknowledged run, each at most once, and returns how many |
| `FlowEvents.InitSound` | lib/flow.cc:56-106 | the constructor and ccReset establish the invariant |
| `FlowEvents.TakeAcksCore` | lib/flow.cc:410-543 | all acknowledgment processing of a header keeps the invariant, and newpackets is the number of packets newly counted, for every header that is safe to process (`Limits.HeaderExact` says which are not) |
| `FlowEvents.HonestSafe` | lib/flow.cc:518-543 | a header that counts no more packets than its number is safe to process |
| `FlowEvents.RecordOk` | lib/flow.cc:369-403 | a packet that passes the replay test was never accepted before; bit i of rxmask is set exactly when rxseq-i was accepted |
| `FlowEvents.AcknowledgeGood` | lib/flow.cc:767-854 | acknowledging a packet keeps the transmit invariant |
| `FlowEvents.GrowWindowGood` | lib/flow.cc:553-754 | CWND_MIN <= cwnd <= CWND_MAX after window growth |
| `FlowEvents.ReceiveSound` | lib/flow.cc:347-765 | `receive` keeps the invariant for every packet whose header does not make it look for a record before number 0, and every layer above; it counts only numbers the header names, and ignores what fails authentication |
| `FlowEvents.RtxTimeoutSound` | lib/flow.cc:291-345 | `rtxTimeout` keeps the invariant and counts no acknowledgment |
| `FlowEvents.RunSound` | lib/flow.cc:185-765 | in every run of a flow: record queue, in-flight counts, masks, replay log, window bounds, one cut per flight, and exactly one of acked/missed for each data packet before its single expire |
| `FlowReports.AdvanceReports` | lib/flow.cc:447-486 | an advancing acknowledgment reports as acked every packet in flight it newly covers, and as missed every packet in flight it leaves missthresh behind |
| `FlowReports.TimeoutReports` | lib/flow.cc:312-329 | a timeout reports every packet in flight as missed |
| `FlowReports.StragglersExact` | lib/flow.cc:518-543 | out-of-order acknowledgments are counted completely if and only if the guard lets the loop run or nothing was missing |
| `FlowReports.LateSingleAckSkipped` | lib/flow.cc:522-523 | a late acknowledgment of one packet is never counted, because the guard mask is empty |
| `FlowReports.LateAckWitness` | lib/flow.cc:522-523 | packets 1 and 2 sent, 2 acknowledged: the late acknowledgment of 1 changes nothing |
| `FlowReports.GrowthLaw` | lib/flow.cc:553-754 | the window grows only when it was the limit, never past ssthresh in slow start, by at most one per round trip beyond it |
| `FlowLaws.AdmissionExact` | lib/flow.cc:359-403 | a packet the peer sealed under some number is accepted if and only if it was before, or its wire bits read back to that number and it is at most 31 behind the newest |
| `FlowLaws.TimeoutWindow` | lib/flow.cc:299-345 | after a timeout, through all its upcalls, cwnd is 2, ssthresh is the larger of 2 and half of what was in flight, nothing counts as a cut, and the layer above is offered to transmit |
| `FlowLaws.CutLaw` | lib/flow.cc:856-884 | a loss beyond the recovery point leaves cwnd and ssthresh at the larger of 2 and half of cwnd and moves the recovery point; any other loss leaves the window alone |
| `FlowLaws.LossCuts` | lib/flow.cc:466-486 | an inferred loss of a packet transmitted after the last cut always cuts |
| `FlowLaws.GrowthExact` | lib/flow.cc:553-754 | the window after an acknowledgment, exactly: slow start by one per packet counted up to ssthresh, one per round trip beyond, nothing when the window was not the limit |
| `FlowLaws.RoomOffered` | lib/flow.cc:762-764 | when something was counted and the window has room the layer above is told; when it has none it is marked as the limit |
| `FlowLaws.ProbeMarks` | lib/flow.cc:275-286 | asking for room marks the window as the limit exactly when it is full |
| `FlowLaws.HeaderCounts` | lib/flow.cc:410-461 | the header of a processed packet counts every packet it newly names and reports those in flight |
| `FlowLaws.DeliverAcks` | lib/flow.cc:756-760 | a packet is acknowledged, quietly acknowledged or not, as the layer above says |
| `FlowLaws.ProcessAcks` | lib/flow.cc:420-760 | a packet with an acknowledgment not of the future, which the layer above does not ignore, is acknowledged |
| `FlowLaws.ServeSends` | lib/strm/sflow.cc:117-132 | what an upcall asks to transmit is sent, all of it, in order, and nothing else |
| `AckReports.DataCarriesRun` | lib/flow.cc:249-273 | a data packet names exactly the run [rxackseq-rxackct, rxackseq], settles what waits, and gets its record |
| `AckReports.FlushReports` | lib/flow.h:323-325 | with something waiting exactly one bare packet goes out, with the count and number of the current run; otherwise nothing |
| `AckReports.InOrderDelays` | lib/flow.cc:788-819 | in order, nothing is sent until the fourth packet, which sends one |
| `AckReports.AcknowledgeOwing` | lib/flow.cc:767-854 | a packet to be reported is named by some header at once, or is among the fewer than four that the next header names |
| `AckReports.TimerReports` | lib/flow.cc:913-916 | when the acknowledgment timer fires everything promised has been reported |
| `AckReports.ReceiveOwing` | lib/flow.cc:347-765 | `receive` keeps every promise, for packet numbers below 2^16 |
| `AckReports.RunReports` | lib/flow.cc:767-854 | in every run of a flow whatever was to be reported has been named in a header or is among the fewer than four the next header names |
| `FlowObject.FlowMachine.constructor` | lib/flow.cc:56-141 | the object starts in the initial state, which is sound |
| `FlowObject.FlowMachine.RecordEvent` | lib/flow.cc:216-226 | a transmission appends its record and adds data to what is in flight |
| `FlowObject.FlowMachine.Transmit` | lib/flow.cc:185-231 | `tx` in place is the transmission step |
| `FlowObject.FlowMachine.TransmitBareAck` | lib/flow.cc:235-246 | `transmitAck` in place is its step |
| `FlowObject.FlowMachine.TransmitData` | lib/flow.cc:249-273 | `flowTransmit` in place is its step: the latest acknowledgment rides along |
| `FlowObject.FlowMachine.Flush` | lib/flow.h:323-325 | `flushack` in place is its step |
| `FlowObject.FlowMachine.Room` | lib/flow.cc:275-286 | `mayTransmit` returns the room in the window, and marks the window as the limit when there is none |
| `FlowObject.FlowMachine.Upcall` | lib/strm/sflow.cc:134-184 | a virtual call and everything transmitted before it returns is the notification step |
| `FlowObject.FlowMachine.WindowCut` | lib/flow.cc:856-884 | `ccMissed` in CC_TCP mode in place is its step |
| `FlowObject.FlowMachine.SettleOne` | lib/flow.cc:452-460 | one record in place: pipe flag, counts, congestion control and upcall |
| `FlowObject.FlowMachine.SettleAll` | lib/flow.cc:449-486 | the loops over txevts index inside the queue and do what the specification says, upcalls included |
| `FlowObject.FlowMachine.ExpireUpTo` | lib/flow.cc:491-501 | garbage collection with its assertion |
| `FlowObject.FlowMachine.AdvanceTo` | lib/flow.cc:423-515 | the whole roll-forward branch in place |
| `FlowObject.FlowMachine.MarkAcked` | lib/flow.cc:529-541 | one straggler in place: mask bit, record, upcall |
| `FlowObject.FlowMachine.TakeStragglers` | lib/flow.cc:518-543 | the straggler loop in place, every index in range |
| `FlowObject.FlowMachine.TakeHeader` | lib/flow.cc:410-543 | the acknowledgment part of `receive` in place, with the number of packets newly counted |
| `FlowObject.FlowMachine.Grow` | lib/flow.cc:553-754 | window growth in place is its step |
| `FlowObject.FlowMachine.AckPacket` | lib/flow.cc:767-854 | `acknowledge` in place is its step, including the 16-bit truncation |
| `FlowObject.FlowMachine.AckInOrder` | lib/flow.cc:775-819 | the next packet in order lengthens the run, and every fourth is reported at once |
| `FlowObject.FlowMachine.AckBeyondGap` | lib/flow.cc:821-840 | a packet beyond a gap flushes the old run and starts a new one |
| `FlowObject.FlowMachine.AckOutOfOrder` | lib/flow.cc:842-853 | an old packet flushes the run and is reported on its own |
| `FlowObject.FlowMachine.HandUp` | lib/flow.cc:756-760 | delivery to the layer above and the acknowledgment it asks for |
| `FlowObject.FlowMachine.ProcessPacket` | lib/flow.cc:406-765 | `receive` after authentication in place, including the early return on an acknowledgment of the future |
| `FlowObject.FlowMachine.ReceivePacket` | lib/flow.cc:347-765 | `receive` in place is its step and leaves the flow sound |
| `FlowObject.FlowMachine.Timeout` | lib/flow.cc:291-345 | `rtxTimeout` in place is its step; when nothing was transmitted meanwhile nothing is in flight |
| `FlowObject.FlowMachine.AckTimerFires` | lib/flow.cc:913-916 | `ackTimeout` in place is its step |
| `StreamSend.EnqueueKeeps` | lib/strm/base.cc:408-424 | `txenqueue` keeps the queue in order and adds exactly the segment |
| `StreamSend.WriteKeeps` | lib/strm/base.cc:1557-1602 | one turn of `writeData` keeps one live copy per position, the tiling of the bytes written, and the byte totals |
| `StreamSend.NothingToCollect` | lib/strm/base.cc:468-482 | the queue never holds a segment that was acknowledged |
| `StreamSend.TransmitKeeps` | lib/strm/base.cc:500-518 | transmitting moves the one live copy from the queue to the flow's table |
| `StreamSend.TransmitSends` | lib/strm/base.cc:468-518 | what is sent is the segment with the lowest position of all that are queued |
| `StreamSend.CollectedLaw` | lib/strm/base.cc:468-482 | the collection loop drops only segments nobody waits for and stops at one that is waited for |
| `StreamSend.AckedKeeps` | lib/strm/base.cc:711-731 | an acknowledgment removes the live copy together with the position waited for |
| `StreamSend.MissedKeeps` | lib/strm/base.cc:769-789 | a loss moves the live copy back to the queue and leaves a late record |
| `StreamSend.ExpireKeeps` | lib/strm/sflow.cc:169-184 | expiry removes only records that are not live |
| `StreamSend.GiveBackKeeps` | lib/strm/base.cc:53-68 | detaching gives each live copy back to the queue |
| `StreamSend.GiveBackReturns` | lib/strm/base.cc:53-68 | detaching a packet leaves no record of it and queues its segment again if it was live |
| `Reassembly.RxDataKeeps` | lib/strm/base.cc:1062-1239 | any segment of S, in any order and any number of times: bytes read and queued are S[..rsn], the reorder list is sorted, lies beyond rsn and covers everything received past it |
| `Reassembly.FirstGap` | lib/strm/base.cc:1094-1233 | rsn is exactly the first position no received segment covers |
| `Reassembly.PullKeeps` | lib/strm/base.cc:1124-1165 | the pull loop leaves no contiguous segment behind |
| `Reading.ReadDataKeeps` | lib/strm/base.cc:1460-1515 | every read hands out the next bytes of S and keeps ravail = sum of messages + rmsgavail = sum of segments, rbufused = ravail + reorder list, boundaries on segment ends |
| `Reading.ReadOneEnds` | lib/strm/base.cc:1484-1507 | a turn of the loop ends the stream exactly when it takes a closing segment and does not stop at a message boundary |
| `Reading.MessageExact` | lib/strm/base.cc:1517-1536 | a read with room for the next message never splits a segment, returns exactly that message and removes exactly that boundary |
| `Reading.MessagePart` | lib/strm/base.cc:1526-1531 | a read into a shorter buffer returns as much as fits and leaves the rest of the message pending |
| `Reading.PlainExact` | lib/strm/base.cc:1460-1503 | with no message boundary ahead a read returns all bytes there are, as far as they fit |
| `Reading.ReadExact` | lib/strm/base.cc:1460-1515 | every read returns exactly the bytes up to the next boundary, or all there are, as far as they fit |
| `Messages.RxDataFaithful` | lib/strm/base.cc:1110-1166 | reassembly keeps the reader's boundaries those the sender marked |
| `Messages.BoundariesExact` | lib/strm/base.cc:1118-1122 | among the bytes ready to read, a message ends at p if and only if an arrived segment marked p |
| `Messages.MarksOfCut` | lib/strm/base.cc:1118-1122 | strictly below rsn those are all the marks the sender ever made |
| `Messages.NextMessage` | lib/strm/base.cc:1517-1536 | `readMessage` with room hands out the bytes up to the next mark of the sender, with no mark in between |
| `Messages.LateFlags` | lib/strm/base.cc:1099-1122 | flags that arrive when their bytes are already there still count: the segment is queued and a message mark ends the message in progress |
| `Messages.NewSegmentKept` | lib/strm/base.cc:1217-1232 | a segment beyond rsn is kept unless an entry at its place has its bytes and flags |
| `Messages.DuplicateDropped` | lib/strm/base.cc:1217-1229 | a segment that already waits is not kept twice |
| `StreamObject.WriteAllKeeps` | lib/strm/base.cc:1553-1607 | a write appends exactly its bytes, in full-sized unflagged segments followed by one with the caller's flags |
| `StreamObject.AllQueued` | lib/strm/base.cc:53-68 | with no packet left in flight the queue is the segments waited for, in order |
| `StreamObject.WindowRoundTrip` | lib/strm/base.cc:1433-1451 | the peer decodes the window byte to twin with twin <= rwin <= 2*twin |
| `StreamObject.ControlBits` | lib/strm/base.cc:1445-1451 | only the low five bits of the window byte count |
| `StreamObject.BaseStream.constructor` | lib/strm/base.cc:97-134 | the object starts as the initial sender and receiver and advertises its whole buffer |
| `StreamObject.BaseStream.TxEnqueue` | lib/strm/base.cc:408-424 | the insertion loop is the specified insertion |
| `StreamObject.BaseStream.WriteData` | lib/strm/base.cc:1553-1607 | the segmentation loop is the specified write |
| `StreamObject.BaseStream.WritePiece` | lib/strm/base.cc:1557-1602 | one segment written in place is its step |
| `StreamObject.BaseStream.TransmitNext` | lib/strm/base.cc:459-518 | the collection loop and the dispatch of one segment |
| `StreamObject.BaseStream.OnAcked` | lib/strm/sflow.cc:134-146 | acknowledgment in place is its step |
| `StreamObject.BaseStream.OnMissed` | lib/strm/sflow.cc:148-167 | loss in place is its step |
| `StreamObject.BaseStream.OnExpire` | lib/strm/sflow.cc:169-184 | expiry in place is its step |
| `StreamObject.BaseStream.Clear` | lib/strm/base.cc:33-68 | whatever order the table is walked in, the queue ends up holding exactly the segments waited for, in order |
| `StreamObject.BaseStream.DetachAll` | lib/strm/sflow.cc:70-95 | detaching every stream from a copy of the table leaves the same queue |
| `StreamObject.BaseStream.CalcReceiveWindow` | lib/strm/base.cc:1419-1443 | the exponent loop ends in range with the largest 2^w - 1 within the room |
| `StreamObject.BaseStream.CalcTransmitWindow` | lib/strm/base.cc:1445-1458 | the decoded window fits every room its byte encodes |
| `StreamObject.BaseStream.Take` | lib/strm/base.cc:1111-1122 | consuming a segment in place: position, counters, message boundary |
| `StreamObject.BaseStream.ShutdownRead` | lib/strm/base.cc:1764-1773 | closing for reading in place is its step |
| `StreamObject.BaseStream.FindPlace` | lib/strm/base.cc:1208-1215 | the binary search finds the first entry not before the position |
| `StreamObject.BaseStream.KeepAhead` | lib/strm/base.cc:1191-1232 | stashing in place, with the common case and the duplicate test |
| `StreamObject.BaseStream.PullAhead` | lib/strm/base.cc:1124-1165 | the pull loop in place |
| `StreamObject.BaseStream.AcceptData` | lib/strm/base.cc:1094-1232 | `rxData` on an open stream in place is its step |
| `StreamObject.BaseStream.ReceiveData` | lib/strm/base.cc:1062-1239 | `rxData` in place keeps the receiver safe and the advertised window true; after the end its assertions hold |
| `StreamObject.BaseStream.Read` | lib/strm/base.cc:1460-1515 | `readData` in place: its assertions hold, it returns the next bytes, and exactly as many as there are up to the next boundary |
| `StreamObject.BaseStream.ReadSegment` | lib/strm/base.cc:1463-1508 | one turn of the read loop: its assertions on ravail, headsize and rmsgavail hold |
| `StreamObject.BaseStream.ReadMessage` | lib/strm/base.cc:1517-1536 | exactly one message leaves the queue; what does not fit is dropped |
| `ConnectionInvariant.PerformIs` | lib/strm/base.cc:459-623 | planning the acts of an upcall at once and performing them one by one give the same endpoint |
| `ConnectionEvents.TakeAcksKeeps` | lib/flow.cc:410-543 | an acknowledgment whose run the peer really acknowledged releases only segments that arrived |
| `ConnectionTheorem.WordReads` | lib/flow.cc:410-424 | a genuine acknowledgment word, read against txackseq, names only packets already sent and really acknowledged |
| `ConnectionTheorem.AcknowledgeMid` | lib/flow.cc:767-854 | the receiver has always acknowledged all of [rxackseq-rxackct, rxackseq], for packet numbers below 2^16 |
| `ConnectionTheorem.DeliverKeeps` | lib/flow.cc:756-760 | a packet is acknowledged only after its segment reached the stream |
| `ConnectionTheorem.NodeStepKeeps` | lib/flow.cc:347-765 | every event at an endpoint keeps its invariant relative to what the peer has done |
| `EndToEnd.RunKeeps` | lib/strm/base.cc:707-729 | both endpoints satisfy the invariant after every list of events |
| `EndToEnd.ReliableDelivery` | lib/strm/base.cc:1029-1239 | in every run, both ways: segments forgotten are held, bytes read are a prefix of bytes written, beliefs about acknowledgments are true, one live copy per position, both flows sound |
| `EndToEnd.Drained` | lib/strm/base.cc:711-731 | in every run, when the sender waits for nothing the receiver has every byte written |
| `EndToEnd.MessagesFollow` | lib/strm/base.cc:1517-1551 | in every run, a read with room for the next message returns exactly one message of the sender |
| `EndToEnd.AckDelayBound` | lib/flow.cc:767-854 | in every run each packet an endpoint undertook to acknowledge has been named in a header it sent, or is one of at most three in a row that its next header names |
| `EndToEnd.PacketArrives` | lib/strm/base.cc:1029-1060 | a segment packet that is new, at most 31 behind and not older than the attachment is accepted, reaches the stream and is to be acknowledged |
| `EndToEnd.BareArrives` | lib/strm/base.cc:1294-1301 | a bare acknowledgment that is new and at most 31 behind is acknowledged |
| `EndToEnd.StaleIgnored` | lib/strm/base.cc:1049-1052 | a segment older than the attachment is dropped without a word |
| `Limits.AcknowledgeExact` | lib/flow.cc:767-854 | what the receiver reports stays true if and only if the number fits 16 bits, or its low 16 bits were acknowledged anyway, or nothing is sent |
| `Limits.AcknowledgeWraps` | lib/flow.h:277 | packet 65537 is reported as packet 1 |
| `Limits.StraysWhen` | lib/flow.cc:524-541 | whether the loop comes to a bit before record 0 depends on the mask and txackseq it starts with, not on its upcalls |
| `Limits.StragglerIndexExact` | lib/flow.cc:521-531 | the code looks for a record before number 0 if and only if its guard lets it into the loop, the header counts more packets than its number, and txackseq is below 31 |
| `Limits.HeaderExact` | lib/flow.cc:410-531 | the same for a whole header, from the state before it is processed |
| `Limits.StragglerWitness` | lib/flow.cc:521-531 | packets 1 and 2 sent, 2 acknowledged: a header for 2 that counts three more looks for record -1 |
| `Limits.GuardWitness` | lib/flow.cc:522-523 | on a fresh flow a header for 0 that counts one more is kept out by the guard |
| `Limits.WriteExact` | lib/strm/base.cc:1569-1592 | a write keeps one live copy per position if and only if its position is not already waited for |
| `Limits.EmptyWriteLoses` | lib/strm/base.cc:472-481 | after an empty message, acknowledging it discards the next byte unsent |
| `Limits.ReadNeverEnds` | lib/strm/base.cc:1484-1507 | no read ever moves a stream to its end: the break at a message boundary always comes before the close flag is tested |
| `Limits.EndNotSeen` | lib/strm/base.cc:1494-1507 | one byte with the close flag, received and read, leaves the stream open |
| `Limits.EndExact` | lib/strm/base.cc:1094-1179 | `rxData` ends a stream if and only if a closing segment arrives that ends at rsn while nothing is left to read |
| `Limits.EndSeenOnRepeat` | lib/strm/base.cc:1167-1179 | the stream left open by the read ends when the closing segment is repeated |
| `Scheduler.EnqueueOrdered` | lib/strm/sflow.cc:57-68 | insertion keeps the queue by priority, first in first out within a level |
| `Scheduler.RunOrdered` | lib/strm/base.cc:394-450 | in every reachable state the queue is ordered and holds a stream exactly when its tqflow is set |
| `Scheduler.ServedInTime` | lib/strm/sflow.cc:117-132 | a stream with k ahead of it is served within k+1 services unless a stream of strictly higher priority joins |
| `Scheduler.ServeQueues` | lib/strm/sflow.cc:123-131 | the head leaves the queue exactly when it asks for no more, and nobody else does |
| `Scheduler.JoinQueues` | lib/strm/base.cc:426-450 | a stream that joins is queued and the others are left alone |
| `Scheduler.PriorityQueues` | lib/strm/base.cc:394-406 | a change of priority takes effect and leaves the set of queued streams as it was |
| `Scheduler.DropQueues` | lib/strm/sflow.h:84-85 | dequeuing removes that stream and no other |
| `Scheduler.StaysQueued` | lib/strm/base.cc:616-622 | over any run a stream that asks for more at each of its services stays queued until it is detached |
| `Scheduler.StreamFlow.EnqueueStream` | lib/strm/sflow.cc:57-68 | the insertion loop in place |
| `Scheduler.StreamFlow.TxEnqFlow` | lib/strm/base.cc:426-450 | a queued stream is not queued again |
| `Scheduler.StreamFlow.DequeueStream` | lib/strm/sflow.h:84-85 | `dequeueStream` removes every occurrence |
| `Scheduler.StreamFlow.ChangePriority` | lib/strm/base.cc:394-406 | `setPriority` moves a queued stream to its new level |
| `Scheduler.StreamFlow.ServeNext` | lib/strm/sflow.cc:123-131 | one turn of the service loop |
| `Routes.AffinityShared` | test/route/route.cc:34-50 | affinity is the number of leading bits two identifiers share |
| `Routes.AffinityGrows` | test/route/route.cc:223-224 | two identifiers that leave a third at the same bit share more with each other |
| `Routes.ComputeAffinity` | test/route/route.cc:34-50 | the two loops compute the affinity |
| `Routes.LoopFree` | test/route/route.cc:99-106 | `looping` is false exactly when no node occurs twice |
| `Routes.ExtendSimple` | test/route/route.cc:66-97 | joining loop-free paths gives a loop-free path between the outer ends |
| `Routes.ExtendWeight` | test/route/route.cc:90-92 | cutting loops out never makes the hops heavier than the recorded sum |
| `Routes.ExtendHops` | test/route/route.cc:76-92 | the joined path keeps the head to the last common node and the tail from it, adds the weights and takes the older stamp |
| `Routes.ReversedPath` | test/route/main.cc:472-491 | reversal swaps the ends and keeps loop-freedom and weight |
| `Routes.ReversePath` | test/route/main.cc:472-491 | the loop builds the reversed path |
| `Routes.BucketIsTop` | test/route/route.cc:122-170 | a bucket is always the bucketSize lightest targets among everything offered, one path each with the best weight offered, in order |
| `Routes.OfferAnswer` | test/route/route.cc:122-170 | insert returns true exactly when the bucket changes, and then the bucket holds the new path |
| `Routes.TieLoses` | test/route/route.cc:158-163 | a newcomer not lighter than the last of a full bucket is turned away |
| `Routes.HorizonFalls` | test/route/route.cc:172-177 | a full bucket stays full and its horizon never increases |
| `Routes.Bucket.Insert` | test/route/route.cc:122-170 | `insert` in place is the specified offer |
| `Squeeze.NearestNeighborPath` | test/route/route.cc:205-236 | the null path exactly when the bucket is missing or empty; otherwise the neighbour chosen has strictly higher affinity with the goal than we do, the highest in the bucket, and the lightest path among those |
| `Squeeze.PickNearest` | test/route/route.cc:216-234 | the loop picks the first of the nearest paths, and its assertion holds |
| `Squeeze.NearestOk` | test/route/route.cc:205-236 | no path in the bucket has higher affinity with the goal, and none of the same affinity is lighter |
| `Squeeze.SqueezePath` | test/route/main.cc:570-698 | it terminates and returns what `Squeezed` says: a loop-free path from origin to target that weighs no more than recorded, or none, if and only if a neighbour of an end is missing or nothing is found from the head's neighbour on |
| `Squeeze.PreRecurse` | test/route/main.cc:578-610 | the exploration through both neighbours returns what `Squeezed` says |
| `Squeeze.SqueezedOk` | test/route/main.cc:570-698 | what is returned is null exactly when the search gives up, and otherwise a loop-free path between the ends that weighs no more than recorded |
| `Squeeze.LighterCandidate` | test/route/main.cc:597-610 | when the head's side finds a path, the result is no heavier than either candidate |
| `Squeeze.MeetInTheMiddle` | test/route/main.cc:646-674 | the loop ends because the affinity of the two ends strictly grows, moves the end with the lighter hop, and returns null exactly when an end runs out of neighbours first |
| `Squeeze.PathMissed` | test/route/main.cc:578-610 | a network of four nodes where the search with prerecurse 1 finds nothing although the target's neighbour can be reached |
| `ShortestPath.WalkBound` | test/route/main.cc:512-553 | every walk from the origin stays among expanded nodes no heavier than it, or weighs at least the least queue entry |
| `ShortestPath.FindShortest` | test/route/main.cc:499-568 | Dijkstra with stale entries terminates, returns the null path exactly when the target is unreachable, and otherwise a path of its recorded weight that no walk undercuts |
| `ShortestPath.RelaxAll` | test/route/main.cc:538-553 | relaxing all edges of an expanded node restores the search invariant and never queues an entry twice |
| `ShortestPath.WalkBack` | test/route/main.cc:558-567 | following prev ends at the origin and gives a path of the recorded weight |
| `Checksum.SafeRun` | lib/chk32.h:39-44 | adding n words of any value to any reduced counters stays within 64 bits if and only if n <= 23726745 |
| `Checksum.BoundReached` | lib/chk32.cc:44-46 | the largest words on the largest reduced counters reach the bound |
| `Checksum.ClosedForm` | lib/chk32.cc:64-109 | the low half of the result is the sum of the words of the padded string, the high half their sum weighted by position, each modulo 65537 |
| `Checksum.PairUpAt` | lib/chk32.cc:57-61 | word i is 256 times byte 2i plus byte 2i+1 |
| `Checksum.PaddedShape` | lib/chk32.cc:96-105 | the string is padded with 0x80, and a zero when that leaves it odd |
| `Checksum.RawBounded` | lib/chk32.cc:57-61 | no words on reduced counters exceed the bound |
| `Checksum.AddTracks` | lib/chk32.cc:57-61 | within MaxRun words of a reduction no addition overflows and the counters agree with the plain sums modulo 65537 |
| `Checksum.Chk32.Add` | lib/chk32.cc:58-59 | one word on wrapping counters: nothing wraps |
| `Checksum.Chk32.AddRun` | lib/chk32.cc:57-61 | a run of words within the limit |
| `Checksum.Chk32.Final16` | lib/chk32.cc:64-69 | the low halves of the reduced counters |
| `Checksum.Chk32.Update16` | lib/chk32.cc:42-62 | the run-length loop on wrapping 64-bit counters takes in exactly the given words |
| `Checksum.Chk32.Update` | lib/chk32.cc:71-94 | bytes handed over in any pieces are paired as one string |
| `Checksum.Chk32.Final` | lib/chk32.cc:96-109 | the result is the padded string's plain sums modulo 65537, low 16 bits of each |
| `Checksum.SumOfChunks` | lib/chk32.cc:71-109 | any split of a byte string into updates gives the same checksum |
| `Registry.TablesDetermined` | reg/main.h:63-70 | the set of records determines both hash tables |
| `Registry.RegServer.AddKeywords` | reg/main.cc:407-419 | registering adds exactly the record's keywords |
| `Registry.RegServer.DropKeywords` | reg/main.cc:407-419 | unregistering removes exactly the record and leaves no empty set |
| `Registry.RegServer.Insert` | reg/main.cc:373-394 | a new record replaces the one with its identity and the tables stay consistent |
| `Registry.RegServer.Remove` | reg/main.cc:396-405 | deletion and timeout keep the tables consistent |
| `Registry.RegServer.Search` | reg/main.cc:293-324 | the search selects exactly the records a scan of all records would, and leaves the index unchanged |
| `Registry.Reply` | reg/main.cc:326-347 | at most MAX_RESULTS distinct records are returned, all of them exactly when `complete` |
| `Xdr.WordRoundTrip` | lib/xdr.h:175-187 | big-endian words give back the number |
| `Xdr.WireByte` | lib/xdr.h:175-187 | byte i of a word, counting from the most significant |
| `Xdr.IntRoundTrip` | lib/xdr.h:161-283 | integers of every width and sign survive widening to the wire and back |
| `Xdr.OpaqueRoundTrip` | lib/xdr.cc:62-127 | a padded opaque decodes to its bytes and takes exactly its encoding, whatever follows |
| `Xdr.OpaqueWire` | lib/xdr.cc:74-107 | an opaque is its length, its bytes, and zeros up to a multiple of four |
| `Xdr.AnyPadding` | lib/xdr.cc:62-67 | padding may hold anything |
| `Xdr.NegativeLength` | lib/xdr.cc:116-119 | a length with the sign bit set is refused |
| `Xdr.UnsignedWire` | lib/xdr.h:190-207 | an unsigned number travels as the signed one with the same bits |
| `Xdr.UnsignedByte` | lib/xdr.h:190-192 | the byte 200 travels sign-extended |
| `Xdr.BoolWire` | lib/xdr.h:154-158 | a bool is the word 0 or 1 |
| `Xdr.AnyTrue` | lib/xdr.h:225-230 | any word but 0 reads as true |
| `Xdr.AnyWord` | lib/xdr.h:233-264 | any word reads as its low bytes |
| `Xdr.WordCut` | lib/xdr.h:233-254 | a word too large for its type is cut to the number in range that agrees with it modulo the width |
| `Xdr.TooLong` | lib/xdr.h:356-396 | more elements or bytes than allowed are refused |
| `Xdr.AnyPointer` | lib/xdr.h:441-444 | any word but 0 announces a value |
| `Xdr.OptionExtra` | lib/xdr.h:518-521 | bytes after the value inside an option are dropped |
| `Xdr.RoundTrip` | lib/xdr.h:154-523 | decoding undoes encoding for integers, bools, opaques, vectors, arrays, pointers, options and their nestings, and takes exactly the encoded bytes |
| `Xdr.DecodeExtends` | lib/xdr.h:224-523 | what follows the bytes a decoder has taken does not matter to it |
| `Xdr.Truncated` | lib/xdr.h:97-103 | a truncated encoding never decodes |
| `Xdr.UnknownOption` | lib/xdr.h:508-523 | an option whose inner decoding fails is kept and encodes to the same bytes |
| `Xdr.EmptyOption` | lib/xdr.h:496-517 | an option survives if and only if its value encodes to at least one byte |
| `Xdr.EmptyOptionLost` | lib/xdr.h:496-517 | an option on an empty byte vector comes back empty |
| `Xdr.XdrStream.ReadRaw` | lib/xdr.h:97-103 | raw reads return the next bytes or set an error |
| `Xdr.XdrStream.SkipRaw` | lib/xdr.h:105-111 | skips move the position or set an error |
| `Xdr.XdrStream.WriteOpaque` | lib/xdr.cc:101-107 | the QByteArray encoder appends length, bytes and padding |
| `Xdr.XdrStream.ReadPad` | lib/xdr.cc:62-67 | padded reads move past the padding or fail |
| `Xdr.XdrStream.WritePad` | lib/xdr.cc:74-79 | padded writes append the bytes and zeros to a multiple of four |
| `Xdr.XdrStream.ReadOpaque` | lib/xdr.cc:109-127 | the QByteArray decoder is the specified decoder, with its error cases |
| `Xdr.XdrStream.Write` | lib/xdr.h:154-208 | the encoders append exactly the specified bytes |
| `Xdr.XdrStream.ReadValue` | lib/xdr.h:224-285 | the decoders return the specified value and position, and an error status exactly when decoding fails or the status was an error before |
| `Xdr.XdrStream.ReadOption` | lib/xdr.h:516-521 | an option is decoded from its own bytes, or kept as it is |
| `Xdr.XdrStream.WriteAll` | lib/xdr.h:318-354 | the vector and array encoding loops |
| `Xdr.XdrStream.ReadAll` | lib/xdr.h:329-371 | the vector and array decoding loops, which stop at the first error or an earlier one |

## Left out

- EndToEnd.ReliableDelivery: packet numbers stay below 2^16 on each side, since `acknowledge` truncates its argument to 16 bits; `Limits.AcknowledgeExact` says what happens beyond.
- EndToEnd.RunKeeps: the same bound on packet numbers.
- EndToEnd.Drained: the same bound on packet numbers.
- EndToEnd.AckDelayBound: the same bound on packet numbers.
- EndToEnd.PacketArrives: the same bound on packet numbers.
- AckReports.RunReports: the same bound on the peer's packet numbers.
- EndToEnd.MessagesFollow: the same bound on packet numbers.
- ConnectionTheorem.AcknowledgeMid: the same bound on packet numbers.
- ConnectionTheorem.NodeStepKeeps: the same bound on packet numbers.
- EndToEnd.ReliableDelivery: stream positions are unbounded integers; the 32-bit positions of the source agree below 2^31 bytes.
- EndToEnd.ReliableDelivery: writes are not empty unless they close the stream, and reads that would split a segment, which fail the assertion at lib/strm/base.cc:1472, are not taken.
- EndToEnd.ReliableDelivery: it holds for one attached stream each way; the other streams of the flow appear as packets with a foreign payload.
- FlowEvents.RunSound: runs in which a header makes the code look for a record before number 0 end there, as the list index is out of range; `Limits.HeaderExact` says which headers do, and `ConnectionTheorem.WordReads` with `FlowEvents.HonestSafe` that no genuine packet has one.
- StreamSend.WriteKeeps: empty writes that do not close are excluded; `Limits.WriteExact` says why.
- StreamObject.WriteAllKeeps: likewise.
- StreamObject.BaseStream.Read: reads that would split a segment are excluded, as the assertion at lib/strm/base.cc:1472 excludes them.
- StreamObject.BaseStream.ReadMessage: likewise.
- Reading.MessagePart: likewise.
- StreamObject.BaseStream.CalcReceiveWindow: buffers stay below 2^30-1 bytes, where the shift does not overflow.
- Squeeze.SqueezePath: the postrecurse option, which no caller enables, is not modelled.
- Xdr.XdrStream.ReadValue: the position and value after a failed read are not specified.
- Attaching, Init, Reply, Attach, Detach and Reset packets, service negotiation, substreams and datagrams.
- Obedience to the peer's window: the code computes it but does not throttle (lib/strm/base.cc:492-498).
- The CC_DELAY, CC_VEGAS, CC_AGGRESSIVE and CC_FIXED modes, the socket's own congestion control, and all floating-point statistics.
- Timers' real time, link status, sockets, hosts and keying; when a timer fires is up to the run.
- Armor, cryptography and key exchange, beyond the assumption that a packet opens only under its own number.
- findMasters, findPeers and announcements in the routing simulator, and optimizePath's use of the results.
- The registration server's challenge, lookup and message formats, and the splitting of text into keywords.
- Path weights and distances are real numbers, not doubles.
- The shell, the C interface, rpcgen, the simulator's TCP and the viewer.
