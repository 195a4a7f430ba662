# X-Tunnel and its transport: a verified model

A Dafny 4.11 model of the transport code of XX-Net, with proofs of what that code keeps in every run.
`dafny verify dfyconfig.toml` checks everything.

**The session protocol** (`x_tunnel/local`). A byte stream is cut into numbered blocks (`SendBuffer`), blocks stay in a
window until acked (`Window`), the receiver reorders them and drops repeats (`Receiver`), packets are parsed and built
by `Records` and `Buffers`, and HTTP round trips are tracked and retried by a few workers (`Transfers`, `RoundTrips`,
with the runs that lose workers or replies in `LostWorkers`). `Session` holds the block-level methods of the session
object. `Tunnel` joins two such endpoints by a network that keeps every section ever sent and may deliver any of them,
any number of times, in any order or never, while a clock never goes back; `TunnelRuns` states what every run keeps,
`TunnelRecovery` when a bounded number of undisturbed round trips delivers everything after a run, `AckTooLong` a run
after which none can, and `Frames` and `TunnelFrames` when the connection frames inside the blocks survive the cutting.

**Connections.** Every connection numbers its commands a second time (`Commands`, `Conn`). `ConnRuns` takes one
connection through every interleaving of its drain loops, `ConnCloses` how it ends, `ConnStream` two connected ends
through every delivery of their frames.

**The connection pool** of the vendored aiohttp connector (`Pool`, `PoolRuns`, what is reused in `PoolReuse`, its two
limits in `PoolLimits`, its waiters in `PoolWakeups` and `PoolOrder`), its **happy-eyeballs race** (`Race`,
`Interleave`, `InterleaveOrder`), its **reconnect loop** (`Addresses`) and its **DNS cache** (`DnsCache`).

**Two smaller parts.** The chunked-body reader of `http_response_parser.py` (`ChunkedReader`) and the pure-Python
`RC4Cipher` (`Rc4`).

Classes stand for the program's mutable objects; each of their methods is proved equal to a function on values, and the
theorems are proved about those functions and about runs of them. A step of a run is what one asyncio task does between
two suspension points. That is faithful, because no body under `send_buffer._lock`, `receive_process._lock` or
`_cmd_lock` suspends. Clocks, the random shuffle of the waiters, socket outcomes and the network are inputs of the
steps, so the theorems hold for all of them. `Option` is in `Wrappers`. Python dictionaries keep their insertion order
(`Dicts`), fixed-width integers are little-endian byte strings with their bounds (`Bytes`).

## What the code does not promise

Nine statements one might expect of this code are false. For each there is a concrete input or run that shows it, and a
condition proved to be exactly the one under which the code does meet it.

- A frame does not always survive the tunnel. `AsyncSendBuffer.add` cuts at byte offsets, while each block is decoded by
  itself. `Frames.CutFrameIsLost` is a run that loses a frame; `Frames.FramesSurviveIffFit` and
  `TunnelFrames.PeerDecodesAllIffFit` say that all frames arrive if and only if each fitted, when it was added, in what
  was left of the block being filled (or that block was full and the frame fits in the next).
- Retransmission does not always repair the stream. The length of the client's ack is packed in 16 bits, so with 16383
  blocks held out of order no request can carry it. `AckTooLong.LostReplyStopsRequests` is a run with a single lost
  reply that ends there; `TunnelRecovery.RunRecoversIffAckFits` says that undisturbed round trips bring everything over
  if and only if the client holds at most 16382 blocks.
- A worker can be lost. The request head is packed before the `try`, so such an ack, a longer field, or a
  `roundtrip_timeout` of 256 or more in the user's configuration (it is packed in one byte) ends the worker with its
  request counted for ever. Bytes that do not fit are retried and lose every other worker too, one after the other
  (`LostWorkers.MisfitLosesEveryWorker`). A timeout that does not fit (`LostWorkers.TimeoutLosesWorker`) loses at most
  one worker for each number, because a retry asks for 0, and leaves all but one of `min_on_road` of them
  (`LostWorkers.TimeoutSparesWorkers`). `RoundTrips.WorkersSurviveIffAllFit` and `RoundTrips.NoOrphanIffAllFit` give the
  condition under which none is lost.
- A reply that carries a digest is never accepted, even a right one: the program calls `tobytes` on `bytes`, which
  raises. `LostWorkers.ReplyCompletesIffNoDigest` shows that a well-built reply completes its round trip if and only if
  at most 32 bytes follow its sections.
- `on_road_num` is not the number of requests in flight. A request that raised is counted while its worker sleeps, and
  counted twice once another worker retries it (`RoundTrips.SleepingIsCounted`). It is that number if and only if no
  worker sleeps after an exception or is lost (`RoundTrips.OnRoadIsInFlightIffNoneAsleep`).
- Not all data that arrives is written. What a connection takes before its socket has a writer is dropped: at the peer's
  end while the connect is under way (`ConnStream.DataDuringConnectIsLost`), at the client's end between
  `create_conn` registering the connection and `add_sock` returning (`ConnStream.DataBeforeSocketIsLost`).
  `ConnStream.WritesAllIffWriterThroughout` says, for both ends, that everything performed is written if and only if a
  writer was set whenever a command with data was performed.
- The documentation of `limit` calls it the total number of simultaneous connections (connector.py:417-424). Reuse of an
  idle connection does not look at it. `PoolLimits.LimitOneHoldsTwo` holds two with a limit of 1;
  `PoolLimits.WithinLimitIffNoReuseWhenFull` says that a run stays within the limit if and only if no connect found all
  slots taken and an idle protocol of its key to reuse. `limit_per_host` is kept (`PoolLimits.PerHostLimitHolds`).
- A task may wait for a connection although its key has room and nobody is being woken: a wake-up for a key that has
  room for one is given to two of its waiters, and a waiter of another key is forgotten until the next release.
  `PoolWakeups.WakeupIsLost` builds that run; `PoolWakeups.NoWakeupLostIffLimitShared` says that no state of any run is
  like that if and only if there is no per-host limit or it is not below a total limit.
- The reconnect loop does not always end. A failed pass shortens the list if and only if the interleave is unset or at
  least 1 (`Addresses.PopShortensIffPositive`), and the loop ends for every course of the passes if and only if it is
  (`Addresses.ReconnectEndsIffPositive`).

## Model

| member | source | states |
|---|---|---|
| Records.ParseBuild | code/default/x_tunnel/local/async_proxy_session.py:736-739 | every list of in-range numbered records, built as the sender builds a data section, is read back exactly with nothing left over |
| Records.ParseBuildThen | code/default/x_tunnel/local/async_proxy_session.py:840-852 | the same in front of any following bytes, which are then parsed on their own |
| Records.CutIsNotWhole | code/default/x_tunnel/local/async_proxy_session.py:840-852 | whole records followed by a proper piece of another are not a sequence of whole records, however the piece reads |
| Records.SplitDecodesIffWhole | code/default/x_tunnel/local/async_proxy_session.py:840-852 | decoding block by block recovers the records of the stream if and only if every block holds whole records |
| Buffers.WriteBuffer.Append | code/default/x_tunnel/local/async_base_container.py:50-58 | the content grows by exactly the bytes appended and the length stays the content's |
| Buffers.WriteBuffer.Insert | code/default/x_tunnel/local/async_base_container.py:40-48 | the bytes go in front of the content |
| Buffers.WriteBuffer.AppendBuffer | code/default/x_tunnel/local/async_base_container.py:50-53 | another buffer's content goes behind; that buffer is unchanged |
| Buffers.WriteBuffer.ToBytes | code/default/x_tunnel/local/async_base_container.py:60-61 | the joined pieces are the content |
| Buffers.ReadBuffer.Get | code/default/x_tunnel/local/async_base_container.py:86-94 | takes the first n bytes off the content, or all of them when fewer are left |
| Buffers.ReadBuffer.GetBuf | code/default/x_tunnel/local/async_base_container.py:96-104 | the same as a buffer of its own over the same bytes |
| Buffers.ReadRecords | code/default/x_tunnel/local/async_proxy_session.py:736-739 | the reading loop yields the parsed records, and ends in an exception exactly where the bytes end inside a header |
| Buffers.ReadReply | code/default/x_tunnel/local/async_proxy_session.py:480-506 | a reply is accepted if and only if its head is right and its lengths leave room for the head; its six sections are then exact consecutive slices, none cut short by the buffer |
| Buffers.WellFormedIsBuilt | code/default/x_tunnel/local/async_proxy_session.py:449-506 | what passes the check is a reply built of a right 19 byte head, the lengths of six sections, the sections, and some trailer; nothing else passes |
| Buffers.ReplyRoundTrip | code/default/x_tunnel/local/async_proxy_session.py:488-506 | any six sections written with their true lengths, with any trailer, are the six sections read |
| Buffers.ListRoundTrip | code/default/x_tunnel/local/async_proxy_session.py:783-792 | a packed list of numbers with times is read back entry by entry |
| Buffers.CutEntries | code/default/x_tunnel/local/async_proxy_session.py:783-795 | one that is cut short yields the entries before the cut |
| SendBuffer.AddAppends | code/default/x_tunnel/local/async_base_container.py:169-181 | adding appends to the queue, and keeps stored keys, full stored blocks, the short last block and the exact size |
| SendBuffer.GetTakes | code/default/x_tunnel/local/async_base_container.py:183-202 | getting takes a nonempty block of at most max_payload bytes off the front under the next number, and fails only on an empty queue |
| SendBuffer.RefinesByteQueue | code/default/x_tunnel/local/async_base_container.py:169-202 | for any calls, the blocks handed out, numbered 1, 2, 3, ..., then the stored and the last block are all bytes added; the size is what is left |
| SendBuffer.AsyncSendBuffer.constructor | code/default/x_tunnel/local/async_base_container.py:159-167 | the empty pool with both numbers at 1 |
| SendBuffer.AsyncSendBuffer.Add | code/default/x_tunnel/local/async_base_container.py:169-181 | the in-place cutting loop computes the pool function |
| SendBuffer.AsyncSendBuffer.Get | code/default/x_tunnel/local/async_base_container.py:183-202 | the in-place method computes the pool function, block and number included |
| Frames.SendWholeIffFits | code/default/x_tunnel/local/async_base_container.py:176-181 | from a pool of whole frames, adding a frame keeps every block whole exactly when the frame fits; otherwise a stored block is broken for good |
| Frames.FramesSurviveIffFit | code/default/x_tunnel/local/async_proxy_session.py:891-898 | for any order of sends and hand-outs, once the pool is empty the blocks decode to exactly the frames sent if and only if every send fitted |
| Frames.FittingFramesArriveInOrder | code/default/x_tunnel/local/async_proxy_session.py:840-852 | when every send fits, any number of blocks handed out so far decodes to a prefix of the frames |
| Frames.CutFrameIsLost | code/default/x_tunnel/local/async_base_container.py:176-181 | two 12 byte frames through blocks of 16 bytes are not recovered |
| Receiver.LeastMissingNumber | code/default/x_tunnel/local/async_proxy_session.py:49-78 | after any arrivals and reports the next number is the least that never arrived, the held blocks are exactly the later arrivals, each with its first data, and 1, 2, ... were released once each in order |
| Receiver.CompleteArrivalReleasesAll | code/default/x_tunnel/local/async_proxy_session.py:49-69 | any arrivals of 1..n, repeated and permuted, release exactly 1..n in order and leave nothing held |
| Receiver.PutReceives | code/default/x_tunnel/local/async_proxy_session.py:49-78 | a put makes its number received and no other, and takes it off the timeout list |
| Receiver.TimeoutsAreMissing | code/default/x_tunnel/local/async_proxy_session.py:80-86 | in every run no number on the timeout list has been received |
| Receiver.UnackedMarksLate | code/default/x_tunnel/local/async_proxy_session.py:797-810 | exactly the numbers of the late entries not received join the timeout list, and nothing is received or forgotten |
| Receiver.LatestTimeIsKept | code/default/x_tunnel/local/async_proxy_session.py:80-86 | a number on the timeout list carries the latest of the times it was listed with, and no other |
| Receiver.UnackedReads | code/default/x_tunnel/local/async_proxy_session.py:797-812 | a packed section counts every entry, one cut short those before the cut |
| Receiver.AsyncReceiveProcess.PutBlock | code/default/x_tunnel/local/async_proxy_session.py:49-69 | the locked part computes the receiver function, including every block it releases |
| Receiver.AsyncReceiveProcess.MarkSnTimeout | code/default/x_tunnel/local/async_proxy_session.py:80-86 | the latest send time is kept |
| Receiver.AsyncReceiveProcess.ProcessUnacked | code/default/x_tunnel/local/async_proxy_session.py:797-810 | for any bytes, the loop computes that function of the entries read, up to a field cut short |
| Window.AckKeepsShape | code/default/x_tunnel/local/async_proxy_session.py:746-768 | whatever bytes arrive as an ack, the window's numbers stay consecutive, up to the next new number, the lowest not acked |
| Window.AckExact | code/default/x_tunnel/local/async_proxy_session.py:705-768 | an ack section built by a receiver acknowledges exactly the numbers of the window that it had received, besides those already passed |
| Window.CutAckMarksListed | code/default/x_tunnel/local/async_proxy_session.py:746-768 | an ack cut short marks exactly the numbers listed before the cut, nothing up to the continuous number, and moves nothing |
| Window.SlideSlides | code/default/x_tunnel/local/async_proxy_session.py:763-766 | sliding removes the acked front and nothing else |
| Window.ResendsOverdue | code/default/x_tunnel/local/async_proxy_session.py:667-680 | every overdue block is written again with its bytes, unless the buffer filled up first |
| Window.DataSectionCarries | code/default/x_tunnel/local/async_proxy_session.py:662-703 | one `get_data` keeps the window's shape, takes at most the next block of the queue, acks nothing, and writes only blocks with the bytes they were handed out with |
| Window.DataSectionExactly | code/default/x_tunnel/local/async_proxy_session.py:662-703 | a section is the overdue blocks in order up to the first that makes it longer than a full block, then, unless it is, the next block of the pool if more than a full one is queued or anything is and the delay has passed; what is written is held with the time of writing, all else as before |
| Window.NotAgainTooSoon | code/default/x_tunnel/local/async_proxy_session.py:667-680 | what one section wrote no later one writes again until more than the timeout has passed |
| Window.DataSectionNoGap | code/default/x_tunnel/local/async_proxy_session.py:662-703 | when all that is held has waited for the timeout, every number below one that is written is acked or written before it, up to where the buffer is full |
| Session.AsyncProxySession.GetData | code/default/x_tunnel/local/async_proxy_session.py:662-703 | the method writes the data section and leaves pool and window as the functions say |
| Session.AsyncProxySession.ResendOverdue | code/default/x_tunnel/local/async_proxy_session.py:667-680 | the resend loop, its early return included, computes the resend function |
| Session.AsyncProxySession.FetchBlock | code/default/x_tunnel/local/async_proxy_session.py:682-701 | the new block enters the window and the buffer together |
| Session.AsyncProxySession.SendConnData | code/default/x_tunnel/local/async_proxy_session.py:891-903 | one framed command joins the queue, and the time of the oldest queued byte is set if there was none |
| Session.AsyncProxySession.GetAck | code/default/x_tunnel/local/async_proxy_session.py:705-719 | the ack section of the receiver's state when the caller forces it, or when something came in since the last request and the ack delay has passed; else nothing |
| Session.AsyncProxySession.AckProcess | code/default/x_tunnel/local/async_proxy_session.py:746-768 | for any bytes, the in-place marking and sliding computes the acknowledge function and keeps the session valid |
| Session.AsyncProxySession.MarkListedNumbers | code/default/x_tunnel/local/async_proxy_session.py:751-754 | the listed numbers are marked up to where a short rest raises |
| Session.AsyncProxySession.MarkContinuous | code/default/x_tunnel/local/async_proxy_session.py:756-761 | every number up to the last ack is marked |
| Session.AsyncProxySession.SlideWindow | code/default/x_tunnel/local/async_proxy_session.py:763-766 | the in-place loop computes the slide function |
| Session.AsyncProxySession.TakeDataSection | code/default/x_tunnel/local/async_proxy_session.py:733-739 | every complete record is put in order; what is returned, behind what was released before, is the first data of 1, 2, 3, ... in order |
| Session.PutAllReleases | code/default/x_tunnel/local/async_proxy_session.py:733-739 | a section put record by record releases, in order, the first data of every number up to the least that has not arrived |
| Session.SeenAllIsFirst | code/default/x_tunnel/local/async_proxy_session.py:49-69 | the first data of a number is that of its first record in the section, unless it arrived before |
| Tunnel.ApplyKeeps | code/default/x_tunnel/local/async_proxy_session.py:662-768 | every step of two endpoints and the network keeps the invariant of both directions |
| TunnelRuns.DeliveredIsPrefixOfWritten | code/default/x_tunnel/local/async_proxy_session.py:662-744 | in every run over a network that loses, repeats, delays and reorders, the bytes released, in release order, are a prefix of the bytes written on the other side |
| TunnelRuns.NothingIsLost | code/default/x_tunnel/local/async_proxy_session.py:746-768 | in every run each number handed out is received by the peer or held with its original bytes; what counts as acked was received; what was released has the original bytes in its place |
| TunnelRuns.WindowAlwaysInShape | code/default/x_tunnel/local/async_proxy_session.py:662-768 | in every run the window's keys are exactly ack_send_continue_sn+1 .. tail_sn-1 and the lowest is not acked |
| TunnelRuns.OldestIsWaitingSince | code/default/x_tunnel/local/async_proxy_session.py:682-701 | in every run oldest_received_time is the time of the write that last found the pool empty, and 0 while it is |
| TunnelRuns.BlockLeavesIffDue | code/default/x_tunnel/local/async_proxy_session.py:682-701 | in every run, while nothing in the window is overdue, a new block leaves the pool if and only if more than a full one is queued, or anything is and it has waited longer than the delay |
| TunnelRecovery.RoundTripLeavesLess | code/default/x_tunnel/local/async_proxy_session.py:662-768 | while anything is queued or unacked and both acks fit their length fields, one undisturbed round trip, in which each side waits out the resend timeout, sends one packet of its data and ack sections and the other takes in every record of it, leaves strictly less, and both acks still fit |
| TunnelRecovery.TripIsLegal | code/default/x_tunnel/local/async_proxy_session.py:662-768 | such a round trip is a piece of a run |
| TunnelRecovery.UndisturbedTripsDeliverAll | code/default/x_tunnel/local/async_proxy_session.py:662-768 | if both acks fit, undisturbed round trips empty both pools and windows with everything released in order; four for each byte queued and two for each block in a window are enough |
| TunnelRecovery.RecoversIffAckFits | code/default/x_tunnel/local/async_proxy_session.py:359-366 | from every reachable state: if the client holds at most 16382 blocks, round trips as above deliver everything; if it holds more, bytes are missing and it can make no round trip at all |
| TunnelRecovery.RunRecoversIffAckFits | code/default/x_tunnel/local/async_proxy_session.py:662-768 | so after every run, whatever the network did, some undisturbed round trips release at each end exactly the bytes written at the other, if and only if the client holds at most 16382 blocks out of order |
| AckTooLong.LostReplyStopsRequests | code/default/x_tunnel/local/async_proxy_session.py:705-719 | a run of 16384 round trips with one lost reply after which the client lacks a block, its ack is 65536 bytes long, and it can make no further round trip |
| TunnelFrames.PeerDecodesPrefix | code/default/x_tunnel/local/async_proxy_session.py:840-898 | in every run whose frames fit when written, what the peer released decodes block by block to a prefix of the frames |
| TunnelFrames.PeerDecodesAllIffFit | code/default/x_tunnel/local/async_proxy_session.py:840-898 | when every byte has been released, the peer has decoded exactly the frames written if and only if each fitted when it was written |
| Transfers.TransferTable.TakeTimedOut | code/default/x_tunnel/local/async_proxy_session.py:596-608 | an entry marked timed out that has none in front of it in the table becomes a retry, and none is found only if none is marked; nothing else changes |
| Transfers.NewStartsNow | code/default/x_tunnel/local/async_proxy_session.py:615-636 | a new request is late by the checker once more than its timeout and the limit has passed since it was collected, by the other check once it is not received within the limit |
| Transfers.RetryStartsAnew | code/default/x_tunnel/local/async_proxy_session.py:603-608 | a request that goes out again is late only once more than its new timeout and the limit has passed since then |
| Transfers.OpenedIsNew | code/default/x_tunnel/local/async_proxy_session.py:615-638 | the next number was never in the table; it comes last, as a request never retried with its bytes, and no other entry changes |
| Transfers.TransferTable.Depart | code/default/x_tunnel/local/async_proxy_session.py:351-357 | the request is counted exactly when its entry is still there |
| Transfers.TransferTable.MarkTimeout | code/default/x_tunnel/local/async_proxy_session.py:401-406 | an entry that is there is marked |
| Transfers.CompletedRemovesOnly | code/default/x_tunnel/local/async_proxy_session.py:539-541 | a completed number is gone, every other entry is as it was, in the same order, and numbers stay at most the last used |
| Transfers.TransferTable.MarkLateEntries | code/default/x_tunnel/local/async_proxy_session.py:564-587 | both checking loops mark exactly the late entries |
| Transfers.MarkLateOnlyMarks | code/default/x_tunnel/local/async_proxy_session.py:822-834 | checking changes marks only: same numbers, same bytes, in the same order |
| Transfers.CheckMarksExactly | code/default/x_tunnel/local/async_proxy_session.py:822-834 | marked are, besides those already marked, exactly the entries for which more than their timeout and the limit has passed since their start; nothing else changes |
| Transfers.AckCheckMarksExactly | code/default/x_tunnel/local/async_proxy_session.py:564-587 | marked are, besides those already marked, exactly the entries not received within the limit and those answered longer ago than it |
| Transfers.ReportOnlyMarks | code/default/x_tunnel/local/async_proxy_session.py:770-795 | a report, whatever its bytes, changes marks and times only: same numbers, same bytes, in the same order |
| Transfers.ReportSetsExactly | code/default/x_tunnel/local/async_proxy_session.py:770-793 | a packed report sets both times of every entry to those of the last entry listed for it, or else to what being below the next number says, and nothing else |
| Transfers.CutReportSetsExactly | code/default/x_tunnel/local/async_proxy_session.py:783-795 | one whose first list is cut short counts what is before the cut, and its second list is not read |
| Transfers.TransferTable.ServerReport | code/default/x_tunnel/local/async_proxy_session.py:770-795 | for any bytes, the three loops, and the end at a field cut short, compute the report function |
| RoundTrips.ApplyKeeps | code/default/x_tunnel/local/async_proxy_session.py:322-563 | every step of every worker keeps the invariant of table, workers and counter |
| RoundTrips.NoOrphanIffAllFit | code/default/x_tunnel/local/async_proxy_session.py:322-411 | throughout a run every entry is marked timed out or on the road with a worker, if and only if every number, when it was collected, fitted the packed head with its bytes and the timeout asked for |
| RoundTrips.OnRoadIsInFlightIffNoneAsleep | code/default/x_tunnel/local/async_proxy_session.py:401-411 | in every run on_road_num is the requests in flight plus the workers asleep after an exception plus the lost ones, at most the number of workers; it is the requests in flight if and only if there are none of the others |
| RoundTrips.SleepingIsCounted | code/default/x_tunnel/local/async_proxy_session.py:401-411 | a run with one counted request and none in flight, then two counted and one in flight |
| RoundTrips.WorkersSurviveIffAllFit | code/default/x_tunnel/local/async_proxy_session.py:359-372 | no worker is lost if and only if every number, its lengths and the timeout asked for fitted the packed head when it was collected |
| LostWorkers.TimeoutLosesWorker | code/default/x_tunnel/local/config.py:56 | with a configured timeout of 256 or more, a session whose first round trip brought the server's time loses a worker to its second number |
| LostWorkers.MisfitLosesEveryWorker | code/default/x_tunnel/local/async_proxy_session.py:822-838 | a second number whose bytes do not fit the head loses its worker, is marked late by the checker, and so loses every other worker in turn; nothing more is sent |
| LostWorkers.MisfitNeverLeaves | code/default/x_tunnel/local/async_proxy_session.py:593-608 | in every run a number whose bytes do not fit is never sent and stays in the table; one whose bytes fit loses at most one worker |
| LostWorkers.TimeoutSparesWorkers | code/default/x_tunnel/local/async_proxy_session.py:342-349 | in every run whose bytes fit, whatever timeout is configured, at least min_on_road - 1 workers are left |
| LostWorkers.AckFitsHeaderIff | code/default/x_tunnel/local/async_proxy_session.py:705-719 | a body with an ack of the receiver fits the head if and only if the receiver holds at most 16382 blocks |
| LostWorkers.ReplyCompletesIffNoDigest | code/default/x_tunnel/local/async_proxy_session.py:508-516 | a well-built reply to the first request completes it if and only if at most 32 bytes follow the six sections; with more it is marked for retry |
| RoundTrips.RetriesCarryTheSameBytes | code/default/x_tunnel/local/async_proxy_session.py:593-638 | any two requests ever sent for one number carried the same bytes |
| RoundTrips.EntryLeavesIffReplyWellFormed | code/default/x_tunnel/local/async_proxy_session.py:418-541 | an entry leaves the table if and only if a worker with that request out gets a reply with status 200, of the announced length, built of a right head and six sections, with at most 32 bytes behind them |
| RoundTrips.DeviationIsShortest | code/default/x_tunnel/local/async_proxy_session.py:521-527 | in every run server_time_deviation is the shortest round trip that brought an accepted reply, or 9999 |
| RoundTrips.StartsAtOnceIff | code/default/x_tunnel/local/async_proxy_session.py:418-447 | after a reply its worker can start again at once if and only if it came with status 200 but is not accepted; after another status it sleeps first |
| Commands.ParseBuildBody | code/default/x_tunnel/local/async_base_container.py:442-457 | every connect, data, ack, close and unknown command in range is read back as built |
| Commands.ParseBuildCmd | code/default/x_tunnel/local/async_base_container.py:534-560 | the same with the number in front |
| Commands.CutCmdRaises | code/default/x_tunnel/local/async_base_container.py:442-457 | a connect or ack that is cut short raises, and so does any command without its first byte |
| Commands.BuildParseBody | code/default/x_tunnel/local/async_base_container.py:442-457 | a body that parses as data, close or unknown is what building it again gives |
| Conn.AsyncConn.TransferPeerClose | code/default/x_tunnel/local/async_base_container.py:529-538 | one close at most, under the next number |
| Conn.AsyncConn.SetWriter | code/default/x_tunnel/local/async_base_container.py:288-290 | the socket has its writer from now on, unless the connection has ended |
| Conn.AsyncConn.TransferReceivedData | code/default/x_tunnel/local/async_base_container.py:540-549 | the bytes read go out under the next number and are counted, unless closed |
| Conn.AsyncConn.TransferAck | code/default/x_tunnel/local/async_base_container.py:556-562 | an ack goes out under the next number, unless closed |
| Conn.AsyncConn.AfterDrain | code/default/x_tunnel/local/async_base_container.py:497-500 | drained bytes are counted and acked once more than the window is unreported |
| Conn.AsyncConn.TakeNext | code/default/x_tunnel/local/async_base_container.py:437-459 | the next command leaves the queue; its number is passed only if it could be read |
| Conn.AsyncConn.PerformCmd | code/default/x_tunnel/local/async_base_container.py:463-489 | what the command does up to the next suspension |
| Conn.AsyncConn.ProcessNextCmd | code/default/x_tunnel/local/async_base_container.py:435-489 | the loop up to its next suspension or end computes the loop function |
| Conn.AsyncConn.PutCmdData | code/default/x_tunnel/local/async_base_container.py:418-433 | an arriving frame, whatever its bytes, computes the put function |
| ConnRuns.EveryRunIsOrdered | code/default/x_tunnel/local/async_base_container.py:418-504 | for any frames in any order with repeats and any interleaving of drain loops: commands are performed in number order, each once; the next command never waits without a loop under way; what goes out is numbered 1, 2, 3, ... with at most one close, the last; ack positions rise and the uncounted lag stays within the window |
| ConnRuns.WritesAllIffAlwaysWriter | code/default/x_tunnel/local/async_base_container.py:491-504 | a connection of either side has written exactly the data of the commands it performed, in order, if and only if a writer was set whenever a command with data was performed |
| ConnRuns.DrainedIsAcked | code/default/x_tunnel/local/async_base_container.py:497-500 | in every run exactly the drained bytes are counted, and until a close has gone out the highest ack sent is at most windows_ack behind them; acks are more than that apart |
| ConnCloses.ClosesAreAnswered | code/default/x_tunnel/local/async_base_container.py:468-484 | in every run a performed close is the last command performed; a close goes out if and only if a client performed one or a connect failed, with the reason that says so |
| ConnCloses.WriterIsFromSocket | code/default/x_tunnel/local/async_base_container.py:477-493 | in every run a connection has a writer if and only if it still runs and, while it ran, its socket got one or its connect came off |
| ConnStream.ClientReceivesPrefix | code/default/x_tunnel/local/async_base_container.py:393-395 | in every run in which the client's socket gets its writer first, the client end has written a prefix of the bytes the peer read |
| ConnStream.WritesAllIffWriterThroughout | code/default/x_tunnel/local/async_base_container.py:491-504 | at both ends, what the performed commands carry is a prefix of what the other end read, and all of it is written if and only if a writer was set whenever a command with data was performed |
| ConnStream.DataDuringConnectIsLost | code/default/x_tunnel/local/async_base_container.py:477-493 | a run in which data that arrives during the connect is lost and later data is written |
| ConnStream.DataBeforeSocketIsLost | code/default/x_tunnel/local/async_proxy_session.py:876-884 | a run in which data that reaches the client before its socket has a writer is lost and later data is written |
| ConnStream.AckedNeverPassesReceived | code/default/x_tunnel/local/async_base_container.py:463-467 | in every run, at both ends, remote_acked_position is at most what the other end wrote, and that at most received_position |
| Pool.BaseConnector.AvailableConnections | code/default/lib/noarch/aiohttp/connector.py:587-610 | the room left under both limits |
| Pool.BaseConnector.AcquireHandler | code/default/lib/noarch/aiohttp/connector.py:758-760 | the handler is held, for its key when a per-host limit is set |
| Pool.BaseConnector.GetIdle | code/default/lib/noarch/aiohttp/connector.py:739-779 | the loop hands out the first reusable idle protocol of the key, drops those before it, and leaves no empty queue |
| Pool.GetHandsOutFresh | code/default/lib/noarch/aiohttp/connector.py:739-779 | handed out is the first of the key's queue that is connected and was released within the keep-alive timeout; those in front of it fail one of the two, and with nothing handed out all do |
| Pool.BaseConnector.ReleaseOneWaiter | code/default/lib/noarch/aiohttp/connector.py:781-805 | the nested loops compute the wake-up function over the shuffled keys |
| Pool.ReleaseWaiterWakesOne | code/default/lib/noarch/aiohttp/connector.py:781-805 | the front pending waiter of one key with room is woken, and nobody exactly when no key has both; no other waiter stops waiting |
| Pool.BaseConnector.ReleaseHeld | code/default/lib/noarch/aiohttp/connector.py:807-818 | the handler is let go from both sets and one waiter is woken, unless closed |
| Pool.BaseConnector.ReleaseProtocol | code/default/lib/noarch/aiohttp/connector.py:820-841 | the protocol is let go, and goes idle unless it is to be closed |
| Pool.BaseConnector.CleanupIdle | code/default/lib/noarch/aiohttp/connector.py:435-463 | exactly the live and recent idle protocols stay, in order, and no empty queue |
| Pool.SurvivorsAreFresh | code/default/lib/noarch/aiohttp/connector.py:449-462 | a clean-up leaves exactly what is connected and was released within the keep-alive timeout, in order |
| PoolRuns.AvailableIsRoom | code/default/lib/noarch/aiohttp/connector.py:587-610 | the room is at least 1 if and only if both limits leave some |
| PoolReuse.ReuseIsFresh | code/default/lib/noarch/aiohttp/connector.py:739-779 | in every run a task that gets a protocol by reuse gets one that is connected, was released for the same key and not to be closed, no longer ago than the keep-alive timeout |
| PoolReuse.ClosedIsNeverReused | code/default/lib/noarch/aiohttp/connector.py:833-839 | in every run a protocol released to be closed is never idle or leased again |
| PoolReuse.OpenGoesLast | code/default/lib/noarch/aiohttp/connector.py:841 | one released otherwise is last in its key's queue, idle since then |
| PoolReuse.ConnectComesTo | code/default/lib/noarch/aiohttp/connector.py:638-663 | a connect leases a fresh idle protocol; without one it begins to create if both limits leave room, and waits otherwise |
| PoolReuse.ResumeComesTo | code/default/lib/noarch/aiohttp/connector.py:650-663 | a woken task without room waits again; with room it leases a fresh idle protocol, or else begins to create |
| PoolReuse.ClosedLeasesNothing | code/default/lib/noarch/aiohttp/connector.py:517-585 | in every run, once the connector is closed nothing is held, idle or waiting, and no task gets a connection any more, not even one that was being made |
| PoolRuns.ApplyKeeps | code/default/lib/noarch/aiohttp/connector.py:638-695 | every step of any number of tasks keeps ownership, partition, idle pool, creation bound and waiters |
| PoolRuns.HeldIsExactlyOwned | code/default/lib/noarch/aiohttp/connector.py:638-695 | in every run the held set is exactly the placeholders of creating tasks and the protocols of live connections, all distinct, disjoint from the idle pool, with no empty idle queue |
| PoolRuns.ProtocolsStayWithTheirKey | code/default/lib/noarch/aiohttp/connector.py:739-779 | in every run a protocol serves only the key it was made for |
| PoolRuns.PerHostSetsPartition | code/default/lib/noarch/aiohttp/connector.py:661-694 | with a per-host limit the per-host sets partition the held set in every run |
| PoolRuns.CreationIsBounded | code/default/lib/noarch/aiohttp/connector.py:587-695 | in every run at most limit of the held handlers, and limit_per_host for a key, were obtained by creation |
| PoolRuns.CreatingNeedsRoom | code/default/lib/noarch/aiohttp/connector.py:650-663 | creation starts only with room under both limits, also after waiting |
| PoolRuns.WaitersAreQueuedOrWoken | code/default/lib/noarch/aiohttp/connector.py:697-737 | in every run a waiting task is queued under its key or woken |
| PoolOrder.NobodyIsOvertaken | code/default/lib/noarch/aiohttp/connector.py:697-737 | in every run, when a task that waits for the first time is woken, all others waiting for its key came later and wait for the first time too |
| PoolLimits.WithinLimitIffNoReuseWhenFull | code/default/lib/noarch/aiohttp/connector.py:643-695 | a run of any number of tasks stays within the limit throughout if and only if no connect finds all slots taken and a reusable idle protocol of its key |
| PoolLimits.LimitOneHoldsTwo | code/default/lib/noarch/aiohttp/connector.py:417-424 | a run that holds two connections with a limit of 1 |
| PoolLimits.PerHostLimitHolds | code/default/lib/noarch/aiohttp/connector.py:426-433 | in every run, reuse included, the handlers held for a key and the protocols idle under it are together at most limit_per_host |
| PoolWakeups.NoWakeupLostIffLimitShared | code/default/lib/noarch/aiohttp/connector.py:781-805 | in every state of every run a waiting task whose key has room has a wake-up under way, if and only if the per-host limit is unset or not below a total limit |
| PoolWakeups.WakeupIsLost | code/default/lib/noarch/aiohttp/connector.py:697-737 | for all other limits a run to a state with a waiter whose key has room and nobody woken |
| Race.ApplyKeeps | code/default/lib/noarch/aiohappyeyeballs/_staggered.py:115-207 | every event of the race and its attempts keeps start order, future, outcome and socket ownership |
| Race.AttemptsStartInTurn | code/default/lib/noarch/aiohappyeyeballs/_staggered.py:149-178 | in every run an attempt starts only after the one before failed or its timer fired; without a delay only after it failed |
| Race.RaceOutcome | code/default/lib/noarch/aiohappyeyeballs/_staggered.py:148-207 | a reported winner succeeded; unless the caller cancelled, none is reported only when all were started and failed, with every exception in the list; no attempt is left running |
| Race.OnlyTheWinnersSocketIsOpen | code/default/lib/noarch/aiohappyeyeballs/impl.py:84-115 | after `start_connection` a socket that any attempt created is open if and only if it is the winner's |
| Race.CancelledClosesAll | code/default/lib/noarch/aiohappyeyeballs/impl.py:101-115 | a race that its caller cancelled leaves every socket closed, even one that had just won |
| Race.EveryRunEnds | code/default/lib/noarch/aiohappyeyeballs/_staggered.py:148-207 | every run has at most 7 n + 4 events |
| Race.NoHang | code/default/lib/noarch/aiohappyeyeballs/_staggered.py:164-178 | once no attempt is under way the race itself can go on until it is over |
| Race.ConnectInTurn | code/default/lib/noarch/aiohappyeyeballs/impl.py:69-83 | without a delay the loop goes past the attempts that fail, up to the first that connects or is interrupted; of all sockets made only the one that connected is open |
| Race.BindFirst | code/default/lib/noarch/aiohappyeyeballs/impl.py:187-207 | the bind loop succeeds if and only if some local address of the family can be bound, and lists those before it that could not |
| Race.ConnectSock | code/default/lib/noarch/aiohappyeyeballs/impl.py:157-232 | an attempt connects if and only if its socket is made, bound and reaches; the socket is open afterwards exactly then, the shared set gains it exactly then and is otherwise as it was, and each trouble is listed exactly when it happened |
| Interleave.InterleavedPermutes | code/default/lib/noarch/aiohappyeyeballs/impl.py:235-259 | the result is a permutation of the list |
| Interleave.InterleavedKeepsFamilies | code/default/lib/noarch/aiohappyeyeballs/impl.py:235-259 | every family keeps its order |
| Interleave.FirstFamilyLeads | code/default/lib/noarch/aiohappyeyeballs/impl.py:250-253 | the requested count of the first family comes first |
| Interleave.InterleavedIsEven | code/default/lib/noarch/aiohappyeyeballs/impl.py:254-259 | after the lead no family gets two ahead of one that still has addresses (section 4 of RFC 8305) |
| InterleaveOrder.RoundsInOrder | code/default/lib/noarch/aiohappyeyeballs/impl.py:254-259 | behind the lead, the r-th address of the i-th family stands before the s-th of the j-th if and only if r < s, or r = s and i < j |
| InterleaveOrder.FamiliesInOrder | code/default/lib/noarch/aiohappyeyeballs/impl.py:239-248 | the families are in the order in which they first appear |
| Interleave.InterleaveAddrinfos | code/default/lib/noarch/aiohappyeyeballs/impl.py:235-259 | the grouping, trimming and zipping loops compute that list |
| Interleave.GroupByFamily | code/default/lib/noarch/aiohappyeyeballs/impl.py:239-248 | the dictionary loop groups the addresses by family, in order of first appearance |
| Addresses.AddrList.PopInterleave | code/default/lib/noarch/aiohappyeyeballs/utils.py:37-58 | the counting loop and the removals leave exactly what the function keeps |
| Addresses.RemovingPickedKeeps | code/default/lib/noarch/aiohappyeyeballs/utils.py:37-58 | removing the picked items one by one, each by its first equal occurrence, leaves exactly the unpicked ones in order |
| Addresses.KeptByFamily | code/default/lib/noarch/aiohappyeyeballs/utils.py:37-58 | each family loses exactly its first k addresses |
| Addresses.PopShortensIffPositive | code/default/lib/noarch/aiohttp/connector.py:1601-1604 | a failed pass shortens the list if and only if the interleave is unset or at least 1, and changes nothing otherwise |
| Addresses.RemovingMatches | code/default/lib/noarch/aiohappyeyeballs/utils.py:70-97 | removing every match leaves exactly the others, in order |
| Addresses.WithoutPeerExactly | code/default/lib/noarch/aiohappyeyeballs/utils.py:70-97 | removing a peer takes out the equal addresses if there is any, otherwise those that denote the same address, keeps the others in order, and raises if and only if there is none of either |
| Addresses.AddrList.RemovePeer | code/default/lib/noarch/aiohappyeyeballs/utils.py:70-97 | equal tuples go first; only when there are none, those that denote the same address; else it raises and changes nothing |
| Addresses.ReconnectEnds | code/default/lib/noarch/aiohttp/connector.py:1583-1623 | the loop stops at the first pass that connects, with the list used up by passes that all failed, or at a peer not in the list; with a positive interleave within as many passes as there were addresses |
| Addresses.ReconnectEndsIffPositive | code/default/lib/noarch/aiohttp/connector.py:1583-1623 | as many passes as addresses end the loop, whatever they come to, if and only if the interleave is unset or at least 1 |
| Addresses.AddrList.Reconnect | code/default/lib/noarch/aiohttp/connector.py:1583-1623 | the in-place loop computes that function |
| ChunkedReader.FirstCrlfIsFirst | code/default/lib/noarch/http_response_parser.py:161 | the position found is the first CRLF, and none is found only if there is none |
| ChunkedReader.Response.Recv | code/default/lib/noarch/http_response_parser.py:135-155 | any nonempty front of what is to come, of at most the requested size |
| ChunkedReader.Response.ReadLine | code/default/lib/noarch/http_response_parser.py:157-180 | the line up to the first CRLF of buffered and coming bytes, with exactly the rest left; on a timeout nothing is consumed |
| ChunkedReader.Response.ReadPlain | code/default/lib/noarch/http_response_parser.py:225-277 | exactly n bytes and the rest left, if they come in time |
| ChunkedReader.Response.ReadChunk | code/default/lib/noarch/http_response_parser.py:324-328 | one chunk as a function of the bytes, however they are split |
| ChunkedReader.Response.ReadAll | code/default/lib/noarch/http_response_parser.py:337-352 | result and rest are a function of the bytes alone, however the socket splits them |
| ChunkedReader.HexReadsHexOf | code/default/lib/noarch/http_response_parser.py:326 | every size written in hexadecimal is read back |
| ChunkedReader.HexReadsEitherCase | code/default/lib/noarch/http_response_parser.py:326 | the same with any of its letters in upper case |
| ChunkedReader.HexDigitIsDigit | code/default/lib/noarch/http_response_parser.py:326 | a byte counts as the digit v if and only if it is the v-th digit in lower or upper case |
| ChunkedReader.HexIsSizeIffDigits | code/default/lib/noarch/http_response_parser.py:326 | a line is a size if and only if it is not empty and all its bytes are such digits |
| ChunkedReader.BodyOfEncoded | code/default/lib/noarch/http_response_parser.py:324-352 | an encoded body (section 7.1 of RFC 9112, no extensions or trailers) yields the joined chunk data and leaves exactly what follows it |
| ChunkedReader.CutBodyTimesOut | code/default/lib/noarch/http_response_parser.py:324-352 | an encoded body that stops anywhere before its end times out; it is never taken for a shorter one |
| ChunkedReader.BadSizeRaises | code/default/lib/noarch/http_response_parser.py:324-328 | a size line that is not a number ends the body, with the line consumed |
| ChunkedReader.ReadEncoded | code/default/lib/noarch/http_response_parser.py:324-352 | so `readall` returns that data for every segmentation |
| Rc4.Scheduled | code/default/lib/noarch/encrypt.py:171-180 | after every round of key setup the table is a permutation of 0..255 |
| Rc4.After | code/default/lib/noarch/encrypt.py:181-194 | after any number of characters the table is still one |
| Rc4.PermutationHasAll | code/default/lib/noarch/encrypt.py:174 | such a table holds every number below 256 exactly once |
| Rc4.KeystreamIgnoresMessage | code/default/lib/noarch/encrypt.py:187-191 | a character of the output depends on its own input character and the state alone |
| Rc4.MixIsCodePoint | code/default/lib/noarch/encrypt.py:191 | the mixed value of a code point is a code point, so `chr` accepts it |
| Rc4.ChunksJoin | code/default/lib/noarch/encrypt.py:181-194 | cutting a message anywhere changes neither the output nor the state left |
| Rc4.Undoes | code/default/lib/noarch/encrypt.py:181-194 | a second cipher in the same state undoes the first, for every message |
| Rc4.KnownAnswer | code/default/lib/noarch/encrypt.py:171-194 | the key that leaves the table as it is gives the characters 2, 5, 7 for three zeros |
| Rc4.KeyRepeats | code/default/lib/noarch/encrypt.py:175-178 | a key written twice schedules as the key does |
| Rc4.RC4Cipher.constructor | code/default/lib/noarch/encrypt.py:172-180 | the in-place key setup gives the scheduled table |
| Rc4.RC4Cipher.Encrypt | code/default/lib/noarch/encrypt.py:181-194 | the in-place loop gives the encrypted characters and the state after them |
| Rc4.RoundTrip | code/default/lib/noarch/encrypt.py:171-194 | a message encrypted by one cipher and decrypted by another of the same key in two pieces, cut anywhere, is the message |
| DnsCache.EveryRunKeeps | code/default/lib/noarch/aiohttp/connector.py:859-889 | in every run the size stays within the limit (at least 0) and timestamps cover exactly the cached keys when a ttl is set, none otherwise |
| DnsCache.OrderIsRecency | code/default/lib/noarch/aiohttp/connector.py:870-897 | in every run the keys are in the order in which they were last added or handed out |
| DnsCache.EvictsLeastRecent | code/default/lib/noarch/aiohttp/connector.py:879-881 | adding drops an entry only at the limit, only one, and the one touched longest ago; the added key stays |
| DnsCache.AddedStaysIffRoom | code/default/lib/noarch/aiohttp/connector.py:879-881 | an added key is cached afterwards if and only if the limit is at least 1 |
| DnsCache.EntryIsLastAdd | code/default/lib/noarch/aiohttp/connector.py:870-897 | a cached key holds the list of its last add, turned once for each use since, and the time of that add |
| DnsCache.NextIsRotation | code/default/lib/noarch/aiohttp/connector.py:891-897 | the list handed out after k uses is that list rotated by k |
| DnsCache.EachLeadsOnce | code/default/lib/noarch/aiohttp/connector.py:891-897 | the first elements of n calls in a row are the n addresses in order, each once |
| DnsCache.DNSCacheTable.Add | code/default/lib/noarch/aiohttp/connector.py:870-881 | the in-place method computes the table function |
| DnsCache.DNSCacheTable.Remove | code/default/lib/noarch/aiohttp/connector.py:883-885 | entry and timestamp go together |
| DnsCache.DNSCacheTable.Clear | code/default/lib/noarch/aiohttp/connector.py:887-889 | nothing is left |
| DnsCache.DNSCacheTable.NextAddrs | code/default/lib/noarch/aiohttp/connector.py:891-897 | one whole turn from the present position, which moves on by one; a missing key and an empty list raise and change nothing |
| DnsCache.DNSCacheTable.Expired | code/default/lib/noarch/aiohttp/connector.py:899-903 | by the timestamp, which a cached key always has |

## Left out

- Session `start`, `stop`, `reset` and login: the model is one running session from the state `start` sets, so a reply with status 521, an error reply that resets or stops the session, and entries of another session are not steps; nothing is claimed about `stop` finishing, whose `close_all_connections` holds the session lock that `remove_conn_async` takes again.
- Encryption of packets, statistics, quota, `target_on_roads` and the server time offset: easy or heuristic; the digest of a reply is not computed, because no reply that carries one is accepted.
- Buffers.ReadReply: the status, the announced length and the bytes after the sections are not part of it; `RoundTrips.EntryLeavesIffReplyWellFormed` has them.
- `get_timeout_list`: with its default for `retry_time` its result is empty for every positive timeout, so the download timeout section carries nothing to state.
- Handler calls after the receive lock is released: two tasks may interleave them, so block order is stated where blocks are released, and connection order where the second number restores it.
- `download_data_processor` skips frames of unknown connections; the frame theorems speak of the frames decoded, not of the connection table.
- SendBuffer.AsyncSendBuffer.Add: stored blocks are byte values, where the program stores each in a WriteBuffer of its own; no other code writes to them.
- Session.AsyncProxySession.GetData: requires numbers and lengths that fit 32 bits, as `struct.pack` does; the exception beyond them is not modelled.
- Session.AsyncProxySession.GetAck: requires numbers that fit 32 bits, for the same reason.
- TunnelRecovery.RunRecoversIffAckFits: requires fewer than 2^32 - 1 bytes on each side, a max_payload below 2 GiB and a server that holds fewer than 2^30 - 1 blocks out of order, so that no other field of the packets is left; the transfer number and the timeout of a request are in `RoundTrips`.
- AckTooLong.LostReplyStopsRequests: requires full blocks of at most 262127 bytes, so that all of them together are in range.
- The peer side's `_do_connect`, `add_sock` and the readers: their outcomes are inputs; a close whose reason reports too many connections resets the session and is modelled as a plain close.
- Connections numbered past 2^32, and ids of connections: a run is one connection.
- Pool: proxies, traces, TLS transports, forced closing (folded into the `close` input), the timer that schedules `_cleanup` (a clean-up may happen at any time), and cancelled waiters, since a woken waiter that is cancelled passes its wake-up to nobody.
- Race: SystemExit and KeyboardInterrupt, and the exception that `start_connection` raises when all attempts failed.
- Addresses.AddrList.Reconnect: addresses are numbers, and which of them denote the same address is a function given as input; the loop runs over the passes given, so one that does not end is a result still trying.
- Interleave.InterleaveAddrinfos: requires a nonempty list when more than one of the first family is asked for, because the program then indexes the first group.
- ChunkedReader.Response.ReadPlain: a read to the end of the stream (`read_len` None) is not modelled; `ReadAll` covers the chunked branch only.
- ChunkedReader.Response.ReadChunk: Python's `int(line, 16)` also accepts signs, spaces, underscores and a 0x prefix, which count as a bad size here.
- Rc4.RC4Cipher.constructor: requires a nonempty key; the program divides by its length.
- The other ciphers, the key cache, launchers, the web interface, the updater, configuration and front selection: input and output, or easy.
