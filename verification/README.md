# An RPC library with at-most-once delivery, and a lock server on it

The repository is a small RPC system: clients that number their calls and
retransmit them, a server that answers duplicates from a window of saved replies,
the marshalling and framing under both, the threads and queues that drive them, and
a blocking lock server on top. This project models that system in Dafny and proves
what it is for.

- `XidWindow.dfy`: the client's acknowledgement list.
- `ReplyTable.dfy`: the server's reply window, lower bound and seen set, proved to
  stand for a simple history of each client.
- `AtMostOnce.dfy`: clients, network and a restarting server as one state machine;
  at-most-once execution and the end-to-end guarantee. `Delivery.dfy`: what each step
  delivers, and that the first reply or a cancel decides a call. `Progress.dfy`: that
  calls get through from every reachable state. `RpcClient.dfy`: the client object
  that takes its client steps.
- `LockServer.dfy`, `LockPool.dfy`, `LockOverRpc.dfy`, `LockProgress.dfy`: the lock
  server with its sleepers, its handlers on the fixed pool of dispatch threads, locks
  over the RPC protocol, and that free locks can be taken and held ones released.
- `Marshall.dfy`, `MarshallObjects.dfy`, `Framing.dfy`, `Transfer.dfy`: values to bytes
  and back, the buffer objects, PDUs over partial reads and writes, and that every PDU
  gets through.
- `Fifo.dfy`, `ThreadPool.dfy`, `PollMgr.dfy`, `SelectAio.dfy`, `RefCount.dfy`,
  `Deadline.dfy`: the queue, pool shutdown, the removal handshake of the poll
  thread, the descriptor sets, connection references and the retransmission loop.

Concurrent code is a state machine whose steps are the critical sections between
two lock operations; a property of it is proved for every state of every run. Code
that changes an object is a class whose methods are proved to do to the object what
the corresponding function does to a value, and the lemmas are about the functions.
A failed VERIFY in the source is a precondition of the step, and that no run reaches
one is part of the run theorems.

Assumptions: xids do not wrap around; client nonces are nonzero and distinct, and a
restarted server draws a nonce not used before; the network loses, repeats and
reorders messages but does not invent them; a saved reply is a value; a handler
returns a status >= 0, as dispatch itself demands; jobs and callbacks end.

Where the code and its comments differ, the code is modelled:

- A trim drops replies with an xid strictly below xid_rep (rpc/rpc.cc:676); the
  comment says up to and including it (rpc/rpc.cc:650).
- A FORGOTTEN request is entered in the seen set as well (rpc/rpc.cc:690-697), so
  its next copy is INPROGRESS; the exact verdict is that of the history only above
  the bound.
- The seen set is cut only when xid_rep itself is in it (rpc/rpc.cc:683-685).
- A reply may be added below the bound, for a call the client gave up.
- An answered xid is reported twice (rpc/rpc.cc:293, rpc/rpc.cc:362), so the
  acknowledgement list may hold repeats.
- add_timespec carries only above one second (rpc/rpc.cc:1091), so exactly one
  second of nanoseconds may remain.
- cancel overwrites a reply that has already arrived (rpc/rpc.cc:169-179).

## Model

| member | source | states |
|---|---|---|
| `XidWindow.InsertSpec` | rpc/rpc.cc:394-400 | Inserting keeps the list sorted, adds exactly the new xid, and leaves the front when the xid is not below it |
| `XidWindow.PopSpec` | rpc/rpc.cc:403-407 | A pop never removes the node under the iterator and keeps what the list stands for |
| `XidWindow.CompressSpec` | rpc/rpc.cc:402-407 | The compress loop ends with a sorted, fully compressed list of the same meaning |
| `XidWindow.ReportSpec` | rpc/rpc.cc:384-408 | A report adds exactly one xid to the acknowledged ones; the front never moves back |
| `XidWindow.FrontIsLargestPrefix` | rpc/rpc.cc:384-408 | After any reports, in any order and with repeats, the front is the largest n with all of 1..n reported |
| `XidWindow.XidRepWindow.constructor` | rpc/rpc.cc:124-125 | The list starts as [0], well-formed |
| `XidWindow.XidRepWindow.UpdateXidRep` | rpc/rpc.cc:384-408 | The object's list becomes the reported list and acknowledges exactly one more xid |
| `XidWindow.XidRepWindow.InsertInOrder` | rpc/rpc.cc:394-400 | The search loop inserts before the first larger node |
| `XidWindow.XidRepWindow.CompressFront` | rpc/rpc.cc:402-407 | The nested loops compute the compressed list |
| `ReplyTable.TrimExact` | rpc/rpc.cc:675-679 | A trim removes exactly the entries below xid_rep and keeps the rest in order |
| `ReplyTable.CheckVerdict` | rpc/rpc.cc:659-723 | Above the raised bound the verdict is the history's (NEW iff never asked, DONE iff replied, with that reply, INPROGRESS otherwise); at or below it never NEW; a reply handed back is the recorded one |
| `ReplyTable.CheckRefines` | rpc/rpc.cc:659-723 | After any request the three structures of every client still stand for the extended history |
| `ReplyTable.CheckConserves` | rpc/rpc.cc:675-679 | Trimming frees exactly the buffers it drops, each once |
| `ReplyTable.CheckUpdates` | rpc/rpc.cc:669-697 | Exactly the replies acknowledged beyond the bound leave the window and are freed once each; the seen set is cut only if xid_rep is in it and gains the xid; the bound is the larger one; other clients are untouched |
| `ReplyTable.CheckAnswers` | rpc/rpc.cc:700-721 | Each of the four verdicts if and only if its condition on the old window, seen set and bound, below the bound as above |
| `ReplyTable.AddableWhenRunning` | rpc/rpc.cc:742-747 | The VERIFYs of add_reply hold for a call not yet replied |
| `ReplyTable.AddReplyRefines` | rpc/rpc.cc:730-755 | A saved reply keeps the window strictly sorted and in step with the history, even below the bound |
| `ReplyTable.AddReplyConserves` | rpc/rpc.cc:730-755 | The buffer handed over is in one window exactly once |
| `ReplyTable.AllowedIsVerified` | rpc/rpc.cc:672-691 | No VERIFY on the tables can fail for an event that dispatch brings about |
| `ReplyTable.EveryRunIsAtMostOnce` | rpc/rpc.cc:552-771 | For any requests with any xid and xid_rep and any late replies: no VERIFY fails, each (client, xid) is NEW at most once, the tables refine the history, each buffer is in one window or freed once |
| `ReplyTable.EveryCheckIsExact` | rpc/rpc.cc:659-723 | In every run each request trims, frees and is answered exactly so |
| `ReplyTable.Rpcs.constructor` | rpc/rpc.cc:411-432 | The tables start empty |
| `ReplyTable.Rpcs.AdmitClient` | rpc/rpc.cc:552-563 | Afterwards the client has a window, empty if it had none; nothing else changes |
| `ReplyTable.Rpcs.TrimWindow` | rpc/rpc.cc:676-679 | The loop drops and frees exactly the leading entries below xid_rep |
| `ReplyTable.Rpcs.RaiseBound` | rpc/rpc.cc:669-688 | Bound, window and seen set become those of Raise, whose effect CheckUpdates states |
| `ReplyTable.Rpcs.FindReply` | rpc/rpc.cc:700-711 | The scan finds the first entry with this xid, if there is one |
| `ReplyTable.Rpcs.CheckDuplicateAndUpdate` | rpc/rpc.cc:659-723 | New tables and verdict are those of Check, told exactly by CheckUpdates and CheckAnswers |
| `ReplyTable.Rpcs.SaveReply` | rpc/rpc.cc:730-755 | The reply enters the window at its sorted place |
| `ReplyTable.Rpcs.FreeClient` | rpc/rpc.cc:764-769 | Frees every buffer of one client's window |
| `ReplyTable.Rpcs.FreeReplyWindow` | rpc/rpc.cc:757-771 | Afterwards every buffer ever given to add_reply has been freed exactly once |
| `AtMostOnce.BeginKeepsClient` | rpc/rpc.cc:195-215 | A new call takes a fresh xid and a header whose xid_rep acknowledges no pending call |
| `AtMostOnce.TakeReplyKeepsClient` | rpc/rpc.cc:348-382 | Taking in a reply keeps the client in order and its front from moving back; what it delivers is in GotReplyExactly |
| `AtMostOnce.EndKeepsClient` | rpc/rpc.cc:286-298 | So does the end of a call, after a reply or a timeout |
| `AtMostOnce.CancelKeepsClient` | rpc/rpc.cc:163-186 | Cancelling keeps the client in order; what it does to the calls is in CancelExactly |
| `AtMostOnce.BindNamesInstance` | rpc/rpc.cc:146-161 | A bind that returned 0 carries the nonce of an instance that really ran |
| `AtMostOnce.EnabledCanTake` | rpc/rpc.cc:672-691 | No VERIFY of the tables stops a step that the protocol can take |
| `AtMostOnce.StepKeeps` | rpc/rpc.cc:188-382 | Every step of client, server and network keeps the invariant of the protocol |
| `AtMostOnce.RunsKeepInv` | rpc/rpc.cc:188-755 | In every run, with losses, duplicates, reordering and restarts, no VERIFY fails and the invariant holds |
| `AtMostOnce.AtMostOneRun` | rpc/rpc.cc:523-531 | A call that is not a bind has run once if the instance it names ran it, else never |
| `AtMostOnce.NoCallRunsTwice` | rpc/rpc.cc:498-643 | In every run a call other than bind runs at most once over all instances, and any call at most once on each |
| `AtMostOnce.AnsweredCallsRanExactlyOnce` | rpc/rpc.cc:188-382 | In every run a call that returned a value >= 0 had its handler run exactly once and returned what that run produced |
| `AtMostOnce.PendingIsRemembered` | rpc/rpc.cc:669-688 | While a call is pending the server's bound is below its xid, its saved reply is in the window, and no request of the client acknowledges it |
| `AtMostOnce.RetransmissionAnswered` | rpc/rpc.cc:629-633 | Every copy of a pending call's request gets the history's verdict, never FORGOTTEN; after the handler finished it brings back its very reply |
| `AtMostOnce.WantedReplySurvives` | rpc/rpc.cc:675-679 | No step but a restart discards the saved reply of a call still pending |
| `AtMostOnce.ClassifyEffect` | rpc/rpc.cc:578-602 | A dispatched request is run exactly if it is NEW, and touches no client |
| `Delivery.BeginExactly` | rpc/rpc.cc:195-215 | A call takes the next xid and waits, and its request with the client's nonce, binding and front is on the network |
| `Delivery.GotReplyExactly` | rpc/rpc.cc:348-382 | A reply completes the waiting call with its own status and body; finished, ended and other calls keep theirs; the xid is acknowledged |
| `Delivery.ReturnExactly` | rpc/rpc.cc:286-323 | A call returns what completed it, the timeout failure if nothing did, and is acknowledged |
| `Delivery.CancelExactly` | rpc/rpc.cc:163-186 | Every outstanding call fails with the cancel failure, finished ones included, and new calls are barred if there were any |
| `Delivery.BindExactly` | rpc/rpc.cc:152-155 | The client is bound to the nonce in the reply |
| `Delivery.RestartExactly` | rpc/rpc.cc:411-432 | A restarted server has its new nonce and knows no client |
| `Delivery.RejectExactly` | rpc/rpc.cc:522-531 | A request for another instance is answered with oldsrv_failure |
| `Delivery.AdmittedCanBeChecked` | rpc/rpc.cc:552-579 | After admission the request can be checked, and the tables say what they said |
| `Delivery.ClassifyReplies` | rpc/rpc.cc:629-640 | DONE sends the saved reply, FORGOTTEN sends atmostonce_failure, NEW and INPROGRESS send nothing yet |
| `Delivery.HandlerDoneExactly` | rpc/rpc.cc:601-623 | The handler's result is recorded and sent |
| `Delivery.EverythingIsSent` | rpc/rpc.cc:601-623 | In every run each call's request and each handler's result are on the network |
| `Delivery.FirstReplyDecides` | rpc/rpc.cc:370-379 | In every run the first reply to reach a waiting call is what it returns, whatever arrives later, unless it is cancelled |
| `Delivery.CancelDecides` | rpc/rpc.cc:169-179 | In every run a call outstanding at a cancel returns the cancel failure, whatever replies arrive |
| `Delivery.CancelBars` | rpc/rpc.cc:204-206 | In every run, after a cancel that found a call outstanding the client never begins another |
| `Progress.CallCanReturn` | rpc/rpc.cc:188-382 | From every reachable state a waiting call to the live instance whose handler has not finished there can return any result the handler may have |
| `Progress.FinishedCallCanReturn` | rpc/rpc.cc:601-623 | One whose handler has finished can return that result |
| `Progress.ClientCanBind` | rpc/rpc.cc:146-161 | From every reachable state an unbound client can bind to the live instance |
| `Progress.NewClientIsServed` | rpc/rpc.cc:188-382 | From every reachable state a new client can join, bind and have any call answered with any result |
| `RpcClient.Rpcc.constructor` | rpc/rpc.cc:101-130 | A new client is the initial client of the protocol |
| `RpcClient.Rpcc.StartCall` | rpc/rpc.cc:195-215 | Exactly which calls are refused, with which code and nothing changed; otherwise the next xid waits and the request carries nonces and front |
| `RpcClient.Rpcc.GotPdu` | rpc/rpc.cc:348-382 | A waiting call gets exactly the reply's status and body, every other call is left alone, and exactly this xid is acknowledged in addition |
| `RpcClient.Rpcc.FinishCall` | rpc/rpc.cc:286-323 | The call leaves the table, is acknowledged, and returns its reply or the timeout failure |
| `RpcClient.Rpcc.CancelAll` | rpc/rpc.cc:163-186 | The same calls are outstanding, each failed with cancel_failure, and new ones are barred exactly if they were or any was outstanding |
| `RpcClient.Rpcc.FinishBind` | rpc/rpc.cc:146-161 | A reply 0 binds the client to the nonce in it; any other changes nothing |
| `LockServer.StepAwaits` | lock_server.cc:35-64 | With any number of locks a step strands the sleepers of a lock if and only if it is a release of that lock whose one signal goes to a waiter for another lock while no waiter for this one is on its way |
| `LockServer.NoLostWakeup` | lock_server.cc:35-64 | In every run the sleepers of a lock are awaited all along (whenever it is free and someone sleeps on it, someone who wants it has been signalled and is yet to retry) if and only if no release of it is misdirected |
| `LockServer.OneLockLosesNoWakeup` | lock_server.cc:35-64 | In every run where all threads want one lock no wakeup is lost, under any barging |
| `LockServer.TwoLocksLoseWakeup` | lock_server.cc:56-64 | A run with two locks after which a lock is free, its waiter sleeps and nobody is signalled |
| `LockServer.LockServer.constructor` | lock_server.cc:10-15 | No lock is held and nobody waits |
| `LockServer.LockServer.TryGet` | lock_server.cc:73-83 | Succeeds iff the lock is free, and then records the client |
| `LockServer.LockServer.AcquireFirst` | lock_server.cc:30-44 | acquire up to the grant or the wait |
| `LockServer.LockServer.AcquireAgain` | lock_server.cc:37-43 | One turn of the wait loop |
| `LockServer.LockServer.ReleaseLock` | lock_server.cc:52-71 | For the recorded owner the lock is gone and one sleeper is woken; for anybody else RETRY and no change |
| `LockPool.StepKeeps` | rpc/thr_pool.cc:7-19 | Every job started and every turn of a waiting handler keeps each worker in one place |
| `LockPool.StartsExactly` | rpc/rpc.cc:429-452 | The next job, a release among others, can be started at once if and only if fewer handlers wait than there are workers |
| `LockPool.StartExactly` | rpc/thr_pool.cc:7-19 | What a started job does: the owner's release frees the lock and signals, an acquire takes a free lock or makes its worker wait |
| `LockPool.EverStartsExactly` | lock_server.cc:35-64 | It can ever be started if and only if not all workers wait with every signalled one finding its lock held |
| `LockPool.StuckForever` | lock_server.cc:35-64 | In a pool stuck that way, whatever arrives, no job is ever started again and no lock changes hands |
| `LockPool.WedgedForever` | lock_server.cc:35-44 | The same under spurious wakeups, when every waiter's lock is held |
| `LockPool.WaitersStarveRelease` | lock_server.cc:35-44 | For any number of workers, six included, a run after which as many acquires wait as there are workers and the holder's release stays queued for good |
| `LockOverRpc.GrantIsCounted` | lock_client.cc:34-48 | An acquire that returned OK from the live instance and is not released is a counted grant of its lock |
| `LockOverRpc.NewNeverRan` | rpc/rpc.cc:578-591 | A request answered NEW has not been executed before |
| `LockOverRpc.ReleaseSucceeds` | lock_server.cc:85-99 | A release handler always finds its lock held by its own client |
| `LockOverRpc.LockStepKeeps` | lock_server.cc:30-99 | Every step of lock clients, RPC and lock server keeps the lock invariant |
| `LockOverRpc.LockRunsKeepInv` | lock_server.cc:30-99 | Every run keeps the invariants of the protocol and of the locks |
| `LockOverRpc.AtMostOneHolder` | lock_server.cc:30-99 | In every run, for every lock, grants not released plus releases not executed are exactly one if the lock is in the map and zero if not, and belong to the recorded client |
| `LockOverRpc.MutualExclusion` | lock_client.cc:34-58 | Two acquires of a lock that both returned OK from the live instance, neither released, are the same call |
| `LockOverRpc.ReleasesNeverRetry` | lock_client.cc:50-58 | In every run each executed release frees the lock and answers OK |
| `LockProgress.AcquireCanSucceed` | lock_server.cc:30-50 | From every reachable state a running acquire of a free lock can be granted and return OK to a caller that then holds it |
| `LockProgress.ReleaseCanSucceed` | lock_server.cc:52-71 | A running release frees its lock and can return OK |
| `LockProgress.FreeLockCanBeTaken` | lock_client.cc:34-48 | From every reachable state a client bound to the live instance can take any free lock |
| `LockProgress.HolderCanRelease` | lock_client.cc:50-58 | From every reachable state the holder of a lock can release it, and the call returns OK |
| `LockProgress.NewClientCanBind` | rpc/rpc.cc:146-161 | From every reachable state a new lock client can bind to the live instance |
| `Marshall.BERoundTrip` | rpc/rpc.cc:844-853 | Big-endian bytes read back as the number |
| `Marshall.BigEndian` | rpc/rpc.cc:829-876 | The bytes are those the source's shifts put out, highest first, 64 bits as two words |
| `Marshall.BitsRoundTrip` | rpc/rpc.cc:807-860 | The bits are the number modulo 2 to the width, and read back as every value of the type |
| `Marshall.DecodeEncode` | rpc/marshall.h:211-259 | For every type of the recursive universe, decoding an encoded value followed by anything gives it back and stops exactly at its end |
| `Marshall.DecodeEncodeStr` | rpc/rpc.cc:862-868 | The same for strings |
| `Marshall.DecodeEncodeVec` | rpc/marshall.h:211-231 | The same for vectors of any element type |
| `Marshall.DecodeEncodeMap` | rpc/marshall.h:233-259 | The same for maps, through insertion in any strict key order |
| `Marshall.DecodeExt` | rpc/rpc.cc:917-1017 | A decode that ends ok was ok all along and goes the same way in any longer buffer |
| `Marshall.HeaderRoundTrip` | rpc/marshall.h:83-108 | Packing a header changes no payload byte and not the channel's four bytes, and the words read back |
| `Marshall.MessageRoundTrip` | rpc/marshall.h:175-198 | A whole message gives back header words and arguments with okdone |
| `Marshall.CutMessageRejected` | rpc/rpc.cc:907-915 | No strict prefix of a message satisfies okdone |
| `Marshall.ReplyRoundTrip` | rpc/rpc.cc:896-905 | The client's way, through take_in, gives back status and result with okdone |
| `Marshall.CutReplyRejected` | rpc/rpc.cc:896-915 | Although take_in sets ok anew from the size alone, no strict prefix of a reply satisfies okdone |
| `MarshallObjects.Writer.constructor` | rpc/marshall.h:53-58 | An empty writer stands behind the header |
| `MarshallObjects.Writer.RawByte` | rpc/rpc.cc:782-792 | Appends a byte, growing the array when full, in place otherwise |
| `MarshallObjects.Writer.RawBytes` | rpc/rpc.cc:794-805 | Appends the bytes; the new capacity always suffices |
| `MarshallObjects.Writer.PutInt` | rpc/rpc.cc:844-853 | Appends the big-endian bytes |
| `MarshallObjects.Writer.PutValue` | rpc/rpc.cc:807-876 | Appends the encoding of any value |
| `MarshallObjects.Writer.PutString` | rpc/rpc.cc:862-868 | Appends length and bytes |
| `MarshallObjects.Writer.PutVector` | rpc/marshall.h:211-218 | The loop appends length and elements |
| `MarshallObjects.Writer.PutMap` | rpc/marshall.h:233-243 | The loop appends length and entries |
| `MarshallObjects.Writer.PackHeaderWords` | rpc/marshall.h:83-108 | Rewinds, overwrites the header words in place and restores the write head |
| `MarshallObjects.Reader.NextByte` | rpc/rpc.cc:917-926 | The next byte, or zero and ok cleared at the end |
| `MarshallObjects.Reader.GetInt` | rpc/rpc.cc:966-974 | The loop reads a big-endian number as the specification does, past the end too |
| `MarshallObjects.Reader.GetBytes` | rpc/rpc.cc:1006-1017 | All the bytes, or none and ok cleared |
| `MarshallObjects.Reader.GetValue` | rpc/rpc.cc:928-1004 | The object's read of any type is the specification's decode |
| `MarshallObjects.Reader.GetElements` | rpc/marshall.h:220-231 | The vector loop is DecodeAll |
| `MarshallObjects.Reader.GetEntries` | rpc/marshall.h:245-259 | The map loop is DecodePairs |
| `Framing.WriteSpec` | rpc/connection.cc:222-244 | A write puts out the next bytes of the framed PDU and nothing else |
| `Framing.ReadSpec` | rpc/connection.cc:246-296 | A read that does not end the connection continues the next PDU on the wire; when it ends it is in ReadEndsExactly |
| `Framing.StepKeeps` | rpc/connection.cc:123-296 | Every send, write, read and failure keeps both ends in step with the wire |
| `Framing.WireIsWholePdus` | rpc/connection.cc:123-296 | In every run the wire is whole PDUs in send order plus at most a part of the last, and the consumer took a prefix of them, whole, in order and once each |
| `Framing.NothingLost` | rpc/connection.cc:192-220 | While the receiver lives every byte read is in a PDU taken by the consumer or in the read buffer, even if PDUs are refused |
| `Framing.TrueMeansSent` | rpc/connection.cc:161-166 | A send that returned true has all its bytes on the wire |
| `Transfer.ReadEndsExactly` | rpc/connection.cc:246-296 | In every run a read event ends a live receiver if and only if it read and the length came short, failed or exceeded MAX_PDU, or the body read failed |
| `Transfer.WriteEndsExactly` | rpc/connection.cc:222-244 | A write ends a live sender if and only if it fails with bytes still to go |
| `Transfer.ReadAdvances` | rpc/connection.cc:192-220 | Any read of an ordinary PDU on the wire brings exactly its next bytes and offers it once complete |
| `Transfer.RefusedIsOfferedAgain` | rpc/connection.cc:213-219 | A refused PDU is offered again, whole, at the next event |
| `Transfer.EverySplitIsRead` | rpc/connection.cc:192-296 | A PDU of at most MAX_PDU bytes wholly on the wire reaches the consumer as exactly its frame, for every split into reads |
| `Transfer.EverySplitIsSent` | rpc/connection.cc:123-190 | On a live, idle connection send puts exactly the frame on the wire and returns true, for every split into writes |
| `Transfer.SentIsReady` | rpc/connection.cc:123-296 | What has been sent so is ready for a receiver that has taken everything before |
| `Framing.Connection.WriteSome` | rpc/connection.cc:222-244 | writepdu on the object is WritePdu |
| `Framing.Connection.StartSend` | rpc/connection.cc:135-151 | The first part of send: takes the buffer and writes once |
| `Framing.Connection.WriteCallback` | rpc/connection.cc:169-190 | write_cb writes on, or marks the connection dead |
| `Framing.Connection.EndSend` | rpc/connection.cc:161-166 | True exactly if alive and complete; the buffer is free again |
| `Framing.Connection.ReadSome` | rpc/connection.cc:246-296 | readpdu on the object is ReadPdu, told exactly by ReadEndsExactly and ReadAdvances |
| `Framing.Connection.ReadCallback` | rpc/connection.cc:192-220 | read_cb collects and offers; a refused PDU is kept |
| `SelectAio.HighestSpec` | rpc/pollmgr.cc:199-206 | The downward search gives the largest watched descriptor up to a bound |
| `SelectAio.UnwatchExact` | rpc/pollmgr.cc:182-215 | Unwatching anything but the pipe keeps highfds_ exact |
| `SelectAio.HighIsExact` | rpc/pollmgr.cc:149-215 | After any operations that leave the pipe alone highfds_ is the largest watched descriptor |
| `SelectAio.MembershipExactly` | rpc/pollmgr.cc:149-195 | Watching and unwatching change the membership of the one descriptor in the sets the flag names, and no other |
| `SelectAio.SelectAIO.constructor` | rpc/pollmgr.cc:128-142 | Only the pipe is watched |
| `SelectAio.SelectAIO.WatchFd` | rpc/pollmgr.cc:149-167 | The descriptor is added to exactly the sets the flag names; highfds_ stays exact; the pipe gets a byte |
| `SelectAio.SelectAIO.HighestWatched` | rpc/pollmgr.cc:199-206 | The loop finds the largest watched descriptor |
| `SelectAio.SelectAIO.UnwatchFd` | rpc/pollmgr.cc:182-215 | The descriptor leaves exactly the sets the flag names, and the result says whether it is gone; highfds_ stays exact |
| `SelectAio.SelectAIO.Copy` | rpc/pollmgr.cc:223-229 | Sets and bound copied together, the bound exact for the copied sets |
| `SelectAio.SelectAIO.ScanReady` | rpc/pollmgr.cc:243-256 | The scan up to the copied bound reports every ready descriptor but the pipe, each once, in order, whatever was watched or unwatched meanwhile |
| `PollMgr.StepKeeps` | rpc/pollmgr.cc:57-126 | Every step of removers and poll thread keeps the handshake invariant |
| `PollMgr.NoCallbackAfterRemoval` | rpc/pollmgr.cc:57-68 | After block_remove_fd returned no callback for the descriptor runs or is queued until it is registered again |
| `PollMgr.BlockedExactly` | rpc/pollmgr.cc:217-257 | The poll thread can move without an event on a descriptor if and only if it is not in select with an empty pipe |
| `PollMgr.PollThreadCanMove` | rpc/pollmgr.cc:182-257 | In every run, while a remover waits there is a byte in the pipe or the poll thread is past select; in select its return is enabled by that byte alone |
| `PollMgr.WaiterIsReleased` | rpc/pollmgr.cc:89-126 | Each step of the poll thread releases the remover or comes strictly nearer; no other thread sets it back |
| `PollMgr.OnlyNearer` | rpc/pollmgr.cc:89-126 | In every run, as long as a remover waits the poll thread only comes nearer to releasing it, strictly with each step it takes |
| `PollMgr.ReleasedUnaided` | rpc/pollmgr.cc:89-126 | From any state with a waiting remover the poll thread's own steps lead to its release |
| `PollMgr.ServeExactly` | rpc/pollmgr.cc:114-124 | Serving a ready descriptor runs its callback if it has one |
| `PollMgr.EachReadyServedOnce` | rpc/pollmgr.cc:114-124 | In every run, between a return of select and the end of its calls each descriptor reported ready is served exactly once, and no other |
| `PollMgr.WatchedIsCalled` | rpc/pollmgr.cc:96-124 | A watched descriptor with a callback, once ready, gets it run |
| `PollMgr.AddExactly` | rpc/pollmgr.cc:45-55 | Registering watches the descriptor as asked, gives it a callback and wakes the poll thread |
| `PollMgr.DelExactly` | rpc/pollmgr.cc:70-77 | Unregistering drops the callback exactly if the descriptor is watched no more |
| `PollMgr.RemoveExactly` | rpc/pollmgr.cc:57-66 | block_remove_fd unwatches, writes the byte, sets the flag and waits |
| `PollMgr.RemoveEndExactly` | rpc/pollmgr.cc:66-68 | At its end exactly this callback is cleared |
| `Fifo.StepKeeps` | rpc/fifo.h:56-92 | Every turn of enq and deq keeps the limit and loses no wakeup |
| `Fifo.FirstInFirstOut` | rpc/fifo.h:56-92 | In every interleaving what came out followed by what is queued is what went in; the limit holds; sleepers never outlast items or slots without someone on the way |
| `Fifo.FifoQueue.constructor` | rpc/fifo.h:31-38 | An empty queue with its limit |
| `Fifo.FifoQueue.EnqOnce` | rpc/fifo.h:56-72 | A turn of enq: adds and signals, sleeps, or gives up |
| `Fifo.FifoQueue.DeqOnce` | rpc/fifo.h:74-92 | A turn of deq: takes the front and signals, or sleeps |
| `ThreadPool.StartInv` | rpc/thr_pool.cc:36-44 | Any queue contents and any places of the workers satisfy the shutdown invariant |
| `ThreadPool.PoolStepKeeps` | rpc/thr_pool.cc:7-68 | Every step of destructor and workers keeps it: pills queued, still to come and taken add up to the workers; no task stands behind a pill |
| `ThreadPool.StepDecreases` | rpc/thr_pool.cc:7-68 | Every step makes a natural number smaller |
| `ThreadPool.SomeoneCanMove` | rpc/thr_pool.cc:38-51 | Until every worker has exited somebody can move, so neither workers nor destructor can all be asleep |
| `ThreadPool.ShutdownCompletes` | rpc/thr_pool.cc:38-51 | Shutdown takes boundedly many steps; when nothing can move all queued tasks have run once each and in order, every worker took one pill and exited, and the queue is empty |
| `ThreadPool.ShutdownCanEnd` | rpc/thr_pool.cc:38-51 | However a shutdown has gone so far, it can be continued until every worker has exited |
| `ThreadPool.SomeStart` | rpc/thr_pool.cc:23-34 | The starting condition is met by a pool of one idle worker |
| `RefCount.DecrefKeeps` | rpc/connection.cc:83-100 | Giving up a reference keeps all counts exact and deletes the object iff it was the last |
| `RefCount.StepKeeps` | rpc/rpc.cc:326-342 | Every small step of get_refconn, of ending calls, of dying connections and of the destructor keeps the counts |
| `RefCount.CountsAreExact` | rpc/rpc.cc:326-342 | In every run refno_ is the number of holders, positive on a live connection, and the object was deleted once if nobody holds it, else never |
| `RefCount.NoUseAfterDelete` | rpc/rpc.cc:318-341 | Neither chan_ nor a call ever points to a deleted connection |
| `RefCount.NothingLeaks` | rpc/rpc.cc:132-145 | After the client's destructor every connection it made is deleted |
| `RefCount.GetRefconnDelivers` | rpc/rpc.cc:326-342 | Undisturbed and able to connect, get_refconn leaves the call with a reference to a live channel, the old one or a new one |
| `RefCount.Connection.constructor` | rpc/connection.cc:20-37 | A new connection has one reference |
| `RefCount.Connection.IncrefConn` | rpc/connection.cc:52-57 | One more reference |
| `RefCount.Connection.DecrefConn` | rpc/connection.cc:83-100 | One fewer, deleting a dead connection at zero |
| `RefCount.Connection.CloseConn` | rpc/connection.cc:66-81 | The connection is dead |
| `RefCount.Channel.GetRefconn` | rpc/rpc.cc:326-342 | Whatever is aliased: a live channel is kept, a dead one is dropped and replaced, and the caller's reference moves to it |
| `Deadline.AddPreservesTotal` | rpc/rpc.cc:1084-1095 | The result is the exact instant, with at most one second of nanoseconds |
| `Deadline.AddMayLeaveAWholeSecond` | rpc/rpc.cc:1091-1094 | Exactly one second of nanoseconds can remain |
| `Deadline.AddTimespec` | rpc/rpc.cc:1084-1095 | The carry loop computes the closed form |
| `Deadline.CmpExactly` | rpc/rpc.cc:1067-1082 | Never the wrong way round, and exact if and only if the two are not the two spellings of one instant |
| `Deadline.PassDeadline` | rpc/rpc.cc:255-260 | A pass waits no longer than the final deadline, and is cut there whenever it would pass it |
| `Deadline.NoOverflow` | rpc/rpc.cc:283-284 | The wait that will be used after a doubling never overflows |
| `Deadline.LeastExist` | rpc/rpc.cc:222-284 | The two bounds on the number of passes exist for every timeout |
| `Deadline.PassKeeps` | rpc/rpc.cc:255-284 | A pass that is not cut short is early enough for the doubled wait not to overflow; one that is cut waits for the final deadline |
| `Deadline.Passes` | rpc/rpc.cc:227-285 | The loop from its final deadline on: all waits end by it, giving up follows a wait for exactly it, and the passes are bounded |
| `Deadline.WaitLoop` | rpc/rpc.cc:217-285 | For any timeout and clock: no wait passes the final deadline, giving up happens only after waiting for exactly it, and there are at most K + 2 passes, K least with 1000 * 2^K > timeout (fewer when waits really last) |

## Left out

- Sockets, the accept loop, connect_to_dst, name lookup, environment variables, logging and clocks: input and output; their outcomes are parameters of the steps.
- EPollAIO: never instantiated.
- Server-side connection references and conns_: the old-server path returns without decref (rpc/rpc.cc:523-531), so they do not balance.
- The lifetime of a reply buffer while it is being sent: replies are values.
- Clients with nonce 0 and set_reachable: at-most-once logic does not apply to them.
- Unknown procedures and argument lists that do not decode: dispatch stops the process for both (rpc/rpc.cc:537-543, rpc/rpc.cc:592-598).
- Requests and replies travel as decoded values in AtMostOnce; the byte level is in Marshall and Framing and is not composed with it.
- AtMostOnce.NoCallRunsTwice: a bind carries no server nonce, so it may run once on each instance.
- LockOverRpc.AtMostOneHolder: assumes that a lock client binds once, as its first call, and that a caller releases once per grant; grants of an instance that has been restarted are lost with it, as in the source.
- lock_client's retry loop: acquire never answers RETRY (lock_server.cc:30-50), so its body is not reached; the back-off is not modelled.
- LockServer: fairness, and wakeups after a misdirected signal, are not claimed; TwoLocksLoseWakeup shows why.
- LockPool: the server side alone; handlers other than acquire and release end in the step that starts them.
- LockOverRpc: a handler that waits is granted its lock whenever it is free and the number of workers is not bounded there; the sleepers are in LockServer and the workers in LockPool.
- Framing.WireIsWholePdus: errno is reduced to moved, again or failed; a read that finds nothing on a readable descriptor and closeconn racing with a blocked send are not modelled. waiters_ only decides whether to broadcast.
- PollMgr.WaiterIsReleased: condition waits do not wake spuriously and the caller is not the poll thread; the MAX_POLL_FDS check is left out.
- ThreadPool.ShutdownCompletes: no job is added during destruction, jobs end, and condition waits do not wake spuriously; the worker and destructor loops are steps over the queue, not methods, since they run concurrently.
- Marshall.DecodeEncode: lengths stay below 2^32 and read positions do not overflow an int; the casts are modelled for values in range; a vector is read into an empty one; checksumming is off.
- Deadline.WaitLoop: the clock does not run backwards; a timeout of 1000 * 2^21 ms or more is covered when waits really last until their deadline.
- RefCount.Connection.CloseConn: marks the connection dead; the blocking removal from the poll set that follows is in PollMgr.
- RefCount.StepKeeps: connections that connect_to_dst could not make are Null; VERIFY(!wpdu_.buf) in the destructor is not modelled.
- The templates for one to seven arguments, stat, updatestat, method_thread.h, lock_demo.cc, the main programs and tester programs: they would only add easy members.
