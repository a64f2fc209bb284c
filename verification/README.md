# RULI in Dafny

RULI is an asynchronous stub resolver with a layer for SRV records on top. This
project models its core and proves what the core promises.

| module | models |
|---|---|
| `Fsm` (classes), `FsmModel`, `FsmSteps`, `FsmInvariant`, `FsmRuns`, `FsmDiagram`, `FsmAnswers`, `FsmIdentity`, `FsmEnds` | the query state machine: shared UDP sockets and TCP connections, server rotation, truncation, search suffixes, submit and delete |
| `FsmReaders`, `FsmBodies`, `FsmExample`, `FsmScan`, `FsmUnfinished`, `FsmBroken`, `FsmOrphans` | where it goes wrong: header counts, bodies received on one connection, the scan after a connection, unfinished bodies, finishes of deleted queries |
| `Rotation` | the rotation over name servers |
| `TcpReader` | reassembly of an answer from the bytes of a connection |
| `SrvOrder`, `SrvAnswer`, `SrvWalk` | ordering of SRV records, building of entries, the walk for missing addresses |
| `Host` | address lookup: CNAME following, AAAA then A |
| `Names`, `NameText`, `NameBuffers` | names on the wire, compressed names, names as text |
| `Message`, `Parser`, `MsgBuild` | parsing of messages and record data, building of queries |
| `AddrBits`, `AddrOrder`, `AddrText`, `AddrGrammar` | bit prefixes and policy tables, destination address selection, IPv6 text |
| `RuliList`, `Bytes`, `Families`, `Limits` | the growable array, octets and packed numbers, address families, sizes |

Routines that change records, lists or buffers are methods on classes and arrays,
proved equal to functions on values; the properties are lemmas about those
functions, their compositions and all runs. What sockets, clocks, the random
generator and the allocator answer is a parameter. The event source is taken at
its word: a handler runs only while it is registered, and a receive gives at
least one byte and no more than was asked for.

A failed assertion of the program is an outcome of the model (`Abort`, `Aborted`,
`AssertFails`, `None`, or a result `aborted`), not a precondition, wherever the input
of a peer decides.

Five steps of the program do not do what they are evidently for. The model has them
as they stand and repaired: a field of the configuration, or an argument, called
`repaired` says which, and every result holds for both unless it says otherwise.

## Where the code and its intent part

- Sort by priority (`src/ruli_srv.c:783-791`): the marker cleared after an
  insertion is not the one tested, so an inserted record is pushed a second time.
  `SortByPriority` tests the cleared marker; `SortAsWritten` is the code as it
  stands, with the exact condition under which it is a permutation.
- Clean-up of a deleted query in the TCP send status (`src/ruli_fsm.c:1681-1683`)
  calls the routine of another status, whose assertion fails: `Step` aborts, or uses the
  routine that fits where `repaired` is set.
- A header is matched to a query by id alone (`src/ruli_fsm.c:1466-1488`). A query that
  waits on another connection is taken all the same, and goes on there: two queries may
  come to receive bodies on one connection (`OneBodyExactly`, `TwoBodies`). Where `repaired`
  is set, such a header is treated as one with an unknown id.
- An answer buffer in progress survives leaving the body status, against the
  assertions at `src/ruli_fsm.c:166` and `src/ruli_fsm.c:1505`. `FsmUnfinished` says when
  leaving a body aborts the program, and what becomes of the query otherwise; where
  `repaired` is set, `Leave` frees the buffer.
- A connection closed during a body is not handled (`src/ruli_fsm.c:1569-1583`) and
  fails an assertion: `OnBody` aborts, or treats it as a failed read where `repaired` is set.
- The header count of a connection is reset only when a query starts to wait for a
  header (`src/ruli_fsm.c:550`). `FsmReaders` proves when one reader at a time is
  safe, and that a second one is not.
- Deleting a query leaves its finish scheduled (`src/ruli_res.c:548-610`), and it runs on the
  caller's record, deleted or in use again. `FsmOrphans` says whether it calls back or aborts.
- A connection made at once while the queries of a failed one are moved on makes the
  scan at `src/ruli_fsm.c:1244-1256` meet queries without a descriptor: its assertion
  fails, and `Broken` aborts (`ScanExactly`).
- Joining a name of 255 octets, which is legal, fails an assertion
  (`src/ruli_txt.c:511-512`): `ConcatJoins`, and `ResultFails` in the state machine.
- The flag masks are one OPCODE bit and two Z bits short (`AcceptedFlags`).
- The length limit of the encoder compares text with the wire limit
  (`EncodedTooLong`), and a text that ends in two dots is encoded without them.
- Decoding the root gives the empty text, without a dot.
- Addresses of the first answer of a lookup are lost when the second query fails
  (`LookupResult`).
- Eight words with a double colon behind them are taken for an address whatever follows, and
  so is, behind a double colon, anything that `strtol` reads as a word, or nothing
  (`AtonExactly`).
- Rule 9 compares addresses of one family only; with the IPv6 preference off the
  comparator is not transitive (`PreorderExactly`).
- An owner that ends at the last octet of the message fails an assertion of the parser
  (`src/ruli_parse.c:130`, `src/ruli_parse.c:185`): `MessageAborts`.
- The parser reads the length of the data before it knows that it is in the message
  (`src/ruli_parse.c:199`); where it is not, the record is refused whatever was read. The
  name routines read the second octet of a pointer past the message and go where it says
  (`src/ruli_txt.c:405`), and copy as many octets past the message as the label length says
  before they fail (`src/ruli_txt.c:419`); here both are failures.

## Model

| member | source | states |
|---|---|---|
| `Rotation.SwitchExact` | src/ruli_res.c:655-676 | A successful switch takes exactly one from remaining retries * servers + steps to the first server - 1, and a switch fails exactly when that number is zero. |
| `Rotation.EveryServerEqually` | src/ruli_res.c:655-676 | Wherever the query starts, following the switches until one fails visits every server exactly retries + 1 times. |
| `FsmRuns.RunInv` | src/ruli_fsm.c:285-635 | In every state of every run each counter equals the number of queries in the matching status on that family or server, a read timer is pending exactly in the read statuses, answer buffers fit the status (but for those of unfinished bodies, without the repairs), with the repairs one query per connection at most receives a body, and every query that was started is in a status, is about to finish or has called back. |
| `FsmRuns.RunTries` | src/ruli_res.c:759-878 | In every state of every run a query has called back at most once, has started at most (1 + search suffixes) * servers * (retries + 1) server attempts, and waits, is about to finish, was never started or has called back. |
| `FsmRuns.RunBound` | src/ruli_fsm.c:151-181 | The number of events that change a run and are no submit, delete or partial read is at most the number of submits times a constant of the configuration: no run without the callback outlasts it. |
| `FsmEnds.PartialsBound` | src/ruli_fsm.c:1375-1621 | The reads that leave a header or a body incomplete, with the bytes still missing, are at most 15 per server and 65549 for each other event that changes the run. |
| `FsmEnds.RunRests` | src/ruli_fsm.c:812-1665 | Every run comes to rest: all events that change anything, reads of single bytes and deletions included, are bounded by the number of submits and constants of the configuration. |
| `FsmRuns.StepGood` | src/ruli_fsm.c:812-1665 | Every event but a submit, a delete and a partial read keeps the invariant, lowers the measure (suffixes left, switches left, phase) of one query and raises none. |
| `FsmRuns.StepAborts` | src/ruli_fsm.c:812-1695 | Any event aborts the program exactly in the situations that `Aborts` lists, with and without the repairs; a whole header of a known id, where the repairs do not refuse it, does so exactly when the query it names is in another status, or its flags are right and a buffer is left or the count of the query's own connection is not full. |
| `FsmBodies.OneBodyExactly` | src/ruli_fsm.c:1466-1536 | An event makes two queries receive a body on one connection exactly when it completes a header, with right flags, for a query that waits for one on another connection, without a buffer and with a full count there, where another query is already receiving a body; with the repairs none does. |
| `FsmBodies.OneBodyRuns` | src/ruli_fsm.c:1623-1665 | In every run in which that has not happened yet, one query per connection at most receives a body. |
| `FsmExample.TwoBodies` | src/ruli_fsm.c:1466-1536 | A run of the program as it stands, with two servers and three queries, in which a late answer makes it happen. |
| `FsmRuns.PartialStep` | src/ruli_fsm.c:1375-1621 | A read that leaves the header or the body incomplete keeps the invariant and lowers the number of bytes still missing by what it took. |
| `FsmRuns.SubmitInv` | src/ruli_res.c:502-546 | A submit keeps the invariant and all earlier queries. |
| `FsmRuns.DeleteInv` | src/ruli_res.c:548-610 | Deleting a query in any status, with the clean-up that fits it, keeps the invariant through the swap with the last query. |
| `FsmScan.ScanExactly` | src/ruli_fsm.c:1106-1256 | While the queries of a failed connection are moved on, some answers of the sockets make the assertion of the scan fail exactly where a query comes before one that waits to connect to that server and, going by its rotation without that server, meets a server that is not connected first. |
| `FsmScan.NoConnecterSafe` | src/ruli_fsm.c:1106-1256 | Whatever the sockets answer, it does not fail when no query waits to connect to the failed server. |
| `FsmBroken.AnyStuckSome` | src/ruli_fsm.c:1178-1227 | Some answers of the sockets let one of those queries reach its scheduled finish with a buffer left, which fails an assertion, exactly in the program as it stands, for a query that has some of an answer and is refused a switch, or finds in the rest of its rotation only the failed server and servers not connected. |
| `FsmBroken.BrokenExactly` | src/ruli_fsm.c:1106-1256 | A failed connection can abort the program exactly where one of these two conditions holds, both of which can be checked before it fails. |
| `FsmScan.ClosedScan` | src/ruli_fsm.c:1244-1256 | Between events that assertion would hold; just after a connection was closed it would hold exactly when no query waits to connect to that server. |
| `FsmScan.ImmediateAborts` | src/ruli_fsm.c:1244-1256 | Whatever else the sockets answer, a connection made at once for the first query that moves on is enough while another one still waits for the failed connection. |
| `FsmScan.NeverImmediateSafe` | src/ruli_fsm.c:1106-1230 | Where no connection is made at once, it never fails. |
| `FsmInvariant.WantConnectSafe` | src/ruli_fsm.c:637-786 | Nor does it fail for a query that moves on alone, after a timeout or a truncated answer. |
| `FsmAnswers.RunDelivers` | src/ruli_fsm.c:106-128 | In every state of every run a callback with success comes with a whole answer that is not truncated, and for a query that searches and has a suffix left with a response code other than 2 and 3. |
| `FsmAnswers.UdpDelivers` | src/ruli_fsm.c:956-1088 | A datagram of 12 to 512 octets changes only the query that waits for its id: wrong flags end it with that code, a truncated response moves it to TCP or out of servers and is never its answer, a correct one ends it as its response code says: with search on and a suffix left, the codes 2 and 3 lead to the next suffix, over UDP, and every other code to a callback with success. Every other datagram changes nothing, and the lengths of the joined names say when an assertion fails. |
| `FsmAnswers.BodyDelivers` | src/ruli_fsm.c:1539-1621 | The last bytes of a body end the query with the whole answer of the announced length, by its response code as over UDP, or with an error if it was truncated; they abort the program exactly when the codes 2 or 3 lead to a suffix and one of the two names to be joined fills 255 octets or none. |
| `FsmAnswers.HeadDelivers` | src/ruli_fsm.c:1466-1536 | A whole header ends its query with the code for its flags, or makes it receive the announced body, with twelve octets of it in the buffer and the response code and the truncation of the header. |
| `FsmDiagram.StepDrawn` | src/ruli_fsm.c:812-1665 | The whole diagram: every event but a submit and a delete is about certain queries, and makes of each of them what the diagram says, with the codes of scheduled finishes (send failure, timeout, connect failure); all other queries stay, but that connecting may become sending. |
| `FsmIdentity.SubmitIs` | src/ruli_res.c:502-546 | In every run the n-th submit appends a query with the id n modulo 65536, the first server n modulo the servers, all retries and suffixes, no answer and its options, waiting to be sent over UDP. |
| `FsmIdentity.RunKeepsIdentity` | src/ruli_res.c:589-597 | In every run a query keeps its id and its options until it is deleted, wherever deletions move it. |
| `FsmIdentity.IdsCollideExactly` | src/ruli_res.c:525 | Two queries that are there at one time share an id exactly when a multiple of 65536 submits lies between theirs. |
| `FsmAnswers.MoveOnIs` | src/ruli_fsm.c:216-269 | After a TCP failure the query waits on a later server, or finishes: with the code if no switch was left, with a connect failure if no server could be connected to. Its partial answer is gone with the repairs; without them it stays, and then the finish is exactly the case in which the program aborts. |
| `FsmUnfinished.RunsOutExactly` | src/ruli_fsm.c:637-786 | The scan for a connection runs out of servers exactly when, for each server of the rotation that is left, it is not connected, its attempt fails, and no earlier attempt left a failed descriptor there. |
| `FsmUnfinished.StuckExactly` | src/ruli_fsm.c:151-181 | A buffer is left when the finish is to be scheduled, which fails an assertion, exactly in the program as it stands, for a query with some of an answer, when the switch is refused or no server of the rotation gives a connection. |
| `FsmUnfinished.TimeoutExactly` | src/ruli_fsm.c:216-269 | A read timeout aborts the program exactly so; every query that receives a body has some of an answer. |
| `FsmUnfinished.UnfinishedForGood` | src/ruli_fsm.c:1502-1534 | In every run of the program as it stands a query that left a body unfinished keeps that buffer for good and never calls back with success, nor for lack of servers or time: it goes on over TCP until it is deleted, an answer with wrong flags ends it, or the program aborts. |
| `FsmOrphans.ResultOnce` | src/ruli_fsm.c:106-144 | The finish of a query that was called back, or is about to be, does nothing but call back, suffixes or not. |
| `FsmOrphans.ResubmittedExactly` | src/ruli_fsm.c:106-144 | In every run with deletes and submits of the same records: a finish left scheduled by a delete, run on a record submitted again, fails an assertion exactly until the new query was called back or is about to be; then it calls back once more. |
| `FsmOrphans.DeletedExactly` | src/ruli_res.c:548-610 | Run on a record not submitted since, it fails an assertion exactly when the query was deleted before it had a result, or with an answer, which the delete frees; otherwise it calls back with the result of the deleted query. A query deleted while its finish is scheduled is called back all the same. |
| `FsmOrphans.LateCount` | src/ruli_res.c:548-610 | Each delete of a query about to finish leaves one finish scheduled or, later, one callback on top of the one at most of every query. |
| `FsmModel.AttemptsPerQueryProduct` | src/ruli_res.c:655-676 | The bound on server attempts is the documented product. |
| `FsmModel.DoneCore` | src/ruli_fsm.c:330-803 | Leaving any status keeps the counters in step with the statuses, and the counter that is decremented is positive: no assertion of the done routines can fail. |
| `FsmModel.WantCore` | src/ruli_fsm.c:285-635 | Entering a status keeps the counters, the timers and the buffer rules. |
| `FsmInvariant.ConnectNextInv` | src/ruli_fsm.c:1106-1230 | When a connection fails, every query that used it gets a lower measure and none is left on the closed connection, through the whole loop over the affected queries. |
| `FsmInvariant.WantConnectCore` | src/ruli_fsm.c:637-786 | The scan for a connection ends: the query waits on an open connection or its finish is scheduled, and no other query changes but by the move from connecting to sending. |
| `FsmInvariant.ConnectToWriteCore` | src/ruli_fsm.c:1232-1260 | Exactly the queries waiting for the connection wait to send on it afterwards, and the counters follow. |
| `FsmInvariant.QueryDoneCore` | src/ruli_res.c:759-878 | A result either calls back or starts over with the next search suffix, and lowers the measure either way. |
| `FsmInvariant.MoveOnCore` | src/ruli_fsm.c:216-269 | A query whose read timed out leaves its status for its next server, or for its scheduled finish, with a lower measure. |
| `FsmInvariant.ResendGood` | src/ruli_fsm.c:183-214 | A UDP timeout or send failure switches to the next server or schedules the finish, and lowers the measure. |
| `FsmInvariant.UdpReadableGood` | src/ruli_fsm.c:956-1088 | A datagram keeps the invariant whether it is ignored, refused, truncated or the answer. |
| `FsmInvariant.HeadGood` | src/ruli_fsm.c:1466-1537 | A complete header moves its query to an answer code or to receiving the body on its own connection, and lowers its measure. |
| `FsmSteps.AcceptedFlags` | src/ruli_fsm.c:924-948 | The flags accepted are exactly those of a correct response once one OPCODE bit and two Z bits are cleared, with a response that shows the masks fall short of section 4.1.1 of RFC 1035; each error code is for the first fault of the word. |
| `FsmReaders.OneReaderRuns` | src/ruli_fsm.c:529-560 | On a connection that never has two readers, a waiting query finds fourteen bytes counted exactly when a header completed there named a query of another connection and nobody has begun to wait since; with the repairs it always finds fewer. |
| `FsmReaders.FullExactly` | src/ruli_fsm.c:529-560 | In every run the count of header bytes of a connection is full exactly when a header was completed on it and no query has begun to wait for one there since. |
| `FsmReaders.WaiterAborts` | src/ruli_fsm.c:1375-1402 | While such a query waits for a header and no body is being received, every read on its connection, which is read from, aborts the program, whatever it brings. |
| `FsmReaders.WaiterWaits` | src/ruli_fsm.c:1375-1407 | Otherwise a read that finds nothing leaves everything as it is. |
| `FsmReaders.SecondReaderAborts` | src/ruli_fsm.c:1375-1621 | With two queries on a connection and no other body being received on it, once the answer of one is over, its header refused or its body received whole, the other one still waits and the next read aborts the program. |
| `Fsm.Resolver.QueryWantWriteUdp` | src/ruli_fsm.c:285-328 | Counts the writer of the family of the current server and enters the UDP send status; the whole new state is `Want`. |
| `Fsm.Resolver.QueryDoneWriteUdp` | src/ruli_fsm.c:330-364 | Undoes that count, which is positive. |
| `Fsm.Resolver.QueryWantReadUdp` | src/ruli_fsm.c:393-445 | Counts a UDP reader and sets its timeout. |
| `Fsm.Resolver.QueryDoneReadUdp` | src/ruli_fsm.c:447-487 | Undoes that count and cancels the timeout. |
| `Fsm.Resolver.QueryWantWriteTcp` | src/ruli_fsm.c:489-510 | Counts a writer of the server. |
| `Fsm.Resolver.QueryDoneWriteTcp` | src/ruli_fsm.c:512-527 | Undoes that count. |
| `Fsm.Resolver.QueryWantReadTcpHead` | src/ruli_fsm.c:529-560 | Counts a reader, sets the timeout and resets the header count of the connection. |
| `Fsm.Resolver.QueryDoneReadTcpHead` | src/ruli_fsm.c:562-582 | Undoes the count and cancels the timeout. |
| `Fsm.Resolver.QueryWantReadTcpBody` | src/ruli_fsm.c:584-613 | Counts a reader of a body and sets its timeout. |
| `Fsm.Resolver.QueryDoneReadTcpBody` | src/ruli_fsm.c:615-635 | Undoes the count and cancels the timeout. |
| `Fsm.Resolver.QueryWaitConnectTcp` | src/ruli_fsm.c:637-786 | The part that waits for a connection in progress: counts a connecter. |
| `Fsm.Resolver.QueryDoneConnectTcp` | src/ruli_fsm.c:788-803 | Undoes that count. |
| `Fsm.Resolver.QueryStatusDone` | src/ruli_fsm.c:1667-1695 | Whatever the status, its own done routine runs and the status is void afterwards; for a query waiting to send over TCP it aborts without the repairs. |
| `Fsm.Resolver.TcpStatusDone` | src/ruli_fsm.c:1192-1211 | The same for the TCP statuses, as the loop over the queries of a failed connection does it. |
| `Fsm.Resolver.SwitchElseScheduleFinish` | src/ruli_fsm.c:151-181 | The next server, or the scheduled finish with the given code; it aborts exactly when no switch is left and a buffer is. |
| `Fsm.Resolver.QueriesTcpConnectToWrite` | src/ruli_fsm.c:1232-1260 | The loop over the shared list does what `ConnectToWrite` says; true is returned exactly where its assertion fails. |
| `Fsm.Resolver.QueryWantConnectTcp` | src/ruli_fsm.c:637-786 | The scan over servers does what `WantConnect` says and ends; true is returned exactly where one of its two assertions fails. |
| `Fsm.Resolver.QueryMoveOn` | src/ruli_fsm.c:216-269 | Leaves a TCP status for the next server, freeing the buffer only with the repairs; it aborts exactly where `MoveOnFails`. |
| `Fsm.Resolver.QueriesConnectNext` | src/ruli_fsm.c:1106-1230 | Closes the connection and moves every affected query on, keeping the resolver valid, or aborts exactly as `Broken` says. |
| `Fsm.Resolver.OnUdpWrite` | src/ruli_fsm.c:812-902 | The event does what `OnUdpWritable` says; its assertions never fail. |
| `Fsm.Resolver.OnUdpRead` | src/ruli_fsm.c:956-1088 | The event does what `OnUdpReadable` says and keeps the resolver valid. |
| `Fsm.Resolver.OnUdpReadTimeout` | src/ruli_fsm.c:183-214 | The timeout does what `Resend` says and keeps the resolver valid. |
| `Fsm.Resolver.OnTcpReadTimeout` | src/ruli_fsm.c:216-269 | The head and body timeouts do what `OnReadTimeout` says, aborts included, and keep the resolver valid. |
| `Fsm.Resolver.OnTcpConnect` | src/ruli_fsm.c:1262-1289 | The connect result does what `OnConnectResult` says. |
| `Fsm.Resolver.OnTcpWrite` | src/ruli_fsm.c:1296-1373 | The event does what `OnTcpWritable` says; a query in the send status is always found. |
| `Fsm.Resolver.RecvTcpHead` | src/ruli_fsm.c:1375-1537 | Header bytes do what `OnHead` says; true is returned exactly where an assertion fails. |
| `Fsm.Resolver.RecvTcpBody` | src/ruli_fsm.c:1539-1621 | Body bytes do what `OnBody` says. |
| `Fsm.Resolver.OnTcpRead` | src/ruli_fsm.c:1623-1665 | Dispatches to the first query receiving a body on the connection, or to the header. |
| `Fsm.Resolver.QueryDoneNow` | src/ruli_fsm.c:106-144 | The scheduled finish calls back once. |
| `Fsm.Resolver.constructor` | src/ruli_res.c:232-319 | One record per name server, nothing counted, no query: the initial state of every run. |
| `Fsm.Resolver.SwitchServer` | src/ruli_res.c:655-676 | The record is turned as `Switch` says. |
| `Fsm.Resolver.QueryDone` | src/ruli_res.c:759-878 | The result does what `QueryDone` of the value model says, suffixes included, and aborts exactly where `ResultFails`. |
| `Fsm.Resolver.FindQueryById` | src/ruli_res.c:678-694 | The first query with the id. |
| `Fsm.Resolver.GetNextServer` | src/ruli_res.c:460-480 | Queries start at the servers in turn. |
| `Fsm.Resolver.Submit` | src/ruli_res.c:502-546 | Appends the query with its own index and leaves the state `OnSubmit` gives, valid. |
| `Fsm.Resolver.Delete` | src/ruli_res.c:548-610 | Removes the query, re-indexes the one that takes its place and leaves the state `OnDelete` gives, valid; it aborts exactly without the repairs for a query waiting to send over TCP. |
| `Fsm.ResQuery.NextSuffix` | src/ruli_res.c:768-873 | The record starts over with the next suffix, or gets one of the two failure codes, or aborts, as the lengths of the two names decide. |
| `TcpReader.ChunkingIndependent` | src/ruli_fsm.c:1375-1621 | Whatever reads the same bytes come in, reading them one after the other ends in the same state. |
| `TcpReader.FoldIs` | src/ruli_fsm.c:1375-1621 | Read after read adds up to what the bytes amount to as a whole. |
| `TcpReader.HoldsExactly` | src/ruli_fsm.c:1375-1621 | A reader ends with a message in its buffer exactly when it took that message behind its length. |
| `TcpReader.Reassemble` | src/ruli_fsm.c:1375-1621 | The buffers of the program, filled read after read, end up with what the bytes amount to as a whole. |
| `TcpReader.NeverPast` | src/ruli_fsm.c:1401-1411 | No read takes a byte past the message. |
| `TcpReader.LeavesTheRest` | src/ruli_fsm.c:1539-1621 | On a stream that starts with a framed message, a reader that goes on until it asks for nothing has exactly that message and left the rest. |
| `TcpReader.Reader.Receive` | src/ruli_fsm.c:1375-1621 | A read changes the header buffer, the body buffer and the two counts as `Take` says. |
| `TcpReader.Reader.Wanted` | src/ruli_fsm.c:1401-1411 | Asks for the missing bytes of the header, then of the body. |
| `SrvOrder.SortedPermutation` | src/ruli_srv.c:731-794 | The insertion sort (with the test on the marker that is cleared) returns a permutation, priorities descending and weightless records last in each. |
| `SrvOrder.PlacedOrdered` | src/ruli_srv.c:744-789 | Each insertion keeps that order and adds one record. |
| `SrvOrder.RemovedOrdered` | src/ruli_srv.c:885-891 | Each removal keeps that order and takes one record. |
| `SrvOrder.AsWrittenExact` | src/ruli_srv.c:783-791 | As written, the sort returns a permutation exactly when each record has a lower priority number than the one before, or the same and no weight; then both sorts leave the list as it is. |
| `SrvOrder.AsWrittenExample` | src/ruli_srv.c:783-791 | As written, two records in increasing priority become three. |
| `SrvOrder.DrawCounts` | src/ruli_srv.c:849-895 | Of the sum + 1 values of a draw the first record in running order is picked by weight + 1 and every other one of the priority by its weight. |
| `SrvOrder.ZeroWeightDraw` | src/ruli_srv.c:849-895 | A weightless record is picked exactly by the draw 0, in a priority that has one. |
| `SrvOrder.PickInterval` | src/ruli_srv.c:868-895 | A record is picked exactly by the draws between the running sum before it and the one with it. |
| `SrvOrder.WeightedPermutation` | src/ruli_srv.c:820-898 | Whatever is drawn: every record once, and from an ordered list in non-decreasing priority. |
| `SrvOrder.OrderedAnswer` | src/ruli_srv.c:731-898 | For every list and every sequence of draws the weighted list is a permutation of the records in non-decreasing priority. |
| `SrvOrder.OrderedAnswerAsWritten` | src/ruli_srv.c:731-898 | As written it is a permutation exactly for the lists of `AsWrittenExact`, and in non-decreasing priority exactly for the lists whose priority numbers never rise, whatever is drawn. |
| `SrvOrder.SameRecords` | src/ruli_srv.c:731-898 | Neither the sort, repaired or not, nor the draws lose a record or add another one. |
| `SrvOrder.PlaceRecord` | src/ruli_srv.c:737-791 | The nested scans and the in-place insertion do what `Placed` says, or `PlacedAsWritten` as the program stands. |
| `SrvOrder.Sort` | src/ruli_srv.c:731-794 | The loop over the records builds `SortByPriority`, or `SortAsWritten` as the program stands. |
| `SrvOrder.PrioritySum` | src/ruli_srv.c:849-861 | The downward loop adds the weights of the last priority and of no other. |
| `SrvOrder.RunningSum` | src/ruli_srv.c:869-883 | The running sum stops at the record `Pick` names; the index never gets below zero. |
| `SrvOrder.DrawRecord` | src/ruli_srv.c:826-898 | One draw moves the picked record out of the list in place. |
| `SrvOrder.Select` | src/ruli_srv.c:820-898 | The loop over all draws returns `Weighted`. |
| `SrvAnswer.SrvRecordIs` | src/ruli_srv.c:677-700 | What is collected for a record of class IN and type 33 is priority, weight, port and target in the order of its octets, with the ttl of the record, exactly when it has 7 to 261 octets and a target in place. |
| `SrvAnswer.WrittenSrv` | src/ruli_srv.c:677-700 | A written SRV record is collected with the numbers and the name it was written with. |
| `SrvAnswer.CollectExact` | src/ruli_srv.c:652-705 | The records collected are all SRV records of the answer, octet by octet, each of the queried name and well formed. |
| `SrvAnswer.CollectInOrder` | src/ruli_srv.c:652-705 | They come once each, in the order of the answer. |
| `SrvAnswer.CollectFailsExactly` | src/ruli_srv.c:652-705 | The first SRV record that is malformed or of another name spoils the answer, and nothing else does; it fails an assertion exactly when its owner cannot be expanded. |
| `SrvAnswer.SpecialExactly` | src/ruli_srv.c:599-650 | An answer of one SRV record ends the query at once exactly when it is malformed or has the root as target, with the stated result. |
| `SrvAnswer.FailureExactly` | src/ruli_srv.c:520-1058 | Whatever is drawn: fallback exactly for an error or no record, refusal exactly for the stated spoiling records, and an assertion fails only for them or for an address of a target in the additional section. |
| `SrvAnswer.EntriesSay` | src/ruli_srv.c:520-1058 | From the octets to the entries: every SRV record has an entry, every entry says what an SRV record says in its octets (priority, weight, port, target, ttl) and has exactly the addresses that the additional section holds for its target, and with the sort repaired they come in non-decreasing priority. |
| `SrvAnswer.CollectRecords` | src/ruli_srv.c:652-705 | The loop of step 2 does what `Collect` says. |
| `SrvAnswer.UnavailableExactly` | src/ruli_srv.c:520-650 | Whatever is drawn, the service is reported unavailable exactly for an answer without an error that holds one SRV record, of the queried name, with the root as target. |
| `SrvAnswer.OnlyRecord` | src/ruli_srv.c:599-650 | Step 1 does what `Special` says. |
| `SrvAnswer.OnSrvAnswer` | src/ruli_srv.c:520-1058 | Steps 1 to 5 end as `Outcome` says, with the sort as it stands or repaired: fallback, a special answer, a malformed one, a failed assertion, or the weighted records with their additional addresses. |
| `SrvWalk.BuildEntries` | src/ruli_srv.c:924-1057 | One entry per record, in order, with the addresses the additional section holds for its target. |
| `SrvWalk.WalkEnds` | src/ruli_srv.c:152-357 | However the host queries end, the walk ends after one result per entry at most, asks once at most for an entry, changes nothing but addresses, and ends well only with an address of an enabled family in every entry. |
| `SrvWalk.OnWalkAnswerState` | src/ruli_srv.c:152-244 | A lookup that succeeds gives its entry an address of an enabled family and moves the index on. |
| `SrvWalk.AnswerOrder` | src/ruli_srv.c:731-1057 | From the records to the end of the walk: the entries are the ordered records, unchanged but for addresses. They are the records of the answer, each once, exactly where the sort is repaired or never inserts, and in non-decreasing priority exactly where it is repaired or the priority numbers never rise. |
| `SrvWalk.AliasTargets` | src/ruli_srv.c:274-357 | A target that is an alias of another name fails its lookup, unless the caller asks for aliases: then a chain of more than five does. |
| `SrvWalk.FailureReasons` | src/ruli_srv.c:152-216 | The code a failed walk ends with is that of the last answer: a timeout, a response code, no address, or any other failure. |
| `SrvWalk.SrvQuery.constructor` | src/ruli_srv.c:1050-1058 | The walk starts at index 0. |
| `SrvWalk.SrvQuery.Advance` | src/ruli_srv.c:274-357 | The loop over the entries does what `AnswerWalk` says. |
| `SrvWalk.SrvQuery.WalkAnswer` | src/ruli_srv.c:152-244 | The answer of a host query does what `OnWalkAnswer` says and keeps the walk valid. |
| `Host.SomeFamily` | src/ruli_host.c:449-487 | A lookup needs one family at least that is not disabled. |
| `Host.FirstAliasExactly` | src/ruli_host.c:342-422 | The scan for an alias ends at the first alias record of the class that is of the name or whose owner cannot be expanded, and its result is what that record says, by quantifiers over the records. |
| `Host.FollowExactly` | src/ruli_host.c:223-434 | Every result is what stands at the end of the chain of first aliases, names without addresses, no more than the allowed number of steps long: addresses, nothing, a broken alias, a failed assertion, or a chain that goes on. |
| `Host.AliasRecord` | src/ruli_host.c:342-422 | In the message, an alias record is one of class 1 and type 5 whose owner expands to the name, its target the expanded data. |
| `Host.AddressRecords` | src/ruli_host.c:248-304 | In the message, an address is returned for a name exactly for a record of class 1, of type 1 and four octets or type 28 and sixteen, of a family not disabled, whose owner expands to the name. |
| `Host.AddressesAppend` | src/ruli_host.c:248-304 | The addresses of records one after the other are theirs one after the other. |
| `Host.AddressesFailExactly` | src/ruli_host.c:248-304 | An assertion fails exactly for a wanted record without an owner, or of the name and another size. |
| `Host.ResultReasons` | src/ruli_host.c:114-447 | After every answer each code is set exactly for its reason, and the next query is made exactly when AAAA was asked for, A is not disabled, and the answer had an error or could be followed. |
| `Host.FollowFinds` | src/ruli_host.c:223-434 | The addresses returned are exactly those of the first name on the alias chain that has any, when it is at most the allowed number of first-match CNAME steps away. |
| `Host.FollowTooDeep` | src/ruli_host.c:420-434 | The chain is given up exactly when it goes on without an address beyond that depth, cycles included. |
| `Host.AddressesOwned` | src/ruli_host.c:248-304 | An address is returned for a name exactly when a record of that name, class and an enabled family holds it. |
| `Host.AfterOk` | src/ruli_host.c:49-112 | AAAA is asked first unless it is disabled; after any number of answers: at most two queries, the second for A after AAAA, a result after two answers at the latest, success exactly with an address, enabled families only. |
| `Host.LookupResult` | src/ruli_host.c:114-447 | With both families, the addresses of the first answer and then of the second; success exactly when the second answer can be followed and there is an address, so a failing second query loses the first one's addresses. |
| `Host.AcceptedHasMeaning` | src/ruli_parse.c:491-527 | Every record of an accepted message has its data inside the message. |
| `Host.FollowAnswer` | src/ruli_host.c:223-434 | The loop over addresses and aliases does what `Follow` says and ends. |
| `Host.ScanAddresses` | src/ruli_host.c:248-304 | The scan returns `AddressesOf`. |
| `Host.ScanAliases` | src/ruli_host.c:342-422 | The scan returns the first CNAME record of the name. |
| `Host.HostQuery.constructor` | src/ruli_host.c:449-487 | AAAA is asked first unless disabled. |
| `Host.HostQuery.Resubmit` | src/ruli_host.c:85-112 | The one resubmission, for A. |
| `Host.HostQuery.OnHostAnswer` | src/ruli_host.c:114-447 | An answer does what `OnAnswer` says; after two queries there is a result. |
| `Names.ExpandFixedPoint` | src/ruli_txt.c:351-445 | An expanded name has at most 255 octets, ends with the terminator, has no pointer left, denotes the same labels and expands to itself at every depth. |
| `Names.SuffixByPointer` | src/ruli_txt.c:389-405 | Replacing the last labels of a name by a pointer to an equal name denotes the same labels, whatever follows, for one pointer of depth. |
| `Names.DepthExactly` | src/ruli_txt.c:385-430 | A name is understood exactly when the number of its pointers, which is unique, is at most the depth. |
| `Names.ChainTooDeep` | src/ruli_txt.c:400-401 | A pointer to itself is understood at no depth: expansion ends on a cycle. |
| `Names.ExtractIsDecodeExpand` | src/ruli_txt.c:239-328 | Text straight from a compressed message is the decoded expansion. |
| `Names.DecodeFits` | src/ruli_txt.c:161-223 | Decoding succeeds exactly when the wire form is no longer than the buffer, and gives each label with a dot. |
| `Names.SkipLands` | src/ruli_parse.c:64-107 | Where a name is understood, skipping it lands just past the terminator or the pointer that ends it in place. |
| `Names.LabelsOfWire` | src/ruli_txt.c:351-430 | A name written out denotes its labels wherever it stands. |
| `NameText.EncodeDecode` | src/ruli_txt.c:65-232 | Decoding an encoded text gives it back with exactly one dot after each label. |
| `NameText.DecodeEncode` | src/ruli_txt.c:65-232 | Encoding the text of a name gives the name back exactly when its labels have 1 to 63 octets and no dots. |
| `NameText.EncodedLength` | src/ruli_txt.c:60-63 | What encode_size announces suffices and is used up but for a doubled final dot. |
| `NameText.EncodedTooLong` | src/ruli_txt.c:84-96 | The wire form exceeds 255 octets exactly for texts of more than 253 characters without a doubled final dot; it never exceeds 257. |
| `NameText.EncodedTooLongExample` | src/ruli_txt.c:84-96 | A text of 255 characters is encoded into 257 octets. |
| `NameText.EncodedExample` | src/ruli_txt.c:65-159 | The text a.b is encoded as two labels behind their lengths, in five octets. |
| `NameText.ConcatJoins` | src/ruli_txt.c:505-542 | Concatenation aborts exactly for a name of 255 octets; otherwise it succeeds exactly when the joined name fits a name and the buffer, except the root with a name that fills the buffer, and gives the joined labels. |
| `NameText.ConcatEncodesJoin` | src/ruli_txt.c:505-542 | Joining two encodings is encoding the texts joined by a dot; the root, on either side, adds nothing. |
| `NameText.CompareDecidesLabels` | src/ruli_txt.c:467-500 | The comparison is true exactly for equal labels, and its assertion fails exactly for names that cannot be expanded. |
| `NameBuffers.DnameExpand` | src/ruli_txt.c:351-445 | The loop and the recursion at pointers write `Expand`, or fail exactly when it does; earlier octets stay. |
| `NameBuffers.DnameExtract` | src/ruli_txt.c:239-328 | The same for `Extract`, with the end of the string. |
| `NameBuffers.DnameDecode` | src/ruli_txt.c:161-232 | The same for `Decode`; no pointers. |
| `NameBuffers.BuildLabel` | src/ruli_txt.c:40-58 | A label is written exactly when it has 1 to 63 octets and fits. |
| `NameBuffers.DnameEncode` | src/ruli_txt.c:65-159 | The scan over labels writes `Encode`, or fails exactly when it does. |
| `NameBuffers.DnameConcat` | src/ruli_txt.c:505-542 | The two copies write `Concat`, or leave the buffer alone exactly when it fails or aborts. |
| `NameBuffers.DnameCompare` | src/ruli_txt.c:467-500 | Expands into a buffer of 255 octets and compares. |
| `NameBuffers.SkipRrOwner` | src/ruli_parse.c:64-107 | The loop returns `Skip`. |
| `Message.MessageTiles` | src/ruli_parse.c:279-357 | A message is accepted exactly when the counted records of its four sections tile it from the header to its last octet, and the result is that tiling. |
| `Message.MessageAborts` | src/ruli_parse.c:113-357 | The parser aborts exactly when, behind records that tile the message so far, the owner of a record still to come ends at the last octet of the message. |
| `Message.SectionTiles` | src/ruli_parse.c:225-277 | A section of a given count is found exactly when its records tile it. |
| `Message.TilesInside` | src/ruli_parse.c:165-223 | Every record and its data lie inside the message, each starting where the one before ends. |
| `Message.MessageFails` | src/ruli_parse.c:279-357 | A message is refused below twelve octets, for the first section that no records tile behind the ones before, or for what follows the last. |
| `Message.HeaderReads` | src/ruli_msg.c:163-179 | A header is read back from any message that starts with its octets: id, flags, the last four bits of the flags, and the four counts in their order. |
| `Message.MessageReads` | src/ruli_parse.c:279-357 | A message of a header and written records, owners compressed or not, is read with the counts of that header, accepted, and gives every record back in its section. |
| `Parser.ParseQuestionRr` | src/ruli_parse.c:113-163 | Skips the owner and reads the fixed part; aborts exactly when the owner ends at the last octet. |
| `Parser.ParseAnswerRr` | src/ruli_parse.c:165-223 | Skips the owner, reads the fixed part and leaves the data in place; aborts exactly when the owner ends at the last octet. |
| `Parser.Section` | src/ruli_parse.c:225-277 | The counting loop with its assertions returns `ParseSection`. |
| `Parser.ParseAll` | src/ruli_parse.c:279-357 | The four sections in order, and the check for trailing octets. |
| `Parser.SrvAccepted` | src/ruli_parse.c:397-436 | SRV data is accepted exactly with 7 to 261 octets and a target in place that fills the rest. |
| `Parser.SrvOctets` | src/ruli_parse.c:397-436 | Accepted SRV data is its priority, weight, port and target, octet by octet. |
| `Parser.SrvRoundTrip` | src/ruli_parse.c:397-436 | Written SRV data is read back. |
| `Parser.ParseRrCname` | src/ruli_parse.c:438-455 | A CNAME target has 1 to 255 octets. |
| `MsgBuild.BuildParses` | src/ruli_msg.c:65-179 | A built query has 17 to 271 octets and parses back to its id, the flags RD alone, one question with type and class, and an owner that expands to the name. |
| `MsgBuild.OptionsReadBack` | src/ruli_msg.c:45-63 | Every header field within its width can be read back from the flags. |
| `MsgBuild.BuildQuery` | src/ruli_msg.c:65-161 | The writes through a moving position build the query; a buffer below 271 octets is refused untouched. |
| `Bytes.PackUnpack` | src/ruli_util.c:29-57 | Packing and unpacking of two and four octets undo each other. |
| `Bytes.Unpack2Into` | src/ruli_util.c:29-35 | Two octets are written and no others. |
| `Bytes.Memrchr` | src/ruli_util.c:59-70 | The last position of an item, or none. |
| `AddrBits.CommonIsLargest` | src/ruli_addr.c:772-801 | The common prefix length is the largest k with the same first k bits. |
| `AddrBits.CommonIsUltrametric` | src/ruli_addr.c:772-801 | It is symmetric, full exactly on equal addresses, and of three lengths the two smallest are equal. |
| `AddrBits.CommonPrefixBitlen` | src/ruli_addr.c:772-801 | The octet loop and the shift loop compute it, for up to 32 octets; the last assertion fails exactly beyond 128 bits. |
| `AddrBits.InNetIsPrefix` | src/ruli_addr.c:635-665 | Membership holds exactly when the common prefix reaches the prefix length and the network has no bits behind it in its last octet. |
| `AddrBits.AddrInNet` | src/ruli_addr.c:635-665 | The loop over octets and the mask decide `InNet`. |
| `AddrBits.FirstMatchIsLongest` | src/ruli_addr.c:611-736 | For every address the first match in a policy table exists and is a longest one, though the table is not sorted by length. |
| `AddrBits.MatchPrefix` | src/ruli_addr.c:667-736 | The search ends and returns the value of the first match. |
| `AddrOrder.CmpIsLexicographic` | src/ruli_addr.c:803-973 | Unless RFC 3484 rules are combined with no preference for IPv6, the comparator is the lexicographic order of (source, scope match, label match, precedence, scope, family, common prefix). |
| `AddrOrder.PreorderExactly` | src/ruli_addr.c:803-973 | The comparator is a total preorder exactly when those two options are not combined. |
| `AddrOrder.Rule9Example` | src/ruli_addr.c:901-929 | An IPv4 address that ties with two IPv6 addresses that do not tie. |
| `AddrOrder.MappedPolicy` | src/ruli_addr.c:508-770 | An IPv4 address has the label and the precedence of its mapped form exactly unless it is 0.0.0.0 or 127.0.0.1, and its scope exactly when its own scope is global. |
| `AddrOrder.PolicyByOctets` | src/ruli_addr.c:611-736 | Precedence and label of every IPv6 address by its octets: ::1 has 50 and 0, 20 02 first 30 and 2, twelve zeros 20 and 3, mapped addresses 10 and 4, all others 40 and 1. |
| `AddrOrder.PolicyOfInet` | src/ruli_addr.c:667-705 | An IPv4 address has precedence 10 and label 4, but 0.0.0.0 those of :: and 127.0.0.1 those of ::1. |
| `AddrOrder.NativeBeforeInet` | src/ruli_addr.c:803-973 | With the RFC 3484 rules, an IPv6 address whose first octet is not zero comes before an IPv4 address other than 127.0.0.1 where Rules 1, 2 and 5 tie. |
| `AddrOrder.RulesInOrder` | src/ruli_addr.c:803-973 | Each rule decides where those before it do not, in the terms of scopes, labels, precedences and common prefixes, and the comparator is antisymmetric. |
| `AddrOrder.Scope4ByNet` | src/ruli_addr.c:508-559 | The scopes of IPv4 addresses are those of their networks. |
| `AddrOrder.Scope6ByNet` | src/ruli_addr.c:508-559 | The scopes of IPv6 addresses are those of their networks; a multicast address carries its scope. |
| `AddrOrder.SortIsStable` | src/ruli_addr.c:1011-1026 | Any sorted rearrangement of the addresses is the stable sort. |
| `AddrOrder.SortUnique` | src/ruli_addr.c:1011-1026 | Two sorted rearrangements of the same addresses are equal. |
| `AddrText.PrintParse` | src/ruli_addr.c:188-480 | Printing an address and parsing the text gives the same octets. |
| `AddrText.PrintFits` | src/ruli_addr.c:435-480 | The text has at most 39 characters. |
| `AddrGrammar.AtonExactly` | src/ruli_addr.c:188-334 | A text is taken for an address exactly when it has fewer than forty characters and is eight words between colons, with perhaps a double colon and anything behind, or fewer words around one double colon; the words of the address are those, with zeros between. |
| `AddrGrammar.WordLocal` | src/ruli_addr.c:188-280 | What is read as a word depends on the characters up to the next colon alone. |
| `AddrGrammar.StrtolReads` | src/ruli_addr.c:214-222 | A number of blanks, a sign, a prefix and digits is read as the value of the digits, in 64 bits with the sign. |
| `AddrGrammar.DigitExactly` | src/ruli_addr.c:214 | The digits are the sixteen, in both cases, with their values. |
| `AddrText.DoubleColon` | src/ruli_addr.c:188-334 | A double colon anywhere stands for the zeros between the words before and after it. |
| `AddrText.Inet6Snprintf` | src/ruli_addr.c:435-480 | The text is written as far as it fits, and the result tells whether it was cut. |
| `AddrText.SearchForward` | src/ruli_addr.c:188-235 | The loop returns `Forward`. |
| `AddrText.SearchBackward` | src/ruli_addr.c:237-280 | The loop returns `Backward`. |
| `AddrText.Inet6Aton` | src/ruli_addr.c:282-334 | The words of the address, from both searches. |
| `RuliList.DroppedItems` | src/ruli_list.c:265-278 | Dropping loses exactly the dropped item and keeps the order in front of it. |
| `RuliList.List.constructor` | src/ruli_list.c:44-60 | An empty list of the given capacity. |
| `RuliList.List.Reserve` | src/ruli_list.c:152-171 | Doubles a full array and keeps its contents. |
| `RuliList.List.Push` | src/ruli_list.c:173-188 | Appends. |
| `RuliList.List.InsertAt` | src/ruli_list.c:190-217 | The shifting loop inserts and moves every later item one place up. |
| `RuliList.List.ShiftAt` | src/ruli_list.c:219-243 | The shifting loop removes and returns the item. |
| `RuliList.List.Drop` | src/ruli_list.c:265-278 | The last item takes the place of the dropped one. |
| `RuliList.List.Pop` | src/ruli_list.c:254-263 | Removes the last item. |
| `RuliList.List.Prune` | src/ruli_list.c:300-308 | Keeps the first items. |

## Left out

- Sockets, the event library, clocks, configuration files and source address discovery: their answers are parameters.
- Registration of descriptors with the event source, and which descriptor a handler is given: a connection is named by its server. Connecting and sending share one write interest (`src/ruli_fsm.c:665-666`, `src/ruli_fsm.c:799-800`), so a query that waits to send may lose its handler.
- Allocation failures, and the limit of an `int` on the capacity of a list.
- Fsm.Resolver.Delete: the class drops a finish scheduled for the deleted query; the program leaves it scheduled, which `FsmOrphans` models beside the resolver, as long as the caller keeps the record.
- Fsm.Resolver.OnTcpWrite: like the program it sends for the first query in the send status, of whatever server; that the bytes reach the connection of that query is not claimed.
- The bytes a query sends in the state machine and the bytes it receives: `FsmSteps` keeps lengths, ids and flags, `MsgBuild` and `TcpReader` the octets.
- Host.HostQuery.OnHostAnswer: the addresses are the octets of the record; their conversion to socket addresses is not modelled.
- Sorting of the addresses inside an SRV entry after the walk: `AddrOrder` treats the sort on its own list.
- AddrOrder.SortIsStable: positions in the array break ties in the program; here the positions before the sort do.
- Sources of another family than the address in the comparator.
- AddrText.PrintParse: characters above 127 and locale are not modelled; `long` has 64 bits in `Strtol`.
- AddrText.SearchBackward: a colon at the very start makes the program look at the character before the string; here it is a failure.
- NameBuffers.DnameDecode: octets are unsigned; where `char` is signed the program mishandles label lengths of 128 and more.
- `ruli_dname_match`, the fallback lookups of an SRV query, MX data, the HTTP, SMTP and search layers, the language bindings and the command-line programs.
- The random generator: a draw is any number in its range.
