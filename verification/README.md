# Models of libevent

This project models the event library in `LibeventApp/app/src/main/cpp` (libevent 1.4) and proves what its parts
promise. Each part is a module or a few; imperative code is modelled by classes and methods with loops, proved equal
to specification functions or given contracts that fix the whole new state, and the lemmas are about those.

- **Domain names on the wire** (`names`, `namewriter`, `name_series`, `messages`, `query_builder`, `reply_room`,
  `server`).
  `Names.Decode` reads a name with a number of pointer jumps allowed; `Names.Denotes` is the reading without a limit.
  `NameWriter.Encode` is the compressing writer with its table of suffixes. The methods `NameParse`,
  `DnsnameToLabels`, `RequestDataBuild` and those of `ServerRequest` are the C functions. The bytes of a message are
  `newtype Byte`; bit operations are arithmetic.
- **Resolver** (`resolver*`, `rings`, `evdns`). `Resolver.State` is the two rings of requests, the ring of nameservers
  and a history: the lookups, what each queried and was told, and every packet given to `sendto`; `Resolver.Step` is one event. What sends, allocations and the id generator do is an `Env` that
  answers numbered questions, so every statement is for all outcomes; `Honest` says only that the id generator gives
  an unused id while there is one, and `Config.Ok` that the inflight limit is in the range `evdns_set_option` allows.
  `ResolverRuns.Inv` is the invariant, split into `NetOk` (servers and sending), `Book` (counters, ids, search
  history) and `Balanced` (every lookup owned or answered once). `Rings` has the requests and nameservers as
  nodes with `next` and `prev`. The class `Evdns` is the imperative code on them; `Evdns.Now` is the state that its
  rings, heads and counters stand for, and each method does to it what its function says.
- **Timers and the event base** (`events`, `event_lists`, `timer_heap`, `event_base`). `MinHeap` keeps an array of
  events that know their places; `EventBase.Valid` says that every flag names the list the event is on and that both
  counters count the lists. Clock readings, memory and the backend's answers are parameters.
- **Backends** (`watches`, `poll`, `epoll`, `select`, `backends`). Each class has a `View`, the map from descriptors
  to a reader and a writer; every add and delete is the same change of that map in all three. The epoll class carries
  the kernel's set as a ghost map, and `Due` is the result an event must get for a given readiness.
- **Byte buffer and tagged records** (`buffer`, `lines`, `tagging`, `records`). `Buffer` is the misaligned growable
  array; `Contents` is the run of bytes it stands for, and `Valid` includes the chain of callback reports.
- **Buffered events** (`bufferevent`). `Flowing` and `Draining` are the promise not to stall, up to a reported error
  (`readFailed`, `writeFailed`); each method says exactly when it breaks them. `BufferEvent.Valid` is what holds between
  callbacks whatever fails: `Reads` and `Writes` (a stall has a refused call or a misread mark behind it), `Conserves`
  (no byte lost or out of order) and `Registered`.
- **Chunked coding** (`chunked`). `Step` and `Run` are the decoder, `Feed` runs it on piece after piece.

What the proofs found about the code:

- `evhttp_handle_chunked_read` is not indifferent to how the bytes arrive. If a piece ends between the CR and the LF
  of a size line, the LF is taken for the first byte of the chunk. `Chunked.DecodesWhatIsEncoded` gives the exact
  condition and `Chunked.TornBody` an example.
- `dnsname_to_labels` stores the byte that ends a name without a test for room. `NameWriter.SpillsExactly` says when
  that is behind the buffer, `ReplyRoom.SpilledExactly` for which replies, and `ReplyRoom.SpilledReply` gives one.
- A reply that is cut is sent as 512 bytes even if fewer were written (`Server.AllWritten`, `Server.StackIsSent`).
- The `prev` links of the nameserver ring are wrong from the third member on (`Rings.InsertServer`); nothing uses them.
- `bufferevent_readcb` keeps the distance to the high mark in an `int`. A mark of 2^31 stops a reader for good
  (`BufferEvents.StoppedBelowMark`, `BufferEvents.StalledByMark`).
- `nameserver_send_probe` gives up without setting the timer again when it finds no memory; the server is then never
  probed any more (`ResolverProbes.ProbeTimerStaysProbed`).
- A refusal for a request that was moved to its present server but not yet sent there takes that server down and can be
  passed on to the user although another server is good (`ResolverCodes.RefusalMovesOn`, `ComesBackExample`).
- A comment in `reply_handle` says that a server failure is treated as a timeout. The code passes the error on; the
  model follows the code.
- `bufferevent_disable` leaves an event enabled but not registered when the backend fails to delete it, and a reader
  when it fails to delete the writer (`BufferEvent.Disable`, `BufferEvents.StalledByDisable`).
- `epoll_del` clears its slots even when the kernel fails (`EpollOp.Del`).
- `evhttp_send_reply_chunk` prints the size of a chunk modulo 2^32 (`Chunked.SentAsChunk`).
- `evtag_marshal_timeval` keeps 32 bits of each part, so times outside that range change (`Records.TimeReadsBack`).

## Model

| member | source | states |
|---|---|---|
| Names.JumpLimitIsExact | LibeventApp/app/src/main/cpp/evdns.c:766-820 | name_parse gives up after as many pointer jumps as the packet has bytes; this turns away exactly the names whose pointers never end: what is decoded is what the unbounded reading of section 4.1.4 of RFC 1035 denotes, and nothing that denotes a name is refused |
| Names.DecodeBounds | LibeventApp/app/src/main/cpp/evdns.c:778-820 | a name that decodes ends strictly after its start and inside the message, and all its labels have 1 to 63 bytes |
| Names.NameAtLonger | LibeventApp/app/src/main/cpp/evdns.c:778-820 | bytes added after a message change no name that could be read in it |
| Names.AppendLabel | LibeventApp/app/src/main/cpp/evdns.c:800-808 | the copy of one label: a dot before all but the first, refused exactly when the text with its NUL would not fit, and nothing outside the output is touched |
| Names.NameParse | LibeventApp/app/src/main/cpp/evdns.c:766-820 | succeeds exactly when a name is denoted by the bytes below length and its text and NUL fit; then the output is that text, the index moves strictly forward to just past the name and at most to length; on failure the index stays; bytes past name_out_len are never written |
| NameWriter.LabelTable.GetPos | LibeventApp/app/src/main/cpp/evdns.c:1333-1341 | the position stored for the first entry with this suffix, or -1 |
| NameWriter.LabelTable.Add | LibeventApp/app/src/main/cpp/evdns.c:1345-1359 | the new entry goes last; a full table or lack of memory leaves the table as it was |
| NameWriter.EncodeThenDecode | LibeventApp/app/src/main/cpp/evdns.c:1373-1436 | whatever is compressed, the bytes written after a message read back as the labels of the name, end where the next bytes go, and every entry they add to the table decodes from its position to its suffix |
| NameWriter.TextIsName | LibeventApp/app/src/main/cpp/evdns.c:1397-1432 | the text read back equals the name given if and only if the name has no empty label (no dot at an end, no two in a row) |
| NameWriter.EncodeFits | LibeventApp/app/src/main/cpp/evdns.c:1395-1435 | with room for the plain form and labels of at most 63 bytes writing cannot fail, and compression never makes a name longer |
| NameWriter.PlainNeedsShortLabels | LibeventApp/app/src/main/cpp/evdns.c:1403-1418 | without a table every label over 63 bytes is noticed |
| NameWriter.SpillsExactly | LibeventApp/app/src/main/cpp/evdns.c:1395-1433 | a written name ends behind its buffer, by the one zero byte that is stored without a test for room, if and only if no end of it is in the table, its last label is not empty and it ends with that label where the buffer does; every other name stays inside |
| NameWriter.EncodeEnds | LibeventApp/app/src/main/cpp/evdns.c:1395-1433 | the length of a written name and when there is room for it, compressed or not; a failing call writes inside the buffer |
| NameWriter.PutLabel | LibeventApp/app/src/main/cpp/evdns.c:1403-1426 | one label with its table entry, or the error code of the test that fails |
| NameWriter.PutPointer | LibeventApp/app/src/main/cpp/evdns.c:1399-1402 | a pointer to the table entry when two bytes fit |
| NameWriter.DnsnameToLabels | LibeventApp/app/src/main/cpp/evdns.c:1373-1436 | the loop over the name leaves the buffer, the table and the result exactly as the specification of the encoding says, errors with what they have written included; the buffer is as large as it is said to be, and one byte larger only for a name that spills |
| NameSeries.AllNamesReadBack | LibeventApp/app/src/main/cpp/evdns.c:1304-1436 | any sequence of names written through one table, with arbitrary bytes between them, into a buffer with offsets below 0x4000: each reads back from its own offset as its labels, a name without empty labels as the very same text |
| Messages.RequestReadsBack | LibeventApp/app/src/main/cpp/evdns.c:1442-1479 | a query can be built if and only if the name has at most 255 bytes and labels of at most 63; then its id, its flags 0x0100, its counts 1, 0, 0, 0, its type and its class 1 stand as numbers at their offsets, and the name reads back |
| QueryBuilder.RequestDataBuild | LibeventApp/app/src/main/cpp/evdns.c:1452-1479 | fills the buffer of a request, just as large as evdns_request_len asks for, with exactly that query and returns its length, or fails with -1 or -2 |
| Messages.QuestionsReadBack | LibeventApp/app/src/main/cpp/evdns.c:1657-1667 | after any number of questions each of them stands where it was written, its type and class as numbers, and the table is still good |
| Messages.RecordsReadBack | LibeventApp/app/src/main/cpp/evdns.c:1669-1706 | the same for resource records, with type, class, time to live and length as numbers, and with owners and data that may be compressed names |
| Messages.Reply.ReadsBack | LibeventApp/app/src/main/cpp/evdns.c:1631-1706 | a reply that fits holds exactly its sections, one after the other from the header to the end; the header has the id and the number of questions, answers, authorities and additionals at offsets 0, 4, 6, 8 and 10, and every name in it reads back |
| Messages.Reply.HeaderTells | LibeventApp/app/src/main/cpp/evdns.c:1645-1655 | bit by bit the flags are those of the request, with the highest bit set and the error code in the lowest four; the counts stand in their order |
| Server.SetTruncated | LibeventApp/app/src/main/cpp/evdns.c:1711 | sets the truncation bit and no other |
| Server.Cut | LibeventApp/app/src/main/cpp/evdns.c:1708-1712 | a message over 512 bytes or over the buffer is cut at 512 and marked as truncated, any other is sent whole |
| Server.ServerRequest.AddRecords | LibeventApp/app/src/main/cpp/evdns.c:1669-1706 | the loop over one list of records writes what the specification says, or stops where it stops and leaves the next byte as it was, in a buffer of 1500 bytes unless a name spills |
| ReplyRoom.SpilledExactly | LibeventApp/app/src/main/cpp/evdns.c:1633-1706 | formatting a reply stores a byte behind its buffer of 1500 bytes if and only if some name in it, of a question, an owner or data, spills where it is written |
| ReplyRoom.SpilledReply | LibeventApp/app/src/main/cpp/evdns.c:1633-1706 | a reply that does: two records, 1463 bytes of data and a name of one letter |
| Server.ServerRequest.FormatResponse | LibeventApp/app/src/main/cpp/evdns.c:1630-1725 | with a buffer of 1500 bytes, for every reply none of whose names spills: bad error codes and names leave the request alone; otherwise the response is the formatted reply, whole or cut, with the true header but for the mark of a cut, and a whole one reads back as what was collected |
| Server.AllWritten | LibeventApp/app/src/main/cpp/evdns.c:1708-1721 | every byte of the response has been written, so that it depends on nothing else than the reply, if and only if the reply fits whole or has got as far as 512 bytes |
| Server.StackIsSent | LibeventApp/app/src/main/cpp/evdns.c:1669-1721 | an owner name with a label of 64 bytes: of the 512 bytes sent only the header was written |
| ResolverServers.PickIsFirstGood | LibeventApp/app/src/main/cpp/evdns.c:1125-1157 | with a good nameserver in the ring nameserver_pick returns the first good one from the head and rotates past it; its exit for a ring without good ones (line 1147) is never taken |
| ResolverServers.PicksVisitEachGoodServer | LibeventApp/app/src/main/cpp/evdns.c:1125-1157 | as many picks in a row as there are good nameservers return each of them exactly once, in ring order |
| ResolverServers.ServersAfterChange | LibeventApp/app/src/main/cpp/evdns.c:496-553 | when a nameserver goes down or comes back, the count of good ones remains the number of ring members that are up |
| ResolverServers.ServersAfterJoin | LibeventApp/app/src/main/cpp/evdns.c:2152-2165 | a nameserver added to the ring is there once, and is counted |
| ResolverNet.TransmitKeepsNet | LibeventApp/app/src/main/cpp/evdns.c:1945-1985 | sending keeps every inflight request placed with a nameserver, waiting for its timer or marked for sending, and within its limits (that it counts: ResolverSends.TransmitCounts) |
| ResolverNet.ReissueKeepsNet | LibeventApp/app/src/main/cpp/evdns.c:603-622 | a reissue within the limit keeps every inflight request placed, marked or waiting, and its total within maxRetransmits for each server tried |
| ResolverBook.OwnedOnce | LibeventApp/app/src/main/cpp/evdns.c:564-600 | an inflight request is the only one of its lookup, which is not answered yet |
| ResolverSafety.SubmitKeepsOrder | LibeventApp/app/src/main/cpp/evdns.c:2280-2292 | submitting a request keeps rings, counters, ids and search history in order and adds one request to what its lookup owns |
| ResolverSafety.ResolveKeepsGood | LibeventApp/app/src/main/cpp/evdns.c:2294-2326 | starting a lookup keeps every accepted lookup owned or answered exactly once, whether or not the new one is accepted, and leaves what the other requests are for alone |
| ResolverSafety.PumpKeepsOrder | LibeventApp/app/src/main/cpp/evdns.c:627-654 | moving waiting requests to the inflight ring keeps all of the above |
| ResolverSafety.FinishKeepsGood | LibeventApp/app/src/main/cpp/evdns.c:564-600 | ending an answered request keeps all of the above |
| ResolverSafety.TryNextKeepsOrder | LibeventApp/app/src/main/cpp/evdns.c:2563-2600 | the next request of a search, if it can be made, belongs to the same lookup and asks for the next name of its order |
| ResolverSafety.AnswerKeepsGood | LibeventApp/app/src/main/cpp/evdns.c:656-691 | calling the user back, who may start further lookups, and ending the request keeps all of the above |
| ResolverRuns.ReplyKeepsInv | LibeventApp/app/src/main/cpp/evdns.c:693-764 | so does handling a reply of any kind: answer, reissue, next name of the search, or error (what each code does: module ResolverCodes) |
| ResolverRuns.TimedOutKeepsInv | LibeventApp/app/src/main/cpp/evdns.c:1885-1908 | so does a timeout of a request |
| ResolverRuns.SuspendKeepsInv | LibeventApp/app/src/main/cpp/evdns.c:2056-2104 | so does clearing the nameservers and suspending: every inflight request goes back to waiting |
| ResolverRuns.ShelvedGoFirst | LibeventApp/app/src/main/cpp/evdns.c:2079-2099 | the requests moved by a suspend stand ahead of the ones that waited before, which keep their order |
| ResolverRuns.StepKeepsInv | LibeventApp/app/src/main/cpp/evdns.c:443-764 | every event the resolver can see keeps its invariant |
| ResolverRuns.RunKeepsInv | LibeventApp/app/src/main/cpp/evdns.c:443-764 | so the invariant holds after every run from the start |
| ResolverResults.ExactlyOneAnswer | LibeventApp/app/src/main/cpp/evdns.c:564-764 | after any run an accepted lookup either was answered exactly once and owns no request, or was not answered and owns exactly one request, inflight or waiting |
| ResolverSends.TransmitCounts | LibeventApp/app/src/main/cpp/evdns.c:1945-1985 | a request whose nameserver is there and not choked makes one question to sendto; if it is not blocked the count goes up by exactly one, the timer runs and the mark is gone, if it is blocked the count stays and the socket is choked; no other request is sent or counted |
| ResolverSends.SubmittedIsSent | LibeventApp/app/src/main/cpp/evdns.c:2280-2292 | a request submitted with a nameserver goes out at once |
| ResolverSends.MarkedAreSent | LibeventApp/app/src/main/cpp/evdns.c:2020-2038 | without errors from sendto every marked request goes out unless its socket is choked |
| ResolverAttempts.CountsAreTrue | LibeventApp/app/src/main/cpp/evdns.c:1945-1985 | after any run tx_count is the number of questions to sendto for this request that were not blocked, since it last turned to another server; each question is counted for one request |
| ResolverAttempts.BoundedSends | LibeventApp/app/src/main/cpp/evdns.c:693-725 | after any run, counted by those questions: a request went out at most maxRetransmits times since it last turned to another server (once if that is zero), is marked only below that, and went out at most maxReissues + 1 times as often since it was made or all were suspended |
| ResolverAttempts.TimerDecides | LibeventApp/app/src/main/cpp/evdns.c:1885-1908 | after any run, when a timer fires: a request that went out maxRetransmits times is answered with a timeout, and any other stays, unanswered, and goes out once more unless its socket is choked |
| ResolverAttempts.GivenUpExactly | LibeventApp/app/src/main/cpp/evdns.c:1885-1908 | a request that never turned to another server is given up at its timer if and only if it went out exactly as often as allowed |
| ResolverAttempts.AnsweredHow | LibeventApp/app/src/main/cpp/evdns.c:656-764 | after any run a lookup is answered only by a packet with the id of its request or at such a timer |
| ResolverAttempts.Unanswered | LibeventApp/app/src/main/cpp/evdns.c:564-654 | over whole runs: a request that gets no reply stays in flight, whatever else happens but a suspend, until a timer finds it sent maxRetransmits times and answers its lookup with a timeout |
| ResolverResults.SearchInOrder | LibeventApp/app/src/main/cpp/evdns.c:2524-2600 | after any run the names a lookup has queried are the first ones of its search order (the raw name first if it has ndots dots, else last, the domains between in order), each once, so at most one more than there are domains (what the names are: SearchNames.SearchInLabelOrder) |
| SearchNames.WithDomainLabels | LibeventApp/app/src/main/cpp/evdns.c:2497-2521 | the name with a domain has the labels of the name, with or without a dot at its end, and then those of the domain, with no empty label between |
| SearchNames.DotsByLabels | LibeventApp/app/src/main/cpp/evdns.c:2228-2236 | the dots counted are those between labels and the one at the end |
| SearchNames.SearchInLabelOrder | LibeventApp/app/src/main/cpp/evdns.c:2524-2600 | after any run what a lookup has queried are, label by label and on the wire, the first of: its own labels, and its own labels followed by those of each domain |
| ResolverAnswers.SearchEndsAtEnd | LibeventApp/app/src/main/cpp/evdns.c:2563-2600 | after any run: when a reply with an error makes a lookup be answered, and its queries can all be made, every name of its search order has been queried |
| ResolverResults.NeverIdle | LibeventApp/app/src/main/cpp/evdns.c:627-654 | with nameservers, every event but a suspend leaves requests waiting only if the inflight limit is reached |
| ResolverSteady.Bookkeeping | LibeventApp/app/src/main/cpp/evdns.c:564-654 | after any run both counters are the lengths of their rings, inflight ids are distinct and never 0xffff, every inflight request has a nameserver of the ring, user requests in flight are at most the limit, and the count of good nameservers is true (for the linked rings: Evdns.Evdns.CountersAreLengths) |
| ResolverSteady.RingsAreDisjoint | LibeventApp/app/src/main/cpp/evdns.c:2214-2226 | after any run no lookup has requests in both rings or two in one (for the links: Evdns.Evdns.RingsAreWellFormed) |
| ResolverSteady.StaysAtWork | LibeventApp/app/src/main/cpp/evdns.c:627-654 | over whole runs: once nothing waits or the limit is reached, requests wait only while the limit is reached, until a suspend |
| ResolverSteady.ResumeSetsToWork | LibeventApp/app/src/main/cpp/evdns.c:2108-2113 | a run that ends with a resume leaves requests waiting only if the limit is reached |
| ResolverMoves.FailedServerIsLeft | LibeventApp/app/src/main/cpp/evdns.c:496-541 | when a nameserver fails and another is good, its unsent requests go to the good ones in turn, round after round, and no other request moves |
| ResolverCodes.ErrorByNumber | LibeventApp/app/src/main/cpp/evdns.c:695-711 | truncation comes first, the codes 1 to 5 are DNS_ERR_FORMAT to DNS_ERR_REFUSED, any other is unknown |
| ResolverCodes.PacketIsFor | LibeventApp/app/src/main/cpp/evdns.c:444-457 | a packet that can be read is for the request in flight with its id |
| ResolverCodes.RefusalMovesOn | LibeventApp/app/src/main/cpp/evdns.c:713-725 | for codes 4 and 5, with reissues left and another good server: the server is down, and the request is in flight, unanswered, marked for a good one with a count of zero; but it is passed on if and only if it was never sent to its server and is dealt the same server twice |
| ResolverCodes.ComesBackExample | LibeventApp/app/src/main/cpp/evdns.c:603-622 | a state that the invariant allows in which that happens |
| ResolverCodes.FailurePassesOn | LibeventApp/app/src/main/cpp/evdns.c:726-735 | code 2 is passed on, and so are 4 and 5 without reissues left, with no server marked |
| ResolverCodes.OtherCodesAreGood | LibeventApp/app/src/main/cpp/evdns.c:736-739 | with any other code or truncation the server is up when the error is passed on |
| ResolverCodes.ToldByNumber | LibeventApp/app/src/main/cpp/evdns.c:693-764 | after any run: a lookup answered by a packet is told success for an answer and the number of its code for an error |
| ResolverCodes.AnswerIsGood | LibeventApp/app/src/main/cpp/evdns.c:759-763 | an answer tells the user success and then brings the server up before the request ends |
| ResolverCodes.TimeoutsAddUp | LibeventApp/app/src/main/cpp/evdns.c:1893-1897 | each timer that fires counts one timeout, and one more than maxTimeouts takes the server down |
| ResolverCodes.ReadingTells | LibeventApp/app/src/main/cpp/evdns.c:1172-1203 | a read error takes the server down, a packet starts its count of timeouts again |
| ResolverCodes.AddedIsClean | LibeventApp/app/src/main/cpp/evdns.c:2116-2177 | an added nameserver is up with nothing against it |
| ResolverCodes.WritableSendsAll | LibeventApp/app/src/main/cpp/evdns.c:1271-1284 | when a socket can be written and takes every packet, nothing that is marked for its server is left |
| ResolverCodes.WritableRests | LibeventApp/app/src/main/cpp/evdns.c:1271-1284 | and the resolver goes on waiting to write exactly if there was something to send |
| ResolverCodes.ProbeGoesThere | LibeventApp/app/src/main/cpp/evdns.c:2001-2015 | the probe goes to the server whose timer fired, with one question to sendto |
| ResolverCodes.ProbeTells | LibeventApp/app/src/main/cpp/evdns.c:1987-1999 | success and code 3 bring the server back, any other result counts one more failure of a server that is down and sets its timer again |
| ResolverProbes.DownServersAreProbed | LibeventApp/app/src/main/cpp/evdns.c:459-553 | after any run with memory for the probes each nameserver that is down waits for its timer or for the answer to a probe |
| ResolverProbes.ProbeTimerStaysProbed | LibeventApp/app/src/main/cpp/evdns.c:2001-2015 | without that memory it is never probed again if and only if it is down and has no probe under way |
| Evdns.Evdns.NameserverPick | LibeventApp/app/src/main/cpp/evdns.c:1125-1157 | the walk along next stops at the first nameserver that is up, or when the head is back where it started, and picks and rotates as specified |
| Rings.Insert | LibeventApp/app/src/main/cpp/evdns.c:2214-2226 | on nodes linked by next and prev: the ring, well-formed both ways round, gets the node at its tail, and keeps its head unless it was empty |
| Rings.Unlink | LibeventApp/app/src/main/cpp/evdns.c:566-575 | taking a node out at any place leaves the ring of the others in their order, well-formed both ways round; the head moves on if it was the node, and the ring of one becomes empty |
| Rings.StepsBack | LibeventApp/app/src/main/cpp/evdns.c:2091-2095 | stepping the head back by one brings the tail in front |
| Rings.MoveAll | LibeventApp/app/src/main/cpp/evdns.c:2079-2099 | the loop that walks one ring by next links while it relinks each node into the other: every node is visited once, the other ring ends up well-formed with the moved nodes in front of it, and what they hold is Resolver.Shelve of what both held |
| Rings.InsertServer | LibeventApp/app/src/main/cpp/evdns.c:2152-2163 | a nameserver goes second, and the ring still goes round by next; the prev links stay right only as long as it has at most two members |
| Evdns.Evdns.RingsAreWellFormed | LibeventApp/app/src/main/cpp/evdns.c:2214-2226 | whenever the state is valid: in both rings of requests next and prev are inverse to each other, no request is in both or twice in one, and a head is null only for the empty ring |
| Evdns.Evdns.CountersAreLengths | LibeventApp/app/src/main/cpp/evdns.c:564-654 | with the invariant both counters are the lengths of the linked rings and every inflight request points to a nameserver of the ring |
| Evdns.Evdns.FindFromTransId | LibeventApp/app/src/main/cpp/evdns.c:444-457 | the walk once round the inflight ring returns the first request with the id, or null if there is none |
| Evdns.Evdns.FindServer | LibeventApp/app/src/main/cpp/evdns.c:2119-2128 | the walk once round the nameserver ring returns the one with the address, or null if there is none |
| Evdns.Evdns.CountNameservers | LibeventApp/app/src/main/cpp/evdns.c:2041-2053 | the walk counts each nameserver once |
| Evdns.Evdns.NameserverFailed | LibeventApp/app/src/main/cpp/evdns.c:496-541 | the walk once round the inflight ring moves just the unsent requests of the server, while nameserver_pick turns the other ring |
| Evdns.Evdns.TransmitMarked | LibeventApp/app/src/main/cpp/evdns.c:2020-2038 | the walk sends each request that was marked at the start once, and tells if there was one, although sending can mark a server as failed and move requests |
| Evdns.Evdns.PumpWaitingQueue | LibeventApp/app/src/main/cpp/evdns.c:627-654 | the loop unlinks the head of the waiting ring and inserts it into the other until the limit is reached or nothing waits; both rings stay well-formed |
| Evdns.Evdns.ClearNameserversAndSuspend | LibeventApp/app/src/main/cpp/evdns.c:2056-2104 | the nameserver ring is empty, every inflight node is linked into the waiting ring, and no pointer to a nameserver is left |
| Evdns.Evdns.Handle | LibeventApp/app/src/main/cpp/evdns.c:443-764 | every event has its whole specified effect on what the linked rings stand for, keeps them well-formed, and keeps the invariant |
| Evdns.Serve | LibeventApp/app/src/main/cpp/evdns.c:443-764 | so after every run the linked rings are well-formed and stand for the state of that run |
| Events.TimesAreInstants | LibeventApp/app/src/main/cpp/event.c:881-892 | for normalised times the comparison, sum and difference macros are those of the instants in microseconds |
| TimerHeap.TopIsFirst | LibeventApp/app/src/main/cpp/min_heap.h:63 | in heap order nothing is due before the top |
| TimerHeap.MinHeap.ShiftUp | LibeventApp/app/src/main/cpp/min_heap.h:122-132 | fills a hole with e: order and back-indices hold again; if e is not due before the one above, nothing else moves |
| TimerHeap.MinHeap.ShiftDown | LibeventApp/app/src/main/cpp/min_heap.h:134-147 | the hole sinks along earlier children as TimerHeap.Sink says and e is put just where it comes to rest: the trailing min_heap_shift_up_ moves nothing |
| TimerHeap.SinksAlongOnePath | LibeventApp/app/src/main/cpp/min_heap.h:134-147 | what lies outside the way of the hole stays, and the event that was where it comes to rest has moved to the parent |
| TimerHeap.MinHeap.Reserve | LibeventApp/app/src/main/cpp/min_heap.h:106-120 | grows to at least the size wanted or fails without change; the contents stay |
| TimerHeap.MinHeap.Push | LibeventApp/app/src/main/cpp/min_heap.h:65-71 | adds exactly the one event and keeps order and indices; with room reserved the array stays; failure changes nothing |
| TimerHeap.MinHeap.TakeOut | LibeventApp/app/src/main/cpp/min_heap.h:85-104 | the last event takes the place of the one taken out, order and indices hold |
| TimerHeap.MinHeap.Pop | LibeventApp/app/src/main/cpp/min_heap.h:73-83 | removes the event that is due first, whose index becomes -1 |
| TimerHeap.MinHeap.Erase | LibeventApp/app/src/main/cpp/min_heap.h:85-104 | removes an event at any place, whose index becomes -1; an event that is not in the heap is refused without change |
| EventLists.MinusOne | LibeventApp/app/src/main/cpp/event.c:932-941 | taking a listed event off its list shortens it by one and lowers the count by one unless the event is internal |
| EventLists.TotalsAfterChange | LibeventApp/app/src/main/cpp/event.c:932-941 | a change of one priority queue changes the totals by what it adds |
| EventBases.EventBase.InsertIO | LibeventApp/app/src/main/cpp/event.c:948-968 | event_queue_insert on the list of inserted events: list, flag and counter together |
| EventBases.EventBase.InsertActive | LibeventApp/app/src/main/cpp/event.c:948-972 | the same on the active queue of the event priority |
| EventBases.EventBase.InsertTimer | LibeventApp/app/src/main/cpp/event.c:948-978 | the same on the timer heap; with room reserved the push cannot fail and the heap does not grow |
| EventBases.EventBase.RemoveIO | LibeventApp/app/src/main/cpp/event.c:919-935 | event_queue_remove from the list of inserted events |
| EventBases.EventBase.RemoveActive | LibeventApp/app/src/main/cpp/event.c:919-939 | the same from an active queue |
| EventBases.EventBase.RemoveTimer | LibeventApp/app/src/main/cpp/event.c:919-942 | the same from the timer heap |
| EventBases.EventBase.EventAdd | LibeventApp/app/src/main/cpp/event.c:695-770 | fails exactly when there is no room for the timeout or the backend refuses, and then no list, flag, counter or deadline has changed; otherwise the event is where it should be, an old timeout is replaced and an expiry not yet run is called off |
| EventBases.EventBase.EventDel | LibeventApp/app/src/main/cpp/event.c:773-807 | the event is off all three lists, every other event stays where it is, in order |
| EventBases.EventBase.EventActive | LibeventApp/app/src/main/cpp/event.c:809-822 | results of an active event are added together; any other goes to the end of the queue of its priority |
| EventBases.EventBase.TimeoutProcess | LibeventApp/app/src/main/cpp/event.c:895-917 | terminates with exactly the events due by now off the heap and the I/O list and active with EV_TIMEOUT as their only result, even those active for something else before, at the end of their queues in the order they fell due; every other timer is later than now and untouched |
| EventBases.FiredOneMore | LibeventApp/app/src/main/cpp/event.c:906-916 | one expiry after another leaves each queue as if all expired events had been taken out and appended in turn |
| EventBases.EventBase.TimeoutNext | LibeventApp/app/src/main/cpp/event.c:824-851 | the wait is such that nothing falls due before its end and something is due by then; zero if something is due already, none without timers |
| EventBases.EventBase.TimeoutCorrect | LibeventApp/app/src/main/cpp/event.c:860-892 | when the clock has gone back every deadline goes back by the same amount, in place, and the heap is still in order |
| EventBases.EventBase.FirstQueue | LibeventApp/app/src/main/cpp/event.c:352-367 | when the counter says that something is active there is a nonempty queue, and the first is found: the assertion in event_process_active holds |
| EventBases.EventBase.TakeNext | LibeventApp/app/src/main/cpp/event.c:369-374 | the event at the front is taken off the queue, and off every list unless it persists |
| EventBases.EventBase.CountersTell | LibeventApp/app/src/main/cpp/event.c:340-344 | event_count is zero exactly when no event that is not internal is on any list, event_count_active exactly when none is active |
| Watches.AddThenRemove | LibeventApp/app/src/main/cpp/poll.c:204-360 | removing undoes adding and adding undoes removing |
| Watches.Tell | LibeventApp/app/src/main/cpp/poll.c:171-196 | each event of a descriptor is activated once, with just the part of the result it is due |
| PollBackend.CloseInverse | LibeventApp/app/src/main/cpp/poll.c:341-356 | moving the last descriptor into the vacated place keeps the dense array and idxplus1_by_fd inverse to each other |
| PollBackend.CloseIsLocal | LibeventApp/app/src/main/cpp/poll.c:341-356 | and changes the watch of no other descriptor |
| PollBackend.OpenIsLocal | LibeventApp/app/src/main/cpp/poll.c:277-285 | a new place for a descriptor changes no watch |
| PollBackend.PollOp.Add | LibeventApp/app/src/main/cpp/poll.c:204-304 | adds the event to the map from descriptors to reader and writer; when memory fails the map is as before |
| PollBackend.PollOp.Del | LibeventApp/app/src/main/cpp/poll.c:309-360 | for a descriptor that idxplus1_by_fd reaches: removes the event from the map; -1 exactly when nobody watches the descriptor |
| PollBackend.PollOp.Dispatch | LibeventApp/app/src/main/cpp/poll.c:166-199 | from any start the scan visits every place once: each event gets exactly the result it is due |
| EpollBackend.EpollOp.Recalc | LibeventApp/app/src/main/cpp/epoll.c:156-181 | the table grows by doubling until the descriptor fits, and keeps what it holds |
| EpollBackend.EpollOp.Add | LibeventApp/app/src/main/cpp/epoll.c:265-311 | the operation chosen for epoll_ctl is always legal, the kernel mask remains that of the nonnull slots, and the map gains the event |
| EpollBackend.EpollOp.Del | LibeventApp/app/src/main/cpp/epoll.c:313-362 | likewise the map loses the event; the operation is legal unless nobody watches the descriptor; when the kernel fails it, table and kernel still agree if and only if the event was not there |
| EpollBackend.EpollOp.Dispatch | LibeventApp/app/src/main/cpp/epoll.c:216-245 | for what epoll_wait reports, in any order, each event gets exactly the result it is due |
| SelectBackend.SelectOp.Resize | LibeventApp/app/src/main/cpp/select.c:206-262 | larger sets and tables hold the same watches; when one of the six reallocations fails the arrays differ in length, but nothing else is lost |
| SelectBackend.SelectOp.NewSize | LibeventApp/app/src/main/cpp/select.c:280-287 | doubling ends with a size in whole words, of 4 or 8 bytes, that reaches the descriptor |
| SelectBackend.SelectOp.Add | LibeventApp/app/src/main/cpp/select.c:265-309 | the bit and the table entry are set together; the map gains the event |
| SelectBackend.SelectOp.Del | LibeventApp/app/src/main/cpp/select.c:315-341 | both are cleared; the map loses the event |
| SelectBackend.SelectOp.Dispatch | LibeventApp/app/src/main/cpp/select.c:178-200 | from any start every descriptor up to the highest is visited once, each event gets the result it is due |
| Backends.StaysSound | LibeventApp/app/src/main/cpp/event.c:722-728 | adds and deletes in turn keep at most one event per descriptor and direction |
| Backends.Replay | LibeventApp/app/src/main/cpp/poll.c:204-360 | any sequence of adds and deletes, the latter for descriptors with an event at first or an add before, leaves poll, epoll and select with the same map |
| Backends.DispatchBoth | LibeventApp/app/src/main/cpp/poll.c:166-199 | poll and epoll activate the same events with the same results for the same readiness, wherever poll starts and in whatever order epoll reports |
| Buffers.ChainIsUnbroken | LibeventApp/app/src/main/cpp/buffer.c:404-445 | what Valid says of the callback: each report starts from the length at which the one before ended, the last ends at the present length |
| Buffers.Buffer.Align | LibeventApp/app/src/main/cpp/buffer.c:341-347 | the bytes move to the front of the allocation unchanged |
| Buffers.Buffer.NewLength | LibeventApp/app/src/main/cpp/buffer.c:378-391 | the doubling ends, stays within size_t, meets the need and wastes less than half |
| Buffers.Buffer.Expand | LibeventApp/app/src/main/cpp/buffer.c:355-401 | leaves at least datlen free or fails for exactly two reasons, and never changes the contents |
| Buffers.Buffer.Add | LibeventApp/app/src/main/cpp/buffer.c:403-421 | append, or no change when it fails |
| Buffers.Buffer.Drain | LibeventApp/app/src/main/cpp/buffer.c:423-445 | drop from the front, all if there is less |
| Buffers.Buffer.Remove | LibeventApp/app/src/main/cpp/buffer.c:194-205 | take from the front into the caller buffer, as much as there is |
| Buffers.Buffer.AddBuffer | LibeventApp/app/src/main/cpp/buffer.c:100-135 | moves all of one buffer to the end of another, by trading or by copying alike; failure changes neither; both report their changes |
| Buffers.ReadLimit | LibeventApp/app/src/main/cpp/buffer.c:457-487 | what a read asks for is at most what it is told, and not nothing unless told so |
| Buffers.ReadTakesWhatWaits | LibeventApp/app/src/main/cpp/buffer.c:466-487 | of what waits it takes all that fits, and of more than 4096 bytes at least 4096 |
| Buffers.Buffer.Read | LibeventApp/app/src/main/cpp/buffer.c:453-509 | append of what arrives, or no change |
| Buffers.Buffer.Write | LibeventApp/app/src/main/cpp/buffer.c:511-528 | drop of what was taken |
| Lines.CutIsTheLineEnd | LibeventApp/app/src/main/cpp/buffer.c:266-316 | each style cuts at one place: LF at the first LF; CRLF there with a CR before it; strict at the first CR LF however many stray CRs come before; any at the first run of CRs and LFs |
| Lines.LinesRebuild | LibeventApp/app/src/main/cpp/buffer.c:310-314 | read with LF until nothing more comes: as many lines as LFs, no LF in any line or in the rest, and lines, LFs and rest rebuild the input |
| Lines.StrictLinesRebuild | LibeventApp/app/src/main/cpp/buffer.c:296-309 | the same for CR LF: no line holds the pair, and nothing is lost |
| Buffers.Buffer.Readln | LibeventApp/app/src/main/cpp/buffer.c:254-337 | returns the line before the first line end of the style and removes both; None exactly when there is none or no memory, and then nothing is removed |
| Buffers.Buffer.Readline | LibeventApp/app/src/main/cpp/buffer.c:212-251 | ends the line at the first CR or LF and takes the other of the two with it if it is next |
| Buffers.Buffer.Find | LibeventApp/app/src/main/cpp/buffer.c:530-546 | the least offset at which a nonempty pattern matches, or none if it matches nowhere |
| Tagging.EncodeInt | LibeventApp/app/src/main/cpp/event_tagging.c:90-113 | the loop over nibbles yields the one encoding of a 32-bit number, zero included |
| Tagging.ReadInt | LibeventApp/app/src/main/cpp/event_tagging.c:226-257 | the loop reads the number and its length or refuses what is short or too long |
| Tagging.IntReadsBack | LibeventApp/app/src/main/cpp/event_tagging.c:90-257 | every 32-bit number reads back, and just its bytes are read, whatever follows |
| Tagging.WriteTag | LibeventApp/app/src/main/cpp/event_tagging.c:121-142 | a 32-bit tag takes at most the five bytes there are |
| Tagging.ReadTag | LibeventApp/app/src/main/cpp/event_tagging.c:144-173 | the loop reads a tag and its length, or refuses one without an end |
| Tagging.TagReadsBack | LibeventApp/app/src/main/cpp/event_tagging.c:121-173 | every 32-bit tag reads back, and just its bytes are read |
| Records.RecordReadsBack | LibeventApp/app/src/main/cpp/event_tagging.c:187-351 | a marshalled record reads back and leaves what follows |
| Records.StreamReadsBack | LibeventApp/app/src/main/cpp/event_tagging.c:187-351 | for any list of records as many reads as there are return exactly that list and leave the bytes after it alone |
| Records.Marshal | LibeventApp/app/src/main/cpp/event_tagging.c:187-194 | appends those of the tag, the length and the payload for which there is memory |
| Records.WholeIfAllAdded | LibeventApp/app/src/main/cpp/event_tagging.c:187-194 | what is appended is the record if and only if all three were added (the payload only if there is one) |
| Records.Unmarshal | LibeventApp/app/src/main/cpp/event_tagging.c:330-351 | moves the payload of the first record to dst; fails exactly when there is no whole record (or no memory), and then dst is as it was and src lost no more than the head |
| Records.Consume | LibeventApp/app/src/main/cpp/event_tagging.c:315-326 | removes the first record; a length past the end takes all there is |
| Records.PeekRecordLength | LibeventApp/app/src/main/cpp/event_tagging.c:271-292 | the length of the first record with its head, in 32 bits, without removing anything |
| Records.PeekIsConsume | LibeventApp/app/src/main/cpp/event_tagging.c:271-326 | that length is what evtag_consume removes if and only if the record is all there |
| Records.MarshalInt | LibeventApp/app/src/main/cpp/event_tagging.c:197-206 | a record whose payload is the encoded integer, by way of the scratch buffer, with what is missing when memory was |
| Records.UnmarshalInt | LibeventApp/app/src/main/cpp/event_tagging.c:355-381 | returns the integer exactly when the first record has the tag and holds one |
| Records.IntRecordReadsBack | LibeventApp/app/src/main/cpp/event_tagging.c:197-381 | what evtag_marshal_int writes evtag_unmarshal_int reads |
| Records.MarshalTime | LibeventApp/app/src/main/cpp/event_tagging.c:214-224 | a record of two encoded integers, with what is missing when memory was |
| Records.UnmarshalTime | LibeventApp/app/src/main/cpp/event_tagging.c:424-442 | reads both parts of a time from a record with the tag |
| Records.TimeReadsBack | LibeventApp/app/src/main/cpp/event_tagging.c:214-442 | a time comes back as it was if and only if both parts are numbers of 32 bits |
| BufferEvents.BufferEvent.Pressure | LibeventApp/app/src/main/cpp/evbuffer.c:76-90 | below the mark, or without one, the callback goes and an enabled reader is registered; at or above it nothing changes |
| BufferEvents.BufferEvent.OnReadable | LibeventApp/app/src/main/cpp/evbuffer.c:92-160 | the whole new state; no read takes the input past the mark; an enabled reader is afterwards registered or held at its mark if and only if no event_add was refused that mattered and the mark was not taken for reached below it |
| BufferEvents.StoppedBelowMark | LibeventApp/app/src/main/cpp/evbuffer.c:99-116 | a reader below its mark is stopped if and only if the distance in 32 bits is not in 1..0x7fffffff, so never when the mark is at most INT_MAX |
| BufferEvents.StoppedAtMark | LibeventApp/app/src/main/cpp/evbuffer.c:99-116 | a reader at its mark is stopped unless there is more than 2^31 bytes too much |
| BufferEvents.StalledByMark | LibeventApp/app/src/main/cpp/evbuffer.c:92-160 | a mark of 2^31 stops a reader with an empty input |
| BufferEvents.BufferEvent.OnWritable | LibeventApp/app/src/main/cpp/evbuffer.c:163-220 | what is written leaves the front of the output; an enabled writer with output left is registered if and only if its event_add succeeds; the user is called exactly at or below the low mark |
| BufferEvents.BufferEvent.Write | LibeventApp/app/src/main/cpp/evbuffer.c:325-340 | accepted bytes go to the end of the output; no stall if and only if nothing was to register or event_add succeeds |
| BufferEvents.BufferEvent.Read | LibeventApp/app/src/main/cpp/evbuffer.c:354-369 | bytes go to the user in the order they came; falling below the mark starts reading again if and only if event_add succeeds |
| BufferEvents.BufferEvent.Enable | LibeventApp/app/src/main/cpp/evbuffer.c:371-385 | the whole new state, failures included; enabling never makes a stall |
| BufferEvents.BufferEvent.Disable | LibeventApp/app/src/main/cpp/evbuffer.c:387-401 | the whole new state, failures included; no stall if and only if every event_del succeeds that was to end a direction with something left to do |
| BufferEvents.StalledByDisable | LibeventApp/app/src/main/cpp/evbuffer.c:387-401 | a failing event_del leaves the reader enabled and not registered |
| BufferEvents.BufferEvent.SetWatermark | LibeventApp/app/src/main/cpp/evbuffer.c:423-440 | new marks; a reader held back by the old ones and not by the new goes on if and only if event_add succeeds |
| Chunked.SizeLineIsRead | LibeventApp/app/src/main/cpp/http.c:820-836 | every spelling of a size in hexadecimal digits of either case, with any zeros before and with a space and anything after, is read as that size, or as LLONG_MAX if that is less |
| Chunked.DigitsSpell | LibeventApp/app/src/main/cpp/http.c:820-836 | every nonempty line of such digits spells a size |
| Chunked.JunkIsRefused | LibeventApp/app/src/main/cpp/http.c:820-836 | digits followed by anything but a space are refused |
| Chunked.NegativeIsRefused | LibeventApp/app/src/main/cpp/http.c:820-836 | so are numbers below zero |
| Chunked.SizeReadsBack | LibeventApp/app/src/main/cpp/http.c:820-836 | a size printed with %x is read back by evutil_strtoll |
| Chunked.RunSettles | LibeventApp/app/src/main/cpp/http.c:802-855 | one call on a part of an encoding ends with everything read, waiting in good order, or with the LF of a size line still to come |
| Chunked.TornIsWrong | LibeventApp/app/src/main/cpp/http.c:802-855 | a reader that has taken a size line without its LF never gives the right body, unless the chunk is all LF |
| Chunked.WaitingIsWhole | LibeventApp/app/src/main/cpp/http.c:802-855 | a reader that waits in good order has not been cut there |
| Chunked.DecodesWhatIsEncoded | LibeventApp/app/src/main/cpp/http.c:802-855 | however a body of nonempty chunks, each after a size line in any spelling, is cut into pieces, the decoder reports all data read with the body the chunks make up if and only if no cut separates the CR and LF of the size line of a chunk that is not all LF |
| Chunked.DecodesWhatIsPrinted | LibeventApp/app/src/main/cpp/http.c:1988-2020 | so it is with what evhttp_send_reply_chunk and evhttp_send_reply_end write |
| Chunked.TornBody | LibeventApp/app/src/main/cpp/http.c:802-855 | the body "hi", cut between the CR and the LF of its size line: the decoder takes a LF and the h for the chunk and then reports corrupted data |
| Chunked.SendChunk | LibeventApp/app/src/main/cpp/http.c:1988-2005 | writes the size as an unsigned int, CR LF, data, CR LF and empties the data buffer |
| Chunked.SentAsChunk | LibeventApp/app/src/main/cpp/http.c:1996-2003 | that is the chunk if and only if it has less than 2^32 bytes |
| Chunked.SendEnd | LibeventApp/app/src/main/cpp/http.c:2018-2020 | writes the last chunk and the empty trailer |
| Chunked.Request.HandleChunkedRead | LibeventApp/app/src/main/cpp/http.c:802-855 | the loop on buffers does what the decoder specification does; the body is what a chunk callback has been given and what the input buffer holds |

## Left out

- Sockets, the system calls, clocks and memory: their outcomes are parameters or an `Env`, as said above.
- Parsing of replies and requests beyond names (`reply_parse`, `request_parse`): a packet reaches the resolver model
  as an id, whether the rest could be read, and the kind of answer.
- The transaction id generator: an oracle that gives an unused id while there is one; that `transaction_id_pick` finds
  one is not modelled.
- `evdns_shutdown`, resuming without nameservers, callbacks that clear nameservers, and changes of the search list or
  of the limits while lookups are under way.
- A probe in flight when the nameservers are cleared: its answer has no effect in the model, where the original uses
  a nameserver record that is gone.
- The event loop keeps pointers to requests and nameservers with their timers and sockets; `Evdns.Handle` finds them by
  place and address instead. Freeing nodes has no counterpart.
- Server.ServerRequest.FormatResponse: asks that no name of the reply spills; what the original then overwrites behind
  its buffer is not modelled.
- `search_make_new` on an empty base name, and memory for copies of the name searched for.
- Integer widths of heap sizes and event counts; deadlines are mathematical integers.
- EventBases.EventBase.TimeoutCorrect: asks for normalised deadlines, as `evutil_timersub` does.
- `ev_pncalls`, by which deleting an event ends the loop that is running its callback; signals; changes of priority;
  `event_reinit`.
- TimerHeap.MinHeap.Push: the sizes are not bounded by the width of `unsigned`.
- Events in the backends are values with an identity instead of references, since nothing a backend reads of them
  changes; the arrays of `poll.c`, `epoll.c` and `select.c`, which are reallocated, are sequences reassigned element
  by element.
- PollBackend.PollOp.Del: asks for a descriptor inside `idxplus1_by_fd`, which `poll_del` reads without a test; an event
  that was added has one.
- SelectBackend.SelectOp.Dispatch: readiness is what `select` reports as readable or writable; it knows no hang-up.
- `evbuffer_add_printf`, which formats with the C library, and using one buffer as both arguments.
- Records.Unmarshal: buffers have less than 2^31 bytes, since the original keeps lengths in an `int`. Tags of more
  than five bytes shift by more than the width of the type; the model takes the bits beyond 32 as lost.
- Tagged strings and fixed-length payloads, which are records like any other.
- The input and output of a `BufferEvent` are sequences: that `evbuffer` behaves like one is what the buffer model
  proves. Timeouts are seen only as events; `bufferevent_settimeout`, `bufferevent_setfd` and writing to the output buffer directly are not
  modelled.
- Chunked.Request.HandleChunkedRead: buffers under 2^31 bytes, memory for every line that is read, and a chunk callback
  that does not touch the request.
- The connection life cycle and headers of HTTP, RPC, logging and the platform wrappers.
