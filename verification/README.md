# Aether, modelled and proved

Aether is a tunnel client: it reaches an edge over HTTP/2 or HTTP/3, carries IP packets there in
capsules, and gives the programs of the machine connections through a TCP/IP stack of its own. This
project models the parts of it that are state machines and codecs, and proves what they promise for
every input and every run.

* **HTTP/1.1 answers** (`http_*.dfy`, `text.dfy`, `bytes.dfy`). A reader that takes an answer as the
  network gives it, past interim answers, with three ways for a body to end and two search cursors.
  What it reads does not depend on how the bytes were cut up, exactly when no line is too long; what a
  server writes reads back and turns whole on its last byte; what is too large gives what the part
  within the limit decides; the searches together look at no more places than there are bytes.
* **The userspace stack** (`netstack_log.dfy`, `netstack_queue.dfy`, `netstack.dfy`). The table of TCP
  and UDP connections, with sockets that may answer in any way. In every run the socket set is the handles of the tables,
  each open command is answered once, what leaves the app queue for a connection is what its socket
  has, then what is pending, then what is deferred, a FIN of the half-close path follows a half-close
  that left that queue and every byte that left it before, and each app has been given what its socket
  gave, in order.
* **MASQUE capsules and their carrier over HTTP/2** (`varint.dfy`, `capsules.dfy`,
  `capsule_lists.dfy`, `carrier.dfy`, `tunnel_loop.dfy`). Packets come out of the stream as they went
  in, whatever the batches and the cuts, exactly while the parser has room; the tunnel is ready once
  and, with the data check, only after two chunks of the body out of each of which came a packet.
* **Calls to the WARP API** (`api_call.dfy`). Which way each attempt goes, when a call ends, and that
  the way the API answered by is the first of the next call.
* **Differential updates** (`package_chunks.dfy`, `delta.dfy`). Content-defined ranges resynchronise,
  and the plan a router makes of two manifests rebuilds the new package exactly, downloading no more
  than what stands before the common end.
* **DNS** (`dns_query.dfy`, `dns_answer.dfy`), **gateways** (`gateways.dfy`), **Happy Eyeballs**
  (`egress.dfy`), **the ClientHello and its fragments** (`client_hello.dfy`, `fragment.dfy`), **the
  gateways remembered** (`last_connection.dfy`) and **the IPv4 checksum** (`checksum.dfy`).

Most modules have the same shape: a function says what a whole input means, with no cursor and no
buffer; a class or a method does what the program does, in place and piece by piece, and is proved to
come to the same; and lemmas prove what the function promises, most often against an encoder or a
history that is defined on its own.

What the program reads from outside is a parameter: the bytes and how they are cut, the clock, random
choices, what sockets and queues answer, and which of several ready things comes first. `dafny verify
dfyconfig.toml` checks the project.

Four promises do not hold as one might state them, and are proved in the form in which they do:

* The length of a line is looked at only while its end has not come, so a long line is refused or not
  depending on the cuts. `HttpSplit.SplitIndependence` gives the exact condition on the bytes,
  `HttpSplit.RefusedCut` the cut that is refused, and `HttpLimits.LongLineExample` such an answer, with
  a status line and a `Transfer-Encoding: chunked` of its own.
* A reply to a DNS question is taken whatever class it names: `DnsQuery.MatchesExactly`,
  `DnsQuery.WholeQuestion` and `DnsQuery.EchoMatches`.
* A bare packet that starts with 0x40 0x00 before something that looks like a packet is taken for a
  context ID and a shorter packet: `Capsules.BareComesBack` gives the exact condition and
  `Capsules.TakenForContext` such a packet; no well-formed packet is one.
* A parser of capsules drops what it holds when it would hold too much. `Carrier.ArriveExactly` says
  that packets arrive if and only if no push is too much, and `Carrier.OneArrives` that one packet
  arrives, in any cut, if and only if the parser holds its capsule; `Carrier.JumboLost` is a packet of
  262,144 bytes that never does. `Carrier.LostAtOnce` gives packets that are lost in one piece, longer
  than any HTTP/2 frame of the tunnel, and arrive in two. `Carrier.FramesArrive` says when no push can
  be too much, and with it `Carrier.OrdinaryArrive` that in the HTTP/2 tunnel, whose frames have at most
  65,536 bytes, no packet of up to 65,535 bytes is lost this way.

The comments of the program say that each byte of an answer is looked at about once;
`HttpAnswer.Receive` proves that all searches together look at no more places than there are bytes.

## Model

| member | source | states |
|---|---|---|
| Search.Find | aether/src/https.rs:373-375 | `windows(n).position(..)`: what is found is a match at or after where the search starts |
| Search.FindFirst | aether/src/https.rs:373-375 | it is the first match, and there is none when none is found |
| Search.FindResume | aether/src/https.rs:372-379 | a search may start past places known not to match and finds the same |
| Search.FindExtend | aether/src/https.rs:372-379 | a match found early stays the first one when more comes |
| Text.FirstChar | aether/src/https.rs:533-534 | `str::from_utf8`, one character: a scalar value, in as many bytes of what is there as its one form has, so in no overlong form |
| HttpChunked.Step | aether/src/https.rs:497-543 | one piece of a chunked body moves on, and not past what has come |
| HttpChunked.Dechunked | aether/src/https.rs:494-546 | reading goes on until a piece has to wait for more, the body ends, or it is refused |
| HttpChunked.EndlessExactly | aether/src/https.rs:517-523 | a body is refused for a line too long if and only if reading it comes to a line without an end that is longer than the limit |
| HttpChunked.StepExtend | aether/src/https.rs:497-543 | more bytes change nothing of a piece that has come, but for a line refused as too long |
| HttpChunked.DechunkedExtend | aether/src/https.rs:494-546 | reading some of a body and then all of it is reading all of it at once |
| HttpChunked.LineTooLongExtend | aether/src/https.rs:519-522 | a line is refused early only when it is refused in the end, or is a long one that ends |
| HttpChunked.LongLineRefused | aether/src/https.rs:519-522 | a body with a long line that ends is refused by a reader that stops inside that line |
| HttpChunked.StepShrink | aether/src/https.rs:497-543 | a piece needs no more than the bytes up to its own end |
| HttpChunked.Dechunker.constructor | aether/src/https.rs:475-490 | nothing has been read |
| HttpChunked.Dechunker.Advance | aether/src/https.rs:494-546 | with its cursor, over any number of calls, it reads what `Dechunked` reads in the whole body, with the same error, and its searches look at no more places than the body has bytes |
| HttpChunked.Dechunker.ReadData | aether/src/https.rs:497-515 | a chunk's data and its CRLF, or the error for a size too large or no line end |
| HttpChunked.Dechunker.SeekLineEnd | aether/src/https.rs:517-524 | the search from one byte before where the last stopped finds the first line end from the start of the line |
| HttpChunked.Dechunker.ReadLine | aether/src/https.rs:516-543 | a line: a chunk size, a field of the trailer or its end, or the error for a long line or a bad size |
| HttpChunked.Dechunker.Finish | aether/src/https.rs:549-557 | after any calls of `Advance`: the data of the whole body given, if its last chunk and its trailer are in it, and nothing otherwise |
| HttpEncoding.ChunkSizeReads | aether/src/https.rs:533-539 | a size line gives back its size, whatever its leading zeros and extensions |
| HttpEncoding.LineAt | aether/src/https.rs:517-526 | a line with no line end of its own ends where it should |
| HttpEncoding.ChunksRead | aether/src/https.rs:494-546 | any chunks, with any extensions, and any trailer read as their data, joined, to the last byte |
| HttpEncoding.RoundTrip | aether/src/https.rs:494-557 | for any body, cut into chunks in any way: the encoding of section 7.1 of RFC 9112 reads back as the body on its last byte, and no part of it ends earlier or is refused |
| HttpAnswer.ReadHead | aether/src/https.rs:371-395 | the search for a head goes past interim answers and ends where none is whole, or with a head that has come |
| HttpAnswer.HeadAt | aether/src/https.rs:381-394 | one head: passed over when it is interim, refused for a bad status line or length, or the answer's with its body right behind |
| HttpAnswer.PushedSound | aether/src/https.rs:366-403 | a push keeps the places of the answer inside what has come, and adds its bytes to it |
| HttpAnswer.Http1Answer.constructor | aether/src/https.rs:336-345 | an empty answer |
| HttpAnswer.Http1Answer.Push | aether/src/https.rs:366-403 | in place, with its cursor, it does what `Pushed` says of the whole answer so far, with the same error, and all searches look at no more places than there are bytes |
| HttpAnswer.Http1Answer.SeekHeadEnd | aether/src/https.rs:372-380 | the search from three bytes before where the last stopped finds the first end from the start of the head |
| HttpAnswer.Http1Answer.SeekHead | aether/src/https.rs:371-395 | the head past any interim answers, or the answer the push ends with |
| HttpAnswer.Http1Answer.TakeHead | aether/src/https.rs:381-394 | one whole head: passed over, refused, or kept |
| HttpAnswer.Http1Answer.OpenBody | aether/src/https.rs:388-394 | the head kept with how its body ends, or the error of its length |
| HttpAnswer.Http1Answer.AdvanceBody | aether/src/https.rs:396-402 | whether the body is whole: by its length, by its chunks, or never |
| HttpAnswer.Http1Answer.Finish | aether/src/https.rs:408-429 | the status, the fields and the body, or why there is none |
| HttpAnswer.Receive | aether/src/https.rs:298-314 | reads of any sizes, up to the one that makes the answer whole, give what `Received` says; the places looked at are no more than the bytes |
| HttpSplit.HeadExtend | aether/src/https.rs:371-395 | more bytes change nothing of a head that has come, and go on from where the search stands |
| HttpSplit.RefusedAtOnce | aether/src/https.rs:517-523 | an answer is refused at once for a line too long if and only if its chunked body comes to such a line |
| HttpSplit.PushExtend | aether/src/https.rs:366-428 | pushing some and then the rest agrees with pushing all at once, but for a long line |
| HttpSplit.ReceivedFrom | aether/src/https.rs:366-428 | from any unfinished answer, the rest in any pieces reads as everything at once, or is refused for a long line |
| HttpSplit.SplitOrRefused | aether/src/https.rs:366-428 | any cuts of an answer within the size limit read as the answer at once, or are refused for a line of it that is long |
| HttpSplit.SplitIndependence | aether/src/https.rs:366-428 | every cut reads as the answer at once if and only if each line of its chunked body that ends is shorter than the limit, or the body comes to a longer line that does not end |
| HttpSplit.RefusedCut | aether/src/https.rs:519-522 | with a long line there is a cut in two that is refused |
| HttpSplit.HeadShrink | aether/src/https.rs:371-395 | a head needs no more than the bytes up to its own end |
| HttpWhole.HeadsRead | aether/src/https.rs:371-395 | interim answers and then a head read as that head, with the body right behind |
| HttpWhole.WholeOnLastByte | aether/src/https.rs:366-428 | an answer as a server writes it, with a length or in chunks, is whole on its last byte and not before, and nothing on the way is refused |
| HttpWhole.MessageRoundTrip | aether/src/https.rs:366-428 | however it is cut up, it reads back as its status, its fields and its content |
| HttpWhole.GoodExactlyWhenWhole | aether/src/https.rs:396-429 | after one more push of any answer, one with a length or in chunks is good if and only if the push said it was whole; one that ends with the connection never is whole and always is good |
| HttpWhole.GoodRun | aether/src/https.rs:298-314 | over every run of pushes, the answer is good if and only if none was refused and the last said it was whole, or it ends with the connection |
| HttpLimits.OneChunkReads | aether/src/https.rs:516-543 | a body of one chunk reads back at once however long its size line is |
| HttpLimits.LongLineInTwo | aether/src/https.rs:517-523 | every answer of one chunk with a long size line reads well at once and is refused in two pieces |
| HttpLimits.LongLineExample | aether/src/https.rs:517-523 | for every reader that finds in `HTTP/1.1 200 OK` and `Transfer-Encoding: chunked` what they say: one such answer, byte by byte |
| HttpLimits.OverLimit | aether/src/https.rs:366-370 | an answer past the limit, in any cuts: too large, unless what came before the piece that goes past it was already whole or refused, and then what that gives at once, or a refusal for a long line of it |
| NetLog.FinsLastGrows | aether/src/netstack.rs:866-872 | a FIN of the half-close path comes after a half-close and after all that was sent before it |
| NetLog.TakenSame | aether/src/netstack.rs:787-939 | events that take nothing from the app queue leave what was taken alone |
| NetStack.OwnedAdd | aether/src/netstack.rs:682-683 | a new socket and its connection keep the set the handles of the tables, each once |
| NetStack.OwnedDrop | aether/src/netstack.rs:929-934 | so do a socket and its connection that go |
| NetStack.OwnedHandles | aether/src/netstack.rs:663-743 | the socket set is the handles of the two tables and no other |
| NetStack.AnswersOpen | aether/src/netstack.rs:688-702 | a new command waits with its connection, unanswered |
| NetStack.AnswersFail | aether/src/netstack.rs:677-680 | a command whose socket does not connect is answered at once |
| NetStack.AnswersReply | aether/src/netstack.rs:807-847 | a connection stops waiting as its command is answered, once |
| NetStack.AnswersKeep | aether/src/netstack.rs:849-935 | nothing else answers a command or makes a connection wait |
| NetStack.ConservedStep | aether/src/netstack.rs:747-770 | what an event takes, hands over and leaves waiting adds up, in order, for its connection and no other |
| NetStack.FinsStep | aether/src/netstack.rs:866-872 | an event keeps what was sent before each half-close in the socket or pending, so that a FIN asked with nothing pending is the last |
| NetStack.FedNext | aether/src/netstack.rs:878-904 | each turn of the loop that feeds an app: a full queue, an app that is gone, nothing received, or one more chunk |
| NetStack.ServingTakesNothing | aether/src/netstack.rs:787-939 | the service of a socket has nothing to do with the app queue |
| NetQueue.PayloadAppend | aether/src/netstack.rs:632-649 | the payload of a queue is that of its parts, in order |
| NetQueue.FollowedStep | aether/src/netstack.rs:632-649 | what was taken for a connection is the payload for it among what left the queue since it was opened, turn after turn |
| NetQueue.TookOneMore | aether/src/netstack.rs:632-649 | a message that leaves the queue adds its payload to what was taken, or its half-close behind the payload of those before it |
| NetQueue.ClosesStep | aether/src/netstack.rs:632-649 | each half-close that happened is a message that left the queue since its connection was opened, with the payload before it taken |
| NetQueue.FinsArePlaced | aether/src/netstack.rs:866-872 | so each FIN follows a half-close that left the queue, and its socket has all the payload that left it before |
| NetStack.AllPlaced | aether/src/netstack.rs:747-770 | that payload is what the socket has, then what is pending, then what is deferred |
| NetStack.Settled | aether/src/netstack.rs:807-872 | every command is answered once when its connection stops waiting, and every FIN of the half-close path is in order |
| NetStack.Stack.constructor | aether/src/netstack.rs:529-539 | empty tables |
| NetStack.Stack.FreeHandle | aether/src/netstack.rs:682-682 | a handle the set does not use |
| NetStack.Stack.Drop | aether/src/netstack.rs:929-934 | an established connection and its socket go, and nothing else changes |
| NetStack.Stack.Refuse | aether/src/netstack.rs:824-846 | a connection that waits goes, and its command is answered with an error |
| NetStack.Stack.Connected | aether/src/netstack.rs:808-822 | it is established, and its command is answered with it |
| NetStack.Stack.Happens | aether/src/netstack.rs:747-872 | an event of one connection that adds up keeps everything that holds of every state |
| NetStack.Stack.HandleCmd | aether/src/netstack.rs:663-744 | what each command does to the tables: a connection with the next id and a handle of its own that waits, a refusal, a UDP socket, or nothing |
| NetStack.Stack.OpenConn | aether/src/netstack.rs:682-703 | a connection under an id never used before, whose command waits until its deadline |
| NetStack.Stack.FailConn | aether/src/netstack.rs:677-680 | the command is answered at once, and nothing else changes |
| NetStack.Stack.OpenSocket | aether/src/netstack.rs:717-737 | a UDP socket under an id never used before |
| NetStack.Stack.DropUdp | aether/src/netstack.rs:778-783 | a UDP socket leaves both tables |
| NetStack.Stack.TryHandleData | aether/src/netstack.rs:747-785 | a message of the app queue: as much payload as fits is pending and the rest comes back, a half-close is noted, a datagram goes to its socket with its address, a UDP socket goes, and what is for none is dropped |
| NetStack.Stack.AddPending | aether/src/netstack.rs:749-764 | pending never goes over its cap, and what does not fit comes back in order |
| NetStack.Stack.CloseHalf | aether/src/netstack.rs:765-770 | only the half-close is noted |
| NetStack.Stack.UdpSocketFound | aether/src/netstack.rs:771-777 | the socket a UDP message goes to is there and is a UDP one |
| NetStack.Stack.SendDatagram | aether/src/netstack.rs:771-777 | a datagram goes, with the address it is for, to a socket that is there and is a UDP one |
| NetStack.Stack.TcpSocketFound | aether/src/netstack.rs:792-804 | the socket of a connection is there and is a TCP one |
| NetStack.Apps.Give | aether/src/netstack.rs:902-902 | a piece goes to the end of the channel of its app, and to no other |
| NetStack.OneServed | aether/src/netstack.rs:787-939 | a connection serviced adds what its own socket gave, to its own app |
| NetStack.BothGave | aether/src/netstack.rs:572-573 | over both passes each app is given what its socket gave in the turn |
| NetStack.StepsOn | aether/src/netstack.rs:563-652 | who leaves the tables in a turn leaves by its service or its app, and who comes comes by a command, and is not established |
| NetStack.TracedStep | aether/src/netstack.rs:563-652 | one more turn adds what the sockets gave in it to what the apps have been given |
| NetStack.Stack.Deliver | aether/src/netstack.rs:874-904 | an app, and no other, is given the chunks its socket received, in order, at most so many, until its queue is full or it is gone, and a datagram even when it is empty |
| NetStack.Stack.ServiceConnect | aether/src/netstack.rs:807-847 | a connection that is not established is connected, refused, or waits, by the state of its socket and the clock |
| NetStack.Stack.ServiceSend | aether/src/netstack.rs:849-872 | the socket gets the start of what is pending, and a FIN is asked once a half-closed connection has nothing pending |
| NetStack.Stack.ServiceReceive | aether/src/netstack.rs:874-935 | the app is given what its socket received; with its app gone the socket is aborted or closed, with the other side closed it is closed, and once closed it goes |
| NetStack.Stack.ServiceConn | aether/src/netstack.rs:792-935 | all of it for one connection, and nothing but it and its app is touched |
| NetStack.Stack.ServiceTcp | aether/src/netstack.rs:787-939 | each connection is left as its own service leaves it and each app given what its own socket gave, whatever the order; nothing is taken from the app queue; it is busy if and only if the queue of one app was full |
| NetStack.Stack.ServiceUdp | aether/src/netstack.rs:941-989 | each app gets its datagrams as they came, empty ones too, with the addresses they came from; the UDP sockets whose app is gone go, and no others; it is busy if and only if the queue of one app was full |
| NetStack.Stack.DrainDeferred | aether/src/netstack.rs:584-589 | what was left over is tried again, takes nothing new, and what still does not fit is left over again |
| NetStack.Stack.TakeData | aether/src/netstack.rs:632-649 | messages are taken in order until one is left over, which none passes; what is taken for each connection is their payload for it |
| NetStack.Stack.ServiceAll | aether/src/netstack.rs:572-592 | both passes and the retry: what they leave of the tables, what each app is given, and that it goes on soon if and only if an app queue was full or something is left over |
| NetStack.Stack.Wake | aether/src/netstack.rs:606-652 | a command or the app queue, whichever comes first, and the queue only when nothing is left over |
| NetStack.Stack.Turn | aether/src/netstack.rs:563-652 | a turn takes from the queue only when nothing is left over, keeps everything, changes the tables only as their services and commands do, and gives each app what its socket gave |
| NetStack.Run | aether/src/netstack.rs:552-654 | in every run: the sockets are the handles of the tables; what left the app queue for a connection since it was opened is what its socket has, then what is pending, under its cap, then what is deferred; each FIN of the half-close path follows a half-close that left the queue and all that left it before; each command is answered once; each app has been given what its socket gave, turn by turn and in order, from the empty tables through those of every turn |
| NetStack.PortIs | aether/src/netstack.rs:546-550 | the ports go round their range |
| NetStack.PortsDiffer | aether/src/netstack.rs:546-550 | a port comes back only once all the others were given out, and then it does |
| PackageChunks.CutAfter | scripts/package_chunks.py:22-25 | a range ends past its start and not past the end of the package |
| PackageChunks.Boundaries | scripts/package_chunks.py:19-27 | the loop gives the ranges of the package |
| PackageChunks.CutSize | scripts/package_chunks.py:22-25 | a range has at most its greatest size, and one that is not the last at least its least size and a boundary |
| PackageChunks.Partition | scripts/package_chunks.py:19-27 | the ranges follow one another, are the package when joined, and each but the last keeps both sizes |
| PackageChunks.CutShift | scripts/package_chunks.py:22-25 | where a range ends depends on nothing before it |
| PackageChunks.RangesShift | scripts/package_chunks.py:19-27 | nor do the ranges after it |
| PackageChunks.AfterCut | scripts/package_chunks.py:19-27 | from a cut on, the ranges are those that start there |
| PackageChunks.Resynchronise | scripts/package_chunks.py:19-27 | packages with a common end that share one cut there share all the later ones |
| PackageChunks.CutAtBoundary | scripts/package_chunks.py:23-25 | the first boundary far enough on is where a range is cut |
| PackageChunks.PastBoundary | scripts/package_chunks.py:23-25 | a range that goes past a boundary started too close to it |
| PackageChunks.AnchorIsCut | scripts/package_chunks.py:19-27 | after two boundaries that are neither too close nor too far apart, with none between, one range ends wherever the ranges before were cut |
| PackageChunks.AnchorResynchronises | scripts/package_chunks.py:19-27 | so whatever stands before such a place, the ranges after it are the same |
| Delta.Index | scripts/package_chunks.py:70-79 | the manifest of a package, and none of an empty or too large one |
| Delta.Check | openwrt/files/usr/libexec/gozarbin/delta-plan.uc:6-21 | the loop takes a manifest exactly when its chunks follow one another, within the limits, to its size |
| Delta.FewRanges | openwrt/files/usr/libexec/gozarbin/delta-plan.uc:11-11 | how many ranges a package can have |
| Delta.WrittenIsAccepted | openwrt/files/usr/libexec/gozarbin/delta-plan.uc:6-21 | the router takes the manifest of every package up to the largest there may be |
| Delta.Plan | openwrt/files/usr/libexec/gozarbin/delta-plan.uc:41-55 | the operations for the chunks, joined where they go on, unless too little is reused or there are too many |
| Delta.JoinedTotal | openwrt/files/usr/libexec/gozarbin/delta-plan.uc:50-52 | joining loses and adds no bytes on either side |
| Delta.JoinedRebuilt | openwrt/files/usr/libexec/gozarbin/delta-plan.uc:50-52 | joining changes nothing of what is put together |
| Delta.OpIsChunk | openwrt/files/usr/libexec/gozarbin/delta-plan.uc:47-48 | the operation for a chunk of the new package gives that chunk, from whichever side |
| Delta.PlanRebuilds | openwrt/files/usr/libexec/gozarbin/delta.sh:53-78 | when chunks with the same hash are the same, the plan puts together the new package exactly, reading nothing out of bounds |
| Delta.DownloadBound | openwrt/files/usr/libexec/gozarbin/delta-plan.uc:46-53 | a package that ends as an old one did is downloaded up to the first such place in the common end at most |
| Varint.BigEndianReads | quiche/octets/src/lib.rs:187-209 | a number in network order reads back |
| Varint.VarintLen | aether/src/masque.rs:281-291 | the length it gives holds the value, for every value that can be written |
| Varint.GetVarint | quiche/octets/src/lib.rs:187-209 | one of four lengths, within what is there |
| Varint.VarintReads | quiche/octets/src/lib.rs:187-209 | an integer written in any length that holds it reads back, whatever follows |
| Varint.VarintWrites | quiche/octets/src/lib.rs:515-553 | what is read is what is written for that value in that length |
| Varint.VarintExtend | quiche/octets/src/lib.rs:187-209 | more bytes change nothing of an integer that has come |
| Capsules.AppendCapsule | aether/src/masque.rs:100-114 | the capsule goes onto the end, and takes as many bytes as its length says |
| Capsules.FirstFrame | aether/src/masque.rs:187-204 | a capsule is taken off only when all of it has come |
| Capsules.FrameReads | aether/src/masque.rs:94-114 | a capsule reads back as written, whatever follows |
| Capsules.FrameExtend | aether/src/masque.rs:187-204 | more bytes change nothing of a capsule that has come |
| Capsules.FramesSplit | aether/src/masque.rs:178-204 | capsules come off a stream the same however it is cut up |
| Capsules.BareComesBack | aether/src/masque.rs:136-165 | a bare packet comes back as it is if and only if it looks like a packet and does not start with the bytes of a context ID before what looks like another |
| Capsules.WellFormedComesBack | aether/src/masque.rs:136-165 | every packet with a header length of its own comes back |
| Capsules.TakenForContext | aether/src/masque.rs:136-158 | a packet that does not |
| Capsules.FramedComesBack | aether/src/masque.rs:136-158 | behind a context ID in any length, any packet comes back |
| Capsules.IpDatagramReads | aether/src/masque.rs:59-92 | a datagram of HTTP/3 goes to its own stream with its packet, and to no other |
| CapsuleLists.FirstAssigned | aether/src/masque.rs:233-249 | an address is taken off only when all of it is there |
| CapsuleLists.ParseAddressAssign | aether/src/masque.rs:229-253 | the loop reads the list, or fails as it does |
| CapsuleLists.AssignedReads | aether/src/masque.rs:229-253 | a list of addresses reads back, with its request IDs in any length |
| CapsuleLists.AssignedWas | aether/src/masque.rs:229-253 | and nothing but such a list is read |
| CapsuleLists.FirstRoute | aether/src/masque.rs:259-275 | a route is taken off only when all of it is there |
| CapsuleLists.ParseRouteAdvertisement | aether/src/masque.rs:255-279 | the loop reads the list, or fails as it does |
| CapsuleLists.RoutesExactly | aether/src/masque.rs:255-279 | what is read as a list of routes is that list as it is written, and nothing else |
| Carrier.Gather | aether/src/masque_h2.rs:704-717 | a batch is the first packets of the queue, in order, as capsules, under the batch size but for its last capsule, and no packet waits that would have fitted |
| Carrier.PumpOutbound | aether/src/masque_h2.rs:677-721 | over any turns, the writes are what was sent, in order, each under the batch size but for its last capsule, and of the queue none is lost, repeated or passed |
| Carrier.CapsuleParser.constructor | aether/src/masque.rs:174-176 | nothing is held |
| Carrier.CapsuleParser.Next | aether/src/masque.rs:187-220 | the next whole capsule is taken off even when its value is malformed, and otherwise nothing is |
| Carrier.DrainCapsules | aether/src/masque_h2.rs:743-793 | every packet that has come goes to the app queue and every assigned address is passed on, each in order, until a capsule is malformed or the queue is closed; it says whether there was a packet |
| Carrier.AssignmentsFit | aether/src/masque_h2.rs:796-806 | every address passed on has the length of its IP version, so none is left out |
| Carrier.DrainedAreIp | aether/src/masque.rs:136-165 | what comes out looks like IP packets |
| Carrier.DrainedIs | aether/src/masque_h2.rs:743-793 | with none malformed and the queue open, these are the packets of all capsules that have come |
| Carrier.Feed | aether/src/masque_h2.rs:622-625 | each chunk of the body is pushed and drained |
| Carrier.FedIs | aether/src/masque.rs:178-220 | however a stream is cut up, its packets come off it in order, as long as the parser holds it |
| Carrier.StreamFrames | aether/src/masque.rs:106-134 | the stream of packets is their capsules and nothing more |
| Carrier.PacketsArrive | aether/src/masque_h2.rs:698-767 | well-formed packets, in whatever batches and whatever pieces, come out in order, none lost, changed or repeated, and nothing is left over, while no push is too much |
| Carrier.FedWeight | aether/src/masque.rs:178-204 | no more comes out of the parser than went in, by the size of the capsules |
| Carrier.FedLess | aether/src/masque.rs:178-185 | and less once a push is too much |
| Carrier.ArriveExactly | aether/src/masque.rs:178-185 | well-formed packets come out as they went in if and only if no push is more than the parser has room for |
| Carrier.LostAtOnce | aether/src/masque.rs:178-185 | packets that are all lost in one piece, and all arrive in two |
| Carrier.NoneTooLong | aether/src/masque.rs:171-185 | whatever the cuts, no packet comes out whose capsule is longer than the parser holds |
| Carrier.OneArrives | aether/src/masque.rs:171-185 | a well-formed packet arrives, in any cut, if and only if the parser holds its capsule |
| Carrier.JumboLost | aether/src/masque.rs:171-185 | a packet of 262,144 bytes that is lost in every cut |
| Carrier.OrdinaryArrive | aether/src/masque_h2.rs:31-79 | with frames of at most 65,536 bytes, all packets of up to 65,535 bytes arrive, whatever the cuts |
| Carrier.RestIsShort | aether/src/masque.rs:178-204 | what is held of part of a stream is no longer than its longest capsule |
| Carrier.FramesArrive | aether/src/masque_h2.rs:28-37 | with chunks no longer than the frames that may be sent, and capsules that leave room for one, nothing is dropped |
| TunnelLoop.Tunnel.constructor | aether/src/masque_h2.rs:499-529 | with the data check a probe goes out and readiness waits until a deadline; without, it is ready at once |
| TunnelLoop.Tunnel.Turn | aether/src/masque_h2.rs:531-660 | a deadline that has passed ends the tunnel; otherwise what each ready thing sets off, how it ends, and when the pong is due |
| TunnelLoop.Tunnel.ParseChunk | aether/src/masque_h2.rs:622-625 | a chunk of the body is pushed and drained, and it says whether a packet came out |
| TunnelLoop.Tunnel.TakeChunk | aether/src/masque_h2.rs:622-649 | a chunk out of which a packet came counts until the tunnel is ready; the second makes it so, the first sends another probe |
| TunnelLoop.PacketsAreFed | aether/src/masque_h2.rs:622-625 | the packets of a run are those of its chunks, pushed and drained one after another |
| TunnelLoop.Run | aether/src/masque_h2.rs:531-660 | in every run: what came out of the parser is what its chunks put in; readiness comes once at most and after its proof, pings only after it and one at a time, and a pong is due exactly while one is outstanding |
| TunnelLoop.ReadyOnce | aether/src/masque_h2.rs:632-638 | readiness is signalled once at most |
| TunnelLoop.ReadyFollowsProof | aether/src/masque_h2.rs:622-638 | with the data check, before readiness came two chunks out of each of which draining gave an IP packet, with what the chunks before had left in the parser |
| TunnelLoop.PingsFollowProof | aether/src/masque_h2.rs:560-649 | and so readiness and those two chunks before every ping |
| Checksum.Folded | aether/src/masque.rs:355-357 | folding ends in a 16-bit number |
| Checksum.SumFits | aether/src/masque.rs:346-354 | the sum stays in 32 bits for every header, and far beyond |
| Checksum.Ipv4HeaderChecksum | aether/src/masque.rs:345-359 | the loops give the complement of the folded sum of the words |
| Checksum.FoldedIs | aether/src/masque.rs:355-357 | folding is arithmetic modulo 65535, in which only zero is written as zero |
| Checksum.StoredSum | aether/src/masque.rs:304-316 | a word stored in an even place that was zero adds itself to the sum |
| Checksum.ChecksumChecks | aether/src/masque.rs:304-316 | with its checksum stored, a header folds to all ones, and with another word only when that is the other form of the same number |
| ApiCall.RoutesOf | aether/src/account.rs:525-565 | there is a way, and with the default names at least two |
| ApiCall.NextFromIs | aether/src/account.rs:301-306 | the ways passed over have all turned the call away |
| ApiCall.NextWayIsOpen | aether/src/account.rs:301-306 | while one way is open, the next is the first open one after this, round the ways |
| ApiCall.ApiRun.constructor | aether/src/account.rs:604-611 | a run that remembers nothing |
| ApiCall.RememberedIs | aether/src/account.rs:761-781 | what a run remembers is the way by which the API itself answered last |
| ApiCall.ApiRun.CallBy | aether/src/account.rs:651-845 | the attempts made, each where the one before sends it and never a way that turned the call away, when the call ends and with what, and what is remembered |
| ApiCall.ApiRun.Follow | aether/src/account.rs:735-843 | what follows an answer: whether the way is marked, whether the call goes on, and which way |
| ApiCall.ApiRun.OpenAfter | aether/src/account.rs:301-306 | the next way is open when one is |
| ApiCall.ApiRun.Call | aether/src/account.rs:629-639 | a call by the ways of the options and of what is remembered |
| ApiCall.RotatedLength | aether/src/account.rs:576-583 | turning the ways keeps them all |
| ApiCall.TurnedAwayOnce | aether/src/account.rs:820-828 | a way that turned the call away is not tried again |
| ApiCall.EachTurnedOnce | aether/src/account.rs:745-828 | a way that turned the call away did so with one answer, not the API's and not worth asking again |
| ApiCall.SuccessIsLast | aether/src/account.rs:783-792 | no attempt follows a success |
| ApiCall.WhenIdentityRefused | aether/src/account.rs:797-807 | an identity counts as refused if and only if the last attempt got a 401 or a 410, or a 404 from the API or by the only way |
| ApiCall.AnsweredGoesFirst | aether/src/account.rs:569-585 | with the default names, the way the API answered by is the first of the next call |
| ApiCall.MemoryReorders | aether/src/account.rs:525-585 | whatever is remembered, the ways are the same but for their order and the name at the front edges |
| ApiCall.Session | aether/src/account.rs:628-845 | over any calls with the default names, each call starts with the way by which the API answered last |
| Gateways.GatewayStrikes.constructor | aether/src/lib.rs:1702-1707 | no gateway, no strikes, none at rest |
| Gateways.GatewayStrikes.Using | aether/src/lib.rs:1711-1716 | strikes are counted per gateway: a change of gateway starts from none |
| Gateways.GatewayStrikes.GiveUp | aether/src/lib.rs:1726-1734 | with enough strikes the gateway rests and the count starts over; with fewer nothing changes |
| Gateways.RestsAfterGiveUp | aether/src/lib.rs:1726-1734 | after giving one up, those at rest are again those given up less than the rest time ago |
| Gateways.RestsAfterScan | aether/src/lib.rs:1737-1740 | what a scan leaves out is exactly what was given up less than the rest time ago |
| Gateways.LeaveOut | aether/src/prober.rs:725-731 | none that is left is to be avoided, and each is a candidate |
| Gateways.LeaveOutHas | aether/src/prober.rs:725-731 | and every candidate that is not to be avoided is left |
| Gateways.MasqueRun.constructor | aether/src/lib.rs:1576-1577 | a run that has had no tunnel |
| Gateways.MasqueRun.GiveUpStruck | aether/src/lib.rs:1580-1589 | a gateway is given up exactly when its last two tunnels in a row ended soon and none was named by hand, and is not gone back to |
| Gateways.MasqueRun.Choose | aether/src/lib.rs:1591-1638 | where the next tunnel goes: the gateway of the last run, the last good one if it answers, the one named by hand, or one a scan finds; none of them at rest |
| Gateways.MasqueRun.RunTunnel | aether/src/lib.rs:1652-1662 | its gateway is the last good one, and the strikes are then, unless a gateway was named by hand, how many tunnels in a row through it ended soon, of those since the last was given up |
| Gateways.MasqueRun.Turn | aether/src/lib.rs:1579-1668 | one tunnel, or none when no gateway is found |
| Gateways.Run | aether/src/lib.rs:1576-1669 | in every run: each gateway given up had just had two tunnels in a row that ended soon, no tunnel starts through an address at rest, each scan left out exactly the addresses at rest, and with a gateway named by hand every tunnel goes through it |
| Egress.ByTurnsAlternates | aether/src/egress.rs:127-131 | the families take turns until one runs out, and the other goes on alone |
| Egress.Interleaved | aether/src/egress.rs:119-132 | that order, led by the family of the first address; all addresses, each family in its order |
| Egress.Kept | aether/src/egress.rs:123-131 | taking turns loses, adds and reorders nothing within a family |
| Egress.StartIsSound | aether/src/egress.rs:147-166 | starting the next attempt keeps those started in flight or failed, each once |
| Egress.FailureIsSound | aether/src/egress.rs:160-164 | so does a failure |
| Egress.AllFailed | aether/src/egress.rs:147-156 | with none in flight, all that were started have failed |
| Egress.Race | aether/src/egress.rs:138-169 | in every schedule: each address is started once and in order, one is in flight while the race waits, the first to connect wins, and it is lost only when every address failed, with the error of the last to fail |
| ClientHello.SniHostRange | aether/src/fragment.rs:118-157 | on any bytes it ends, in range, with the range `HostRange` gives |
| ClientHello.HostRangeFits | aether/src/fragment.rs:118-157 | a range is not empty, past the first byte and inside the buffer |
| ClientHello.OthersPassed | aether/src/fragment.rs:137-154 | extensions of other kinds are passed over |
| ClientHello.HostReads | aether/src/fragment.rs:141-152 | the range in a server-name extension is the name |
| ClientHello.HostIsFound | aether/src/fragment.rs:118-157 | in every ClientHello, with any session ID, suites and other extensions, the range is the name of the first server-name extension |
| ClientHello.NothingToFind | aether/src/fragment.rs:137-157 | with no such extension there is none |
| Fragment.PickChunkLen | aether/src/fragment.rs:66-74 | a piece is never empty nor more than what is left, and within the sizes asked for |
| Fragment.PickDelay | aether/src/fragment.rs:76-86 | a delay is within the delays asked for |
| Fragment.SplitIsLegal | aether/src/fragment.rs:216-224 | the cut at the name is always a piece that can be written, before the end of the name |
| Fragment.NameIsCut | aether/src/fragment.rs:216-224 | the first piece of a ClientHello ends with the first half of its name, and the next starts with the rest of it |
| Fragment.FragmentingStream.constructor | aether/src/fragment.rs:168-176 | pieces when they are asked for, and nothing written |
| Fragment.FragmentingStream.PollRead | aether/src/fragment.rs:183-191 | reading ends the pieces |
| Fragment.FragmentingStream.PieceLen | aether/src/fragment.rs:216-224 | the piece offered is never empty nor too long |
| Fragment.FragmentingStream.Offered | aether/src/fragment.rs:205-224 | what is offered: all, a piece, or nothing while a delay runs |
| Fragment.FragmentingStream.PollWrite | aether/src/fragment.rs:198-238 | what is taken is the start of what was given, onto the end of what was taken before; nothing while a delay runs; a delay follows a piece as it was picked |
| Fragment.FragmentingStream.WriteAll | aether/src/fragment.rs:198-238 | over any partial writes, delays and reads, the bytes go out in order, none lost or repeated, and all of them after enough writes that took something |
| DnsQuery.BuildQuery | aether/src/dns.rs:481-499 | the header, the labels behind their lengths, the type and the class, whatever dots the name has |
| DnsQuery.ResponseMatches | aether/src/dns.rs:427-479 | on any bytes it ends, in range, with what `Matches` says |
| DnsQuery.LabelsOfDomain | aether/src/dns.rs:202-213 | the labels of a valid domain are its parts between dots, with a trailing dot or without |
| DnsQuery.LabelsEndIs | aether/src/dns.rs:446-467 | labels match exactly where their bytes do up to letter case, as lengths have no case |
| DnsQuery.MatchesExactly | aether/src/dns.rs:427-479 | for every valid domain, a reply is taken if and only if its header agrees, it has one question, for the name up to letter case and for the type, and a class of any value |
| DnsQuery.WholeQuestion | aether/src/dns.rs:427-499 | the question is the one that was written if and only if the reply is taken and the class is IN |
| DnsQuery.EchoMatches | aether/src/dns.rs:427-479 | a reply that gives the question back is taken, whatever class it names |
| DnsQuery.OneName | aether/src/dns.rs:446-472 | a reply is never taken for two names that differ by more than letter case and a trailing dot |
| DnsAnswer.SkipName | aether/src/dns.rs:557-568 | on any bytes it ends, in range, behind the root label or the offset of a compressed name |
| DnsAnswer.ParseSvcParamsEch | aether/src/dns.rs:535-555 | on any bytes it ends, in range, with what `EchIn` says |
| DnsAnswer.SkipQuestions | aether/src/dns.rs:509-512 | so does the loop over the questions |
| DnsAnswer.ParseHttpsEch | aether/src/dns.rs:501-533 | so does the loop over the answers |
| DnsAnswer.NameSkipped | aether/src/dns.rs:557-568 | a name is skipped to its end, compressed or not |
| DnsAnswer.ParamsRead | aether/src/dns.rs:542-554 | the value of the first ech parameter is found among any others |
| DnsAnswer.RecordRead | aether/src/dns.rs:514-531 | a record without one is passed over, whatever its type |
| DnsAnswer.FirstEchIsFound | aether/src/dns.rs:501-555 | on every well-formed reply, the ech value of the first HTTPS record that has one is found, and nothing when none has |
| DnsAnswer.AnswerExactly | aether/src/dns.rs:418-425 | the list is given if and only if that value is there and not empty |
| LastConnection.SaveConnection | aether/src/lastconn.rs:31-51 | a save stores the peer first and then those stored before, unless the carrier changed, while there is room |
| LastConnection.AddedIs | aether/src/lastconn.rs:39-44 | the loop takes as many of the others as there is room for |
| LastConnection.TakeWithout | aether/src/lastconn.rs:39-44 | eight of a list are enough to have eight of it without one entry, behind that entry |
| LastConnection.RecentAreDistinct | aether/src/lastconn.rs:31-51 | after any saves, the peers kept are the first eight distinct ones since the last change of carrier, the newest first |

## Left out

- TLS, encrypted ClientHello, QUIC, HTTP/2 and smoltcp themselves: libraries, of which only what they may answer is modelled.
- The text of an HTTP head (`http1_head`): the status and the fields it reads are any function of its bytes; how a body ends is read from them as the program does.
- The queues of packets between the stack and the tunnel (`flush_tx`, the device): lists that are moved from one end to the other or dropped.
- NetStack.Stack.HandleCmd: does not model the addresses that SetAddrs sets, nor which local port a socket gets; the order of the ports is `NetStack.PortsDiffer`.
- NetStack.Stack.ServiceReceive: does not model that `pending` is cleared in the state TimeWait, as the connection leaves the table in the same turn.
- Delta.Check: does not model the names and the hashes as text; a manifest here has a size and chunks with a hash each.
- Delta.PlanRebuilds: does not model the sha256 of the whole package, which the router checks after, nor a mirror that sends the whole package instead of a range.
- Compression of the packages, hashing and JSON: a hash is any function, and what is proved of a plan holds when chunks with the same hash are the same.
- ApiCall.ApiRun.CallBy: does not model how long the waits between attempts are (`backoff_delay`, `retry_after_wait`), nor the keys of encrypted ClientHellos it remembers.
- Gateways.MasqueRun.Choose: does not model how a scan probes; what it finds is any candidate that is left. The text of a gateway named by hand that is no address ends the run, which is left out.
- Carrier.FramesArrive: does not model the app queue being full; a packet that then is dropped counts as given to it.
- LastConnection.SaveConnection: does not model the file; what was stored is what the next save reads. `usable_peers`, which filters and parses the list, is left out.
- DnsQuery.BuildQuery: does not model how the id is picked; it is a parameter. The lookup over UDP, TCP and HTTPS and its timeouts are left out.
- The HTTP/3 loop, WireGuard, SOCKS, Tor, Psiphon, bridges, routing, noise packets, identity provisioning, options, logging and environment variables: input and output around what is modelled, or files that are not part of this model.
