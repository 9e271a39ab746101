# A verified model of holesail-cpp

holesail-cpp tunnels local TCP connections and UDP datagrams over encrypted streams found through a DHT. It is
single-threaded and driven by callbacks. This project models the parts of it that hold state or transform bytes
and proves what they promise over every run and every input:

| modules | what they model |
|---|---|
| `PipeModel`, `PipeProofs`, `TcpPipes` | the pipe between a local socket and a stream: two watermarks, in-flight writes, deferred teardown |
| `PreOpen` | bytes written before a stream has opened |
| `ServerModel`, `ServerProofs`, `ServerConns` | one inbound connection: pre-open buffer, withheld drains, drain contexts, two references |
| `ClientModel`, `ClientProofs`, `HolesailClients` | the client's connection map and the three debts it waits for |
| `Framing`, `Tunnel` | datagrams on a byte stream, and the UDP tunnel end to end |
| `EndToEnd` | a TCP connection through both pipes, from one local socket to the other |
| `UdpProxies`, `UdpSources` | the client's UDP proxy, and the proxy together with the connections it opens |
| `Numerals`, `Z32`, `Hex`, `Identity` | z-base-32 and hex, urls, key derivation: who dials whom |
| `RecordModel`, `RecordProofs`, `RecordText`, `Records` | the JSON record in the DHT: printer and scanner |

Each stateful component is told twice. A `...Model` module is a state machine over events that knows queues,
histories and debts, and no counters or flags. A class is the code: counters, flags, saturating subtractions, maps,
one method for each callback. Every method of a class ensures that its members stay exactly what the abstract state
implies (`Exact`) and that the abstract state moves by the function of that callback, so the theorems, which are
about every run of the abstract machine, hold of the code; the methods named `Play` take a class through any run.

## What is assumed of the environment

These are the `Enabled` predicates of the models, and the parameters that carry an environment's answer.

- Every accepted `uv_write` and every started connect is completed exactly once, writes in order, and before the
  handle's close callback. `uv_read_start` succeeds, and a read delivers between 1 and 65536 bytes.
- hyperdht calls back once for a dial, opens a stream at most once, closes it exactly once, and says nothing about
  it afterwards; no callback runs from inside the call that asks for it, except drains, which may run inside `write`.
- Writes a stream accepts are delivered in order.
- SHA-256 and keypair-from-seed are arbitrary functions to 32-byte keys; random bytes are parameters.

## Where the code does other than its comments say

- `src/server.cpp:288-289` says TCP never reaches the drop branch. It does, once at most, and exactly when the reads
  before the opening pass 262144 bytes (`ServerProofs.AtMostOneRefused`). The smallest budget that would make the
  comment true is 262144 + 65535 bytes (`ServerProofs.BudgetExactlyEnough`).
- `src/client.cpp:386-389` says that a stream leaks one drain context at most, since the pipe keeps one write
  outstanding. The pipe keeps 262144 bytes and more outstanding; what leaks is a context for every chunk not acknowledged
  when the stream closes (`ClientProofs.LeaksExactly`), and that can be any number up to 262144
  (`ClientProofs.ContextsLeak`).
- `src/server.cpp:389-390` says that after a failed flush the pipe meets the failure on its next write. When the pipe
  has stopped reading there is no next write, ever (`ServerProofs.FailedFlushStrands`, `FailedFlushCanStrand`).
- `stream_.close` is called more than once: for each end of file and in `destroy` (`PipeProofs.HalfClosesCounted` gives
  the exact number, `HalfCloseRepeats` a run).
- A drain that arrives after end of file restarts reading. It can exactly when a drain is owed as the end of file comes
  (`PipeProofs.EofIsFinalExactly`; `LateDrainReadsAgain` is a run).
- A write that completes after `destroy` can still resume the stream. It can exactly when the stream is paused as
  `destroy` comes (`PipeProofs.ResumesAfterDestroyExactly`; `ResumeAfterDestroy` is a run).
- `TcpPipe::connect` that fails to create its socket (`src/pipe.cpp:34-40`) leaves a pipe that swallows what the
  stream sends and still closes as if flushed (`PipeProofs.GracefulCloseWithoutSocketLoses`).
- `include/holesail/record.hpp:22` claims the bytes of `JSON.stringify`. That holds exactly of hosts without a
  backspace or a form feed (`RecordText.EncodeIsStringify`, `RecordProofs.NativeIsEcmaExactly`).
- `include/holesail/record.hpp:26-28` speaks of well-formed flat objects. `decode_record` also accepts anything after the
  closing brace, and text such as `[1` or `{"a":1` as a scalar; `RecordProofs.DecodesExactly` says just what it accepts.
- The UDP proxy knows a stream by its source address only. An entry lasts exactly as long as no write for it fails, no
  stream ever opened for its address ends, and the bytes of all those streams decode as one
  (`UdpProxies.EntryStaysExactly`). So when a stream has been given up and the next datagram has opened another, two
  things go wrong: the end of the old stream takes the newer one's entry (`UdpProxies.StaleEndTakesNewer`), and bytes
  that still come from the old one are decoded as the newer one's (`UdpProxies.StaleBytesSpoil`).
  Neither can happen exactly when every connection opened for the address before has settled
  (`UdpSources.OwnCallsOnlyExactly`), which can be read off as the stream is opened (`UdpSources.OpensAloneExactly`); a
  failed write followed by a datagram is enough to break it (`UdpSources.FailedWriteExposes`).
- A client told `secure` by its options while its url says nothing dials the hash of a public server's name
  (`Identity.ForcedSecureDials`), and a bare public name whose sixth letter is an `s` is taken for a secure key
  (`Identity.BareNameExactly`).

## Model

| member | source | states |
|---|---|---|
| `PipeProofs.StepInv` | src/pipe.cpp:30-260 | every callback keeps the life of the handle, both flow controls, and the delivery of what was handed over |
| `PipeProofs.Reachable` | src/pipe.cpp:30-260 | so they hold in every reachable state, over any interleaving |
| `PipeProofs.DownwardAccounting` | src/pipe.cpp:162-210 | a live pipe has the stream paused iff 65536 bytes or more are queued; pause and resume strictly alternate; paused implies a completion is owed |
| `PipeProofs.NeverWedged` | src/pipe.cpp:190-225 | once the accepted writes complete, the stream is unpaused, all bytes handed over are delivered, and a pipe whose stream had closed has ended by flushing |
| `PipeProofs.CompletionsUnwedge` | src/pipe.cpp:190-225 | the same from any live state |
| `PipeProofs.ClosedDelivers` | src/pipe.cpp:212-225 | a live pipe told of its stream's end delivers all it holds, and then ends as flushed |
| `PipeProofs.OfferedIsHanded` | src/pipe.cpp:162-164 | the pipe takes in exactly the bytes a run hands over while it lives, in order |
| `PipeProofs.GracefulCloseDelivers` | src/pipe.cpp:212-225 | a pipe that ended by flushing had nothing in flight and delivered exactly what the run handed over, in order, iff it had a socket or nothing to deliver |
| `PipeProofs.GracefulCloseWithoutSocketLoses` | src/pipe.cpp:34-40 | the run in which a failed connect loses a byte |
| `PipeProofs.UpwardAccounting` | src/pipe.cpp:130-160 | unacknowledged bytes stay below 262144 + 65536; reading implies below 262144; a connected, un-ended, live pipe reads iff below it, and if not reading has a drain owed, provided the bytes whose drains were lost for good stay below the mark |
| `PipeProofs.DrainsRestart` | src/pipe.cpp:136-145 | in whatever order the owed drains fire, synchronously or late, the last of them leaves the socket being read |
| `PipeProofs.ReadingAlwaysResumes` | src/pipe.cpp:136-145 | hence reading always resumes, with the same proviso, which ServerNeverWedges and ClientNeverWedges discharge |
| `PipeProofs.EofIsFinalExactly` | src/pipe.cpp:117-144 | end of file half-closes the stream and stops the reading; only a drain reads again; nothing ever does iff no drain is owed at that moment |
| `PipeProofs.LateDrainReads` | src/pipe.cpp:117-144 | any drain still owed at end of file does read again |
| `PipeProofs.LateDrainReadsAgain` | src/pipe.cpp:139-144 | the run in which one does |
| `PipeProofs.ResumesAfterDestroyExactly` | src/pipe.cpp:205-208 | no run after the destruction of a live pipe makes another flow call iff the stream was not paused at that moment |
| `PipeProofs.ResumeAfterDestroy` | src/pipe.cpp:205-208 | a run in which a destroyed pipe resumes its stream |
| `PipeProofs.FiresOnce` | src/pipe.cpp:139-145 | over any run no chunk's drain counts twice, and none that has fired is still owed |
| `PipeProofs.FailuresTearDown` | src/pipe.cpp:69-77 | every reported failure, whenever it comes, leaves the handle closing, the stream asked to close and nothing being read |
| `PipeProofs.StartsAs` | src/pipe.cpp:30-67 | a socket that cannot be created leaves no handle and tells nobody; one that cannot be connected is closed, and the stream with it; one being connected is alive and not read; one adopted is read |
| `PipeProofs.TeardownOnce` | src/pipe.cpp:227-260 | the handle is closed at most once; the stream is asked to close for each end; the owner is told at most once, only when the handle is gone and nothing local can call back |
| `PipeProofs.HalfClosesCounted` | src/pipe.cpp:117-233 | the stream is asked to close exactly once for each end of file and once more if the pipe is destroyed |
| `PipeProofs.HalfCloseRepeats` | src/pipe.cpp:117-233 | a run in which it is asked twice |
| `PipeProofs.TeardownCompletes` | src/pipe.cpp:227-260 | a destroyed pipe reports its end once libuv has answered what it owes |
| `TcpPipes.TcpPipe.constructor` | src/pipe.cpp:21-22 | a new pipe is the initial abstract pipe |
| `TcpPipes.TcpPipe.Start` | src/pipe.cpp:30-67 | connect in its outcomes, and adopt |
| `TcpPipes.TcpPipe.ConnectCb` | src/pipe.cpp:69-82 | reading starts, or the pipe is destroyed |
| `TcpPipes.TcpPipe.ReadCb` | src/pipe.cpp:130-160 | the chunk is counted, written and throttled as specified, drains firing inside the write included |
| `TcpPipes.TcpPipe.ReadCbEmpty` | src/pipe.cpp:111-128 | end of file half-closes, an error destroys |
| `TcpPipes.TcpPipe.Drain` | src/pipe.cpp:139-145 | the saturating subtraction never saturates; reading restarts below the mark |
| `TcpPipes.TcpPipe.OnStreamData` | src/pipe.cpp:162-188 | the write is queued and both counters stay the sum and the count of what is owed |
| `TcpPipes.TcpPipe.WriteCb` | src/pipe.cpp:190-210 | the oldest write leaves the queue; the stream resumes exactly below the mark |
| `TcpPipes.TcpPipe.OnStreamClose` | src/pipe.cpp:212-217 | ends at once iff nothing is in flight |
| `TcpPipes.TcpPipe.FlushFinished` | src/pipe.cpp:222-225 | destroys only a closed stream's pipe with an empty queue |
| `TcpPipes.TcpPipe.Destroy` | src/pipe.cpp:227-247 | idempotent; one uv_close or, without a handle, one notice |
| `TcpPipes.TcpPipe.ClosedCb` | src/pipe.cpp:249-260 | the one notice after the handle has gone |
| `TcpPipes.TcpPipe.Handle` | src/pipe.cpp:30-260 | any enabled event keeps the members exact and the invariant true |
| `TcpPipes.TcpPipe.Play` | src/pipe.cpp:30-260 | the code follows the abstract pipe through every run |
| `PreOpen.KeptInOrder` | src/client.cpp:336-385 | the byte buffer is whole writes joined in order, wherever the opening falls and whichever writes or flush fail |
| `PreOpen.KeptFromStart` | src/client.cpp:371-385 | from a new connection, within the budget, and with an empty buffer once open |
| `PreOpen.KeptSubsequence` | src/client.cpp:336-385 | the writes taken and waiting are a subsequence of those attempted |
| `PreOpen.AllKept` | src/client.cpp:375-394 | when nothing fails, an open stream leaves no write out, nor does one yet to open of writes that fit the budget |
| `ServerProofs.Reachable` | src/server.cpp:271-424 | the connection's invariants hold in every reachable state |
| `ServerProofs.FreedAtTheLater` | src/server.cpp:38-56 | freed exactly when the stream has closed and the pipe has reported its end; every owed callback finds it alive; every drain context is deleted exactly once |
| `ServerProofs.EndsReachStream` | src/server.cpp:318-321 | while there is a stream, it has been asked to close exactly when the pipe half-closed, so at the end of the local socket and at every teardown |
| `ServerProofs.ClosedIsFreed` | src/server.cpp:413-424 | after any run, a connection whose stream has closed needs only libuv's answers to be freed |
| `ServerProofs.StreamEndDelivers` | src/server.cpp:413-424 | when the stream of a connection ends, after any run, its live pipe still delivers all that was handed over |
| `ServerProofs.TakenIsKept` | src/server.cpp:273-317 | the bytes taken are the chunks of the run neither refused nor failed |
| `ServerProofs.OrderAcrossOpen` | src/server.cpp:273-317 | those bytes, in order, are what the stream has been given and what the buffer holds; no drain fires before the buffer is handed over |
| `ServerProofs.OpeningFiresWithheld` | src/server.cpp:378-403 | the opening fires each withheld drain once, in order; only refused bytes stay counted |
| `ServerProofs.DrainsFireOnce` | src/server.cpp:273-403 | over any run, across the opening too, no chunk's drain fires twice |
| `ServerProofs.AtMostOneRefused` | src/server.cpp:286-293 | at most one chunk is refused, and before the opening iff the reads pass 262144 bytes |
| `ServerProofs.FlushRestoresReading` | src/server.cpp:396-402 | after the flush the count is the refused length, at most 65536, and the socket is read again |
| `ServerProofs.ServerNeverWedges` | src/server.cpp:273-403 | an unread socket always has a drain to wait for, withheld or registered; while the stream lives, the opening, or the acknowledgements in whatever order, do read it again |
| `ServerProofs.FailedFlushKeepsCount` | src/server.cpp:388-393 | after a failed flush no drain is left, and the socket is read iff the count is below the mark |
| `ServerProofs.FailedFlushStrands` | src/server.cpp:388-393 | otherwise it is never read again, in any run |
| `ServerProofs.FailedFlushCanStrand` | src/server.cpp:388-393 | a run that comes to that, for every budget from 262144 up |
| `ServerProofs.SmallerBudgetRefuses` | src/server.cpp:287-293 | with any budget below 262144 + 65535 some run is refused a chunk |
| `ServerProofs.BudgetExactlyEnough` | src/server.cpp:287-293 | no run is refused anything iff the budget is at least 262144 + 65535 |
| `ServerConns.Conn.constructor` | src/server.cpp:364-369 | a TCP connection whose stream could be opened: two references, nothing buffered |
| `ServerConns.Conn.SideWrite` | src/server.cpp:273-317 | buffers, refuses, submits or fails, and keeps the context set right |
| `ServerConns.Conn.LocalRead` | src/server.cpp:273-317 | a read of the pipe through to the stream |
| `ServerConns.Conn.DrainCb` | src/server.cpp:324-331 | the context is deleted, and then its closure runs |
| `ServerConns.Conn.StreamOpenCb` | src/server.cpp:378-403 | the buffer is written first, in one write, and then the withheld drains fire in order; a failed write fires none |
| `ServerConns.Conn.StreamCloseCb` | src/server.cpp:413-424 | the pipe is told, then reference A is dropped |
| `ServerConns.Conn.DropBox` | src/server.cpp:413-419 | giving up the boxed reference is the abstract release: the later of the two frees the connection and the contexts left |
| `ServerConns.Conn.Play` | src/server.cpp:271-424 | the code follows the abstract connection through every run |
| `ClientProofs.StepInv` | src/client.cpp:206-502 | every event keeps the invariant of every connection ever begun |
| `ClientProofs.SettledForGood` | src/client.cpp:444-456 | ids are never reused, and a connection that owes and is owed nothing never changes again |
| `ClientProofs.SocketClosedOnce` | src/client.cpp:424-433 | an accepted socket is closed at most once, by the client or by its pipe, and has been once its connection settles |
| `ClientProofs.FailureShutsDown` | src/client.cpp:267-290 | a failed dial leaves nothing owed and the socket closed; a failed flush leaves no pipe and a stream asked to close |
| `ClientProofs.NeitherSideHangs` | src/client.cpp:316-405 | a stream whose pipe has gone has been asked to close; one whose pipe is there has been asked exactly when the pipe half-closed, so at the end of the local socket; a pipe whose stream has closed has been told |
| `ClientProofs.OpeningAdopts` | src/client.cpp:336-361 | a socket whose stream opens goes to a pipe that is alive and reading |
| `ClientProofs.StreamEndDelivers` | src/client.cpp:316-334 | when a stream ends, after any run, its live pipe still delivers all that was handed over |
| `ClientProofs.EverySocketCounted` | src/client.cpp:206-221 | over every run each socket accepted has become a connection or been closed at once, the latter only after destroy |
| `ClientProofs.TeardownShrinks` | src/client.cpp:472-502 | after destroy nothing new is awaited and every answer reduces what is |
| `ClientProofs.AnswerDue` | src/client.cpp:472-502 | until a destroyed client's connection settles, an answer to it is due |
| `ClientProofs.TeardownSettles` | src/client.cpp:472-502 | so answers alone settle it |
| `ClientProofs.DestroyTwice` | src/client.cpp:472-474 | a second destroy does nothing, whatever happens between the two |
| `ClientProofs.ClientNeverWedges` | src/client.cpp:363-418 | the client loses no drain for good: an unread socket has an acknowledgement to wait for, and while its stream is open its acknowledgements, in whatever order, read it again |
| `ClientProofs.LeaksExactly` | src/client.cpp:386-418 | the contexts alive when a stream closes are never deleted; while the pipe lives they are exactly those of the chunks not acknowledged |
| `ClientProofs.ContextsLeak` | src/client.cpp:386-394 | for every number up to 262144 a run that leaves so many behind |
| `ClientProofs.StreamGetsReads` | src/client.cpp:371-394 | over every run a local connection's stream has been given, in order, what its socket has been read for, but for one last chunk that tore the pipe down |
| `ClientProofs.BufferFollows` | src/client.cpp:336-394 | over every run, failures and destroy included, a connection's buffer does what PreOpen says of the writes made |
| `ClientProofs.UdpLinkDelivers` | src/client.cpp:223-385 | over every such run the stream of a UDP source has been given whole datagrams, those of the writes it took, in order; the far end, however the bytes arrive, puts out a first part of them, and all once every byte is there |
| `ClientProofs.ProxyHears` | src/client.cpp:304-327 | the proxy is passed every byte a UDP source's stream brings, in order, and has been told of the stream's end last of all once the connection settles |
| `ClientProofs.GivenUpStillSpeaks` | src/client.cpp:304-327 | a stream the proxy has given up still brings bytes, and an end, under the same address |
| `HolesailClients.HolesailClient.OnLocalConnection` | src/client.cpp:206-221 | a fresh id, in the map while its dial is owed; after destroy the socket is closed at once |
| `HolesailClients.HolesailClient.OpenUdpStream` | src/client.cpp:223-237 | the same for a datagram source; a side is returned iff the dial started |
| `HolesailClients.HolesailClient.BeginDhtConnect` | src/client.cpp:239-260 | a dial that cannot start shuts the connection down and erases it |
| `HolesailClients.HolesailClient.ConnectCb` | src/client.cpp:262-290 | the dial's debt becomes the stream's, or the connection is shut down |
| `HolesailClients.HolesailClient.StreamOpenCb` | src/client.cpp:292-361 | flushes, then the pipe adopts the socket |
| `HolesailClients.HolesailClient.StreamDataCb` | src/client.cpp:304-314 | data reaches the proxy or the pipe |
| `HolesailClients.HolesailClient.StreamCloseCb` | src/client.cpp:316-334 | the stream's debt is settled, and the proxy or the pipe told |
| `HolesailClients.HolesailClient.PipeCb` | src/client.cpp:355-359 | on_destroy settles the pipe's debt |
| `HolesailClients.HolesailClient.SideWrite` | src/client.cpp:371-385 | fails exactly when the connection has settled or the open stream fails |
| `HolesailClients.HolesailClient.LocalRead` | src/client.cpp:371-394 | a chunk the pipe reads goes to the stream, with a context made for its drain and deleted if the write fails |
| `HolesailClients.HolesailClient.DrainCb` | src/client.cpp:411-418 | the context is deleted, and its closure runs only if the pipe is still there |
| `HolesailClients.HolesailClient.ShutdownConn` | src/client.cpp:424-442 | socket, proxy's entry, then pipe or stream, then reap |
| `HolesailClients.HolesailClient.Reap` | src/client.cpp:447-456 | looks at the flags and leaves the map exact: erased iff nothing is owed |
| `HolesailClients.HolesailClient.Destroy` | src/client.cpp:472-502 | every connection still owed something is shut down once, the map shrinking meanwhile |
| `HolesailClients.HolesailClient.Play` | src/client.cpp:206-502 | over every run the map holds exactly the connections owed a callback |
| `Framing.FrameRoundTrip` | src/udp_pipe.cpp:67-76 | a payload survives framing iff it is at most 65535 bytes |
| `Framing.NetworkOrder` | src/udp_pipe.cpp:67-76 | the four bytes in front are the payload's length in base 256, most significant first |
| `Framing.ReadInNetworkOrder` | src/udp_pipe.cpp:78-115 | four bytes that say n in base 256 take the next n off as a payload; above 65535 they are rejected; anything shorter waits |
| `Framing.Conservation` | src/udp_pipe.cpp:78-115 | re-framing what was emitted and appending the buffer gives every byte pushed, accepted or rejected |
| `Framing.Leftover` | src/udp_pipe.cpp:78-115 | the buffer is part of one frame, at most 65538 bytes, or starts at the rejected header |
| `Framing.DecodeIsTheOnlySplit` | src/udp_pipe.cpp:78-115 | the decoder accepts with an answer iff the bytes are those legal frames and part of one |
| `Framing.DecodeAppend` | src/udp_pipe.cpp:78-115 | reading on from what was left over is reading the whole |
| `Framing.ChunkIndependent` | src/udp_pipe.cpp:78-115 | any cutting into chunks gives the emissions, buffer and result of the whole, oversized headers included |
| `Framing.PrefixDecodes` | src/udp_pipe.cpp:78-115 | a stream of legal frames is never rejected, however much has arrived |
| `Framing.StuckStays` | src/udp_pipe.cpp:94-97 | a rejected header goes on being rejected |
| `Framing.FrameDecoder.Push` | src/udp_pipe.cpp:78-115 | the loop emits and keeps what the one-shot decoder says of buffer and data |
| `Tunnel.TunnelDelivers` | src/udp_pipe.cpp:340-343 | any datagrams, moment of opening, failures and cutting: the stream is given whole frames, the far end never rejects and emits their datagrams in order, all of them once every byte is there |
| `Tunnel.TunnelKeepsAll` | src/udp_pipe.cpp:340-343 | when nothing fails, an open stream is given every datagram, and one yet to open every one whose frames fit the budget together |
| `Tunnel.UdpPipe.OnStreamData` | src/udp_pipe.cpp:210-220 | sends the decoded datagrams; destroyed iff rejected |
| `Tunnel.UdpPipe.Feed` | src/udp_pipe.cpp:210-220 | any chunks of an acceptable stream send what the whole decodes to |
| `EndToEnd.ClientToServer` | src/pipe.cpp:130-225 | whatever happens at either end, short of tearing the server's pipe down, its socket has received in order a first part of what the client's was read for; all of it once everything is handed over and flushed |
| `EndToEnd.ServerToClient` | src/pipe.cpp:130-225 | and back, refused chunks left out |
| `EndToEnd.ClientToServerEnds` | src/pipe.cpp:130-225 | a stream that ends, having handed over all it was given, to a live pipe of the server: the server's socket gets everything that was read, but for a last chunk that tore the client's pipe down |
| `EndToEnd.ServerToClientEnds` | src/pipe.cpp:130-225 | and back: all that the server's stream was given |
| `UdpProxies.AddressesApart` | src/udp_pipe.cpp:305-370 | an address's entry, replies and frames are those of a run without the other addresses |
| `UdpProxies.EntryStaysExactly` | src/udp_pipe.cpp:325-370 | an entry lasts iff no write for it fails, no stream opened for its address ends, and all the bytes that come under the address decode as one |
| `UdpProxies.EntryServes` | src/udp_pipe.cpp:325-366 | while it lasts, requests and replies in any interleaving: each datagram goes to its stream as one frame, and what is sent back is the decoding of those bytes, however cut |
| `UdpProxies.NewEntryServes` | src/udp_pipe.cpp:325-366 | the same from the datagram that opens it |
| `UdpProxies.RepliesReturn` | src/udp_pipe.cpp:325-366 | when no other stream speaks under the address and the far end sends whole datagrams, the source gets back those, in order, and all of them once the bytes are in |
| `UdpProxies.StaleEndTakesNewer` | src/udp_pipe.cpp:344-370 | a write fails, the next datagram opens another stream, the old one ends: the newer entry is gone and its reply dropped |
| `UdpProxies.StaleBytesSpoil` | src/udp_pipe.cpp:344-366 | or the old one brings one more byte: the newer entry's reply is refused as oversized |
| `UdpProxies.UdpProxy.RecvCb` | src/udp_pipe.cpp:305-349 | opens a stream for a new source, forwards one frame, drops the entry if the write fails |
| `UdpProxies.UdpProxy.OnStreamData` | src/udp_pipe.cpp:351-366 | replies to the entry's address; an oversized frame drops the entry |
| `UdpProxies.UdpProxy.OnStreamClose` | src/udp_pipe.cpp:368-370 | has the same effect for whichever stream it is called, and none on another address |
| `UdpSources.StepInv` | src/client.cpp:223-442 | proxy and connections together: every datagram and callback keeps each entry's stream its own address's, with its end untold |
| `UdpSources.EntriesLive` | src/client.cpp:223-442 | over every run no entry outlives its stream, none shares it, and a write for it fails only if its own open stream fails it |
| `UdpSources.OwnCallsOnlyExactly` | src/client.cpp:304-327 | no callback but its own stream's touches an entry iff every other connection opened for its address has settled |
| `UdpSources.OpensAloneExactly` | src/udp_pipe.cpp:325-338 | a new entry is so iff, as its stream is opened, no connection of the address is unsettled |
| `UdpSources.OwnStreamServes` | src/client.cpp:304-314 | for as long as such an entry stays, its source is sent the decoding of its own stream's bytes, and its datagrams go to that stream |
| `UdpSources.FailedWriteExposes` | src/udp_pipe.cpp:344-348 | a write that an entry's open stream fails, and the next datagram, make an entry that is not |
| `UdpSources.GivenUpAsked` | src/udp_pipe.cpp:344-366 | every stream the proxy gives up is asked to close at once, if its connection has one |
| `UdpSources.SourceReachesFarEnd` | src/udp_pipe.cpp:325-348 | over every run of the client, each stream opened for an address has been given whole datagrams that the address sent, some left out and none changed, in order; the far end, however the bytes arrive, puts out a first part of those, and all once every byte is there |
| `UdpSources.OpenEntryReached` | src/client.cpp:223-361 | any source without an entry may come to have one with an open stream |
| `Z32.RoundTrip` | src/keys.cpp:27-64 | decoding an encoding gives back every byte string; the text has ceil(8n/5) letters |
| `Z32.EncodesNumeral` | src/keys.cpp:27-42 | the text is the byte string's number in base 32, padded at the end, in the letters of the alphabet |
| `Z32.DecodesNumeral` | src/keys.cpp:48-64 | a text of those letters is read as the number of its first whole bytes, any other as nothing |
| `Z32.CanonicalExactly` | src/keys.cpp:27-64 | encoding a decoding gives back a text iff it has no letter to spare and its spare bits are zero |
| `Z32.KeysAre52Letters` | src/client.cpp:72-78 | a text decodes to 32 bytes iff it is 52 letters of the alphabet |
| `Z32.SixteenNames` | src/client.cpp:72-80 | exactly sixteen texts name each key |
| `Z32.EncodeIn` | src/keys.cpp:27-42 | the encoder's loops compute the base-32 numeral in a word of any width from twelve bits up, the last letter included, so only twelve bits of the accumulator count |
| `Z32.DecodeIn` | src/keys.cpp:48-64 | and so does the decoder's its inverse |
| `Z32.Z32Encode` | src/keys.cpp:27-42 | the loops over a wrapping 32-bit accumulator compute the base-32 numeral |
| `Z32.Z32Decode` | src/keys.cpp:48-64 | and read it back, rejecting other characters |
| `Hex.HexRoundTrip` | src/keys.cpp:73-94 | every byte string comes back from its hexadecimal |
| `Hex.HexIsNumeral` | src/keys.cpp:73-81 | the hexadecimal is the byte string's number in base 16, two lower-case digits a byte |
| `Hex.HexCanonical` | src/keys.cpp:73-94 | hexadecimal text comes back in lower case |
| `Hex.ToHexLoop` | src/keys.cpp:73-81 | the loop prints two digits a byte, high first |
| `Hex.FromHexLoop` | src/keys.cpp:83-94 | the loop reads them, rejecting odd lengths and other characters |
| `Identity.UrlRoundTrip` | src/keys.cpp:102-116 | a made url is the protocol, four characters for the mode and the key; parsing it gives its key, and its mode exactly when secure |
| `Identity.UrlReadExactly` | src/keys.cpp:102-116 | of any text: the protocol and any four characters come off; it says secure iff its sixth character is an s, prefix or not |
| `Identity.ServerThrowsExactly` | src/server.cpp:111-118 | the constructor throws iff a seed is given and is not 64 hex digits |
| `Identity.DerivedServer` | src/holesail.cpp:94-120 | a derived server never throws and has the key pair of its key's hash |
| `Identity.SeedOfOptions` | src/holesail.cpp:94-120 | in terms of the options: the seed is the hash of the key given, in either mode; without one, of a random key in secure mode, and random in public mode |
| `Identity.ClientOfOptions` | src/holesail.cpp:112-118 | and the client: the key pair of the hash in secure mode, the 32 bytes its key spells in public mode |
| `Identity.SharedKeyDials` | src/holesail.cpp:94-120 | in secure mode whoever is given the server's key dials the server and is let in |
| `Identity.ServerKeyNames` | src/server.cpp:130-133 | a server's own key decodes to its seed in secure mode and to its public key otherwise |
| `Identity.Agreement` | src/holesail.cpp:199-233 | a client deriving from the reported url dials the server's public key unless secure is forced on it in public mode; the server lets it in with whatever throwaway key; in public mode everybody is let in, in secure mode only the server's own key pair; lookup asks for that key and its hash as the two arms |
| `Identity.AdmitsExactly` | src/server.cpp:257-265 | a secure server admits a client iff its key gives the same key pair |
| `Identity.ForcedSecureDials` | src/client.cpp:62-70 | with secure forced, a public server's client dials the hash of the name |
| `Identity.ForcedSecureCanMiss` | src/client.cpp:62-70 | a hash, a key pair function and a server for which that is somebody else |
| `Identity.BareNameExactly` | src/keys.cpp:114 | a bare public name is dialed as meant iff its sixth letter is not an s |
| `Identity.RestartKeepsIdentity` | src/holesail.cpp:103-112 | a server given a key, or a secure one given its own url, is the same server again |
| `RecordProofs.SpellingRead` | src/record.cpp:38-79 | every spelling of a string, with any escapes, is read whole as what it spells |
| `RecordProofs.ReadIsSpelling` | src/record.cpp:38-79 | and whatever is read as a string is a spelling of it |
| `RecordProofs.StringRead` | src/record.cpp:11-79 | every printed string is read back whole, whichever printer printed it |
| `RecordProofs.NativeIsEcmaExactly` | src/record.cpp:11-30 | the printer agrees with JSON.stringify iff there is no backspace and no form feed |
| `RecordText.EncodeIsStringify` | src/record.cpp:95-107 | so does the whole record: host, option if given, and port, in that order |
| `RecordText.EscapedAs` | src/record.cpp:11-30 | how each character is printed, character by character |
| `RecordText.StringifiedAs` | src/record.cpp:11-30 | and the two that JSON.stringify prints otherwise |
| `RecordText.LettersAre` | src/record.cpp:47-55 | the eight letters known after a backslash, and no others |
| `RecordText.UnitsAre` | src/record.cpp:56-71 | four hexadecimal digits are the character of that number below 128 and a question mark above; anything else is refused |
| `RecordProofs.ScannerFolds` | src/record.cpp:109-158 | any fields, order, whitespace, escapes and tail: the scanner returns their left fold |
| `RecordText.BlanksAre` | src/record.cpp:32-34 | whitespace is the space, the tab, the line feed and the carriage return |
| `RecordText.LaidOutRead` | src/record.cpp:109-158 | a record laid out with those four in any number, anywhere between its parts, is read as the fold of its fields |
| `RecordText.StrayRejected` | src/record.cpp:109-158 | any other character where whitespace may stand, before a key, a colon or a separator, after any fields, makes the scanner return nothing |
| `RecordText.LeadRejected` | src/record.cpp:109-112 | or before the object |
| `RecordProofs.DecodesExactly` | src/record.cpp:109-158 | the scanner returns a record iff the text is an object of such fields, or of none, and the record is their fold |
| `RecordProofs.FoldIsLast` | src/record.cpp:133-148 | in which the last string host, last true or false udp and last port in range win, and all else is ignored |
| `RecordProofs.PortRead` | src/record.cpp:141-147 | spaces, a plus, digits and what a NUL hides give their decimal value if it is a port |
| `RecordProofs.PortIsText` | src/record.cpp:141-147 | and a text that gives a port is of that form |
| `RecordText.SpacesAre` | src/record.cpp:141-147 | in which the spaces are the space and the characters 9 to 13 |
| `RecordText.DecimalReadAs` | src/record.cpp:141-147 | and the digits are read in base ten |
| `RecordText.DecimalIs` | src/record.cpp:104-105 | as the port is printed, without a zero in front |
| `RecordProofs.RoundTrip` | src/record.cpp:95-158 | decoding an encoding gives the host, the option, and the port unless zero |
| `RecordProofs.EncodeInjective` | src/record.cpp:95-107 | no two records are published as the same text |
| `Records.AppendEscaped` | src/record.cpp:11-30 | the loop appends the escaped text |
| `Records.EncodeRecord` | src/record.cpp:95-107 | prints the record, and what it prints is decoded to it |
| `Records.SkipWsAt` | src/record.cpp:32-34 | moves the index over whitespace only |
| `Records.CodeUnitAt` | src/record.cpp:57-70 | four hex digits accumulated by shifts, or nothing |
| `Records.ReadStringAt` | src/record.cpp:38-79 | reads a string from the index, which strictly advances |
| `Records.ReadScalarAt` | src/record.cpp:82-91 | reads a scalar up to a separator, trimmed at its end |
| `Records.ReadFieldAt` | src/record.cpp:120-149 | reads one field into the record |
| `Records.DecodeFields` | src/record.cpp:119-158 | the loop over fields, in bounds and terminating |
| `Records.DecodeRecord` | src/record.cpp:109-158 | the whole reader computes the specified function on every input |

## Left out

- libuv, hyperdht, libsodium, sockets, address resolution (`src/addr.cpp`), listeners and DHT queries: foreign calls,
  present only as the assumptions above.
- `src/cli.cpp`, `src/logger.cpp`, help and QR output; `resolve`, `next_seq`, `validate_opts`, state strings, pause and
  resume of an endpoint: each is one branch.
- The record's republishing (from `src/server.cpp:430`) and the lookup callbacks: newest reply wins, by one comparison.
- The reaper timer of `src/holesail.cpp`, the refresh timer and the loop drain: workarounds for the dependency.
- `~HolesailClient`, which leaks unfinished pipes on purpose.
- The server's `conns_` map of weak references, pruned on accept and used only to destroy what is left.
- `UdpPipe`'s own socket and its teardown; its sending half is the framed write of Tunnel.
- ServerConns.Conn.constructor: the connection of a UDP server, and one whose stream cannot be opened, which is dropped
  at once, are not modelled; the bytes of the former are Tunnel's.
- `UdpSources` is the client in UDP mode, where every connection is a source's; in TCP mode there is no proxy to call.
- TcpPipes.TcpPipe.ReadCb: the stream's answer is fixed before the call, so a `write` that destroys its own pipe from
  inside is not modelled; neither the server's closure nor the client's does that.
- ServerConns.Conn.StreamOpenCb: withheld closures are fired by the id of their chunk.
- The client's `Conn` objects are values under their ids, and their pipes are abstract ones, so aliasing between a map
  entry and a snapshot of it is not modelled.
- Records.DecodeRecord: works on characters where the source has bytes; `strtol` is the function `Strtol`.
- Framing.FrameDecoder.Push: collects the emitted frames in a list instead of calling back for each.
- Z32.Z32Encode: shifts are repeated halving and doubling, and a byte or letter shifted in is an addition, modulo 2^32.
- `EndToEnd` assumes of the stream between the two ends only that it hands over, in order, bytes it was given.
