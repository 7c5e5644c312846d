# Verification of the lwIP server for STM32H7

This project models the stateful parts of the server in Dafny and proves what they
keep in every run: the TCP echo server on chains of reference-counted packet
buffers, the Ethernet transmit ring it shares with a DMA engine, the receive buffer
pool and the frames built from it, the circular UART receive buffer, the reassembly
of MQTT payloads, the link and DHCP state machines, and the wrapping software timer.

`dafny verify dfyconfig.toml` checks all of it.

## How it is built

| file | what it holds |
|---|---|
| `Pbuf.dfy` | packet buffers as heap objects; `Heap`, the conservation law of reference counts (each live buffer is counted once per outside holder and once per live predecessor); `pbuf_ref`, `pbuf_free`, `pbuf_cat`, `pbuf_chain` |
| `TcpSpec.dfy` | the echo connection as a state machine over values, with the theorems about every run |
| `TcpTalk.dfy` | the order of the calls between server and stack, what every callback tries, and how far that gets |
| `TcpConnection.dfy`, `TcpServer.dfy` | control blocks, connections, server and echo application as objects; every callback is proved to take the step of `TcpSpec` and to conserve the buffers |
| `EchoRun.dfy` | the server with many connections in any run of the stack, with the packets it is handed |
| `TxDescriptor.dfy`, `TxSpec.dfy`, `EthernetTx.dfy` | a transmit descriptor; the ring over values with every interleaving of driver and DMA; the driver's loops on descriptor objects |
| `TxBytes.dfy` | the bytes that the DMA reads through the descriptors |
| `EthernetTxRun.dfy` | driver, DMA and stack together in any order, on the objects |
| `EthernetRx.dfy` | the receive pool, the link callback and the way back into the pool |
| `EthernetRxRun.dfy` | pool, receive hardware and stack together in any order, on the objects |
| `DmaRxBuffer.dfy` | the three numbers of the circular buffer, the byte stream behind them, timely and untimely, the buffer and `_read` |
| `MqttClient.dfy` | topic order, subscription map, payload reassembly |
| `Network.dfy`, `NetworkRun.dfy` | link and DHCP machines; their runs told from the events alone |
| `LoopTimer.dfy` | the 32-bit timer against ideal time |
| `Ring.dfy`, `Memory.dfy` | positions in a ring (`Pos` is the remainder); copying a part of an array |

Code that changes objects is a class whose methods are proved against functions on
values; the theorems about whole runs are lemmas about those functions. Ghost
fields and parameters only name what the proof talks about.

What the environment may do:

- lwIP's `pbuf_*` functions, which are not part of the repository, follow lwIP's
  published behaviour: `pbuf_free` counts down, gives the buffer back at zero and
  goes on with `next`; it returns the number of buffers given back in 8 bits.
  Chain totals are 16 bits. Its 8-bit reference counts do not overflow.
- The answers of `tcp_sndbuf`, `tcp_write`, `tcp_close`, and whether `tcp_abort` runs
  the error callback, are arbitrary: an oracle that the theorems quantify over.
- `recv` delivers fresh acyclic chains of less than 65536 bytes held once, and neither
  data nor end-of-stream for a connection that was closed. Data after an end-of-stream
  are allowed.
- Where progress is claimed (`TcpTalks.AmpleRun`), the stack has memory and room for the
  largest buffer from then on; what holds without that is said there as well.
- The DMA finishes transmit descriptors in any order and writes anything into word 3
  that has the OWN bit clear. It takes a frame from the descriptors in ring order,
  from a first to a last flag, and all of them have to give the same length. What
  that asks of the words the driver writes over is `AddsNothing`, which
  `TxSpec.DecodesIff` shows to be exact; `Clean` (no flag, no length bit) is enough
  for it and simple to state of a write-back, but more than is needed.  Exact means:
  for a DMA that reads only the first and last flag and the 15-bit length in word 3
  and the two 16-bit lengths in word 2.  A stale bit 30 or 18 of word 3, or a buffer of
  2^14 bytes or more, makes no difference to it.
- The stack sends only packets it has not let go of yet.  The bytes on the wire are
  claimed for packets of fewer than 2^15 bytes, the length of each buffer being that of
  its payload.
- The receive hardware fills any of the buffers it has next, with at most 1000 bytes.
  The stack takes and drops references on any buffer of a frame, drops only those it
  has, and does not change the links and lengths of what it received.
- UART bytes may arrive at any time.  A run is timely (`DmaRxBuffers.Legal`) if each look
  comes before N more bytes arrived, or what came beyond whole rounds fills the buffer
  anyway, and no copy gives a byte that was overwritten since the look.  Only timely
  runs keep the order: `DmaRxBuffers.LegalIff` shows the condition to be exact, and
  `DmaRxBuffers.Overwritten` has an input where two bytes too many before a copy reorder
  and repeat one.  What is said of every run is said of untimely ones too.
- The UART DMA counter is in 1 to N, where N is the reload value. The comment at
  `include/lwipserver/utils/DmaRxBuffer.h:45-46` gives 0 to N - 1; the code is
  followed, and `DmaRxBuffers.UpdateAgrees` and `DmaRxBuffers.CounterZero` show what 0
  would do. Copy sizes are not negative.
- `src/stm32h7/Ethernetif.cpp:174-176` promises the refusal of a packet only for want of
  descriptors; the code also refuses more buffers than the ring has descriptors
  (lines 184-186), although a descriptor takes two. The code is followed.

Word 3 of a descriptor is the set of its bits that are 1, so that `|` is union;
`TxDescriptors.BitsInjective` and `TxDescriptors.FitsIff` tie it to numbers.

## Model

| member | source | states |
|---|---|---|
| `TcpSpec.EchoExact` | src/network/TcpServer.cpp:40-62 | For every run of callbacks and every answer of the stack: the bytes taken by `tcp_write` are a prefix of the bytes received while established, and until an error the rest of them is exactly what waits in the write buffer; every byte delivered is credited to the sender once |
| `TcpSpec.ClosesDrained` | src/network/TcpServer.cpp:176-189 | In every run, each `tcp_close` comes after all bytes received were taken for transmission |
| `TcpSpec.ClosedIsQuiet` | src/network/TcpServer.cpp:218-244 | Once a connection is closed, no later callback makes a call of the stack |
| `TcpSpec.TwoPollsClose` | src/network/TcpServer.cpp:228-235 | Two polls of a stack with room send what is left, in order, and close |
| `TcpSpec.RunKeeps` | src/network/TcpServer.cpp:176-244 | The invariant of every run; the state goes only from Established to Closing to Closed |
| `TcpSpec.TruthfulIff` | src/network/TcpServer.cpp:176-235 | lwIP wants `ERR_ABRT` exactly from callbacks that aborted their control block. `recv`, `sent` and `poll` meet that if and only if they do not close with an answer other than `ERR_OK` and `ERR_MEM`, nor are handed `ERR_ABRT` with data |
| `TcpSpec.AbortHidden` | src/network/TcpServer.cpp:72-88 | An end of stream whose `tcp_close` is answered otherwise is aborted, and `ERR_OK` is returned |
| `TcpSpec.PumpMoves` | src/network/TcpServer.cpp:90-134 | The sending loop moves bytes from the front of the queue to the stack: none lost, repeated or reordered, nothing else changed |
| `TcpSpec.CloseKeeps` | src/network/TcpServer.cpp:72-88 | Closing keeps the invariant: `ERR_MEM` leaves the connection Closing, every other answer closes it |
| `TcpSpec.DataKeeps` | src/network/TcpServer.cpp:191-215 | Received data are queued behind what waits, or dropped after the end of the stream, and credited either way |
| `TcpSpec.StepKeeps` | src/network/TcpServer.cpp:176-244 | Each callback keeps the invariant with the bytes it brings |
| `TcpTalks.RunSpeaks` | src/network/TcpServer.cpp:72-142 | In every run the calls keep their order: room is asked for before every write, which fits in it; after a failed write nothing more is written; `tcp_output` ends every sending; a close answered otherwise than `ERR_OK` and `ERR_MEM` is followed by an abort; after a close or an abort there is nothing more |
| `TcpTalks.CallbackTries` | src/network/TcpServer.cpp:176-235 | Every callback of an open connection that leaves bytes waiting asked the stack for room, and stopped only at an answer that was too little for the first of them or at a write that failed; if nothing waits and the stream has ended it closes; otherwise it makes no call but the credit |
| `TcpTalks.RunJustified` | src/network/TcpServer.cpp:90-142 | In every state of every run, bytes wait only because the last word of the stack about the first of them was no |
| `TcpTalks.AmpleStep` | src/network/TcpServer.cpp:191-235 | If the stack has room, `sent`, `poll`, an end of stream and data each leave nothing waiting: what the stack took grew by exactly what waited and what was brought, in order |
| `TcpTalks.AmpleRun` | src/network/TcpServer.cpp:176-235 | The same for runs: from the first such callback on nothing ever waits, and the stack gets what waited and then all that arrives |
| `TcpTalks.AllEchoed` | src/network/TcpServer.cpp:176-235 | With such a stack every run from the start echoes everything at once |
| `TcpTalks.LiveIff` | src/network/TcpServer.cpp:237-244 | In every run the connection has its control block exactly until an error is reported or an abort raises one; without it, it is closed and empty |
| `TcpTalks.RefusesIff` | src/network/TcpServer.cpp:40-52 | `write` leaves the connection alone if and only if it is not established or the 16-bit total of the chain is 0 |
| `TcpTalks.Unread` | src/network/TcpServer.cpp:197-212 | Without an application, what arrives is kept in the read buffer in order until the connection is closed, and nothing is sent |
| `TcpServers.TcpServer.Recv` | src/network/TcpServer.cpp:176-216 | On buffer chains: takes the step of the specification; afterwards the connection's buffers are conserved and every other one was given back once |
| `TcpServers.TcpServer.Sent` | src/network/TcpServer.cpp:218-226 | The same for `sent`; what the step achieves is said by `TcpTalks.CallbackTries` |
| `TcpServers.TcpServer.Poll` | src/network/TcpServer.cpp:228-235 | The same for `poll`, likewise |
| `TcpServers.TcpServer.Error` | src/network/TcpServer.cpp:237-244 | Every buffer of both chains is given back exactly once; the connection is closed and empty |
| `TcpServers.TcpServer.Close` | src/network/TcpServer.cpp:72-88 | Takes the closing step, also when `tcp_abort` runs the error callback in the middle of it |
| `TcpServers.TcpServer.Drive` | src/network/TcpServer.cpp:218-235 | Takes the idle step, whatever the state: sends what waits, or closes; between callbacks of the echo server every iteration of the sending loop frees exactly one buffer (`odd == 0`) |
| `TcpServers.TcpServer.WriteToTcp` | src/network/TcpServer.cpp:90-142 | The loop on the chain refines the loop on values, ends, and leaves a suffix of the chain with conserved counts |
| `TcpServers.TcpServer.Iterate` | src/network/TcpServer.cpp:96-133 | One iteration: when it goes on, the code's `freed != 1` holds exactly if the leading buffer had another holder; with no holder but the connection exactly the leading buffer is freed |
| `TcpServers.TcpServer.DropLeading` | src/network/TcpServer.cpp:122-133 | References the next buffer before the leading one is freed, so that the rest of the chain survives |
| `TcpServers.TcpServer.Write` | src/network/TcpServer.cpp:40-62 | Queues a chain behind the write buffer, which then shares it with its giver, and sends, losing no buffer of a chain that its giver still holds; refuses it in the code's three cases |
| `TcpServers.TcpServer.Accept` | src/network/TcpServer.cpp:144-174 | A new connection while the list has room, else the control block is closed or aborted; the list only grows |
| `TcpServers.TcpEchoServer.Recv` | include/lwipserver/network/TcpEchoServer.h:34-38 | Consumes the read buffer: afterwards it is null and its references are dropped, the write buffer holds what was taken |
| `TcpServers.RecvCallback` | src/network/TcpServer.cpp:256-269 | The static callback: without a connection or with another control block it aborts the control block and touches neither connection nor buffers, else it is `recv`, with its conservation of buffers |
| `TcpServers.SentCallback` | src/network/TcpServer.cpp:271-284 | The same for `sent` |
| `TcpServers.PollCallback` | src/network/TcpServer.cpp:286-299 | The same for `poll` |
| `TcpConnections.TcpConnection.HeldOnce` | src/network/TcpServer.cpp:54-59 | Between callbacks every buffer of a connection has reference count 1 |
| `TcpConnections.OneFreed` | src/network/TcpServer.cpp:130-133 | Why moving on frees exactly one buffer when only the connection holds the chain |
| `EchoRun.Serve` | src/network/TcpServer.cpp:144-244 | The server object in any run of any number of connections, with given packets: it takes the steps of the specification, connections hold only buffers of these packets, and each of their buffers is held once by the connection that waits to send it or was given back exactly once |
| `EchoRun.Supply` | src/network/TcpServer.cpp:176-178 | There are such packets for every run |
| `EchoRun.ServerEchoes` | src/network/TcpServer.cpp:144-244 | The echo is exact on every connection of such a run |
| `EchoRun.ServerTalks` | src/network/TcpServer.cpp:90-244 | On every connection of such a run the calls keep their order, and bytes wait only because the stack said no to them last |
| `EchoRun.SysProject` | src/network/TcpServer.cpp:144-244 | Connections do not influence each other |
| `EchoRun.CallbackAt` | src/network/TcpServer.cpp:176-244 | A callback of one connection leaves objects and buffers of all others as they were |
| `Pbufs.ChainLive` | src/network/TcpServer.cpp:122-130 | What conservation leaves of a chain: exactly the part from its first held buffer on |
| `Pbufs.Settle` | src/network/TcpServer.cpp:201-214 | Of two separate chains exactly the held suffixes live, each buffer held once |
| `Pbufs.PbufFree` | src/network/TcpServer.cpp:130-130 | Conservation of counts by `pbuf_free`; what leaves the live set is given back once; none goes if the buffer has another holder, and one if it has not but its successor has, or there is none |
| `Pbufs.PbufChain` | src/network/TcpServer.cpp:54-55 | Conservation of counts and 16-bit totals by `pbuf_chain` |
| `TxDescriptors.Word2Exact` | include/lwipserver/stm32h7/TxDescriptor.h:38-38 | Both buffer lengths are read back from word 2 |
| `TxDescriptors.Word3Exact` | include/lwipserver/stm32h7/TxDescriptor.h:39-56 | Flags and length are read from word 3 as meant if and only if the word held no other flag and no other length bit before |
| `TxDescriptors.FitsIff` | include/lwipserver/stm32h7/TxDescriptor.h:39-39 | A length fits its field exactly when it is below 2^15 |
| `TxDescriptors.BitsInjective` | include/lwipserver/stm32h7/TxDescriptor.h:38-56 | A number is determined by the set of its bits, so that words may be treated as such sets |
| `TxDescriptors.Flags` | include/lwipserver/stm32h7/TxDescriptor.h:16-19 | The flags of word 3 are the bits of the numbers the code gives |
| `TxSpec.OutputTakes` | src/stm32h7/Ethernetif.cpp:181-195 | A packet is taken exactly when it has at most N buffers and half as many descriptors, rounded up, are available; it uses those, and a refused one changes nothing |
| `TxSpec.ReleaseExact` | src/stm32h7/Ethernetif.cpp:273-302 | Unless the ring is completely full, exactly the longest finished prefix of the descriptors in flight is released; a completely full ring releases nothing |
| `TxSpec.FullForever` | src/stm32h7/Ethernetif.cpp:277-279 | A completely full ring stays full for ever, whatever is put out, released or finished |
| `TxSpec.FullReachable` | src/stm32h7/Ethernetif.cpp:236-240 | From the start, N packets of one buffer are all taken and fill the ring completely |
| `TxSpec.FreedAfterOwn` | src/stm32h7/Ethernetif.cpp:200-242 | In every run the descriptors are those of the packets taken, one packet after the other, two buffers each, all owned by the DMA and with checksums asked for; the packets freed are the first of them, and every descriptor carrying their buffers was finished and released, while the next packet still waits for one of its own |
| `TxSpec.DecodesIff` | src/stm32h7/Ethernetif.cpp:216-233 | The DMA reads the descriptors of a packet as exactly that packet (one first flag, one last flag, buffers in order, total length) if and only if the words written over added nothing |
| `TxSpec.DmaReadsPackets` | src/stm32h7/Ethernetif.cpp:216-242 | In every run with clean write-backs, all descriptors read in ring order are exactly the packets taken |
| `TxSpec.StaleFlag` | include/lwipserver/stm32h7/TxDescriptor.h:39-52 | A first-descriptor flag left in the second word spoils every packet of more than two buffers |
| `EthernetTxs.EthernetTx.constructor` | src/stm32h7/Ethernetif.cpp:63-70 | The initial indices satisfy the invariant of the ring, whatever the descriptors hold |
| `EthernetTxs.EthernetTx.LowLevelOutput` | src/stm32h7/Ethernetif.cpp:177-252 | On objects: takes the step of the ring with the spans of the chain, which `TxBytes` is about, takes one reference of a packet accepted, and on `ERR_IF` leaves every descriptor and every count as it was |
| `EthernetTxs.EthernetTx.Collect` | src/stm32h7/Ethernetif.cpp:181-190 | The buffers of the chain in order and their 32-bit total (by `TxBytes.TotalIs` the number of their bytes), or failure exactly at more than N |
| `EthernetTxs.EthernetTx.FillAll` | src/stm32h7/Ethernetif.cpp:216-242 | The filling loop writes the descriptors of the specification into the ring and nothing else |
| `EthernetTxs.EthernetTx.ReleaseTxBuffers` | src/stm32h7/Ethernetif.cpp:273-302 | On objects: releases what the specification releases; what leaves the live set is given back once |
| `EthernetTxs.EthernetTx.InFlightLive` | src/stm32h7/Ethernetif.cpp:197-200 | Every buffer the DMA may still read is live |
| `EthernetTxs.EthernetTx.Indices` | src/stm32h7/Ethernetif.cpp:236-240 | The available count is in 0 to N and the available index is (release index + N - available count) mod N |
| `EthernetTxs.EthernetTx.DmaComplete` | src/stm32h7/Ethernetif.cpp:290-292 | A descriptor finished in any order keeps the whole invariant: the ring, the counts and the packets in flight |
| `EthernetTxs.EthernetTx.LwipFree` | src/stm32h7/Ethernetif.cpp:197-200 | When lwIP frees its reference, every packet in flight stays live |
| `EthernetTxs.CarriedLive` | src/stm32h7/Ethernetif.cpp:293-296 | Giving back a packet leaves every buffer of the packets still in flight live |
| `TxBytes.TotalIs` | src/stm32h7/Ethernetif.cpp:182-190 | The total added up for a packet is the number of its bytes in 32 bits, 0 for the empty one |
| `TxBytes.SendsPackets` | src/stm32h7/Ethernetif.cpp:181-242 | In every run with clean write-backs and packets of fewer than 2^15 bytes, the frames read from the ring are the packets taken, byte for byte and in order, and each says how many bytes it has |
| `EthernetTxRun.RunSends` | src/stm32h7/Ethernetif.cpp:177-302 | The same for every interleaving of sending, letting go, DMA completions and releases |
| `EthernetTxRun.RunAll` | src/stm32h7/Ethernetif.cpp:177-302 | For every interleaving of sending, letting go, DMA completions and releases on given packets: the objects take a run of the ring, every buffer the DMA may still read is in use, and a buffer is given back, once, exactly when the stack has let go of its packet and no descriptor in flight belongs to it |
| `EthernetTxRun.LetterBytes` | src/stm32h7/Ethernetif.cpp:206-214 | The bytes of the spans of a packet are the payloads of its buffers, put together |
| `EthernetTxRun.FreedIff` | src/stm32h7/Ethernetif.cpp:197-200 | The same condition for one buffer in any state of such a run |
| `EthernetTxRun.ActsRun` | src/stm32h7/Ethernetif.cpp:177-302 | Every such run is one of the runs that `TxSpec` is about |
| `EthernetRxs.EthernetRx.constructor` | src/stm32h7/Ethernetif.cpp:53-58 | At the start every buffer is free, none is with the hardware or in use, and the invariant of the class holds |
| `EthernetRxs.EthernetRx.RxAllocate` | src/stm32h7/Ethernetif.cpp:480-494 | Moves a free buffer to the hardware, or raises the stop flag, which happens exactly when none is free |
| `EthernetRxs.EthernetRx.RxLink` | src/stm32h7/Ethernetif.cpp:496-521 | Adds a buffer to a frame: the chain stays acyclic and in order, its end is the last node, and every total is the sum of the lengths from there on, in 16 bits |
| `EthernetRxs.EthernetRx.Receive` | src/stm32h7/Ethernetif.cpp:496-521 | The calls for a whole frame give exactly the chain of its buffers in arrival order |
| `EthernetRxs.EthernetRx.Free` | src/stm32h7/Ethernetif.cpp:354-360 | What is let go of is the first buffers on the way from the one freed, and nothing else leaves the live set; those of the pool return to it in that order, and the stop flag goes down with the first of them |
| `EthernetRxs.EthernetRx.PbufFreeCustom` | src/stm32h7/Ethernetif.cpp:354-360 | Puts the buffer into the pool and takes the stop flag down |
| `EthernetRxs.EthernetRx.NoWrap` | src/stm32h7/Ethernetif.cpp:27-28 | No chain of pool buffers of at most 1000 bytes overflows its 16-bit total |
| `EthernetRxs.EthernetRx.Exhausted` | src/stm32h7/Ethernetif.cpp:480-493 | With the stop flag up and at most four buffers in the hardware, at least eight are in the live set |
| `EthernetRxRun.RunAll` | src/stm32h7/Ethernetif.cpp:354-521 | From a fresh pool, for every interleaving of allocating, linking received buffers, delivering frames, and taking and dropping references on any of their buffers: pool, stop flag, hardware, frames and references are those of the run; the frames are separate chains in arrival order, and dropping a reference puts exactly the buffers in front of the first one still held back into the pool, the whole frame if none is |
| `EthernetRxRun.OnePlace` | src/stm32h7/Ethernetif.cpp:53-58 | In every state of such a run a buffer of the pool is free, with the hardware, or in a frame that is held, only one of these, and in one frame only |
| `EthernetRxRun.NoneLost` | src/stm32h7/Ethernetif.cpp:354-360 | In every such state free buffers, those of the hardware and those in frames are twelve together |
| `EthernetRxRun.Gone` | src/stm32h7/Ethernetif.cpp:319-319 | What goes when a reference is dropped is exactly what is in front of the first buffer held after it |
| `EthernetRxRun.ExactTotals` | src/stm32h7/Ethernetif.cpp:517-521 | In every such state each buffer's total is the number of bytes received in it and in those behind it in its frame |
| `EthernetRxRun.ExhaustedInFrames` | src/stm32h7/Ethernetif.cpp:480-493 | In every such state with the stop flag up, the pool is empty and every buffer that the hardware does not have is in a frame |
| `DmaRxBuffers.UpdateAgrees` | src/utils/DmaRxBuffer.cpp:19-35 | Head, tail and size stay in range and consistent if and only if the counter is not 0 |
| `DmaRxBuffers.CopyAgrees` | include/lwipserver/utils/DmaRxBuffer.h:59-65 | The contiguous amount is the smaller of the size and the distance to the end; copies stay inside the buffer |
| `DmaRxBuffers.TwoCopiesDrain` | src/utils/DmaRxBuffer.cpp:7-16 | Two copies of at least N always empty the buffer |
| `DmaRxBuffers.CounterZero` | include/lwipserver/utils/DmaRxBuffer.h:45-46 | With counter 0 an emptied buffer claims N bytes, and copying them makes its size -N |
| `DmaRxBuffers.UpdateExact` | src/utils/DmaRxBuffer.cpp:19-35 | The numbers are those of the stream exactly when fewer than N bytes came since the last look, or what came beyond whole rounds fills the buffer anyway |
| `DmaRxBuffers.TimelyIff` | src/utils/DmaRxBuffer.cpp:7-35 | A look counts everything that arrived and a copy gives the bytes that come next, exactly when the look is as above and nothing the copy gives was overwritten |
| `DmaRxBuffers.LegalIff` | src/utils/DmaRxBuffer.cpp:7-35 | Every step of a run goes as meant if and only if the run is timely |
| `DmaRxBuffers.InOrder` | src/utils/DmaRxBuffer.cpp:7-35 | In every timely run bytes are given in arrival order, none twice |
| `DmaRxBuffers.Overwritten` | src/utils/DmaRxBuffer.cpp:7-16 | In an untimely run they need not be: with N = 4, two bytes that arrive between a look and the copies make the fifth byte of five come first, and again at the end |
| `DmaRxBuffers.LookSkips` | src/utils/DmaRxBuffer.cpp:27-31 | A look moves on over unread bytes if and only if it counts right and more than N are unread |
| `DmaRxBuffers.NothingSkipped` | src/utils/DmaRxBuffer.cpp:27-31 | In a timely run bytes are skipped if and only if a look finds more than N unread |
| `DmaRxBuffers.PrefixIff` | src/utils/DmaRxBuffer.cpp:7-35 | In any run, timely or not, the positions given are exactly the first ones of the stream if and only if no copy that gives something comes after a byte was skipped or overwritten |
| `DmaRxBuffers.PrefixBytes` | src/utils/DmaRxBuffer.cpp:7-35 | Then the bytes copied out are an exact prefix of what arrived |
| `DmaRxBuffers.DmaRxBuffer.UpdatePointers` | src/utils/DmaRxBuffer.cpp:19-35 | The code computes the specified numbers |
| `DmaRxBuffers.DmaRxBuffer.Look` | src/stm32h7/DebugUart.cpp:288-289 | Reading the counter notices what arrived up to whole rounds and moves on to the oldest byte still there |
| `DmaRxBuffers.DmaRxBuffer.Copy` | src/utils/DmaRxBuffer.cpp:7-16 | Copies the contiguous unread cells, each of which holds the newest byte of the stream whole rounds on; unless the DMA has lapped them they are the next bytes |
| `DmaRxBuffers.PlayAll` | src/utils/DmaRxBuffer.cpp:7-35 | In every run of DMA, looks and copies, timely or not, the bytes copied out are exactly the bytes of the stream at the positions the run gives; in a timely one these ascend |
| `DmaRxBuffers.WaitOnce` | src/stm32h7/DebugUart.cpp:287-299 | One turn of the loop resumes at the byte read next, or at the oldest of the newest N if that one is gone, and returns the contiguous bytes from there |
| `DmaRxBuffers.Read` | src/stm32h7/DebugUart.cpp:283-301 | `_read` returns the unread bytes from exactly that position on; the first turn with an error ends the wait, with -1 if and only if there is nothing to give; while it waits nothing is left unread |
| `MqttClients.LessOrder` | include/lwipserver/network/MqttClient.h:82-93 | The order of topics is a strict weak order on nullable strings whose equivalence is equality |
| `MqttClients.LessIff` | include/lwipserver/network/MqttClient.h:82-93 | It is the order of a dictionary, with null in front of everything |
| `MqttClients.Find` | src/network/MqttClient.cpp:125-126 | Comparisons alone find the entry of exactly the topic, or none |
| `MqttClients.Emplace` | src/network/MqttClient.cpp:26-26 | The map stays sorted and an entry of the same topic is kept |
| `MqttClients.MqttClient.RegisterSubscription` | src/network/MqttClient.cpp:21-29 | Accepts while the map has room; every topic keeps the subscription that was registered first |
| `MqttClients.FirstForIs` | src/network/MqttClient.cpp:26-26 | The subscription kept for a topic is the one at the first place that has this topic, and there is none only if no place has it |
| `MqttClients.MqttClient.IncomingPublish` | src/network/MqttClient.cpp:107-133 | Selects the first subscription registered for exactly this topic, or none, and starts it afresh |
| `MqttClients.MqttClient.IncomingData` | src/network/MqttClient.cpp:136-162 | A fragment takes the step of the specification and touches no other subscription |
| `MqttClients.TakePartKeeps` | src/network/MqttClient.cpp:142-150 | Before the last fragment the buffer holds exactly the first bytes that fit of what arrived so far, and nothing is handed over |
| `MqttClients.TakeAllKeeps` | src/network/MqttClient.cpp:142-161 | After any fragments the buffer holds exactly the first bytes of all of them that fit; the exact condition under which the application gets them, at most once |
| `MqttClients.WholeMessage` | src/network/MqttClient.cpp:107-162 | A message whose fragments add up to the announced total is handed over once and complete exactly when it fits and there is a callback |
| `MqttClients.OnlyAnnounced` | src/network/MqttClient.cpp:136-162 | For any announced total the application gets only payloads of exactly that many bytes, the first of what arrived, and gets one exactly when there is a callback and the last fragment fits and makes up the total |
| `MqttClients.MqttClient.Deliver` | src/network/MqttClient.cpp:107-162 | The two callbacks together take a whole message through the specification |
| `Networks.RunAgrees` | include/lwipserver/network/NetworkRTOS.h:94-131 | In every state after `init` DHCP is active exactly when the link is up, which is exactly when the peripheral runs, and the calls made keep their order |
| `Networks.InitAgrees` | include/lwipserver/stm32h7/Ethernetif.h:79-87 | The same right after `init`, although lwIP learns of the callback only after the first check of the link |
| `Networks.StepAgrees` | src/stm32h7/Ethernetif.cpp:428-478 | Each timer keeps it, for every status of the link |
| `Networks.AskedOnce` | include/lwipserver/network/NetworkRTOS.h:108-112 | An address is asked for at most once while the link stays up |
| `Networks.TriesAfterStart` | include/lwipserver/stm32h7/Ethernetif.h:131-138 | The tries are read only after an address was asked for on this link |
| `NetworkRuns.LinkIs` | src/stm32h7/Ethernetif.cpp:428-478 | In every run interface, link and peripheral are up exactly while the reports of the PHY say so, and the peripheral was started in the mode named by the report that brought the link up |
| `NetworkRuns.Searches` | include/lwipserver/network/NetworkRTOS.h:106-131 | While the link is up: an address is asked for the first time the process runs, and awaited until it was supplied or tried more than twice; then it is assigned, or set by hand; the calls made are exactly those |
| `NetworkRuns.AddressSought` | include/lwipserver/network/NetworkRTOS.h:94-131 | Whenever in a run the link comes up, the peripheral is started in the mode reported and that search takes place, until the link goes down |
| `NetworkRuns.AddressAtStart` | include/lwipserver/network/NetworkRTOS.h:76-90 | The same for a link that is up at `init` |
| `NetworkRuns.StaysDown` | include/lwipserver/network/NetworkRTOS.h:124-127 | While the link stays down nothing is called; the first time the process runs it turns itself off |
| `Networks.Network.EthernetLinkCheckState` | src/stm32h7/Ethernetif.cpp:428-478 | The code on the interface's fields takes the specified step |
| `Networks.Network.DhcpProcess` | include/lwipserver/network/NetworkRTOS.h:106-131 | The same for the DHCP process |
| `Networks.Network.Init` | include/lwipserver/stm32h7/Ethernetif.h:64-88 | The same for `init` |
| `Networks.Network.Serve` | include/lwipserver/network/NetworkRTOS.h:133-142 | The network object in any run of its two timers |
| `LoopTimers.FiresIff` | include/lwipserver/utils/LoopTimer.h:37-45 | Against ideal time the timer is right except in exactly two cases, late and early |
| `LoopTimers.FiresExactly` | include/lwipserver/utils/LoopTimer.h:37-45 | Within one epoch of 2^32 it fires exactly when more than the expiry has passed |
| `LoopTimers.Stuck` | include/lwipserver/utils/LoopTimer.h:39-39 | It never fires again if and only if its deadline is the last tick of an epoch |
| `LoopTimers.RightIff` | include/lwipserver/utils/LoopTimer.h:37-45 | Over any polls the timer decides as ideal time would, firing whenever it is due and only then, if and only if no poll is late or early |
| `LoopTimers.Gaps` | include/lwipserver/utils/LoopTimer.h:37-45 | Polled at most g apart within one epoch, whichever it is, callbacks come more than the expiry and at most the expiry + g apart, and at the last poll none is missing |
| `LoopTimers.PollAll` | include/lwipserver/utils/LoopTimer.h:37-45 | The timer object runs its callback at exactly the specified times |

## Left out

- TcpServer::init, control block allocation, bind and listen: they only add easy members; `mListeningConnection` plays no part in the protocol.
- The static `accept` and `error` callbacks: null checks in front of the members above.
- Reuse of connection slots: the connection list never shrinks in the code, and the model promises no more.
- `tcp_abort` from the static callbacks is recorded but does not run the error callback of another connection.
- lwIP, the HAL, FreeRTOS and the ETL containers beyond the functions named above are not part of this model.
- EthernetTxs.EthernetTx.DmaComplete: the tail pointer register and the cache and barrier instructions are not modelled; the DMA may finish any descriptor it owns.
- HAL_ETH_ReadData, which calls the receive callbacks: any number of calls for a frame in any order of buffers is allowed instead, also while the stop flag is up, when the code makes none.
- EthernetRxs.EthernetRx.Receive: the memory of the receive buffers is not modelled; `EthernetRxRun` knows what was received in each, and judges lengths and totals by it.
- EthernetRxRun.RunAll: the stack does not link received frames to others or move their start (`pbuf_chain`, `pbuf_header`); the server's own chains are in `TcpServer.dfy`.
- UART error restart (src/stm32h7/DebugUart.cpp:91-115), which restarts the DMA without resetting the buffer's numbers: runs are without restart.
- DmaRxBuffers.Read: the branch that does not use the stream buffer (src/stm32h7/DebugUart.cpp:302-308) is a blocking call of the HAL.
- `DmaTxBuffer`: its main functions have no implementation in the repository.
- MqttClients.MqttClient.IncomingData: the callback does not re-enter the client.
- MQTT connection, publishing and the health check: thin calls of lwIP's client.
- The decoding of PHY registers in `Lan8742`: any status may come at any check.
- Networks.Network.DhcpProcess: the answers of the DHCP client are arbitrary; its own behaviour is lwIP's.
- LoopTimers.LoopTimer.Poll: the callback is counted, not modelled.
- Clock, MPU, GPIO, start-up code, logging, mocks, the bare-metal main and the Python client.
