# libhwio: a verified model

libhwio lets a program use memory mapped devices, locally or through a
single-threaded TCP server. This project models the library's state and
algorithms in Dafny and proves what the code is for: that a remote device
behaves like the local one, that framing does not depend on how TCP cuts the
stream, that the server's registries agree in every state, that the
device-tree walk is a preorder, and that strings, properties and messages read
back.

Verify it with `dafny verify dfyconfig.toml`.

## How it is built

The model has two layers. Functions give operations their meaning on values;
classes take the form of the original objects, and every method that changes
state is proved to do exactly what the function says.

| module | what it is |
|---|---|
| `Bytes` | octets, little-endian fields, C strings, bitwise or |
| `BlockTransfer` | block reads, writes and fills as 32-bit and 8-bit accesses; class `Device` with the loops |
| `MappedWindow` | page arithmetic of the mapped device |
| `Version`, `CompSpec`, `Search` | versions, compatibility strings, matching, the filtered search |
| `Wire` | frames, requests and replies of the protocol |
| `Layout` | the same byte by byte: command numbers, field order, byte order |
| `Handlers` | the meaning of one message on the server |
| `Service` | the meaning of a request, performed locally; the handlers implement it |
| `Refusals` | the requests that are not carried out, and the errors that answer them |
| `Framing` | from a byte stream to handled messages |
| `Server` | classes `ClientInfo` and `MessageHandler`: receive buffer, transmit buffer, message handlers, parse loop |
| `Rounds` | poll rounds and the client registry as a state machine |
| `PollLoop` | class `HwioServer`: registry and poll loop on objects |
| `RemoteRun` | any number of clients, channels and the server, stepping in any order |
| `PollRun` | the poll loop of `Rounds` serving the clients of `RemoteRun` |
| `Limits` | inputs on which the remote side does not do what the local one does |
| `RemoteDevice`, `RemoteSearch` | the device and bus interfaces on top of that |
| `Client` | classes `Connection`, `RemoteDevice`, `RemoteBus`: the stubs on their buffers |
| `Plugins` | installing functions and the two ways to call them |
| `DeviceTree`, `TreeWalker`, `DeviceTreeBus` | directory trees, what a walk does, and class `HwioBusDevicetree` |
| `Properties` | the `reg` and `compatible` decoders (sections 2.3.6 and 2.3.1 of the Devicetree Specification v0.4) |

Where the pieces meet: `DeviceTreeBus` finds what `DeviceTree.Preorder` lists;
`PollLoop.HwioServer.PoolClientMsgs` is `Rounds.Round`, which uses
`Framing.Drain`, which `Server.MessageHandler.ParseFrames` computes on the
buffers; the stubs of `Client` send what `Wire.EncodeRequest` says, `Service`
proves that the handlers do with it what the request means, and `RemoteRun`
lifts this to whole runs. `Refusals` says what happens to all other requests,
and `Layout` gives the messages byte by byte. `PollRun` joins the two largest parts: a round of the
poll loop is a sequence of deliveries of `RemoteRun`, so whole runs of the
server, its clients and their stubs are runs of the local devices.

The methods `HandleWrite`, `HandleFastRemoteCall` and `HandleRemoteCall` of
`Server` have the case tree of the functions of `Handlers` they are proved
against; what those functions mean for a client is said by `Service` and
`Plugins`, not by these contracts.

Where the code departs from its intent, the model does this. The socket of a
client is kept before the client is deleted. The poll loop goes by index over
the poll set as it was when the round started. The overlapping memcpy is a copy
in ascending order. The write to byte 131 of an error message body stays inside
the frame. The assignment of an index to the type of a compatibility string is
followed as coded, with a counterexample and the exact condition
(`CompSpec.VendorAndType`). Ids from 256 on can be read but not written; this
too is proved as it is (`Service.WritableExactlyBelow256`, and
`Limits.LateDevicesAreReadOnly` for tables that queries really produce).
Nothing compares the result type of a stub with the plugin's: a call stays in
step exactly if both have a result or both have none
(`Service.CallStaysInStep`). The stub for named calls sends one byte too few
(`Plugins.NamedCallIsShort`, `Plugins.NamedCallName`).

## Model

| member | source | states |
|---|---|---|
| `RemoteRun.RemoteRefinesLocal` | src/device/hwio_device_remote.cpp:35-110 | for every interleaving of any number of clients, channels and the server there is one order of requests, program order for each client, such that memory and bus trace are the local ones after that order, every reply received is the local result at its place and of the kind its stub expects, connections end only by Bye and no request is lost |
| `RemoteRun.NextRefines` | src/server/hwio_server.cpp:432-488 | each step of stub, channel or server keeps the refinement |
| `RemoteRun.RunRefines` | src/server/hwio_server.cpp:432-488 | so does any sequence of steps |
| `RemoteRun.DeliverKeeps` | src/server/hwio_server.cpp:490-503 | the served connection stays in step with the local devices after any number of received bytes |
| `RemoteRun.OthersStay` | src/server/hwio_server_query.cpp:46-73 | serving one client leaves every other client's table, results and permitted requests as they were |
| `RemoteRun.DrainInStep` | src/server/hwio_server.cpp:432-488 | handling whatever is complete is a stretch of local steps, one per message, and the undone requests are exactly the bytes left in buffer and channel |
| `RemoteRun.NothingOutstanding` | src/device/hwio_device_remote.cpp:9-20 | a client that does not wait has received exactly its results: request and reply streams never slip |
| `RemoteRun.NothingStuck` | src/server/hwio_server.cpp:432-488 | an open connection with nothing on the wire has handled every request |
| `RemoteRun.ResultsAnswer` | src/device/hwio_device_remote.cpp:9-20 | the i-th result of a client has the command, and for reads and calls the size, that its i-th awaiting request expects, so the response check never fails |
| `PollRun.PollLoopRefinesLocal` | src/server/hwio_server.cpp:194-273 | boot the server, let clients connect, call stubs, read replies and disappear between the rounds in any order: the registry and poll set stay exact, the server's devices are those of one local run of all requests handled, and every client finds its own requests and results in it |
| `PollRun.RoundIsDeliveries` | src/server/hwio_server.cpp:194-273 | a round is a run of deliveries, one for each socket that had data, in the order of the poll set: same devices, same connection behind every registered socket; it throws exactly if the master socket fails, and then nothing has changed |
| `PollRun.VisitsDeliver` | src/server/hwio_server.cpp:217-255 | from any position on, the visits of a round are the deliveries of the remaining sockets, although clients leave and join during the round |
| `PollRun.ServeIsDeliver` | src/server/hwio_server.cpp:490-522 | receiving from a registered socket is delivering its client's bytes, and a closed connection is a dropped socket |
| `PollRun.AcceptJoins` | src/server/hwio_server.cpp:142-165 | an accepted socket belongs to a client that has not connected before, also if its number has been used by another client |
| `PollRun.StepsAreMoves` | src/server/hwio_server.cpp:194-273 | every run of the poll loop and its clients is a run of the system of `RemoteRun` |
| `RemoteDevice.CallIsLocal` | src/device/hwio_device_remote.cpp:35-110 | read8 to write64, blocks and memset on a handle do to the device what they do locally, access by access, and hand over the local bytes |
| `RemoteDevice.CallsAreLocal` | src/device/hwio_device_remote.cpp:35-110 | any sequence of calls of one client on its handles makes of the devices what the calls make of them locally one after the other, and returns what the local reads return |
| `RemoteDevice.CallsOverTheWire` | src/device/hwio_device_remote.cpp:35-110 | in every run of a client, server and channels: once the requests of any sequence of calls are handled, the server's devices are the fold of the local effects, and a client that does not wait has received exactly the local reads |
| `RemoteDevice.Write64ThenRead64` | src/device/hwio_device_remote.cpp:78-110 | in every run of a client, server and channels, after whatever came before: a 64-bit integer that is written through a handle is the one that is read |
| `RemoteDevice.OctetReadsBack` | src/device/hwio_device_remote.cpp:66-110 | write8 and then read8 through a handle give the octet back |
| `RemoteDevice.WordReadsBack` | src/device/hwio_device_remote.cpp:66-110 | write32 and then read32 give the word back |
| `RemoteDevice.DoubleReadsBack` | src/device/hwio_device_remote.cpp:66-110 | write64 and then read64 give the double word back |
| `RemoteDevice.IntegersStored` | src/device/hwio_device_mmap.cpp:92-97 | write64 stores the eight bytes of the value, the lowest at the lowest address, and no others |
| `RemoteDevice.MemsetIsLocal` | src/device/ihwio_dev.h:90-117 | the inherited memset loop over remote stores gives the memory and the trace of the local memset |
| `RemoteSearch.RemoteSearchIsLocalSearch` | src/bus/hwio_bus_remote.cpp:48-73 | handles stand in order for the hits of the server's buses; earlier handles keep their devices; equal hits share a handle, different ones do not |
| `RemoteSearch.HandlesAreInjective` | src/bus/hwio_bus_remote.cpp:38-46 | two handles denote the same device exactly if they are the same handle |
| `RemoteSearch.SearchIsConcatenation` | src/server/hwio_server_query.cpp:38-43 | searching bus by bus is filtering the concatenation of the buses' devices |
| `Service.HandleServes` | src/server/hwio_server.cpp:76-140 | handling the encoding of an acceptable request does to devices and table what the request means locally and answers with the encoding of its result |
| `Service.ReadServes` | src/server/hwio_server_rw.cpp:6-33 | an acceptable read is answered with the local bytes and makes the local accesses |
| `Service.WriteServes` | src/server/hwio_server_rw.cpp:35-60 | an acceptable write makes the local stores and is not answered |
| `Service.QueryServes` | src/server/hwio_server_query.cpp:26-88 | an acceptable query allocates ids for the local search's hits and answers with them |
| `Service.CallServes` | src/server/hwio_server_remote_call.cpp:47-85 | an acceptable fast call runs the plugin on the device with exactly the client's arguments |
| `Service.FindServes` | src/server/hwio_server_remote_call.cpp:87-110 | a name lookup is answered with the first index of the name |
| `Service.PingServes` | src/server/hwio_server.cpp:99-126 | ping is answered, bye ends the connection without an answer |
| `Service.ServedAsAwaited` | src/device/hwio_device_remote.h:79-125 | a request has a reply exactly if its stub awaits one; the reply fits the buffer and has the command and size that the stub expects |
| `Service.CallStaysInStep` | src/device/hwio_device_remote.h:79-125 | a fast call that the server carries out is answered as its stub expects exactly if stub and plugin agree on having a result |
| `Service.CallHandled` | src/server/hwio_server_remote_call.cpp:47-85 | effect and answer of a fast call do not depend on the stub's result type: the plugin's result is sent exactly if its declared size is not zero |
| `Limits.VoidStubSlips` | src/device/hwio_device_remote.h:108-125 | a void stub for a plugin with a result: the unread result comes before the answer to the next request, which is no answer to it unless that is a call |
| `Limits.SilentCallBlocks` | src/device/hwio_device_remote.h:79-106 | a stub that expects a result from a plugin without one: nothing is sent and nothing is pending, so both sides wait |
| `Limits.PingReadsResult` | src/bus/hwio_client_to_server_con.cpp:119-136 | a concrete configuration, call and ping where the ping reads the result of the call |
| `Service.ItemsReadBack` | src/server/hwio_server_query.cpp:6-20 | the server reads the specs the client wrote, for any list of encodable specs |
| `Service.WritableExactlyBelow256` | src/server/hwio_server_rw.cpp:35-60 | for an allocated device and a range inside it, a remote write succeeds exactly if the id is below 256 |
| `Limits.LateDevicesAreReadOnly` | src/server/hwio_server_rw.cpp:35-60 | with n up to 1022 devices of one name, a query gives every device its id, and each id from 256 on can be read while any write inside the device ends the connection |
| `Limits.ShelfQuery` | src/server/hwio_server_query.cpp:26-88 | that query is acceptable and its table is the devices in order |
| `Limits.LastOf257` | src/server/hwio_server_rw.cpp:35-60 | the last of 257 devices of one byte each cannot be written |
| `Refusals.RefusedExactly` | src/server/hwio_server.cpp:76-140 | for every encoded request: it is answered by an error exactly if it names a device the client was not given, a range outside the device or too long for the answer, too many hits, a function that does not exist or one that throws |
| `Refusals.CallOutcome` | src/server/hwio_server_remote_call.cpp:47-85 | every call by id: refused without device or function; else the device is as the plugin leaves it and nothing else changes; a result is sent if one is declared; an exception disconnects with code 5 and its text |
| `Refusals.NamedCallOutcome` | src/server/hwio_server_remote_call.cpp:6-45 | the same for every call by name |
| `Refusals.ThrowingPlugin` | src/server/hwio_server_remote_call.cpp:75-78 | a concrete plugin that throws, its device and the error its client gets |
| `Refusals.UnallocatedRead` | src/server/hwio_server_utils.cpp:21-25 | a read of an id the client was not given changes nothing and is answered by the error of code 4 alone |
| `Refusals.UnallocatedWrite` | src/server/hwio_server_rw.cpp:35-60 | likewise for a write; ids from 256 on have code 2 |
| `Refusals.UnallocatedFind` | src/server/hwio_server_remote_call.cpp:87-110 | likewise for a function lookup |
| `Refusals.FailingRead` | src/server/hwio_server_rw.cpp:6-33 | a read outside the device, or whose answer does not fit the buffer, has code 5 |
| `Refusals.WriteAnswered` | src/server/hwio_server_rw.cpp:35-60 | a write to a device of the client is never answered, and outside the device it has no effect |
| `Refusals.WrongSizes` | src/server/hwio_server.cpp:84-123 | any body of a wrong size, for each command, changes nothing and has code 2 and its text |
| `Refusals.WrongQueries` | src/server/hwio_server.cpp:107-120 | queries that are not whole items have code 2, those of none or more than five items code 1 |
| `Refusals.TooManyHits` | src/server/hwio_server_query.cpp:26-88 | a query with more hits than the buffer holds is an error here |
| `Refusals.UnknownCommands` | src/server/hwio_server.cpp:135-138 | every other command has code 1 and no text |
| `Refusals.MessagesAndBye` | src/server/hwio_server.cpp:125-133 | error messages of a client are ignored, bye ends the connection without an answer |
| `Refusals.ErrorFrame` | src/server/hwio_server_utils.cpp:6-18 | the 1028 bytes of an error: command, declared length, code, text, zeros |
| `Wire.FrameReadsBack` | src/hwio_remote.h:29-38 | a frame at the head of any stream gives command, body and rest back |
| `Wire.ReplyReadsBack` | src/hwio_remote.h:64-100 | every reply that fits is decoded to itself |
| `Wire.IdsReadBack` | src/hwio_remote.h:98-100 | a list of ids survives its encoding |
| `Wire.ErrorIsOneFrame` | src/server/hwio_server_utils.cpp:6-18 | an error text of less than 1022 characters arrives as one whole frame followed by zeros |
| `Layout.FrameBytes` | src/hwio_remote.h:29-38 | every frame is its command, the length of its body in two bytes, and the body |
| `Layout.ReadBytes` | src/hwio_remote.h:41-45 | a read request byte by byte: device, address and size |
| `Layout.WriteBytes` | src/hwio_remote.h:77-80 | a write request: the same fields and the data |
| `Layout.CallBytes` | src/hwio_remote.h:53-57 | a fast call: device, function, arguments |
| `Layout.FindBytes` | src/hwio_remote.h:59-62 | a function lookup: device and name, filled up with zeros |
| `Layout.ItemBytes` | src/hwio_remote.h:82-87 | a query item: name, vendor and type in 128 bytes each, then major, minor and subminor in two's complement |
| `Layout.QueryBytes` | src/hwio_remote.h:89-91 | a query is a header and its items |
| `Layout.QueryItems` | src/hwio_remote.h:89-91 | the k-th item of a query stands at 396 times k |
| `Layout.PingBytes` | src/hwio_remote.h:29-32 | ping and bye are bare headers |
| `Layout.ReplyBytes` | src/hwio_remote.h:64-75 | replies to ping, read, calls and lookups byte by byte |
| `Layout.IdBytes` | src/hwio_remote.h:98-100 | the i-th id of an answer, in 16 bits |
| `Framing.ChunkingDoesNotMatter` | src/server/hwio_server.cpp:394-488 | however a stream is cut into receives, messages, effects, replies and leftover are those of the whole stream received at once |
| `Framing.ChunkingsAgree` | src/server/hwio_server.cpp:394-488 | two ways to cut the same stream have the same run |
| `Framing.HandledAreFrames` | src/server/hwio_server.cpp:432-488 | the handled messages are the frames of the stream in order, up to and including the one that ends the connection, and the rest stays pending |
| `Framing.DrainInTwo` | src/server/hwio_server.cpp:432-488 | handling what is there and then what arrives is handling it all at once |
| `Framing.FullBufferMeansOversizedFrame` | src/server/hwio_server.cpp:394-430 | the residue of a parse fills the buffer only if the declared frame can never fit; otherwise the next receive has room |
| `Framing.DrainExtends` | src/server/hwio_server_query.cpp:46-86 | over any run of messages the table only grows at its end, what was sent stays sent, and devices without an id are untouched |
| `Framing.DrainAttachesOnce` | src/server/hwio_server_query.cpp:65-74 | over any run of messages exactly the devices that entered the connection's table have been attached, once each |
| `Framing.StepEndsWithError` | src/server/hwio_server.cpp:441-486 | a message ends the connection exactly if it is Bye, is answered by an error, or its reply cannot be sent |
| `Handlers.HandleKeeps` | src/server/hwio_server.cpp:76-140 | every message keeps memory sizes, table validity and devices outside the table; only a query changes the table |
| `Handlers.ErrorsAreLast` | src/server/hwio_server.cpp:76-140 | a message asks for disconnection exactly if it is Bye or answered by an error |
| `Handlers.HandleAttaches` | src/server/hwio_server_query.cpp:46-73 | one message attaches exactly the devices it puts into the table |
| `Handlers.RegisterIsStable` | src/server/hwio_server_query.cpp:46-80 | allocation keeps the table free of repeats, keeps all older ids, and each returned id denotes its hit |
| `Handlers.RegisterAttachesOnce` | src/server/hwio_server_query.cpp:65-74 | allocation attaches exactly the devices that are new to the table |
| `Handlers.RegisterIsValid` | src/server/hwio_server_query.cpp:46-86 | with fewer than 65536 devices all ids fit 16 bits |
| `Handlers.Pigeonhole` | src/server/hwio_server_query.cpp:46-73 | distinct devices below n fill at most n slots |
| `Server.ClientInfo.Compact` | src/server/hwio_server.cpp:398-404 | the ascending copy onto an overlapping region moves the pending bytes to the front unchanged |
| `Server.ClientInfo.Receive` | src/server/hwio_server.cpp:407-414 | received bytes are appended to the pending ones inside the 65536-byte buffer |
| `Server.ClientInfo.Send` | src/server/hwio_server.cpp:446-459 | send takes a non-empty part of what it is given, as far as the socket has room, or fails |
| `Server.ClientInfo.constructor` | src/server/hwio_server.h:48-62 | a new client has an empty table and an empty buffer |
| `Server.MessageHandler.PutFrame` | src/server/hwio_server_remote_call.cpp:92-106 | header and body stand in the transmit buffer as one frame |
| `Server.MessageHandler.SendErr` | src/server/hwio_server_utils.cpp:6-18 | the transmit buffer holds exactly the encoded error |
| `Server.MessageHandler.HandleRead` | src/server/hwio_server_rw.cpp:6-33 | world, table, reply bytes and disconnect flag are those of `Handlers.HandleRead`, errors included |
| `Server.MessageHandler.HandleWrite` | src/server/hwio_server_rw.cpp:35-60 | likewise for `Handlers.HandleWrite` |
| `Server.MessageHandler.Call` | src/server/hwio_server_remote_call.cpp:70-84 | the plugin's effect on the device, its result behind the header, a reply only if there is a result, an error if it throws |
| `Server.MessageHandler.HandleFastRemoteCall` | src/server/hwio_server_remote_call.cpp:47-85 | does what `Handlers.HandleFastCall` says |
| `Server.MessageHandler.HandleRemoteCall` | src/server/hwio_server_remote_call.cpp:6-45 | does what `Handlers.HandleNamedCall` says |
| `Server.MessageHandler.FindFunction` | src/server/hwio_server_remote_call.cpp:101-108 | the loop finds the first index with the name, or reports none |
| `Server.MessageHandler.HandleGetRpcFnId` | src/server/hwio_server_remote_call.cpp:87-110 | does what `Handlers.HandleFindFunction` says |
| `Server.MessageHandler.ExtractSpecs` | src/server/hwio_server_query.cpp:6-20 | the loop decodes every item of the query |
| `Server.MessageHandler.FindDevices` | src/server/hwio_server_query.cpp:38-43 | the nested loops collect the hits of all buses in order |
| `Server.MessageHandler.LookupId` | src/server/hwio_server_query.cpp:48-64 | the device's first id if it has one, else the first free or next position |
| `Server.MessageHandler.RegisterDevice` | src/server/hwio_server_query.cpp:48-74 | table, attach count and id are those of `Handlers.RegisterOne` |
| `Server.MessageHandler.AllocateIds` | src/server/hwio_server_query.cpp:45-85 | the loop allocates all ids and leaves their encoding in the transmit buffer |
| `Server.MessageHandler.AllocateId` | src/server/hwio_server_query.cpp:47-78 | one iteration allocates the id and appends it to the reply |
| `Server.MessageHandler.DeviceLookupResp` | src/server/hwio_server_query.cpp:26-88 | does what `Handlers.LookupDevices` says |
| `Server.MessageHandler.HandleMsg` | src/server/hwio_server.cpp:76-140 | every command does what `Handlers.Handle` says, reading its body in place; bytes behind the frame are untouched |
| `Server.MessageHandler.HandlePingMsg` | src/server/hwio_server.cpp:99-105 | does what `Handlers.HandlePing` says |
| `Server.MessageHandler.HandleQueryMsg` | src/server/hwio_server.cpp:107-120 | does what `Handlers.HandleQuery` says, both size checks included |
| `Server.MessageHandler.SendReply` | src/server/hwio_server.cpp:442-462 | however little each send takes, the reply goes out in order: whole, or up to the byte at which the socket fails, and the failure is reported |
| `Server.MessageHandler.Answer` | src/server/hwio_server.cpp:441-462 | the reply is sent if there is one, and the connection ends if the handler says so or the send fails |
| `Server.MessageHandler.Consume` | src/server/hwio_server.cpp:463-464 | exactly the handled frame is taken off the pending bytes |
| `Server.MessageHandler.HandleFrame` | src/server/hwio_server.cpp:437-464 | one iteration of the loop is `Framing.Step` |
| `Server.MessageHandler.ParseFrames` | src/server/hwio_server.cpp:432-488 | the loop on the buffer computes `Framing.Drain` |
| `Rounds.ServerStaysConsistent` | src/server/hwio_server.cpp:142-273 | in every reachable state: the poll set is the master socket and every registered socket once, clients and fd_to_client correspond one to one through the ids, the count assertion holds, there are as many slots as the peak number of clients, and the fallback was never taken |
| `Rounds.RoundKeeps` | src/server/hwio_server.cpp:194-273 | a round keeps all of that; if the master socket makes it throw, nothing has changed |
| `Rounds.RunKeeps` | src/server/hwio_server.cpp:194-273 | so does any sequence of rounds |
| `Rounds.RoundHappens` | src/server/hwio_server.cpp:194-273 | what a round does to every socket: without an event its client is as before, after a fault or an end it is gone, with data it is served exactly once, the accepted socket has a new client in the first empty slot, and no other socket is added |
| `Rounds.VisitMaster` | src/server/hwio_server.cpp:217-255 | accepting comes before anything is closed in the round, so a new socket is never among the removed ones |
| `Rounds.VisitClient` | src/server/hwio_server.cpp:217-255 | every other polled socket is still registered when it is visited |
| `Rounds.EndOfRound` | src/server/hwio_server.cpp:256-272 | the rebuild removes exactly the closed sockets and makes the poll set exact again |
| `Rounds.KeepMembers` | src/server/hwio_server.cpp:256-272 | the rebuilt list has exactly the sockets that were not removed, without repeats, the master first |
| `Rounds.AddKeepsRegistry` | src/server/hwio_server.cpp:142-165 | adding a client fills the first empty slot and keeps the bijection and the peak |
| `Rounds.RemoveKeepsRegistry` | src/server/hwio_server.cpp:167-182 | removing a client keeps the bijection and removes exactly its socket |
| `Rounds.CountMatchesMap` | src/server/hwio_server.cpp:184-192 | the asserted equality of the two client counts follows from the bijection |
| `PollLoop.HwioServer.AddNewClient` | src/server/hwio_server.cpp:142-165 | the objects end in the state `Rounds.AddClient` gives, with a fresh client and buffer |
| `PollLoop.HwioServer.FirstEmpty` | src/server/hwio_server.cpp:143-150 | the loop finds the first empty position, or the end |
| `PollLoop.HwioServer.Enter` | src/server/hwio_server.cpp:151-163 | the client takes its slot, its map entry and the last place of the poll set |
| `PollLoop.HwioServer.constructor` | src/server/hwio_server.cpp:16-20 | a new server is in the state `Rounds.Boot` |
| `PollLoop.HwioServer.RemoveClient` | src/server/hwio_server.cpp:167-182 | the objects end in the state `Rounds.RemoveClient` gives |
| `PollLoop.HwioServer.Disconnect` | src/server/hwio_server.cpp:519-520 | removes the client and marks its socket for removal from the poll set |
| `PollLoop.HwioServer.GetClientCnt` | src/server/hwio_server.cpp:184-192 | counts the non-null clients, which are as many as the map has |
| `PollLoop.HwioServer.ReadFromSocket` | src/server/hwio_server.cpp:394-430 | compaction and receive together append what arrived |
| `PollLoop.HwioServer.Converse` | src/server/hwio_server.cpp:504-505 | receiving and parsing change this client only, as `Framing.Drain` says |
| `PollLoop.HwioServer.ServeKnown` | src/server/hwio_server.cpp:503-521 | a registered client is served as `Rounds.ServeRegistered` says and removed when its connection ends |
| `PollLoop.HwioServer.AddUnknown` | src/server/hwio_server.cpp:496-497 | the fallback adds a client and counts as one |
| `PollLoop.HwioServer.HandleMultipleClientRequests` | src/server/hwio_server.cpp:490-522 | does what `Rounds.ServeClient` says, including the fallback and both ways to disconnect |
| `PollLoop.HwioServer.VisitSocket` | src/server/hwio_server.cpp:217-255 | the body of the loop does what `Rounds.Visit` says, exceptions included |
| `PollLoop.HwioServer.VisitAll` | src/server/hwio_server.cpp:217-255 | the loop over the sockets polled at the start computes `Rounds.VisitFrom` |
| `PollLoop.HwioServer.Rebuild` | src/server/hwio_server.cpp:256-272 | the nested loops compute `Rounds.Cleanup` |
| `PollLoop.HwioServer.PoolClientMsgs` | src/server/hwio_server.cpp:194-273 | a round on the objects is `Rounds.Round` and keeps the invariant |
| `Client.Connection.RxBytes` | src/bus/hwio_client_to_server_con.cpp:58-80 | however recv cuts the stream, exactly the next `size` bytes are read, and it succeeds exactly if they come |
| `Client.Connection.RxPckt` | src/bus/hwio_client_to_server_con.cpp:82-90 | succeeds exactly if a whole frame that fits comes, and gives its command and body |
| `Client.Connection.Recv` | src/bus/hwio_client_to_server_con.cpp:62-78 | recv gives a non-empty part of what there is, stored behind what was read before |
| `Client.Connection.Send` | src/bus/hwio_client_to_server_con.cpp:97-116 | send takes a non-empty part of what it is given, as far as the socket has room, or fails |
| `Client.Connection.Ask` | src/bus/hwio_client_to_server_con.cpp:92-117 | a request built in the buffer is sent as its encoding |
| `Client.Connection.Expect` | src/device/hwio_device_remote.cpp:9-20 | the next frame is taken, and it is an exception unless it has the expected command |
| `Client.Connection.Exchange` | src/device/hwio_device_remote.cpp:51-56 | one request out, one frame in |
| `Client.Connection.TxPckt` | src/bus/hwio_client_to_server_con.cpp:92-117 | however little each send takes, the frame in the buffer goes out once: whole, or up to the byte at which the socket fails, which is an exception |
| `Client.Connection.Ping` | src/bus/hwio_client_to_server_con.cpp:119-136 | sends one ping; alive exactly if a whole empty ping reply comes first, not available if another whole frame does, busy if the ping cannot be sent or no whole frame comes |
| `Client.Connection.Bye` | src/bus/hwio_client_to_server_con.cpp:138-143 | sends one bye frame |
| `Client.RemoteDevice.Read` | src/device/hwio_device_remote.cpp:35-64 | sends exactly the encoded read and returns the first n bytes of the answering frame, which is consumed whole |
| `Client.RemoteDevice.BuildRead` | src/device/hwio_device_remote.cpp:44-49 | the fields written into the buffer are the encoded read |
| `Client.RemoteDevice.BuildWrite` | src/device/hwio_device_remote.cpp:92-99 | the fields and the copied data are the encoded write |
| `Client.RemoteDevice.BuildFind` | src/device/hwio_device_remote.cpp:145-149 | the fields written are the encoded lookup |
| `Client.RemoteDevice.BuildCall` | src/device/hwio_device_remote.h:82-93 | the fields and the copied arguments are the encoded fast call |
| `Client.RemoteDevice.ReadInteger` | src/device/hwio_device_remote.cpp:66-82 | a read of the width of its type; the bytes of the answer are copied into the integer, the first one lowest |
| `Client.RemoteDevice.Read8` | src/device/hwio_device_remote.cpp:66-70 | sends the request of the call `Read8`, returns the octet of the answer, and consumes exactly that frame |
| `Client.RemoteDevice.Read32` | src/device/hwio_device_remote.cpp:72-76 | likewise for `Read32`: the little-endian word of the answer |
| `Client.RemoteDevice.Read64` | src/device/hwio_device_remote.cpp:78-82 | likewise for `Read64`: low word first, as the local read64 joins its two loads |
| `Client.RemoteDevice.Write8` | src/device/hwio_device_remote.cpp:102-104 | sends exactly the request of the call `Write8` |
| `Client.RemoteDevice.Write32` | src/device/hwio_device_remote.cpp:105-107 | sends exactly the request of the call `Write32` |
| `Client.RemoteDevice.Write64` | src/device/hwio_device_remote.cpp:108-110 | sends exactly the request of the call `Write64` |
| `Client.RemoteDevice.Memset` | src/device/ihwio_dev.h:90-117 | the inherited loop over remote stores sends exactly the requests of `RemoteDevice.MemsetRequests`, up to the byte at which the socket fails |
| `Client.RemoteDevice.Write` | src/device/hwio_device_remote.cpp:84-110 | sends exactly the encoded write and awaits nothing |
| `Client.RemoteDevice.FindFunction` | src/device/hwio_device_remote.cpp:128-159 | sends exactly the encoded request and decodes the answer |
| `Client.RemoteDevice.RemoteCall` | src/device/hwio_device_remote.h:79-106 | sends exactly the encoded fast call and returns as many result bytes as the stub's result type has, whatever the plugin has |
| `Client.RemoteDevice.RemoteCallVoid` | src/device/hwio_device_remote.h:108-125 | sends exactly the encoded fast call with a void result and awaits nothing |
| `Client.RemoteBus.SpecListToQuery` | src/bus/hwio_bus_remote.cpp:22-36 | the loop builds exactly the encoded query in the buffer |
| `Client.RemoteBus.PutItem` | src/bus/hwio_bus_remote.cpp:17-34 | one spec is appended to the query as its encoding |
| `Client.RemoteBus.HandleAll` | src/bus/hwio_bus_remote.cpp:64-71 | the loop makes a handle of every id, in order |
| `Client.RemoteBus.HwioDevFromId` | src/bus/hwio_bus_remote.cpp:38-46 | the first device with the id, or a new one at the end |
| `Client.RemoteBus.FindDevices` | src/bus/hwio_bus_remote.cpp:48-73 | the handles are those of `RemoteSearch.HandlesOf` for the ids of the answer |
| `Client.ReplyArrives` | src/bus/hwio_client_to_server_con.cpp:82-90 | an encoded reply at the head of the stream is received and decoded to itself |
| `Client.IntegersArrive` | src/device/hwio_device_remote.cpp:66-82 | when the server answers with the bytes of the device, the octet and the words from which read8, read32 and read64 take their values are those of the device |
| `BlockTransfer.Device.Read` | src/device/ihwio_dev.h:54-77 | the loop returns the bytes of the range and makes exactly the accesses of `ReadTrace` |
| `BlockTransfer.Device.Write` | src/device/ihwio_dev.h:127-150 | the loop stores the data and makes exactly the accesses of `WriteTrace` |
| `BlockTransfer.Device.Memset` | src/device/ihwio_dev.h:90-117 | filling is writing n copies of the octet: same memory, same accesses |
| `BlockTransfer.Device.Read64` | src/device/hwio_device_mmap.cpp:74-80 | two 32-bit loads, low word first, joined |
| `BlockTransfer.Device.Read32` | src/device/hwio_device_mmap.cpp:70-72 | the little-endian word, and one 32-bit load |
| `BlockTransfer.Device.Read8` | src/device/hwio_device_mmap.cpp:66-68 | the octet, and one 8-bit load |
| `BlockTransfer.Device.Write32` | src/device/hwio_device_mmap.cpp:87-90 | the four octets of the word, and one 32-bit store |
| `BlockTransfer.Device.Write8` | src/device/hwio_device_mmap.cpp:82-85 | the octet, and one 8-bit store |
| `BlockTransfer.Device.Write64` | src/device/hwio_device_mmap.cpp:92-97 | two 32-bit stores, low word first; reading the eight bytes back gives the value |
| `BlockTransfer.ReadTouchesRange` | src/device/ihwio_dev.h:54-77 | a block read touches every byte of the range once, ascending |
| `BlockTransfer.WriteTouchesRange` | src/device/ihwio_dev.h:127-150 | a block write touches every byte of the range once, ascending |
| `BlockTransfer.ReadTraceShape` | src/device/ihwio_dev.h:54-77 | floor(n/4) word loads, then n mod 4 octet loads, at consecutive addresses |
| `BlockTransfer.WriteTraceShape` | src/device/ihwio_dev.h:127-150 | floor(n/4) word stores, then n mod 4 octet stores |
| `BlockTransfer.WriteReplays` | src/device/ihwio_dev.h:127-150 | replaying the stores byte by byte gives the written memory |
| `BlockTransfer.OverlayIsBytewise` | src/device/ihwio_dev.h:127-150 | a block write is writing one byte after the other |
| `BlockTransfer.ReadAfterWrite` | src/device/ihwio_dev.h:54-150 | what was written is read back |
| `BlockTransfer.FillWordLanes` | src/device/ihwio_dev.h:91-93 | the fill word built with shifts and ors is four copies of the octet |
| `BlockTransfer.MemsetFills` | src/device/ihwio_dev.h:90-117 | after a memset every byte of the range is the octet, and no other byte has changed |
| `MappedWindow.WindowCovers` | src/device/hwio_device_mmap.cpp:17-35 | for every base, size and power-of-two page: aligned start, start plus offset is the base, every device byte is inside, at most two pages more than needed |
| `MappedWindow.WindowIsAligned` | src/device/hwio_device_mmap.cpp:32-34 | masking with the complement rounds down to a page |
| `MappedWindow.LengthIs` | src/device/hwio_device_mmap.cpp:17-28 | the mapped length is the size, or a page if that is more, plus a page, or without it if pages have one byte |
| `MappedWindow.HwioDeviceMmap.constructor` | src/device/hwio_device_mmap.cpp:17-35 | the constructor computes that window |
| `Version.RoundTrip` | src/hwio_version.cpp:28-74 | a printed version parses to itself exactly if all three components are numbers |
| `Version.ParsePrintParse` | src/hwio_version.cpp:28-74 | parse, print, parse is parse exactly if a third component is present, letters included |
| `Version.MatchComplete` | src/hwio_version.cpp:54-58 | every string of the accepted form is split into its groups |
| `Version.MatchSound` | src/hwio_version.cpp:54-58 | only strings of that form are accepted |
| `Version.WrongFormatMeans` | src/hwio_version.cpp:54-73 | the wrong-format exception is thrown exactly for strings that are not two numbers and perhaps a number, letter or underscore, with dots between them |
| `Version.ParseTwo` | src/hwio_version.cpp:54-73 | two numbers are major and minor, without a third component; numbers that do not fit an int are out of range |
| `Version.ParseThree` | src/hwio_version.cpp:54-73 | three numbers are the three components in order |
| `Version.ParseLetter` | src/hwio_version.cpp:60-66 | a letter as third component is its character code; an underscore is an invalid argument |
| `Version.ValueOfDigits` | src/hwio_version.cpp:56-66 | the digits of a number count by powers of ten |
| `Version.ParseExamples` | src/hwio_version.cpp:54-73 | `1.00.a` is 1, 0 and 97, and other examples |
| `Version.PrintExamples` | src/hwio_version.cpp:28-46 | what to_str prints for a version with a letter and for the unknown version |
| `CompSpec.CompatibleRoundTrip` | src/hwio_comp_spec.cpp:57-82 | `vendor,type-a.b.c` reads back exactly if the type has no comma and the version is fully specified; vendor may have commas and hyphens, type hyphens |
| `CompSpec.PrintRoundTrip` | src/hwio_comp_spec.cpp:24-82 | what to_str prints reads back with name and colon in the vendor exactly if the type has no comma and the version is fully specified |
| `CompSpec.VendorAndType` | src/hwio_comp_spec.cpp:43-46 | exactly when `vendor,type` reads back, for every vendor and type, given the index that is assigned to the type |
| `CompSpec.VendorAndTypeExample` | src/hwio_comp_spec.cpp:43-46 | a string that does not read back |
| `CompSpec.ParseTypeOnly` | src/hwio_comp_spec.cpp:40-42 | a string without comma and hyphen is the type |
| `CompSpec.ParseTypeAndVersion` | src/hwio_comp_spec.cpp:48-55 | without a comma there is no vendor; what follows the last hyphen is the version, or part of the type if it is no version |
| `CompSpec.ParseVendorOnly` | src/hwio_comp_spec.cpp:43-46 | with a comma and no hyphen the vendor precedes the last comma and the type is the character of an index |
| `CompSpec.ParseHyphenVendor` | src/hwio_comp_spec.cpp:57-68 | with hyphens in the vendor only, vendor and type are read whole and the version is unknown |
| `CompSpec.ParseOfSeparated` | src/hwio_comp_spec.cpp:57-68 | with a comma and then a hyphen: vendor, type and version, or vendor and type if it is no version |
| `CompSpec.EveryForm` | src/hwio_comp_spec.cpp:24-69 | these five forms are all strings |
| `CompSpec.TypeVersionRoundTrip` | src/hwio_comp_spec.cpp:48-55 | `type-a.b.c` reads back exactly if the type has no comma and the version is fully specified |
| `CompSpec.ParseSamples` | src/hwio_comp_spec.cpp:24-69 | strings of the tests and of the sample trees |
| `CompSpec.MatchingIsMonotone` | src/hwio_comp_spec.cpp:84-96 | blanking vendor or type or wildcarding version parts never loses a match |
| `Search.FilterDevices` | src/bus/ihwio_bus.h:15-52 | the nested loops compute `Search.Filter` |
| `Search.FindBySpec` | src/bus/ihwio_bus.h:37-48 | the flag is set exactly if some query spec matches some device spec |
| `Search.FindByName` | src/bus/ihwio_bus.h:25-34 | found exactly if some query spec has the device's non-empty name |
| `Search.FilterCounts` | src/bus/ihwio_bus.h:15-52 | each occurrence of a matching device is kept once, others are dropped |
| `Search.SearchIsExact` | src/bus/ihwio_bus.h:15-52 | a device with specs is found exactly if one of its specs and a searched one agree: by name if both have one, else in vendor and type unless one is blank and in every version component searched for; one without specs exactly if its name is searched for |
| `Search.OthersAreNotFound` | src/hwio_comp_spec.cpp:84-96 | a query without names never finds a device of another vendor, type, major, minor or subminor version |
| `Search.MatchesMeans` | src/hwio_comp_spec.cpp:84-96 | what it means that a device spec matches a searched one |
| `Search.OtherVendorExample` | src/hwio_comp_spec.cpp:88-90 | the same type and version of another vendor is not found |
| `Search.SearchIsMonotone` | src/bus/ihwio_bus.h:15-52 | more or more general query specs give a supersequence of the devices |
| `Search.NameSearchIsExact` | src/device/hwio_device_mmap.cpp:37-42 | a search by name finds exactly the devices that carry it |
| `Plugins.PluginTable.InstallPluginFn` | src/server/hwio_server.h:195-213 | one install extends the map and both lists |
| `Plugins.IndexesAgree` | src/server/hwio_server_remote_call.cpp:17-23 | an id is found exactly for names in the map; it selects the same plugin exactly if the first and last install of the name are the same plugin |
| `Plugins.DistinctNamesAgree` | src/server/hwio_server.h:195-213 | with distinct names both indexes select the same plugin |
| `Plugins.SecondInstallDisagrees` | src/server/hwio_server.h:195-213 | a name installed twice with different plugins: the indexes disagree |
| `Plugins.IdsAreStable` | src/server/hwio_server.h:195-213 | later installs never change an id |
| `Plugins.CallsAgree` | src/server/hwio_server_remote_call.cpp:6-85 | a call by the id found for a name does and answers the same as the call by name |
| `Plugins.LookupAnswer` | src/server/hwio_server_remote_call.cpp:87-110 | the answer to a lookup byte by byte: the first index of the name, or not found and all bits set |
| `Plugins.NamedCallIsShort` | src/device/hwio_device_remote.h:33-77 | the server gets the arguments of a call by name exactly if there are none or their last byte is the byte that stands behind the frame |
| `Plugins.NamedCallName` | src/device/hwio_device_remote.h:33-77 | and it gets the name exactly if the name has less than 127 characters, there are arguments, or that byte is zero |
| `Properties.SplitJoined` | src/bus/hwio_bus_devicetree.cpp:192-210 | splitting the NUL-terminated concatenation of any NUL-free strings returns the strings |
| `Properties.SplitIsNulFree` | src/bus/hwio_bus_devicetree.cpp:192-210 | no string of a property contains a NUL |
| `Properties.JoinedSplit` | src/bus/hwio_bus_devicetree.cpp:192-210 | joining what was split gives the property back, up to a missing last NUL |
| `Properties.DevParseCompat` | src/bus/hwio_bus_devicetree.cpp:192-210 | the loop computes that splitting |
| `Properties.ReverseEndianity` | src/bus/hwio_bus_devicetree.cpp:151-160 | the shift-and-or loop reverses the bytes of a word |
| `Properties.ReversedTwice` | src/bus/hwio_bus_devicetree.cpp:151-160 | reversal is its own inverse |
| `Properties.ReversedLoad` | src/bus/hwio_bus_devicetree.cpp:183-187 | little-endian load and reversal give the big-endian value |
| `Properties.DevParseReg` | src/bus/hwio_bus_devicetree.cpp:162-190 | both cells as big-endian values, or a rejection exactly if the size is not eight bytes |
| `DeviceTree.DirectoryYields` | src/bus/hwio_bus_devicetree.cpp:212-245 | a directory is a device exactly if it has a reg file of eight bytes and its compatible property can be parsed; base, size and specs are those of its files; the parser's exception escapes unless there is no reg file, or one of another size that is listed before the compatible property |
| `DeviceTree.DeviceSpecs` | src/bus/hwio_bus_devicetree.cpp:212-245 | a device has exactly one spec for each string of its compatible property, in order, the i-th what the i-th string parses to under the directory's name; else the exception is that of the first string that does not parse |
| `DeviceTree.NoCompatible` | src/bus/hwio_bus_devicetree.cpp:212-245 | without the property the device has no specs |
| `DeviceTree.WalkFindsPreorder` | src/bus/hwio_bus_devicetree.cpp:323-365 | a walk finds the devices of the recursive preorder, also below directories that are rejected |
| `DeviceTree.DirectoryFirst` | src/bus/hwio_bus_devicetree.cpp:330-365 | the device of a directory comes before those below it |
| `DeviceTree.ListedFirst` | src/bus/hwio_bus_devicetree.cpp:306-322 | what is below entries listed earlier comes before what is below later ones |
| `DeviceTree.DotsAreSkipped` | src/bus/hwio_bus_devicetree.cpp:306-322 | the entries . and .. are not walked |
| `DeviceTree.OpensOnce` | src/bus/hwio_bus_devicetree.cpp:306-365 | a walk opens and closes every directory of the tree exactly once and nothing else |
| `DeviceTree.FoundByDirectoryName` | src/bus/hwio_bus_devicetree.cpp:212-245 | a device of the tree is found by its directory's name and by no other name |
| `TreeWalker.ChainResolves` | src/bus/hwio_bus_devicetree.cpp:306-322 | the path stack always names the directory on top of the other stack |
| `TreeWalker.StatOfStack` | src/bus/hwio_bus_devicetree.cpp:25-56 | the string built from the stack denotes what the stack denotes |
| `TreeWalker.Descend` | src/bus/hwio_bus_devicetree.cpp:306-322 | going down, what remains is the walk of the subdirectory and then the rest |
| `TreeWalker.Ascend` | src/bus/hwio_bus_devicetree.cpp:349-357 | coming back, what remains starts with closing the directory |
| `TreeWalker.DeeperIsLess` | src/bus/hwio_bus_devicetree.cpp:306-322 | opening a directory lowers the termination measure |
| `DeviceTreeBus.HwioBusDevicetree.FilePathFromStack` | src/bus/hwio_bus_devicetree.cpp:25-56 | the filled buffer is the stack's names joined by slashes |
| `DeviceTreeBus.HwioBusDevicetree.PathStat` | src/bus/hwio_bus_devicetree.cpp:58-88 | stat by the built path gives the entry of the top directory |
| `DeviceTreeBus.HwioBusDevicetree.DirHasFile` | src/bus/hwio_bus_devicetree.cpp:90-106 | true exactly if the directory has such a file; the cursor is rewound |
| `DeviceTreeBus.HwioBusDevicetree.DevFromDir` | src/bus/hwio_bus_devicetree.cpp:212-245 | the loop computes `DeviceTree.Load`, exceptions included |
| `DeviceTreeBus.HwioBusDevicetree.UseFile` | src/bus/hwio_bus_devicetree.cpp:222-238 | one file contributes base and size or specs, or ends the attempt |
| `DeviceTreeBus.HwioBusDevicetree.ParseSpecs` | src/bus/hwio_bus_devicetree.cpp:234-237 | the loop parses every compatibility string, up to the first exception |
| `DeviceTreeBus.HwioBusDevicetree.ReadDir` | src/bus/hwio_bus_devicetree.cpp:309-315 | the next entry of the top directory, and the cursor moves on |
| `DeviceTreeBus.HwioBusDevicetree.OpendirOnStack` | src/bus/hwio_bus_devicetree.cpp:287-301 | the path on the stack opens the entry that was read last |
| `DeviceTreeBus.HwioBusDevicetree.GoNextDir` | src/bus/hwio_bus_devicetree.cpp:306-322 | the next unread subdirectory is opened, or there is none |
| `DeviceTreeBus.HwioBusDevicetree.NextSubdirectory` | src/bus/hwio_bus_devicetree.cpp:309-315 | the loop stops at the first unread subdirectory, skipping files and the dot entries |
| `DeviceTreeBus.HwioBusDevicetree.CheckTop` | src/bus/hwio_bus_devicetree.cpp:334-343 | the top directory is checked once and yields what `DeviceTree.LoadDir` says |
| `DeviceTreeBus.HwioBusDevicetree.StepWalk` | src/bus/hwio_bus_devicetree.cpp:345-359 | one move down or up is the next event of the remaining walk, and there is less work left |
| `DeviceTreeBus.HwioBusDevicetree.DeviceNext` | src/bus/hwio_bus_devicetree.cpp:330-365 | terminates; the walk done and the walk remaining always make up the whole walk; each call returns the next device of it, null exactly at its end with both stacks empty |
| `DeviceTreeBus.HwioBusDevicetree.constructor` | src/bus/hwio_bus_devicetree.cpp:260-267 | the stacks hold the root, and the whole walk remains |
| `DeviceTreeBus.HwioBusDevicetree.CollectAll` | src/bus/hwio_bus_devicetree.cpp:269-274 | the loop collects the devices in the order in which they are found |
| `DeviceTreeBus.HwioBusDevicetree.CollectDevices` | src/bus/hwio_bus_devicetree.cpp:256-282 | the device list is a permutation of the preorder, sorted by base address, with both stacks empty; or the first exception escapes after the devices before it |
| `DeviceTreeBus.SortByBase` | src/bus/hwio_bus_devicetree.cpp:247-254 | sorted by base address, same devices |
| `DeviceTreeBus.HwioBusDevicetree.FindDevices` | src/bus/hwio_bus_devicetree.cpp:367-374 | the shared filter over the device list |
| `DeviceTreeBus.TreeSearchIsExact` | src/bus/hwio_bus_devicetree.cpp:367-374 | a search gives exactly the matching devices of the bus, in the order of its list |
| `Bytes.CStringOfField` | src/bus/hwio_bus_remote.cpp:17-20 | a string shorter than its field survives strncpy |
| `Bytes.U32RoundTrip` | src/hwio_remote.h:41-62 | 32-bit fields read back |
| `Bytes.U32Bytes` | src/hwio_remote.h:41-57 | the bytes of a 32-bit field, the lowest first |
| `Bytes.I32RoundTrip` | src/hwio_remote.h:82-87 | signed 32-bit fields read back |

## Left out

- Sockets: creation, addresses, timeouts, errno texts and logging are not modelled; recv, send, accept and ppoll are parameters or nondeterministic, and interrupted or would-block calls, which the code retries, are not separate steps.
- Liveness of the client's receive loop after the peer has closed: an empty stream is the receive time-out.
- handle_client_requests in src/server/hwio_server.cpp: the poll loop no longer calls it.
- The handlers read over the end of their frame when a write declares more data than it carries, a fast call has five bytes of body or arguments are missing: the missing bytes are zeros here.
- A read outside the device or of more than 2045 bytes is answered as a device error, a write outside the device has no effect, and a query with more than 1022 hits is an error: memory outside the mapping and the transmit buffer is not modelled.
- Named remote calls are not among the requests of whole runs: the stub sends them one byte short (`Plugins.NamedCallIsShort`), so the fast call carries the arguments there; the server's handler for named calls is modelled.
- Whole runs have calls whose stub expects as many result bytes as the plugin has; nothing in the code checks this (`Service.CallStaysInStep`, `Limits.VoidStubSlips`, `Limits.SilentCallBlocks`).
- Client stubs work on 2048-byte buffers without checking sizes: reads of at most 2045, writes of at most 2037 bytes and names under 128 characters are required of their callers.
- Plugins are opaque functions of the device and the arguments; in whole runs they do not throw, and for the attach counts they do not attach devices.
- Devices of the server are values with their access trace, and buses are lists of positions in the device list; several buses may list the same device. Device objects that are shared between the server and other code are not modelled. `BlockTransfer.Device` has the loops on an object.
- PollRun.PollLoopRefinesLocal: sends to clients do not fail in these runs; a client that disappears is one whose socket ends or has a fault, and what it had sent and was not received stays unhandled.
- Rounds.ServerStaysConsistent: attaching a device and writing to one do not throw, so a round is left only by an exception of the master socket; after an exception of attach or of a device the code skips the rebuild of the poll set.
- Rounds.RoundKeeps: likewise, the exceptions are those of the master socket.
- PollLoop.HwioServer.VisitSocket: likewise, the exceptions are those of the master socket.
- Server.MessageHandler.HandleWrite: a write outside the device has no effect here, and a device write that throws is not modelled; the code would store outside the mapping, or leave the round.
- DIR handles are values on the stack: the walk holds the only reference to each. File errors while a tree is read (a directory or property that cannot be opened) are not modelled, and neither are changes to the tree during the walk.
- The original constructor of the device-tree bus opens the root and runs the loop; here `CollectDevices` is the loop. `SortByBase` is one sort that meets the contract of std::sort, which may order equal addresses differently.
- Exceptions of std::stoi for numbers that do not fit an int are modelled in the version parser and escape from the device-tree walk as they do in the code; the regular expression library itself is not modelled, its match is given as a function that is proved sound and complete for this expression.
- The block loops are two methods each (`Words` and the octet tail), because the original's while loop runs in two phases.
- `PollLoop.HwioServer` keeps message handling in a `MessageHandler` object; in the original both are one class. Installing plugins is the class `Plugins.PluginTable`.
- hwio_bus_json, the command line, address splitting, the Python sample, primitive and composite buses beyond their use of the shared filter.
- Error texts of 1022 characters or more, and NUL characters in function names that are echoed in an error text.
